/**
 * `writeToFile` (util/src/Main.java:126-133) over an abstract file system: a
 * map from path to the lines the file holds. A path is the platform join of
 * the output directory and the file name, kept as an injective constructor.
 */
module FileStore {

  /**
   * Paths.get(dir, name), kept as an injective constructor by choice: in Java
   * `Paths.get("a", "b")` and `Paths.get("", "a/b")` name one file, here two.
   */
  datatype Path = Join(dir: string, name: string)

  /** The lines of the file at `p`; a missing file reads as empty. */
  function Lookup(files: map<Path, seq<string>>, p: Path): seq<string> {
    if p in files then files[p] else []
  }

  /**
   * One `writeToFile` call: open `p` with FileWriter(append), write `content`
   * and a line terminator. Without append the file is created or truncated
   * first. When the call `failed`, its IOException is swallowed and the files
   * stay as they were.
   */
  function Write(files: map<Path, seq<string>>, p: Path, content: string, append: bool, failed: bool)
    : (r: map<Path, seq<string>>)
    ensures !failed ==> p in r && r[p] == (if append then Lookup(files, p) else []) + [content]
    ensures failed ==> r == files
    ensures forall q :: q != p ==> (q in r <==> q in files) && Lookup(r, q) == Lookup(files, q)
  {
    if failed then files
    else files[p := (if append then Lookup(files, p) else []) + [content]]
  }

  /**
   * The file system the program writes to. `attempts` counts the
   * `writeToFile` calls made so far, and `fails(n)` says whether the call
   * numbered `n` fails: whether an open or a write succeeds is up to the
   * environment and may change from one call to the next.
   */
  class Store {
    var files: map<Path, seq<string>>
    var attempts: nat
    const fails: nat -> bool

    constructor (files: map<Path, seq<string>>, fails: nat -> bool)
      ensures this.files == files && this.attempts == 0 && this.fails == fails
    {
      this.files := files;
      this.attempts := 0;
      this.fails := fails;
    }

    /** writeToFile(outputPath, prefix, fileName, content, appendMode). */
    method WriteToFile(outputPath: string, prefix: string, fileName: string, content: string, append: bool)
      modifies this
      ensures attempts == old(attempts) + 1
      ensures files == Write(old(files), Join(outputPath, prefix + fileName), content, append, fails(old(attempts)))
    {
      var fullPath := Join(outputPath, prefix + fileName);
      if !fails(attempts) {
        files := files[fullPath := (if append then Lookup(files, fullPath) else []) + [content]];
      }
      attempts := attempts + 1;
    }
  }
}
