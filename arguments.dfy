/**
 * The command-line loop of `main` (util/src/Main.java:16-55): `-o` and `-p`
 * take the next argument whatever it is, `-a`, `-s` and `-f` set flags, and
 * everything else is an input path. A missing value and an empty path list
 * stop the program before any file is read.
 */
module Arguments {
  import opened Wrappers

  datatype Options = Options(
    outputPath: string,
    prefix: string,
    append: bool,
    shortStats: bool,
    fullStats: bool,
    paths: seq<string>)

  datatype ArgError = MissingOutputPath | MissingPrefix | NoInputFiles

  /** The values main starts from: no directory, no prefix, no flag, no path. */
  function Defaults(): Options {
    Options("", "", false, false, false, [])
  }

  predicate IsFlag(arg: string) {
    arg == "-o" || arg == "-p" || arg == "-a" || arg == "-s" || arg == "-f"
  }

  /**
   * The loop from index `i` on, with the options gathered so far. It fails
   * only when `-o` or `-p` is the last argument. On success a flag once set
   * stays set and is set only by its own argument, the paths gathered so
   * far stay first, every new path is one of the remaining arguments, and
   * the directory and prefix change only where `-o` and `-p` appear.
   */
  function ScanFrom(args: seq<string>, i: nat, o: Options): (r: Result<Options, ArgError>)
    requires i <= |args|
    ensures r.Failure? ==>
              |args| > 0 && (args[|args| - 1] == "-o" || args[|args| - 1] == "-p") &&
              r.error == (if args[|args| - 1] == "-o" then MissingOutputPath else MissingPrefix)
    ensures r.Success? ==>
              (o.append ==> r.value.append) && (r.value.append ==> o.append || "-a" in args[i..]) &&
              (o.shortStats ==> r.value.shortStats) && (r.value.shortStats ==> o.shortStats || "-s" in args[i..]) &&
              (o.fullStats ==> r.value.fullStats) && (r.value.fullStats ==> o.fullStats || "-f" in args[i..])
    ensures r.Success? ==>
              o.paths <= r.value.paths &&
              forall p :: p in r.value.paths ==> p in o.paths || p in args[i..]
    ensures r.Success? && "-o" !in args[i..] ==> r.value.outputPath == o.outputPath
    ensures r.Success? && "-p" !in args[i..] ==> r.value.prefix == o.prefix
    decreases |args| - i
  {
    if i == |args| then Success(o)
    else
      assert forall k :: i < k <= |args| ==> forall x :: x in args[k..] ==> x in args[i..];
      if args[i] == "-o" then
        if i + 1 < |args| then ScanFrom(args, i + 2, o.(outputPath := args[i + 1])) else Failure(MissingOutputPath)
      else if args[i] == "-p" then
        if i + 1 < |args| then ScanFrom(args, i + 2, o.(prefix := args[i + 1])) else Failure(MissingPrefix)
      else if args[i] == "-a" then ScanFrom(args, i + 1, o.(append := true))
      else if args[i] == "-s" then ScanFrom(args, i + 1, o.(shortStats := true))
      else if args[i] == "-f" then ScanFrom(args, i + 1, o.(fullStats := true))
      else ScanFrom(args, i + 1, o.(paths := o.paths + [args[i]]))
  }

  /**
   * The loop from the start: it fails only on a trailing `-o` or `-p`, and
   * on success every input path is one of the arguments.
   */
  function Scan(args: seq<string>): (r: Result<Options, ArgError>)
    ensures r.Failure? ==> |args| > 0 && (args[|args| - 1] == "-o" || args[|args| - 1] == "-p")
    ensures r.Failure? ==> r.error == (if args[|args| - 1] == "-o" then MissingOutputPath else MissingPrefix)
    ensures r.Success? ==> forall p :: p in r.value.paths ==> p in args
    ensures r.Success? && "-o" !in args ==> r.value.outputPath == ""
    ensures r.Success? && "-p" !in args ==> r.value.prefix == ""
  {
    assert args[0..] == args;
    ScanFrom(args, 0, Defaults())
  }

  /**
   * The whole check of lines 16-55: the loop, then the empty path list. It
   * succeeds exactly when the loop succeeds with at least one input path.
   */
  function ParseArgs(args: seq<string>): (r: Result<Options, ArgError>)
    ensures r.Success? <==> Scan(args).Success? && |Scan(args).value.paths| > 0
    ensures r.Success? ==> r == Scan(args)
    ensures r.Failure? && Scan(args).Failure? ==> r.error == Scan(args).error
    ensures r.Failure? && Scan(args).Success? ==> r.error == NoInputFiles
  {
    match Scan(args)
    case Failure(e) => Failure(e)
    case Success(o) => if |o.paths| == 0 then Failure(NoInputFiles) else Success(o)
  }

  /** The argument loop of main, lines 16-47. */
  method ScanArgs(args: seq<string>) returns (r: Result<Options, ArgError>)
    ensures r == Scan(args)
  {
    var outputPath, prefix := "", "";
    var appendMode, shortStats, fullStats := false, false, false;
    var filePaths: seq<string> := [];
    var i := 0;
    while i < |args|
      invariant i <= |args|
      invariant ScanFrom(args, i, Options(outputPath, prefix, appendMode, shortStats, fullStats, filePaths)) == Scan(args)
    {
      if args[i] == "-o" {
        if i + 1 < |args| {
          i := i + 1;
          outputPath := args[i];
        } else {
          return Failure(MissingOutputPath);
        }
      } else if args[i] == "-p" {
        if i + 1 < |args| {
          i := i + 1;
          prefix := args[i];
        } else {
          return Failure(MissingPrefix);
        }
      } else if args[i] == "-a" {
        appendMode := true;
      } else if args[i] == "-s" {
        shortStats := true;
      } else if args[i] == "-f" {
        fullStats := true;
      } else {
        filePaths := filePaths + [args[i]];
      }
      i := i + 1;
    }
    r := Success(Options(outputPath, prefix, appendMode, shortStats, fullStats, filePaths));
  }

  /** Scanning a longer list carries on from where the shorter one stopped. */
  lemma {:induction false} ScanFromAppend(a: seq<string>, b: seq<string>, i: nat, o: Options)
    requires i <= |a| && ScanFrom(a, i, o).Success?
    ensures ScanFrom(a + b, i, o) == ScanFrom(a + b, |a|, ScanFrom(a, i, o).value)
    decreases |a| - i
  {
    var ab := a + b;
    if i < |a| {
      assert ab[i] == a[i];
      if a[i] == "-o" || a[i] == "-p" {
        assert ab[i + 1] == a[i + 1];
        ScanFromAppend(a, b, i + 2, if a[i] == "-o" then o.(outputPath := a[i + 1]) else o.(prefix := a[i + 1]));
      } else if a[i] == "-a" {
        ScanFromAppend(a, b, i + 1, o.(append := true));
      } else if a[i] == "-s" {
        ScanFromAppend(a, b, i + 1, o.(shortStats := true));
      } else if a[i] == "-f" {
        ScanFromAppend(a, b, i + 1, o.(fullStats := true));
      } else {
        ScanFromAppend(a, b, i + 1, o.(paths := o.paths + [a[i]]));
      }
    }
  }

  /** The options after `a + b` are those after `a`, then updated by `b`. */
  lemma ScanAppend(a: seq<string>, b: seq<string>)
    requires Scan(a).Success?
    ensures Scan(a + b) == ScanFrom(a + b, |a|, Scan(a).value)
  {
    ScanFromAppend(a, b, 0, Defaults());
  }

  /**
   * `-o` and `-p` take the next argument whatever it is, even a flag, and the
   * last occurrence wins.
   */
  lemma LastValueWins(a: seq<string>, x: string)
    requires Scan(a).Success?
    ensures Scan(a + ["-o", x]) == Success(Scan(a).value.(outputPath := x))
    ensures Scan(a + ["-p", x]) == Success(Scan(a).value.(prefix := x))
  {
    ScanAppend(a, ["-o", x]);
    ScanAppend(a, ["-p", x]);
  }

  /**
   * The last `-o` and the last `-p` win wherever they stand: whatever
   * follows them without another `-o` (or `-p`) leaves their value.
   */
  lemma LastValueWinsAnywhere(a: seq<string>, x: string, b: seq<string>)
    requires Scan(a).Success? && Scan(a + ["-o", x] + b).Success? && "-o" !in b
    ensures Scan(a + ["-o", x] + b).value.outputPath == x
  {
    var ax := a + ["-o", x];
    LastValueWins(a, x);
    ScanAppend(ax, b);
    assert (ax + b)[|ax|..] == b;
  }

  lemma LastPrefixWinsAnywhere(a: seq<string>, x: string, b: seq<string>)
    requires Scan(a).Success? && Scan(a + ["-p", x] + b).Success? && "-p" !in b
    ensures Scan(a + ["-p", x] + b).value.prefix == x
  {
    var ax := a + ["-p", x];
    LastValueWins(a, x);
    ScanAppend(ax, b);
    assert (ax + b)[|ax|..] == b;
  }

  /** `-o` or `-p` as the final argument is an error. */
  lemma MissingValueIsError(a: seq<string>)
    requires Scan(a).Success?
    ensures Scan(a + ["-o"]) == Failure(MissingOutputPath)
    ensures Scan(a + ["-p"]) == Failure(MissingPrefix)
    ensures ParseArgs(a + ["-o"]).Failure? && ParseArgs(a + ["-p"]).Failure?
  {
    ScanAppend(a, ["-o"]);
    ScanAppend(a, ["-p"]);
  }

  /** Any other argument is appended to the input paths, in order. */
  lemma PathArgumentAppended(a: seq<string>, x: string)
    requires Scan(a).Success? && !IsFlag(x)
    ensures Scan(a + [x]) == Success(Scan(a).value.(paths := Scan(a).value.paths + [x]))
  {
    ScanAppend(a, [x]);
  }

  /** Without flags every argument is an input path, in the given order. */
  lemma {:induction false} NoFlagsAllPaths(args: seq<string>)
    requires forall i :: 0 <= i < |args| ==> !IsFlag(args[i])
    ensures Scan(args) == Success(Defaults().(paths := args))
  {
    if args != [] {
      var front := args[..|args| - 1];
      NoFlagsAllPaths(front);
      PathArgumentAppended(front, args[|args| - 1]);
      assert front + [args[|args| - 1]] == args;
    }
  }

  /** An argument list with no input path is refused before anything is read. */
  lemma NoPathsIsError(args: seq<string>)
    requires Scan(args).Success? && Scan(args).value.paths == []
    ensures ParseArgs(args) == Failure(NoInputFiles)
  {
  }

  /** `-p -a in.txt` sets the prefix to "-a" and leaves append mode off. */
  lemma PrefixTakesFlagExample()
    ensures ParseArgs(["-p", "-a", "in.txt"]) == Success(Defaults().(prefix := "-a", paths := ["in.txt"]))
  {
    var args := ["-p", "-a", "in.txt"];
    var o := Defaults().(prefix := "-a");
    assert args[2] == "in.txt" && |args[2]| == 6 && !IsFlag(args[2]);
    assert o.paths + [args[2]] == ["in.txt"];
    assert ScanFrom(args, 2, o) == ScanFrom(args, 3, o.(paths := ["in.txt"]));
    assert Scan(args) == ScanFrom(args, 2, o);
  }
}
