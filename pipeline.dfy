/**
 * The body of `main` (util/src/Main.java:7-111): scan the arguments, read
 * every input file line by line, route each parsed line to its bucket's file
 * and statistics, and print the report.
 *
 * The dispatch at lines 73-95 tests `instanceof Long`, `instanceof Float`
 * and `instanceof String`, while parseLine returns a boxed Double for a
 * decimal number. The middle test therefore never holds: a line parsed as a
 * Double takes none of the three branches and changes nothing. The model
 * routes only Long and String values.
 *
 * Every routed line makes one call of writeToFile. Whether that call fails
 * is an oracle over the number of calls made so far, so a file can fail to
 * open once and open the next time; the bucket's append flag is set after
 * the call either way (lines 80 and 94).
 */
module Pipeline {
  import opened Wrappers
  import opened Classifier
  import opened FileStore
  import opened Aggregator
  import opened Arguments
  import opened Report

  function FileName(b: Bucket): string {
    match b
    case Integers => "integers.txt"
    case Floats => "floats.txt"
    case Strings => "strings.txt"
  }

  /**
   * Where the output goes: the `-o` directory and the `-p` prefix; `fails(n)`
   * says whether the writeToFile call numbered `n` (from 0) fails.
   */
  datatype Destination = Destination(outputPath: string, prefix: string, fails: nat -> bool)

  function BucketPath(dest: Destination, b: Bucket): Path {
    Join(dest.outputPath, dest.prefix + FileName(b))
  }

  function BucketPaths(dest: Destination): set<Path> {
    {BucketPath(dest, Integers), BucketPath(dest, Floats), BucketPath(dest, Strings)}
  }

  /** The three buckets write to three different files. */
  lemma BucketPathsDistinct(dest: Destination, b: Bucket, c: Bucket)
    requires b != c
    ensures BucketPath(dest, b) != BucketPath(dest, c)
  {
    assert |BucketPath(dest, b).name| == |dest.prefix| + |FileName(b)|;
    assert |BucketPath(dest, c).name| == |dest.prefix| + |FileName(c)|;
  }

  /** The bucket a dispatched value lands in, and the text written for it. */
  datatype Routed = Routed(bucket: Bucket, text: string)

  /**
   * The branch of lines 73-95 a parsed line takes: a Long goes to the
   * integer file as its canonical decimal, which reads back as the same
   * long; a String goes verbatim to the string file; a Double matches no
   * branch, and nothing ever goes to the float file.
   */
  function Route(obj: Parsed): (r: Option<Routed>)
    ensures r.None? <==> obj.Double?
    ensures r.Some? ==> r.value.bucket != Floats
    ensures r.Some? ==> (r.value.bucket == Integers <==> obj.Long?)
    ensures obj.Long? && InLongRange(obj.value) ==> IsCanonical(r.value.text) && ParseLong(r.value.text) == Some(obj.value)
    ensures obj.Text? ==> r.value.text == obj.line
  {
    match obj
    case Long(v) =>
      assert InLongRange(v) ==> ParseLong(LongToString(v)) == Some(v) by {
        if InLongRange(v) {
          LongToStringRoundTrip(v);
        }
      }
      Some(Routed(Integers, LongToString(v)))
    case Text(line) => Some(Routed(Strings, line))
    case Double => None
  }

  /**
   * The state `main` keeps across lines: statistics, `appendModes`, the
   * output files, and how many writeToFile calls were made.
   */
  datatype RunState = RunState(stats: Stats, appendModes: map<Bucket, bool>, files: map<Path, seq<string>>, attempts: nat)

  predicate ValidState(rs: RunState) {
    Complete(rs.stats.typeCounts) && Complete(rs.appendModes)
  }

  /**
   * Lines 48-51 and 57-64: every append flag starts as `-a`, the statistics
   * start empty, the files are as found, and no write was attempted yet.
   */
  function InitialState(append: bool, files: map<Path, seq<string>>): (rs: RunState)
    ensures ValidState(rs)
    ensures forall b: Bucket :: rs.appendModes[b] == append
    ensures rs.stats == Initial() && rs.files == files && rs.attempts == 0
  {
    var appendModes := map[Integers := append, Floats := append, Strings := append];
    EveryBucketIn(appendModes);
    RunState(Initial(), appendModes, files, 0)
  }

  /**
   * One line of the loop at lines 70-100: parse it, write the routed text
   * with the bucket's append flag, update the statistics, then set the flag.
   * A Double changes nothing; anything else makes exactly one write attempt.
   */
  function Dispatch(rs: RunState, dest: Destination, line: string, acceptsDouble: string -> bool): (r: RunState)
    requires ValidState(rs)
    ensures ValidState(r)
    ensures r.stats == Observe(rs.stats, ParseLine(line, acceptsDouble))
    ensures ParseLine(line, acceptsDouble).Double? ==> r == rs
    ensures r.attempts == rs.attempts + (if ParseLine(line, acceptsDouble).Double? then 0 else 1)
    ensures r.appendModes[Floats] == rs.appendModes[Floats]
  {
    var obj := ParseLine(line, acceptsDouble);
    match Route(obj)
    case None => rs
    case Some(Routed(b, text)) =>
      RunState(Observe(rs.stats, obj),
               rs.appendModes[b := true],
               Write(rs.files, BucketPath(dest, b), text, rs.appendModes[b], dest.fails(rs.attempts)),
               rs.attempts + 1)
  }

  /**
   * The lines of one input file, in order. The statistics are those of the
   * Aggregator over the same lines, and every routed line is one write attempt.
   */
  function ProcessLines(rs: RunState, dest: Destination, lines: seq<string>, acceptsDouble: string -> bool): (r: RunState)
    requires ValidState(rs)
    ensures ValidState(r)
    ensures r.stats == Aggregate(rs.stats, lines, acceptsDouble)
    ensures r.attempts == rs.attempts + RoutedCount(lines, acceptsDouble)
  {
    if lines == [] then rs
    else Dispatch(ProcessLines(rs, dest, lines[..|lines| - 1], acceptsDouble), dest, lines[|lines| - 1], acceptsDouble)
  }

  /**
   * The input files, in argument order (lines 67-104). Files are read one
   * after the other, so the run sees the concatenation of their lines.
   */
  function ProcessFiles(rs: RunState, dest: Destination, inputs: seq<seq<string>>, acceptsDouble: string -> bool): (r: RunState)
    requires ValidState(rs)
    ensures r == ProcessLines(rs, dest, Concat(inputs), acceptsDouble)
  {
    if inputs == [] then rs
    else
      var front := inputs[..|inputs| - 1];
      ProcessLinesAppend(rs, dest, Concat(front), inputs[|inputs| - 1], acceptsDouble);
      ProcessLines(ProcessFiles(rs, dest, front, acceptsDouble), dest, inputs[|inputs| - 1], acceptsDouble)
  }

  /**
   * The lines each input path yields: those read before the end of the file
   * or before a read error. A path missing from `readable` cannot be opened
   * and yields nothing; either way the loop goes on with the next file.
   */
  function Delivered(paths: seq<string>, readable: map<string, seq<string>>): (inputs: seq<seq<string>>)
    ensures |inputs| == |paths|
    ensures forall i :: 0 <= i < |paths| && paths[i] in readable ==> inputs[i] == readable[paths[i]]
    ensures forall i :: 0 <= i < |paths| && paths[i] !in readable ==> inputs[i] == []
  {
    seq(|paths|, i requires 0 <= i < |paths| => if paths[i] in readable then readable[paths[i]] else [])
  }

  function Concat(inputs: seq<seq<string>>): seq<string> {
    if inputs == [] then [] else Concat(inputs[..|inputs| - 1]) + inputs[|inputs| - 1]
  }

  /** The number of lines routed to some bucket: the lines that are not a Double. */
  function RoutedCount(lines: seq<string>, acceptsDouble: string -> bool): (n: nat)
    ensures n <= |lines|
  {
    if lines == [] then 0
    else RoutedCount(lines[..|lines| - 1], acceptsDouble) + (if ParseLine(lines[|lines| - 1], acceptsDouble).Double? then 0 else 1)
  }

  /** The texts routed to bucket `b`, in order. */
  function Payloads(lines: seq<string>, b: Bucket, acceptsDouble: string -> bool): seq<string> {
    if lines == [] then []
    else
      var route := Route(ParseLine(lines[|lines| - 1], acceptsDouble));
      Payloads(lines[..|lines| - 1], b, acceptsDouble)
      + (if route.Some? && route.value.bucket == b then [route.value.text] else [])
  }

  /**
   * The texts routed to bucket `b` whose write attempt succeeds, in order;
   * the attempts are numbered from `start`. They are some of the bucket's
   * texts, and none when the bucket received nothing.
   */
  function Kept(lines: seq<string>, b: Bucket, acceptsDouble: string -> bool, fails: nat -> bool, start: nat): (kept: seq<string>)
    ensures |kept| <= |Payloads(lines, b, acceptsDouble)|
  {
    if lines == [] then []
    else
      var front := lines[..|lines| - 1];
      var route := Route(ParseLine(lines[|lines| - 1], acceptsDouble));
      Kept(front, b, acceptsDouble, fails, start)
      + (if route.Some? && route.value.bucket == b && !fails(start + RoutedCount(front, acceptsDouble))
         then [route.value.text] else [])
  }

  /** Whether the first write to bucket `b` succeeds, the attempts numbered from `start`. */
  function FirstWriteSucceeds(lines: seq<string>, b: Bucket, acceptsDouble: string -> bool, fails: nat -> bool, start: nat): bool {
    if lines == [] then false
    else
      var front := lines[..|lines| - 1];
      var route := Route(ParseLine(lines[|lines| - 1], acceptsDouble));
      if Payloads(front, b, acceptsDouble) != [] then FirstWriteSucceeds(front, b, acceptsDouble, fails, start)
      else route.Some? && route.value.bucket == b && !fails(start + RoutedCount(front, acceptsDouble))
  }

  /** The lines classified as strings, in order. */
  function StringLines(lines: seq<string>, acceptsDouble: string -> bool): seq<string> {
    if lines == [] then []
    else
      var line := lines[|lines| - 1];
      StringLines(lines[..|lines| - 1], acceptsDouble) + (if ParseLine(line, acceptsDouble).Text? then [line] else [])
  }

  /** A line the double parser accepts (and the long parser does not) changes nothing at all. */
  lemma DoubleLineDropped(rs: RunState, dest: Destination, line: string, acceptsDouble: string -> bool)
    requires ValidState(rs) && ParseLine(line, acceptsDouble) == Double
    ensures Dispatch(rs, dest, line, acceptsDouble) == rs
  {
  }

  /**
   * A signed numeral too large for a long is taken by Double.parseDouble and
   * then dropped by the dispatch: it reaches no file and no statistic.
   */
  lemma OverflowDropped(rs: RunState, dest: Destination, line: string, acceptsDouble: string -> bool)
    requires ValidState(rs) && ParsesLikeDouble(acceptsDouble)
    requires SignedDigits(line) && ParseLong(line).None?
    ensures Dispatch(rs, dest, line, acceptsDouble) == rs
  {
    SignedDigitsNeverText(line, acceptsDouble);
  }

  /** A numeral with blanks around it is dropped in the same way. */
  lemma PaddedNumeralDropped(rs: RunState, dest: Destination, pre: string, t: string, post: string,
                             acceptsDouble: string -> bool)
    requires ValidState(rs) && ParsesLikeDouble(acceptsDouble) && SignedDigits(t)
    requires AllBlank(pre) && AllBlank(post) && |pre| + |post| > 0
    ensures Dispatch(rs, dest, pre + t + post, acceptsDouble) == rs
  {
    PaddedNumeralIsDouble(pre, t, post, acceptsDouble);
  }

  /** An empty line is a string: it is written to the string file and counted. */
  lemma EmptyLineToStrings(rs: RunState, dest: Destination, acceptsDouble: string -> bool)
    requires ValidState(rs) && ParsesLikeDouble(acceptsDouble)
    ensures Route(ParseLine("", acceptsDouble)) == Some(Routed(Strings, ""))
    ensures var r := Dispatch(rs, dest, "", acceptsDouble);
            r.stats.typeCounts[Strings] == rs.stats.typeCounts[Strings] + 1 &&
            r.attempts == rs.attempts + 1 && r.appendModes[Strings]
  {
    EmptyLineIsString(acceptsDouble);
  }

  /**
   * An integer line (lines 73-80): its canonical decimal is written to the
   * integer file with the bucket's flag, the integer count goes up by one,
   * the value is added with 64-bit wrap-around and taken into the extrema,
   * and the flag becomes true whether or not the write succeeded.
   */
  lemma IntegerLineStep(rs: RunState, dest: Destination, line: string, acceptsDouble: string -> bool, v: int)
    requires ValidState(rs) && ParseLine(line, acceptsDouble) == Long(v)
    ensures var st := rs.stats;
            Dispatch(rs, dest, line, acceptsDouble) ==
            RunState(st.(typeCounts := st.typeCounts[Integers := st.typeCounts[Integers] + 1],
                         intSum := Wrap64(st.intSum + v), intMin := Min(st.intMin, v), intMax := Max(st.intMax, v)),
                     rs.appendModes[Integers := true],
                     Write(rs.files, BucketPath(dest, Integers), LongToString(v), rs.appendModes[Integers], dest.fails(rs.attempts)),
                     rs.attempts + 1)
  {
  }

  /**
   * A line neither parser accepts (lines 89-94): it is written verbatim to
   * the string file with the bucket's flag, the string count goes up by one,
   * its length is taken into the length extrema, and the flag becomes true.
   */
  lemma StringLineStep(rs: RunState, dest: Destination, line: string, acceptsDouble: string -> bool)
    requires ValidState(rs) && ParseLine(line, acceptsDouble) == Text(line)
    ensures var st := rs.stats;
            Dispatch(rs, dest, line, acceptsDouble) ==
            RunState(st.(typeCounts := st.typeCounts[Strings := st.typeCounts[Strings] + 1],
                         stringMinLen := Min(st.stringMinLen, |line|), stringMaxLen := Max(st.stringMaxLen, |line|)),
                     rs.appendModes[Strings := true],
                     Write(rs.files, BucketPath(dest, Strings), line, rs.appendModes[Strings], dest.fails(rs.attempts)),
                     rs.attempts + 1)
  {
  }

  /** Nothing is ever routed to the float bucket. */
  lemma {:induction false} NoFloatPayloads(lines: seq<string>, acceptsDouble: string -> bool)
    ensures Payloads(lines, Floats, acceptsDouble) == []
  {
    if lines != [] {
      NoFloatPayloads(lines[..|lines| - 1], acceptsDouble);
    }
  }

  /** The integer file receives the canonical decimal of every integer line, in order. */
  lemma {:induction false} IntegerPayloads(lines: seq<string>, acceptsDouble: string -> bool)
    ensures var w, ints := Payloads(lines, Integers, acceptsDouble), IntegerValues(lines, acceptsDouble);
            |w| == |ints| && forall i :: 0 <= i < |w| ==> w[i] == LongToString(ints[i])
  {
    if lines != [] {
      IntegerPayloads(lines[..|lines| - 1], acceptsDouble);
    }
  }

  /** The string file receives every string line verbatim, in order. */
  lemma {:induction false} StringPayloads(lines: seq<string>, acceptsDouble: string -> bool)
    ensures Payloads(lines, Strings, acceptsDouble) == StringLines(lines, acceptsDouble)
  {
    if lines != [] {
      StringPayloads(lines[..|lines| - 1], acceptsDouble);
    }
  }

  /** Every routed line goes to the integer or the string bucket. */
  lemma {:induction false} RoutedCountSplit(lines: seq<string>, acceptsDouble: string -> bool)
    ensures RoutedCount(lines, acceptsDouble)
         == |Payloads(lines, Integers, acceptsDouble)| + |Payloads(lines, Strings, acceptsDouble)|
  {
    if lines != [] {
      RoutedCountSplit(lines[..|lines| - 1], acceptsDouble);
    }
  }

  /**
   * When no write fails, every text routed to a bucket is written, and the
   * first write succeeds as soon as there is one.
   */
  lemma {:induction false} KeptAllSucceed(lines: seq<string>, b: Bucket, acceptsDouble: string -> bool,
                                          fails: nat -> bool, start: nat)
    requires forall n :: !fails(n)
    ensures Kept(lines, b, acceptsDouble, fails, start) == Payloads(lines, b, acceptsDouble)
    ensures FirstWriteSucceeds(lines, b, acceptsDouble, fails, start) == (Payloads(lines, b, acceptsDouble) != [])
  {
    if lines != [] {
      KeptAllSucceed(lines[..|lines| - 1], b, acceptsDouble, fails, start);
    }
  }

  /** `f` and `g` agree at `p`, including on whether a file exists there. */
  predicate SameAt(f: map<Path, seq<string>>, g: map<Path, seq<string>>, p: Path) {
    (p in f <==> p in g) && Lookup(f, p) == Lookup(g, p)
  }

  /**
   * Bucket `b`'s flag and file in `r`, after the texts `w` were routed to it
   * from `rs`, of which `kept` were written, `firstOk` telling whether the
   * first write succeeded. The flag is as it was, or true once anything was
   * routed, even when the write failed. The file is untouched while no write
   * succeeded. Otherwise it holds `kept`, after the old content unless the
   * flag started false and the first write, which truncates, succeeded.
   */
  predicate BucketOutput(rs: RunState, r: RunState, dest: Destination, b: Bucket, w: seq<string>,
                         kept: seq<string>, firstOk: bool)
    requires ValidState(rs) && ValidState(r)
  {
    var p := BucketPath(dest, b);
    r.appendModes[b] == (rs.appendModes[b] || w != []) &&
    (w == [] ==> kept == [] && !firstOk) &&
    (firstOk ==> kept != []) &&
    (kept == [] ==> SameAt(r.files, rs.files, p)) &&
    (kept != [] ==>
       p in r.files && r.files[p] == (if !rs.appendModes[b] && firstOk then [] else Lookup(rs.files, p)) + kept)
  }

  /** One more line extends the bucket's texts by what it routes there, and what is written by what succeeds. */
  lemma DispatchOutput(rs: RunState, r: RunState, dest: Destination, b: Bucket, w: seq<string>,
                       kept: seq<string>, firstOk: bool, line: string, acceptsDouble: string -> bool)
    requires ValidState(rs) && ValidState(r) && BucketOutput(rs, r, dest, b, w, kept, firstOk)
    ensures var route := Route(ParseLine(line, acceptsDouble));
            var hit := route.Some? && route.value.bucket == b;
            var ok := hit && !dest.fails(r.attempts);
            BucketOutput(rs, Dispatch(r, dest, line, acceptsDouble), dest, b,
                         w + (if hit then [route.value.text] else []),
                         kept + (if ok then [route.value.text] else []),
                         firstOk || (w == [] && ok))
  {
    var r' := Dispatch(r, dest, line, acceptsDouble);
    match Route(ParseLine(line, acceptsDouble))
    case None =>
      assert r' == r && w + [] == w && kept + [] == kept;
    case Some(Routed(c, text)) =>
      WriteStep(rs, r, r', dest, b, w, kept, firstOk, c, text, dest.fails(r.attempts));
  }

  /** The write of `text` to bucket `c`'s file, as seen from bucket `b`. */
  lemma WriteStep(rs: RunState, r: RunState, r': RunState, dest: Destination, b: Bucket, w: seq<string>,
                  kept: seq<string>, firstOk: bool, c: Bucket, text: string, failed: bool)
    requires ValidState(rs) && ValidState(r) && ValidState(r') && BucketOutput(rs, r, dest, b, w, kept, firstOk)
    requires r'.files == Write(r.files, BucketPath(dest, c), text, r.appendModes[c], failed)
    requires r'.appendModes == r.appendModes[c := true]
    ensures BucketOutput(rs, r', dest, b,
                         w + (if c == b then [text] else []),
                         kept + (if c == b && !failed then [text] else []),
                         firstOk || (w == [] && c == b && !failed))
  {
    var p := BucketPath(dest, b);
    if c != b {
      BucketPathsDistinct(dest, b, c);
      assert SameAt(r'.files, r.files, p);
      assert w + [] == w && kept + [] == kept;
    } else if failed {
      assert r'.files == r.files;
      assert kept + [] == kept;
    } else if w == [] {
      assert kept == [] && !firstOk;
      assert r'.files[p] == (if r.appendModes[b] then Lookup(r.files, p) else []) + [text];
      assert r.appendModes[b] == rs.appendModes[b] && SameAt(r.files, rs.files, p);
      assert kept + [text] == [text];
    } else {
      assert r.appendModes[b];
      assert r'.files[p] == Lookup(r.files, p) + [text];
    }
  }

  /** A bucket's flag and file after a sequence of lines; see BucketOutput. */
  lemma {:induction false} ProcessLinesOutput(rs: RunState, dest: Destination, lines: seq<string>,
                                              acceptsDouble: string -> bool, b: Bucket)
    requires ValidState(rs)
    ensures BucketOutput(rs, ProcessLines(rs, dest, lines, acceptsDouble), dest, b, Payloads(lines, b, acceptsDouble),
                         Kept(lines, b, acceptsDouble, dest.fails, rs.attempts),
                         FirstWriteSucceeds(lines, b, acceptsDouble, dest.fails, rs.attempts))
  {
    if lines != [] {
      var front, line := lines[..|lines| - 1], lines[|lines| - 1];
      var r := ProcessLines(rs, dest, front, acceptsDouble);
      var w, kept := Payloads(front, b, acceptsDouble), Kept(front, b, acceptsDouble, dest.fails, rs.attempts);
      var firstOk := FirstWriteSucceeds(front, b, acceptsDouble, dest.fails, rs.attempts);
      ProcessLinesOutput(rs, dest, front, acceptsDouble, b);
      DispatchOutput(rs, r, dest, b, w, kept, firstOk, line, acceptsDouble);
      assert r.attempts == rs.attempts + RoutedCount(front, acceptsDouble);
      assert w == [] ==> !firstOk;
    }
  }

  /** Only the three bucket files are ever written. */
  lemma {:induction false} ProcessLinesOtherFiles(rs: RunState, dest: Destination, lines: seq<string>,
                                                  acceptsDouble: string -> bool, q: Path)
    requires ValidState(rs) && q !in BucketPaths(dest)
    ensures SameAt(ProcessLines(rs, dest, lines, acceptsDouble).files, rs.files, q)
  {
    if lines != [] {
      ProcessLinesOtherFiles(rs, dest, lines[..|lines| - 1], acceptsDouble, q);
      var route := Route(ParseLine(lines[|lines| - 1], acceptsDouble));
      if route.Some? {
        assert q != BucketPath(dest, route.value.bucket);
      }
    }
  }

  /** Processing `a` then `b` is processing `a + b`. */
  lemma {:induction false} ProcessLinesAppend(rs: RunState, dest: Destination, a: seq<string>, b: seq<string>, acceptsDouble: string -> bool)
    requires ValidState(rs)
    ensures ProcessLines(rs, dest, a + b, acceptsDouble) == ProcessLines(ProcessLines(rs, dest, a, acceptsDouble), dest, b, acceptsDouble)
  {
    if b == [] {
      assert a + b == a;
    } else {
      ProcessLinesAppend(rs, dest, a, b[..|b| - 1], acceptsDouble);
      assert (a + b)[..|a + b| - 1] == a + b[..|b| - 1];
    }
  }

  /** Every line of every input, in argument order then file order. */
  function AllLines(o: Options, readable: map<string, seq<string>>): seq<string> {
    Concat(Delivered(o.paths, readable))
  }

  /**
   * The final state of a run with options `o` over the files `files`, the
   * write attempts failing as `fails` says: the lines of all inputs run
   * from the initial state, giving the Aggregator's statistics over them.
   */
  function RunSpec(o: Options, files: map<Path, seq<string>>, fails: nat -> bool,
                   readable: map<string, seq<string>>, acceptsDouble: string -> bool): (r: RunState)
    ensures ValidState(r)
    ensures r == ProcessLines(InitialState(o.append, files), Destination(o.outputPath, o.prefix, fails),
                              AllLines(o, readable), acceptsDouble)
    ensures r.stats == Aggregate(Initial(), AllLines(o, readable), acceptsDouble)
  {
    ProcessFiles(InitialState(o.append, files), Destination(o.outputPath, o.prefix, fails),
                 Delivered(o.paths, readable), acceptsDouble)
  }

  /**
   * The output files after a run. A bucket whose writes all failed, or that
   * received nothing, keeps its file as it was. Otherwise the file holds the
   * texts whose write succeeded, after the old content unless `-a` was not
   * given and the first write, which truncates, succeeded. The bucket's flag
   * ends true once anything was routed to it, whether or not it was written.
   */
  lemma RunOutputFiles(o: Options, files: map<Path, seq<string>>, fails: nat -> bool,
                       readable: map<string, seq<string>>, acceptsDouble: string -> bool, b: Bucket)
    ensures var r, p := RunSpec(o, files, fails, readable, acceptsDouble), Join(o.outputPath, o.prefix + FileName(b));
            var lines := AllLines(o, readable);
            var kept := Kept(lines, b, acceptsDouble, fails, 0);
            var first := FirstWriteSucceeds(lines, b, acceptsDouble, fails, 0);
            (kept != [] ==>
               p in r.files && r.files[p] == (if !o.append && first then [] else Lookup(files, p)) + kept) &&
            (kept == [] ==> SameAt(r.files, files, p)) &&
            (Payloads(lines, b, acceptsDouble) == [] ==> kept == [])
    ensures var r := RunSpec(o, files, fails, readable, acceptsDouble);
            r.appendModes[b] == (o.append || Payloads(AllLines(o, readable), b, acceptsDouble) != [])
  {
    var dest := Destination(o.outputPath, o.prefix, fails);
    var init := InitialState(o.append, files);
    var lines := AllLines(o, readable);
    ProcessLinesOutput(init, dest, lines, acceptsDouble, b);
    var r := RunSpec(o, files, fails, readable, acceptsDouble);
    assert r == ProcessLines(init, dest, lines, acceptsDouble);
    assert BucketOutput(init, r, dest, b, Payloads(lines, b, acceptsDouble),
                        Kept(lines, b, acceptsDouble, fails, 0), FirstWriteSucceeds(lines, b, acceptsDouble, fails, 0));
    assert init.files == files && init.appendModes[b] == o.append;
  }

  /**
   * When every write succeeds: without `-a` a bucket's file ends as exactly
   * this run's texts for the bucket, whatever it held before; with `-a` it
   * ends as the old content followed by them; a bucket that received
   * nothing keeps its file as it was.
   */
  lemma RunOutputFilesNoFailures(o: Options, files: map<Path, seq<string>>, fails: nat -> bool,
                                 readable: map<string, seq<string>>, acceptsDouble: string -> bool, b: Bucket)
    requires forall n :: !fails(n)
    ensures var r, p := RunSpec(o, files, fails, readable, acceptsDouble), Join(o.outputPath, o.prefix + FileName(b));
            var w := Payloads(AllLines(o, readable), b, acceptsDouble);
            (w != [] && !o.append ==> p in r.files && r.files[p] == w) &&
            (w != [] && o.append ==> p in r.files && r.files[p] == Lookup(files, p) + w) &&
            (w == [] ==> SameAt(r.files, files, p))
  {
    KeptAllSucceed(AllLines(o, readable), b, acceptsDouble, fails, 0);
    RunOutputFiles(o, files, fails, readable, acceptsDouble, b);
  }

  /**
   * A transient failure without `-a`: the first integer line's write fails,
   * yet the flag is set, so the second line is appended after the file's old
   * content instead of replacing it.
   */
  lemma TransientFailureExample(o: Options, readable: map<string, seq<string>>, files: map<Path, seq<string>>,
                                fails: nat -> bool, acceptsDouble: string -> bool)
    requires o == Defaults().(paths := ["in.txt"])
    requires readable == map["in.txt" := ["1", "2"]]
    requires fails(0) && !fails(1)
    ensures var r, p := RunSpec(o, files, fails, readable, acceptsDouble), Join("", "integers.txt");
            p in r.files && r.files[p] == Lookup(files, p) + ["2"]
  {
    var lines := ExampleLines(o, readable);
    assert ParseLine("1", acceptsDouble) == Long(1) && ParseLine("2", acceptsDouble) == Long(2) by {
      assert ParseLong("1") == Some(1) && ParseLong("2") == Some(2);
    }
    assert LongToString(1) == "1" && LongToString(2) == "2";
    var front := lines[..1];
    assert front == ["1"] && front[..0] == [];
    assert RoutedCount(front, acceptsDouble) == 1;
    assert Payloads(front, Integers, acceptsDouble) == ["1"];
    assert Kept(front, Integers, acceptsDouble, fails, 0) == [];
    assert !FirstWriteSucceeds(front, Integers, acceptsDouble, fails, 0);
    assert Kept(lines, Integers, acceptsDouble, fails, 0) == ["2"];
    assert Join(o.outputPath, o.prefix + FileName(Integers)) == Join("", "integers.txt");
    RunOutputFiles(o, files, fails, readable, acceptsDouble, Integers);
  }

  /** A run writes no file but the three bucket files. */
  lemma RunWritesOnlyBuckets(o: Options, files: map<Path, seq<string>>, fails: nat -> bool,
                             readable: map<string, seq<string>>, acceptsDouble: string -> bool, q: Path)
    requires q !in BucketPaths(Destination(o.outputPath, o.prefix, fails))
    ensures SameAt(RunSpec(o, files, fails, readable, acceptsDouble).files, files, q)
  {
    var dest := Destination(o.outputPath, o.prefix, fails);
    ProcessLinesOtherFiles(InitialState(o.append, files), dest, AllLines(o, readable), acceptsDouble, q);
  }

  /** The float file is never written and the float count stays 0. */
  lemma RunNeverTouchesFloats(o: Options, files: map<Path, seq<string>>, fails: nat -> bool,
                              readable: map<string, seq<string>>, acceptsDouble: string -> bool)
    ensures var r, p := RunSpec(o, files, fails, readable, acceptsDouble), Join(o.outputPath, o.prefix + "floats.txt");
            (p in r.files <==> p in files) && Lookup(r.files, p) == Lookup(files, p) &&
            r.stats.typeCounts[Floats] == 0 && r.appendModes[Floats] == o.append
  {
    NoFloatPayloads(AllLines(o, readable), acceptsDouble);
    RunOutputFiles(o, files, fails, readable, acceptsDouble, Floats);
  }

  /**
   * The statistics after a run: the integer count, wrapping sum and extrema
   * of the integer lines and the count and length extrema of the string
   * lines, with the sentinels kept while a count is 0. Failed writes do
   * not matter.
   */
  lemma RunStatistics(o: Options, files: map<Path, seq<string>>, fails: nat -> bool,
                      readable: map<string, seq<string>>, acceptsDouble: string -> bool)
    ensures var r, lines := RunSpec(o, files, fails, readable, acceptsDouble), AllLines(o, readable);
            r.stats.typeCounts[Floats] == 0 &&
            (JavaStrings(lines) ==>
               Summarizes(r.stats, IntegerValues(lines, acceptsDouble), StringLengths(lines, acceptsDouble)))
  {
    var lines := AllLines(o, readable);
    InitialSummarizesNothing();
    if JavaStrings(lines) {
      AggregateSummarizes(Initial(), [], [], lines, acceptsDouble);
      assert [] + IntegerValues(lines, acceptsDouble) == IntegerValues(lines, acceptsDouble);
      assert [] + StringLengths(lines, acceptsDouble) == StringLengths(lines, acceptsDouble);
    }
  }

  /** Reordering the input lines in any way leaves the statistics as they are. */
  lemma StatisticsIgnoreOrder(rs: RunState, dest: Destination, xs: seq<string>, ys: seq<string>, acceptsDouble: string -> bool)
    requires ValidState(rs) && multiset(xs) == multiset(ys)
    ensures ProcessLines(rs, dest, xs, acceptsDouble).stats == ProcessLines(rs, dest, ys, acceptsDouble).stats
  {
    AggregatePermutation(rs.stats, xs, ys, acceptsDouble);
  }

  /**
   * The report of a run never shows a sentinel: the integer line shows a
   * minimum and maximum that are values of integer lines, the string line
   * lengths of string lines, and no float line is ever printed.
   */
  lemma ReportShowsObservedValues(o: Options, files: map<Path, seq<string>>, fails: nat -> bool,
                                  readable: map<string, seq<string>>, acceptsDouble: string -> bool)
    requires JavaStrings(AllLines(o, readable))
    ensures var r, lines := RunSpec(o, files, fails, readable, acceptsDouble), AllLines(o, readable);
            var report := PrintStatistics(r.stats, o.shortStats, o.fullStats);
            var ints, lengths := IntegerValues(lines, acceptsDouble), StringLengths(lines, acceptsDouble);
            FloatStats !in report &&
            (forall l :: l in report && l.IntegerStats? ==>
               l.min in ints && l.max in ints && (forall v :: v in ints ==> l.min <= v <= l.max) && l.sum == Wrap64(Sum(ints))) &&
            (forall l :: l in report && l.StringLengthStats? ==>
               l.shortest in lengths && l.longest in lengths && (forall n :: n in lengths ==> l.shortest <= n <= l.longest))
  {
    var r := RunSpec(o, files, fails, readable, acceptsDouble);
    RunStatistics(o, files, fails, readable, acceptsDouble);
    FullStatsGated(r.stats, o.shortStats, o.fullStats);
  }

  lemma ProcessLinesNext(rs: RunState, dest: Destination, lines: seq<string>, j: nat, acceptsDouble: string -> bool)
    requires ValidState(rs) && j < |lines|
    ensures ProcessLines(rs, dest, lines[..j + 1], acceptsDouble)
            == Dispatch(ProcessLines(rs, dest, lines[..j], acceptsDouble), dest, lines[j], acceptsDouble)
  {
    assert lines[..j + 1][..j] == lines[..j];
  }

  lemma ProcessFilesNext(rs: RunState, dest: Destination, inputs: seq<seq<string>>, f: nat, acceptsDouble: string -> bool)
    requires ValidState(rs) && f < |inputs|
    ensures ProcessFiles(rs, dest, inputs[..f + 1], acceptsDouble)
            == ProcessLines(ProcessFiles(rs, dest, inputs[..f], acceptsDouble), dest, inputs[f], acceptsDouble)
  {
    assert inputs[..f + 1][..f] == inputs[..f];
  }

  /**
   * The argument scan followed by the run and the report, as `main` does it,
   * on a store no write was attempted on yet.
   */
  method Run(args: seq<string>, readable: map<string, seq<string>>, store: Store, acceptsDouble: string -> bool)
    returns (outcome: Result<seq<ReportLine>, ArgError>)
    requires store.attempts == 0
    modifies store
    ensures ParseArgs(args).Failure? ==> outcome == Failure(ParseArgs(args).error) && store.files == old(store.files)
    ensures ParseArgs(args).Success? ==>
              var o := ParseArgs(args).value;
              var r := RunSpec(o, old(store.files), store.fails, readable, acceptsDouble);
              store.files == r.files && outcome == Success(PrintStatistics(r.stats, o.shortStats, o.fullStats))
  {
    var scanned := ScanArgs(args);
    if scanned.Failure? {
      return Failure(scanned.error);
    }
    var o := scanned.value;
    if |o.paths| == 0 {
      return Failure(NoInputFiles);
    }
    var stats := ProcessInputs(o, readable, store, acceptsDouble);
    outcome := Success(PrintStatistics(stats, o.shortStats, o.fullStats));
  }

  /** Lines 48-51 and 57-104: the per-file loop over the input paths. */
  method ProcessInputs(o: Options, readable: map<string, seq<string>>, store: Store, acceptsDouble: string -> bool)
    returns (stats: Stats)
    requires store.attempts == 0
    modifies store
    ensures var r := RunSpec(o, old(store.files), store.fails, readable, acceptsDouble);
            store.files == r.files && store.attempts == r.attempts && stats == r.stats
  {
    var appendModes := map[Integers := o.append, Floats := o.append, Strings := o.append];
    stats := Initial();

    ghost var dest := Destination(o.outputPath, o.prefix, store.fails);
    ghost var init := InitialState(o.append, store.files);
    ghost var inputs := Delivered(o.paths, readable);
    var f := 0;
    while f < |o.paths|
      invariant f <= |o.paths|
      invariant RunState(stats, appendModes, store.files, store.attempts) == ProcessFiles(init, dest, inputs[..f], acceptsDouble)
    {
      var filePath := o.paths[f];
      // A path that cannot be opened contributes no lines (lines 101-103).
      var lines := if filePath in readable then readable[filePath] else [];
      assert lines == inputs[f];
      ProcessFilesNext(init, dest, inputs, f, acceptsDouble);
      stats, appendModes := ProcessFile(o.outputPath, o.prefix, lines, store, acceptsDouble, stats, appendModes);
      f := f + 1;
    }
    assert inputs[..f] == inputs;
  }

  /** Lines 68-99: every line of one input file is parsed and dispatched in turn. */
  method ProcessFile(outputPath: string, prefix: string, lines: seq<string>, store: Store, acceptsDouble: string -> bool,
                     statsIn: Stats, modesIn: map<Bucket, bool>)
    returns (stats: Stats, appendModes: map<Bucket, bool>)
    requires ValidState(RunState(statsIn, modesIn, store.files, store.attempts))
    modifies store
    ensures RunState(stats, appendModes, store.files, store.attempts)
            == ProcessLines(RunState(statsIn, modesIn, old(store.files), old(store.attempts)),
                            Destination(outputPath, prefix, store.fails), lines, acceptsDouble)
  {
    stats, appendModes := statsIn, modesIn;
    ghost var dest := Destination(outputPath, prefix, store.fails);
    ghost var before := RunState(statsIn, modesIn, store.files, store.attempts);
    assert lines[..0] == [];
    var j := 0;
    while j < |lines|
      invariant j <= |lines|
      invariant RunState(stats, appendModes, store.files, store.attempts) == ProcessLines(before, dest, lines[..j], acceptsDouble)
    {
      ProcessLinesNext(before, dest, lines, j, acceptsDouble);
      stats, appendModes := DispatchLine(outputPath, prefix, lines[j], store, acceptsDouble, stats, appendModes);
      j := j + 1;
    }
    assert lines[..j] == lines;
  }

  /**
   * Lines 71-98: one line is parsed; an integer or a string is written to
   * its bucket's file and taken into the statistics, and a decimal falls
   * through every branch.
   */
  method DispatchLine(outputPath: string, prefix: string, line: string, store: Store, acceptsDouble: string -> bool,
                      statsIn: Stats, modesIn: map<Bucket, bool>)
    returns (stats: Stats, appendModes: map<Bucket, bool>)
    requires ValidState(RunState(statsIn, modesIn, store.files, store.attempts))
    modifies store
    ensures RunState(stats, appendModes, store.files, store.attempts)
            == Dispatch(RunState(statsIn, modesIn, old(store.files), old(store.attempts)),
                        Destination(outputPath, prefix, store.fails), line, acceptsDouble)
  {
    ghost var dest := Destination(outputPath, prefix, store.fails);
    ghost var rs := RunState(statsIn, modesIn, store.files, store.attempts);
    stats, appendModes := statsIn, modesIn;
    var obj := ParseLine(line, acceptsDouble);
    if obj.Long? {
      store.WriteToFile(outputPath, prefix, "integers.txt", LongToString(obj.value), appendModes[Integers]);
      stats := Observe(stats, obj);
      appendModes := appendModes[Integers := true];
    } else if obj.Text? {
      store.WriteToFile(outputPath, prefix, "strings.txt", line, appendModes[Strings]);
      stats := Observe(stats, obj);
      appendModes := appendModes[Strings := true];
    } else {
      // The decimal branch tests for a Float, which the parser never returns (line 81).
      DoubleLineDropped(rs, dest, line, acceptsDouble);
    }
  }

  /**
   * One input file holding 42, -17, 3.14, hello and 007, run with `-f` and
   * without `-a`: the integer file holds 42, -17 and 7, the string file
   * hello, and the decimal 3.14 is dropped, so the float file is untouched.
   */
  lemma ExampleRunFiles(o: Options, readable: map<string, seq<string>>, files: map<Path, seq<string>>, fails: nat -> bool,
                        acceptsDouble: string -> bool)
    requires o == Defaults().(fullStats := true, paths := ["in.txt"])
    requires readable == map["in.txt" := ["42", "-17", "3.14", "hello", "007"]]
    requires acceptsDouble("3.14") && !acceptsDouble("hello")
    requires forall n :: !fails(n)
    ensures var r := RunSpec(o, files, fails, readable, acceptsDouble);
            Join("", "integers.txt") in r.files && r.files[Join("", "integers.txt")] == ["42", "-17", "7"] &&
            Join("", "strings.txt") in r.files && r.files[Join("", "strings.txt")] == ["hello"] &&
            SameAt(r.files, files, Join("", "floats.txt"))
  {
    var lines := ExampleLines(o, readable);
    ExampleParses(lines, acceptsDouble);
    ExampleIntegers(lines, acceptsDouble, 42, -17, 7);
    ExampleStrings(lines, acceptsDouble);
    assert Join(o.outputPath, o.prefix + FileName(Integers)) == Join("", "integers.txt");
    assert Join(o.outputPath, o.prefix + FileName(Strings)) == Join("", "strings.txt");
    assert Join(o.outputPath, o.prefix + "floats.txt") == Join("", "floats.txt");
    RunOutputFilesNoFailures(o, files, fails, readable, acceptsDouble, Integers);
    RunOutputFilesNoFailures(o, files, fails, readable, acceptsDouble, Strings);
    RunNeverTouchesFloats(o, files, fails, readable, acceptsDouble);
  }

  /**
   * The same run prints three integers with minimum -17, maximum 42 and sum
   * 32, no floats, and one string of length 5.
   */
  lemma ExampleRunReport(o: Options, readable: map<string, seq<string>>, files: map<Path, seq<string>>, fails: nat -> bool,
                         acceptsDouble: string -> bool)
    requires o == Defaults().(fullStats := true, paths := ["in.txt"])
    requires readable == map["in.txt" := ["42", "-17", "3.14", "hello", "007"]]
    requires acceptsDouble("3.14") && !acceptsDouble("hello")
    ensures var r := RunSpec(o, files, fails, readable, acceptsDouble);
            PrintStatistics(r.stats, o.shortStats, o.fullStats)
            == [Heading, Count(Integers, 3), Count(Floats, 0), Count(Strings, 1),
                IntegerStats(-17, 42, 32), StringLengthStats(5, 5)]
  {
    ExampleStatistics(o, readable, files, fails, acceptsDouble);
    ExampleReport(RunSpec(o, files, fails, readable, acceptsDouble).stats);
  }

  /** The full report of the example's statistics. */
  lemma ExampleReport(st: Stats)
    requires Complete(st.typeCounts)
    requires st.typeCounts[Integers] == 3 && st.typeCounts[Floats] == 0 && st.typeCounts[Strings] == 1
    requires st.intMin == -17 && st.intMax == 42 && st.intSum == 32
    requires st.stringMinLen == 5 && st.stringMaxLen == 5
    ensures PrintStatistics(st, false, true)
            == [Heading, Count(Integers, 3), Count(Floats, 0), Count(Strings, 1),
                IntegerStats(-17, 42, 32), StringLengthStats(5, 5)]
  {
  }

  /** The statistics the example run ends with. */
  lemma ExampleStatistics(o: Options, readable: map<string, seq<string>>, files: map<Path, seq<string>>, fails: nat -> bool,
                          acceptsDouble: string -> bool)
    requires o.paths == ["in.txt"]
    requires readable == map["in.txt" := ["42", "-17", "3.14", "hello", "007"]]
    requires acceptsDouble("3.14") && !acceptsDouble("hello")
    ensures var st := RunSpec(o, files, fails, readable, acceptsDouble).stats;
            st.typeCounts[Integers] == 3 && st.typeCounts[Floats] == 0 && st.typeCounts[Strings] == 1 &&
            st.intMin == -17 && st.intMax == 42 && st.intSum == 32 &&
            st.stringMinLen == 5 && st.stringMaxLen == 5
  {
    var lines := ExampleLines(o, readable);
    ExampleParses(lines, acceptsDouble);
    ExampleIntegers(lines, acceptsDouble, 42, -17, 7);
    ExampleStrings(lines, acceptsDouble);
    ExampleLengths(lines);
    RunStatistics(o, files, fails, readable, acceptsDouble);
    var r := RunSpec(o, files, fails, readable, acceptsDouble);
    ExampleExtrema(r.stats, IntegerValues(lines, acceptsDouble), StringLengths(lines, acceptsDouble));
  }

  /** No line of the example is longer than a Java string can be. */
  lemma ExampleLengths(lines: seq<string>)
    requires lines == ["42", "-17", "3.14", "hello", "007"]
    ensures JavaStrings(lines)
  {
    forall i | 0 <= i < |lines|
      ensures |lines[i]| <= MaxInt
    {
      assert |lines[i]| <= 5;
    }
  }

  /** With a single input path the run reads exactly that file's lines. */
  lemma ExampleLines(o: Options, readable: map<string, seq<string>>) returns (lines: seq<string>)
    requires o.paths == ["in.txt"] && "in.txt" in readable
    ensures lines == AllLines(o, readable) == readable["in.txt"]
  {
    lines := AllLines(o, readable);
    var inputs := Delivered(o.paths, readable);
    assert |inputs| == 1 && inputs[0] == readable["in.txt"];
    assert inputs[..0] == [];
    assert Concat(inputs) == Concat(inputs[..0]) + inputs[0];
  }

  /** What Summarizes fixes for the example's integer values and string lengths. */
  lemma ExampleExtrema(st: Stats, ints: seq<int>, lengths: seq<int>)
    requires ints == [42, -17, 7] && lengths == [5] && Summarizes(st, ints, lengths)
    ensures st.typeCounts[Integers] == 3 && st.typeCounts[Strings] == 1
    ensures st.intMin == -17 && st.intMax == 42 && st.intSum == 32
    ensures st.stringMinLen == 5 && st.stringMaxLen == 5
  {
    var i1, i2 := ints[..1], ints[..2];
    assert i1[..0] == [] && i2[..1] == i1 && ints[..2] == i2;
    assert i2[1] == -17 && ints[2] == 7;
    assert Sum(i1) == 42;
    assert Sum(i2) == Sum(i1) + i2[1] == 25;
    assert Sum(ints) == Sum(i2) + ints[2] == 32;
    assert -17 in ints && 42 in ints && 7 in ints && 5 in lengths;
  }

  /** The integer bucket of five lines classified as in the example: integers `a`, `b`, two others, `c`. */
  lemma ExampleIntegers(lines: seq<string>, acceptsDouble: string -> bool, a: int, b: int, c: int)
    requires |lines| == 5
    requires ParseLine(lines[0], acceptsDouble) == Long(a) && ParseLine(lines[1], acceptsDouble) == Long(b)
    requires !ParseLine(lines[2], acceptsDouble).Long? && !ParseLine(lines[3], acceptsDouble).Long?
    requires ParseLine(lines[4], acceptsDouble) == Long(c)
    ensures IntegerValues(lines, acceptsDouble) == [a, b, c]
    ensures Payloads(lines, Integers, acceptsDouble) == [LongToString(a), LongToString(b), LongToString(c)]
  {
    var l0, l1, l2, l3, l4 := FivePrefixes(lines);
    ExtendIntegers(l0, lines[0], acceptsDouble);
    ExtendIntegers(l1, lines[1], acceptsDouble);
    ExtendIntegers(l2, lines[2], acceptsDouble);
    ExtendIntegers(l3, lines[3], acceptsDouble);
    ExtendIntegers(l4, lines[4], acceptsDouble);
  }

  /** The string bucket of five lines classified as in the example. */
  lemma ExampleStrings(lines: seq<string>, acceptsDouble: string -> bool)
    requires |lines| == 5 && |lines[3]| == 5
    requires !ParseLine(lines[0], acceptsDouble).Text? && !ParseLine(lines[1], acceptsDouble).Text?
    requires !ParseLine(lines[2], acceptsDouble).Text? && ParseLine(lines[3], acceptsDouble) == Text(lines[3])
    requires !ParseLine(lines[4], acceptsDouble).Text?
    ensures StringLengths(lines, acceptsDouble) == [5]
    ensures Payloads(lines, Strings, acceptsDouble) == [lines[3]]
  {
    var l0, l1, l2, l3, l4 := FivePrefixes(lines);
    ExtendStrings(l0, lines[0], acceptsDouble);
    ExtendStrings(l1, lines[1], acceptsDouble);
    ExtendStrings(l2, lines[2], acceptsDouble);
    ExtendStrings(l3, lines[3], acceptsDouble);
    ExtendStrings(l4, lines[4], acceptsDouble);
  }

  /** The example's lines: three integers (one written back as 7), a double and a string. */
  lemma ExampleParses(lines: seq<string>, acceptsDouble: string -> bool)
    requires lines == ["42", "-17", "3.14", "hello", "007"]
    requires acceptsDouble("3.14") && !acceptsDouble("hello")
    ensures ParseLine(lines[0], acceptsDouble) == Long(42) && LongToString(42) == "42"
    ensures ParseLine(lines[1], acceptsDouble) == Long(-17) && LongToString(-17) == "-17"
    ensures ParseLine(lines[2], acceptsDouble) == Double
    ensures ParseLine(lines[3], acceptsDouble) == Text(lines[3]) && lines[3] == "hello" && |lines[3]| == 5
    ensures ParseLine(lines[4], acceptsDouble) == Long(7) && LongToString(7) == "7"
  {
    NormalizedExamples();
    assert LongToString(42) == "42" by {
      assert NaturalToString(4) == "4";
    }
    assert ParseLong("42") == Some(42);
    assert ParseLong("3.14") == None by {
      assert "3.14"[1] == '.';
    }
    assert ParseLong("hello") == None by {
      assert "hello"[0] == 'h';
    }
  }

  /** The five prefixes of a five-element sequence, each one element longer than the last. */
  lemma FivePrefixes<T>(xs: seq<T>) returns (p0: seq<T>, p1: seq<T>, p2: seq<T>, p3: seq<T>, p4: seq<T>)
    requires |xs| == 5
    ensures p0 == [] && p1 == p0 + [xs[0]] && p2 == p1 + [xs[1]] && p3 == p2 + [xs[2]]
    ensures p4 == p3 + [xs[3]] && xs == p4 + [xs[4]]
  {
    p0, p1, p2, p3, p4 := [], [xs[0]], [xs[0], xs[1]], [xs[0], xs[1], xs[2]], [xs[0], xs[1], xs[2], xs[3]];
  }

  /** The integer-side classification functions on one more line. */
  lemma ExtendIntegers(xs: seq<string>, x: string, acceptsDouble: string -> bool)
    ensures var obj := ParseLine(x, acceptsDouble);
            IntegerValues(xs + [x], acceptsDouble) == IntegerValues(xs, acceptsDouble) + (if obj.Long? then [obj.value] else []) &&
            Payloads(xs + [x], Integers, acceptsDouble) == Payloads(xs, Integers, acceptsDouble) + (if obj.Long? then [LongToString(obj.value)] else [])
  {
    assert (xs + [x])[..|xs|] == xs;
  }

  /** The string-side classification functions on one more line. */
  lemma ExtendStrings(xs: seq<string>, x: string, acceptsDouble: string -> bool)
    ensures var obj := ParseLine(x, acceptsDouble);
            StringLengths(xs + [x], acceptsDouble) == StringLengths(xs, acceptsDouble) + (if obj.Text? then [|x|] else []) &&
            Payloads(xs + [x], Strings, acceptsDouble) == Payloads(xs, Strings, acceptsDouble) + (if obj.Text? then [x] else [])
  {
    assert (xs + [x])[..|xs|] == xs;
  }
}
