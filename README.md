# Line classifier and splitter (`util/src/Main.java`), modelled in Dafny

The program reads text files line by line. It classifies every line as a
64-bit integer, a decimal number or a string. It writes each classified line
to its bucket's output file (`integers.txt`, `floats.txt`, `strings.txt`,
under an optional directory and file-name prefix) and prints statistics at
the end. This project models the core of `main` (the argument loop, the
per-file and per-line loops with their dispatch and statistics),
`parseLine`, `writeToFile` and the gating of `printStatistics`:

- `Arguments` covers the argument loop of `main` (`-o`, `-p`, `-a`, `-s`,
  `-f`, input paths). The method `ScanArgs` is that loop, proved against the
  function `Scan`. `ParseArgs` adds the empty-path-list check.
- `Classifier` covers `parseLine`. `Long.parseLong` is modelled exactly over
  ASCII: an optional sign, at least one digit, the value in the long range,
  and no trimming. `String.valueOf(long)` (`LongToString`) is its inverse on
  canonical numerals. Whether `Double.parseDouble` accepts a line is the
  parameter `acceptsDouble`. The predicate `ParsesLikeDouble` states the
  little the lemmas assume about it: it rejects the empty string, and after
  trimming blanks it accepts every optionally signed digit string.
- `FileStore` covers `writeToFile`. The class `Store` holds the file system
  as a map from path to lines. `WriteToFile` truncates or appends one line.
  Whether a call fails is the oracle `fails`, indexed by the number of
  calls made so far, so an open can fail once and succeed later. A failed
  call is swallowed and changes no file.
- `Aggregator` covers the running statistics: per-bucket counts, the 64-bit
  wrapping integer sum, the integer extrema, and the string-length extrema
  with their sentinels. `Aggregate` folds them over the lines. It is proved
  to summarise the integer values and string lengths, and to be independent
  of line order.
- `Report` covers `printStatistics`: which lines are printed and which
  values they show.
- `Pipeline` covers the body of `main`, in four methods:
  - `Run`: the arguments, then the inputs, then the report;
  - `ProcessInputs`: the loop over files;
  - `ProcessFile`: the loop over lines;
  - `DispatchLine`: the per-line branches.

  Each method is proved against the functional specification `Dispatch`,
  `ProcessLines`, `ProcessFiles` and `RunSpec`. The lemmas then state what a
  run leaves in every output file and in the statistics.

What the code does, and the model with it:

- **Decimal lines are dropped.** The dispatch tests `obj instanceof Float`,
  but `parseLine` returns a boxed `Double` for a decimal line, so that
  branch never runs. A line such as `3.14` takes none of the three
  branches: it is not written, not counted, and does not set the float
  append flag. An input of `42, -17, 3.14, hello, 007` therefore reports
  `Floats: 0` and leaves `floats.txt` as it was
  (`Pipeline.RunNeverTouchesFloats`, `Pipeline.ExampleRunFiles`,
  `Pipeline.ExampleRunReport`).
- **Out-of-range integers and padded numerals are dropped too.** A digit
  string outside the long range, or one with blanks around it, is refused
  by `Long.parseLong`, accepted by `Double.parseDouble`, and then dropped
  like every other `Double`: it reaches no file and no statistic
  (`Pipeline.OverflowDropped`, `Pipeline.PaddedNumeralDropped`). The empty
  line is a string (`Pipeline.EmptyLineToStrings`).
- **The append flag is set after every write attempt.** `writeToFile`
  catches its own `IOException`, and the caller sets the bucket's flag
  at the end of the branch (lines 80 and 94), whether the write succeeded
  or not. Without `-a`, a first write that fails therefore leaves the old
  file in place, and the later writes are appended after the old content
  (`Pipeline.RunOutputFiles`, `Pipeline.TransientFailureExample`).
- **Integer statistics are printed with `%d`.** The minimum, maximum and
  sum are printed as whole numbers; only the mean uses `%.2f`.

## Model

| member | source | states |
|---|---|---|
| Classifier.ParseLong | util/src/Main.java:116 | A parsed long lies in [Long.MIN_VALUE, Long.MAX_VALUE] and comes from a non-empty line of digits with at most a leading sign |
| Classifier.ParseLine | util/src/Main.java:114-124 | Ordered fallback: Long exactly when the long parser accepts the line, with its value; Double exactly when only the double parser accepts it; otherwise the line itself |
| Classifier.IntegerLineExactly | util/src/Main.java:116 | A line is classified as the long `v` if and only if it is an optional sign followed by one or more digits denoting `v`, and `v` fits in a long |
| Classifier.IntegerLineIsNumeral | util/src/Main.java:116 | An accepted line splits into a sign part and a digit part that denote the parsed value |
| Classifier.NumeralIsIntegerLine | util/src/Main.java:116 | Every signed numeral in the long range is accepted with its value |
| Classifier.PaddedIsNotInteger | util/src/Main.java:116 | Nothing is trimmed: the empty line and lines with a leading or trailing blank are never integers |
| Classifier.NaturalToString | util/src/Main.java:75 | The decimal text of a natural number is non-empty, all digits, denotes that number and has no leading zero |
| Classifier.LongToString | util/src/Main.java:75 | `String.valueOf` of a long is canonical (no `+`, no leading zero, no `-0`) and starts with `-` exactly for negative values |
| Classifier.LongToStringRoundTrip | util/src/Main.java:75 | Re-parsing what `String.valueOf` writes for a long gives the same long |
| Classifier.CanonicalRoundTrip | util/src/Main.java:72-75 | A canonical numeral is written back unchanged after parsing |
| Classifier.NormalizedExamples | util/src/Main.java:72-75 | `007` parses to 7 and is written as `7`; `+5` becomes `5`; `-17` stays `-17`; `-`, `+` and `4 2` are not integers |
| Classifier.Trim | util/src/Main.java:119 | `String.trim`, which `Double.parseDouble` applies: the result is a run of the input with only blanks before and after it, and it neither starts nor ends with a blank |
| Classifier.ParsesLikeDoubleSatisfiable | util/src/Main.java:119 | The assumption about the double parser is met by a parser that accepts exactly the trimmed signed digit strings, so the lemmas assuming it are not vacuous |
| Classifier.BlankEndNotLong | util/src/Main.java:116 | `Long.parseLong` refuses any line that starts or ends with a blank |
| Classifier.TrimPadded | util/src/Main.java:119 | Trimming blanks around a signed numeral gives the numeral back |
| Classifier.EmptyLineIsString | util/src/Main.java:114-124 | For a double parser that rejects the empty string, the empty line is classified as the string `""` |
| Classifier.SignedDigitsNeverText | util/src/Main.java:114-124 | A signed digit string is never a string line: it is a long when its value fits and a Double otherwise |
| Classifier.PaddedNumeralIsDouble | util/src/Main.java:114-124 | A numeral with blanks before or after it is not a long but a Double |
| FileStore.Write | util/src/Main.java:126-133 | A call that does not fail leaves the target as just the new line without append, or the old content plus the new line with append; a failed call changes nothing; other paths never change |
| FileStore.Store.WriteToFile | util/src/Main.java:126-133 | The call counter goes up by one, and the new files are exactly `Write` at `Join(outputPath, prefix + fileName)`, failing as the oracle says for this call |
| Aggregator.Wrap64 | util/src/Main.java:77 | Long addition: the result is in the long range, and a sum already in range is unchanged |
| Aggregator.Wrap64Congruent | util/src/Main.java:77 | Wrapping changes a value by a multiple of 2^64 only |
| Aggregator.Wrap64Add | util/src/Main.java:77 | Adding with wrap-around after each line equals wrapping the exact total once |
| Aggregator.Initial | util/src/Main.java:57-64 | The starting statistics have a count for every bucket |
| Aggregator.Increment | util/src/Main.java:76 | One bucket's count goes up by one and every other count is unchanged |
| Aggregator.Observe | util/src/Main.java:76-79 | The float count never moves and a Double changes nothing. An integer raises the integer count by one and lies between the new minimum and maximum. A string raises the string count by one and its length lies between the new length extrema |
| Aggregator.Aggregate | util/src/Main.java:68-99 | After any lines the float count is unchanged, and the integer count has grown by at most the number of lines |
| Aggregator.InitialSummarizesNothing | util/src/Main.java:57-64 | The initial counts, sum and sentinels summarise no values |
| Aggregator.ObserveSummarizes | util/src/Main.java:73-94 | Observing an integer line appends its value to the summarised integers; a string line appends its length; a decimal line adds to neither |
| Aggregator.ObserveIntegerSummarizes | util/src/Main.java:76-79 | An integer in the long range is counted, added with wrap-around and taken into the extrema |
| Aggregator.ObserveStringSummarizes | util/src/Main.java:91-93 | A string is counted and its length taken into the length extrema |
| Aggregator.AggregateSummarizes | util/src/Main.java:68-99 | After any lines, the counts equal the numbers of integer and string lines; the sum is the wrapped total of the integer values; each extremum is an observed value bounding all the others, or the sentinel when nothing was observed |
| Aggregator.ObserveCommutes | util/src/Main.java:73-94 | Two lines observed in either order give the same statistics |
| Aggregator.MoveToEnd | util/src/Main.java:68-99 | Moving one line to the end leaves the statistics unchanged |
| Aggregator.AggregatePermutation | util/src/Main.java:68-99 | Any permutation of the lines gives the same statistics |
| Arguments.ScanFrom | util/src/Main.java:16-47 | From any index, the loop fails only when the last argument is a `-o` or `-p` without a value, with that flag's error. On success `-a`, `-s`, `-f` stay set once set and are set only by their own argument; paths are only added, each one an argument; the directory and prefix change only where `-o` and `-p` appear |
| Arguments.Scan | util/src/Main.java:16-47 | The loop from the start fails only on a trailing `-o` or `-p`, with the matching error; every input path is one of the arguments; without `-o` (or `-p`) the directory (prefix) stays empty |
| Arguments.ParseArgs | util/src/Main.java:16-55 | Success exactly when the loop succeeds with at least one input path, with the loop's options; otherwise the loop's error, or the no-input-files error |
| Arguments.ScanArgs | util/src/Main.java:16-47 | The imperative argument loop returns exactly the options, or the missing-value error, that the specification `Scan` gives |
| Arguments.ScanFromAppend | util/src/Main.java:16-47 | Scanning `a + b` resumes after `a` with the options `a` produced |
| Arguments.ScanAppend | util/src/Main.java:16-47 | From the start, scanning `a + b` is scanning `b` from the options of `a` |
| Arguments.LastValueWins | util/src/Main.java:18-33 | A later `-o x` or `-p x` replaces the earlier value |
| Arguments.LastValueWinsAnywhere | util/src/Main.java:18-25 | After `a + ["-o", x] + b` with no `-o` in `b`, the directory is `x`, whatever else `b` holds |
| Arguments.LastPrefixWinsAnywhere | util/src/Main.java:26-33 | After `a + ["-p", x] + b` with no `-p` in `b`, the prefix is `x`, whatever else `b` holds |
| Arguments.MissingValueIsError | util/src/Main.java:18-33 | A trailing `-o` or `-p` is an error, of the matching kind, and stops the run |
| Arguments.PathArgumentAppended | util/src/Main.java:43-45 | Any argument that is not one of the five flags is appended to the input paths |
| Arguments.NoFlagsAllPaths | util/src/Main.java:43-45 | Arguments with no flags are all input paths, in order, with default options |
| Arguments.NoPathsIsError | util/src/Main.java:52-55 | A scan that yields no input paths is rejected |
| Arguments.PrefixTakesFlagExample | util/src/Main.java:26-28 | `-p -a in.txt` takes `-a` as the prefix, not as the append flag |
| Report.PrintStatistics | util/src/Main.java:135-151 | The heading and the three counts always open the report; without `-f` nothing else is printed; no later line is a heading or a count; the statistics lines, at most three, follow in integer, float, string order, each at most once |
| Report.ShortStatsIgnored | util/src/Main.java:135-151 | `-s` has no effect on the report |
| Report.FullStatsGated | util/src/Main.java:141-151 | A bucket's statistics line appears if and only if `-f` was given and that bucket's count is positive, and it shows that bucket's fields |
| Pipeline.BucketPathsDistinct | util/src/Main.java:127 | The three bucket files are three different paths for any directory and prefix |
| Pipeline.Route | util/src/Main.java:73-95 | A Double goes nowhere; a Long goes to the integer bucket and a String to the string bucket, never the float bucket; the text written for a long reads back as that long and is canonical; a string is written as the line itself |
| Pipeline.InitialState | util/src/Main.java:48-51 | Every append flag starts as the `-a` value, the statistics start empty, the files are as found and no write was attempted |
| Pipeline.Dispatch | util/src/Main.java:71-98 | One line changes the statistics exactly as `Observe` does; a Double changes nothing at all; any other line makes exactly one write attempt; the float flag never changes |
| Pipeline.ProcessLines | util/src/Main.java:68-100 | After the lines of a file the statistics are the `Aggregate` fold over them, and one write was attempted per routed line |
| Pipeline.ProcessFiles | util/src/Main.java:67-104 | Processing the files one after another is processing the concatenation of their lines |
| Pipeline.Delivered | util/src/Main.java:67-68 | Each input path yields the lines of its file, or nothing when it cannot be opened |
| Pipeline.Kept | util/src/Main.java:75-94 | The texts of a bucket whose write succeeded are no more than the texts routed to it |
| Pipeline.DoubleLineDropped | util/src/Main.java:73-95 | A decimal line changes neither the statistics, the append flags nor any file |
| Pipeline.OverflowDropped | util/src/Main.java:73-95 | A signed digit string too large for a long changes nothing: it reaches no file and no statistic |
| Pipeline.PaddedNumeralDropped | util/src/Main.java:73-95 | A numeral with blanks around it changes nothing either |
| Pipeline.EmptyLineToStrings | util/src/Main.java:89-94 | The empty line goes to the string bucket as `""`, is counted as a string, makes one write attempt and sets the string flag |
| Pipeline.IntegerLineStep | util/src/Main.java:73-80 | An integer line writes its canonical decimal with the bucket's flag, counts it, adds it with wrap-around, takes it into the extrema, and sets the flag, whether or not the write succeeds |
| Pipeline.StringLineStep | util/src/Main.java:89-94 | A string line is written verbatim with the bucket's flag, counted, its length taken into the extrema, and the flag set, whether or not the write succeeds |
| Pipeline.NoFloatPayloads | util/src/Main.java:81-88 | Nothing is ever routed to the float bucket |
| Pipeline.IntegerPayloads | util/src/Main.java:73-75 | The integer bucket receives `String.valueOf` of every integer line's value, in input order |
| Pipeline.StringPayloads | util/src/Main.java:89-90 | The string bucket receives every string line verbatim, in input order |
| Pipeline.RoutedCountSplit | util/src/Main.java:73-95 | Every write attempt is for the integer or the string bucket |
| Pipeline.KeptAllSucceed | util/src/Main.java:126-133 | When no write fails, every routed text is written and the first write succeeds as soon as there is one |
| Pipeline.DispatchOutput | util/src/Main.java:73-94 | One more line extends a bucket's routed texts by what it routes there and its written texts by what succeeds, keeping the bucket's file and flag in step |
| Pipeline.WriteStep | util/src/Main.java:75-94 | One write, failed or not, to one bucket keeps every bucket's file and flag in step |
| Pipeline.ProcessLinesOutput | util/src/Main.java:68-99 | After any lines, a bucket's flag is its start value or true once something was routed. Its file is unchanged while no write to it succeeded; otherwise it holds the texts whose write succeeded, after the old content unless the flag started false and the first write succeeded |
| Pipeline.ProcessLinesOtherFiles | util/src/Main.java:126-128 | No path other than the three bucket files is ever written |
| Pipeline.ProcessLinesAppend | util/src/Main.java:70 | Processing `a` then `b` is processing `a + b` |
| Pipeline.RunSpec | util/src/Main.java:48-104 | A run is the lines of all inputs, in argument order then file order, processed from the initial state; its statistics are the `Aggregate` fold over them |
| Pipeline.RunOutputFiles | util/src/Main.java:48-104 | A bucket whose writes all failed, or that received nothing, keeps its file. Otherwise the file holds the texts whose write succeeded, after the old content unless `-a` was not given and the first write succeeded. The flag ends as `-a` or "something was routed" |
| Pipeline.RunOutputFilesNoFailures | util/src/Main.java:48-104 | When no write fails: without `-a` a bucket's file ends as exactly this run's texts for it; with `-a` they follow the old content; a bucket that received nothing keeps its file |
| Pipeline.TransientFailureExample | util/src/Main.java:75-80 | Lines `1`, `2` without `-a`, the first write failing and the second succeeding: the integer file ends as its old content followed by `2` |
| Pipeline.RunWritesOnlyBuckets | util/src/Main.java:67-104 | A run changes no file other than the three bucket files |
| Pipeline.RunNeverTouchesFloats | util/src/Main.java:81-88 | After any run the float file is as it was, the float count is 0 and the float flag is still the `-a` value |
| Pipeline.RunStatistics | util/src/Main.java:57-99 | After a run the statistics summarise all integer values and string lengths read, in argument order then file order, whatever writes failed |
| Pipeline.StatisticsIgnoreOrder | util/src/Main.java:67-104 | Reordering the input lines in any way leaves the statistics unchanged |
| Pipeline.ReportShowsObservedValues | util/src/Main.java:135-151 | The printed integer minimum and maximum are values of integer lines, bounding all of them, with the wrapped sum. The printed string lengths are lengths of string lines, bounding all of them. No float line is ever printed |
| Pipeline.Run | util/src/Main.java:7-111 | A bad argument list gives its error and writes nothing. Otherwise the files end as `RunSpec` says and the result is the report of `RunSpec`'s statistics |
| Pipeline.ProcessInputs | util/src/Main.java:48-104 | The imperative file loop leaves the store's files and call count and returns the statistics exactly as `RunSpec` gives them |
| Pipeline.ProcessFile | util/src/Main.java:68-99 | The imperative line loop over one file reaches the state `ProcessLines` gives |
| Pipeline.DispatchLine | util/src/Main.java:71-98 | One line's branches reach the state `Dispatch` gives |
| Pipeline.ExampleParses | util/src/Main.java:114-124 | `42`, `-17` and `007` are integers (the last written back as `7`), `3.14` is a decimal and `hello` a string |
| Pipeline.ExampleRunFiles | util/src/Main.java:67-104 | Input `42, -17, 3.14, hello, 007` without `-a` and with no failing write: the integer file holds `42, -17, 7`, the string file `hello`, and the float file is untouched |
| Pipeline.ExampleStatistics | util/src/Main.java:57-99 | For the same input: 3 integers with minimum -17, maximum 42 and sum 32; 0 floats; 1 string of length 5 |
| Pipeline.ExampleRunReport | util/src/Main.java:135-151 | For the same input with `-f`, the report is the heading, the counts 3, 0 and 1, the integer line (-17, 42, 32) and the string line (5, 5) |

## Left out

- Reading files and splitting them into lines are outside the model. The input is the map `readable` from path to the lines it delivers. A path missing from it cannot be opened and delivers nothing (the caught `IOException` at lines 101-103). A read error part-way is modelled by delivering the lines read before it. The outcome is fixed per path for the whole run: a path given twice always delivers the same lines, so it cannot fail to open once and open the next time.
- Classifier.ParseLine: the `Double.parseDouble` grammar is not modelled. Whether it accepts a line is the parameter `acceptsDouble`; the lemmas about the empty line, overflow and padding assume only `ParsesLikeDouble`. The double's value is never used, because the float branch never runs.
- Classifier.ParseLong: only ASCII digits are modelled. `Long.parseLong` also accepts other Unicode decimal digits.
- Aggregator.Increment: counts are unbounded naturals. The Java `Integer` in `typeCounts` would wrap after 2^31-1 lines of one bucket.
- Aggregator.AggregateSummarizes: a string length is the number of `char`s of the Dafny string, not of UTF-16 code units. The lemmas about string lengths require every line to be at most `Integer.MAX_VALUE` long (`JavaStrings`), as every Java string is.
- The floating-point state (`floatSum`, `floatMin`, `floatMax`) is left out, because its branch never runs. Report.PrintStatistics: the mean, the `%.2f`/`%d` text formats and the float statistics' values are not modelled. Only whether each line is printed, and the integer and string values it shows, are.
- The error messages printed to standard error are left out, and so is the outer `catch` at lines 108-110. Only the outcome is modelled: an `ArgError` result, or a swallowed error that changes nothing.
- FileStore.Write: a write that fails after a truncating open succeeded is modelled as leaving the file unchanged. Why a call fails (a missing directory, permissions, a full disk) is not modelled: the oracle `fails` only says which calls fail. The exact line terminator is not modelled: each written line is one element of the file's sequence.
- FileStore.Path: `Paths.get` is modelled as injective. In Java, `Paths.get("a", "b")` and `Paths.get("", "a/b")` name one file, so two keys of `files` may stand for one real file. The three bucket paths of one run still differ, because their file names differ.
- Paths that `Paths.get` rejects are not modelled. Its `InvalidPathException` is caught at line 96, before the counters are updated, so such a line would be neither counted nor written. The model treats every path as valid.
- Pipeline.Run: the store's call counter starts at 0, so the oracle `fails` numbers this run's `writeToFile` calls from the first.
- An input file that is also one of the output files is not modelled. The input lines are fixed before the run starts.
