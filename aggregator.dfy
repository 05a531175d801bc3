/**
 * The run statistics of `main` (util/src/Main.java:57-64, 76-79, 91-93): the
 * per-bucket counts, the wrapping sum and the extrema of the integer lines,
 * and the shortest and longest string line. The floating-point accumulators
 * are not modelled (the float branch never runs, see Pipeline).
 */
module Aggregator {
  import opened Classifier

  /** The three output buckets: the keys of `typeCounts` and `appendModes`. */
  datatype Bucket = Integers | Floats | Strings

  /** Integer.MAX_VALUE: the longest a Java string can be. */
  const MaxInt: int := 0x7fff_ffff

  const TwoTo64: int := 0x1_0000_0000_0000_0000

  /** Java `long` addition: the exact result reduced into the long range modulo 2^64. */
  function Wrap64(x: int): (r: int)
    ensures InLongRange(r)
    ensures InLongRange(x) ==> r == x
  {
    (x - MinLong) % TwoTo64 + MinLong
  }

  /** Wrapping changes a value by a multiple of 2^64 only. */
  lemma Wrap64Congruent(x: int)
    ensures (Wrap64(x) - x) % TwoTo64 == 0
  {
    var q := (x - MinLong) / TwoTo64;
    assert x - MinLong == q * TwoTo64 + (x - MinLong) % TwoTo64;
    assert Wrap64(x) - x == -q * TwoTo64;
  }

  function Min(a: int, b: int): int {
    if a <= b then a else b
  }

  function Max(a: int, b: int): int {
    if a >= b then a else b
  }

  /** The running statistics; `typeCounts` is keyed by every bucket. */
  datatype Stats = Stats(
    typeCounts: map<Bucket, nat>,
    intSum: int, intMin: int, intMax: int,
    stringMinLen: int, stringMaxLen: int)

  predicate Complete<V>(m: map<Bucket, V>) {
    forall b: Bucket :: b in m
  }

  /** Zero counts, a zero sum, and min/max sentinels that any first value replaces. */
  function Initial(): (st: Stats)
    ensures Complete(st.typeCounts)
  {
    var typeCounts := map[Integers := 0, Floats := 0, Strings := 0];
    EveryBucketIn(typeCounts);
    Stats(typeCounts, 0, MaxLong, MinLong, MaxInt, 0)
  }

  /** A map with an entry for each of the three buckets is complete. */
  lemma EveryBucketIn<V>(m: map<Bucket, V>)
    requires Integers in m && Floats in m && Strings in m
    ensures Complete(m)
  {
    forall b: Bucket
      ensures b in m
    {
      match b
      case Integers =>
      case Floats =>
      case Strings =>
    }
  }

  function Increment(counts: map<Bucket, nat>, b: Bucket): (r: map<Bucket, nat>)
    requires Complete(counts)
    ensures Complete(r) && r[b] == counts[b] + 1
    ensures forall c :: c != b && c in counts ==> r[c] == counts[c]
  {
    counts[b := counts[b] + 1]
  }

  /**
   * The statistics part of one dispatched line: an integer line (lines 76-79)
   * or a string line (lines 91-93). A Double changes nothing.
   */
  function Observe(st: Stats, obj: Parsed): (r: Stats)
    requires Complete(st.typeCounts)
    ensures Complete(r.typeCounts) && r.typeCounts[Floats] == st.typeCounts[Floats]
    ensures obj.Double? ==> r == st
    ensures obj.Long? ==> r.typeCounts[Integers] == st.typeCounts[Integers] + 1 && r.intMin <= obj.value <= r.intMax
    ensures obj.Text? ==> r.typeCounts[Strings] == st.typeCounts[Strings] + 1 && r.stringMinLen <= |obj.line| <= r.stringMaxLen
  {
    match obj
    case Long(v) =>
      st.(typeCounts := Increment(st.typeCounts, Integers),
          intSum := Wrap64(st.intSum + v),
          intMin := Min(st.intMin, v),
          intMax := Max(st.intMax, v))
    case Text(line) =>
      st.(typeCounts := Increment(st.typeCounts, Strings),
          stringMinLen := Min(st.stringMinLen, |line|),
          stringMaxLen := Max(st.stringMaxLen, |line|))
    case Double => st
  }

  /** The statistics after observing `lines` in order. */
  function Aggregate(st: Stats, lines: seq<string>, acceptsDouble: string -> bool): (r: Stats)
    requires Complete(st.typeCounts)
    ensures Complete(r.typeCounts) && r.typeCounts[Floats] == st.typeCounts[Floats]
    ensures st.typeCounts[Integers] <= r.typeCounts[Integers] <= st.typeCounts[Integers] + |lines|
  {
    if lines == [] then st
    else Observe(Aggregate(st, lines[..|lines| - 1], acceptsDouble), ParseLine(lines[|lines| - 1], acceptsDouble))
  }

  /** The values of the integer lines, in order. */
  function IntegerValues(lines: seq<string>, acceptsDouble: string -> bool): seq<int> {
    if lines == [] then []
    else
      var obj := ParseLine(lines[|lines| - 1], acceptsDouble);
      IntegerValues(lines[..|lines| - 1], acceptsDouble) + (if obj.Long? then [obj.value] else [])
  }

  /** The lengths of the string lines, in order. */
  function StringLengths(lines: seq<string>, acceptsDouble: string -> bool): seq<int> {
    if lines == [] then []
    else
      var line := lines[|lines| - 1];
      StringLengths(lines[..|lines| - 1], acceptsDouble) + (if ParseLine(line, acceptsDouble).Text? then [|line|] else [])
  }

  function Sum(xs: seq<int>): int {
    if xs == [] then 0 else Sum(xs[..|xs| - 1]) + xs[|xs| - 1]
  }

  /**
   * `lo`/`hi` hold the sentinels while nothing was observed, and afterwards
   * are observed values bounding every observed value.
   */
  predicate Extrema(lo: int, hi: int, xs: seq<int>, loSentinel: int, hiSentinel: int) {
    (|xs| == 0 ==> lo == loSentinel && hi == hiSentinel) &&
    (|xs| > 0 ==> lo in xs && hi in xs && forall x :: x in xs ==> lo <= x <= hi)
  }

  /** `st` is what observing integer values `ints` and string lengths `lengths` gives. */
  predicate Summarizes(st: Stats, ints: seq<int>, lengths: seq<int>) {
    Complete(st.typeCounts) &&
    st.typeCounts[Integers] == |ints| &&
    st.typeCounts[Strings] == |lengths| &&
    st.intSum == Wrap64(Sum(ints)) &&
    Extrema(st.intMin, st.intMax, ints, MaxLong, MinLong) &&
    Extrema(st.stringMinLen, st.stringMaxLen, lengths, MaxInt, 0)
  }

  /** Every line fits in a Java string. */
  predicate JavaStrings(lines: seq<string>) {
    forall i :: 0 <= i < |lines| ==> |lines[i]| <= MaxInt
  }

  lemma ModAddLeft(x: int, b: int)
    ensures (x % TwoTo64 + b) % TwoTo64 == (x + b) % TwoTo64
  {
    var q := x / TwoTo64;
    assert x == q * TwoTo64 + x % TwoTo64;
    ModMultiple(q, x % TwoTo64 + b);
  }

  lemma ModMultiple(q: int, y: int)
    ensures (q * TwoTo64 + y) % TwoTo64 == y % TwoTo64
  {
  }

  /** Wrapping after every addition is the same as wrapping the exact sum once. */
  lemma Wrap64Add(a: int, b: int)
    ensures Wrap64(Wrap64(a) + b) == Wrap64(a + b)
  {
    ModAddLeft(a - MinLong, b);
  }

  /** The empty run summarizes nothing. */
  lemma InitialSummarizesNothing()
    ensures Summarizes(Initial(), [], [])
  {
  }

  /** Observing a line keeps the counts, the sum and the extrema in step with what was observed. */
  lemma ObserveSummarizes(st: Stats, ints: seq<int>, lengths: seq<int>, line: string, acceptsDouble: string -> bool)
    requires Summarizes(st, ints, lengths) && |line| <= MaxInt
    ensures var obj := ParseLine(line, acceptsDouble);
            Summarizes(Observe(st, obj),
                       ints + (if obj.Long? then [obj.value] else []),
                       lengths + (if obj.Text? then [|line|] else []))
  {
    var obj := ParseLine(line, acceptsDouble);
    if obj.Long? {
      ObserveIntegerSummarizes(st, ints, lengths, obj.value);
      assert lengths + [] == lengths;
    } else if obj.Text? {
      ObserveStringSummarizes(st, ints, lengths, line);
      assert ints + [] == ints;
    } else {
      assert ints + [] == ints && lengths + [] == lengths;
    }
  }

  lemma ObserveIntegerSummarizes(st: Stats, ints: seq<int>, lengths: seq<int>, v: int)
    requires Summarizes(st, ints, lengths) && InLongRange(v)
    ensures Summarizes(Observe(st, Long(v)), ints + [v], lengths)
  {
    var ints' := ints + [v];
    assert ints'[..|ints'| - 1] == ints;
    Wrap64Add(Sum(ints), v);
  }

  lemma ObserveStringSummarizes(st: Stats, ints: seq<int>, lengths: seq<int>, line: string)
    requires Summarizes(st, ints, lengths) && |line| <= MaxInt
    ensures Summarizes(Observe(st, Text(line)), ints, lengths + [|line|])
  {
    var lengths' := lengths + [|line|];
    assert forall x :: x in lengths' ==> x in lengths || x == |line|;
  }

  /**
   * The statistics of a whole run: the integer count, wrapping sum and
   * extrema of the integer lines, and the count and length extrema of the
   * string lines; the float count never moves.
   */
  lemma {:induction false} AggregateSummarizes(st: Stats, ints: seq<int>, lengths: seq<int>, lines: seq<string>,
                                               acceptsDouble: string -> bool)
    requires Summarizes(st, ints, lengths) && JavaStrings(lines)
    ensures Summarizes(Aggregate(st, lines, acceptsDouble),
                       ints + IntegerValues(lines, acceptsDouble),
                       lengths + StringLengths(lines, acceptsDouble))
  {
    if lines == [] {
      assert ints + [] == ints && lengths + [] == lengths;
    } else {
      var front, line := lines[..|lines| - 1], lines[|lines| - 1];
      AggregateSummarizes(st, ints, lengths, front, acceptsDouble);
      var obj := ParseLine(line, acceptsDouble);
      ObserveSummarizes(Aggregate(st, front, acceptsDouble),
                        ints + IntegerValues(front, acceptsDouble),
                        lengths + StringLengths(front, acceptsDouble), line, acceptsDouble);
      assert ints + IntegerValues(lines, acceptsDouble)
          == ints + IntegerValues(front, acceptsDouble) + (if obj.Long? then [obj.value] else []);
      assert lengths + StringLengths(lines, acceptsDouble)
          == lengths + StringLengths(front, acceptsDouble) + (if obj.Text? then [|line|] else []);
    }
  }

  /** Two observations can be made in either order. */
  lemma ObserveCommutes(st: Stats, a: Parsed, b: Parsed)
    requires Complete(st.typeCounts)
    ensures Observe(Observe(st, a), b) == Observe(Observe(st, b), a)
  {
    match (a, b)
    case (Long(x), Long(y)) =>
      Wrap64Add(st.intSum + x, y);
      Wrap64Add(st.intSum + y, x);
      assert st.intSum + x + y == st.intSum + y + x;
      IncrementCommutes(st.typeCounts, Integers, Integers);
    case (Long(_), Text(_)) => IncrementCommutes(st.typeCounts, Integers, Strings);
    case (Text(_), Long(_)) => IncrementCommutes(st.typeCounts, Strings, Integers);
    case (Text(_), Text(_)) => IncrementCommutes(st.typeCounts, Strings, Strings);
    case (Double, _) =>
    case (_, Double) =>
  }

  lemma IncrementCommutes(counts: map<Bucket, nat>, b: Bucket, c: Bucket)
    requires Complete(counts)
    ensures Increment(Increment(counts, b), c) == Increment(Increment(counts, c), b)
  {
  }

  /** Observing one line later in the sequence leaves the statistics as they were. */
  lemma {:induction false} MoveToEnd(st: Stats, p: seq<string>, y: string, q: seq<string>, acceptsDouble: string -> bool)
    requires Complete(st.typeCounts)
    ensures Aggregate(st, p + [y] + q, acceptsDouble) == Aggregate(st, p + q + [y], acceptsDouble)
  {
    if q == [] {
      assert p + [y] + q == p + q + [y];
    } else {
      var q', z := q[..|q| - 1], q[|q| - 1];
      MoveToEnd(st, p, y, q', acceptsDouble);
      assert (p + [y] + q)[..|p + [y] + q| - 1] == p + [y] + q';
      assert (p + q)[..|p + q| - 1] == p + q';
      assert (p + q' + [y])[..|p + q' + [y]| - 1] == p + q';
      assert (p + q + [y])[..|p + q + [y]| - 1] == p + q;
      ObserveCommutes(Aggregate(st, p + q', acceptsDouble), ParseLine(y, acceptsDouble), ParseLine(z, acceptsDouble));
    }
  }

  /** The statistics do not depend on the order of the lines: any permutation gives the same. */
  lemma {:induction false} AggregatePermutation(st: Stats, xs: seq<string>, ys: seq<string>, acceptsDouble: string -> bool)
    requires Complete(st.typeCounts) && multiset(xs) == multiset(ys)
    ensures Aggregate(st, xs, acceptsDouble) == Aggregate(st, ys, acceptsDouble)
    decreases |ys|
  {
    if ys == [] {
      assert |xs| == |multiset(xs)| == 0;
    } else {
      var front, y := ys[..|ys| - 1], ys[|ys| - 1];
      assert ys == front + [y];
      var p, q := RemoveOne(xs, front, y);
      MoveToEnd(st, p, y, q, acceptsDouble);
      AggregatePermutation(st, p + q, front, acceptsDouble);
      assert (p + q + [y])[..|p + q + [y]| - 1] == p + q;
    }
  }

  /** Splits `xs` around one occurrence of the last element of the permutation `front + [y]`. */
  lemma RemoveOne(xs: seq<string>, front: seq<string>, y: string) returns (p: seq<string>, q: seq<string>)
    requires multiset(xs) == multiset(front + [y])
    ensures xs == p + [y] + q && multiset(p + q) == multiset(front)
  {
    assert multiset(front + [y]) == multiset(front) + multiset{y};
    assert y in multiset(xs);
    assert y in xs;
    var i :| 0 <= i < |xs| && xs[i] == y;
    p, q := xs[..i], xs[i + 1..];
    assert xs == p + [y] + q;
    assert multiset(xs) == multiset(p) + multiset{y} + multiset(q);
    assert multiset(p + q) == multiset(p) + multiset(q);
    assert multiset(p + q) + multiset{y} == multiset(front) + multiset{y};
    forall x
      ensures multiset(p + q)[x] == multiset(front)[x]
    {
      assert (multiset(p + q) + multiset{y})[x] == (multiset(front) + multiset{y})[x];
    }
  }
}
