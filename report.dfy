/**
 * What `printStatistics` prints (util/src/Main.java:135-150), one value per
 * printed line. The floating-point figures (the means and the float
 * bucket's values) are not modelled, only whether their line is printed.
 */
module Report {
  import opened Aggregator

  datatype ReportLine =
    | Heading
    | Count(bucket: Bucket, n: nat)
    | IntegerStats(min: int, max: int, sum: int)
    | FloatStats
    | StringLengthStats(shortest: int, longest: int)

  /** The position of a statistics line among the three that `-f` may add. */
  function StatsRank(l: ReportLine): nat {
    match l
    case IntegerStats(_, _, _) => 0
    case FloatStats => 1
    case StringLengthStats(_, _) => 2
    case _ => 3
  }

  /**
   * The three counts always; with `fullStats`, a statistics line for each
   * bucket whose count is positive. `shortStats` is accepted and never read.
   * The heading and the counts open every report; without `-f` they are all.
   * The statistics lines follow in integer, float, string order, each at most once.
   */
  function PrintStatistics(st: Stats, shortStats: bool, fullStats: bool): (r: seq<ReportLine>)
    requires Complete(st.typeCounts)
    ensures |r| >= 4 && r[0] == Heading
    ensures r[1] == Count(Integers, st.typeCounts[Integers])
    ensures r[2] == Count(Floats, st.typeCounts[Floats])
    ensures r[3] == Count(Strings, st.typeCounts[Strings])
    ensures !fullStats ==> |r| == 4
    ensures forall k :: 4 <= k < |r| ==> !r[k].Count? && r[k] != Heading
    ensures |r| <= 7
    ensures forall j, k :: 4 <= j < k < |r| ==> StatsRank(r[j]) < StatsRank(r[k])
  {
    var counts := st.typeCounts;
    [Heading, Count(Integers, counts[Integers]), Count(Floats, counts[Floats]), Count(Strings, counts[Strings])]
    + (if fullStats && counts[Integers] > 0 then [IntegerStats(st.intMin, st.intMax, st.intSum)] else [])
    + (if fullStats && counts[Floats] > 0 then [FloatStats] else [])
    + (if fullStats && counts[Strings] > 0 then [StringLengthStats(st.stringMinLen, st.stringMaxLen)] else [])
  }

  /** The `-s` flag has no effect on what is printed. */
  lemma ShortStatsIgnored(st: Stats, fullStats: bool)
    requires Complete(st.typeCounts)
    ensures PrintStatistics(st, true, fullStats) == PrintStatistics(st, false, fullStats)
  {
  }

  /**
   * A bucket's statistics line is printed exactly when `-f` was given and
   * the bucket's count is positive, and it shows that bucket's fields.
   */
  lemma FullStatsGated(st: Stats, shortStats: bool, fullStats: bool)
    requires Complete(st.typeCounts)
    ensures var r := PrintStatistics(st, shortStats, fullStats);
            (IntegerStats(st.intMin, st.intMax, st.intSum) in r <==> fullStats && st.typeCounts[Integers] > 0) &&
            (FloatStats in r <==> fullStats && st.typeCounts[Floats] > 0) &&
            (StringLengthStats(st.stringMinLen, st.stringMaxLen) in r <==> fullStats && st.typeCounts[Strings] > 0)
    ensures forall l :: l in PrintStatistics(st, shortStats, fullStats) ==>
              (l.IntegerStats? ==> l == IntegerStats(st.intMin, st.intMax, st.intSum)) &&
              (l.StringLengthStats? ==> l == StringLengthStats(st.stringMinLen, st.stringMaxLen))
  {
  }
}
