/** List-based session features and their relations to the incremental statistics. Square roots are a
    parameter: nothing here depends on what `sqrt` computes. */
module Features {
  import opened Packets
  import opened RunningStats
  import opened TrafficSession
  import opened Sessionizer
  import opened FlowSegmentation
  import opened SessionGuarantees

  function Least(xs: seq<real>): real
    requires xs != []
  {
    if |xs| == 1 || xs[|xs| - 1] < Least(xs[..|xs| - 1]) then xs[|xs| - 1] else Least(xs[..|xs| - 1])
  }

  function Greatest(xs: seq<real>): real
    requires xs != []
  {
    if |xs| == 1 || xs[|xs| - 1] > Greatest(xs[..|xs| - 1]) then xs[|xs| - 1] else Greatest(xs[..|xs| - 1])
  }

  function SafeMin(xs: seq<real>): real { if xs == [] then 0.0 else Least(xs) }

  function SafeMax(xs: seq<real>): real { if xs == [] then 0.0 else Greatest(xs) }

  function SafeMean(xs: seq<real>): real { Mean(xs) }

  function SafeVariance(xs: seq<real>): real {
    if |xs| < 2 then 0.0 else SqDev(xs, Mean(xs)) / |xs| as real
  }

  function SafeStd(sqrt: real -> real, xs: seq<real>): real {
    if |xs| < 2 then 0.0 else sqrt(SafeVariance(xs))
  }

  function SafeRate(value: real, duration: real): real {
    if duration <= 0.0 then 0.0 else value / duration
  }

  // ----- Inter-arrival times

  predicate Ascending(xs: seq<real>) {
    forall i, j :: 0 <= i < j < |xs| ==> xs[i] <= xs[j]
  }

  function Insert(x: real, xs: seq<real>): seq<real> {
    if xs == [] || x <= xs[0] then [x] + xs else [xs[0]] + Insert(x, xs[1..])
  }

  function Sorted(xs: seq<real>): seq<real> {
    if xs == [] then [] else Insert(xs[0], Sorted(xs[1..]))
  }

  lemma {:induction false} InsertKeepsOrder(x: real, xs: seq<real>)
    requires Ascending(xs)
    ensures Ascending(Insert(x, xs))
    ensures forall y :: y in Insert(x, xs) <==> y in xs || y == x
    ensures |Insert(x, xs)| == |xs| + 1
  {
    if xs != [] && xs[0] < x {
      var rest := xs[1..];
      InsertKeepsOrder(x, rest);
      assert xs == [xs[0]] + rest;
      var tail := Insert(x, rest);
      forall i | 0 <= i < |tail| ensures xs[0] <= tail[i] {
        assert tail[i] in tail;
      }
    }
  }

  lemma {:induction false} SortedIsSorted(xs: seq<real>)
    ensures Ascending(Sorted(xs))
    ensures forall y :: y in Sorted(xs) <==> y in xs
    ensures |Sorted(xs)| == |xs|
  {
    if xs != [] {
      SortedIsSorted(xs[1..]);
      InsertKeepsOrder(xs[0], Sorted(xs[1..]));
      assert xs == [xs[0]] + xs[1..];
    }
  }

  lemma {:induction false} InsertAddsOne(x: real, xs: seq<real>)
    ensures multiset(Insert(x, xs)) == multiset(xs) + multiset{x}
  {
    if xs != [] && xs[0] < x {
      InsertAddsOne(x, xs[1..]);
      assert xs == [xs[0]] + xs[1..];
    }
  }

  lemma {:induction false} SortedIsPermutation(xs: seq<real>)
    ensures multiset(Sorted(xs)) == multiset(xs)
  {
    if xs != [] {
      SortedIsPermutation(xs[1..]);
      InsertAddsOne(xs[0], Sorted(xs[1..]));
      assert xs == [xs[0]] + xs[1..];
    }
  }

  function Gaps(xs: seq<real>): seq<real> {
    if |xs| < 2 then [] else Gaps(xs[..|xs| - 1]) + [xs[|xs| - 1] - xs[|xs| - 2]]
  }

  function NonNegative(xs: seq<real>): seq<real> {
    if xs == [] then []
    else NonNegative(xs[..|xs| - 1]) + if xs[|xs| - 1] >= 0.0 then [xs[|xs| - 1]] else []
  }

  datatype IatStats = IatStats(min: real, max: real, mean: real, std: real, total: real)

  const NO_IAT := IatStats(0.0, 0.0, 0.0, 0.0, 0.0)

  function SafeIatStats(sqrt: real -> real, timestamps: seq<real>): IatStats {
    if |timestamps| < 2 then NO_IAT
    else
      var cleaned := NonNegative(Gaps(Sorted(timestamps)));
      if cleaned == [] then NO_IAT
      else IatStats(SafeMin(cleaned), SafeMax(cleaned), SafeMean(cleaned), SafeStd(sqrt, cleaned), Sum(cleaned))
  }

  lemma {:induction false} GapsTelescope(xs: seq<real>)
    requires Ascending(xs) && xs != []
    ensures NonNegative(Gaps(xs)) == Gaps(xs)
    ensures |Gaps(xs)| == |xs| - 1
    ensures Sum(Gaps(xs)) == xs[|xs| - 1] - xs[0]
  {
    if |xs| > 1 {
      GapsTelescope(xs[..|xs| - 1]);
      var gaps := Gaps(xs);
      assert gaps[..|gaps| - 1] == Gaps(xs[..|xs| - 1]);
    }
  }

  lemma {:induction false} LeastIs(xs: seq<real>)
    requires xs != []
    ensures Least(xs) in xs && forall x :: x in xs ==> Least(xs) <= x
  {
    if |xs| > 1 {
      LeastIs(xs[..|xs| - 1]);
      assert xs == xs[..|xs| - 1] + [xs[|xs| - 1]];
    }
  }

  lemma {:induction false} GreatestIs(xs: seq<real>)
    requires xs != []
    ensures Greatest(xs) in xs && forall x :: x in xs ==> x <= Greatest(xs)
  {
    if |xs| > 1 {
      GreatestIs(xs[..|xs| - 1]);
      assert xs == xs[..|xs| - 1] + [xs[|xs| - 1]];
    }
  }

  lemma SortedEnds(xs: seq<real>)
    requires xs != []
    ensures var ys := Sorted(xs);
            |ys| == |xs| && ys[0] == Least(xs) && ys[|ys| - 1] == Greatest(xs)
  {
    var ys := Sorted(xs);
    SortedIsSorted(xs);
    LeastIs(xs);
    GreatestIs(xs);
    hide Sorted, Least, Greatest;
    assert ys[0] in ys && ys[|ys| - 1] in ys;
    var lo :| 0 <= lo < |ys| && ys[lo] == Least(xs);
    var hi :| 0 <= hi < |ys| && ys[hi] == Greatest(xs);
  }

  /** Sorting first makes every gap non-negative, so cleaning drops none, and the gaps add up to the
      distance between the first and the last instant, in whatever order the packets came. */
  lemma GapTotalTelescopes(sqrt: real -> real, timestamps: seq<real>)
    requires timestamps != []
    ensures |timestamps| >= 2 ==> NonNegative(Gaps(Sorted(timestamps))) == Gaps(Sorted(timestamps))
    ensures SafeIatStats(sqrt, timestamps).total == SafeMax(timestamps) - SafeMin(timestamps)
  {
    SortedIsSorted(timestamps);
    SortedEnds(timestamps);
    GapsTelescope(Sorted(timestamps));
  }

  /** `least` and `greatest` are the extreme gaps between neighbours of `ys`. */
  ghost predicate ExtremeGaps(ys: seq<real>, least: real, greatest: real) {
    && (forall i :: 1 <= i < |ys| ==> least <= ys[i] - ys[i - 1] <= greatest)
    && (exists i :: 1 <= i < |ys| && ys[i] - ys[i - 1] == least)
    && (exists i :: 1 <= i < |ys| && ys[i] - ys[i - 1] == greatest)
  }

  /** The gaps between neighbours of the sorted timestamps: their least, greatest and mean, the mean being the
      whole span over their number. */
  lemma IatStatsAre(sqrt: real -> real, timestamps: seq<real>)
    requires |timestamps| >= 2
    ensures var s := SafeIatStats(sqrt, timestamps);
            && ExtremeGaps(Sorted(timestamps), s.min, s.max)
            && s.mean == (SafeMax(timestamps) - SafeMin(timestamps)) / (|timestamps| - 1) as real
            && s.std == SafeStd(sqrt, Gaps(Sorted(timestamps)))
  {
    hide Sorted, SafeStd, Least, Greatest, NonNegative, Sum, Gaps, ExtremeGaps, Ascending;
    var ys := Sorted(timestamps);
    SortedIsSorted(timestamps);
    SortedEnds(timestamps);
    GapsTelescope(ys);
    GapExtremes(ys);
  }

  lemma GapExtremes(ys: seq<real>)
    requires |ys| >= 2
    ensures Gaps(ys) != [] && ExtremeGaps(ys, Least(Gaps(ys)), Greatest(Gaps(ys)))
  {
    hide Least, Greatest, Gaps;
    GapsAre(ys);
    var gaps := Gaps(ys);
    LeastIs(gaps);
    GreatestIs(gaps);
    var lo :| 0 <= lo < |gaps| && gaps[lo] == Least(gaps);
    var hi :| 0 <= hi < |gaps| && gaps[hi] == Greatest(gaps);
    assert gaps[lo] == ys[lo + 1] - ys[lo + 1 - 1];
    assert gaps[hi] == ys[hi + 1] - ys[hi + 1 - 1];
    forall i | 1 <= i < |ys| ensures Least(gaps) <= ys[i] - ys[i - 1] <= Greatest(gaps) {
      assert gaps[i - 1] in gaps;
      assert gaps[i - 1] == ys[i - 1 + 1] - ys[i - 1];
    }
  }

  lemma {:induction false} GapsAre(xs: seq<real>)
    ensures |Gaps(xs)| == if xs == [] then 0 else |xs| - 1
    ensures forall i :: 0 <= i < |Gaps(xs)| ==> Gaps(xs)[i] == xs[i + 1] - xs[i]
  {
    if |xs| >= 2 {
      GapsAre(xs[..|xs| - 1]);
    }
  }

  lemma SpanIffOrderedEnds(ts: seq<real>)
    requires ts != []
    ensures var first, last := ts[0], ts[|ts| - 1];
            var duration := if last - first > 0.0 then last - first else 0.0;
            Greatest(ts) - Least(ts) == duration <==> forall i :: 0 <= i < |ts| ==> first <= ts[i] <= last
  {
    LeastIs(ts);
    GreatestIs(ts);
    hide Least, Greatest;
    assert ts[0] in ts && ts[|ts| - 1] in ts;
    var lo :| 0 <= lo < |ts| && ts[lo] == Least(ts);
    var hi :| 0 <= hi < |ts| && ts[hi] == Greatest(ts);
    forall i | 0 <= i < |ts| ensures ts[lo] <= ts[i] <= ts[hi] {
      assert ts[i] in ts;
    }
    if forall i :: 0 <= i < |ts| ==> ts[0] <= ts[i] <= ts[|ts| - 1] {
      assert ts[0] <= ts[lo] && ts[hi] <= ts[|ts| - 1];
    }
  }

  /** The recorded inter-arrival total is the flow duration exactly when the first packet is the earliest
      and the last packet the latest; so always under non-decreasing timestamps. */
  lemma TotalIsDurationIff(sqrt: real -> real, s: Session, ps: seq<Packet>)
    requires ps != [] && Records(s, ps)
    ensures SafeIatStats(sqrt, s.fwd.packetTimestamps).total == s.Duration() <==>
            forall i :: 0 <= i < |ps| ==> ps[0].timestamp <= ps[i].timestamp <= ps[|ps| - 1].timestamp
    ensures Monotone(ps) ==> SafeIatStats(sqrt, s.fwd.packetTimestamps).total == s.Duration()
  {
    hide Records, SafeIatStats, Least, Greatest, Sorted, Gaps, NonNegative, Monotone;
    var ts := Times(ps);
    RecordsTimes(s, ps);
    GapTotalTelescopes(sqrt, ts);
    SpanIffOrderedEnds(ts);
    if Monotone(ps) {
      OrderedEnds(ps);
    }
    assert forall i :: 0 <= i < |ps| ==> ts[i] == ps[i].timestamp;
    assert (forall i :: 0 <= i < |ts| ==> ts[0] <= ts[i] <= ts[|ts| - 1]) <==>
           (forall i :: 0 <= i < |ps| ==> ps[0].timestamp <= ps[i].timestamp <= ps[|ps| - 1].timestamp);
  }

  lemma OrderedEnds(ps: seq<Packet>)
    requires ps != [] && Monotone(ps)
    ensures forall i :: 0 <= i < |ps| ==> ps[0].timestamp <= ps[i].timestamp <= ps[|ps| - 1].timestamp
  {
  }

  lemma RecordsTimes(s: Session, ps: seq<Packet>)
    requires ps != [] && Records(s, ps)
    ensures s.fwd.packetTimestamps == Times(ps)
    ensures s.startTime == ps[0].timestamp && s.lastSeen == ps[|ps| - 1].timestamp
  {
  }

  // ----- The extracted features

  datatype LengthStats = LengthStats(min: real, max: real, mean: real, std: real, variance: real)

  datatype FeatureVector = FeatureVector(
    flowDuration: real,
    totalFwdPackets: nat,
    totalFwdBytes: int,
    flowBytesPerSec: real,
    flowPacketsPerSec: real,
    fwdPacketsPerSec: real,
    packetLen: LengthStats,
    fwdPacketLen: LengthStats,
    avgPacketSize: real,
    flowIat: IatStats,
    fwdIat: IatStats)

  function LengthStatsOf(sqrt: real -> real, xs: seq<real>): LengthStats {
    LengthStats(SafeMin(xs), SafeMax(xs), SafeMean(xs), SafeStd(sqrt, xs), SafeVariance(xs))
  }

  function Extract(sqrt: real -> real, s: Session): FeatureVector {
    var duration := s.Duration();
    FeatureVector(
      duration,
      s.fwd.packetCount,
      s.fwd.totalBytes,
      SafeRate(s.totalBytes as real, duration),
      SafeRate(s.packetCount as real, duration),
      SafeRate(s.fwd.packetCount as real, duration),
      LengthStatsOf(sqrt, Reals(s.packetLengths)),
      LengthStatsOf(sqrt, Reals(s.fwd.packetLengths)),
      s.AveragePacketSize(),
      SafeIatStats(sqrt, s.packetTimestamps),
      SafeIatStats(sqrt, s.fwd.packetTimestamps))
  }

  lemma {:induction false} SumOfReals(xs: seq<int>)
    ensures Sum(Reals(xs)) == Total(xs) as real
  {
    if xs != [] {
      SumOfReals(xs[..|xs| - 1]);
      assert Reals(xs)[..|xs| - 1] == Reals(xs[..|xs| - 1]);
    }
  }

  /** Session keys being directional, every forward feature duplicates its flow counterpart, and the average
      packet size duplicates the mean packet length. */
  lemma ForwardFeaturesCollapse(sqrt: real -> real, s: Session, ps: seq<Packet>)
    requires ps != [] && Records(s, ps)
    ensures var f := Extract(sqrt, s);
            && f.fwdPacketLen == f.packetLen
            && f.fwdIat == f.flowIat
            && f.fwdPacketsPerSec == f.flowPacketsPerSec
            && f.totalFwdPackets == s.packetCount && f.totalFwdBytes == s.totalBytes
            && f.avgPacketSize == f.packetLen.mean
  {
    SumOfReals(s.packetLengths);
    hide SafeMin, SafeMax, SafeStd, SafeVariance, SafeRate, SafeIatStats, PushAll, EndsFlow;
  }

  /** A rate times the duration is the total, of bytes, packets and forward packets; without duration it is 0. */
  lemma RatesAreTotals(sqrt: real -> real, s: Session, ps: seq<Packet>)
    requires ps != [] && Records(s, ps)
    ensures var f, d := Extract(sqrt, s), ps[|ps| - 1].timestamp - ps[0].timestamp;
            && f.flowDuration == (if d > 0.0 then d else 0.0)
            && (d > 0.0 ==>
                  && f.flowBytesPerSec * d == Total(Sizes(ps)) as real
                  && f.flowPacketsPerSec * d == |ps| as real
                  && f.fwdPacketsPerSec * d == |ps| as real)
            && (d <= 0.0 ==> f.flowBytesPerSec == 0.0 && f.flowPacketsPerSec == 0.0 && f.fwdPacketsPerSec == 0.0)
  {
    hide SafeIatStats, LengthStatsOf, PushAll, EndsFlow;
    var d := ps[|ps| - 1].timestamp - ps[0].timestamp;
    if d > 0.0 {
      RateTimes(Total(Sizes(ps)) as real, d);
      RateTimes(|ps| as real, d);
    }
  }

  lemma RateTimes(value: real, duration: real)
    requires duration > 0.0
    ensures SafeRate(value, duration) * duration == value
  {
    assert (value / duration) * duration == value;
  }

  /** The length features of a session: bounds that are met, the mean and the population variance. */
  lemma LengthFeatures(sqrt: real -> real, s: Session, ps: seq<Packet>)
    requires ps != [] && Records(s, ps)
    ensures var f, n := Extract(sqrt, s).packetLen, |ps| as real;
            && (forall i :: 0 <= i < |ps| ==> f.min <= ps[i].packetSize as real <= f.max)
            && (exists i :: 0 <= i < |ps| && ps[i].packetSize as real == f.min)
            && (exists i :: 0 <= i < |ps| && ps[i].packetSize as real == f.max)
            && f.mean * n == Total(Sizes(ps)) as real
            && f.variance * n == (if |ps| < 2 then 0.0 else SqDev(Reals(Sizes(ps)), f.mean))
            && f.std == (if |ps| < 2 then 0.0 else sqrt(f.variance))
  {
    hide SafeIatStats, PushAll, EndsFlow, Least, Greatest, Sum, SqDev, Total, SafeRate;
    var xs, n := Reals(Sizes(ps)), |ps| as real;
    LeastIs(xs);
    GreatestIs(xs);
    SumOfReals(Sizes(ps));
    var lo :| 0 <= lo < |xs| && xs[lo] == Least(xs);
    var hi :| 0 <= hi < |xs| && xs[hi] == Greatest(xs);
    forall i | 0 <= i < |ps| ensures Least(xs) <= ps[i].packetSize as real <= Greatest(xs) {
      assert xs[i] in xs;
    }
    assert ps[lo].packetSize as real == xs[lo] && ps[hi].packetSize as real == xs[hi];
    DivideTimes(Sum(xs), n);
    DivideTimes(SqDev(xs, Mean(xs)), n);
  }

  lemma DivideTimes(x: real, n: real)
    requires n > 0.0
    ensures (x / n) * n == x
  {
  }

  // ----- Divergence between list-based and incremental statistics

  const REL_TOL := 0.000001
  const ABS_TOL := 0.000001

  function Abs(x: real): real { if x < 0.0 then -x else x }

  function Larger(x: real, y: real): real { if x < y then y else x }

  predicate IsClose(a: real, b: real) {
    Abs(a - b) <= Larger(REL_TOL * Larger(Abs(a), Abs(b)), ABS_TOL)
  }

  /** The fields that the validation compares: name, list-based value, incremental value. */
  datatype Comparison = Comparison(field: string, listBased: real, incremental: real)

  function Std(sqrt: real -> real, m: Moments): real { sqrt(m.Variance()) }

  function Comparisons(sqrt: real -> real, f: FeatureVector, s: Session): seq<Comparison> {
    [ Comparison("packet_len_min", f.packetLen.min, s.packetLengthStats.GetMin()),
      Comparison("packet_len_max", f.packetLen.max, s.packetLengthStats.GetMax()),
      Comparison("packet_len_mean", f.packetLen.mean, s.packetLengthStats.GetMean()),
      Comparison("packet_len_std", f.packetLen.std, Std(sqrt, s.packetLengthStats)),
      Comparison("packet_len_variance", f.packetLen.variance, s.packetLengthStats.Variance()),
      Comparison("fwd_packet_len_min", f.fwdPacketLen.min, s.fwd.packetLengthStats.GetMin()),
      Comparison("fwd_packet_len_max", f.fwdPacketLen.max, s.fwd.packetLengthStats.GetMax()),
      Comparison("fwd_packet_len_mean", f.fwdPacketLen.mean, s.fwd.packetLengthStats.GetMean()),
      Comparison("fwd_packet_len_std", f.fwdPacketLen.std, Std(sqrt, s.fwd.packetLengthStats)) ]
  }

  /** Close means: within one millionth, absolutely or relative to either value. */
  lemma CloseIff(a: real, b: real)
    ensures IsClose(a, b) <==>
              var gap := if a >= b then a - b else b - a;
              gap <= 0.000001 || gap <= 0.000001 * Abs(a) || gap <= 0.000001 * Abs(b)
  {
    Scales(Abs(a), Abs(b));
  }

  lemma Scales(a: real, b: real)
    ensures REL_TOL * Larger(a, b) == Larger(REL_TOL * a, REL_TOL * b)
  {
  }

  function Fields(cs: seq<Comparison>): seq<string> {
    seq(|cs|, i requires 0 <= i < |cs| => cs[i].field)
  }

  /** All nine statistics are compared. */
  lemma NineComparisons(sqrt: real -> real, f: FeatureVector, s: Session)
    ensures Fields(Comparisons(sqrt, f, s)) ==
              ["packet_len_min", "packet_len_max", "packet_len_mean", "packet_len_std", "packet_len_variance",
               "fwd_packet_len_min", "fwd_packet_len_max", "fwd_packet_len_mean", "fwd_packet_len_std"]
  {
  }

  /** The loop of _validate_against_incremental_stats; the result lists the fields it would log. */
  method ValidateAgainstIncrementalStats(sqrt: real -> real, f: FeatureVector, s: Session) returns (diverged: seq<string>)
    ensures forall name :: name in diverged <==>
              exists c :: c in Comparisons(sqrt, f, s) && c.field == name && !IsClose(c.listBased, c.incremental)
  {
    hide IsClose, Comparisons;
    var comparisons := Comparisons(sqrt, f, s);
    diverged := [];
    for i := 0 to |comparisons|
      invariant forall name :: name in diverged <==>
                  exists c :: c in comparisons[..i] && c.field == name && !IsClose(c.listBased, c.incremental)
    {
      var c := comparisons[i];
      assert comparisons[..i + 1] == comparisons[..i] + [c];
      if !IsClose(c.listBased, c.incremental) {
        diverged := diverged + [c.field];
      }
    }
    assert comparisons[..|comparisons|] == comparisons;
  }

  lemma StatsMatch(sqrt: real -> real, xs: seq<real>)
    requires xs != [] && sqrt(0.0) == 0.0
    ensures var l, m := LengthStatsOf(sqrt, xs), PushAll(xs);
            && l.min == m.GetMin() && l.max == m.GetMax() && l.mean == m.GetMean()
            && l.variance == m.Variance() && l.std == Std(sqrt, m)
  {
    WelfordRefinesTwoPass(xs);
    LeastIs(xs);
    GreatestIs(xs);
    hide PushAll, SqDev, Sum;
    var m := PushAll(xs);
    assert m.min.value <= Least(xs) <= m.min.value;
    assert m.max.value <= Greatest(xs) <= m.max.value;
  }

  /** In exact arithmetic every compared pair is equal, for every session of any packet stream. */
  lemma StatisticsNeverDiverge(sqrt: real -> real, s: Session, ps: seq<Packet>)
    requires ps != [] && Records(s, ps) && sqrt(0.0) == 0.0
    ensures forall c :: c in Comparisons(sqrt, Extract(sqrt, s), s) ==>
              c.listBased == c.incremental && IsClose(c.listBased, c.incremental)
  {
    StatsMatch(sqrt, Reals(s.packetLengths));
    hide PushAll, SafeIatStats, SafeMin, SafeMax, SafeMean, SafeStd, SafeVariance, SafeRate, EndsFlow, Std;
    forall x ensures IsClose(x, x) {
    }
    hide IsClose;
  }

  // ----- Every session of every stream

  lemma {:induction false} FlowKeepsOrder(k: SessionKey, ps: seq<Packet>, latest: real)
    requires Monotone(ps) && forall i :: 0 <= i < |ps| ==> ps[i].timestamp <= latest
    ensures Monotone(Flow(k, ps))
    ensures forall i :: 0 <= i < |Flow(k, ps)| ==> Flow(k, ps)[i].timestamp <= latest
  {
    if ps != [] {
      FlowKeepsOrder(k, ps[..|ps| - 1], Last(ps).timestamp);
    }
  }

  lemma {:induction false} SegmentsKeepOrder(segs: seq<seq<Packet>>, i: nat)
    requires i < |segs| && Monotone(Flatten(segs))
    ensures Monotone(segs[i])
  {
    hide Monotone;
    var n := |segs| - 1;
    PartsKeepOrder(Flatten(segs[..n]), segs[n]);
    assert Flatten(segs) == Flatten(segs[..n]) + segs[n];
    if i < n {
      SegmentsKeepOrder(segs[..n], i);
    }
  }

  lemma PartsKeepOrder(a: seq<Packet>, b: seq<Packet>)
    requires Monotone(a + b)
    ensures Monotone(a) && Monotone(b)
  {
    assert forall j :: 0 <= j < |a| ==> (a + b)[j] == a[j];
    assert forall j :: 0 <= j < |b| ==> (a + b)[|a| + j] == b[j];
  }

  /** The packets of a session that a stream produces. */
  lemma SessionHasSegment(k: SessionKey, stream: seq<Packet>, s: Session) returns (seg: seq<Packet>)
    requires s in SessionsFor(k, Run(stream))
    ensures WellShaped(k, seg) && Records(s, seg)
    ensures Monotone(stream) ==> Monotone(seg)
  {
    FlowProjection(k, stream);
    SegmentsWellShaped(k, stream);
    SegmentsPartitionFlow(k, stream);
    hide Run, SessionsFor, SessionOf, Records, WellShaped, Project, Flow, Flatten, Monotone;
    var segs := Project(k, stream).segs;
    var i :| 0 <= i < |segs| && SessionsOf(segs)[i] == s;
    seg := segs[i];
    WellShapedRecords(k, seg);
    if Monotone(stream) {
      OrderedFlow(k, stream);
      SegmentsKeepOrder(segs, i);
    }
  }

  lemma OrderedFlow(k: SessionKey, ps: seq<Packet>)
    requires Monotone(ps)
    ensures Monotone(Flow(k, ps))
  {
    if ps != [] {
      FlowKeepsOrder(k, ps, Last(ps).timestamp);
    }
  }

  /** The feature-level results hold of every session that any packet stream produces; under non-decreasing
      timestamps the forward inter-arrival total is the flow duration. */
  lemma EverySessionsFeatures(sqrt: real -> real, k: SessionKey, stream: seq<Packet>, s: Session)
    requires sqrt(0.0) == 0.0
    requires s in SessionsFor(k, Run(stream))
    ensures var f := Extract(sqrt, s);
            && f.fwdPacketLen == f.packetLen && f.fwdIat == f.flowIat && f.avgPacketSize == f.packetLen.mean
            && f.fwdPacketsPerSec == f.flowPacketsPerSec
            && f.totalFwdPackets == s.packetCount && f.totalFwdBytes == s.totalBytes
            && f.flowIat.total == SafeMax(s.packetTimestamps) - SafeMin(s.packetTimestamps)
            && (forall c :: c in Comparisons(sqrt, f, s) ==> c.listBased == c.incremental)
            && (Monotone(stream) ==> f.fwdIat.total == f.flowDuration)
  {
    hide Run, SessionsFor, WellShaped, Comparisons, Monotone;
    var seg := SessionHasSegment(k, stream, s);
    assert seg != [] by { ShapedIsNonEmpty(k, seg); }
    ForwardFeaturesCollapse(sqrt, s, seg);
    StatisticsNeverDiverge(sqrt, s, seg);
    TotalIsDurationIff(sqrt, s, seg);
    RecordsTimes(s, seg);
    GapTotalTelescopes(sqrt, s.packetTimestamps);
    hide SafeIatStats, SafeMin, SafeMax, SafeMean, SafeStd, SafeVariance, SafeRate, LengthStatsOf;
  }

  lemma ShapedIsNonEmpty(k: SessionKey, seg: seq<Packet>)
    requires WellShaped(k, seg)
    ensures seg != []
  {
  }

  /** Out of order the total and the duration can differ: packets at 10 s and 0 s make a session of duration
      0 with an inter-arrival total of 10. */
  lemma LateFirstPacketBreaksTotal(sqrt: real -> real, first: Packet, second: Packet)
    requires KeyOf(first) == KeyOf(second) && first.timestamp == 10.0 && second.timestamp == 0.0
    ensures var s := SessionOf([first, second]);
            s.Duration() == 0.0 && SafeIatStats(sqrt, s.fwd.packetTimestamps).total == 10.0
  {
    var ps := [first, second];
    SessionRecordsItsPackets(ps);
    RecordsTimes(SessionOf(ps), ps);
    GapTotalTelescopes(sqrt, Times(ps));
    LeastIs(Times(ps));
    GreatestIs(Times(ps));
    hide SessionOf, SafeIatStats, Least, Greatest;
    assert Times(ps)[0] == 10.0 && Times(ps)[1] == 0.0;
  }
}
