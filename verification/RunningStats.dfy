/** Welford's incremental statistics and the two-pass values they stand for.
    Times and statistics are exact reals. */
module RunningStats {
  import opened Options

  /** The O(1) state of a RunningStats object. */
  datatype Moments = Moments(count: nat, mean: real, m2: real, min: Option<real>, max: Option<real>) {

    function GetMin(): real { min.GetOr(0.0) }

    function GetMax(): real { max.GetOr(0.0) }

    function GetMean(): real { if count == 0 then 0.0 else mean }

    function Variance(): real { if count < 2 then 0.0 else m2 / count as real }
  }

  const NO_MOMENTS := Moments(0, 0.0, 0.0, None, None)

  function NextMean(mean: real, v: real, count: nat): real
    requires count > 0
  {
    mean + (v - mean) / count as real
  }

  /** The growth of the sum of squared deviations when `v` moves the mean from `m` to `m'`. */
  function Gain(v: real, m: real, m': real): real { (v - m) * (v - m') }

  function Push(s: Moments, v: real): Moments {
    var mean := NextMean(s.mean, v, s.count + 1);
    Moments(
      s.count + 1,
      mean,
      s.m2 + Gain(v, s.mean, mean),
      if s.min.None? || v < s.min.value then Some(v) else s.min,
      if s.max.None? || v > s.max.value then Some(v) else s.max)
  }

  function PushAll(xs: seq<real>): Moments {
    if xs == [] then NO_MOMENTS else Push(PushAll(xs[..|xs| - 1]), xs[|xs| - 1])
  }

  class RunningStats {
    var count: nat
    var mean: real
    var m2: real
    var min: Option<real>
    var max: Option<real>

    ghost function View(): Moments
      reads this
    {
      Moments(count, mean, m2, min, max)
    }

    constructor ()
      ensures View() == NO_MOMENTS
    {
      count, mean, m2, min, max := 0, 0.0, 0.0, None, None;
    }

    method Update(value: real)
      modifies this
      ensures View() == Push(old(View()), value)
    {
      count := count + 1;
      var delta := value - mean;
      ghost var before := mean;
      mean := mean + delta / count as real;
      assert mean == NextMean(before, value, count);
      var delta2 := value - mean;
      var gain := delta * delta2;
      assert gain == Gain(value, before, mean);
      m2 := m2 + gain;
      if min.None? || value < min.value {
        min := Some(value);
      }
      if max.None? || value > max.value {
        max := Some(value);
      }
    }

    method GetMin() returns (r: real)
      ensures r == View().GetMin()
    {
      r := if min.None? then 0.0 else min.value;
    }

    method GetMax() returns (r: real)
      ensures r == View().GetMax()
    {
      r := if max.None? then 0.0 else max.value;
    }

    method GetMean() returns (r: real)
      ensures r == View().GetMean()
    {
      r := if count == 0 then 0.0 else mean;
    }

    method Variance() returns (r: real)
      ensures r == View().Variance()
    {
      if count < 2 {
        return 0.0;
      }
      r := m2 / count as real;
    }
  }

  // ----- The two-pass values

  function SumOf(f: real -> real, xs: seq<real>): real {
    if xs == [] then 0.0 else SumOf(f, xs[..|xs| - 1]) + f(xs[|xs| - 1])
  }

  function Identity(x: real): real { x }

  function SquaredGap(x: real, c: real): real { (x - c) * (x - c) }

  function SquareAbout(c: real): real -> real {
    x => SquaredGap(x, c)
  }

  function Sum(xs: seq<real>): real { SumOf(Identity, xs) }

  function Mean(xs: seq<real>): real {
    if xs == [] then 0.0 else Sum(xs) / |xs| as real
  }

  /** Sum of squared deviations from `c`. */
  function SqDev(xs: seq<real>, c: real): real { SumOf(SquareAbout(c), xs) }

  /** `m` is the least (or, with `sign` -1, the greatest) element of `xs`; None for an empty list. */
  ghost predicate IsExtreme(m: Option<real>, xs: seq<real>, sign: int) {
    match m
    case None => xs == []
    case Some(v) => v in xs && forall x :: x in xs ==> if sign > 0 then v <= x else x <= v
  }

  /** What a from-scratch computation over the whole list yields. */
  ghost predicate IsTwoPass(s: Moments, xs: seq<real>) {
    && s.count == |xs|
    && s.mean == Mean(xs)
    && s.m2 == SqDev(xs, Mean(xs))
    && IsExtreme(s.min, xs, 1)
    && IsExtreme(s.max, xs, -1)
  }

  /** The sum of squared deviations about `c`, from the sum of squares `q`, the sum `s` and the length `n`. */
  function Expanded(q: real, s: real, n: real, c: real): real {
    q - 2.0 * c * s + n * c * c
  }

  lemma ExpandedStep(q: real, s: real, n: real, x: real, c: real)
    ensures Expanded(q + SquaredGap(x, 0.0), s + x, n + 1.0, c) == Expanded(q, s, n, c) + SquaredGap(x, c)
  {
  }

  lemma {:induction false} SqDevExpands(xs: seq<real>, c: real)
    ensures SqDev(xs, c) == Expanded(SqDev(xs, 0.0), Sum(xs), |xs| as real, c)
  {
    if xs != [] {
      hide Expanded, SquaredGap;
      var init, x := xs[..|xs| - 1], xs[|xs| - 1];
      SqDevExpands(init, c);
      ExpandedStep(SqDev(init, 0.0), Sum(init), |init| as real, x, c);
      assert |xs| as real == |init| as real + 1.0;
    }
  }

  lemma ShiftAlgebra(q: real, s: real, n: real, m: real, e: real)
    requires s == n * m
    ensures Expanded(q, s, n, m + e) == Expanded(q, s, n, m) + n * e * e
  {
  }

  lemma GapAlgebra(n: real, m: real, e: real)
    ensures var v := m + (n + 1.0) * e;
            n * e * e + SquaredGap(v, m + e) == Gain(v, m, m + e)
  {
  }

  lemma MeanAlgebra(s: real, n: nat, v: real, m: real)
    requires s == n as real * m
    ensures var k := n as real;
            var e := (v - m) / (k + 1.0);
            && v == m + (k + 1.0) * e
            && NextMean(m, v, n + 1) == m + e == (s + v) / (k + 1.0)
  {
    var k := n as real;
    var e := (v - m) / (k + 1.0);
    assert e * (k + 1.0) == v - m;
    assert (m + e) * (k + 1.0) == m * (k + 1.0) + e * (k + 1.0) == s + v;
  }

  /** The algebra of one Welford step: `n` old samples with sum `s`, mean `m` and sum of squares `q`. */
  lemma WelfordAlgebra(q: real, s: real, n: nat, v: real, m: real)
    requires s == n as real * m
    ensures var k, m' := n as real, NextMean(m, v, n + 1);
            Expanded(q + SquaredGap(v, 0.0), s + v, k + 1.0, m') == Expanded(q, s, k, m) + Gain(v, m, m')
  {
    var k := n as real;
    var e := (v - m) / (k + 1.0);
    MeanAlgebra(s, n, v, m);
    hide Expanded, SquaredGap, Gain, NextMean;
    ExpandedStep(q, s, k, v, m + e);
    ShiftAlgebra(q, s, k, m, e);
    GapAlgebra(k, m, e);
  }

  lemma SumOfSnoc(f: real -> real, xs: seq<real>, v: real)
    ensures SumOf(f, xs + [v]) == SumOf(f, xs) + f(v)
  {
    assert (xs + [v])[..|xs|] == xs;
  }

  lemma MeanTimesCount(xs: seq<real>)
    ensures Sum(xs) == |xs| as real * Mean(xs)
  {
  }

  lemma MeanStep(xs: seq<real>, v: real)
    ensures Mean(xs + [v]) == NextMean(Mean(xs), v, |xs| + 1)
  {
    MeanTimesCount(xs);
    MeanAlgebra(Sum(xs), |xs|, v, Mean(xs));
    hide NextMean;
    SumOfSnoc(Identity, xs, v);
  }

  lemma SqDevSnocExpands(xs: seq<real>, v: real, c: real)
    ensures SqDev(xs + [v], c) == Expanded(SqDev(xs, 0.0) + SquaredGap(v, 0.0), Sum(xs) + v, |xs| as real + 1.0, c)
  {
    hide Expanded, SquaredGap;
    SqDevExpands(xs + [v], c);
    SumOfSnoc(Identity, xs, v);
    SumOfSnoc(SquareAbout(0.0), xs, v);
    assert |xs + [v]| as real == |xs| as real + 1.0;
  }

  lemma SqDevStep(xs: seq<real>, v: real)
    ensures var m := Mean(xs);
            var m' := NextMean(m, v, |xs| + 1);
            SqDev(xs + [v], m') == SqDev(xs, m) + Gain(v, m, m')
  {
    hide NextMean, Gain, Expanded, SquaredGap;
    var m := Mean(xs);
    MeanTimesCount(xs);
    SqDevExpands(xs, m);
    SqDevSnocExpands(xs, v, NextMean(m, v, |xs| + 1));
    WelfordAlgebra(SqDev(xs, 0.0), Sum(xs), |xs|, v, m);
  }

  lemma ExtremeStep(m: Option<real>, xs: seq<real>, v: real, sign: int)
    requires IsExtreme(m, xs, sign)
    ensures IsExtreme(if m.None? || (if sign > 0 then v < m.value else v > m.value) then Some(v) else m, xs + [v], sign)
  {
    assert forall x :: x in xs + [v] <==> x in xs || x == v;
  }

  lemma PushMoments(s: Moments, xs: seq<real>, v: real)
    requires s.count == |xs| && s.mean == Mean(xs) && s.m2 == SqDev(xs, s.mean)
    ensures var t := Push(s, v); t.count == |xs + [v]| && t.mean == Mean(xs + [v]) && t.m2 == SqDev(xs + [v], t.mean)
  {
    hide NextMean, Gain, Mean, SqDev;
    MeanStep(xs, v);
    SqDevStep(xs, v);
  }

  /** One incremental update takes the two-pass values of `xs` to those of `xs + [v]`. */
  lemma PushRefinesTwoPass(s: Moments, xs: seq<real>, v: real)
    requires IsTwoPass(s, xs)
    ensures IsTwoPass(Push(s, v), xs + [v])
  {
    PushMoments(s, xs, v);
    ExtremeStep(s.min, xs, v, 1);
    ExtremeStep(s.max, xs, v, -1);
  }

  /** Any sequence of updates leaves exactly the two-pass values. */
  lemma {:induction false} WelfordRefinesTwoPass(xs: seq<real>)
    ensures IsTwoPass(PushAll(xs), xs)
  {
    if xs != [] {
      var init := xs[..|xs| - 1];
      WelfordRefinesTwoPass(init);
      PushRefinesTwoPass(PushAll(init), init, xs[|xs| - 1]);
      assert init + [xs[|xs| - 1]] == xs;
    }
  }

  // ----- Order does not matter

  lemma {:induction false} SumWithout(f: real -> real, xs: seq<real>, i: nat)
    requires i < |xs|
    ensures SumOf(f, xs) == SumOf(f, xs[..i] + xs[i + 1..]) + f(xs[i])
  {
    var init, rest := xs[..|xs| - 1], xs[..i] + xs[i + 1..];
    if i == |xs| - 1 {
      assert rest == init;
    } else {
      SumWithout(f, init, i);
      assert rest[..|rest| - 1] == init[..i] + init[i + 1..];
      assert rest[|rest| - 1] == xs[|xs| - 1];
    }
  }

  lemma MultisetWithout<T>(xs: seq<T>, i: nat)
    requires i < |xs|
    ensures multiset(xs[..i] + xs[i + 1..]) == multiset(xs) - multiset{xs[i]}
  {
    assert xs == xs[..i] + [xs[i]] + xs[i + 1..];
  }

  lemma {:induction false} SumPermutes(f: real -> real, xs: seq<real>, ys: seq<real>)
    requires multiset(xs) == multiset(ys)
    ensures |xs| == |ys| && SumOf(f, xs) == SumOf(f, ys)
  {
    assert |multiset(xs)| == |xs| && |multiset(ys)| == |ys|;
    if xs != [] {
      var n := |xs| - 1;
      assert xs[n] in multiset(ys);
      var i :| 0 <= i < |ys| && ys[i] == xs[n];
      MultisetWithout(xs, n);
      MultisetWithout(ys, i);
      assert xs[..n] + xs[n + 1..] == xs[..n];
      SumPermutes(f, xs[..n], ys[..i] + ys[i + 1..]);
      SumWithout(f, ys, i);
    }
  }

  lemma ExtremeUnique(a: Option<real>, b: Option<real>, xs: seq<real>, ys: seq<real>, sign: int)
    requires IsExtreme(a, xs, sign) && IsExtreme(b, ys, sign)
    requires forall x :: x in xs <==> x in ys
    requires |xs| == |ys|
    ensures a == b
  {
    if a.Some? && b.Some? {
      assert a.value in ys && b.value in xs;
    }
  }

  /** The statistics do not depend on the order in which the samples arrived. */
  lemma WelfordOrderIrrelevant(xs: seq<real>, ys: seq<real>)
    requires multiset(xs) == multiset(ys)
    ensures PushAll(xs) == PushAll(ys)
  {
    WelfordRefinesTwoPass(xs);
    WelfordRefinesTwoPass(ys);
    SumPermutes(Identity, xs, ys);
    SumPermutes(SquareAbout(Mean(xs)), xs, ys);
    forall x ensures x in xs <==> x in ys {
      assert x in xs <==> x in multiset(xs);
      assert x in ys <==> x in multiset(ys);
    }
    ExtremeUnique(PushAll(xs).min, PushAll(ys).min, xs, ys, 1);
    ExtremeUnique(PushAll(xs).max, PushAll(ys).max, xs, ys, -1);
  }
}
