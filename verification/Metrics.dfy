/** Metrics of a confusion matrix, in exact arithmetic. */
module Metrics {
  import opened DatasetSplit
  import opened ConfusionMatrix

  const NORMAL := "Normal Traffic"

  function Sum(f: Vector, n: nat): int {
    if n == 0 then 0 else Sum(f, n - 1) + f(n - 1)
  }

  function SumReal(f: nat -> real, n: nat): real {
    if n == 0 then 0.0 else SumReal(f, n - 1) + f(n - 1)
  }

  type Vector = nat -> int

  function RowCells(m: Matrix, i: nat): Vector { (j: nat) => m(i, j) }
  function ColCells(m: Matrix, j: nat): Vector { (i: nat) => m(i, j) }
  function DiagonalCells(m: Matrix): Vector { (i: nat) => m(i, i) }

  function RowSum(m: Matrix, n: nat, i: nat): int { Sum(RowCells(m, i), n) }
  function ColSum(m: Matrix, n: nat, j: nat): int { Sum(ColCells(m, j), n) }

  function Support(m: Matrix, n: nat): Vector { (i: nat) => RowSum(m, n, i) }

  function Total(m: Matrix, n: nat): int { Sum(Support(m, n), n) }
  function Diagonal(m: Matrix, n: nat): int { Sum(DiagonalCells(m), n) }

  /** `np.divide` with zeros where the divisor is not positive. */
  function Quotient(a: real, b: real): real {
    if b > 0.0 then a / b else 0.0
  }

  function Precision(m: Matrix, n: nat, i: nat): real { Quotient(m(i, i) as real, ColSum(m, n, i) as real) }
  function Recall(m: Matrix, n: nat, i: nat): real { Quotient(m(i, i) as real, RowSum(m, n, i) as real) }

  function HarmonicMean(p: real, r: real): real { Quotient(2.0 * p * r, p + r) }

  function F1(m: Matrix, n: nat, i: nat): real { HarmonicMean(Precision(m, n, i), Recall(m, n, i)) }

  function Product(x: real, y: real): real { x * y }

  type Metric = nat -> real

  function Precisions(m: Matrix, n: nat): Metric { (i: nat) => Precision(m, n, i) }
  function Recalls(m: Matrix, n: nat): Metric { (i: nat) => Recall(m, n, i) }
  function F1s(m: Matrix, n: nat): Metric { (i: nat) => F1(m, n, i) }

  function Shares(metric: Metric, weights: Vector): Metric { (i: nat) => Product(metric(i), weights(i) as real) }

  function Divisor(m: Matrix, n: nat): real { if Total(m, n) > 0 then Total(m, n) as real else 1.0 }

  /** The average of a per-class metric, weighted by support. */
  function Weighted(metric: Metric, m: Matrix, n: nat): real {
    SumReal(Shares(metric, Support(m, n)), n) / Divisor(m, n)
  }

  function WeightedPrecision(m: Matrix, n: nat): real { Weighted(Precisions(m, n), m, n) }
  function WeightedRecall(m: Matrix, n: nat): real { Weighted(Recalls(m, n), m, n) }
  function WeightedF1(m: Matrix, n: nat): real { Weighted(F1s(m, n), m, n) }

  function Accuracy(m: Matrix, n: nat): real {
    if Total(m, n) != 0 then Diagonal(m, n) as real / Total(m, n) as real else 0.0
  }

  /** The false-positive rate of the normal class, from the matrix. */
  function NormalFpr(m: Matrix, classes: seq<string>): real {
    if NORMAL !in classes then 0.0
    else
      var n, k := |classes|, Encode(classes, NORMAL);
      var fp := ColSum(m, n, k) - m(k, k);
      var tn := Total(m, n) - RowSum(m, n, k) - fp;
      if fp + tn > 0 then fp as real / (fp + tn) as real else 0.0
  }

  function CountIf(pairs: seq<Pair>, test: Pair -> bool): nat {
    if pairs == [] then 0
    else CountIf(pairs[..|pairs| - 1], test) + if test(pairs[|pairs| - 1]) then 1 else 0
  }

  function HasActual(k: nat): Pair -> bool { (p: Pair) => p.actual == k }
  function HasPredicted(k: nat): Pair -> bool { (p: Pair) => p.predicted == k }
  function FalsePositive(k: nat): Pair -> bool { (p: Pair) => p.actual != k && p.predicted == k }
  function TrueNegative(k: nat): Pair -> bool { (p: Pair) => p.actual != k && p.predicted != k }
  const AGREE := (p: Pair) => p.actual == p.predicted

  /** The same rate counted row by row over the label pairs. */
  function NormalFprByRows(pairs: seq<Pair>, classes: seq<string>): real {
    if NORMAL !in classes then 0.0
    else
      var k := Encode(classes, NORMAL);
      var tn := CountIf(pairs, TrueNegative(k));
      var fp := CountIf(pairs, FalsePositive(k));
      if fp + tn > 0 then fp as real / (fp + tn) as real else 0.0
  }

  // ----- Sums

  lemma {:induction false} SumSame(f: Vector, g: Vector, n: nat)
    requires forall i :: 0 <= i < n ==> f(i) == g(i)
    ensures Sum(f, n) == Sum(g, n)
  {
    if n > 0 {
      SumSame(f, g, n - 1);
    }
  }

  /** Raising one term by one raises the sum by one. */
  lemma {:induction false} SumRaised(f: Vector, g: Vector, n: nat, c: nat)
    requires forall i :: 0 <= i < n ==> g(i) == f(i) + if i == c then 1 else 0
    ensures Sum(g, n) == Sum(f, n) + if c < n then 1 else 0
  {
    if n > 0 {
      SumRaised(f, g, n - 1, c);
    }
  }

  lemma {:induction false} SumBounds(f: Vector, n: nat, i: nat)
    requires forall j :: 0 <= j < n ==> f(j) >= 0
    ensures Sum(f, n) >= 0
    ensures i < n ==> f(i) <= Sum(f, n)
  {
    if n > 0 {
      SumBounds(f, n - 1, i);
    }
  }

  lemma RowBounds(m: Matrix, n: nat, i: nat, j: nat)
    ensures RowSum(m, n, i) >= 0 && (j < n ==> m(i, j) <= RowSum(m, n, i))
  {
    SumBounds(RowCells(m, i), n, j);
  }

  lemma ColBounds(m: Matrix, n: nat, i: nat, j: nat)
    ensures ColSum(m, n, j) >= 0 && (i < n ==> m(i, j) <= ColSum(m, n, j))
  {
    SumBounds(ColCells(m, j), n, i);
  }

  lemma TotalBounds(m: Matrix, n: nat)
    ensures 0 <= Diagonal(m, n) <= Total(m, n)
  {
    hide RowSum, Sum;
    forall i: nat | i < n ensures 0 <= m(i, i) <= RowSum(m, n, i) {
      RowBounds(m, n, i, i);
    }
    SumOrdered(DiagonalCells(m), Support(m, n), n);
  }

  lemma {:induction false} SumOrdered(f: Vector, g: Vector, n: nat)
    requires forall i :: 0 <= i < n ==> 0 <= f(i) <= g(i)
    ensures 0 <= Sum(f, n) <= Sum(g, n)
  {
    if n > 0 {
      SumOrdered(f, g, n - 1);
    }
  }

  // ----- Averages

  lemma {:induction false} SharesBounds(x: Metric, w: Vector, n: nat)
    requires forall i :: 0 <= i < n ==> 0.0 <= x(i) <= 1.0 && w(i) >= 0
    ensures 0.0 <= SumReal(Shares(x, w), n) <= Sum(w, n) as real
  {
    hide Product;
    if n > 0 {
      SharesBounds(x, w, n - 1);
      ProductBounds(x(n - 1), w(n - 1) as real);
    }
  }

  lemma ProductBounds(x: real, w: real)
    requires 0.0 <= x <= 1.0 && w >= 0.0
    ensures 0.0 <= Product(x, w) <= w
  {
    NotNegative(x, w);
    NotNegative(1.0 - x, w);
    assert Product(1.0 - x, w) == w - Product(x, w);
  }

  lemma NotNegative(x: real, y: real)
    requires x >= 0.0 && y >= 0.0
    ensures Product(x, y) >= 0.0
  {
  }

  lemma QuotientBounds(a: real, b: real)
    requires 0.0 <= a <= b
    ensures 0.0 <= Quotient(a, b) <= 1.0
    ensures Product(Quotient(a, b), b) == a
    ensures b == 0.0 ==> Quotient(a, b) == 0.0
  {
    if b > 0.0 {
      assert (a / b) * b == a;
      assert a / b >= 0.0;
    }
  }

  lemma {:induction false} SharesAre(x: Metric, w: Vector, g: Vector, n: nat)
    requires forall i :: 0 <= i < n ==> Product(x(i), w(i) as real) == g(i) as real
    ensures SumReal(Shares(x, w), n) == Sum(g, n) as real
  {
    hide Product;
    if n > 0 {
      SharesAre(x, w, g, n - 1);
    }
  }

  lemma PrecisionRecallBounds(m: Matrix, n: nat, i: nat)
    requires i < n
    ensures 0.0 <= Precision(m, n, i) <= 1.0 && 0.0 <= Recall(m, n, i) <= 1.0
    ensures Product(Recall(m, n, i), RowSum(m, n, i) as real) == m(i, i) as real
    ensures Product(Precision(m, n, i), ColSum(m, n, i) as real) == m(i, i) as real
    ensures (RowSum(m, n, i) == 0 ==> Recall(m, n, i) == 0.0) && (ColSum(m, n, i) == 0 ==> Precision(m, n, i) == 0.0)
  {
    hide Quotient, Product, RowSum, ColSum;
    RowBounds(m, n, i, i);
    ColBounds(m, n, i, i);
    QuotientBounds(m(i, i) as real, RowSum(m, n, i) as real);
    QuotientBounds(m(i, i) as real, ColSum(m, n, i) as real);
  }

  /** Weighted recall is accuracy. */
  lemma WeightedRecallIsAccuracy(m: Matrix, n: nat)
    ensures WeightedRecall(m, n) == Accuracy(m, n)
  {
    hide Recall, Product, Sum, RowSum, Total;
    forall i: nat | i < n ensures Product(Recalls(m, n)(i), Support(m, n)(i) as real) == DiagonalCells(m)(i) as real {
      PrecisionRecallBounds(m, n, i);
    }
    SharesAre(Recalls(m, n), Support(m, n), DiagonalCells(m), n);
    TotalBounds(m, n);
  }

  /** An average of values in [0, 1], weighted by support, is in [0, 1]. */
  lemma WeightedBounds(metric: Metric, m: Matrix, n: nat)
    requires forall i :: 0 <= i < n ==> 0.0 <= metric(i) <= 1.0
    ensures 0.0 <= Weighted(metric, m, n) <= 1.0
  {
    hide Product, Sum, RowSum, SumReal, Shares;
    forall i: nat | i < n ensures Support(m, n)(i) >= 0 {
      RowBounds(m, n, i, i);
    }
    SharesBounds(metric, Support(m, n), n);
    TotalBounds(m, n);
    QuotientBounds(SumReal(Shares(metric, Support(m, n)), n), Total(m, n) as real);
  }

  // ----- F1

  /** A harmonic mean lies between its arguments, and is zero as soon as one of them is. */
  lemma HarmonicBetween(p: real, r: real)
    requires p >= 0.0 && r >= 0.0
    ensures var f := HarmonicMean(p, r); (p <= f <= r) || (r <= f <= p)
    ensures HarmonicMean(p, r) == 0.0 <==> p == 0.0 || r == 0.0
  {
    if p + r > 0.0 {
      var f := HarmonicMean(p, r);
      assert f * (p + r) == 2.0 * p * r;
      if p <= r { Between(p, r, f); } else { Between(r, p, f); }
    }
  }

  lemma Between(low: real, high: real, f: real)
    requires 0.0 <= low <= high && low + high > 0.0 && f * (low + high) == 2.0 * low * high
    ensures low <= f <= high
    ensures f == 0.0 <==> low == 0.0
  {
    var s, ll, lh, hh := low + high, low * low, low * high, high * high;
    assert ll <= lh by { assert low * (high - low) >= 0.0; }
    assert lh <= hh by { assert high * (high - low) >= 0.0; }
    assert low * s == ll + lh && high * s == lh + hh && 2.0 * low * high == lh + lh;
    assert f * s == lh + lh;
    assert low * s <= f * s;
    assert f * s <= high * s;
    Divide(low, f, s);
    Divide(f, high, s);
    if low == 0.0 {
      assert f * s == 0.0;
    }
  }

  lemma Divide(x: real, y: real, s: real)
    requires s > 0.0 && x * s <= y * s
    ensures x <= y
  {
    assert x == (x * s) / s && y == (y * s) / s;
  }

  /** Each F1 lies between its precision and its recall; all per-class metrics and all averages are in [0, 1]. */
  lemma MetricsInRange(m: Matrix, n: nat)
    ensures forall i: nat :: i < n ==>
              var p, r, f := Precision(m, n, i), Recall(m, n, i), F1(m, n, i);
              0.0 <= p <= 1.0 && 0.0 <= r <= 1.0 && ((p <= f <= r) || (r <= f <= p))
    ensures 0.0 <= WeightedPrecision(m, n) <= 1.0 && 0.0 <= WeightedF1(m, n) <= 1.0
    ensures 0.0 <= WeightedRecall(m, n) <= 1.0 && 0.0 <= Accuracy(m, n) <= 1.0
  {
    hide Precision, Recall, HarmonicMean, Weighted, Accuracy;
    forall i: nat | i < n ensures
      var p, r, f := Precision(m, n, i), Recall(m, n, i), F1(m, n, i);
      0.0 <= p <= 1.0 && 0.0 <= r <= 1.0 && ((p <= f <= r) || (r <= f <= p))
    {
      PrecisionRecallBounds(m, n, i);
      HarmonicBetween(Precision(m, n, i), Recall(m, n, i));
    }
    hide F1;
    WeightedBounds(Precisions(m, n), m, n);
    WeightedBounds(Recalls(m, n), m, n);
    WeightedBounds(F1s(m, n), m, n);
    WeightedRecallIsAccuracy(m, n);
  }

  /** F1 is twice the diagonal cell over row plus column. */
  lemma F1IsDice(m: Matrix, n: nat, i: nat)
    requires i < n
    ensures F1(m, n, i) == Quotient(2.0 * m(i, i) as real, (RowSum(m, n, i) + ColSum(m, n, i)) as real)
  {
    hide Precision, Recall, RowSum, ColSum;
    RowBounds(m, n, i, i);
    ColBounds(m, n, i, i);
    PrecisionRecallBounds(m, n, i);
    Dice(Precision(m, n, i), Recall(m, n, i), m(i, i) as real, ColSum(m, n, i) as real, RowSum(m, n, i) as real);
  }

  lemma Dice(p: real, r: real, d: real, c: real, s: real)
    requires p >= 0.0 && r >= 0.0 && 0.0 <= d <= c && d <= s
    requires p * c == d && r * s == d && (c == 0.0 ==> p == 0.0) && (s == 0.0 ==> r == 0.0)
    ensures HarmonicMean(p, r) == Quotient(2.0 * d, s + c)
  {
  }

  // ----- The matrix of a list of pairs

  lemma {:induction false} RowOfPairs(pairs: seq<Pair>, n: nat, k: nat)
    requires InRange(pairs, n)
    ensures RowSum(MatrixOf(pairs), n, k) == CountIf(pairs, HasActual(k))
  {
    if pairs == [] {
      SumZero(RowCells(MatrixOf(pairs), k), n);
    } else {
      var rest, last := pairs[..|pairs| - 1], pairs[|pairs| - 1];
      RowOfPairs(rest, n, k);
      RowGrows(rest, last, n, k);
      assert pairs == rest + [last];
    }
  }

  lemma {:induction false} SumZero(f: Vector, n: nat)
    requires forall i :: 0 <= i < n ==> f(i) == 0
    ensures Sum(f, n) == 0
  {
    if n > 0 {
      SumZero(f, n - 1);
    }
  }

  lemma CellGrows(pairs: seq<Pair>, last: Pair, i: nat, j: nat)
    ensures MatrixOf(pairs + [last])(i, j) == MatrixOf(pairs)(i, j) + if last == Pair(i, j) then 1 else 0
  {
    assert (pairs + [last])[..|pairs|] == pairs;
  }

  lemma RowGrows(pairs: seq<Pair>, last: Pair, n: nat, i: nat)
    requires last.predicted < n
    ensures RowSum(MatrixOf(pairs + [last]), n, i) == RowSum(MatrixOf(pairs), n, i) + if last.actual == i then 1 else 0
  {
    hide MatrixOf, Sum;
    var m, m' := MatrixOf(pairs), MatrixOf(pairs + [last]);
    forall j: nat ensures m'(i, j) == m(i, j) + if last == Pair(i, j) then 1 else 0 {
      CellGrows(pairs, last, i, j);
    }
    if last.actual == i {
      SumRaised(RowCells(m, i), RowCells(m', i), n, last.predicted);
    } else {
      SumSame(RowCells(m, i), RowCells(m', i), n);
    }
  }

  lemma ColGrows(pairs: seq<Pair>, last: Pair, n: nat, j: nat)
    requires last.actual < n
    ensures ColSum(MatrixOf(pairs + [last]), n, j) == ColSum(MatrixOf(pairs), n, j) + if last.predicted == j then 1 else 0
  {
    hide MatrixOf, Sum;
    var m, m' := MatrixOf(pairs), MatrixOf(pairs + [last]);
    forall i: nat ensures m'(i, j) == m(i, j) + if last == Pair(i, j) then 1 else 0 {
      CellGrows(pairs, last, i, j);
    }
    if last.predicted == j {
      SumRaised(ColCells(m, j), ColCells(m', j), n, last.actual);
    } else {
      SumSame(ColCells(m, j), ColCells(m', j), n);
    }
  }

  lemma {:induction false} ColOfPairs(pairs: seq<Pair>, n: nat, k: nat)
    requires InRange(pairs, n)
    ensures ColSum(MatrixOf(pairs), n, k) == CountIf(pairs, HasPredicted(k))
  {
    if pairs == [] {
      SumZero(ColCells(MatrixOf(pairs), k), n);
    } else {
      var rest, last := pairs[..|pairs| - 1], pairs[|pairs| - 1];
      ColOfPairs(rest, n, k);
      ColGrows(rest, last, n, k);
      assert pairs == rest + [last];
    }
  }

  lemma {:induction false} TotalOfPairs(pairs: seq<Pair>, n: nat)
    requires InRange(pairs, n)
    ensures Total(MatrixOf(pairs), n) == |pairs|
  {
    var m := MatrixOf(pairs);
    if pairs == [] {
      forall i: nat ensures RowSum(m, n, i) == 0 { RowOfPairs(pairs, n, i); }
      hide RowSum;
      SumZero(Support(m, n), n);
    } else {
      var rest, last := pairs[..|pairs| - 1], pairs[|pairs| - 1];
      TotalOfPairs(rest, n);
      assert pairs == rest + [last];
      var m0 := MatrixOf(rest);
      forall i: nat ensures RowSum(m, n, i) == RowSum(m0, n, i) + if i == last.actual then 1 else 0 {
        RowGrows(rest, last, n, i);
      }
      hide RowSum, MatrixOf;
      SumRaised(Support(m0, n), Support(m, n), n, last.actual);
    }
  }

  lemma {:induction false} DiagonalOfPairs(pairs: seq<Pair>, n: nat)
    requires InRange(pairs, n)
    ensures Diagonal(MatrixOf(pairs), n) == CountIf(pairs, AGREE)
  {
    var m := MatrixOf(pairs);
    if pairs == [] {
      SumZero(DiagonalCells(m), n);
    } else {
      var rest, last := pairs[..|pairs| - 1], pairs[|pairs| - 1];
      DiagonalOfPairs(rest, n);
      assert pairs == rest + [last];
      var m0 := MatrixOf(rest);
      forall i: nat ensures m(i, i) == m0(i, i) + if last == Pair(i, i) then 1 else 0 {
        CellGrows(rest, last, i, i);
      }
      hide MatrixOf;
      SumRaised(DiagonalCells(m0), DiagonalCells(m), n, if last.actual == last.predicted then last.actual else n);
    }
  }

  /** On the streamed matrix, accuracy is the share of rows predicted right. */
  lemma AccuracyIsAgreement(pairs: seq<Pair>, n: nat)
    requires InRange(pairs, n) && pairs != []
    ensures Accuracy(MatrixOf(pairs), n) == CountIf(pairs, AGREE) as real / |pairs| as real
  {
    hide Diagonal, Total;
    TotalOfPairs(pairs, n);
    DiagonalOfPairs(pairs, n);
  }

  lemma {:induction false} CountsSplit(pairs: seq<Pair>, k: nat)
    ensures CountIf(pairs, HasPredicted(k))
         == CountIf(pairs, FalsePositive(k)) + PairCount(pairs, k, k)
    ensures |pairs| == CountIf(pairs, HasActual(k)) + CountIf(pairs, FalsePositive(k))
                     + CountIf(pairs, TrueNegative(k))
  {
    if pairs != [] {
      CountsSplit(pairs[..|pairs| - 1], k);
    }
  }

  /** The rate from the streamed matrix equals the rate counted row by row. */
  lemma FprsAgree(pairs: seq<Pair>, classes: seq<string>)
    requires InRange(pairs, |classes|)
    ensures NormalFpr(MatrixOf(pairs), classes) == NormalFprByRows(pairs, classes)
  {
    if NORMAL in classes {
      hide RowSum, ColSum, Total, PairCount, CountIf;
      var k := Encode(classes, NORMAL);
      RowOfPairs(pairs, |classes|, k);
      ColOfPairs(pairs, |classes|, k);
      TotalOfPairs(pairs, |classes|);
      CountsSplit(pairs, k);
    }
  }

  // ----- From the counted array to the metrics

  /** Two matrices agree on the cells of `n` classes. */
  ghost predicate SameCells(a: Matrix, b: Matrix, n: nat) {
    forall i: nat, j: nat :: i < n && j < n ==> a(i, j) == b(i, j)
  }

  lemma SameSums(a: Matrix, b: Matrix, n: nat)
    requires SameCells(a, b, n)
    ensures forall i: nat :: i < n ==> RowSum(a, n, i) == RowSum(b, n, i) && ColSum(a, n, i) == ColSum(b, n, i)
    ensures Total(a, n) == Total(b, n) && Diagonal(a, n) == Diagonal(b, n)
  {
    hide Sum;
    forall i: nat | i < n ensures RowSum(a, n, i) == RowSum(b, n, i) && ColSum(a, n, i) == ColSum(b, n, i) {
      SumSame(RowCells(a, i), RowCells(b, i), n);
      SumSame(ColCells(a, i), ColCells(b, i), n);
    }
    hide RowSum, ColSum;
    SumSame(Support(a, n), Support(b, n), n);
    SumSame(DiagonalCells(a), DiagonalCells(b), n);
  }

  lemma {:induction false} SumRealSame(f: Metric, g: Metric, n: nat)
    requires forall i :: 0 <= i < n ==> f(i) == g(i)
    ensures SumReal(f, n) == SumReal(g, n)
  {
    if n > 0 {
      SumRealSame(f, g, n - 1);
    }
  }

  lemma SameWeighted(x: Metric, y: Metric, a: Matrix, b: Matrix, n: nat)
    requires SameCells(a, b, n) && forall i :: 0 <= i < n ==> x(i) == y(i)
    ensures Weighted(x, a, n) == Weighted(y, b, n)
  {
    hide RowSum, ColSum, Total, Diagonal, Product, SameCells;
    SameSums(a, b, n);
    SumRealSame(Shares(x, Support(a, n)), Shares(y, Support(b, n)), n);
  }

  /** Every metric depends on the cells of the classes only. */
  lemma CellsDecideMetrics(a: Matrix, b: Matrix, n: nat)
    requires SameCells(a, b, n)
    ensures forall i: nat :: i < n ==>
              Precision(a, n, i) == Precision(b, n, i) && Recall(a, n, i) == Recall(b, n, i) && F1(a, n, i) == F1(b, n, i)
    ensures WeightedPrecision(a, n) == WeightedPrecision(b, n) && WeightedRecall(a, n) == WeightedRecall(b, n)
    ensures WeightedF1(a, n) == WeightedF1(b, n) && Accuracy(a, n) == Accuracy(b, n)
  {
    hide RowSum, ColSum, Total, Diagonal, Weighted, Quotient, HarmonicMean;
    SameSums(a, b, n);
    forall i: nat | i < n
      ensures Precision(a, n, i) == Precision(b, n, i) && Recall(a, n, i) == Recall(b, n, i)
    {
      assert a(i, i) == b(i, i);
    }
    hide Precision, Recall, SameCells;
    SameWeighted(Precisions(a, n), Precisions(b, n), a, b, n);
    SameWeighted(Recalls(a, n), Recalls(b, n), a, b, n);
    SameWeighted(F1s(a, n), F1s(b, n), a, b, n);
  }

  lemma CellsDecideFpr(a: Matrix, b: Matrix, classes: seq<string>)
    requires SameCells(a, b, |classes|)
    ensures NormalFpr(a, classes) == NormalFpr(b, classes)
  {
    hide RowSum, ColSum, Total;
    if NORMAL in classes {
      SameSums(a, b, |classes|);
      var k := Encode(classes, NORMAL);
      assert a(k, k) == b(k, k);
    }
  }

  /** The counted array, read as a list: its accuracy is the share of rows predicted right, and its
      false-positive rate is the one counted row by row. */
  lemma CountedArrayMetrics(confusion: array2<nat>, pairs: seq<Pair>, classes: seq<string>)
    requires confusion.Length0 == confusion.Length1 == |classes|
    requires Holds(confusion, pairs) && InRange(pairs, |classes|)
    ensures var m := MatrixFrom(ToList(confusion));
            && SameCells(m, MatrixOf(pairs), |classes|)
            && NormalFpr(m, classes) == NormalFprByRows(pairs, classes)
            && (pairs != [] ==> Accuracy(m, |classes|) == CountIf(pairs, AGREE) as real / |pairs| as real)
  {
    hide Accuracy, NormalFpr, NormalFprByRows, CountIf, InRange, PairCount;
    var m := MatrixFrom(ToList(confusion));
    assert SameCells(m, MatrixOf(pairs), |classes|);
    CellsDecideFpr(m, MatrixOf(pairs), classes);
    FprsAgree(pairs, classes);
    CellsDecideMetrics(m, MatrixOf(pairs), |classes|);
    if pairs != [] {
      AccuracyIsAgreement(pairs, |classes|);
    }
  }

  // ----- The metrics over rows

  /** The label at the prediction of `row` is the normal class, at its first position. */
  predicate PredictedNormal(classes: seq<string>, predict: Row -> nat, row: Row) {
    var j := predict(row);
    j < |classes| && classes[j] == "Normal Traffic" && "Normal Traffic" !in classes[..j]
  }

  /** The rows of a known class other than the normal one, and how many of them are predicted normal. */
  function AttackRows(classes: seq<string>, rows: seq<Row>): nat {
    if rows == [] then 0
    else
      var row := rows[|rows| - 1];
      AttackRows(classes, rows[..|rows| - 1]) + if row.name in classes && row.name != "Normal Traffic" then 1 else 0
  }

  function MissedRows(classes: seq<string>, predict: Row -> nat, rows: seq<Row>): nat {
    if rows == [] then 0
    else
      var row := rows[|rows| - 1];
      MissedRows(classes, predict, rows[..|rows| - 1]) +
      if row.name in classes && row.name != "Normal Traffic" && PredictedNormal(classes, predict, row) then 1 else 0
  }

  lemma CountIfSnoc(pairs: seq<Pair>, p: Pair, test: Pair -> bool)
    ensures CountIf(pairs + [p], test) == CountIf(pairs, test) + if test(p) then 1 else 0
  {
    assert (pairs + [p])[..|pairs|] == pairs;
  }

  lemma {:induction false} RatesCountRows(classes: seq<string>, predict: Row -> nat, rows: seq<Row>)
    requires NORMAL in classes
    ensures var pairs, k := PairsOf(classes, predict, rows), Encode(classes, NORMAL);
            && CountIf(pairs, FalsePositive(k)) == MissedRows(classes, predict, rows)
            && CountIf(pairs, FalsePositive(k)) + CountIf(pairs, TrueNegative(k)) == AttackRows(classes, rows)
  {
    hide CountIf, Encode;
    if rows != [] {
      var n, k := |rows| - 1, Encode(classes, NORMAL);
      var row, pairs := rows[n], PairsOf(classes, predict, rows[..n]);
      RatesCountRows(classes, predict, rows[..n]);
      if row.name in classes {
        var pair := Pair(Encode(classes, row.name), predict(row));
        assert PairsOf(classes, predict, rows) == pairs + [pair];
        CountIfSnoc(pairs, pair, FalsePositive(k));
        CountIfSnoc(pairs, pair, TrueNegative(k));
        EncodeIff(classes, row.name, k);
        EncodeIff(classes, NORMAL, k);
        EncodeIff(classes, NORMAL, predict(row));
      } else {
        assert PairsOf(classes, predict, rows) == pairs;
      }
    } else {
      NothingCountedBy(FalsePositive(Encode(classes, NORMAL)));
      NothingCountedBy(TrueNegative(Encode(classes, NORMAL)));
    }
  }

  lemma NothingCountedBy(test: Pair -> bool)
    ensures CountIf([], test) == 0
  {
  }

  /** On the array that the streaming loops fill, the false-positive rate is the share, among the rows of a known
      attack class, of those predicted as normal traffic; 0 if there are none, or no normal class. */
  lemma StreamedFprOverRows(confusion: array2<nat>, classes: seq<string>, predict: Row -> nat, rows: seq<Row>)
    requires confusion.Length0 == confusion.Length1 == |classes| && forall row :: predict(row) < |classes|
    requires CountsRows(confusion, classes, predict, rows)
    ensures var fpr, attacks := NormalFpr(MatrixFrom(ToList(confusion)), classes), AttackRows(classes, rows);
            fpr == if "Normal Traffic" !in classes || attacks == 0 then 0.0
                   else MissedRows(classes, predict, rows) as real / attacks as real
  {
    hide NormalFpr, AttackRows, MissedRows, CountIf, PairsOf, InRange, Encode;
    var pairs := PairsOf(classes, predict, rows);
    PairsInRange(classes, predict, rows);
    CountsRowsHolds(confusion, classes, predict, rows);
    CountedArrayMetrics(confusion, pairs, classes);
    if NORMAL in classes {
      RatesCountRows(classes, predict, rows);
    }
  }

  lemma CountsRowsHolds(confusion: array2<nat>, classes: seq<string>, predict: Row -> nat, rows: seq<Row>)
    requires CountsRows(confusion, classes, predict, rows)
    ensures Holds(confusion, PairsOf(classes, predict, rows))
  {
    forall i, j | 0 <= i < confusion.Length0 && 0 <= j < confusion.Length1
      ensures confusion[i, j] == PairCount(PairsOf(classes, predict, rows), i, j)
    {
      PairsCountRows(classes, predict, rows, i, j);
    }
  }

  /** The sum, over the pairs, of a value of their actual class. */
  function SumOver(pairs: seq<Pair>, metric: Metric): real {
    if pairs == [] then 0.0 else SumOver(pairs[..|pairs| - 1], metric) + metric(pairs[|pairs| - 1].actual)
  }

  lemma {:induction false} SharesRaised(metric: Metric, v: Vector, w: Vector, n: nat, c: nat)
    requires forall i :: 0 <= i < n ==> w(i) == v(i) + if i == c then 1 else 0
    ensures SumReal(Shares(metric, w), n) == SumReal(Shares(metric, v), n) + if c < n then metric(c) else 0.0
  {
    if n > 0 {
      SharesRaised(metric, v, w, n - 1, c);
      assert Product(metric(n - 1), (v(n - 1) + 1) as real) == Product(metric(n - 1), v(n - 1) as real) + metric(n - 1);
    }
  }

  lemma {:induction false} SharesZero(metric: Metric, v: Vector, n: nat)
    requires forall i :: 0 <= i < n ==> v(i) == 0
    ensures SumReal(Shares(metric, v), n) == 0.0
  {
    if n > 0 {
      SharesZero(metric, v, n - 1);
      assert Product(metric(n - 1), 0.0) == 0.0;
    }
  }

  lemma {:induction false} SharesOverPairs(metric: Metric, pairs: seq<Pair>, n: nat)
    requires InRange(pairs, n)
    ensures SumReal(Shares(metric, Support(MatrixOf(pairs), n)), n) == SumOver(pairs, metric)
  {
    hide RowSum, Product, MatrixOf;
    var m := MatrixOf(pairs);
    if pairs == [] {
      forall i: nat ensures RowSum(m, n, i) == 0 { RowOfPairs(pairs, n, i); NothingCountedBy(HasActual(i)); }
      SharesZero(metric, Support(m, n), n);
    } else {
      var rest, last := pairs[..|pairs| - 1], pairs[|pairs| - 1];
      SharesOverPairs(metric, rest, n);
      assert pairs == rest + [last];
      forall i: nat ensures RowSum(m, n, i) == RowSum(MatrixOf(rest), n, i) + if i == last.actual then 1 else 0 {
        RowGrows(rest, last, n, i);
      }
      SharesRaised(metric, Support(MatrixOf(rest), n), Support(m, n), n, last.actual);
    }
  }

  /** Every weighted average is the mean, over the evaluated rows, of the metric of the row's own class. */
  lemma WeightedIsMeanOverRows(pairs: seq<Pair>, n: nat)
    requires InRange(pairs, n) && pairs != []
    ensures var m, count := MatrixOf(pairs), |pairs| as real;
            && WeightedPrecision(m, n) == SumOver(pairs, Precisions(m, n)) / count
            && WeightedRecall(m, n) == SumOver(pairs, Recalls(m, n)) / count
            && WeightedF1(m, n) == SumOver(pairs, F1s(m, n)) / count
  {
    hide Precisions, Recalls, F1s, SumOver, SumReal, Shares, MatrixOf, Total;
    var m := MatrixOf(pairs);
    TotalOfPairs(pairs, n);
    SharesOverPairs(Precisions(m, n), pairs, n);
    SharesOverPairs(Recalls(m, n), pairs, n);
    SharesOverPairs(F1s(m, n), pairs, n);
  }

  /** Precision is the share of right ones among the rows predicted as the class, recall among the rows of it. */
  lemma PrecisionRecallOverPairs(pairs: seq<Pair>, n: nat, i: nat)
    requires InRange(pairs, n) && i < n
    ensures var m := MatrixOf(pairs);
            var right, predicted, actual := PairCount(pairs, i, i), CountIf(pairs, HasPredicted(i)), CountIf(pairs, HasActual(i));
            && Precision(m, n, i) == (if predicted == 0 then 0.0 else right as real / predicted as real)
            && Recall(m, n, i) == (if actual == 0 then 0.0 else right as real / actual as real)
  {
    hide RowSum, ColSum, CountIf, PairCount;
    RowOfPairs(pairs, n, i);
    ColOfPairs(pairs, n, i);
  }
}
