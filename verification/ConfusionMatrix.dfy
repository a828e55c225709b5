/** Counting (actual, predicted) pairs into a confusion matrix, chunk by chunk. */
module ConfusionMatrix {
  import opened Options
  import opened DatasetSplit

  datatype Pair = Pair(actual: nat, predicted: nat)

  /** A square matrix of counts; only the cells below the number of classes matter. */
  type Matrix = (nat, nat) -> nat

  function PairCount(pairs: seq<Pair>, i: nat, j: nat): nat {
    if pairs == [] then 0
    else PairCount(pairs[..|pairs| - 1], i, j) + if pairs[|pairs| - 1] == Pair(i, j) then 1 else 0
  }

  function MatrixOf(pairs: seq<Pair>): Matrix {
    (i, j) => PairCount(pairs, i, j)
  }

  /** The label encoder: the first position of a label among the classes. */
  function Encode(classes: seq<string>, name: string): (i: nat)
    requires name in classes
    ensures i < |classes| && classes[i] == name && name !in classes[..i]
  {
    if classes[0] == name then 0 else 1 + Encode(classes[1..], name)
  }

  function Known(classes: seq<string>, rows: seq<Row>): seq<Row> {
    if rows == [] then []
    else
      Known(classes, rows[..|rows| - 1]) + if rows[|rows| - 1].name in classes then [rows[|rows| - 1]] else []
  }

  /** The pairs of the rows with a known label. */
  function PairsOf(classes: seq<string>, predict: Row -> nat, rows: seq<Row>): seq<Pair> {
    if rows == [] then []
    else
      var row := rows[|rows| - 1];
      PairsOf(classes, predict, rows[..|rows| - 1]) +
      if row.name in classes then [Pair(Encode(classes, row.name), predict(row))] else []
  }

  ghost predicate InRange(pairs: seq<Pair>, n: nat) {
    forall i :: 0 <= i < |pairs| ==> pairs[i].actual < n && pairs[i].predicted < n
  }

  lemma {:induction false} PairsInRange(classes: seq<string>, predict: Row -> nat, rows: seq<Row>)
    requires forall row :: predict(row) < |classes|
    ensures InRange(PairsOf(classes, predict, rows), |classes|)
    ensures |PairsOf(classes, predict, rows)| <= |rows|
  {
    if rows != [] {
      PairsInRange(classes, predict, rows[..|rows| - 1]);
    }
  }

  lemma {:induction false} PairsConcat(classes: seq<string>, predict: Row -> nat, a: seq<Row>, b: seq<Row>)
    ensures PairsOf(classes, predict, a + b) == PairsOf(classes, predict, a) + PairsOf(classes, predict, b)
  {
    if b == [] {
      assert a + b == a;
    } else {
      assert (a + b)[..|a + b| - 1] == a + b[..|b| - 1];
      PairsConcat(classes, predict, a, b[..|b| - 1]);
    }
  }

  lemma {:induction false} KnownHasPairs(classes: seq<string>, predict: Row -> nat, rows: seq<Row>)
    ensures PairsOf(classes, predict, Known(classes, rows)) == PairsOf(classes, predict, rows)
    ensures |Known(classes, rows)| == |PairsOf(classes, predict, rows)|
  {
    if rows != [] {
      var rest, last := rows[..|rows| - 1], rows[|rows| - 1];
      KnownHasPairs(classes, predict, rest);
      var known := Known(classes, rest);
      assert (known + [last])[..|known|] == known;
      assert rows == rest + [last];
      PairsConcat(classes, predict, known, [last]);
      assert [last][..0] == [];
      assert known + [] == known;
    }
  }

  /** The rows labelled with the class at `i`, its first position, and predicted as class `j`. */
  function RowsIn(classes: seq<string>, predict: Row -> nat, rows: seq<Row>, i: nat, j: nat): nat {
    if rows == [] then 0
    else
      var row := rows[|rows| - 1];
      RowsIn(classes, predict, rows[..|rows| - 1], i, j) +
      if i < |classes| && row.name == classes[i] && row.name !in classes[..i] && predict(row) == j then 1 else 0
  }

  lemma EncodeIff(classes: seq<string>, name: string, i: nat)
    requires name in classes
    ensures Encode(classes, name) == i <==> i < |classes| && name == classes[i] && name !in classes[..i]
  {
    var k := Encode(classes, name);
    assert forall m :: 0 <= m < k ==> classes[..k][m] == classes[m];
    if i < |classes| {
      assert forall m :: 0 <= m < i ==> classes[..i][m] == classes[m];
    }
  }

  lemma {:induction false} PairsCountRows(classes: seq<string>, predict: Row -> nat, rows: seq<Row>, i: nat, j: nat)
    ensures PairCount(PairsOf(classes, predict, rows), i, j) == RowsIn(classes, predict, rows, i, j)
  {
    if rows != [] {
      var n := |rows| - 1;
      var row, pairs := rows[n], PairsOf(classes, predict, rows[..n]);
      PairsCountRows(classes, predict, rows[..n], i, j);
      if row.name in classes {
        var pair := Pair(Encode(classes, row.name), predict(row));
        EncodeIff(classes, row.name, i);
        assert PairsOf(classes, predict, rows) == pairs + [pair];
        assert (pairs + [pair])[..|pairs|] == pairs;
      } else {
        assert PairsOf(classes, predict, rows) == pairs;
      }
    }
  }

  /** Cell (i, j) of the array is the number of rows with label `i` and prediction `j`. */
  ghost predicate CountsRows(confusion: array2<nat>, classes: seq<string>, predict: Row -> nat, rows: seq<Row>)
    reads confusion
  {
    forall i, j :: 0 <= i < confusion.Length0 && 0 <= j < confusion.Length1 ==> confusion[i, j] == RowsIn(classes, predict, rows, i, j)
  }

  lemma HoldsCountsRows(confusion: array2<nat>, classes: seq<string>, predict: Row -> nat, rows: seq<Row>)
    requires Holds(confusion, PairsOf(classes, predict, rows))
    ensures CountsRows(confusion, classes, predict, rows)
  {
    forall i, j | 0 <= i < confusion.Length0 && 0 <= j < confusion.Length1
      ensures confusion[i, j] == RowsIn(classes, predict, rows, i, j)
    {
      PairsCountRows(classes, predict, rows, i, j);
    }
  }

  /** The rows with a known label. */
  function KnownCount(classes: seq<string>, rows: seq<Row>): nat {
    if rows == [] then 0 else KnownCount(classes, rows[..|rows| - 1]) + if rows[|rows| - 1].name in classes then 1 else 0
  }

  lemma {:induction false} PairsAreKnown(classes: seq<string>, predict: Row -> nat, rows: seq<Row>)
    ensures |PairsOf(classes, predict, rows)| == KnownCount(classes, rows)
  {
    if rows != [] {
      PairsAreKnown(classes, predict, rows[..|rows| - 1]);
    }
  }

  ghost predicate Holds(confusion: array2<nat>, pairs: seq<Pair>)
    reads confusion
  {
    forall i, j :: 0 <= i < confusion.Length0 && 0 <= j < confusion.Length1 ==> confusion[i, j] == PairCount(pairs, i, j)
  }

  /** numpy's `confusion.tolist()`. */
  ghost function ToList(confusion: array2<nat>): (rows: seq<seq<nat>>)
    reads confusion
    ensures |rows| == confusion.Length0
    ensures forall i :: 0 <= i < confusion.Length0 ==> |rows[i]| == confusion.Length1
    ensures forall i, j :: 0 <= i < confusion.Length0 && 0 <= j < confusion.Length1 ==> rows[i][j] == confusion[i, j]
  {
    seq(confusion.Length0, i requires 0 <= i < confusion.Length0 reads confusion =>
      seq(confusion.Length1, j requires 0 <= j < confusion.Length1 reads confusion => confusion[i, j]))
  }

  /** The matrix that a list of rows stands for; there is nothing outside the list. */
  function MatrixFrom(rows: seq<seq<nat>>): Matrix {
    (i: nat, j: nat) => if i < |rows| && j < |rows[i]| then rows[i][j] else 0
  }

  /** Adds the pairs of a chunk of known rows to the matrix. */
  method CountRows(confusion: array2<nat>, classes: seq<string>, predict: Row -> nat, rows: seq<Row>, ghost before: seq<Pair>)
    requires confusion.Length0 == confusion.Length1 == |classes|
    requires forall row :: predict(row) < |classes|
    requires Holds(confusion, before) && forall i :: 0 <= i < |rows| ==> rows[i].name in classes
    modifies confusion
    ensures Holds(confusion, before + PairsOf(classes, predict, rows))
    ensures |PairsOf(classes, predict, rows)| == |rows|
  {
    assert before + [] == before;
    for k := 0 to |rows|
      invariant Holds(confusion, before + PairsOf(classes, predict, rows[..k]))
      invariant |PairsOf(classes, predict, rows[..k])| == k
    {
      ghost var counted := before + PairsOf(classes, predict, rows[..k]);
      assert rows[..k + 1][..k] == rows[..k];
      var actual, predicted := Encode(classes, rows[k].name), predict(rows[k]);
      assert before + PairsOf(classes, predict, rows[..k + 1]) == counted + [Pair(actual, predicted)];
      CountOne(confusion, counted, actual, predicted);
    }
    assert rows[..|rows|] == rows;
  }

  method CountOne(confusion: array2<nat>, ghost pairs: seq<Pair>, actual: nat, predicted: nat)
    requires actual < confusion.Length0 && predicted < confusion.Length1 && Holds(confusion, pairs)
    modifies confusion
    ensures Holds(confusion, pairs + [Pair(actual, predicted)])
  {
    confusion[actual, predicted] := confusion[actual, predicted] + 1;
    assert (pairs + [Pair(actual, predicted)])[..|pairs|] == pairs;
  }

  method KnownRows(classes: seq<string>, rows: seq<Row>) returns (known: seq<Row>)
    ensures known == Known(classes, rows)
    ensures forall i :: 0 <= i < |known| ==> known[i].name in classes
  {
    known := [];
    for k := 0 to |rows|
      invariant known == Known(classes, rows[..k])
      invariant forall i :: 0 <= i < |known| ==> known[i].name in classes
    {
      assert rows[..k + 1][..k] == rows[..k];
      if rows[k].name in classes {
        known := known + [rows[k]];
      }
    }
    assert rows[..|rows|] == rows;
  }

  method Zeros(n: nat) returns (confusion: array2<nat>)
    ensures fresh(confusion) && confusion.Length0 == confusion.Length1 == n && Holds(confusion, [])
  {
    confusion := new nat[n, n]((i, j) => 0);
  }

  /** Evaluation: rows with an unknown label are counted and left out. */
  method StreamEvaluationConfusion(clean: Raw -> Option<Row>, raws: seq<Raw>, classes: seq<string>, predict: Row -> nat, chunkSize: int)
    returns (confusion: array2<nat>, rowsEvaluated: nat, unknownFiltered: nat)
    requires chunkSize > 0 && forall row :: predict(row) < |classes|
    ensures fresh(confusion) && confusion.Length0 == confusion.Length1 == |classes|
    ensures var rows := CleanAll(clean, raws);
            var pairs := PairsOf(classes, predict, rows);
            && Holds(confusion, pairs) && InRange(pairs, |classes|)
            && rowsEvaluated == |pairs| && rowsEvaluated + unknownFiltered == |rows|
            && CountsRows(confusion, classes, predict, rows) && rowsEvaluated == KnownCount(classes, rows)
  {
    hide Holds, PairsOf, Known, InRange, CountsRows, KnownCount;
    confusion := Zeros(|classes|);
    rowsEvaluated, unknownFiltered := 0, 0;
    NoPairs(classes, predict);
    var at := 0;
    ghost var rows: seq<Row> := [];
    while at < |raws|
      invariant at <= |raws| && rows == CleanAll(clean, raws[..at])
      invariant fresh(confusion) && confusion.Length0 == confusion.Length1 == |classes|
      invariant Holds(confusion, PairsOf(classes, predict, rows))
      invariant rowsEvaluated == |PairsOf(classes, predict, rows)| && rowsEvaluated + unknownFiltered == |rows|
    {
      var end := ChunkEnd(at, chunkSize, |raws|);
      var cleaned := CleanChunk(clean, raws[at..end]);
      CleanConcat(clean, raws[..at], raws[at..end]);
      assert raws[..end] == raws[..at] + raws[at..end];
      PairsConcat(classes, predict, rows, cleaned);
      KnownHasPairs(classes, predict, cleaned);
      PairsInRange(classes, predict, cleaned);
      var known := KnownRows(classes, cleaned);
      unknownFiltered := unknownFiltered + (|cleaned| - |known|);
      CountRows(confusion, classes, predict, known, PairsOf(classes, predict, rows));
      rowsEvaluated := rowsEvaluated + |known|;
      rows, at := rows + cleaned, end;
    }
    assert raws[..at] == raws;
    PairsInRange(classes, predict, rows);
    HoldsCountsRows(confusion, classes, predict, rows);
    PairsAreKnown(classes, predict, rows);
  }

  ghost predicate AllKnown(classes: seq<string>, rows: seq<Row>) {
    forall i :: 0 <= i < |rows| ==> rows[i].name in classes
  }

  lemma AllKnownSnoc(classes: seq<string>, rows: seq<Row>)
    requires rows != []
    ensures AllKnown(classes, rows) <==> AllKnown(classes, rows[..|rows| - 1]) && rows[|rows| - 1].name in classes
  {
    assert rows == rows[..|rows| - 1] + [rows[|rows| - 1]];
  }

  /** No row is lost exactly when all labels are known. */
  lemma {:induction false} KnownIsAll(classes: seq<string>, rows: seq<Row>)
    ensures |Known(classes, rows)| <= |rows|
    ensures AllKnown(classes, rows) <==> |Known(classes, rows)| == |rows|
    ensures AllKnown(classes, rows) <==> Known(classes, rows) == rows
  {
    if rows != [] {
      hide AllKnown;
      var rest, last := rows[..|rows| - 1], rows[|rows| - 1];
      KnownIsAll(classes, rest);
      AllKnownSnoc(classes, rows);
      if last.name in classes {
        assert Known(classes, rows) == Known(classes, rest) + [last];
        assert rows == rest + [last];
      } else {
        assert Known(classes, rows) == Known(classes, rest);
      }
    }
  }

  lemma AllKnownConcat(classes: seq<string>, a: seq<Row>, b: seq<Row>)
    ensures AllKnown(classes, a + b) <==> AllKnown(classes, a) && AllKnown(classes, b)
  {
    if AllKnown(classes, a + b) {
      assert forall i :: 0 <= i < |a| ==> a[i] == (a + b)[i];
      assert forall i :: 0 <= i < |b| ==> b[i] == (a + b)[|a| + i];
    }
  }

  /** Training metrics: the encoder refuses an unknown label, and the whole pass fails. */
  method StreamConfusionMatrix(clean: Raw -> Option<Row>, raws: seq<Raw>, classes: seq<string>, predict: Row -> nat, chunkSize: int)
    returns (confusion: array2<nat>, ok: bool)
    requires chunkSize > 0 && forall row :: predict(row) < |classes|
    ensures fresh(confusion) && confusion.Length0 == confusion.Length1 == |classes|
    ensures var rows := CleanAll(clean, raws);
            && (ok <==> AllKnown(classes, rows))
            && (ok ==> Holds(confusion, PairsOf(classes, predict, rows)) && |PairsOf(classes, predict, rows)| == |rows|)
            && (ok ==> CountsRows(confusion, classes, predict, rows))
            && InRange(PairsOf(classes, predict, rows), |classes|)
  {
    hide Holds, PairsOf, Known, AllKnown, CleanAll, InRange, CountsRows;
    confusion := Zeros(|classes|);
    ok := true;
    NoPairs(classes, predict);
    KnownIsAll(classes, []);
    CleanNothing(clean, classes);
    var at := 0;
    ghost var rows: seq<Row> := [];
    while at < |raws| && ok
      invariant at <= |raws| && rows == CleanAll(clean, raws[..at])
      invariant fresh(confusion) && confusion.Length0 == confusion.Length1 == |classes|
      invariant ok <==> AllKnown(classes, rows)
      invariant ok ==> Holds(confusion, PairsOf(classes, predict, rows)) && |PairsOf(classes, predict, rows)| == |rows|
    {
      var end := ChunkEnd(at, chunkSize, |raws|);
      var cleaned := CleanChunk(clean, raws[at..end]);
      CleanConcat(clean, raws[..at], raws[at..end]);
      assert raws[..end] == raws[..at] + raws[at..end];
      AllKnownConcat(classes, rows, cleaned);
      KnownIsAll(classes, cleaned);
      var known := KnownRows(classes, cleaned);
      if |known| < |cleaned| {
        ok := false;
      } else {
        PairsConcat(classes, predict, rows, cleaned);
        CountRows(confusion, classes, predict, known, PairsOf(classes, predict, rows));
      }
      rows, at := rows + cleaned, end;
    }
    CleanConcat(clean, raws[..at], raws[at..]);
    assert raws[..at] + raws[at..] == raws;
    AllKnownConcat(classes, rows, CleanAll(clean, raws[at..]));
    if ok {
      assert raws[..at] == raws;
      HoldsCountsRows(confusion, classes, predict, rows);
    }
    PairsInRange(classes, predict, CleanAll(clean, raws));
  }

  lemma CleanNothing(clean: Raw -> Option<Row>, classes: seq<string>)
    ensures CleanAll(clean, []) == [] && AllKnown(classes, [])
  {
  }

  lemma NoPairs(classes: seq<string>, predict: Row -> nat)
    ensures PairsOf(classes, predict, []) == []
  {
  }
}
