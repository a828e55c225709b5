/** Main results about the splitter: exact counts for every sequence of draws, a partition in order, and a
    uniform choice. */
module SplitGuarantees {
  import opened Options
  import opened DatasetSplit

  // ----- Exact counts

  ghost predicate WellCounted(p: Plan, labels: seq<string>) {
    forall name :: Count(p.totals, name) == Occurs(labels, name) && Count(p.targets, name) <= Count(p.totals, name)
  }

  lemma NextCounts(p: Plan, t: Tally, row: string, name: string)
    ensures Count(Next(p, t, row).seen, name) == Count(t.seen, name) + (if row == name then 1 else 0)
    ensures Count(Next(p, t, row).test, name) == Count(t.test, name) + (if row == name && Picks(p, t, row) then 1 else 0)
    ensures Count(Next(p, t, row).train, name) == Count(t.train, name) + (if row == name && !Picks(p, t, row) then 1 else 0)
  {
    hide Picks, Draws;
  }

  /** The counters of the loop are the label counts of what was seen, kept and left. */
  ghost predicate Counted(labels: seq<string>, t: Tally, mask: seq<bool>, name: string) {
    && |mask| == |labels|
    && Count(t.seen, name) == Occurs(labels, name)
    && Count(t.test, name) == Occurs(Kept(labels, mask, true), name)
    && Count(t.train, name) == Occurs(Kept(labels, mask, false), name)
  }

  lemma CountedNext(p: Plan, labels: seq<string>, t: Tally, mask: seq<bool>, last: string, name: string)
    requires Counted(labels, t, mask, name)
    ensures Counted(labels + [last], Next(p, t, last), mask + [Picks(p, t, last)], name)
  {
    hide Picks, Next, Count, Kept, Occurs;
    NextCounts(p, t, last, name);
    CountsSnoc(labels, mask, last, Picks(p, t, last), name);
  }

  lemma {:induction false} WalkCounts(p: Plan, labels: seq<string>, name: string)
    ensures Counted(labels, Walk(p, START, labels).0, Walk(p, START, labels).1, name)
  {
    if labels != [] {
      hide Picks, Next, Counted, START;
      var n := |labels| - 1;
      var rest, last := labels[..n], labels[n];
      WalkCounts(p, rest, name);
      CountedNext(p, rest, Walk(p, START, rest).0, Walk(p, START, rest).1, last, name);
      assert labels == rest + [last];
    } else {
      assert Walk(p, START, labels) == (START, []);
    }
  }

  lemma CountsSnoc(labels: seq<string>, mask: seq<bool>, last: string, pick: bool, name: string)
    requires |mask| == |labels|
    ensures var more, wider := labels + [last], mask + [pick];
            && Occurs(more, name) == Occurs(labels, name) + (if last == name then 1 else 0)
            && Occurs(Kept(more, wider, pick), name) == Occurs(Kept(labels, mask, pick), name) + (if last == name then 1 else 0)
            && Kept(more, wider, !pick) == Kept(labels, mask, !pick)
  {
    hide Occurs, Kept;
    OccursConcat(labels, [last], name);
    OccursConcat(Kept(labels, mask, pick), [last], name);
    OccursOne(last, name);
    KeptSnoc(labels, mask, last, pick, pick);
    KeptSnoc(labels, mask, last, pick, !pick);
  }

  lemma KeptSnoc(labels: seq<string>, mask: seq<bool>, last: string, pick: bool, side: bool)
    requires |mask| == |labels|
    ensures Kept(labels + [last], mask + [pick], side) == Kept(labels, mask, side) + if pick == side then [last] else []
  {
    assert (labels + [last])[..|labels|] == labels && (mask + [pick])[..|labels|] == mask;
  }

  lemma KeptOne(last: string, pick: bool)
    ensures Kept([last], [pick], pick) == [last] && Kept([last], [pick], !pick) == []
  {
  }

  lemma OccursOne(last: string, name: string)
    ensures Occurs([last], name) == if last == name then 1 else 0
  {
    assert [last][..0] == [];
  }

  /** While a label has rows left, its outstanding test rows never exceed them and are never negative. */
  lemma {:induction false} WalkFeasible(p: Plan, labels: seq<string>, name: string)
    requires Occurs(labels, name) <= Count(p.totals, name) && Count(p.targets, name) <= Count(p.totals, name)
    ensures var t := Walk(p, START, labels).0; 0 <= RemainingTest(p, t, name) <= RemainingTotal(p, t, name)
  {
    if labels != [] {
      var rest, last := labels[..|labels| - 1], labels[|labels| - 1];
      var t := Walk(p, START, rest).0;
      WalkFeasible(p, rest, name);
      WalkCounts(p, rest, name);
      NextCounts(p, t, last, name);
      hide Next, Count, Kept, START;
      if last == name && RemainingTest(p, t, name) > 0 && RemainingTotal(p, t, name) == RemainingTest(p, t, name) {
        assert Picks(p, t, last);
      }
    } else {
      assert Walk(p, START, labels).0 == START;
    }
  }

  /** The quotient in the loop is never a division by zero. */
  lemma NeverDividesByZero(p: Plan, labels: seq<string>, i: nat)
    requires WellCounted(p, labels) && i < |labels|
    ensures RemainingTotal(p, Walk(p, START, labels[..i]).0, labels[i]) >= 1
  {
    hide Walk, Occurs, Kept;
    WalkCounts(p, labels[..i], labels[i]);
    OccursBefore(labels, i);
  }

  lemma OccursBefore(labels: seq<string>, i: nat)
    requires i < |labels|
    ensures Occurs(labels[..i], labels[i]) < Occurs(labels, labels[i])
  {
    hide Occurs;
    var name := labels[i];
    OccursConcat(labels[..i], [name], name);
    OccursOne(name, name);
    OccursConcat(labels[..i] + [name], labels[i + 1..], name);
    assert labels[..i] + [name] + labels[i + 1..] == labels;
  }

  /** For every sequence of draws, each label sends exactly its target number of rows to test and the rest
      to train. */
  lemma SplitIsExact(p: Plan, rows: seq<Row>, name: string)
    requires WellCounted(p, Labels(rows))
    ensures Occurs(Labels(TestRows(p, rows)), name) == Count(p.targets, name)
    ensures Occurs(Labels(TrainRows(p, rows)), name) == Count(p.totals, name) - Count(p.targets, name)
  {
    var labels := Labels(rows);
    var (t, mask) := Walk(p, START, labels);
    WalkCounts(p, labels, name);
    WalkFeasible(p, labels, name);
    hide Walk, Kept, Occurs, Count, Labels;
    LabelsOfKept(rows, mask, true);
    LabelsOfKept(rows, mask, false);
    KeptSplitsCounts(labels, mask, name);
  }

  lemma {:induction false} KeptSplitsCounts(labels: seq<string>, mask: seq<bool>, name: string)
    requires |mask| == |labels|
    ensures Occurs(labels, name) == Occurs(Kept(labels, mask, true), name) + Occurs(Kept(labels, mask, false), name)
  {
    if labels != [] {
      var n := |labels| - 1;
      KeptSplitsCounts(labels[..n], mask[..n], name);
      OccursConcat(Kept(labels[..n], mask[..n], mask[n]), [labels[n]], name);
      OccursOne(labels[n], name);
      hide Occurs;
      assert Kept(labels, mask, !mask[n]) == Kept(labels[..n], mask[..n], !mask[n]);
      assert Occurs(labels, name) == Occurs(labels[..n] + [labels[n]], name) by {
        assert labels == labels[..n] + [labels[n]];
      }
      OccursConcat(labels[..n], [labels[n]], name);
    }
  }

  lemma {:induction false} LabelsOfKept(rows: seq<Row>, mask: seq<bool>, side: bool)
    requires |mask| == |rows|
    ensures |Labels(rows)| == |rows|
    ensures Labels(Kept(rows, mask, side)) == Kept(Labels(rows), mask, side)
  {
    if rows != [] {
      var n := |rows| - 1;
      LabelsOfKept(rows[..n], mask[..n], side);
      assert Labels(rows)[..n] == Labels(rows[..n]);
      LabelsConcat(Kept(rows[..n], mask[..n], side), if mask[n] == side then [rows[n]] else []);
    }
  }

  // ----- Partition

  /** Every row is at exactly one place of one of the two files, and each file keeps the order of the rows. */
  lemma PartitionInOrder(p: Plan, rows: seq<Row>)
    ensures var mask := MaskOf(p, rows); |mask| == |rows|
    ensures forall side :: InOrder(Places(MaskOf(p, rows), side), |rows|)
    ensures forall side, i :: 0 <= i < |Places(MaskOf(p, rows), side)| ==> Places(MaskOf(p, rows), side)[i] < |rows|
    ensures TestRows(p, rows) == Iloc(rows, Places(MaskOf(p, rows), true))
    ensures TrainRows(p, rows) == Iloc(rows, Places(MaskOf(p, rows), false))
    ensures forall i :: 0 <= i < |rows| ==>
              (i in Places(MaskOf(p, rows), true) <==> i !in Places(MaskOf(p, rows), false))
    ensures |TestRows(p, rows)| + |TrainRows(p, rows)| == |rows|
  {
    WalkLength(p, START, Labels(rows));
    hide Walk, Kept, Places;
    var mask := MaskOf(p, rows);
    forall side ensures InOrder(Places(mask, side), |rows|) {
      PlacesOrdered(mask, side);
    }
    IlocIsKept(rows, mask, true);
    IlocIsKept(rows, mask, false);
    PlacesSplit(mask);
  }

  ghost predicate InOrder(places: seq<nat>, n: nat) {
    && (forall i, j :: 0 <= i < j < |places| ==> places[i] < places[j])
    && (forall i :: 0 <= i < |places| ==> places[i] < n)
  }

  lemma {:induction false} PlacesOrdered(mask: seq<bool>, side: bool)
    ensures InOrder(Places(mask, side), |mask|)
  {
    if mask != [] {
      PlacesOrdered(mask[..|mask| - 1], side);
    }
  }

  lemma {:induction false} PlacesSplit(mask: seq<bool>)
    ensures forall i :: 0 <= i < |mask| ==> (i in Places(mask, true) <==> i !in Places(mask, false))
    ensures |Places(mask, true)| + |Places(mask, false)| == |mask|
  {
    if mask != [] {
      var n := |mask| - 1;
      PlacesSplit(mask[..n]);
      PlacesInRange(mask[..n], true);
      PlacesInRange(mask[..n], false);
      forall i | 0 <= i < |mask| ensures i in Places(mask, true) <==> i !in Places(mask, false) {
        PlacesSnoc(mask, true, i);
        PlacesSnoc(mask, false, i);
      }
    }
  }

  lemma PlacesSnoc(mask: seq<bool>, side: bool, i: nat)
    requires mask != []
    ensures i in Places(mask, side) <==> i in Places(mask[..|mask| - 1], side) || (i == |mask| - 1 && mask[i] == side)
  {
  }

  // ----- Targets

  lemma RoundIsNearest(x: real)
    ensures -0.5 <= Round(x) as real - x <= 0.5
    ensures Round(x) as real - x == 0.5 || Round(x) as real - x == -0.5 ==> Round(x) % 2 == 0
  {
  }

  /** A target never exceeds the label's count, leaves at least one training row whenever the label has two
      rows, and is the nearest integer to the requested share unless that would leave none. */
  lemma TargetIsNearest(count: nat, testSize: real)
    requires 0.0 < testSize < 1.0
    ensures Target(count, testSize) <= count
    ensures count > 1 ==> Target(count, testSize) < count
    ensures var rounded := Round(count as real * testSize);
            Target(count, testSize) == if count > 1 && rounded == count then count - 1 else rounded
  {
    hide Round;
    var share := Share(count, testSize);
    assert share == count as real * testSize;
    hide Share;
    ShareWithinCount(count, testSize);
    RoundIsNearest(share);
    var rounded := Round(share);
    assert rounded as real > -1.0 && rounded as real < (count + 1) as real;
    assert 0 <= rounded <= count;
  }

  lemma ShareWithinCount(count: nat, testSize: real)
    requires 0.0 < testSize < 1.0
    ensures 0.0 <= Share(count, testSize) <= count as real
  {
    assert count as real * (1.0 - testSize) >= 0.0;
  }

  /** The program's plan is fit for the selection loop: counted labels, and no target above its count. */
  lemma TargetsFit(rows: seq<Row>, testSize: real, draws: nat -> real)
    requires 0.0 < testSize < 1.0
    ensures WellCounted(PlanOf(rows, testSize, draws), Labels(rows))
    ensures forall name :: Count(PlanOf(rows, testSize, draws).targets, name) == Target(Occurs(Labels(rows), name), testSize)
  {
    hide Target, LabelCounts, Labels;
    var totals := LabelCounts(rows);
    TargetIsNearest(0, testSize);
    forall name
      ensures Count(totals, name) == Occurs(Labels(rows), name)
      ensures Count(Targets(totals, testSize), name) == Target(Occurs(Labels(rows), name), testSize) <= Count(totals, name)
    {
      CountsAreOccurrences(rows, name);
      TargetIsNearest(Count(totals, name), testSize);
    }
  }

  /** The program's result, whatever the draws and the chunking: each label has its rounded share of rows in
      the test file and all its other rows in the training file. */
  lemma OutputsAreStratified(rows: seq<Row>, testSize: real, draws: nat -> real, rawRows: nat, name: string)
    requires 0.0 < testSize < 1.0
    ensures var outcome, n := SplitOf(rows, testSize, draws, rawRows), Occurs(Labels(rows), name);
            && Occurs(Labels(outcome.test), name) == Target(n, testSize)
            && Occurs(Labels(outcome.train), name) == n - Target(n, testSize)
  {
    hide TestRows, TrainRows, Target, Labels, Walk, WellCounted, PlanOf;
    TargetsFit(rows, testSize, draws);
    SplitIsExact(PlanOf(rows, testSize, draws), rows, name);
    PlanCounts(rows, testSize, draws, name);
  }

  lemma PlanCounts(rows: seq<Row>, testSize: real, draws: nat -> real, name: string)
    ensures Count(PlanOf(rows, testSize, draws).totals, name) == Occurs(Labels(rows), name)
  {
    CountsAreOccurrences(rows, name);
  }

  /** Two runs whose files hold the same rows in the same order, in whatever files and chunks, agree in
      everything they produce. */
  method ChunkingIsUnobservable(clean: Raw -> Option<Row>, files: seq<seq<Raw>>, files': seq<seq<Raw>>,
                                testSize: real, chunkSize: int, chunkSize': int, draws: nat -> real)
    returns (a: Outcome, b: Outcome)
    requires Concat(files) == Concat(files') && chunkSize > 0 && chunkSize' > 0
    ensures a == b
  {
    hide CleanAll, SplitOf, Concat;
    a := SplitPreparedDataset(clean, files, testSize, chunkSize, draws);
    b := SplitPreparedDataset(clean, files', testSize, chunkSize', draws);
  }

  // ----- Uniform choice

  /** With draws in [0, 1) every branch of the decision is one rule: the draw is below the ratio of the test
      rows outstanding to the rows left. */
  lemma PicksBelowChance(p: Plan, t: Tally, name: string)
    requires 0 <= RemainingTest(p, t, name) <= RemainingTotal(p, t, name) && RemainingTotal(p, t, name) >= 1
    requires 0.0 <= p.draws(t.drawn) < 1.0
    ensures Picks(p, t, name) <==> p.draws(t.drawn) < RemainingTest(p, t, name) as real / RemainingTotal(p, t, name) as real
  {
    hide Count;
    RatioEnds(RemainingTest(p, t, name), RemainingTotal(p, t, name));
  }

  lemma RatioEnds(part: int, whole: int)
    requires whole >= 1
    ensures part == 0 ==> part as real / whole as real == 0.0
    ensures part == whole ==> part as real / whole as real == 1.0
  {
    if part == 0 {
      assert 0.0 / whole as real == 0.0;
    }
  }

  /** The number of ways to choose `k` of `n` rows. */
  function Choose(n: nat, k: nat): nat {
    if k == 0 then 1 else if n == 0 then 0 else Choose(n - 1, k - 1) + Choose(n - 1, k)
  }

  function Trues(picks: seq<bool>): nat {
    if picks == [] then 0 else Trues(picks[..|picks| - 1]) + if picks[|picks| - 1] then 1 else 0
  }

  /** The probability, under independent uniform draws, that the rows of one label are decided as `picks`
      when `total` rows and `target` test rows are due: the product of the loop's ratios. */
  function Probability(total: nat, target: nat, picks: seq<bool>): real
    requires |picks| <= total
  {
    if picks == [] then 1.0
    else
      var rest := picks[..|picks| - 1];
      var left, wanted := total - |rest|, target - Trues(rest);
      Probability(total, target, rest) * if picks[|picks| - 1] then Ratio(wanted, left) else Ratio(left - wanted, left)
  }

  function Ratio(part: int, whole: nat): real
    requires whole > 0
  {
    part as real / whole as real
  }

  /** The decisions for the rows of one label, in order. */
  function PicksOf(labels: seq<string>, mask: seq<bool>, name: string): seq<bool>
    requires |mask| == |labels|
  {
    if labels == [] then []
    else
      var n := |labels| - 1;
      PicksOf(labels[..n], mask[..n], name) + if labels[n] == name then [mask[n]] else []
  }

  lemma {:induction false} PicksOfCounts(labels: seq<string>, mask: seq<bool>, name: string)
    requires |mask| == |labels|
    ensures |PicksOf(labels, mask, name)| == Occurs(labels, name)
    ensures Trues(PicksOf(labels, mask, name)) == Occurs(Kept(labels, mask, true), name)
  {
    hide Occurs, Kept;
    if labels != [] {
      var n := |labels| - 1;
      var pick, rest := mask[n], PicksOf(labels[..n], mask[..n], name);
      PicksOfCounts(labels[..n], mask[..n], name);
      CountsSnoc(labels[..n], mask[..n], labels[n], pick, name);
      assert labels == labels[..n] + [labels[n]] && mask == mask[..n] + [pick];
      TruesSnoc(rest, pick);
      if labels[n] == name {
        assert PicksOf(labels, mask, name) == rest + [pick];
      } else {
        assert PicksOf(labels, mask, name) == rest;
      }
    } else {
      NothingKept(mask, name);
    }
  }

  lemma TruesSnoc(picks: seq<bool>, pick: bool)
    ensures Trues(picks + [pick]) == Trues(picks) + if pick then 1 else 0
  {
    assert (picks + [pick])[..|picks|] == picks;
  }

  lemma NothingKept(mask: seq<bool>, name: string)
    ensures Occurs([], name) == 0 && Kept<string>([], mask, true) == []
  {
  }

  /** The loop's ratio for the next row of a label is the one that `Probability` multiplies by. */
  lemma LoopRatios(p: Plan, labels: seq<string>, name: string)
    ensures var (t, mask) := Walk(p, START, labels);
            && |mask| == |labels|
            && RemainingTotal(p, t, name) == Count(p.totals, name) - |PicksOf(labels, mask, name)|
            && RemainingTest(p, t, name) == Count(p.targets, name) - Trues(PicksOf(labels, mask, name))
  {
    hide Walk, Occurs, Kept, PicksOf, Count;
    WalkCounts(p, labels, name);
    PicksOfCounts(labels, Walk(p, START, labels).1, name);
  }

  lemma {:induction false} Absorption(n: nat, k: nat)
    requires 0 < k <= n
    ensures n * Choose(n - 1, k - 1) == k * Choose(n, k)
  {
    if k == n {
      ChooseAll(n);
      ChooseAll(n - 1);
    } else if k > 1 {
      Absorption(n - 1, k - 1);
      Absorption(n - 1, k);
      var a, b, c := Choose(n - 2, k - 2), Choose(n - 2, k - 1), Choose(n - 1, k);
      assert Choose(n - 1, k - 1) == a + b;
      AbsorptionStep(n, k, a, b, Choose(n - 1, k - 1), c);
    } else {
      ChooseOne(n);
    }
  }

  lemma AbsorptionStep(n: int, k: int, a: int, b: int, ab: int, c: int)
    requires ab == a + b && (n - 1) * a == (k - 1) * ab && (n - 1) * b == k * c
    ensures n * ab == k * (ab + c)
  {
    calc {
      n * ab;
      (n - 1) * ab + ab;
      (n - 1) * a + (n - 1) * b + ab;
      (k - 1) * ab + k * c + ab;
      k * (ab + c);
    }
  }

  lemma {:induction false} ChooseAll(n: nat)
    ensures Choose(n, n) == 1
    ensures forall k :: k > n ==> Choose(n, k) == 0
  {
    if n > 0 {
      ChooseAll(n - 1);
    }
  }

  lemma {:induction false} ChooseOne(n: nat)
    ensures Choose(n, 1) == n
  {
    if n > 0 {
      ChooseOne(n - 1);
    }
  }

  /** Whatever has been decided so far, probability times the number of all splits is the number of splits
      still possible. */
  lemma {:induction false} SplitsLeft(total: nat, target: nat, picks: seq<bool>)
    requires |picks| <= total && Trues(picks) <= target <= total && target - Trues(picks) <= total - |picks|
    ensures Probability(total, target, picks) * Choose(total, target) as real
         == Choose(total - |picks|, target - Trues(picks)) as real
  {
    hide Choose, Ratio;
    if picks != [] {
      var n := |picks| - 1;
      var rest, pick := picks[..n], picks[n];
      assert Trues(picks) == Trues(rest) + if pick then 1 else 0;
      SplitsLeft(total, target, rest);
      var left, wanted := total - n, target - Trues(rest);
      ChooseStep(left, wanted, pick);
      var before, all := Probability(total, target, rest), Choose(total, target) as real;
      var ratio := if pick then Ratio(wanted, left) else Ratio(left - wanted, left);
      assert Probability(total, target, picks) == before * ratio;
      hide Probability;
      Reorder(before, ratio, all, Choose(left, wanted) as real);
    }
  }

  lemma Reorder(before: real, ratio: real, all: real, ways: real)
    requires before * all == ways
    ensures before * ratio * all == ways * ratio
  {
    assert before * ratio * all == (before * all) * ratio;
  }

  lemma ChooseStep(left: nat, wanted: nat, pick: bool)
    requires 0 < left && wanted <= left && (if pick then wanted > 0 else wanted < left)
    ensures if pick then Choose(left, wanted) as real * Ratio(wanted, left) == Choose(left - 1, wanted - 1) as real
            else Choose(left, wanted) as real * Ratio(left - wanted, left) == Choose(left - 1, wanted) as real
  {
    hide Ratio, Choose;
    if pick {
      Absorption(left, wanted);
      Cancel(Choose(left, wanted), wanted, left, Choose(left - 1, wanted - 1));
    } else {
      NotPicked(left, wanted);
      Cancel(Choose(left, wanted), left - wanted, left, Choose(left - 1, wanted));
    }
  }

  lemma NotPicked(left: nat, wanted: nat)
    requires wanted < left
    ensures (left - wanted) * Choose(left, wanted) == left * Choose(left - 1, wanted)
  {
    if wanted > 0 {
      Absorption(left, wanted);
      var c, a, b := Choose(left, wanted), Choose(left - 1, wanted - 1), Choose(left - 1, wanted);
      assert c == a + b;
      NotPickedStep(left, wanted, c, a, b);
    }
  }

  lemma NotPickedStep(left: int, wanted: int, c: int, a: int, b: int)
    requires c == a + b && left * a == wanted * c
    ensures (left - wanted) * c == left * b
  {
  }

  lemma Cancel(c: nat, part: nat, whole: nat, result: nat)
    requires whole > 0 && part * c == whole * result
    ensures c as real * Ratio(part, whole) == result as real
  {
    var x, y, w, r := c as real, part as real, whole as real, result as real;
    assert (part * c) as real == y * x && (whole * result) as real == w * r;
    assert x * (y / w) == (y * x) / w;
  }

  /** Every complete decision with the right count is equally likely: one over the number of such decisions. */
  lemma SplitIsUniform(total: nat, target: nat, picks: seq<bool>)
    requires |picks| == total && Trues(picks) == target
    ensures Choose(total, target) > 0
    ensures Probability(total, target, picks) == 1.0 / Choose(total, target) as real
  {
    hide Probability, Trues;
    TruesBounded(picks);
    assert Choose(0, 0) == 1;
    hide Choose;
    SplitsLeft(total, target, picks);
    Invert(Probability(total, target, picks), Choose(total, target));
  }

  lemma Invert(chance: real, ways: nat)
    requires chance * ways as real == 1.0
    ensures ways > 0 && chance == 1.0 / ways as real
  {
    var w := ways as real;
    assert chance * 0.0 == 0.0;
    assert w != 0.0;
    assert chance == (chance * w) / w;
  }

  lemma {:induction false} TruesBounded(picks: seq<bool>)
    ensures Trues(picks) <= |picks|
  {
    if picks != [] {
      TruesBounded(picks[..|picks| - 1]);
    }
  }

  // ----- Every split is possible

  /** The mask can still be completed to one with the right counts. */
  ghost predicate Completable(p: Plan, labels: seq<string>, mask: seq<bool>) {
    |mask| == |labels| &&
    forall name :: var taken := Occurs(Kept(labels, mask, true), name);
                   taken <= Count(p.targets, name)
                   && Count(p.targets, name) - taken <= Count(p.totals, name) - Occurs(labels, name)
  }

  lemma SameNext(p: Plan, draws: nat -> real, t: Tally, name: string)
    requires forall i :: 0 <= i < Next(p, t, name).drawn ==> draws(i) == p.draws(i)
    ensures Next(p.(draws := draws), t, name) == Next(p, t, name)
    ensures Picks(p.(draws := draws), t, name) == Picks(p, t, name)
  {
    hide Count, Bump;
    if Draws(p, t, name) {
      assert draws(t.drawn) == p.draws(t.drawn);
    }
  }

  lemma {:induction false} DrawsBeyond(p: Plan, draws: nat -> real, labels: seq<string>)
    requires forall i :: 0 <= i < Walk(p, START, labels).0.drawn ==> draws(i) == p.draws(i)
    ensures Walk(p.(draws := draws), START, labels) == Walk(p, START, labels)
  {
    if labels != [] {
      var rest, last := labels[..|labels| - 1], labels[|labels| - 1];
      var t := Walk(p, START, rest).0;
      assert Walk(p, START, labels).0 == Next(p, t, last);
      assert Next(p, t, last).drawn >= t.drawn;
      hide Next, Picks;
      DrawsBeyond(p, draws, rest);
      SameNext(p, draws, t, last);
    }
  }

  lemma CompletablePrefix(p: Plan, labels: seq<string>, mask: seq<bool>)
    requires Completable(p, labels, mask) && labels != []
    ensures Completable(p, labels[..|labels| - 1], mask[..|labels| - 1])
    ensures var n := |labels| - 1;
            var name := labels[n];
            var left := Count(p.totals, name) - Occurs(labels[..n], name);
            var wanted := Count(p.targets, name) - Occurs(Kept(labels[..n], mask[..n], true), name);
            0 < left && (if mask[n] then 0 < wanted else wanted < left)
  {
    var n := |labels| - 1;
    var rest, part := labels[..n], mask[..n];
    assert labels == rest + [labels[n]] && mask == part + [mask[n]];
    forall name ensures
      && Occurs(labels, name) == Occurs(rest, name) + (if labels[n] == name then 1 else 0)
      && Occurs(Kept(labels, mask, true), name)
           == Occurs(Kept(rest, part, true), name) + (if labels[n] == name && mask[n] then 1 else 0)
    {
      OccursConcat(rest, [labels[n]], name);
      KeptConcat(rest, [labels[n]], part, [mask[n]], true);
      KeptOne(labels[n], mask[n]);
      OccursOne(labels[n], name);
      OccursConcat(Kept(rest, part, true), Kept([labels[n]], [mask[n]], true), name);
    }
    hide Occurs, Kept, Count;
  }

  /** Every division of the rows with the right counts is the result of some draws in [0, 1). */
  lemma {:induction false} EverySplitPossible(p: Plan, labels: seq<string>, mask: seq<bool>) returns (draws: nat -> real)
    requires Completable(p, labels, mask)
    ensures forall i :: 0.0 <= draws(i) < 1.0
    ensures Walk(p.(draws := draws), START, labels).1 == mask
  {
    if labels == [] {
      draws := (i: nat) => 0.0;
    } else {
      assert |mask| == |labels|;
      hide Completable, Occurs, Kept, Count;
      var n := |labels| - 1;
      CompletablePrefix(p, labels, mask);
      var first := EverySplitPossible(p, labels[..n], mask[..n]);
      draws := LastDraw(p.(draws := first), labels, mask);
    }
  }

  lemma LastDraw(p: Plan, labels: seq<string>, mask: seq<bool>) returns (draws: nat -> real)
    requires |mask| == |labels| > 0 && Completable(p, labels, mask) && forall i :: 0.0 <= p.draws(i) < 1.0
    requires Walk(p, START, labels[..|labels| - 1]).1 == mask[..|labels| - 1]
    ensures forall i :: 0.0 <= draws(i) < 1.0
    ensures Walk(p.(draws := draws), START, labels).1 == mask
  {
    hide Completable, Occurs, Kept, Count, Next, Walk, Picks;
    var n := |labels| - 1;
    var name, t := labels[n], Walk(p, START, labels[..n]).0;
    CompletablePrefix(p, labels, mask);
    WalkCounts(p, labels[..n], name);
    var draw := DrawFor(RemainingTotal(p, t, name), RemainingTest(p, t, name), mask[n]);
    draws := (i: nat) => if i == t.drawn then draw else p.draws(i);
    DrawsBeyond(p, draws, labels[..n]);
    PicksAsDrawn(p, draws, t, name, mask[n]);
    WalkLast(p.(draws := draws), labels);
    assert mask == mask[..n] + [mask[n]];
  }

  lemma PicksAsDrawn(p: Plan, draws: nat -> real, t: Tally, name: string, pick: bool)
    requires var left, wanted := RemainingTotal(p, t, name), RemainingTest(p, t, name);
             && 0 < left && (if pick then 0 < wanted else wanted < left)
             && (pick ==> draws(t.drawn) < wanted as real / left as real)
             && (!pick ==> wanted <= 0 || !(draws(t.drawn) < wanted as real / left as real))
    ensures Picks(p.(draws := draws), t, name) == pick
  {
    hide Count;
  }

  lemma WalkLast(p: Plan, labels: seq<string>)
    requires labels != []
    ensures var (t, mask) := Walk(p, START, labels[..|labels| - 1]);
            Walk(p, START, labels).1 == mask + [Picks(p, t, labels[|labels| - 1])]
  {
  }

  lemma DrawFor(left: int, wanted: int, pick: bool) returns (draw: real)
    requires 0 < left && (if pick then 0 < wanted else wanted < left)
    ensures 0.0 <= draw < 1.0
    ensures pick ==> draw < wanted as real / left as real
    ensures !pick ==> wanted <= 0 || !(draw < wanted as real / left as real)
  {
    if pick || wanted <= 0 {
      draw := 0.0;
    } else {
      draw := wanted as real / left as real;
    }
  }
}
