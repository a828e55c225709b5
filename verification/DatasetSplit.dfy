/** The stratified splitter: rows stream in chunks, and each label sends an exact number of rows to test.

    Draws are an arbitrary sequence of reals, and the per-row cleaner is an arbitrary function that drops or
    converts a raw row. */
module DatasetSplit {
  import opened Options

  type Counter = map<string, nat>

  datatype Raw = Raw(cells: seq<string>)
  datatype Row = Row(name: string, features: seq<real>)

  function Count(c: Counter, name: string): nat {
    if name in c then c[name] else 0
  }

  function Bump(c: Counter, name: string): Counter {
    c[name := Count(c, name) + 1]
  }

  function Occurs(labels: seq<string>, name: string): nat {
    if labels == [] then 0
    else Occurs(labels[..|labels| - 1], name) + if labels[|labels| - 1] == name then 1 else 0
  }

  function Labels(rows: seq<Row>): seq<string> {
    seq(|rows|, i requires 0 <= i < |rows| => rows[i].name)
  }

  function CleanAll(clean: Raw -> Option<Row>, raws: seq<Raw>): seq<Row> {
    if raws == [] then []
    else
      CleanAll(clean, raws[..|raws| - 1]) +
      match clean(raws[|raws| - 1])
      case None => []
      case Some(row) => [row]
  }

  function Concat(files: seq<seq<Raw>>): seq<Raw> {
    if files == [] then [] else Concat(files[..|files| - 1]) + files[|files| - 1]
  }

  // ----- Targets

  /** Python's `round`: to the nearest integer, ties to even. */
  function Round(x: real): int {
    var low := x.Floor;
    var rest := x - low as real;
    if rest < 0.5 || (rest == 0.5 && low % 2 == 0) then low else low + 1
  }

  function Share(count: nat, testSize: real): real {
    count as real * testSize
  }

  function Target(count: nat, testSize: real): nat {
    var rounded := Round(Share(count, testSize));
    var below := if count > 1 && rounded >= count then count - 1 else rounded;
    if below < 0 then 0 else below
  }

  // ----- The selection loop on values

  datatype Plan = Plan(totals: Counter, targets: Counter, draws: nat -> real)

  /** The counters of the loop, and how many draws it has used. */
  datatype Tally = Tally(seen: Counter, train: Counter, test: Counter, drawn: nat)

  const START := Tally(map[], map[], map[], 0)

  function RemainingTotal(p: Plan, t: Tally, name: string): int {
    Count(p.totals, name) - Count(t.seen, name)
  }

  function RemainingTest(p: Plan, t: Tally, name: string): int {
    Count(p.targets, name) - Count(t.test, name)
  }

  predicate Draws(p: Plan, t: Tally, name: string) {
    RemainingTest(p, t, name) > 0 && RemainingTotal(p, t, name) != RemainingTest(p, t, name)
  }

  /** Whether the next row, labelled `name`, goes to test. The divisor is never zero in a split. */
  predicate Picks(p: Plan, t: Tally, name: string) {
    var left, wanted := RemainingTotal(p, t, name), RemainingTest(p, t, name);
    wanted > 0 && (left == wanted || (left != 0 && p.draws(t.drawn) < wanted as real / left as real))
  }

  function Next(p: Plan, t: Tally, name: string): Tally {
    Tally(Bump(t.seen, name),
          if Picks(p, t, name) then t.train else Bump(t.train, name),
          if Picks(p, t, name) then Bump(t.test, name) else t.test,
          t.drawn + if Draws(p, t, name) then 1 else 0)
  }

  /** The tally after the rows with these labels, and which of them went to test. */
  function Walk(p: Plan, t: Tally, labels: seq<string>): (Tally, seq<bool>) {
    if labels == [] then (t, [])
    else
      var (before, mask) := Walk(p, t, labels[..|labels| - 1]);
      (Next(p, before, labels[|labels| - 1]), mask + [Picks(p, before, labels[|labels| - 1])])
  }

  /** The elements on one side of a mask, in order. */
  function Kept<T>(xs: seq<T>, mask: seq<bool>, side: bool): seq<T> {
    if xs == [] || |mask| != |xs| then []
    else
      Kept(xs[..|xs| - 1], mask[..|mask| - 1], side) +
      if mask[|mask| - 1] == side then [xs[|xs| - 1]] else []
  }

  /** The positions on one side of a mask. */
  function Places(mask: seq<bool>, side: bool): seq<nat> {
    if mask == [] then []
    else Places(mask[..|mask| - 1], side) + if mask[|mask| - 1] == side then [|mask| - 1] else []
  }

  function MaskOf(p: Plan, rows: seq<Row>): seq<bool> {
    Walk(p, START, Labels(rows)).1
  }

  /** The two output files: the rows on each side of the mask. */
  function TestRows(p: Plan, rows: seq<Row>): seq<Row> { Kept(rows, MaskOf(p, rows), true) }
  function TrainRows(p: Plan, rows: seq<Row>): seq<Row> { Kept(rows, MaskOf(p, rows), false) }

  // ----- The same loop, chunk by chunk

  lemma {:induction false} WalkLength(p: Plan, t: Tally, labels: seq<string>)
    ensures |Walk(p, t, labels).1| == |labels|
  {
    if labels != [] {
      WalkLength(p, t, labels[..|labels| - 1]);
    }
  }

  lemma {:induction false} WalkConcat(p: Plan, t: Tally, a: seq<string>, b: seq<string>)
    ensures var (middle, first) := Walk(p, t, a);
            Walk(p, t, a + b) == (Walk(p, middle, b).0, first + Walk(p, middle, b).1)
  {
    if b == [] {
      assert a + b == a;
      assert Walk(p, t, a).1 + [] == Walk(p, t, a).1;
    } else {
      hide Next, Picks;
      assert (a + b)[..|a + b| - 1] == a + b[..|b| - 1];
      WalkConcat(p, t, a, b[..|b| - 1]);
      var (middle, first) := Walk(p, t, a);
      var (before, second) := Walk(p, middle, b[..|b| - 1]);
      assert (a + b)[|a + b| - 1] == b[|b| - 1];
      var pick := Picks(p, before, b[|b| - 1]);
      assert first + second + [pick] == first + (second + [pick]);
    }
  }

  lemma {:induction false} KeptConcat<T>(a: seq<T>, b: seq<T>, m: seq<bool>, n: seq<bool>, side: bool)
    requires |m| == |a| && |n| == |b|
    ensures Kept(a + b, m + n, side) == Kept(a, m, side) + Kept(b, n, side)
  {
    if b == [] {
      assert a + b == a && m + n == m;
    } else {
      assert (a + b)[..|a + b| - 1] == a + b[..|b| - 1];
      assert (m + n)[..|m + n| - 1] == m + n[..|n| - 1];
      KeptConcat(a, b[..|b| - 1], m, n[..|n| - 1], side);
    }
  }

  lemma {:induction false} CleanConcat(clean: Raw -> Option<Row>, a: seq<Raw>, b: seq<Raw>)
    ensures CleanAll(clean, a + b) == CleanAll(clean, a) + CleanAll(clean, b)
  {
    if b == [] {
      assert a + b == a;
    } else {
      assert (a + b)[..|a + b| - 1] == a + b[..|b| - 1];
      CleanConcat(clean, a, b[..|b| - 1]);
    }
  }

  lemma {:induction false} OccursConcat(a: seq<string>, b: seq<string>, name: string)
    ensures Occurs(a + b, name) == Occurs(a, name) + Occurs(b, name)
  {
    if b == [] {
      assert a + b == a;
    } else {
      assert (a + b)[..|a + b| - 1] == a + b[..|b| - 1];
      OccursConcat(a, b[..|b| - 1], name);
    }
  }

  lemma LabelsConcat(a: seq<Row>, b: seq<Row>)
    ensures Labels(a + b) == Labels(a) + Labels(b)
  {
  }

  lemma {:induction false} PlacesInRange(mask: seq<bool>, side: bool)
    ensures forall i :: 0 <= i < |Places(mask, side)| ==> Places(mask, side)[i] < |mask|
  {
    if mask != [] {
      PlacesInRange(mask[..|mask| - 1], side);
    }
  }

  /** `DataFrame.iloc`. */
  function Iloc<T>(xs: seq<T>, places: seq<nat>): seq<T>
    requires forall i :: 0 <= i < |places| ==> places[i] < |xs|
  {
    seq(|places|, i requires 0 <= i < |places| => xs[places[i]])
  }

  /** Picking the places of one side yields that side. */
  lemma {:induction false} IlocIsKept<T>(xs: seq<T>, mask: seq<bool>, side: bool)
    requires |mask| == |xs|
    ensures forall i :: 0 <= i < |Places(mask, side)| ==> Places(mask, side)[i] < |xs|
    ensures Iloc(xs, Places(mask, side)) == Kept(xs, mask, side)
  {
    PlacesInRange(mask, side);
    if xs != [] {
      PlacesInRange(mask[..|mask| - 1], side);
      IlocIsKept(xs[..|xs| - 1], mask[..|mask| - 1], side);
    }
  }

  // ----- The program

  datatype SplitError = BadTestSize | BadChunkSize | NoRows

  datatype Outcome =
    | Failed(error: SplitError)
    | Split(train: seq<Row>, test: seq<Row>, totals: Counter, tally: Tally, rawRows: nat, cleanedRows: nat)

  /** The decision for one row, and the updated counters. */
  method SelectRow(p: Plan, t: Tally, name: string) returns (t': Tally, chooseTest: bool)
    ensures t' == Next(p, t, name) && chooseTest == Picks(p, t, name)
  {
    hide Count, Bump;
    var seen, drawn := Bump(t.seen, name), t.drawn;
    CountBumped(t.seen, name);
    var remainingTotal := Count(p.totals, name) - (Count(seen, name) - 1);
    var remainingTest := Count(p.targets, name) - Count(t.test, name);
    chooseTest := false;
    if remainingTest > 0 {
      if remainingTotal == remainingTest {
        chooseTest := true;
      } else {
        chooseTest := remainingTotal != 0 && p.draws(drawn) < remainingTest as real / remainingTotal as real;
        drawn := drawn + 1;
      }
    }
    if chooseTest {
      t' := Tally(seen, t.train, Bump(t.test, name), drawn);
    } else {
      t' := Tally(seen, Bump(t.train, name), t.test, drawn);
    }
  }

  /** One pass over a chunk: the index lists of its rows, and the updated counters. */
  method SplitChunk(p: Plan, t: Tally, chunk: seq<Row>) returns (t': Tally, trainIndices: seq<nat>, testIndices: seq<nat>)
    ensures t' == Walk(p, t, Labels(chunk)).0
    ensures trainIndices == Places(Walk(p, t, Labels(chunk)).1, false)
    ensures testIndices == Places(Walk(p, t, Labels(chunk)).1, true)
  {
    ghost var labels := Labels(chunk);
    assert Walk(p, t, labels[..0]) == (t, []);
    assert Places([], true) == [] && Places([], false) == [];
    hide Walk, Places, Next, Picks;
    t', trainIndices, testIndices := t, [], [];
    for i := 0 to |chunk|
      invariant t' == Walk(p, t, labels[..i]).0
      invariant trainIndices == Places(Walk(p, t, labels[..i]).1, false)
      invariant testIndices == Places(Walk(p, t, labels[..i]).1, true)
    {
      WalkSnoc(p, t, labels, i);
      var chooseTest;
      t', chooseTest := SelectRow(p, t', chunk[i].name);
      if chooseTest {
        testIndices := testIndices + [i];
      } else {
        trainIndices := trainIndices + [i];
      }
    }
    assert labels[..|chunk|] == labels;
  }

  lemma CountBumped(c: Counter, name: string)
    ensures Count(Bump(c, name), name) == Count(c, name) + 1
  {
  }

  lemma WalkSnoc(p: Plan, t: Tally, labels: seq<string>, i: nat)
    requires i < |labels|
    ensures var (before, mask) := Walk(p, t, labels[..i]);
            && |mask| == i
            && Walk(p, t, labels[..i + 1]) == (Next(p, before, labels[i]), mask + [Picks(p, before, labels[i])])
            && forall side :: Places(mask + [Picks(p, before, labels[i])], side)
                           == Places(mask, side) + if Picks(p, before, labels[i]) == side then [i] else []
  {
    hide Next, Picks;
    WalkLength(p, t, labels[..i]);
    assert labels[..i + 1][..i] == labels[..i];
    var (before, mask) := Walk(p, t, labels[..i]);
    var pick := Picks(p, before, labels[i]);
    assert (mask + [pick])[..i] == mask;
  }

  /** The rows of a file that make up its next chunk. */
  function ChunkEnd(from: nat, chunkSize: int, length: nat): nat
    requires chunkSize > 0 && from <= length
    ensures from <= ChunkEnd(from, chunkSize, length) <= length
    ensures from < length ==> from < ChunkEnd(from, chunkSize, length)
  {
    if from + chunkSize < length then from + chunkSize else length
  }

  method CleanChunk(clean: Raw -> Option<Row>, raws: seq<Raw>) returns (rows: seq<Row>)
    ensures rows == CleanAll(clean, raws)
  {
    rows := [];
    for i := 0 to |raws|
      invariant rows == CleanAll(clean, raws[..i])
    {
      assert raws[..i + 1][..i] == raws[..i];
      match clean(raws[i])
      case None =>
      case Some(row) => rows := rows + [row];
    }
    assert raws[..|raws|] == raws;
  }

  /** The label counts of a stream of rows. */
  function LabelCounts(rows: seq<Row>): Counter {
    if rows == [] then map[] else Bump(LabelCounts(rows[..|rows| - 1]), rows[|rows| - 1].name)
  }

  lemma {:induction false} CountsAreOccurrences(rows: seq<Row>, name: string)
    ensures Count(LabelCounts(rows), name) == Occurs(Labels(rows), name)
    ensures LabelCounts(rows) == map[] <==> rows == []
  {
    if rows != [] {
      var n := |rows| - 1;
      CountsAreOccurrences(rows[..n], name);
      assert Labels(rows)[..n] == Labels(rows[..n]);
      assert rows[n].name in LabelCounts(rows);
    }
  }

  method CountChunk(totals: Counter, chunk: seq<Row>, ghost before: seq<Row>) returns (r: Counter)
    requires totals == LabelCounts(before)
    ensures r == LabelCounts(before + chunk)
  {
    r := totals;
    assert before + chunk[..0] == before;
    for i := 0 to |chunk|
      invariant r == LabelCounts(before + chunk[..i])
    {
      assert before + chunk[..i + 1] == before + chunk[..i] + [chunk[i]];
      assert (before + chunk[..i + 1])[..|before| + i] == before + chunk[..i];
      r := Bump(r, chunk[i].name);
    }
    assert chunk[..|chunk|] == chunk;
  }

  lemma NothingCounted(clean: Raw -> Option<Row>)
    ensures CleanAll(clean, []) == [] && LabelCounts([]) == map[]
  {
  }

  /** The first pass. */
  method CountLabels(clean: Raw -> Option<Row>, files: seq<seq<Raw>>, chunkSize: int)
    returns (totals: Counter, rawRows: nat, cleanedRows: nat)
    requires chunkSize > 0
    ensures var rows := CleanAll(clean, Concat(files));
            totals == LabelCounts(rows) && rawRows == |Concat(files)| && cleanedRows == |rows|
  {
    hide LabelCounts, CleanAll;
    totals, rawRows, cleanedRows := map[], 0, 0;
    NothingCounted(clean);
    ghost var rows: seq<Row> := [];
    for f := 0 to |files|
      invariant rows == CleanAll(clean, Concat(files[..f])) && rawRows == |Concat(files[..f])|
      invariant totals == LabelCounts(rows) && cleanedRows == |rows|
    {
      var file, at := files[f], 0;
      ghost var earlier := Concat(files[..f]);
      assert files[..f + 1][..f] == files[..f];
      assert earlier + file[..0] == earlier;
      while at < |file|
        invariant at <= |file| && rawRows == |earlier| + at
        invariant rows == CleanAll(clean, earlier + file[..at])
        invariant totals == LabelCounts(rows) && cleanedRows == |rows|
      {
        var end := ChunkEnd(at, chunkSize, |file|);
        var chunk := CleanChunk(clean, file[at..end]);
        totals := CountChunk(totals, chunk, rows);
        CleanConcat(clean, earlier + file[..at], file[at..end]);
        assert earlier + file[..end] == earlier + file[..at] + file[at..end];
        rows := rows + chunk;
        rawRows, cleanedRows, at := rawRows + (end - at), cleanedRows + |chunk|, end;
      }
      assert file[..at] == file;
    }
    assert files[..|files|] == files;
  }

  function Targets(totals: Counter, testSize: real): Counter {
    map name | name in totals :: Target(totals[name], testSize)
  }

  method ComputeTestTargets(totals: Counter, testSize: real) returns (targets: Counter)
    ensures targets == Targets(totals, testSize)
  {
    hide Target, Round;
    targets := map[];
    var todo := totals.Keys;
    while todo != {}
      invariant todo <= totals.Keys
      invariant targets == map name | name in totals && name !in todo :: Target(totals[name], testSize)
    {
      var name :| name in todo;
      var target := RoundedTarget(totals[name], testSize);
      targets := targets[name := target];
      todo := todo - {name};
    }
  }

  method RoundedTarget(count: nat, testSize: real) returns (target: nat)
    ensures target == Target(count, testSize)
  {
    hide Round, Share;
    var rounded := Round(Share(count, testSize));
    if count > 1 && rounded >= count {
      rounded := count - 1;
    }
    if rounded < 0 {
      rounded := 0;
    }
    target := rounded;
  }

  /** The plan of a split: a function of the cleaned rows, the share and the draws. */
  function PlanOf(rows: seq<Row>, testSize: real, draws: nat -> real): Plan {
    Plan(LabelCounts(rows), Targets(LabelCounts(rows), testSize), draws)
  }

  /** What the split produces: a function of the cleaned rows, not of how they come in files and chunks. */
  function SplitOf(rows: seq<Row>, testSize: real, draws: nat -> real, rawRows: nat): Outcome {
    var p := PlanOf(rows, testSize, draws);
    Split(TrainRows(p, rows), TestRows(p, rows), p.totals, Walk(p, START, Labels(rows)).0, rawRows, |rows|)
  }

  method SplitPreparedDataset(clean: Raw -> Option<Row>, files: seq<seq<Raw>>, testSize: real, chunkSize: int, draws: nat -> real)
    returns (outcome: Outcome)
    ensures var rows := CleanAll(clean, Concat(files));
            outcome == if !(0.0 < testSize < 1.0) then Failed(BadTestSize)
                       else if chunkSize <= 0 then Failed(BadChunkSize)
                       else if rows == [] then Failed(NoRows)
                       else SplitOf(rows, testSize, draws, |Concat(files)|)
  {
    hide CleanAll, LabelCounts;
    if !(0.0 < testSize < 1.0) {
      outcome := Failed(BadTestSize);
    } else if chunkSize <= 0 {
      outcome := Failed(BadChunkSize);
    } else {
      var totals, rawRows, cleanedRows := CountLabels(clean, files, chunkSize);
      CountsAreOccurrences(CleanAll(clean, Concat(files)), "");
      if totals == map[] {
        outcome := Failed(NoRows);
      } else {
        var targets := ComputeTestTargets(totals, testSize);
        var train, test, tally := SelectRows(clean, files, chunkSize, Plan(totals, targets, draws));
        outcome := Split(train, test, totals, tally, rawRows, cleanedRows);
      }
    }
  }

  /** What the streaming loops have produced after the rows `rows`. */
  ghost predicate Streamed(p: Plan, rows: seq<Row>, t: Tally, train: seq<Row>, test: seq<Row>) {
    t == Walk(p, START, Labels(rows)).0 && train == TrainRows(p, rows) && test == TestRows(p, rows)
  }

  lemma StreamNothing(p: Plan)
    ensures Streamed(p, [], START, [], [])
  {
  }

  lemma StreamChunk(p: Plan, rows: seq<Row>, t: Tally, train: seq<Row>, test: seq<Row>, chunk: seq<Row>)
    requires Streamed(p, rows, t, train, test)
    ensures var (after, mask) := Walk(p, t, Labels(chunk));
            |mask| == |chunk| && Streamed(p, rows + chunk, after, train + Kept(chunk, mask, false), test + Kept(chunk, mask, true))
  {
    hide Walk, Kept, Labels;
    LabelsConcat(rows, chunk);
    WalkConcat(p, START, Labels(rows), Labels(chunk));
    WalkLength(p, START, Labels(rows));
    WalkLength(p, t, Labels(chunk));
    LabelsLength(rows);
    LabelsLength(chunk);
    KeptConcat(rows, chunk, MaskOf(p, rows), Walk(p, t, Labels(chunk)).1, true);
    KeptConcat(rows, chunk, MaskOf(p, rows), Walk(p, t, Labels(chunk)).1, false);
  }

  lemma LabelsLength(rows: seq<Row>)
    ensures |Labels(rows)| == |rows|
  {
  }

  /** Splits one chunk and appends its rows to the two outputs. */
  method WriteChunk(p: Plan, t: Tally, train: seq<Row>, test: seq<Row>, chunk: seq<Row>, ghost rows: seq<Row>)
    returns (t': Tally, train': seq<Row>, test': seq<Row>)
    requires Streamed(p, rows, t, train, test)
    ensures Streamed(p, rows + chunk, t', train', test')
  {
    hide Streamed, Walk, Kept, Labels, Places;
    StreamChunk(p, rows, t, train, test, chunk);
    ghost var mask := Walk(p, t, Labels(chunk)).1;
    var trainIndices, testIndices;
    t', trainIndices, testIndices := SplitChunk(p, t, chunk);
    IlocIsKept(chunk, mask, false);
    IlocIsKept(chunk, mask, true);
    train' := if trainIndices != [] then train + Iloc(chunk, trainIndices) else train;
    test' := if testIndices != [] then test + Iloc(chunk, testIndices) else test;
    assert train' == train + Kept(chunk, mask, false);
    assert test' == test + Kept(chunk, mask, true);
  }

  /** The second pass: files, chunks, rows. */
  method SelectRows(clean: Raw -> Option<Row>, files: seq<seq<Raw>>, chunkSize: int, p: Plan)
    returns (train: seq<Row>, test: seq<Row>, t: Tally)
    requires chunkSize > 0
    ensures Streamed(p, CleanAll(clean, Concat(files)), t, train, test)
  {
    hide Streamed, CleanAll;
    train, test, t := [], [], START;
    StreamNothing(p);
    NothingCounted(clean);
    for f := 0 to |files|
      invariant Streamed(p, CleanAll(clean, Concat(files[..f])), t, train, test)
    {
      var file, at := files[f], 0;
      ghost var earlier := Concat(files[..f]);
      assert files[..f + 1][..f] == files[..f];
      assert earlier + file[..0] == earlier;
      while at < |file|
        invariant at <= |file|
        invariant Streamed(p, CleanAll(clean, earlier + file[..at]), t, train, test)
      {
        var end := ChunkEnd(at, chunkSize, |file|);
        var chunk := CleanChunk(clean, file[at..end]);
        CleanConcat(clean, earlier + file[..at], file[at..end]);
        assert earlier + file[..end] == earlier + file[..at] + file[at..end];
        if chunk != [] {
          t, train, test := WriteChunk(p, t, train, test, chunk, CleanAll(clean, earlier + file[..at]));
        } else {
          assert CleanAll(clean, earlier + file[..at]) + chunk == CleanAll(clean, earlier + file[..at]);
        }
        at := end;
      }
      assert file[..at] == file;
    }
    assert files[..|files|] == files;
  }
}
