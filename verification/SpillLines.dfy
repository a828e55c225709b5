/** The spill file as a list of lines: a decodable payload, or None for a corrupt line. */
module SpillLines {
  import opened Options

  function Present<T>(line: Option<T>): seq<T> {
    if line.Some? then [line.value] else []
  }

  /** The payloads of the decodable lines, oldest first. */
  function Entries<T>(lines: seq<Option<T>>): seq<T> {
    if lines == [] then [] else Present(lines[0]) + Entries(lines[1..])
  }

  /** The number of lines up to and including the k-th decodable one; all of them if there are fewer. */
  function CutIndex<T>(lines: seq<Option<T>>, k: nat): (cut: nat)
    requires k > 0
    ensures cut <= |lines|
  {
    if lines == [] then 0
    else if lines[0].Some? && k == 1 then 1
    else 1 + CutIndex(lines[1..], if lines[0].Some? then k - 1 else k)
  }

  function Discard<T>(lines: seq<Option<T>>, count: int): seq<Option<T>> {
    if count <= 0 then lines else lines[CutIndex(lines, count)..]
  }

  /** Python's `lines[-max:]`. */
  function Newest<T>(lines: seq<T>, max: nat): seq<T> {
    if |lines| > max then lines[|lines| - max..] else lines
  }

  function Oldest<T>(lines: seq<T>, max: nat): seq<T> {
    if |lines| > max then lines[..|lines| - max] else []
  }

  /** The in-memory counter calls for compaction: more than 10% over the limit. */
  predicate OverLimit(count: int, max: nat) { 10 * count > 11 * max }

  function Take<T>(xs: seq<T>, max: int): seq<T> {
    if max <= 0 then [] else if max < |xs| then xs[..max] else xs
  }

  lemma EntriesCons<T>(x: Option<T>, rest: seq<Option<T>>)
    ensures Entries([x] + rest) == Present(x) + Entries(rest)
  {
    assert ([x] + rest)[1..] == rest;
  }

  lemma Associate<T>(a: seq<T>, b: seq<T>, c: seq<T>)
    ensures a + (b + c) == (a + b) + c
  {
  }

  lemma {:induction false} EntriesConcat<T>(a: seq<Option<T>>, b: seq<Option<T>>)
    ensures Entries(a + b) == Entries(a) + Entries(b)
  {
    if a == [] {
      assert a + b == b;
    } else {
      var x, rest := a[0], a[1..];
      EntriesConcat(rest, b);
      EntriesCons(x, rest);
      EntriesCons(x, rest + b);
      hide Entries, Present;
      assert a == [x] + rest;
      Associate([x], rest, b);
      Associate(Present(x), Entries(rest), Entries(b));
    }
  }

  lemma EntriesOne<T>(x: Option<T>)
    ensures Entries([x]) == Present(x)
  {
    assert [x][1..] == [];
    assert Entries<T>([]) == [];
  }

  lemma EntriesSplit<T>(lines: seq<Option<T>>, at: nat)
    requires at <= |lines|
    ensures Entries(lines) == Entries(lines[..at]) + Entries(lines[at..])
  {
    EntriesConcat(lines[..at], lines[at..]);
    assert lines[..at] + lines[at..] == lines;
  }

  /** A corrupt line anywhere in the file changes no payload. */
  lemma CorruptLineHarmless<T>(lines: seq<Option<T>>, at: nat)
    requires at <= |lines|
    ensures Entries(lines[..at] + [None] + lines[at..]) == Entries(lines)
  {
    EntriesOne<T>(None);
    hide Entries;
    EntriesConcat(lines[..at] + [None], lines[at..]);
    EntriesConcat(lines[..at], [None]);
    EntriesSplit(lines, at);
  }

  /** The cut falls right after the k-th decodable line: what goes is exactly the first k payloads with
      every corrupt line before the k-th of them. */
  lemma {:induction false} CutIsKth<T>(lines: seq<Option<T>>, k: nat)
    requires 0 < k <= |Entries(lines)|
    ensures var cut := CutIndex(lines, k);
            && cut > 0
            && lines[cut - 1].Some?
            && Entries(lines[..cut]) == Entries(lines)[..k]
            && Entries(lines[..cut - 1]) == Entries(lines)[..k - 1]
  {
    var rest := lines[1..];
    var cut := CutIndex(lines, k);
    if lines[0].Some? && k == 1 {
      EntriesOne(lines[0]);
      assert lines[..1] == [lines[0]];
    } else {
      var j := if lines[0].Some? then k - 1 else k;
      CutIsKth(rest, j);
      assert lines[..cut][1..] == rest[..cut - 1] && lines[..cut - 1][1..] == rest[..cut - 2];
    }
  }

  lemma {:induction false} CutBeyond<T>(lines: seq<Option<T>>, k: nat)
    requires k > |Entries(lines)|
    ensures CutIndex(lines, k) == |lines|
  {
    if lines != [] {
      CutBeyond(lines[1..], if lines[0].Some? then k - 1 else k);
    }
  }

  /** Discarding `count` lets exactly the payloads from position `count` on survive. */
  lemma DiscardDropsPrefix<T>(lines: seq<Option<T>>, count: nat)
    ensures Entries(Discard(lines, count)) == if count <= |Entries(lines)| then Entries(lines)[count..] else []
  {
    if 0 < count <= |Entries(lines)| {
      CutIsKth(lines, count);
      EntriesSplit(lines, CutIndex(lines, count));
      hide Entries, CutIndex;
    } else if count > |Entries(lines)| {
      CutBeyond(lines, count);
      assert lines[|lines|..] == [];
    }
  }

  /** Compaction splits the payloads into the evicted oldest and the kept newest. */
  lemma CompactionSplits<T>(lines: seq<Option<T>>, max: nat)
    ensures Oldest(lines, max) + Newest(lines, max) == lines
    ensures Entries(lines) == Entries(Oldest(lines, max)) + Entries(Newest(lines, max))
    ensures |Newest(lines, max)| == if |lines| > max then max else |lines|
  {
    EntriesConcat(Oldest(lines, max), Newest(lines, max));
  }
}
