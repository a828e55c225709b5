/** The disk-backed spill buffer over a text file. The encoding of payloads is a parameter. */
module DiskSpillStore {
  import opened Options
  import opened Text
  import opened SpillLines

  /** `parse` is given a stripped, non-empty line; None stands for a decoding error or a non-object. */
  datatype Codec<!T(!new)> = Codec(encode: T -> string, parse: string -> Option<T>)

  /** What the payload encoding promises: one non-blank line per payload, which decodes to the payload. */
  ghost predicate GoodCodec<T(!new)>(codec: Codec<T>) {
    forall x :: OneLine(codec.encode(x)) && codec.parse(Strip(codec.encode(x))) == Some(x)
  }

  /** The payload, and whether the line counts as corrupt. */
  function TryDecode<T(!new)>(codec: Codec<T>, line: string): (Option<T>, bool) {
    var stripped := Strip(line);
    if stripped == "" then (None, false)
    else
      var payload := codec.parse(stripped);
      (payload, payload.None?)
  }

  function Decode<T(!new)>(codec: Codec<T>, lines: seq<string>): (r: seq<Option<T>>)
    ensures |r| == |lines|
  {
    seq(|lines|, i requires 0 <= i < |lines| => TryDecode(codec, lines[i]).0)
  }

  function AppendedTo<T(!new)>(codec: Codec<T>, text: string, payload: T): seq<Option<T>> {
    Decode(codec, Lines(Whole(text))) + [TryDecode(codec, LastPiece(text) + codec.encode(payload)).0]
  }

  class DiskSpillStore<T(!new)> {
    const codec: Codec<T>
    const maxEntries: nat
    var text: string
    var count: nat

    /** The file as decoded lines. */
    ghost function FileLines(): seq<Option<T>>
      reads this
    {
      Decode(codec, Lines(text))
    }

    ghost predicate Valid()
      reads this
    {
      maxEntries >= 1 && GoodCodec(codec)
    }

    constructor (codec: Codec<T>, fileText: string, maxEntries: int)
      requires GoodCodec(codec)
      ensures Valid() && text == fileText && this.codec == codec
      ensures this.maxEntries == if maxEntries > 1 then maxEntries else 1
      ensures count == |FileLines()|
    {
      this.codec := codec;
      this.maxEntries := if maxEntries > 1 then maxEntries else 1;
      this.text := fileText;
      this.count := |Lines(fileText)|;
    }

    /** The decoded lines of the file with `payload` appended: a torn last line swallows the new record. */
    ghost function Appended(payload: T): seq<Option<T>>
      reads this
    {
      AppendedTo(codec, text, payload)
    }

    /** Appends to any file, and compacts once the counter is more than 10% over the limit. The payload becomes
        a line of its own exactly when the last write to the file was a whole one. */
    method Append(payload: T)
      requires Valid()
      modifies this
      ensures Valid() && EndsClean(text)
      ensures var over := 10 * (old(count) + 1) > 11 * maxEntries;
              && FileLines() == (if over then Newest(old(Appended(payload)), maxEntries) else old(Appended(payload)))
              && count == (if over then |FileLines()| else old(count) + 1)
              && (!over ==> (Lines(text) == old(Lines(text)) + [codec.encode(payload)] <==> EndsClean(old(text))))
      ensures EndsClean(old(text)) ==> old(Appended(payload)) == old(FileLines()) + [Some(payload)]
      ensures EndsClean(old(text)) && old(count) == |old(FileLines())| ==>
                count == |FileLines()| && 10 * count <= 11 * maxEntries
    {
      var line := codec.encode(payload);
      AppendAddsLineIff(text, line);
      AppendedLine(codec, text, payload);
      hide Lines, Decode, Whole, LastPiece;
      text := text + line + "\n";
      count := count + 1;
      if OverLimit(count, maxEntries) {
        Compact();
      }
    }

    /** Keeps the newest `maxEntries` lines. */
    method Compact()
      requires maxEntries >= 1
      modifies this
      ensures EndsClean(text)
      ensures FileLines() == Newest(old(FileLines()), maxEntries)
      ensures count == |FileLines()|
    {
      var lines := Lines(text);
      var trimmed := Newest(lines, maxEntries);
      Rewrite(trimmed, if |lines| > maxEntries then |lines| - maxEntries else 0);
    }

    /** Writes back the lines of the file from position `from` on. */
    method Rewrite(remaining: seq<string>, ghost from: nat)
      requires from <= |Lines(text)| && remaining == Lines(text)[from..]
      modifies this
      ensures EndsClean(text)
      ensures FileLines() == old(FileLines())[from..]
      ensures count == |FileLines()|
    {
      RewrittenLines(codec, text, from);
      hide Lines, Join, Decode, EndsClean;
      text := Join(remaining);
      count := |remaining|;
    }

    method PeekBatch(maxItems: int) returns (items: seq<T>)
      ensures items == Take(Entries(FileLines()), maxItems)
    {
      items := [];
      if maxItems > 0 {
        var lines := Lines(text);
        ghost var decoded := Decode(codec, lines);
        var i := 0;
        while i < |lines| && |items| < maxItems
          invariant 0 <= i <= |lines| && |items| <= maxItems
          invariant items == Entries(decoded[..i])
        {
          var payload := TryDecode(codec, lines[i]).0;
          EntriesSnoc(decoded, i);
          hide Entries;
          if payload.Some? {
            items := items + [payload.value];
          }
          i := i + 1;
        }
        PeekedIsTake(decoded, i, maxItems);
      }
    }

    /** The search loop of discard_batch. */
    method FindCut(lines: seq<string>, count: nat) returns (cut: nat)
      requires count > 0
      ensures cut == CutIndex(Decode(codec, lines), count)
    {
      ghost var decoded := Decode(codec, lines);
      var validSeen := 0;
      assert decoded[0..] == decoded;
      for i := 0 to |lines|
        invariant validSeen < count
        invariant CutIndex(decoded, count) == i + CutIndex(decoded[i..], count - validSeen)
      {
        var payload := TryDecode(codec, lines[i]).0;
        assert decoded[i..][0] == payload && decoded[i..][1..] == decoded[i + 1..];
        if payload.Some? {
          validSeen := validSeen + 1;
          if validSeen >= count {
            return i + 1;
          }
        }
      }
      cut := |lines|;
    }

    method DiscardBatch(count: int)
      requires Valid()
      modifies this
      ensures Valid()
      ensures FileLines() == Discard(old(FileLines()), count)
      ensures this.count == if count > 0 then |FileLines()| else old(this.count)
      ensures EndsClean(text) <==> count > 0 || EndsClean(old(text))
      ensures count <= 0 ==> text == old(text)
    {
      if count > 0 {
        var lines := Lines(text);
        var cutIndex := FindCut(lines, count);
        Rewrite(lines[cutIndex..], cutIndex);
      }
    }

    method IsEmpty() returns (empty: bool)
      ensures empty <==> count <= 0
    {
      empty := count <= 0;
    }
  }

  lemma EntriesSnoc<T>(lines: seq<Option<T>>, i: nat)
    requires i < |lines|
    ensures Entries(lines[..i + 1]) == Entries(lines[..i]) + Present(lines[i])
  {
    assert lines[..i + 1] == lines[..i] + [lines[i]];
    EntriesConcat(lines[..i], [lines[i]]);
    EntriesOne(lines[i]);
  }

  lemma PeekedIsTake<T>(lines: seq<Option<T>>, i: nat, maxItems: nat)
    requires i <= |lines| && |Entries(lines[..i])| <= maxItems && maxItems > 0
    requires i == |lines| || |Entries(lines[..i])| == maxItems
    ensures Entries(lines[..i]) == Take(Entries(lines), maxItems)
  {
    EntriesSplit(lines, i);
    if i == |lines| {
      assert lines[..i] == lines;
    }
  }

  lemma RewrittenLines<T(!new)>(codec: Codec<T>, text: string, from: nat)
    requires from <= |Lines(text)|
    ensures var written := Join(Lines(text)[from..]);
            && EndsClean(written)
            && Decode(codec, Lines(written)) == Decode(codec, Lines(text))[from..]
            && |Lines(written)| == |Lines(text)| - from
  {
    ReadLinesAreWritable(text);
    LinesOfJoin(Lines(text)[from..]);
  }

  lemma AppendedLine<T(!new)>(codec: Codec<T>, text: string, payload: T)
    requires GoodCodec(codec)
    ensures var before := Decode(codec, Lines(Whole(text)));
            && Decode(codec, Lines(text + codec.encode(payload) + "\n"))
                 == before + [TryDecode(codec, LastPiece(text) + codec.encode(payload)).0]
            && (EndsClean(text) ==>
                  before == Decode(codec, Lines(text)) && TryDecode(codec, LastPiece(text) + codec.encode(payload)).0 == Some(payload))
    ensures EndsClean(text + codec.encode(payload) + "\n")
  {
    hide Lines, LStrip, RStrip;
    var line := codec.encode(payload);
    AppendCompletesLine(text, line);
    DecodeSnoc(codec, Lines(Whole(text)), LastPiece(text) + line);
    if EndsClean(text) {
      assert LastPiece(text) + line == line;
      assert TryDecode(codec, line).0 == Some(payload);
    }
  }

  lemma DecodeSnoc<T(!new)>(codec: Codec<T>, lines: seq<string>, line: string)
    ensures Decode(codec, lines + [line]) == Decode(codec, lines) + [TryDecode(codec, line).0]
  {
    hide TryDecode;
  }
}
