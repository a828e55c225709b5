/** Stripping, splitting and joining text, as Python's str does it. */
module Text {

  /** The characters that Python's `str.strip` removes. */
  predicate IsSpace(c: char) {
    var n := c as int;
    || 9 <= n <= 13 || 28 <= n <= 32 || n == 0x85 || n == 0xA0 || n == 0x1680 || 0x2000 <= n <= 0x200A
    || n == 0x2028 || n == 0x2029 || n == 0x202F || n == 0x205F || n == 0x3000
  }

  function LStrip(s: string): string {
    if s != "" && IsSpace(s[0]) then LStrip(s[1..]) else s
  }

  function RStrip(s: string): string {
    if s != "" && IsSpace(s[|s| - 1]) then RStrip(s[..|s| - 1]) else s
  }

  function Strip(s: string): string { RStrip(LStrip(s)) }

  lemma {:induction false} LStripStarts(s: string)
    ensures var t := LStrip(s); t == "" || !IsSpace(t[0])
  {
    if s != "" && IsSpace(s[0]) {
      LStripStarts(s[1..]);
    }
  }

  lemma {:induction false} RStripEnds(s: string)
    ensures var t := RStrip(s);
            && (t == "" || !IsSpace(t[|t| - 1]))
            && |t| <= |s| && t == s[..|t|]
  {
    if s != "" && IsSpace(s[|s| - 1]) {
      RStripEnds(s[..|s| - 1]);
    }
  }

  /** Stripping twice is stripping once. */
  lemma StripIdempotent(s: string)
    ensures Strip(Strip(s)) == Strip(s)
  {
    LStripStarts(s);
    RStripEnds(LStrip(s));
  }

  predicate AllSpace(s: string) {
    forall i :: 0 <= i < |s| ==> IsSpace(s[i])
  }

  lemma {:induction false} LStripIs(s: string) returns (cut: string)
    ensures s == cut + LStrip(s) && AllSpace(cut)
  {
    cut := "";
    if s != "" && IsSpace(s[0]) {
      var rest := LStripIs(s[1..]);
      cut := [s[0]] + rest;
    }
  }

  lemma {:induction false} RStripIs(s: string) returns (cut: string)
    ensures s == RStrip(s) + cut && AllSpace(cut)
  {
    cut := "";
    if s != "" && IsSpace(s[|s| - 1]) {
      var rest := RStripIs(s[..|s| - 1]);
      cut := rest + [s[|s| - 1]];
    }
  }

  /** Stripping takes exactly the white space off both ends. */
  lemma StripIs(s: string)
    ensures exists a, b :: s == a + Strip(s) + b && AllSpace(a) && AllSpace(b)
    ensures Strip(s) != "" ==> !IsSpace(Strip(s)[0]) && !IsSpace(Strip(s)[|Strip(s)| - 1])
  {
    hide LStrip, RStrip;
    LStripStarts(s);
    RStripEnds(LStrip(s));
    var a := LStripIs(s);
    var b := RStripIs(LStrip(s));
    assert s == a + Strip(s) + b;
  }

  predicate Blank(line: string) { Strip(line) == "" }

  function Prepend(c: char, parts: seq<string>): seq<string>
    requires parts != []
  {
    [[c] + parts[0]] + parts[1..]
  }

  lemma PrependConcat(c: char, a: seq<string>, b: seq<string>)
    requires a != []
    ensures Prepend(c, a + b) == Prepend(c, a) + b
  {
  }

  /** Python's `text.split("\n")`. */
  function Split(text: string): (parts: seq<string>)
    ensures parts != []
  {
    if text == "" then [""]
    else
      var rest := Split(text[1..]);
      if text[0] == '\n' then [""] + rest else Prepend(text[0], rest)
  }

  function NonBlank(lines: seq<string>): seq<string> {
    if lines == [] then []
    else (if Blank(lines[0]) then [] else [lines[0]]) + NonBlank(lines[1..])
  }

  /** The non-blank lines of a text file. */
  function Lines(text: string): seq<string> { NonBlank(Split(text)) }

  /** The text that a list of lines is written as. */
  function Join(lines: seq<string>): string {
    if lines == [] then "" else lines[0] + "\n" + Join(lines[1..])
  }

  predicate OneLine(line: string) {
    !Blank(line) && '\n' !in line
  }

  /** A text that is empty or ends with a newline: the last write was a whole one. */
  predicate EndsClean(text: string) {
    text == "" || text[|text| - 1] == '\n'
  }

  lemma {:induction false} SplitAtNewline(a: string, b: string)
    ensures Split(a + "\n" + b) == Split(a) + Split(b)
  {
    var text := a + "\n" + b;
    if a == "" {
      assert text[1..] == b;
    } else {
      hide Prepend;
      SplitAtNewline(a[1..], b);
      assert text[1..] == a[1..] + "\n" + b;
      assert text[0] == a[0];
      if a[0] == '\n' {
        assert [""] + (Split(a[1..]) + Split(b)) == ([""] + Split(a[1..])) + Split(b);
      } else {
        PrependConcat(a[0], Split(a[1..]), Split(b));
      }
    }
  }

  lemma {:induction false} NonBlankConcat(a: seq<string>, b: seq<string>)
    ensures NonBlank(a + b) == NonBlank(a) + NonBlank(b)
  {
    if a == [] {
      assert a + b == b;
    } else {
      assert (a + b)[1..] == a[1..] + b;
      NonBlankConcat(a[1..], b);
    }
  }

  lemma LinesAtNewline(a: string, b: string)
    ensures Lines(a + "\n" + b) == Lines(a) + Lines(b)
  {
    SplitAtNewline(a, b);
    NonBlankConcat(Split(a), Split(b));
  }

  lemma {:induction false} SplitWithoutNewline(s: string)
    requires '\n' !in s
    ensures Split(s) == [s]
  {
    if s != "" {
      SplitWithoutNewline(s[1..]);
      assert s[0] in s;
      assert [s[0]] + s[1..] == s;
    }
  }

  lemma LinesOfOne(line: string)
    requires '\n' !in line
    ensures Lines(line) == if Blank(line) then [] else [line]
  {
    SplitWithoutNewline(line);
    assert [line][1..] == [];
    assert NonBlank([]) == [];
  }

  /** Reading back what was written gives the lines that were written. */
  lemma {:induction false} LinesOfJoin(lines: seq<string>)
    requires forall i :: 0 <= i < |lines| ==> OneLine(lines[i])
    ensures Lines(Join(lines)) == lines
    ensures EndsClean(Join(lines))
  {
    if lines == [] {
      LinesOfOne("");
    } else {
      LinesOfJoin(lines[1..]);
      LinesAtNewline(lines[0], Join(lines[1..]));
      LinesOfOne(lines[0]);
      assert Join(lines) == lines[0] + "\n" + Join(lines[1..]);
    }
  }

  lemma {:induction false} LinesAreOneLine(parts: seq<string>)
    requires forall i :: 0 <= i < |parts| ==> '\n' !in parts[i]
    ensures forall i :: 0 <= i < |NonBlank(parts)| ==> OneLine(NonBlank(parts)[i])
  {
    if parts != [] {
      LinesAreOneLine(parts[1..]);
    }
  }

  lemma {:induction false} SplitHasNoNewline(text: string)
    ensures forall i :: 0 <= i < |Split(text)| ==> '\n' !in Split(text)[i]
  {
    if text != "" {
      SplitHasNoNewline(text[1..]);
    }
  }

  /** Every line read from any file can be written back. */
  lemma ReadLinesAreWritable(text: string)
    ensures forall i :: 0 <= i < |Lines(text)| ==> OneLine(Lines(text)[i])
  {
    SplitHasNoNewline(text);
    LinesAreOneLine(Split(text));
  }

  lemma NothingIsBlank()
    ensures Blank("")
  {
  }

  lemma AppendToClean(text: string, line: string)
    requires OneLine(line) && EndsClean(text)
    ensures Lines(text + line + "\n") == Lines(text) + [line]
  {
    hide Lines, LStrip, RStrip;
    NothingIsBlank();
    LinesOfOne("");
    if text != "" {
      var init := text[..|text| - 1];
      assert text == init + "\n";
      assert text + line + "\n" == init + "\n" + (line + "\n" + "");
      LinesAtNewline(init, line + "\n" + "");
      assert text == init + "\n" + "";
      LinesAtNewline(init, "");
    }
    LinesAtNewline(line, "");
    LinesOfOne(line);
    assert "" + line + "\n" == line + "\n" + "";
  }

  lemma BlankSuffix(a: string, line: string)
    requires !Blank(line)
    ensures !Blank(a + line)
  {
    if Blank(a + line) {
      AllSpaces(a + line);
      assert forall i :: 0 <= i < |line| ==> line[i] == (a + line)[|a| + i];
      SpacesBlank(line);
    }
  }

  lemma {:induction false} AllSpaces(s: string)
    requires Blank(s)
    ensures forall i :: 0 <= i < |s| ==> IsSpace(s[i])
  {
    if s != "" {
      if IsSpace(s[0]) {
        AllSpaces(s[1..]);
      } else {
        RStripKeeps(s);
      }
    }
  }

  lemma {:induction false} RStripKeeps(s: string)
    requires s != "" && !IsSpace(s[0])
    ensures RStrip(s) != ""
  {
    if IsSpace(s[|s| - 1]) {
      RStripKeeps(s[..|s| - 1]);
    }
  }

  lemma {:induction false} SpacesBlank(s: string)
    requires forall i :: 0 <= i < |s| ==> IsSpace(s[i])
    ensures Blank(s)
  {
    if s != "" {
      SpacesBlank(s[1..]);
    }
  }

  // ----- Appending to any file

  /** What follows the last newline: the torn part of a file whose last write was cut short. */
  function LastPiece(text: string): string {
    if EndsClean(text) then "" else LastPiece(text[..|text| - 1]) + [text[|text| - 1]]
  }

  /** The file without its torn part. */
  function Whole(text: string): string
  {
    if EndsClean(text) then text else Whole(text[..|text| - 1])
  }

  lemma {:induction false} PieceSplits(text: string)
    ensures text == Whole(text) + LastPiece(text) && EndsClean(Whole(text)) && '\n' !in LastPiece(text)
    ensures LastPiece(text) == "" <==> EndsClean(text)
  {
    if !EndsClean(text) {
      PieceSplits(text[..|text| - 1]);
      assert text == text[..|text| - 1] + [text[|text| - 1]];
    }
  }

  /** In every file, an appended record completes the torn part, if any, and becomes one line with it. */
  lemma AppendCompletesLine(text: string, line: string)
    requires OneLine(line)
    ensures Lines(text + line + "\n") == Lines(Whole(text)) + [LastPiece(text) + line]
  {
    hide Lines, Blank;
    PieceSplits(text);
    BlankSuffix(LastPiece(text), line);
    AppendToClean(Whole(text), LastPiece(text) + line);
    assert text + line + "\n" == Whole(text) + (LastPiece(text) + line) + "\n";
  }

  /** After a torn write the next record becomes the tail of the torn line. */
  lemma TornAppendMerges(text: string, line: string)
    requires OneLine(line) && !EndsClean(text)
    ensures var lines := Lines(text + line + "\n");
            && lines != [] && lines[|lines| - 1] == LastPiece(text) + line && LastPiece(text) != ""
            && lines != Lines(text) + [line]
  {
    hide Lines, Blank;
    PieceSplits(text);
    AppendCompletesLine(text, line);
    assert |LastPiece(text) + line| != |line|;
  }

  /** Appending one line to a file adds exactly that line if and only if the file ends clean; after a
      torn write the new line is merged with the torn one. */
  lemma AppendAddsLineIff(text: string, line: string)
    requires OneLine(line)
    ensures Lines(text + line + "\n") == Lines(text) + [line] <==> EndsClean(text)
  {
    hide Lines, Blank;
    if EndsClean(text) {
      AppendToClean(text, line);
    } else {
      TornAppendMerges(text, line);
    }
  }
}
