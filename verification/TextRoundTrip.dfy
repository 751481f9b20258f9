/** The round trip on text: section text is split into lines, recognised and scanned again. */
module TextRoundTrip {
  import opened Scanner
  import opened ScannerLaws

  // ---- Splitting and joining ---------------------------------------------

  /** The line boundaries of Python's `str.splitlines`. */
  predicate IsBreak(c: char) {
    var n := c as int;
    10 <= n <= 13 || 28 <= n <= 30 || n == 0x85 || n == 0x2028 || n == 0x2029
  }

  predicate NoBreaks(s: string) {
    forall c | c in s :: !IsBreak(c)
  }

  function BreakAt(s: string): (k: nat)
    ensures k <= |s| && NoBreaks(s[..k])
    ensures k < |s| ==> IsBreak(s[k])
  {
    if s == "" || IsBreak(s[0]) then 0 else
      var k := BreakAt(s[1..]);
      assert s[..k + 1] == [s[0]] + s[1..][..k];
      k + 1
  }

  /** A carriage return and line feed together are one boundary; a final boundary opens no new line. */
  function SplitLines(s: string): (lines: seq<string>)
    ensures forall l | l in lines :: NoBreaks(l)
  {
    if s == "" then []
    else
      var k := BreakAt(s);
      if k == |s| then [s[..k]]
      else
        var next := if s[k] == '\r' && k + 1 < |s| && s[k + 1] == '\n' then k + 2 else k + 1;
        [s[..k]] + SplitLines(s[next..])
  }

  function JoinLines(lines: seq<string>): string {
    if lines == [] then ""
    else if |lines| == 1 then lines[0]
    else lines[0] + "\n" + JoinLines(lines[1..])
  }

  lemma {:induction false} BreakAtFirst(s: string, t: string)
    requires NoBreaks(s) && t != "" && IsBreak(t[0])
    ensures BreakAt(s + t) == |s|
  {
    if s == "" {
      assert s + t == t;
    } else {
      assert s[0] in s;
      assert (s + t)[1..] == s[1..] + t;
      BreakAtFirst(s[1..], t);
    }
  }

  lemma {:induction false} BreakAtEnd(s: string)
    requires NoBreaks(s)
    ensures BreakAt(s) == |s|
  {
    forall i | 0 <= i < |s| ensures !IsBreak(s[i]) {
      assert s[i] in s;
    }
  }

  /** Splitting undoes joining, except that a last empty line is lost. */
  lemma {:induction false} SplitUndoesJoin(lines: seq<string>)
    requires forall l | l in lines :: NoBreaks(l)
    requires lines != [] ==> lines[|lines| - 1] != ""
    ensures SplitLines(JoinLines(lines)) == lines
  {
    if |lines| == 1 {
      BreakAtEnd(lines[0]);
      assert lines[0][..|lines[0]|] == lines[0];
    } else if |lines| > 1 {
      var first, rest := lines[0], JoinLines(lines[1..]);
      SplitUndoesJoin(lines[1..]);
      assert first + "\n" + rest == first + ("\n" + rest);
      BreakAtFirst(first, "\n" + rest);
      var s := first + "\n" + rest;
      assert s[..|first|] == first && s[|first|] == '\n' && s[|first| + 1..] == rest;
    }
  }

  /** One line boundary in front of `rest`: a carriage return and line feed, or a single one that is not the
      first half of these. */
  predicate IsBoundary(b: string, rest: string) {
    b == "\r\n" || (|b| == 1 && IsBreak(b[0]) && !(b == "\r" && rest != "" && rest[0] == '\n'))
  }

  /** Text is split at each boundary: the line in front of it, then the lines of what follows it; text without
      one is a single line. */
  lemma {:induction false} SplitAtBoundary(line: string, b: string, rest: string)
    requires NoBreaks(line) && IsBoundary(b, rest)
    ensures SplitLines(line + b + rest) == [line] + SplitLines(rest)
    ensures line != "" ==> SplitLines(line) == [line]
  {
    var s := line + b + rest;
    assert s == line + (b + rest);
    BreakAtFirst(line, b + rest);
    assert s[..|line|] == line && s[|line| + |b|..] == rest;
    assert |b| == 1 && rest != "" ==> s[|line| + 1] == rest[0];
    BreakAtEnd(line);
    assert line[..|line|] == line;
  }

  lemma {:induction false} JoinWithEmptyLine(a: seq<string>, b: seq<string>)
    requires a != [] && b != []
    ensures JoinLines(a + [""] + b) == JoinLines(a) + "\n\n" + JoinLines(b)
  {
    var whole := a + [""] + b;
    if |a| == 1 {
      assert whole[1..] == [""] + b;
      assert ([""] + b)[1..] == b;
    } else {
      assert whole[1..] == a[1..] + [""] + b;
      JoinWithEmptyLine(a[1..], b);
    }
  }

  // ---- Text of blocks ----------------------------------------------------

  function Raws(lines: seq<Line>): (raws: seq<string>)
    ensures |raws| == |lines| && forall i | 0 <= i < |lines| :: raws[i] == lines[i].raw
  {
    if lines == [] then [] else [lines[0].raw] + Raws(lines[1..])
  }

  function BlockText(block: Block): string {
    JoinLines(Raws(block.lines))
  }

  /** The texts of the blocks with an empty line between neighbours. */
  function BlocksText(blocks: seq<Block>): string {
    if blocks == [] then ""
    else if |blocks| == 1 then BlockText(blocks[0])
    else BlockText(blocks[0]) + "\n\n" + BlocksText(blocks[1..])
  }

  function LexAll(lex: string -> Line, raws: seq<string>): (lines: seq<Line>)
    ensures |lines| == |raws| && forall i | 0 <= i < |raws| :: lines[i] == lex(raws[i])
  {
    seq(|raws|, i requires 0 <= i < |raws| => lex(raws[i]))
  }

  lemma {:induction false} TextOfJoinedBlocks(blocks: seq<Block>)
    requires forall b | b in blocks :: b.lines != []
    ensures BlocksText(blocks) == JoinLines(Raws(JoinBlocks(blocks)))
    ensures blocks != [] ==> JoinBlocks(blocks) != []
  {
    if |blocks| > 1 {
      var a, b := blocks[0].lines, JoinBlocks(blocks[1..]);
      TextOfJoinedBlocks(blocks[1..]);
      assert Raws(a + [BLANK_LINE] + b) == Raws(a) + [""] + Raws(b);
      JoinWithEmptyLine(Raws(a), Raws(b));
    }
  }

  // ---- Lines of a run ----------------------------------------------------

  /** In a body whose last line is not blank, no block ends in a blank line. */
  lemma {:induction false} LastLineOfBlock(s: seq<Line>)
    requires s != [] && s[0].Text? && s[|s| - 1].Text?
    ensures s[BlockLen(s) - 1].Text?
  {
    if BlockLen(s) > 1 {
      match KindOf(s) {
        case Code => LastLineOfFence(s[1..], [Opener(s[0])]);
        case HeadingKind(_, _) =>
        case Table => LastLineOfTable(s[2..]);
        case List => LastLineOfList(s[1..]);
        case Paragraph => LastLineOfParagraph(s[1..]);
      }
    }
  }

  lemma {:induction false} LastLineOfFence(s: seq<Line>, stack: seq<Open>)
    requires s != [] && stack != [] && s[|s| - 1].Text?
    ensures s[FenceLen(s, stack) - 1].Text?
  {
    var next := StackStep(stack, s[0]);
    if next != [] && |s| > 1 {
      LastLineOfFence(s[1..], next);
    }
  }

  lemma {:induction false} LastLineOfTable(s: seq<Line>)
    ensures TableTail(s) > 0 ==> s[TableTail(s) - 1].Text?
  {
    if s != [] && s[0].HasPipe() {
      LastLineOfTable(s[1..]);
    }
  }

  lemma {:induction false} LastLineOfList(s: seq<Line>)
    requires s != [] ==> s[|s| - 1].Text?
    ensures ListTail(s) > 0 ==> s[ListTail(s) - 1].Text?
  {
    if s != [] && ContinuesList(s) && |s| > 1 {
      LastLineOfList(s[1..]);
      assert s[0].Blank? ==> ContinuesList(s[1..]);
    }
  }

  lemma {:induction false} LastLineOfParagraph(s: seq<Line>)
    ensures ParagraphTail(s) > 0 ==> s[ParagraphTail(s) - 1].Text?
  {
    if s != [] && s[0].Text? && !StartsBlock(s) {
      LastLineOfParagraph(s[1..]);
    }
  }

  predicate EndsInText(lines: seq<Line>) {
    lines != [] && lines[|lines| - 1].Text?
  }

  /** Every block's lines are lines of the body and end in text. */
  lemma {:induction false} BlockLinesAreBodyLines(s: seq<Line>)
    requires s != [] ==> s[|s| - 1].Text?
    ensures forall b | b in Scan(s) :: EndsInText(b.lines) && forall l | l in b.lines :: l in s
  {
    if s != [] {
      if s[0].Blank? {
        BlockLinesAreBodyLines(s[1..]);
      } else {
        var k := BlockLen(s);
        LastLineOfBlock(s);
        BlockLinesAreBodyLines(s[k..]);
        assert forall l | l in s[k..] :: l in s;
      }
    }
  }

  lemma {:induction false} JoinedLines(blocks: seq<Block>, s: seq<Line>)
    requires forall b | b in blocks :: EndsInText(b.lines) && forall l | l in b.lines :: l in s
    ensures forall l | l in JoinBlocks(blocks) :: l == BLANK_LINE || l in s
    ensures blocks != [] ==> EndsInText(JoinBlocks(blocks))
  {
    if |blocks| == 1 {
      assert blocks[0] in blocks;
    } else if |blocks| > 1 {
      assert blocks[0] in blocks;
      JoinedLines(blocks[1..], s);
    }
  }

  // ---- The round trip ----------------------------------------------------

  /** `lex` keeps the text of a line, and an empty line is blank and unindented. */
  ghost predicate Recognises(lex: string -> Line) {
    (forall raw :: lex(raw).raw == raw) && lex("") == BLANK_LINE
  }

  function ScanText(lex: string -> Line, body: string): seq<Block> {
    Scan(LexAll(lex, SplitLines(body)))
  }

  /** Text made of recognised lines, the last one not blank, scans as those lines do. */
  lemma {:induction false} TextScansAsLines(lex: string -> Line, raws: seq<string>, lines: seq<Line>)
    requires Recognises(lex) && forall r | r in raws :: NoBreaks(r)
    requires forall l | l in lines :: l == BLANK_LINE || l in LexAll(lex, raws)
    requires lines != [] ==> EndsInText(lines)
    ensures ScanText(lex, JoinLines(Raws(lines))) == Scan(lines)
  {
    forall i | 0 <= i < |lines|
      ensures NoBreaks(lines[i].raw) && lex(lines[i].raw) == lines[i]
    {
      LineIsRecognised(lex, raws, lines[i]);
    }
    assert lines != [] ==> Raws(lines)[|lines| - 1] != "";
    SplitUndoesJoin(Raws(lines));
    assert LexAll(lex, Raws(lines)) == lines;
  }

  /** The joined lines of a run of blocks are lines of the body and blank lines, and end in text. */
  lemma {:induction false} RunLines(lines: seq<Line>, a: nat, b: nat)
    requires lines != [] ==> EndsInText(lines)
    requires a <= b <= |Scan(lines)|
    ensures var joined := JoinBlocks(Scan(lines)[a..b]);
            && (forall l | l in joined :: l == BLANK_LINE || l in lines)
            && (joined != [] ==> EndsInText(joined))
            && BlocksText(Scan(lines)[a..b]) == JoinLines(Raws(joined))
  {
    var run := Scan(lines)[a..b];
    BlockLinesAreBodyLines(lines);
    assert forall block | block in run :: block in Scan(lines);
    JoinedLines(run, lines);
    TextOfJoinedBlocks(run);
  }

  /** Whatever the recognisers decide about each line: in a body that does not end in a blank line,
      the text of a run of blocks scans back to that run if and only if no list fuses with its
      neighbour. */
  lemma {:induction false} SectionTextRoundTrip(lex: string -> Line, body: string, a: nat, b: nat)
    requires Recognises(lex)
    requires body != "" ==> EndsInText(LexAll(lex, SplitLines(body)))
    requires a <= b <= |ScanText(lex, body)|
    ensures var run := ScanText(lex, body)[a..b];
            ScanText(lex, BlocksText(run)) == run <==> NoneFuse(run)
  {
    var raws := SplitLines(body);
    var lines := LexAll(lex, raws);
    RunLines(lines, a, b);
    TextScansAsLines(lex, raws, JoinBlocks(Scan(lines)[a..b]));
    PrintScanRoundTrip(lines, a, b);
  }

  lemma {:induction false} LineIsRecognised(lex: string -> Line, raws: seq<string>, line: Line)
    requires Recognises(lex) && forall r | r in raws :: NoBreaks(r)
    requires line == BLANK_LINE || line in LexAll(lex, raws)
    ensures NoBreaks(line.raw) && lex(line.raw) == line
  {
    if line != BLANK_LINE {
      var lines := LexAll(lex, raws);
      var i :| 0 <= i < |lines| && lines[i] == line;
      assert raws[i] in raws;
    }
  }
}
