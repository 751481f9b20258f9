/** What the scan of a body guarantees: no content is lost, fences close by the CommonMark rule
    where no nested opener occurs, and printing blocks and scanning them again gives the same blocks. */
module ScannerLaws {
  import opened Wrappers
  import opened Scanner
  import opened ScannerSpec

  // ---- Conservation ------------------------------------------------------

  /** The runs of skipped lines: one before each block, and one after the last. */
  function Gaps(s: seq<Line>): (gaps: seq<seq<Line>>)
    ensures |gaps| == |Scan(s)| + 1
  {
    if s == [] then [[]]
    else if s[0].Blank? then
      var rest := Gaps(s[1..]);
      [[s[0]] + rest[0]] + rest[1..]
    else [[]] + Gaps(s[BlockLen(s)..])
  }

  /** gap, block, gap, block, ..., gap */
  function Weave(gaps: seq<seq<Line>>, blocks: seq<Block>): seq<Line>
    requires |gaps| == |blocks| + 1
  {
    if blocks == [] then gaps[0] else gaps[0] + blocks[0].lines + Weave(gaps[1..], blocks[1..])
  }

  predicate AllBlank(s: seq<Line>) {
    forall l | l in s :: l.Blank?
  }

  lemma {:induction false} WeaveSkips(line: Line, gaps: seq<seq<Line>>, blocks: seq<Block>)
    requires |gaps| == |blocks| + 1
    ensures Weave([[line] + gaps[0]] + gaps[1..], blocks) == [line] + Weave(gaps, blocks)
  {
    assert ([[line] + gaps[0]] + gaps[1..])[1..] == gaps[1..];
  }

  lemma {:induction false} WeaveBlock(block: Block, gaps: seq<seq<Line>>, blocks: seq<Block>)
    requires |gaps| == |blocks| + 1
    ensures Weave([[]] + gaps, [block] + blocks) == block.lines + Weave(gaps, blocks)
  {
    assert ([[]] + gaps)[1..] == gaps && ([block] + blocks)[1..] == blocks;
  }

  lemma {:induction false} GapsAreBlank(s: seq<Line>)
    ensures forall g | g in Gaps(s) :: AllBlank(g)
  {
    if s != [] {
      if s[0].Blank? {
        GapsAreBlank(s[1..]);
        assert AllBlank(Gaps(s[1..])[0]);
      } else {
        GapsAreBlank(s[BlockLen(s)..]);
      }
    }
  }

  lemma {:induction false} RebuildSkip(s: seq<Line>)
    requires s != [] && s[0].Blank? && Weave(Gaps(s[1..]), Scan(s[1..])) == s[1..]
    ensures Weave(Gaps(s), Scan(s)) == s
  {
    WeaveSkips(s[0], Gaps(s[1..]), Scan(s[1..]));
  }

  lemma {:induction false} RebuildBlock(s: seq<Line>)
    requires s != [] && s[0].Text?
    requires Weave(Gaps(s[BlockLen(s)..]), Scan(s[BlockLen(s)..])) == s[BlockLen(s)..]
    ensures Weave(Gaps(s), Scan(s)) == s
  {
    var k := BlockLen(s);
    WeaveBlock(Block(KindOf(s), s[..k]), Gaps(s[k..]), Scan(s[k..]));
    assert s[..k] + s[k..] == s;
  }

  lemma {:induction false} WeaveRebuilds(s: seq<Line>)
    ensures Weave(Gaps(s), Scan(s)) == s
  {
    if s != [] {
      if s[0].Blank? {
        WeaveRebuilds(s[1..]);
        RebuildSkip(s);
      } else {
        WeaveRebuilds(s[BlockLen(s)..]);
        RebuildBlock(s);
      }
    }
  }

  /** Blocks and blank gaps together are the body, in order: no content line is lost, repeated or moved. */
  lemma {:induction false} ScanConservesLines(s: seq<Line>)
    ensures Weave(Gaps(s), Scan(s)) == s
    ensures forall g | g in Gaps(s) :: AllBlank(g)
  {
    WeaveRebuilds(s);
    GapsAreBlank(s);
  }

  /** Every block begins with a line of text. */
  lemma {:induction false} BlocksBeginWithText(s: seq<Line>)
    ensures forall b | b in Scan(s) :: b.lines != [] && b.lines[0].Text?
  {
    if s != [] {
      BlocksBeginWithText(if s[0].Blank? then s[1..] else s[BlockLen(s)..]);
    }
  }

  // ---- Fences ------------------------------------------------------------

  /** Section 4.5 of CommonMark, without its limit on the closer's indentation: lines up to and
      including the first bare fence of the opener's mark that is at least as long. */
  function FlatLen(s: seq<Line>, open: Open): (k: nat)
    ensures k <= |s|
  {
    if s == [] then 0 else if ClosesFence(s[0], open) then 1 else 1 + FlatLen(s[1..], open)
  }

  /** The stack never closes a block earlier than the flat rule does. */
  lemma {:induction false} StackClosesNoEarlier(s: seq<Line>, open: Open, inner: seq<Open>)
    requires forall o | o in inner :: o.mark == open.mark
    ensures FlatLen(s, open) <= FenceLen(s, [open] + inner)
  {
    if s != [] {
      var stack := [open] + inner;
      assert stack[|stack| - 1].mark == open.mark;
      if !ClosesFence(s[0], open) {
        var next := StackStep(stack, s[0]);
        if inner != [] {
          assert stack[..|stack| - 1] == [open] + inner[..|inner| - 1];
        }
        assert next == [open] + next[1..];
        StackClosesNoEarlier(s[1..], open, next[1..]);
      }
    }
  }

  /** Without a nested opener before the flat closer the two rules agree. */
  lemma {:induction false} StackIsFlatWithoutNesting(s: seq<Line>, open: Open)
    requires forall l | l in s[..FlatLen(s, open)] :: !OpensInside(l, open)
    ensures FenceLen(s, [open]) == FlatLen(s, open)
  {
    if s != [] {
      assert s[0] == s[..FlatLen(s, open)][0];
      if ClosesFence(s[0], open) {
        assert StackStep([open], s[0]) == [];
      } else {
        assert !OpensInside(s[0], open) && StackStep([open], s[0]) == [open];
        assert s[1..][..FlatLen(s[1..], open)] == s[..FlatLen(s, open)][1..];
        StackIsFlatWithoutNesting(s[1..], open);
      }
    }
  }

  /** The open fences after some lines; none, once the block has ended. */
  function StackAfter(stack: seq<Open>, lines: seq<Line>): seq<Open>
    decreases |lines|
  {
    if stack == [] || lines == [] then stack else StackAfter(StackStep(stack, lines[0]), lines[1..])
  }

  lemma {:induction false} StepAtFlatCloser(open: Open, inner: seq<Open>, line: Line)
    requires ClosesFence(line, open) && forall o | o in inner :: o.mark == open.mark
    ensures StackStep([open] + inner, line) == [] <==> inner == []
  {
    var stack := [open] + inner;
    assert stack[|stack| - 1].mark == open.mark;
  }

  lemma {:induction false} StepElsewhere(open: Open, inner: seq<Open>, line: Line) returns (next: seq<Open>)
    requires !ClosesFence(line, open) && forall o | o in inner :: o.mark == open.mark
    ensures StackStep([open] + inner, line) == [open] + next && forall o | o in next :: o.mark == open.mark
  {
    var stack := [open] + inner;
    assert stack[|stack| - 1].mark == open.mark;
    if inner != [] {
      assert stack[..|stack| - 1] == [open] + inner[..|inner| - 1];
    }
    next := StackStep(stack, line)[1..];
  }

  lemma {:induction false} StackIsFlatFrom(s: seq<Line>, open: Open, inner: seq<Open>)
    requires forall o | o in inner :: o.mark == open.mark
    ensures FenceLen(s, [open] + inner) == FlatLen(s, open) <==>
            FlatLen(s, open) == |s| || StackAfter([open] + inner, s[..FlatLen(s, open) - 1]) == [open]
  {
    if s != [] {
      if ClosesFence(s[0], open) {
        StepAtFlatCloser(open, inner, s[0]);
      } else {
        var next := StepElsewhere(open, inner, s[0]);
        StackIsFlatFrom(s[1..], open, next);
        if s[1..] != [] {
          assert s[..FlatLen(s, open) - 1][1..] == s[1..][..FlatLen(s[1..], open) - 1];
        }
      }
    }
  }

  /** A block ends where the flat rule ends it if and only if that is the end of the input, or every fence
      opened inside it has been closed by then. */
  lemma {:induction false} StackIsFlatIffNestingClosed(s: seq<Line>, open: Open)
    ensures FenceLen(s, [open]) == FlatLen(s, open) <==>
            FlatLen(s, open) == |s| || StackAfter([open], s[..FlatLen(s, open) - 1]) == [open]
  {
    assert [open] + [] == [open];
    StackIsFlatFrom(s, open, []);
  }

  /** A fence line at the margin. */
  function FenceLine(mark: char, len: nat, info: string): Line {
    Text(seq(len, _ => mark) + info, false, true, Some(Fence(mark, len, info)), None, false, false, false)
  }

  /** A fence of the same length opened inside takes the closer that the flat rule would have taken. */
  lemma {:induction false} NestingDefersTheCloser()
    ensures var s := [FenceLine('`', 3, "bash"), FenceLine('`', 3, ""), FenceLine('`', 3, "")];
            FlatLen(s, Open('`', 3)) == 2 && FenceLen(s, [Open('`', 3)]) == 3
  {
    var open := Open('`', 3);
    var s := [FenceLine('`', 3, "bash"), FenceLine('`', 3, ""), FenceLine('`', 3, "")];
    assert s[1..] == [FenceLine('`', 3, ""), FenceLine('`', 3, "")];
    assert s[1..][1..] == [FenceLine('`', 3, "")];
    assert s[1..][1..][1..] == [];
    assert FlatLen(s[1..], open) == 1;
    assert StackStep([open], s[0]) == [open, open];
    assert StackStep([open, open], s[1]) == [open];
    assert StackStep([open], s[2]) == [];
    assert FenceLen(s[1..][1..], [open]) == 1;
    assert FenceLen(s[1..], [open, open]) == 2;
  }

  // ---- Round trip --------------------------------------------------------

  const BLANK_LINE: Line := Blank("", false)

  /** The blocks' lines with one blank line between neighbours. */
  function JoinBlocks(blocks: seq<Block>): seq<Line> {
    if blocks == [] then []
    else if |blocks| == 1 then blocks[0].lines
    else blocks[0].lines + [BLANK_LINE] + JoinBlocks(blocks[1..])
  }

  /** A list followed at once by a block whose first line is a list item: the two fuse when printed. */
  predicate Fuses(a: Block, b: Block) {
    a.kind.List? && b.lines != [] && b.lines[0].IsListItem()
  }

  predicate NoneFuse(blocks: seq<Block>) {
    forall i | 0 <= i < |blocks| - 1 :: !Fuses(blocks[i], blocks[i + 1])
  }

  lemma {:induction false} ClosesWhenLinesRemain(s: seq<Line>, stack: seq<Open>)
    requires FenceLen(s, stack) < |s|
    ensures Closes(s, stack)
  {
    if stack != [] {
      ClosesWhenLinesRemain(s[1..], StackStep(stack, s[0]));
    }
  }

  lemma {:induction false} FenceIsLocal(s: seq<Line>, stack: seq<Open>, t: seq<Line>)
    requires t == [] || Closes(s, stack)
    ensures FenceLen(s[..FenceLen(s, stack)] + t, stack) == FenceLen(s, stack)
  {
    if s != [] && stack != [] {
      var next := StackStep(stack, s[0]);
      var k := FenceLen(s[1..], next);
      FenceIsLocal(s[1..], next, t);
      assert (s[..k + 1] + t)[1..] == s[1..][..k] + t;
    }
  }

  lemma {:induction false} TableIsLocal(s: seq<Line>, t: seq<Line>)
    requires t == [] || t[0].Blank?
    ensures TableTail(s[..TableTail(s)] + t) == TableTail(s)
  {
    if s != [] && s[0].HasPipe() {
      var k := TableTail(s[1..]);
      TableIsLocal(s[1..], t);
      assert (s[..k + 1] + t)[1..] == s[1..][..k] + t;
    }
  }

  lemma {:induction false} ParagraphIsLocal(s: seq<Line>, t: seq<Line>)
    requires t == [] || t[0].Blank?
    ensures ParagraphTail(s[..ParagraphTail(s)] + t) == ParagraphTail(s)
  {
    if s != [] && s[0].Text? && !StartsBlock(s) {
      var k := ParagraphTail(s[1..]);
      ParagraphIsLocal(s[1..], t);
      var u := s[..k + 1] + t;
      assert u[1..] == s[1..][..k] + t;
      assert k > 0 ==> u[1] == s[1];
      assert k == 0 && t != [] ==> u[1] == t[0];
      assert !StartsBlock(u);
    }
  }

  /** A list that stops before the end of its lines does not end in a blank line. */
  lemma {:induction false} ListIsLocal(s: seq<Line>, t: seq<Line>)
    requires t == [] || (ListTail(s) < |s| && |t| > 1 && t[0].Blank? && !t[1].IsListItem())
    ensures ListTail(s[..ListTail(s)] + t) == ListTail(s)
  {
    if s != [] && ContinuesList(s) {
      var k := ListTail(s[1..]);
      ListIsLocal(s[1..], t);
      var u := s[..k + 1] + t;
      assert u[1..] == s[1..][..k] + t;
      assert k > 0 ==> u[1] == s[1];
      assert k == 0 && s[0].Blank? ==> |s| == 1;
      assert ContinuesList(u);
    }
  }

  lemma {:induction false} ListRunsOn(s: seq<Line>, t: seq<Line>)
    requires ListTail(s) < |s| && |t| > 1 && t[0].Blank? && t[1].IsListItem()
    ensures ListTail(s[..ListTail(s)] + t) > ListTail(s)
  {
    if ContinuesList(s) {
      var k := ListTail(s[1..]);
      ListRunsOn(s[1..], t);
      var u := s[..k + 1] + t;
      assert u[1..] == s[1..][..k] + t;
      assert k > 0 ==> u[1] == s[1];
      assert s[0].Blank? ==> ContinuesList(s[1..]);
      assert ContinuesList(u);
    }
  }

  lemma {:induction false} KindIsLocal(s: seq<Line>, t: seq<Line>)
    requires s != [] && s[0].Text?
    requires t == [] || t[0].Blank?
    ensures KindOf(s[..BlockLen(s)] + t) == KindOf(s)
  {
    var k := BlockLen(s);
    var u := s[..k] + t;
    assert k > 1 ==> u[1] == s[1];
    assert k == 1 && t != [] ==> u[1] == t[0];
  }

  lemma {:induction false} CodeIsLocal(s: seq<Line>, t: seq<Line>)
    requires s != [] && s[0].Text? && KindOf(s).Code?
    requires t == [] || (t[0].Blank? && BlockLen(s) < |s|)
    ensures var u := s[..BlockLen(s)] + t; KindOf(u).Code? && BlockLen(u) == BlockLen(s)
  {
    var k, stack := BlockLen(s), [Opener(s[0])];
    assert (s[..k] + t)[1..] == s[1..][..k - 1] + t;
    if t != [] {
      ClosesWhenLinesRemain(s[1..], stack);
    }
    FenceIsLocal(s[1..], stack, t);
  }

  lemma {:induction false} TableBlockIsLocal(s: seq<Line>, t: seq<Line>)
    requires s != [] && s[0].Text? && KindOf(s).Table? && (t == [] || t[0].Blank?)
    ensures var u := s[..BlockLen(s)] + t; KindOf(u).Table? && BlockLen(u) == BlockLen(s)
  {
    var k := BlockLen(s);
    KindIsLocal(s, t);
    assert (s[..k] + t)[2..] == s[2..][..k - 2] + t;
    TableIsLocal(s[2..], t);
  }

  lemma {:induction false} TextBlockIsLocal(s: seq<Line>, t: seq<Line>)
    requires s != [] && s[0].Text? && (KindOf(s).List? || KindOf(s).Paragraph?)
    requires t == [] || (t[0].Blank? && BlockLen(s) < |s|)
    requires t != [] && KindOf(s).List? ==> |t| > 1 && !t[1].IsListItem()
    ensures var u := s[..BlockLen(s)] + t; KindOf(u) == KindOf(s) && BlockLen(u) == BlockLen(s)
  {
    var k := BlockLen(s);
    KindIsLocal(s, t);
    assert (s[..k] + t)[1..] == s[1..][..k - 1] + t;
    if KindOf(s).List? {
      ListIsLocal(s[1..], t);
    } else {
      ParagraphIsLocal(s[1..], t);
    }
  }

  /** A block's extent depends on its own lines only, as long as what follows is blank and does not
      extend a list. */
  lemma {:induction false} BlockIsLocal(s: seq<Line>, t: seq<Line>)
    requires s != [] && s[0].Text?
    requires t == [] || (t[0].Blank? && BlockLen(s) < |s|)
    requires t != [] && KindOf(s).List? ==> |t| > 1 && !t[1].IsListItem()
    ensures var u := s[..BlockLen(s)] + t; KindOf(u) == KindOf(s) && BlockLen(u) == BlockLen(s)
  {
    match KindOf(s) {
      case Code => CodeIsLocal(s, t);
      case HeadingKind(_, _) => KindIsLocal(s, t);
      case Table => TableBlockIsLocal(s, t);
      case List => TextBlockIsLocal(s, t);
      case Paragraph => TextBlockIsLocal(s, t);
    }
  }

  lemma {:induction false} FusedListGrows(s: seq<Line>, t: seq<Line>)
    requires s != [] && s[0].Text? && KindOf(s).List? && BlockLen(s) < |s|
    requires |t| > 1 && t[0].Blank? && t[1].IsListItem()
    ensures var u := s[..BlockLen(s)] + t; KindOf(u) == KindOf(s) && BlockLen(u) > BlockLen(s)
  {
    var k := BlockLen(s);
    KindIsLocal(s, t);
    assert (s[..k] + t)[1..] == s[1..][..k - 1] + t;
    ListRunsOn(s[1..], t);
  }

  lemma {:induction false} ScanBlockThen(s: seq<Line>, t: seq<Line>)
    requires s != [] && s[0].Text?
    requires t == [] || (t[0].Blank? && BlockLen(s) < |s|)
    requires t != [] && KindOf(s).List? ==> |t| > 1 && !t[1].IsListItem()
    ensures Scan(s[..BlockLen(s)] + t) == [Block(KindOf(s), s[..BlockLen(s)])] + Scan(t)
  {
    var k := BlockLen(s);
    var u := s[..k] + t;
    BlockIsLocal(s, t);
    assert u[..k] == s[..k] && u[k..] == t;
  }

  lemma {:induction false} JoinStartsWithFirstLine(blocks: seq<Block>)
    requires blocks != [] && blocks[0].lines != []
    ensures JoinBlocks(blocks) != [] && JoinBlocks(blocks)[0] == blocks[0].lines[0]
  {
  }

  /** What is left of the body after its first `a` blocks. */
  function After(s: seq<Line>, a: nat): seq<Line> {
    if s == [] || a == 0 then s
    else if s[0].Blank? then After(s[1..], a)
    else After(s[BlockLen(s)..], a - 1)
  }

  lemma {:induction false} ScanAfter(s: seq<Line>, a: nat)
    requires a <= |Scan(s)|
    ensures Scan(After(s, a)) == Scan(s)[a..]
  {
    if s != [] && a > 0 {
      if s[0].Blank? {
        ScanAfter(s[1..], a);
      } else {
        var rest := s[BlockLen(s)..];
        ScanAfter(rest, a - 1);
        assert Scan(s)[a..] == Scan(rest)[a - 1..];
      }
    }
  }

  lemma {:induction false} PrefixRoundTrip(s: seq<Line>, run: seq<Block>)
    requires run <= Scan(s)
    ensures Scan(JoinBlocks(run)) == run <==> NoneFuse(run)
  {
    if run != [] {
      if s[0].Blank? {
        PrefixRoundTrip(s[1..], run);
      } else {
        var after, rest := s[BlockLen(s)..], run[1..];
        assert rest <= Scan(s)[1..] == Scan(after);
        PrefixRoundTrip(after, rest);
        FirstBlockNonEmpty(after, rest);
        assert run[0] == Scan(s)[0];
        assert run == [run[0]] + rest;
        RoundTripStep(s, rest);
      }
    }
  }

  /** Any contiguous run of a body's blocks, printed with one blank line between them and scanned
      again, gives exactly the same blocks if and only if no list of the run is directly followed
      by a block that begins with a list item. */
  lemma {:induction false} PrintScanRoundTrip(s: seq<Line>, a: nat, b: nat)
    requires a <= b <= |Scan(s)|
    ensures Scan(JoinBlocks(Scan(s)[a..b])) == Scan(s)[a..b] <==> NoneFuse(Scan(s)[a..b])
  {
    ScanAfter(s, a);
    assert Scan(s)[a..b] <= Scan(s)[a..];
    PrefixRoundTrip(After(s, a), Scan(s)[a..b]);
  }

  lemma {:induction false} FirstBlockNonEmpty(s: seq<Line>, rest: seq<Block>)
    requires rest <= Scan(s)
    ensures rest != [] ==> rest[0].lines != [] && s != []
  {
    BlocksBeginWithText(s);
    assert rest != [] ==> rest[0] in Scan(s);
  }

  lemma {:induction false} RoundTripStep(s: seq<Line>, rest: seq<Block>)
    requires s != [] && s[0].Text?
    requires rest != [] ==> rest[0].lines != [] && BlockLen(s) < |s|
    requires Scan(JoinBlocks(rest)) == rest <==> NoneFuse(rest)
    ensures var run := [Block(KindOf(s), s[..BlockLen(s)])] + rest;
            Scan(JoinBlocks(run)) == run <==> NoneFuse(run)
  {
    var first := Block(KindOf(s), s[..BlockLen(s)]);
    if rest == [] {
      ScanBlockThen(s, []);
      assert s[..BlockLen(s)] + [] == first.lines == JoinBlocks([first] + rest);
    } else {
      NoneFuseSplits(first, rest);
      FirstThenRest(s, rest);
    }
  }

  /** Scanning a printed run gives its first block back exactly when that block does not fuse. */
  lemma {:induction false} FirstThenRest(s: seq<Line>, rest: seq<Block>)
    requires s != [] && s[0].Text? && BlockLen(s) < |s|
    requires rest != [] && rest[0].lines != []
    ensures var first := Block(KindOf(s), s[..BlockLen(s)]);
            Scan(JoinBlocks([first] + rest)) == [first] + rest <==>
            !Fuses(first, rest[0]) && Scan(JoinBlocks(rest)) == rest
  {
    var k := BlockLen(s);
    var first := Block(KindOf(s), s[..k]);
    var t := [BLANK_LINE] + JoinBlocks(rest);
    JoinStartsWithFirstLine(rest);
    assert ([first] + rest)[1..] == rest;
    assert JoinBlocks([first] + rest) == s[..k] + t;
    assert t[1..] == JoinBlocks(rest);
    if Fuses(first, rest[0]) {
      FusedListGrows(s, t);
      assert Scan(s[..k] + t)[0].lines == (s[..k] + t)[..BlockLen(s[..k] + t)];
      assert |([first] + rest)[0].lines| == k;
    } else {
      ScanBlockThen(s, t);
      var scanned := Scan(JoinBlocks(rest));
      assert ([first] + scanned)[1..] == scanned;
    }
  }

  lemma {:induction false} NoneFuseSplits(first: Block, rest: seq<Block>)
    requires rest != []
    ensures NoneFuse([first] + rest) <==> !Fuses(first, rest[0]) && NoneFuse(rest)
  {
    var run := [first] + rest;
    if NoneFuse(run) {
      assert !Fuses(run[0], run[0 + 1]);
      forall i | 0 <= i < |rest| - 1 ensures !Fuses(rest[i], rest[i + 1]) {
        assert rest[i] == run[i + 1] && rest[i + 1] == run[i + 1 + 1];
        assert !Fuses(run[i + 1], run[i + 1 + 1]);
      }
    }
    if !Fuses(first, rest[0]) && NoneFuse(rest) {
      forall i | 0 <= i < |run| - 1 ensures !Fuses(run[i], run[i + 1]) {
        if i > 0 {
          assert run[i] == rest[i - 1] && run[i + 1] == rest[i - 1 + 1];
          assert !Fuses(rest[i - 1], rest[i - 1 + 1]);
        }
      }
    }
  }
}
