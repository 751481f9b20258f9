/** What the blocks of a document are, said of its lines alone: each block is a maximal run by its own
    kind's rule, fences nest like brackets, and only blank lines lie between. The scan is the one way to
    cut a document so. */
module ScannerSpec {
  import opened Wrappers
  import opened Scanner

  // ---- Fences as nested brackets -----------------------------------------

  /** A bare fence of the opener's mark that is at least as long. */
  predicate ClosesFence(line: Line, open: Open) {
    line.Text? && line.fence.Some? && line.fence.value.mark == open.mark && line.fence.value.info == "" &&
    line.fence.value.len >= open.len
  }

  /** A fence of the same mark with an info string. */
  predicate OpensInside(line: Line, open: Open) {
    line.Text? && line.fence.Some? && line.fence.value.mark == open.mark && line.fence.value.info != ""
  }

  /** The lines that an open fence takes: content and whole nested fences, up to and including its closer. */
  function NestLen(s: seq<Line>, open: Open): (k: nat)
    ensures k <= |s|
    decreases |s|
  {
    if s == [] then 0
    else if ClosesFence(s[0], open) then 1
    else if OpensInside(s[0], open) then
      var inner := 1 + NestLen(s[1..], Open(open.mark, s[0].fence.value.len));
      inner + NestLen(s[inner..], open)
    else 1 + NestLen(s[1..], open)
  }

  lemma {:induction false} PopKeepsRest(below: seq<Open>, top: Open)
    ensures (below + [top])[..|below + [top]| - 1] == below
  {
  }

  /** An open fence takes its nested extent, and what is left goes to the fences below it. */
  lemma {:induction false} StackNests(s: seq<Line>, below: seq<Open>, top: Open)
    ensures FenceLen(s, below + [top]) == NestLen(s, top) + FenceLen(s[NestLen(s, top)..], below)
    decreases |s|
  {
    var stack := below + [top];
    if s != [] {
      assert FenceLen(s, stack) == 1 + FenceLen(s[1..], StackStep(stack, s[0]));
      if ClosesFence(s[0], top) {
        PopKeepsRest(below, top);
      } else if OpensInside(s[0], top) {
        NestedFence(s, below, top);
      } else {
        assert StackStep(stack, s[0]) == stack;
        StackNests(s[1..], below, top);
        assert s[1..][NestLen(s[1..], top)..] == s[NestLen(s, top)..];
      }
    }
  }

  lemma {:induction false} NestedFence(s: seq<Line>, below: seq<Open>, top: Open)
    requires s != [] && OpensInside(s[0], top)
    ensures FenceLen(s, below + [top]) == NestLen(s, top) + FenceLen(s[NestLen(s, top)..], below)
    decreases |s|, 0
  {
    var stack, inner := below + [top], Open(top.mark, s[0].fence.value.len);
    var k := NestLen(s[1..], inner);
    assert StackStep(stack, s[0]) == stack + [inner];
    StackNests(s[1..], stack, inner);
    assert s[1..][k..] == s[1 + k..];
    StackNests(s[1 + k..], below, top);
    assert s[1 + k..][NestLen(s[1 + k..], top)..] == s[NestLen(s, top)..];
  }

  /** The stack of open fences ends a block where bracket matching does. */
  lemma {:induction false} StackIsNesting(s: seq<Line>, open: Open)
    ensures FenceLen(s, [open]) == NestLen(s, open)
  {
    assert [] + [open] == [open];
    StackNests(s, [], open);
  }

  // ---- One block ---------------------------------------------------------

  /** The first `k` lines are a block of this kind, and not one line fewer or more. */
  predicate WellCut(s: seq<Line>, k: nat, kind: Kind)
    requires 0 < k <= |s| && s[0].Text?
  {
    match kind
    case Code => s[0].OpensFence() && k == 1 + NestLen(s[1..], Open(s[0].fence.value.mark, s[0].fence.value.len))
    case HeadingKind(level, text) => !s[0].OpensFence() && s[0].heading == Some(Heading(level, text)) && k == 1
    case Table =>
      && !s[0].OpensFence() && !s[0].IsHeading() && TableStartsAt(s, 0)
      && k >= 2 && (forall j | 2 <= j < k :: s[j].HasPipe())
      && (k == |s| || !s[k].HasPipe())
    case List =>
      && !s[0].OpensFence() && !s[0].IsHeading() && !TableStartsAt(s, 0) && s[0].IsListItem()
      && (forall j | 1 <= j < k :: ListGoesOnAt(s, j))
      && (k == |s| || !ListGoesOnAt(s, k))
    case Paragraph =>
      && !BlockStartsAt(s, 0)
      && (forall j | 1 <= j < k :: s[j].Text? && !BlockStartsAt(s, j))
      && (k == |s| || s[k].Blank? || BlockStartsAt(s, k))
  }

  lemma {:induction false} TableTailIsRun(s: seq<Line>)
    ensures forall j | 0 <= j < TableTail(s) :: s[j].HasPipe()
    ensures TableTail(s) == |s| || !s[TableTail(s)].HasPipe()
  {
    if s != [] && s[0].HasPipe() {
      TableTailIsRun(s[1..]);
      forall j | 0 <= j < TableTail(s)
        ensures s[j].HasPipe()
      {
        assert j > 0 ==> s[1..][j - 1] == s[j];
      }
    }
  }

  lemma {:induction false} ListTailIsRun(s: seq<Line>, i: nat)
    requires i <= |s|
    ensures forall j | i <= j < i + ListTail(s[i..]) :: ListGoesOnAt(s, j)
    ensures i + ListTail(s[i..]) == |s| || !ListGoesOnAt(s, i + ListTail(s[i..]))
    decreases |s| - i
  {
    if i < |s| {
      assert s[i..][1..] == s[i + 1..];
      assert ContinuesList(s[i..]) <==> ListGoesOnAt(s, i);
      ListTailIsRun(s, i + 1);
    }
  }

  lemma {:induction false} ParagraphTailIsRun(s: seq<Line>, i: nat)
    requires i <= |s|
    ensures var e := i + ParagraphTail(s[i..]);
            && (forall j | i <= j < e :: s[j].Text? && !BlockStartsAt(s, j))
            && (e == |s| || s[e].Blank? || BlockStartsAt(s, e))
    decreases |s| - i
  {
    if i < |s| {
      assert s[i..][1..] == s[i + 1..];
      assert StartsBlock(s[i..]) <==> BlockStartsAt(s, i);
      ParagraphTailIsRun(s, i + 1);
    }
  }

  /** What the scanner takes is such a block. */
  lemma {:induction false} BlockIsWellCut(s: seq<Line>)
    requires s != [] && s[0].Text?
    ensures WellCut(s, BlockLen(s), KindOf(s))
  {
    match KindOf(s)
    case Code => StackIsNesting(s[1..], Opener(s[0]));
    case HeadingKind(_, _) =>
    case Table => TableIsWellCut(s);
    case List => ListTailIsRun(s, 1);
    case Paragraph => ParagraphTailIsRun(s, 1);
  }

  lemma {:induction false} TableIsWellCut(s: seq<Line>)
    requires s != [] && s[0].Text? && KindOf(s).Table?
    ensures WellCut(s, BlockLen(s), Table)
  {
    TableTailIsRun(s[2..]);
    forall j | 2 <= j < BlockLen(s)
      ensures s[j].HasPipe()
    {
      assert s[2..][j - 2] == s[j];
    }
  }

  lemma {:induction false} LongerIsNotWellCut(s: seq<Line>, k: nat, l: nat, kind: Kind)
    requires 0 < k < l <= |s| && s[0].Text? && WellCut(s, k, kind)
    ensures !WellCut(s, l, kind)
  {
    match kind
    case Table => assert !s[k].HasPipe();
    case List => assert !ListGoesOnAt(s, k);
    case Paragraph => assert s[k].Blank? || BlockStartsAt(s, k);
    case _ =>
  }

  /** There is one way to cut a block at the front. */
  lemma {:induction false} WellCutIsUnique(s: seq<Line>, k: nat, kind: Kind, l: nat, other: Kind)
    requires 0 < k <= |s| && 0 < l <= |s| && s[0].Text? && WellCut(s, k, kind) && WellCut(s, l, other)
    ensures k == l && kind == other
  {
    assert kind == other;
    if k < l {
      LongerIsNotWellCut(s, k, l, kind);
    } else if l < k {
      LongerIsNotWellCut(s, l, k, kind);
    }
  }

  // ---- A document --------------------------------------------------------

  /** The blocks are cut one after another from the lines, blank lines between them skipped. */
  predicate Cuts(s: seq<Line>, blocks: seq<Block>) {
    if s == [] then blocks == []
    else if s[0].Blank? then Cuts(s[1..], blocks)
    else
      blocks != [] &&
      var k := |blocks[0].lines|;
      0 < k <= |s| && blocks[0].lines == s[..k] && WellCut(s, k, blocks[0].kind) && Cuts(s[k..], blocks[1..])
  }

  /** The scan cuts every document so, and nothing else does. */
  lemma {:induction false} ScanIsTheOnlyCut(s: seq<Line>, blocks: seq<Block>)
    ensures Cuts(s, blocks) <==> blocks == Scan(s)
    decreases |s|
  {
    if s == [] {
    } else if s[0].Blank? {
      ScanIsTheOnlyCut(s[1..], blocks);
    } else {
      var k := BlockLen(s);
      var first := Block(KindOf(s), s[..k]);
      BlockIsWellCut(s);
      ScanIsTheOnlyCut(s[k..], Scan(s[k..]));
      assert Scan(s) == [first] + Scan(s[k..]) && ([first] + Scan(s[k..]))[1..] == Scan(s[k..]);
      if Cuts(s, blocks) {
        WellCutIsUnique(s, k, KindOf(s), |blocks[0].lines|, blocks[0].kind);
        ScanIsTheOnlyCut(s[k..], blocks[1..]);
        assert blocks == [blocks[0]] + blocks[1..];
      }
    }
  }
}
