/** The line scanner that cuts a Markdown body into atomic blocks. */
module Scanner {
  import opened Wrappers

  // ---- Lines -------------------------------------------------------------

  type Level = n: nat | 1 <= n <= 6 witness 1

  /** A fence run at the start of a left-stripped line; `info` is what follows it, stripped. */
  datatype Fence = Fence(mark: char, len: nat, info: string)

  datatype Heading = Heading(level: Level, text: string)

  /** A line together with what the scanner's regular expressions decide about it.
      A blank line matches none of them, so it carries no facts but its indentation. */
  datatype Line =
    | Blank(raw: string, indented: bool)
    | Text(raw: string, indented: bool, atMargin: bool, fence: Option<Fence>, heading: Option<Heading>,
           listItem: bool, pipe: bool, separator: bool)
  {
    predicate OpensFence() {
      Text? && atMargin && fence.Some?
    }

    predicate IsHeading() {
      Text? && heading.Some?
    }

    predicate IsListItem() {
      Text? && listItem
    }

    predicate HasPipe() {
      Text? && pipe
    }

    predicate IsSeparator() {
      Text? && separator
    }
  }

  // ---- Blocks ------------------------------------------------------------

  datatype Kind = HeadingKind(level: Level, text: string) | Code | Table | List | Paragraph

  datatype Block = Block(kind: Kind, lines: seq<Line>)

  /** A header row is recognised only by the separator row below it. */
  predicate StartsTable(s: seq<Line>)
    requires s != []
  {
    s[0].HasPipe() && |s| > 1 && s[1].IsSeparator()
  }

  /** The order in which the scanner tries the block kinds on a non-blank first line. */
  function KindOf(s: seq<Line>): Kind
    requires s != [] && s[0].Text?
  {
    if s[0].OpensFence() then Code
    else if s[0].IsHeading() then HeadingKind(s[0].heading.value.level, s[0].heading.value.text)
    else if StartsTable(s) then Table
    else if s[0].IsListItem() then List
    else Paragraph
  }

  /** The test that ends a paragraph, made independently of the dispatch above. */
  predicate StartsBlock(s: seq<Line>)
    requires s != []
  {
    s[0].IsHeading() || s[0].OpensFence() || s[0].IsListItem() || StartsTable(s)
  }

  lemma {:induction false} StartsBlockAgreesWithDispatch(s: seq<Line>)
    requires s != [] && s[0].Text?
    ensures StartsBlock(s) <==> !KindOf(s).Paragraph?
  {
  }

  // ---- Fences ------------------------------------------------------------

  /** An open fence; the innermost one is the last of the stack. */
  datatype Open = Open(mark: char, len: nat)

  function StackStep(stack: seq<Open>, line: Line): seq<Open>
    requires stack != []
  {
    if line.Blank? || line.fence.None? then stack
    else
      var f, top := line.fence.value, stack[|stack| - 1];
      if f.mark != top.mark then stack
      else if f.info != "" then stack + [Open(f.mark, f.len)]
      else if f.len >= top.len then stack[..|stack| - 1]
      else stack
  }

  /** How many lines of `s` a code block takes once `stack` is open. */
  function FenceLen(s: seq<Line>, stack: seq<Open>): (k: nat)
    ensures k <= |s|
  {
    if s == [] || stack == [] then 0 else 1 + FenceLen(s[1..], StackStep(stack, s[0]))
  }

  /** Does the stack empty before the lines run out? */
  predicate Closes(s: seq<Line>, stack: seq<Open>) {
    stack == [] || (s != [] && Closes(s[1..], StackStep(stack, s[0])))
  }

  // ---- Block extents -----------------------------------------------------

  function TableTail(s: seq<Line>): (k: nat)
    ensures k <= |s|
  {
    if s != [] && s[0].HasPipe() then 1 + TableTail(s[1..]) else 0
  }

  predicate ContinuesList(s: seq<Line>)
    requires s != []
  {
    (s[0].IsListItem() || s[0].indented || s[0].Blank?) &&
    !(s[0].Blank? && |s| > 1 && !s[1].IsListItem())
  }

  function ListTail(s: seq<Line>): (k: nat)
    ensures k <= |s|
  {
    if s != [] && ContinuesList(s) then 1 + ListTail(s[1..]) else 0
  }

  function ParagraphTail(s: seq<Line>): (k: nat)
    ensures k <= |s|
  {
    if s != [] && s[0].Text? && !StartsBlock(s) then 1 + ParagraphTail(s[1..]) else 0
  }

  function Opener(line: Line): Open
    requires line.OpensFence()
  {
    Open(line.fence.value.mark, line.fence.value.len)
  }

  function BlockLen(s: seq<Line>): (k: nat)
    requires s != [] && s[0].Text?
    ensures 1 <= k <= |s|
  {
    match KindOf(s)
    case Code => 1 + FenceLen(s[1..], [Opener(s[0])])
    case HeadingKind(_, _) => 1
    case Table => 2 + TableTail(s[2..])
    case List => 1 + ListTail(s[1..])
    case Paragraph => 1 + ParagraphTail(s[1..])
  }

  /** The blocks of a body, front to back. */
  function Scan(s: seq<Line>): (blocks: seq<Block>)
  {
    if s == [] then []
    else if s[0].Blank? then Scan(s[1..])
    else [Block(KindOf(s), s[..BlockLen(s)])] + Scan(s[BlockLen(s)..])
  }

  // ---- What ends a block, line by line -----------------------------------

  predicate TableStartsAt(lines: seq<Line>, j: nat)
    requires j < |lines|
  {
    lines[j].HasPipe() && j + 1 < |lines| && lines[j + 1].IsSeparator()
  }

  /** A paragraph ends before a line that opens a fence, is a heading or a list item, or heads a table. */
  predicate BlockStartsAt(lines: seq<Line>, j: nat)
    requires j < |lines|
  {
    lines[j].OpensFence() || lines[j].IsHeading() || lines[j].IsListItem() || TableStartsAt(lines, j)
  }

  /** A list takes items, indented lines, and a blank line unless a line that is no item follows it. */
  predicate ListGoesOnAt(lines: seq<Line>, j: nat)
    requires j < |lines|
  {
    if lines[j].Blank? then j + 1 == |lines| || lines[j + 1].IsListItem()
    else lines[j].IsListItem() || lines[j].indented
  }

  // ---- The scanner -------------------------------------------------------
  // One method per inner loop; each returns the index at which its block ends.

  method FenceEnd(lines: seq<Line>, start: nat) returns (i: nat)
    requires start < |lines| && lines[start].OpensFence()
    ensures start < i <= |lines|
    ensures i - start == BlockLen(lines[start..])
  {
    var stack := [Opener(lines[start])];
    i := start + 1;
    assert lines[start..][1..] == lines[i..];
    while i < |lines| && stack != []
      invariant start < i <= |lines|
      invariant BlockLen(lines[start..]) == i - start + FenceLen(lines[i..], stack)
    {
      assert lines[i..][1..] == lines[i + 1..];
      stack := StackStep(stack, lines[i]);
      i := i + 1;
    }
  }

  method TableEnd(lines: seq<Line>, start: nat) returns (i: nat)
    requires start < |lines| && lines[start].Text? && KindOf(lines[start..]).Table?
    ensures start < i <= |lines|
    ensures i - start == BlockLen(lines[start..])
    ensures start + 2 <= i && forall j | start + 2 <= j < i :: lines[j].HasPipe()
    ensures i == |lines| || !lines[i].HasPipe()
  {
    i := start + 2;
    assert lines[start..][2..] == lines[i..];
    while i < |lines| && lines[i].HasPipe() && lines[i].Text?
      invariant start < i <= |lines|
      invariant BlockLen(lines[start..]) == i - start + TableTail(lines[i..])
      invariant start + 2 <= i && forall j | start + 2 <= j < i :: lines[j].HasPipe()
    {
      assert lines[i..][1..] == lines[i + 1..];
      i := i + 1;
    }
  }

  method ListEnd(lines: seq<Line>, start: nat) returns (i: nat)
    requires start < |lines| && lines[start].Text? && KindOf(lines[start..]).List?
    ensures start < i <= |lines|
    ensures i - start == BlockLen(lines[start..])
    ensures forall j | start < j < i :: ListGoesOnAt(lines, j)
    ensures i == |lines| || !ListGoesOnAt(lines, i)
  {
    i := start + 1;
    assert lines[start..][1..] == lines[i..];
    while i < |lines| && (lines[i].IsListItem() || lines[i].indented || lines[i].Blank?)
      invariant start < i <= |lines|
      invariant BlockLen(lines[start..]) == i - start + ListTail(lines[i..])
      invariant forall j | start < j < i :: ListGoesOnAt(lines, j)
    {
      if lines[i].Blank? && i + 1 < |lines| && !lines[i + 1].IsListItem() {
        break;
      }
      assert lines[i..][1..] == lines[i + 1..];
      i := i + 1;
    }
  }

  method ParagraphEnd(lines: seq<Line>, start: nat) returns (i: nat)
    requires start < |lines| && lines[start].Text? && KindOf(lines[start..]).Paragraph?
    ensures start < i <= |lines|
    ensures i - start == BlockLen(lines[start..])
    ensures forall j | start < j < i :: lines[j].Text? && !BlockStartsAt(lines, j)
    ensures i == |lines| || lines[i].Blank? || BlockStartsAt(lines, i)
  {
    i := start + 1;
    assert lines[start..][1..] == lines[i..];
    while i < |lines| && lines[i].Text? && !StartsBlock(lines[i..])
      invariant start < i <= |lines|
      invariant BlockLen(lines[start..]) == i - start + ParagraphTail(lines[i..])
      invariant forall j | start < j < i :: lines[j].Text? && !BlockStartsAt(lines, j)
    {
      assert lines[i..][1..] == lines[i + 1..];
      i := i + 1;
    }
  }

  method BlockEnd(lines: seq<Line>, start: nat, kind: Kind) returns (i: nat)
    requires start < |lines| && lines[start].Text? && kind == KindOf(lines[start..])
    ensures start < i <= |lines| && i - start == BlockLen(lines[start..])
  {
    match kind
    case Code => i := FenceEnd(lines, start);
    case HeadingKind(_, _) => i := start + 1;
    case Table => i := TableEnd(lines, start);
    case List => i := ListEnd(lines, start);
    case Paragraph => i := ParagraphEnd(lines, start);
  }

  lemma {:induction false} ScanSkips(lines: seq<Line>, i: nat)
    requires i < |lines| && lines[i].Blank?
    ensures Scan(lines[i..]) == Scan(lines[i + 1..])
  {
    assert lines[i..][1..] == lines[i + 1..];
  }

  lemma {:induction false} ScanTakes(lines: seq<Line>, i: nat, j: nat)
    requires i < j <= |lines| && lines[i].Text? && j - i == BlockLen(lines[i..])
    ensures Scan(lines[i..]) == [Block(KindOf(lines[i..]), lines[i..j])] + Scan(lines[j..])
  {
    assert lines[i..][..j - i] == lines[i..j] && lines[i..][j - i..] == lines[j..];
  }

  /** The line loop: it always ends, and what it returns is the scan of the whole body. */
  method ScanBlocks(lines: seq<Line>) returns (blocks: seq<Block>)
    ensures blocks == Scan(lines)
  {
    blocks := [];
    var i := 0;
    while i < |lines|
      invariant 0 <= i <= |lines|
      invariant Scan(lines) == blocks + Scan(lines[i..])
    {
      if lines[i].Blank? {
        ScanSkips(lines, i);
        i := i + 1;
      } else {
        var start, kind := i, KindOf(lines[i..]);
        i := BlockEnd(lines, start, kind);
        ScanTakes(lines, start, i);
        blocks := blocks + [Block(kind, lines[start..i])];
      }
    }
  }
}
