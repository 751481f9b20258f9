/** Grouping of blocks into sections bounded by headings, and the heading path each section carries. */
module Sections {
  import opened Wrappers
  import opened Scanner

  datatype Section = Section(headingPath: seq<string>, blocks: seq<Block>)

  predicate IsHeading(block: Block) {
    block.kind.HeadingKind?
  }

  predicate HeadingAt(blocks: seq<Block>, i: nat) {
    i < |blocks| && IsHeading(blocks[i])
  }

  /** Is there a block that is not a heading? */
  predicate HasBody(blocks: seq<Block>) {
    blocks != [] && (!IsHeading(blocks[0]) || HasBody(blocks[1..]))
  }

  function Take<T>(s: seq<T>, n: nat): (t: seq<T>)
    ensures t <= s && |t| <= n
  {
    if n < |s| then s[..n] else s
  }

  /** A heading as the path remembers it. */
  datatype Entry = Entry(at: nat, level: nat, text: string)

  function EntryAt(blocks: seq<Block>, h: nat): (e: Entry)
    requires HeadingAt(blocks, h)
    ensures 1 <= e.level <= 6
  {
    Entry(h, blocks[h].kind.level, blocks[h].kind.text)
  }

  function Texts(entries: seq<Entry>): (texts: seq<string>)
    ensures |texts| == |entries|
  {
    if entries == [] then [] else Texts(entries[..|entries| - 1]) + [entries[|entries| - 1].text]
  }

  // ---- Declarative grouping ----------------------------------------------

  /** The first heading at or after `i`, or the end. */
  function NextHeading(blocks: seq<Block>, i: nat): (e: nat)
    requires i <= |blocks|
    ensures i <= e <= |blocks|
    decreases |blocks| - i
  {
    if i == |blocks| || IsHeading(blocks[i]) then i else NextHeading(blocks, i + 1)
  }

  /** The headings the path names after `n` blocks, outermost first: a heading of level `l` keeps
      the first `l - 1` entries of the path before it. */
  function OpenHeadings(blocks: seq<Block>, n: nat): (open: seq<Entry>)
    requires n <= |blocks|
  {
    if n == 0 then []
    else
      var before := OpenHeadings(blocks, n - 1);
      if IsHeading(blocks[n - 1]) then
        var entry := EntryAt(blocks, n - 1);
        Take(before, entry.level - 1) + [entry]
      else before
  }

  function PathAfter(blocks: seq<Block>, n: nat): seq<string>
    requires n <= |blocks|
  {
    Texts(OpenHeadings(blocks, n))
  }

  /** A section without a body is dropped. */
  function Emit(section: Section): seq<Section> {
    if HasBody(section.blocks) then [section] else []
  }

  /** The sections of the blocks from a section start `p` on: each runs to the next heading. */
  function SectionsFrom(blocks: seq<Block>, p: nat): seq<Section>
    requires p <= |blocks|
    decreases |blocks| - p
  {
    if p == |blocks| then []
    else
      var e := NextHeading(blocks, p + 1);
      Emit(Section(PathAfter(blocks, p + 1), blocks[p..e])) + SectionsFrom(blocks, e)
  }

  lemma {:induction false} NextHeadingIsFirst(blocks: seq<Block>, i: nat, e: nat)
    requires i <= e <= |blocks| && forall k | i <= k < e :: !HeadingAt(blocks, k)
    requires e < |blocks| ==> IsHeading(blocks[e])
    ensures NextHeading(blocks, i) == e
    decreases e - i
  {
    if i < e {
      assert !HeadingAt(blocks, i);
      NextHeadingIsFirst(blocks, i + 1, e);
    }
  }

  lemma {:induction false} NoHeadingBeforeNext(blocks: seq<Block>, i: nat)
    requires i <= |blocks|
    ensures var e := NextHeading(blocks, i);
            (e < |blocks| ==> IsHeading(blocks[e])) && forall k | i <= k < e :: !HeadingAt(blocks, k)
    decreases |blocks| - i
  {
    if i < |blocks| && !IsHeading(blocks[i]) {
      NoHeadingBeforeNext(blocks, i + 1);
    }
  }

  // ---- The grouping loop -------------------------------------------------

  lemma {:induction false} TextsOfTake(entries: seq<Entry>, n: nat)
    ensures Texts(Take(entries, n)) == Take(Texts(entries), n)
  {
    if n < |entries| {
      TextsOfTake(entries[..|entries| - 1], n);
      assert Take(entries[..|entries| - 1], n) == Take(entries, n);
    }
  }

  lemma {:induction false} TextsOfPush(entries: seq<Entry>, entry: Entry)
    ensures Texts(entries + [entry]) == Texts(entries) + [entry.text]
  {
    assert (entries + [entry])[..|entries|] == entries;
  }

  /** The path's slice and append at a heading. */
  function Push(path: seq<string>, heading: Kind): seq<string>
    requires heading.HeadingKind?
  {
    Take(path, heading.level as nat - 1) + [heading.text]
  }

  /** A heading cuts the path to the entries above its level and adds its text; other blocks leave it. */
  lemma {:induction false} PathStep(blocks: seq<Block>, i: nat)
    requires i < |blocks|
    ensures PathAfter(blocks, i + 1) ==
            if IsHeading(blocks[i]) then
              Push(PathAfter(blocks, i), blocks[i].kind)
            else PathAfter(blocks, i)
  {
    if IsHeading(blocks[i]) {
      var before, entry := OpenHeadings(blocks, i), EntryAt(blocks, i);
      TextsOfTake(before, entry.level - 1);
      TextsOfPush(Take(before, entry.level - 1), entry);
    }
  }

  /** The section that starts at `c` ends at `i`. */
  lemma {:induction false} SectionEnds(blocks: seq<Block>, c: nat, i: nat)
    requires c < i <= |blocks| && (i < |blocks| ==> IsHeading(blocks[i]))
    requires forall k | c < k < i :: !HeadingAt(blocks, k)
    ensures SectionsFrom(blocks, c) == Emit(Section(PathAfter(blocks, c + 1), blocks[c..i])) + SectionsFrom(blocks, i)
  {
    NextHeadingIsFirst(blocks, c + 1, i);
  }

  /** `sections` are those of `all` that end by the section start `c`. */
  ghost predicate ClosedUpTo(all: seq<Section>, blocks: seq<Block>, c: nat, sections: seq<Section>) {
    c <= |blocks| && all == sections + SectionsFrom(blocks, c)
  }

  /** `current` holds the blocks from the section start `c` up to `i`. */
  ghost predicate OpenSince(blocks: seq<Block>, i: nat, c: nat, path: seq<string>, current: Section)
    requires i <= |blocks|
  {
    && c <= i && (c == i ==> i == 0)
    && path == PathAfter(blocks, i)
    && current == Section(path, blocks[c..i])
    && (i > 0 ==> path == PathAfter(blocks, c + 1))
    && (forall k | c < k < i :: !HeadingAt(blocks, k))
  }

  lemma {:induction false} AppendAssociates<T>(a: seq<T>, b: seq<T>, c: seq<T>)
    ensures a + (b + c) == a + b + c
  {
  }

  lemma {:induction false} Close(all: seq<Section>, blocks: seq<Block>, i: nat, c: nat, sections: seq<Section>,
                                 path: seq<string>, current: Section)
    requires i <= |blocks| && (i < |blocks| ==> IsHeading(blocks[i]))
    requires ClosedUpTo(all, blocks, c, sections) && OpenSince(blocks, i, c, path, current)
    ensures ClosedUpTo(all, blocks, i, sections + Emit(current))
  {
    if i > 0 {
      SectionEnds(blocks, c, i);
      AppendAssociates(sections, Emit(current), SectionsFrom(blocks, i));
    }
  }

  lemma {:induction false} OpenAt(blocks: seq<Block>, i: nat, path: seq<string>)
    requires i < |blocks| && path == PathAfter(blocks, i + 1)
    ensures OpenSince(blocks, i + 1, i, path, Section(path, [blocks[i]]))
  {
    assert blocks[i..i + 1] == [blocks[i]];
  }

  lemma {:induction false} Restart(blocks: seq<Block>, i: nat, path: seq<string>)
    requires i < |blocks| && IsHeading(blocks[i]) && path == PathAfter(blocks, i)
    ensures var next := Push(path, blocks[i].kind); OpenSince(blocks, i + 1, i, next, Section(next, [blocks[i]]))
  {
    PathStep(blocks, i);
    OpenAt(blocks, i, Push(path, blocks[i].kind));
  }

  lemma {:induction false} Extend(blocks: seq<Block>, i: nat, c: nat, path: seq<string>, current: Section)
    requires i < |blocks| && !IsHeading(blocks[i]) && OpenSince(blocks, i, c, path, current)
    ensures OpenSince(blocks, i + 1, c, path, current.(blocks := current.blocks + [blocks[i]]))
  {
    PathStep(blocks, i);
    assert blocks[c..i + 1] == blocks[c..i] + [blocks[i]];
  }

  method GroupIntoSections(blocks: seq<Block>) returns (sections: seq<Section>)
    ensures sections == SectionsFrom(blocks, 0)
  {
    sections := [];
    var path: seq<string> := [];
    var current := Section([], []);
    ghost var c, all := 0, SectionsFrom(blocks, 0);
    for i := 0 to |blocks|
      invariant ClosedUpTo(all, blocks, c, sections)
      invariant OpenSince(blocks, i, c, path, current)
    {
      var block := blocks[i];
      if IsHeading(block) {
        Close(all, blocks, i, c, sections, path, current);
        Restart(blocks, i, path);
        sections := sections + Emit(current);
        path := Push(path, block.kind);
        current := Section(path, [block]);
        c := i;
      } else {
        Extend(blocks, i, c, path, current);
        current := current.(blocks := current.blocks + [block]);
      }
    }
    Close(all, blocks, |blocks|, c, sections, path, current);
    sections := sections + Emit(current);
  }

  // ---- Conservation ------------------------------------------------------

  /** A block and the heading path it is filed under. */
  datatype Filed = Filed(block: Block, path: seq<string>)

  function File(blocks: seq<Block>, path: seq<string>): (filed: seq<Filed>)
    ensures |filed| == |blocks|
  {
    if blocks == [] then [] else [Filed(blocks[0], path)] + File(blocks[1..], path)
  }

  lemma {:induction false} FileCons(blocks: seq<Block>, path: seq<string>)
    requires blocks != []
    ensures File(blocks, path) == [Filed(blocks[0], path)] + File(blocks[1..], path)
  {
  }

  function FiledIn(sections: seq<Section>): seq<Filed> {
    if sections == [] then [] else File(sections[0].blocks, sections[0].headingPath) + FiledIn(sections[1..])
  }

  /** A heading directly followed by another heading or by the end. */
  predicate IsStub(blocks: seq<Block>, i: nat)
    requires i < |blocks|
  {
    IsHeading(blocks[i]) && (i + 1 == |blocks| || IsHeading(blocks[i + 1]))
  }

  /** The blocks from `i` on that are not stubs, each under the path of the headings before it. */
  function Kept(blocks: seq<Block>, i: nat): seq<Filed>
    requires i <= |blocks|
    decreases |blocks| - i
  {
    if i == |blocks| then []
    else if IsStub(blocks, i) then Kept(blocks, i + 1)
    else [Filed(blocks[i], PathAfter(blocks, i + 1))] + Kept(blocks, i + 1)
  }

  lemma {:induction false} KeptStep(blocks: seq<Block>, p: nat)
    requires p < |blocks| && !IsHeading(blocks[p])
    ensures PathAfter(blocks, p + 1) == PathAfter(blocks, p)
    ensures Kept(blocks, p) == [Filed(blocks[p], PathAfter(blocks, p))] + Kept(blocks, p + 1)
  {
    PathStep(blocks, p);
  }

  lemma {:induction false} FileRun(blocks: seq<Block>, p: nat, e: nat, path: seq<string>, rest: seq<Filed>)
    requires p < e <= |blocks|
    ensures File(blocks[p..e], path) + rest == [Filed(blocks[p], path)] + (File(blocks[p + 1..e], path) + rest)
  {
    FileCons(blocks[p..e], path);
    assert blocks[p..e][1..] == blocks[p + 1..e];
    AppendAssociates([Filed(blocks[p], path)], File(blocks[p + 1..e], path), rest);
  }

  lemma {:induction false} KeptRun(blocks: seq<Block>, p: nat, e: nat, path: seq<string>)
    requires p <= e <= |blocks| && forall k | p <= k < e :: !HeadingAt(blocks, k)
    requires path == PathAfter(blocks, p)
    ensures Kept(blocks, p) == File(blocks[p..e], path) + Kept(blocks, e)
    decreases e - p
  {
    if p == e {
      assert blocks[p..e] == [] && File([], path) + Kept(blocks, e) == Kept(blocks, e);
    } else {
      assert !HeadingAt(blocks, p);
      KeptStep(blocks, p);
      KeptRun(blocks, p + 1, e, path);
      FileRun(blocks, p, e, path, Kept(blocks, e));
    }
  }

  lemma {:induction false} KeptHead(blocks: seq<Block>, p: nat)
    requires p < |blocks|
    ensures Kept(blocks, p) ==
            if IsStub(blocks, p) then Kept(blocks, p + 1)
            else [Filed(blocks[p], PathAfter(blocks, p + 1))] + Kept(blocks, p + 1)
  {
  }

  /** A section start is a stub exactly when its section has no body. */
  lemma {:induction false} StubHasNoBody(blocks: seq<Block>, p: nat)
    requires p < |blocks|
    ensures HasBody(blocks[p..NextHeading(blocks, p + 1)]) <==> !IsStub(blocks, p)
    ensures IsStub(blocks, p) ==> NextHeading(blocks, p + 1) == p + 1
  {
    var e := NextHeading(blocks, p + 1);
    var body := blocks[p..e];
    NoHeadingBeforeNext(blocks, p + 1);
    if e > p + 1 {
      assert !HeadingAt(blocks, p + 1) && body[1..][0] == blocks[p + 1];
    } else {
      assert body[1..] == [];
    }
  }

  /** A section start's blocks are kept when it has a body; else it is a stub. */
  lemma {:induction false} KeptSection(blocks: seq<Block>, p: nat)
    requires p < |blocks|
    ensures var e := NextHeading(blocks, p + 1);
            Kept(blocks, p) == FiledIn(Emit(Section(PathAfter(blocks, p + 1), blocks[p..e]))) + Kept(blocks, e)
  {
    var e, path := NextHeading(blocks, p + 1), PathAfter(blocks, p + 1);
    StubHasNoBody(blocks, p);
    KeptHead(blocks, p);
    FiledInEmit(Section(path, blocks[p..e]));
    if IsStub(blocks, p) {
      assert [] + Kept(blocks, e) == Kept(blocks, e);
    } else {
      NoHeadingBeforeNext(blocks, p + 1);
      KeptRun(blocks, p + 1, e, path);
      FileRun(blocks, p, e, path, Kept(blocks, e));
    }
  }

  lemma {:induction false} FiledInEmit(section: Section)
    ensures FiledIn(Emit(section)) == if HasBody(section.blocks) then File(section.blocks, section.headingPath) else []
  {
    assert [section][1..] == [];
  }

  lemma {:induction false} FiledInAppend(a: seq<Section>, b: seq<Section>)
    ensures FiledIn(a + b) == FiledIn(a) + FiledIn(b)
  {
    if a == [] {
      assert a + b == b;
    } else {
      assert (a + b)[1..] == a[1..] + b;
      FiledInAppend(a[1..], b);
    }
  }

  lemma {:induction false} SectionsKeepBlocks(blocks: seq<Block>, p: nat)
    requires p <= |blocks|
    ensures FiledIn(SectionsFrom(blocks, p)) == Kept(blocks, p)
    decreases |blocks| - p
  {
    if p < |blocks| {
      var e := NextHeading(blocks, p + 1);
      SectionsKeepBlocks(blocks, e);
      KeptSection(blocks, p);
      FiledInAppend(Emit(Section(PathAfter(blocks, p + 1), blocks[p..e])), SectionsFrom(blocks, e));
    }
  }

  /** Only stub headings are dropped; every other block is in exactly one section, in order, under
      the path of the headings before it. */
  lemma {:induction false} SectionsDropOnlyStubs(blocks: seq<Block>)
    ensures FiledIn(SectionsFrom(blocks, 0)) == Kept(blocks, 0)
  {
    SectionsKeepBlocks(blocks, 0);
  }

  /** A heading occurs only as the first block of a section, and every section has a body. */
  predicate WellGrouped(section: Section) {
    HasBody(section.blocks) && forall i | 0 < i < |section.blocks| :: !IsHeading(section.blocks[i])
  }

  lemma {:induction false} SectionsAreWellGrouped(blocks: seq<Block>, p: nat)
    requires p <= |blocks|
    ensures forall s | s in SectionsFrom(blocks, p) :: WellGrouped(s)
    decreases |blocks| - p
  {
    if p < |blocks| {
      var e := NextHeading(blocks, p + 1);
      NoHeadingBeforeNext(blocks, p + 1);
      SectionsAreWellGrouped(blocks, e);
      forall i | 0 < i < |blocks[p..e]| ensures !IsHeading(blocks[p..e][i]) {
        assert !HeadingAt(blocks, p + i);
      }
    }
  }

  /** Every section of `sections` starts with a heading. */
  predicate StartAtHeadings(sections: seq<Section>) {
    forall i | 0 <= i < |sections| :: HeadingAt(sections[i].blocks, 0)
  }

  lemma {:induction false} SectionsFromHeading(blocks: seq<Block>, p: nat)
    requires p <= |blocks| && (p < |blocks| ==> IsHeading(blocks[p]))
    ensures StartAtHeadings(SectionsFrom(blocks, p))
    decreases |blocks| - p
  {
    if p < |blocks| {
      NoHeadingBeforeNext(blocks, p + 1);
      SectionsFromHeading(blocks, NextHeading(blocks, p + 1));
    }
  }

  /** Sections are cut at headings only: every section but one in front of all headings starts with one. */
  lemma {:induction false} SectionsStartAtHeadings(blocks: seq<Block>)
    ensures var sections := SectionsFrom(blocks, 0);
            sections != [] ==> StartAtHeadings(sections[1..]) && (HeadingAt(blocks, 0) ==> StartAtHeadings(sections))
  {
    if HeadingAt(blocks, 0) {
      SectionsFromHeading(blocks, 0);
    } else if blocks != [] {
      var e := NextHeading(blocks, 1);
      NoHeadingBeforeNext(blocks, 1);
      SectionsFromHeading(blocks, e);
      assert blocks[0..e] != [] && HasBody(blocks[0..e]);
      assert SectionsFrom(blocks, 0)[1..] == SectionsFrom(blocks, e);
    }
  }

  // ---- Paths in any document ---------------------------------------------

  lemma {:induction false} TextAt(entries: seq<Entry>, d: nat)
    requires d < |entries|
    ensures Texts(entries)[d] == entries[d].text
  {
    if d < |entries| - 1 {
      TextAt(entries[..|entries| - 1], d);
    }
  }

  /** A heading, dropped or not, is on the path of all that follows it until the next heading of
      the same or a smaller level. */
  lemma {:induction false} HeadingStaysOnPath(blocks: seq<Block>, h: nat, n: nat) returns (d: nat)
    requires h < n <= |blocks| && IsHeading(blocks[h])
    requires forall k | h < k < n && HeadingAt(blocks, k) :: EntryAt(blocks, k).level > EntryAt(blocks, h).level
    ensures d < EntryAt(blocks, h).level && d < |PathAfter(blocks, n)|
    ensures OpenHeadings(blocks, n)[d] == EntryAt(blocks, h) && PathAfter(blocks, n)[d] == blocks[h].kind.text
    decreases n
  {
    var open := OpenHeadings(blocks, n);
    if n == h + 1 {
      d := |open| - 1;
    } else {
      d := HeadingStaysOnPath(blocks, h, n - 1);
      var before := OpenHeadings(blocks, n - 1);
      if IsHeading(blocks[n - 1]) {
        assert HeadingAt(blocks, n - 1);
        assert d < EntryAt(blocks, n - 1).level - 1;
        assert Take(before, EntryAt(blocks, n - 1).level - 1)[d] == before[d];
      }
    }
    TextAt(open, d);
  }

  /** A path is never longer than the level of its last heading. */
  lemma {:induction false} PathNoLongerThanLevel(blocks: seq<Block>, h: nat)
    requires HeadingAt(blocks, h)
    ensures var path := PathAfter(blocks, h + 1);
            1 <= |path| <= EntryAt(blocks, h).level && path[|path| - 1] == blocks[h].kind.text
  {
    PathStep(blocks, h);
  }

  // ---- Paths and the heading tree ----------------------------------------

  /** The last heading before `n` of a level below `l`. */
  function Nearest(blocks: seq<Block>, l: nat, n: nat): (r: Option<nat>)
    requires n <= |blocks|
    ensures r.Some? ==> r.value < n && IsHeading(blocks[r.value]) && EntryAt(blocks, r.value).level < l
  {
    if n == 0 then None
    else if IsHeading(blocks[n - 1]) && EntryAt(blocks, n - 1).level < l then Some(n - 1)
    else Nearest(blocks, l, n - 1)
  }

  /** The ancestors of a heading in the document tree, outermost first, and the heading itself. */
  function Chain(blocks: seq<Block>, h: nat): (chain: seq<Entry>)
    requires HeadingAt(blocks, h)
  {
    ChainUpTo(blocks, EntryAt(blocks, h).level, h) + [EntryAt(blocks, h)]
  }

  /** The chain of the last heading before `n` of a level below `l`, if there is one. */
  function ChainUpTo(blocks: seq<Block>, l: nat, n: nat): (chain: seq<Entry>)
    requires n <= |blocks|
    decreases n, 0
  {
    match Nearest(blocks, l, n)
    case None => []
    case Some(parent) => ChainUpTo(blocks, EntryAt(blocks, parent).level, parent) + [EntryAt(blocks, parent)]
  }

  /** Drops the innermost entries of level `l` and above. */
  function Cut(chain: seq<Entry>, l: nat): (r: seq<Entry>)
    ensures r <= chain
  {
    if chain == [] || chain[|chain| - 1].level < l then chain else Cut(chain[..|chain| - 1], l)
  }

  predicate Increasing(chain: seq<Entry>) {
    forall p | 0 <= p < |chain| :: p < chain[p].level && (p > 0 ==> chain[p - 1].level < chain[p].level)
  }

  lemma {:induction false} ChainIncreases(blocks: seq<Block>, l: nat, n: nat)
    requires n <= |blocks|
    ensures Increasing(ChainUpTo(blocks, l, n))
    ensures forall e | e in ChainUpTo(blocks, l, n) :: e.level < l
    decreases n
  {
    var parent := Nearest(blocks, l, n);
    if parent.Some? {
      ChainIncreases(blocks, EntryAt(blocks, parent.value).level, parent.value);
      var front := ChainUpTo(blocks, EntryAt(blocks, parent.value).level, parent.value);
      assert front != [] ==> front[|front| - 1] in front;
    }
  }

  lemma {:induction false} CutPush(front: seq<Entry>, entry: Entry, l: nat)
    ensures Cut(front + [entry], l) == if entry.level < l then front + [entry] else Cut(front, l)
  {
    assert (front + [entry])[..|front|] == front;
  }

  lemma {:induction false} ChainStep(blocks: seq<Block>, l: nat, n: nat)
    requires n < |blocks|
    ensures ChainUpTo(blocks, l, n + 1) ==
            if IsHeading(blocks[n]) && EntryAt(blocks, n).level < l then Chain(blocks, n) else ChainUpTo(blocks, l, n)
  {
  }

  lemma {:induction false} CutChainAt(blocks: seq<Block>, h: nat, l: nat)
    requires HeadingAt(blocks, h)
    requires EntryAt(blocks, h).level >= l ==>
             Cut(ChainUpTo(blocks, EntryAt(blocks, h).level, h), l) == ChainUpTo(blocks, l, h)
    ensures Cut(Chain(blocks, h), l) == ChainUpTo(blocks, l, h + 1)
  {
    ChainStep(blocks, l, h);
    CutPush(ChainUpTo(blocks, EntryAt(blocks, h).level, h), EntryAt(blocks, h), l);
  }

  /** Cutting the chain up to `n` at a smaller level gives the chain up to `n` for that level. */
  lemma {:induction false} CutChain(blocks: seq<Block>, l: nat, m: nat, n: nat)
    requires n <= |blocks| && l <= m
    ensures Cut(ChainUpTo(blocks, m, n), l) == ChainUpTo(blocks, l, n)
    decreases n
  {
    if n > 0 {
      ChainStep(blocks, m, n - 1);
      if IsHeading(blocks[n - 1]) && EntryAt(blocks, n - 1).level < m {
        var own := EntryAt(blocks, n - 1).level;
        if own >= l {
          CutChain(blocks, l, own, n - 1);
        }
        CutChainAt(blocks, n - 1, l);
      } else {
        ChainStep(blocks, l, n - 1);
        CutChain(blocks, l, m, n - 1);
      }
    }
  }

  /** No entry that survives the slice has the new heading's level or a larger one. */
  predicate Fits(open: seq<Entry>, l: nat) {
    forall d | 0 <= d < |open| && d + 1 < l :: open[d].level < l
  }

  lemma {:induction false} CutOfIncreasing(chain: seq<Entry>, l: nat)
    requires Increasing(chain)
    ensures forall d | 0 <= d < |Cut(chain, l)| :: chain[d].level < l
    ensures |Cut(chain, l)| < |chain| ==> chain[|Cut(chain, l)|].level >= l
  {
    if chain != [] {
      var front := chain[..|chain| - 1];
      if chain[|chain| - 1].level < l {
        BelowLast(chain);
      } else {
        CutOfIncreasing(front, l);
      }
    }
  }

  lemma {:induction false} BelowLast(chain: seq<Entry>)
    requires Increasing(chain) && chain != []
    ensures forall d | 0 <= d < |chain| :: chain[d].level <= chain[|chain| - 1].level
  {
    if |chain| > 1 {
      var front := chain[..|chain| - 1];
      BelowLast(front);
      assert forall d | 0 <= d < |front| :: chain[d] == front[d];
      assert chain[|chain| - 1 - 1].level < chain[|chain| - 1].level;
    }
  }

  /** Slicing an increasing path to `l - 1` entries cuts it at level `l` exactly when the slice fits. */
  lemma {:induction false} SliceIsCut(open: seq<Entry>, l: nat)
    requires Increasing(open) && l > 0
    ensures Take(open, l - 1) == Cut(open, l) <==> Fits(open, l)
  {
    CutOfIncreasing(open, l);
    var cut, taken := Cut(open, l), Take(open, l - 1);
    if l - 1 < |open| {
      assert open[l - 1].level >= l;
      assert |cut| <= l - 1;
    }
    assert |cut| <= |taken|;
    assert Fits(open, l) && |cut| < |open| ==> |cut| >= l - 1;
    if taken == cut {
      forall d | 0 <= d < |open| && d + 1 < l ensures open[d].level < l {
        assert open[d] == taken[d];
      }
    }
  }

  /** The path after `n` blocks is the chain of the last heading among them. */
  predicate Agrees(blocks: seq<Block>, n: nat)
    requires n <= |blocks|
  {
    OpenHeadings(blocks, n) == ChainUpTo(blocks, 7, n)
  }

  predicate OnTree(blocks: seq<Block>, h: nat) {
    HeadingAt(blocks, h) ==> OpenHeadings(blocks, h + 1) == Chain(blocks, h)
  }

  /** Among the first `l - 1` ancestors of what comes before a heading of level `l` none has its level or a
      larger one. */
  predicate FitsAt(blocks: seq<Block>, h: nat) {
    HeadingAt(blocks, h) ==> Fits(ChainUpTo(blocks, 7, h), EntryAt(blocks, h).level)
  }

  lemma {:induction false} SamePush<T>(a: seq<T>, b: seq<T>, x: T)
    ensures a + [x] == b + [x] <==> a == b
  {
    assert a == (a + [x])[..|a|] && b == (b + [x])[..|b|];
  }

  /** The path and the chain at a heading, from those before it. */
  lemma {:induction false} HeadingStep(blocks: seq<Block>, h: nat)
    requires HeadingAt(blocks, h)
    ensures var entry := EntryAt(blocks, h);
            && OpenHeadings(blocks, h + 1) == Take(OpenHeadings(blocks, h), entry.level - 1) + [entry]
            && Chain(blocks, h) == ChainUpTo(blocks, entry.level, h) + [entry]
            && ChainUpTo(blocks, 7, h + 1) == Chain(blocks, h)
  {
    ChainStep(blocks, 7, h);
  }

  lemma {:induction false} AgreesAtHeading(blocks: seq<Block>, h: nat)
    requires HeadingAt(blocks, h) && Agrees(blocks, h)
    ensures OnTree(blocks, h) <==> FitsAt(blocks, h)
    ensures OnTree(blocks, h) ==> Agrees(blocks, h + 1)
  {
    var open, entry := OpenHeadings(blocks, h), EntryAt(blocks, h);
    HeadingStep(blocks, h);
    ChainIncreases(blocks, 7, h);
    CutChain(blocks, entry.level, 7, h);
    SliceIsCut(open, entry.level);
    SamePush(Take(open, entry.level - 1), ChainUpTo(blocks, entry.level, h), entry);
  }

  lemma {:induction false} AgreesElsewhere(blocks: seq<Block>, n: nat)
    requires n < |blocks| && !IsHeading(blocks[n]) && Agrees(blocks, n)
    ensures OnTree(blocks, n) && FitsAt(blocks, n) && Agrees(blocks, n + 1)
  {
  }

  predicate AllBelow(p: nat -> bool, n: nat) {
    n == 0 || (AllBelow(p, n - 1) && p(n - 1))
  }

  lemma {:induction false} AllBelowMeansAll(p: nat -> bool, n: nat)
    ensures AllBelow(p, n) <==> forall h: nat | h < n :: p(h)
  {
    if n > 0 {
      AllBelowMeansAll(p, n - 1);
    }
  }

  /** If two properties agree wherever a third holds, and keep it, they hold throughout together. */
  lemma {:induction false} AgreeAsLongAs(p: nat -> bool, q: nat -> bool, as_: nat -> bool, n: nat)
    requires as_(0) && forall k: nat | k < n && as_(k) :: (p(k) <==> q(k)) && (p(k) ==> as_(k + 1))
    ensures AllBelow(p, n) <==> AllBelow(q, n)
    ensures AllBelow(q, n) ==> as_(n)
  {
    if n > 0 {
      AgreeAsLongAs(p, q, as_, n - 1);
    }
  }

  lemma {:induction false} PathsUpTo(blocks: seq<Block>, n: nat)
    requires n <= |blocks|
    ensures AllBelow((h: nat) => OnTree(blocks, h), n) <==> AllBelow((h: nat) => FitsAt(blocks, h), n)
    ensures AllBelow((h: nat) => FitsAt(blocks, h), n) ==> Agrees(blocks, n)
  {
    forall k: nat | k < n && Agrees(blocks, k)
      ensures OnTree(blocks, k) <==> FitsAt(blocks, k)
      ensures OnTree(blocks, k) ==> Agrees(blocks, k + 1)
    {
      if HeadingAt(blocks, k) {
        AgreesAtHeading(blocks, k);
      } else {
        AgreesElsewhere(blocks, k);
      }
    }
    AgreeAsLongAs((h: nat) => OnTree(blocks, h), (h: nat) => FitsAt(blocks, h),
                  (k: nat) => k <= |blocks| && Agrees(blocks, k), n);
  }

  /** Heading paths are the chains of nearest preceding headings of smaller level if and only if every
      heading fits below what comes before it, which only the levels of the headings decide. */
  lemma {:induction false} PathsFollowTheTree(blocks: seq<Block>)
    ensures (forall h: nat | h < |blocks| :: OnTree(blocks, h)) <==> (forall h: nat | h < |blocks| :: FitsAt(blocks, h))
  {
    var onTree, fits := (h: nat) => OnTree(blocks, h), (h: nat) => FitsAt(blocks, h);
    AllBelowMeansAll(onTree, |blocks|);
    AllBelowMeansAll(fits, |blocks|);
    PathsUpTo(blocks, |blocks|);
    assert forall h: nat :: onTree(h) == OnTree(blocks, h);
    assert forall h: nat :: fits(h) == FitsAt(blocks, h);
  }

  /** The level of the last heading before `n`, or 0. */
  function LastLevel(blocks: seq<Block>, n: nat): nat
    requires n <= |blocks|
  {
    if n == 0 then 0
    else if IsHeading(blocks[n - 1]) then EntryAt(blocks, n - 1).level
    else LastLevel(blocks, n - 1)
  }

  /** The first heading has level 1 and each later one is at most one deeper than the one before. */
  predicate NoSkippedLevels(blocks: seq<Block>) {
    forall h: nat | h < |blocks| :: IsHeading(blocks[h]) ==> EntryAt(blocks, h).level <= LastLevel(blocks, h) + 1
  }

  lemma {:induction false} NoSkipMeansDepthIsLevel(blocks: seq<Block>, n: nat)
    requires n <= |blocks| && NoSkippedLevels(blocks)
    ensures |OpenHeadings(blocks, n)| == LastLevel(blocks, n)
    ensures forall d | 0 <= d < |OpenHeadings(blocks, n)| :: OpenHeadings(blocks, n)[d].level == d + 1
  {
    if n > 0 {
      NoSkipMeansDepthIsLevel(blocks, n - 1);
      if IsHeading(blocks[n - 1]) {
        assert EntryAt(blocks, n - 1).level <= |OpenHeadings(blocks, n - 1)| + 1;
      }
    }
  }

  lemma {:induction false} NoSkipFits(blocks: seq<Block>, n: nat)
    requires n <= |blocks| && NoSkippedLevels(blocks)
    ensures AllBelow((h: nat) => FitsAt(blocks, h), n)
  {
    if n > 0 {
      NoSkipFits(blocks, n - 1);
      PathsUpTo(blocks, n - 1);
      NoSkipMeansDepthIsLevel(blocks, n - 1);
    }
  }

  lemma {:induction false} NoSkipOnTree(blocks: seq<Block>, h: nat)
    requires NoSkippedLevels(blocks) && h < |blocks|
    ensures OnTree(blocks, h)
  {
    var onTree := (i: nat) => OnTree(blocks, i);
    NoSkipFits(blocks, |blocks|);
    PathsUpTo(blocks, |blocks|);
    AllBelowMeansAll(onTree, |blocks|);
    assert onTree(h);
  }

  /** When no heading skips a level, every heading's path is its chain in the document tree. */
  lemma {:induction false} NoSkipFollowsTheTree(blocks: seq<Block>, h: nat)
    requires NoSkippedLevels(blocks) && HeadingAt(blocks, h)
    ensures PathAfter(blocks, h + 1) == Texts(Chain(blocks, h))
    ensures |PathAfter(blocks, h + 1)| == EntryAt(blocks, h).level
  {
    NoSkipOnTree(blocks, h);
    NoSkipMeansDepthIsLevel(blocks, h + 1);
  }

  /** A heading as it stands in a document, and the block that it scans to. */
  function HeadingLine(level: Level, text: string): Line {
    Text(seq(level, _ => '#') + " " + text, false, true, None, Some(Heading(level, text)), false, false, false)
  }

  function HeadingBlock(level: Level, text: string): Block {
    Block(HeadingKind(level, text), [HeadingLine(level, text)])
  }

  lemma {:induction false} ScanOfHeading(level: Level, text: string, rest: seq<Line>)
    ensures Scan([HeadingLine(level, text)] + rest) == [HeadingBlock(level, text)] + Scan(rest)
  {
    var s := [HeadingLine(level, text)] + rest;
    assert s[..1] == [HeadingLine(level, text)] && s[1..] == rest;
  }

  /** Two leading headings of level 3 nest, though they are siblings in the tree. */
  lemma {:induction false} LeadingDeepHeadingsNest()
    ensures var blocks := Scan([HeadingLine(3, "A"), HeadingLine(3, "B")]);
            |blocks| == 2 && HeadingAt(blocks, 1) &&
            OpenHeadings(blocks, 2) == [Entry(0, 3, "A"), Entry(1, 3, "B")] && Chain(blocks, 1) == [Entry(1, 3, "B")]
  {
    var blocks := [HeadingBlock(3, "A"), HeadingBlock(3, "B")];
    ScanOfHeading(3, "B", []);
    ScanOfHeading(3, "A", [HeadingLine(3, "B")]);
    assert [HeadingLine(3, "B")] + [] == [HeadingLine(3, "B")] && [HeadingBlock(3, "B")] + [] == [HeadingBlock(3, "B")];
    assert [HeadingLine(3, "A")] + [HeadingLine(3, "B")] == [HeadingLine(3, "A"), HeadingLine(3, "B")];
    assert Scan([HeadingLine(3, "A"), HeadingLine(3, "B")]) == blocks;
    assert OpenHeadings(blocks, 0) == [];
    assert OpenHeadings(blocks, 1) == [Entry(0, 3, "A")];
    assert Nearest(blocks, 3, 0) == None;
    assert Nearest(blocks, 3, 1) == None;
  }
}
