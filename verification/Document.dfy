/** The chunk loop of a parsed document, and what holds from its lines to its chunks. */
module Document {
  import opened Wrappers
  import opened Scanner
  import opened Sections
  import opened TextRoundTrip
  import opened Packing

  // ---- Stripping ---------------------------------------------------------

  /** The characters that Python's `str.strip` removes. */
  predicate IsSpace(c: char) {
    var n := c as int;
    9 <= n <= 13 || 28 <= n <= 32 || n == 0x85 || n == 0xA0 || n == 0x1680 || 0x2000 <= n <= 0x200A ||
    n == 0x2028 || n == 0x2029 || n == 0x202F || n == 0x205F || n == 0x3000
  }

  function StripLeft(s: string): string {
    if s != "" && IsSpace(s[0]) then StripLeft(s[1..]) else s
  }

  function StripRight(s: string): string {
    if s != "" && IsSpace(s[|s| - 1]) then StripRight(s[..|s| - 1]) else s
  }

  function Strip(s: string): string {
    StripRight(StripLeft(s))
  }

  predicate AllSpace(s: string) {
    forall i | 0 <= i < |s| :: IsSpace(s[i])
  }

  lemma {:induction false} StripLeftTrims(s: string) returns (a: string)
    ensures s == a + StripLeft(s) && AllSpace(a)
    ensures StripLeft(s) != "" ==> !IsSpace(StripLeft(s)[0])
  {
    if s != "" && IsSpace(s[0]) {
      var rest := StripLeftTrims(s[1..]);
      a := [s[0]] + rest;
    } else {
      a := "";
    }
  }

  lemma {:induction false} StripRightTrims(s: string) returns (b: string)
    ensures s == StripRight(s) + b && AllSpace(b)
    ensures StripRight(s) != "" ==> !IsSpace(StripRight(s)[|StripRight(s)| - 1])
  {
    if s != "" && IsSpace(s[|s| - 1]) {
      var front := StripRightTrims(s[..|s| - 1]);
      b := front + [s[|s| - 1]];
    } else {
      b := "";
    }
  }

  /** Stripping takes off white space at both ends, and all of it. */
  lemma {:induction false} StripTrims(s: string) returns (a: string, b: string)
    ensures s == a + Strip(s) + b && AllSpace(a) && AllSpace(b)
    ensures Strip(s) != "" ==> !IsSpace(Strip(s)[0]) && !IsSpace(Strip(s)[|Strip(s)| - 1])
  {
    a := StripLeftTrims(s);
    b := StripRightTrims(StripLeft(s));
    assert Strip(s) != "" ==> Strip(s)[0] == StripLeft(s)[0];
  }

  lemma {:induction false} StripKeepsText(s: string, i: nat)
    requires i < |s| && !IsSpace(s[i])
    ensures Strip(s) != ""
  {
    var j := StripLeftKeeps(s, i);
    StripRightKeeps(StripLeft(s), j);
  }

  lemma {:induction false} StripLeftKeeps(s: string, i: nat) returns (j: nat)
    requires i < |s| && !IsSpace(s[i])
    ensures j < |StripLeft(s)| && !IsSpace(StripLeft(s)[j])
  {
    if IsSpace(s[0]) {
      j := StripLeftKeeps(s[1..], i - 1);
    } else {
      j := i;
    }
  }

  lemma {:induction false} StripRightKeeps(s: string, i: nat)
    requires i < |s| && !IsSpace(s[i])
    ensures StripRight(s) != ""
  {
    if IsSpace(s[|s| - 1]) {
      StripRightKeeps(s[..|s| - 1], i);
    }
  }

  // ---- Chunks ------------------------------------------------------------

  /** What the chunk loop asks of text: the tokens of a block, the tokens of a section's stripped
      text, and whether that text is non-empty. */
  datatype Measure = Measure(cost: Ruler, size: seq<Block> -> nat, shows: seq<Block> -> bool)

  /** The measure that a token count on strings gives. */
  function TextMeasure(count: string -> nat): Measure {
    Measure(block => count(BlockText(block)),
            blocks => count(Strip(BlocksText(blocks))),
            blocks => Strip(BlocksText(blocks)) != "")
  }

  /** One chunk; its content is the stripped text of its blocks. */
  datatype Chunk = Chunk(blocks: seq<Block>, headingPath: seq<string>, index: nat, tokens: nat)

  function ChunksOfBatches(batches: seq<Batch>, path: seq<string>, n: nat): seq<Chunk> {
    if batches == [] then []
    else [Chunk(batches[0].blocks, path, n, batches[0].tokens)] + ChunksOfBatches(batches[1..], path, n + 1)
  }

  /** The chunks of one section, numbered from `n`. */
  function ChunksOfSection(m: Measure, max: nat, section: Section, n: nat): seq<Chunk> {
    if !m.shows(section.blocks) then []
    else if m.size(section.blocks) <= max then
      [Chunk(section.blocks, section.headingPath, n, m.size(section.blocks))]
    else ChunksOfBatches(Pack(m.cost, max, section.blocks), section.headingPath, n)
  }

  function ChunksFrom(m: Measure, max: nat, sections: seq<Section>, n: nat): seq<Chunk> {
    if sections == [] then []
    else
      var first := ChunksOfSection(m, max, sections[0], n);
      first + ChunksFrom(m, max, sections[1..], n + |first|)
  }

  /** The text of the first heading of level 1. */
  function FirstTitle(blocks: seq<Block>): Option<string> {
    if blocks == [] then None
    else if IsHeading(blocks[0]) && blocks[0].kind.level == 1 then Some(blocks[0].kind.text)
    else FirstTitle(blocks[1..])
  }

  lemma {:induction false} FirstTitleAppend(a: seq<Block>, b: seq<Block>)
    ensures FirstTitle(a + b) == if FirstTitle(a).Some? then FirstTitle(a) else FirstTitle(b)
  {
    if a == [] {
      assert a + b == b;
    } else {
      assert (a + b)[1..] == a[1..] + b;
      FirstTitleAppend(a[1..], b);
    }
  }

  method ChunkBatches(batches: seq<Batch>, path: seq<string>, sofar: seq<Chunk>) returns (chunks: seq<Chunk>)
    ensures chunks == sofar + ChunksOfBatches(batches, path, |sofar|)
  {
    chunks := sofar;
    for i := 0 to |batches|
      invariant sofar + ChunksOfBatches(batches, path, |sofar|) ==
                chunks + ChunksOfBatches(batches[i..], path, |chunks|)
    {
      assert batches[i..][1..] == batches[i + 1..];
      chunks := chunks + [Chunk(batches[i].blocks, path, |chunks|, batches[i].tokens)];
    }
  }

  method TitleOf(blocks: seq<Block>) returns (title: Option<string>)
    ensures title == FirstTitle(blocks)
  {
    for i := 0 to |blocks|
      invariant FirstTitle(blocks) == FirstTitle(blocks[i..])
    {
      assert blocks[i..][1..] == blocks[i + 1..];
      if IsHeading(blocks[i]) && blocks[i].kind.level == 1 {
        return Some(blocks[i].kind.text);
      }
    }
    return None;
  }

  /** The blocks of the sections whose text is not blank. */
  function Shown(m: Measure, sections: seq<Section>): seq<Block> {
    if sections == [] then []
    else (if m.shows(sections[0].blocks) then sections[0].blocks else []) + Shown(m, sections[1..])
  }

  /** Whether the title may be taken from the section. */
  predicate Titles(m: Measure, section: Section) {
    m.shows(section.blocks) && FirstTitle(section.blocks).Some?
  }

  /** The title is that of the first section with visible text that holds a heading of level 1. */
  lemma {:induction false} TitleIsOfFirstShown(m: Measure, sections: seq<Section>) returns (i: nat)
    ensures i <= |sections| && forall j | 0 <= j < i :: !Titles(m, sections[j])
    ensures i < |sections| ==> Titles(m, sections[i])
    ensures FirstTitle(Shown(m, sections)) == if i < |sections| then FirstTitle(sections[i].blocks) else None
  {
    if sections == [] {
      i := 0;
    } else {
      var head := if m.shows(sections[0].blocks) then sections[0].blocks else [];
      FirstTitleAppend(head, Shown(m, sections[1..]));
      if Titles(m, sections[0]) {
        i := 0;
      } else {
        var rest := TitleIsOfFirstShown(m, sections[1..]);
        i := rest + 1;
        assert forall j | 0 < j < i :: sections[j] == sections[1..][j - 1];
      }
    }
  }

  function TitleOr(title: Option<string>, blocks: seq<Block>): Option<string> {
    if title.Some? then title else FirstTitle(blocks)
  }

  lemma {:induction false} TitleStep(m: Measure, sections: seq<Section>, i: nat, title: Option<string>)
    requires i < |sections|
    ensures TitleOr(title, Shown(m, sections[i..])) ==
            TitleOr(if m.shows(sections[i].blocks) then TitleOr(title, sections[i].blocks) else title,
                    Shown(m, sections[i + 1..]))
  {
    assert sections[i..][1..] == sections[i + 1..];
    FirstTitleAppend(sections[i].blocks, Shown(m, sections[i + 1..]));
    assert [] + Shown(m, sections[i + 1..]) == Shown(m, sections[i + 1..]);
  }

  /** The chunks of all sections, given those of the first `i`. */
  function Resumed(m: Measure, max: nat, sections: seq<Section>, i: nat, sofar: seq<Chunk>): seq<Chunk>
    requires i <= |sections|
  {
    sofar + ChunksFrom(m, max, sections[i..], |sofar|)
  }

  lemma {:induction false} ResumeStep(m: Measure, max: nat, sections: seq<Section>, i: nat, sofar: seq<Chunk>)
    requires i < |sections|
    ensures Resumed(m, max, sections, i, sofar) ==
            Resumed(m, max, sections, i + 1, sofar + ChunksOfSection(m, max, sections[i], |sofar|))
  {
    var first := ChunksOfSection(m, max, sections[i], |sofar|);
    ChunksFromStep(m, max, sections, i, |sofar|);
    AppendAssociates(sofar, first, ChunksFrom(m, max, sections[i + 1..], |sofar| + |first|));
  }

  lemma {:induction false} ChunksFromStep(m: Measure, max: nat, sections: seq<Section>, i: nat, n: nat)
    requires i < |sections|
    ensures var first := ChunksOfSection(m, max, sections[i], n);
            ChunksFrom(m, max, sections[i..], n) == first + ChunksFrom(m, max, sections[i + 1..], n + |first|)
  {
    assert sections[i..][1..] == sections[i + 1..];
  }

  method ChunkSection(m: Measure, max: nat, section: Section, sofar: seq<Chunk>) returns (chunks: seq<Chunk>)
    requires m.shows(section.blocks)
    ensures chunks == sofar + ChunksOfSection(m, max, section, |sofar|)
  {
    var tokens := m.size(section.blocks);
    if tokens <= max {
      return sofar + [Chunk(section.blocks, section.headingPath, |sofar|, tokens)];
    }
    var batches := PackBlocks(m.cost, max, section.blocks);
    chunks := ChunkBatches(batches, section.headingPath, sofar);
  }

  lemma {:induction false} HiddenSection(m: Measure, max: nat, section: Section, sofar: seq<Chunk>)
    requires !m.shows(section.blocks)
    ensures sofar + ChunksOfSection(m, max, section, |sofar|) == sofar
  {
  }

  method ChunkSections(m: Measure, max: nat, sections: seq<Section>, declared: Option<string>)
    returns (chunks: seq<Chunk>, title: Option<string>)
    ensures chunks == ChunksFrom(m, max, sections, 0)
    ensures declared.Some? ==> title == declared
    ensures declared.None? ==> title == FirstTitle(Shown(m, sections))
  {
    chunks, title := [], declared;
    assert sections[0..] == sections;
    for i := 0 to |sections|
      invariant ChunksFrom(m, max, sections, 0) == Resumed(m, max, sections, i, chunks)
      invariant TitleOr(declared, Shown(m, sections)) == TitleOr(title, Shown(m, sections[i..]))
    {
      var section := sections[i];
      ResumeStep(m, max, sections, i, chunks);
      TitleStep(m, sections, i, title);
      if m.shows(section.blocks) {
        if title.None? {
          title := TitleOf(section.blocks);
        }
        chunks := ChunkSection(m, max, section, chunks);
      } else {
        HiddenSection(m, max, section, chunks);
      }
    }
  }

  // ---- What the chunks of a document hold --------------------------------

  function FiledInChunks(chunks: seq<Chunk>): seq<Filed> {
    if chunks == [] then [] else File(chunks[0].blocks, chunks[0].headingPath) + FiledInChunks(chunks[1..])
  }

  lemma {:induction false} FiledInChunksAppend(a: seq<Chunk>, b: seq<Chunk>)
    ensures FiledInChunks(a + b) == FiledInChunks(a) + FiledInChunks(b)
  {
    if a == [] {
      assert a + b == b;
    } else {
      assert (a + b)[1..] == a[1..] + b;
      FiledInChunksAppend(a[1..], b);
    }
  }

  lemma {:induction false} FileAppend(a: seq<Block>, b: seq<Block>, path: seq<string>)
    ensures File(a + b, path) == File(a, path) + File(b, path)
  {
    if a == [] {
      assert a + b == b;
    } else {
      assert (a + b)[1..] == a[1..] + b;
      FileAppend(a[1..], b, path);
    }
  }

  predicate Numbered(chunks: seq<Chunk>, n: nat) {
    forall i | 0 <= i < |chunks| :: chunks[i].index == n + i
  }

  /** Within the cap, or a single block. */
  predicate WithinCap(chunk: Chunk, max: nat) {
    chunk.tokens <= max || |chunk.blocks| == 1
  }

  /** What `chunks`, numbered from `n`, hold. */
  predicate Holds(chunks: seq<Chunk>, filed: seq<Filed>, n: nat, max: nat) {
    FiledInChunks(chunks) == filed && Numbered(chunks, n) && forall c | c in chunks :: WithinCap(c, max)
  }

  lemma {:induction false} BatchChunks(batches: seq<Batch>, path: seq<string>, n: nat, max: nat)
    requires forall b | b in batches :: |b.blocks| == 1 || b.tokens <= max
    ensures var chunks := ChunksOfBatches(batches, path, n);
            Holds(chunks, File(BatchBlocks(batches), path), n, max)
  {
    if batches != [] {
      var first := Chunk(batches[0].blocks, path, n, batches[0].tokens);
      var rest := ChunksOfBatches(batches[1..], path, n + 1);
      BatchChunks(batches[1..], path, n + 1, max);
      FileAppend(batches[0].blocks, BatchBlocks(batches[1..]), path);
      assert ([first] + rest)[1..] == rest;
    }
  }

  lemma {:induction false} SectionChunks(m: Measure, max: nat, section: Section, n: nat)
    requires WellGrouped(section) && m.shows(section.blocks)
    ensures Holds(ChunksOfSection(m, max, section, n), File(section.blocks, section.headingPath), n, max)
  {
    if m.size(section.blocks) <= max {
      assert ChunksOfSection(m, max, section, n)[1..] == [];
    } else {
      PackConserves(m.cost, max, section.blocks);
      PackFits(m.cost, max, section.blocks);
      BatchChunks(Pack(m.cost, max, section.blocks), section.headingPath, n, max);
    }
  }

  lemma {:induction false} HoldsAppend(a: seq<Chunk>, b: seq<Chunk>, f: seq<Filed>, g: seq<Filed>, n: nat, max: nat)
    requires Holds(a, f, n, max) && Holds(b, g, n + |a|, max)
    ensures Holds(a + b, f + g, n, max)
  {
    FiledInChunksAppend(a, b);
  }

  /** The chunks of well-grouped sections hold the sections' blocks, each once, in order and under its
      path; they are numbered consecutively and only a chunk of one block exceeds the cap. */
  lemma {:induction false} ChunksHoldSections(m: Measure, max: nat, sections: seq<Section>, n: nat)
    requires forall s | s in sections :: WellGrouped(s) && m.shows(s.blocks)
    ensures Holds(ChunksFrom(m, max, sections, n), FiledIn(sections), n, max)
  {
    if sections != [] {
      var first := ChunksOfSection(m, max, sections[0], n);
      assert sections[0] in sections;
      SectionChunks(m, max, sections[0], n);
      ChunksHoldSections(m, max, sections[1..], n + |first|);
      HoldsAppend(first, ChunksFrom(m, max, sections[1..], n + |first|),
                  File(sections[0].blocks, sections[0].headingPath), FiledIn(sections[1..]), n, max);
    }
  }

  // ---- The only chunks ---------------------------------------------------

  /** The batches that chunks would have been made of. */
  function AsBatches(chunks: seq<Chunk>): (batches: seq<Batch>)
    ensures |batches| == |chunks|
  {
    seq(|chunks|, i requires 0 <= i < |chunks| => Batch(chunks[i].blocks, chunks[i].tokens))
  }

  predicate AllUnder(chunks: seq<Chunk>, path: seq<string>) {
    forall i | 0 <= i < |chunks| :: chunks[i].headingPath == path
  }

  /** A section without visible text has no chunk; one whose text fits is one chunk; any other is cut
      greedily, each chunk counting its own blocks. */
  predicate CutsSection(m: Measure, max: nat, section: Section, n: nat, chunks: seq<Chunk>) {
    if !m.shows(section.blocks) then chunks == []
    else if m.size(section.blocks) <= max then
      chunks == [Chunk(section.blocks, section.headingPath, n, m.size(section.blocks))]
    else
      && Numbered(chunks, n) && AllUnder(chunks, section.headingPath)
      && BatchBlocks(AsBatches(chunks)) == section.blocks && GreedyCut(m.cost, max, AsBatches(chunks))
  }

  /** The chunks are those of the sections, one section after the other. */
  ghost predicate CutsSections(m: Measure, max: nat, sections: seq<Section>, n: nat, chunks: seq<Chunk>)
    decreases |sections|, 1
  {
    if sections == [] then chunks == [] else exists k: nat :: CutsAt(m, max, sections, n, chunks, k)
  }

  /** The first `k` chunks are those of the first section. */
  ghost predicate CutsAt(m: Measure, max: nat, sections: seq<Section>, n: nat, chunks: seq<Chunk>, k: nat)
    requires sections != []
    decreases |sections|, 0
  {
    && k <= |chunks| && CutsSection(m, max, sections[0], n, chunks[..k])
    && CutsSections(m, max, sections[1..], n + k, chunks[k..])
  }

  lemma {:induction false} BatchesOfChunks(batches: seq<Batch>, path: seq<string>, n: nat)
    ensures var chunks := ChunksOfBatches(batches, path, n);
            AsBatches(chunks) == batches && Numbered(chunks, n) && AllUnder(chunks, path)
  {
    if batches != [] {
      var rest := ChunksOfBatches(batches[1..], path, n + 1);
      BatchesOfChunks(batches[1..], path, n + 1);
      forall i | 0 < i < |batches| ensures AsBatches(ChunksOfBatches(batches, path, n))[i] == batches[i] {
        assert AsBatches(rest)[i - 1] == batches[1..][i - 1];
      }
    }
  }

  lemma {:induction false} ChunksOfOwnBatches(chunks: seq<Chunk>, path: seq<string>, n: nat)
    requires Numbered(chunks, n) && AllUnder(chunks, path)
    ensures ChunksOfBatches(AsBatches(chunks), path, n) == chunks
  {
    if chunks != [] {
      assert AsBatches(chunks)[1..] == AsBatches(chunks[1..]);
      assert Numbered(chunks[1..], n + 1) by {
        assert forall i | 0 <= i < |chunks[1..]| :: chunks[1..][i] == chunks[i + 1];
      }
      ChunksOfOwnBatches(chunks[1..], path, n + 1);
    }
  }

  lemma {:induction false} SectionCutIsUnique(m: Measure, max: nat, section: Section, n: nat, chunks: seq<Chunk>)
    ensures CutsSection(m, max, section, n, chunks) <==> chunks == ChunksOfSection(m, max, section, n)
  {
    if m.shows(section.blocks) && m.size(section.blocks) > max {
      var batches := Pack(m.cost, max, section.blocks);
      BatchesOfChunks(batches, section.headingPath, n);
      PackIsTheOnlyGreedyCut(m.cost, max, section.blocks, batches);
      if CutsSection(m, max, section, n, chunks) {
        PackIsTheOnlyGreedyCut(m.cost, max, section.blocks, AsBatches(chunks));
        ChunksOfOwnBatches(chunks, section.headingPath, n);
      }
    }
  }

  lemma {:induction false} ChunksAreACut(m: Measure, max: nat, sections: seq<Section>, n: nat)
    ensures CutsSections(m, max, sections, n, ChunksFrom(m, max, sections, n))
  {
    if sections != [] {
      var all, first := ChunksFrom(m, max, sections, n), ChunksOfSection(m, max, sections[0], n);
      SectionCutIsUnique(m, max, sections[0], n, first);
      ChunksAreACut(m, max, sections[1..], n + |first|);
      assert all[..|first|] == first && all[|first|..] == ChunksFrom(m, max, sections[1..], n + |first|);
      assert CutsAt(m, max, sections, n, all, |first|);
    }
  }

  lemma {:induction false} CutIsTheChunks(m: Measure, max: nat, sections: seq<Section>, n: nat, chunks: seq<Chunk>)
    requires CutsSections(m, max, sections, n, chunks)
    ensures chunks == ChunksFrom(m, max, sections, n)
  {
    if sections != [] {
      var k: nat :| CutsAt(m, max, sections, n, chunks, k);
      SectionCutIsUnique(m, max, sections[0], n, chunks[..k]);
      CutIsTheChunks(m, max, sections[1..], n + k, chunks[k..]);
      assert chunks == chunks[..k] + chunks[k..];
    }
  }

  /** Chunks are those of a document if and only if, section by section, they are nothing for blank text,
      one chunk for text that fits, and otherwise a greedy cut at `max` in which each chunk counts its own
      blocks. */
  lemma {:induction false} ChunksAreTheOnlyCut(m: Measure, max: nat, sections: seq<Section>, n: nat,
                                               chunks: seq<Chunk>)
    ensures CutsSections(m, max, sections, n, chunks) <==> chunks == ChunksFrom(m, max, sections, n)
  {
    ChunksAreACut(m, max, sections, n);
    if CutsSections(m, max, sections, n, chunks) {
      CutIsTheChunks(m, max, sections, n, chunks);
    }
  }

  /** A way to cut each section into runs of blocks that fit or are single. */
  predicate Cuttings(m: Measure, max: nat, sections: seq<Section>, cuttings: seq<seq<seq<Block>>>) {
    |cuttings| == |sections| &&
    forall i | 0 <= i < |sections| ::
      Flatten(cuttings[i]) == sections[i].blocks && AllAdmissible(m.cost, max, cuttings[i])
  }

  predicate AllAdmissible(count: Ruler, max: nat, runs: seq<seq<Block>>) {
    forall r | r in runs :: Admissible(count, max, r)
  }

  lemma {:induction false} SectionChunksAreFewest(m: Measure, max: nat, section: Section, n: nat,
                                                  runs: seq<seq<Block>>)
    requires WellGrouped(section) && Flatten(runs) == section.blocks && AllAdmissible(m.cost, max, runs)
    ensures |ChunksOfSection(m, max, section, n)| <= |runs|
  {
    PackIsOptimal(m.cost, max, section.blocks, runs);
    BatchesOfChunks(Pack(m.cost, max, section.blocks), section.headingPath, n);
  }

  lemma {:induction false} FirstCutting(m: Measure, max: nat, sections: seq<Section>,
                                        cuttings: seq<seq<seq<Block>>>)
    requires sections != [] && (forall s | s in sections :: WellGrouped(s)) && Cuttings(m, max, sections, cuttings)
    ensures WellGrouped(sections[0]) && Flatten(cuttings[0]) == sections[0].blocks
    ensures AllAdmissible(m.cost, max, cuttings[0]) && Cuttings(m, max, sections[1..], cuttings[1..])
  {
    assert sections[0] in sections;
  }

  /** No way to cut every section into runs that fit or are single blocks has fewer runs in all than the
      document has chunks. */
  lemma {:induction false} ChunksAreFewest(m: Measure, max: nat, sections: seq<Section>, n: nat,
                                           cuttings: seq<seq<seq<Block>>>)
    requires (forall s | s in sections :: WellGrouped(s)) && Cuttings(m, max, sections, cuttings)
    ensures |ChunksFrom(m, max, sections, n)| <= |Flatten(cuttings)|
  {
    if sections != [] {
      var first := ChunksOfSection(m, max, sections[0], n);
      FirstCutting(m, max, sections, cuttings);
      SectionChunksAreFewest(m, max, sections[0], n, cuttings[0]);
      ChunksAreFewest(m, max, sections[1..], n + |first|, cuttings[1..]);
    }
  }

  /** The tokens are those of the whole text, within the cap, or the sum over the blocks. */
  predicate CountsItsOwn(m: Measure, max: nat, chunk: Chunk) {
    (chunk.tokens == m.size(chunk.blocks) && chunk.tokens <= max) || chunk.tokens == Sum(m.cost, chunk.blocks)
  }

  predicate AllCountTheirOwn(m: Measure, max: nat, chunks: seq<Chunk>) {
    forall i | 0 <= i < |chunks| :: CountsItsOwn(m, max, chunks[i])
  }

  lemma {:induction false} AllCountAppend(m: Measure, max: nat, a: seq<Chunk>, b: seq<Chunk>)
    requires AllCountTheirOwn(m, max, a) && AllCountTheirOwn(m, max, b)
    ensures AllCountTheirOwn(m, max, a + b)
  {
  }

  lemma {:induction false} SectionCountsItsOwn(m: Measure, max: nat, section: Section, n: nat)
    ensures AllCountTheirOwn(m, max, ChunksOfSection(m, max, section, n))
  {
    var chunks := ChunksOfSection(m, max, section, n);
    SectionCutIsUnique(m, max, section, n, chunks);
    if m.shows(section.blocks) && m.size(section.blocks) > max {
      forall i | 0 <= i < |chunks| ensures CountsItsOwn(m, max, chunks[i]) {
        assert IsBatch(m.cost, max, AsBatches(chunks)[i]);
      }
    }
  }

  lemma {:induction false} ChunksCountTheirOwn(m: Measure, max: nat, sections: seq<Section>, n: nat)
    ensures AllCountTheirOwn(m, max, ChunksFrom(m, max, sections, n))
  {
    if sections != [] {
      var first := ChunksOfSection(m, max, sections[0], n);
      SectionCountsItsOwn(m, max, sections[0], n);
      ChunksCountTheirOwn(m, max, sections[1..], n + |first|);
      AllCountAppend(m, max, first, ChunksFrom(m, max, sections[1..], n + |first|));
    }
  }

  /** The tokens of the blocks' texts, one block at a time. */
  function TextTokens(count: string -> nat, blocks: seq<Block>): nat {
    if blocks == [] then 0 else count(BlockText(blocks[0])) + TextTokens(count, blocks[1..])
  }

  lemma {:induction false} SumCountsText(count: string -> nat, blocks: seq<Block>)
    ensures Sum(TextMeasure(count).cost, blocks) == TextTokens(count, blocks)
  {
    if blocks != [] {
      SumCountsText(count, blocks[1..]);
    }
  }

  /** Every chunk's tokens are those of its stripped text, within the cap, or those of its blocks' texts. */
  lemma {:induction false} ChunksCountTheirText(count: string -> nat, max: nat, sections: seq<Section>, i: nat)
    requires i < |ChunksFrom(TextMeasure(count), max, sections, 0)|
    ensures var chunk := ChunksFrom(TextMeasure(count), max, sections, 0)[i];
            (chunk.tokens == count(Strip(BlocksText(chunk.blocks))) && chunk.tokens <= max) ||
            chunk.tokens == TextTokens(count, chunk.blocks)
  {
    var chunk := ChunksFrom(TextMeasure(count), max, sections, 0)[i];
    ChunksCountTheirOwn(TextMeasure(count), max, sections, 0);
    assert CountsItsOwn(TextMeasure(count), max, chunk);
    SumCountsText(count, chunk.blocks);
  }

  // ---- Text of scanned blocks --------------------------------------------

  predicate HasText(s: string) {
    exists i | 0 <= i < |s| :: !IsSpace(s[i])
  }

  /** A line of nothing but white space counts as blank. */
  predicate SpaceIsBlank(lines: seq<Line>) {
    forall l | l in lines :: l.Text? ==> HasText(l.raw)
  }

  /** A section's text shows if and only if it holds a character that is no white space. */
  lemma {:induction false} ShowsIffText(count: string -> nat, blocks: seq<Block>)
    ensures TextMeasure(count).shows(blocks) <==> HasText(BlocksText(blocks))
  {
    var text := BlocksText(blocks);
    if HasText(text) {
      var i :| 0 <= i < |text| && !IsSpace(text[i]);
      StripKeepsText(text, i);
    }
    var a, b := StripTrims(text);
    if Strip(text) != "" {
      assert text[|a|] == Strip(text)[0];
    }
  }

  lemma {:induction false} HasTextAppend(a: string, b: string)
    requires HasText(a) || HasText(b)
    ensures HasText(a + b)
  {
    if HasText(a) {
      var i :| 0 <= i < |a| && !IsSpace(a[i]);
      assert (a + b)[i] == a[i];
    } else {
      var i :| 0 <= i < |b| && !IsSpace(b[i]);
      assert (a + b)[|a| + i] == b[i];
    }
  }

  lemma {:induction false} BlocksShow(blocks: seq<Block>)
    requires blocks != [] && blocks[0].lines != [] && HasText(blocks[0].lines[0].raw)
    ensures Strip(BlocksText(blocks)) != ""
  {
    var raws := Raws(blocks[0].lines);
    assert raws[0] == blocks[0].lines[0].raw;
    if |raws| > 1 {
      HasTextAppend(raws[0], "\n" + JoinLines(raws[1..]));
      assert JoinLines(raws) == raws[0] + ("\n" + JoinLines(raws[1..]));
    }
    if |blocks| > 1 {
      HasTextAppend(BlockText(blocks[0]), "\n\n" + BlocksText(blocks[1..]));
      assert BlocksText(blocks) == BlockText(blocks[0]) + ("\n\n" + BlocksText(blocks[1..]));
    }
    var i :| 0 <= i < |BlocksText(blocks)| && !IsSpace(BlocksText(blocks)[i]);
    StripKeepsText(BlocksText(blocks), i);
  }

  predicate StartsWithText(block: Block) {
    block.lines != [] && HasText(block.lines[0].raw)
  }

  lemma {:induction false} ScannedBlocksStartWithText(lines: seq<Line>)
    requires SpaceIsBlank(lines)
    ensures forall b | b in Scan(lines) :: StartsWithText(b)
  {
    if lines != [] {
      if lines[0].Blank? {
        ScannedBlocksStartWithText(lines[1..]);
      } else {
        assert lines[0] in lines;
        ScannedBlocksStartWithText(lines[BlockLen(lines)..]);
      }
    }
  }

  lemma {:induction false} SectionShows(blocks: seq<Block>, p: nat, e: nat)
    requires p < e <= |blocks| && forall b | b in blocks :: StartsWithText(b)
    ensures Strip(BlocksText(blocks[p..e])) != ""
  {
    assert blocks[p] in blocks;
    BlocksShow(blocks[p..e]);
  }

  lemma {:induction false} SectionsShow(blocks: seq<Block>, p: nat)
    requires p <= |blocks| && forall b | b in blocks :: StartsWithText(b)
    ensures forall s | s in SectionsFrom(blocks, p) :: Strip(BlocksText(s.blocks)) != ""
    decreases |blocks| - p
  {
    if p < |blocks| {
      var e := NextHeading(blocks, p + 1);
      SectionShows(blocks, p, e);
      SectionsShow(blocks, e);
    }
  }

  // ---- The whole document ------------------------------------------------

  method ParseBody(count: string -> nat, max: nat, lines: seq<Line>, declared: Option<string>)
    returns (chunks: seq<Chunk>, title: Option<string>)
    ensures chunks == ChunksFrom(TextMeasure(count), max, SectionsFrom(Scan(lines), 0), 0)
    ensures declared.Some? ==> title == declared
    ensures declared.None? ==> title == FirstTitle(Shown(TextMeasure(count), SectionsFrom(Scan(lines), 0)))
  {
    var blocks := ScanBlocks(lines);
    var sections := GroupIntoSections(blocks);
    chunks, title := ChunkSections(TextMeasure(count), max, sections, declared);
  }

  function Unfiled(filed: seq<Filed>): seq<Block> {
    if filed == [] then [] else [filed[0].block] + Unfiled(filed[1..])
  }

  lemma {:induction false} UnfiledAppend(a: seq<Filed>, b: seq<Filed>)
    ensures Unfiled(a + b) == Unfiled(a) + Unfiled(b)
  {
    if a == [] {
      assert a + b == b;
    } else {
      assert (a + b)[1..] == a[1..] + b;
      UnfiledAppend(a[1..], b);
    }
  }

  lemma {:induction false} UnfiledFile(blocks: seq<Block>, path: seq<string>)
    ensures Unfiled(File(blocks, path)) == blocks
  {
    if blocks != [] {
      UnfiledFile(blocks[1..], path);
      assert File(blocks, path)[1..] == File(blocks[1..], path);
    }
  }

  lemma {:induction false} AllShown(m: Measure, sections: seq<Section>)
    requires forall s | s in sections :: m.shows(s.blocks)
    ensures Shown(m, sections) == Unfiled(FiledIn(sections))
  {
    if sections != [] {
      assert sections[0] in sections;
      AllShown(m, sections[1..]);
      UnfiledFile(sections[0].blocks, sections[0].headingPath);
      UnfiledAppend(File(sections[0].blocks, sections[0].headingPath), FiledIn(sections[1..]));
    }
  }

  /** From lines to chunks, for any token count and cap: the chunks hold every block of the body but
      the stub headings, each once, in order and under the path of the headings before it; they are
      numbered from 0; only a chunk of one block exceeds the cap; and an undeclared title is the first
      heading of level 1 that is not a stub. */
  lemma {:induction false} ChunksHoldTheDocument(count: string -> nat, max: nat, lines: seq<Line>,
                                                 declared: Option<string>)
    requires SpaceIsBlank(lines)
    ensures var m, blocks := TextMeasure(count), Scan(lines);
            Holds(ChunksFrom(m, max, SectionsFrom(blocks, 0), 0), Kept(blocks, 0), 0, max) &&
            TitleOr(declared, Shown(m, SectionsFrom(blocks, 0))) == TitleOr(declared, Unfiled(Kept(blocks, 0)))
  {
    var m, blocks := TextMeasure(count), Scan(lines);
    var sections := SectionsFrom(blocks, 0);
    ScannedBlocksStartWithText(lines);
    SectionsShow(blocks, 0);
    SectionsAreWellGrouped(blocks, 0);
    ChunksHoldSections(m, max, sections, 0);
    AllShown(m, sections);
    SectionsDropOnlyStubs(blocks);
  }

  // ---- Which heading gives the title -------------------------------------

  predicate TopAt(blocks: seq<Block>, i: nat)
    requires i < |blocks|
  {
    IsHeading(blocks[i]) && blocks[i].kind.level == 1
  }

  /** The position of the first heading of level 1 from `i` on, or the end. */
  function FirstTop(blocks: seq<Block>, i: nat): (f: nat)
    requires i <= |blocks|
    ensures i <= f <= |blocks| && (f < |blocks| ==> TopAt(blocks, f))
    decreases |blocks| - i
  {
    if i == |blocks| || TopAt(blocks, i) then i else FirstTop(blocks, i + 1)
  }

  /** The position of the heading that the title is taken from, or the end. */
  function TitleAt(blocks: seq<Block>, i: nat): (t: nat)
    requires i <= |blocks|
    ensures i <= t <= |blocks| && (t < |blocks| ==> TopAt(blocks, t) && !IsStub(blocks, t))
    decreases |blocks| - i
  {
    if i == |blocks| || (TopAt(blocks, i) && !IsStub(blocks, i)) then i else TitleAt(blocks, i + 1)
  }

  lemma {:induction false} FirstTopIsFirst(blocks: seq<Block>, i: nat, k: nat)
    requires i <= |blocks| && i <= k < FirstTop(blocks, i)
    ensures !TopAt(blocks, k)
    decreases |blocks| - i
  {
    if i < k {
      FirstTopIsFirst(blocks, i + 1, k);
    }
  }

  lemma {:induction false} TitleAtFirstTop(blocks: seq<Block>, i: nat)
    requires i <= |blocks|
    ensures TitleAt(blocks, i) == FirstTop(blocks, i) <==>
            FirstTop(blocks, i) == |blocks| || !IsStub(blocks, FirstTop(blocks, i))
    decreases |blocks| - i
  {
    if i < |blocks| && !TopAt(blocks, i) {
      TitleAtFirstTop(blocks, i + 1);
    }
  }

  function HeadingText(blocks: seq<Block>, i: nat): Option<string>
    requires i < |blocks| ==> IsHeading(blocks[i])
  {
    if i < |blocks| then Some(blocks[i].kind.text) else None
  }

  lemma {:induction false} KeptBlocksStep(blocks: seq<Block>, i: nat)
    requires i < |blocks|
    ensures Unfiled(Kept(blocks, i)) == (if IsStub(blocks, i) then [] else [blocks[i]]) + Unfiled(Kept(blocks, i + 1))
  {
    if !IsStub(blocks, i) {
      assert Kept(blocks, i)[1..] == Kept(blocks, i + 1);
    }
  }

  lemma {:induction false} FirstTitleCons(block: Block, rest: seq<Block>)
    ensures FirstTitle([block] + rest) ==
            if IsHeading(block) && block.kind.level == 1 then Some(block.kind.text) else FirstTitle(rest)
  {
    assert ([block] + rest)[1..] == rest;
  }

  lemma {:induction false} KeptTitle(blocks: seq<Block>, i: nat)
    requires i <= |blocks|
    ensures FirstTitle(Unfiled(Kept(blocks, i))) == HeadingText(blocks, TitleAt(blocks, i))
    decreases |blocks| - i
  {
    if i < |blocks| {
      var rest := Unfiled(Kept(blocks, i + 1));
      KeptTitle(blocks, i + 1);
      KeptBlocksStep(blocks, i);
      FirstTitleCons(blocks[i], rest);
      assert [] + rest == rest;
    }
  }

  /** An undeclared title is the text of the heading at `TitleAt`, and that is the document's first heading
      of level 1 if and only if there is none or it is not directly followed by a heading or the end. */
  lemma {:induction false} TitleIsFirstTopIffNoStub(count: string -> nat, lines: seq<Line>)
    requires SpaceIsBlank(lines)
    ensures var blocks := Scan(lines);
            && TitleOr(None, Shown(TextMeasure(count), SectionsFrom(blocks, 0))) ==
               HeadingText(blocks, TitleAt(blocks, 0))
            && (TitleAt(blocks, 0) == FirstTop(blocks, 0) <==>
                FirstTop(blocks, 0) == |blocks| || !IsStub(blocks, FirstTop(blocks, 0)))
  {
    ChunksHoldTheDocument(count, 0, lines, None);
    KeptTitle(Scan(lines), 0);
    TitleAtFirstTop(Scan(lines), 0);
  }

  function TextLine(raw: string): Line {
    Text(raw, false, true, None, None, false, false, false)
  }

  lemma {:induction false} ScanOfTextLine(raw: string)
    ensures Scan([TextLine(raw)]) == [Block(Paragraph, [TextLine(raw)])]
  {
    var body := [TextLine(raw)];
    assert body[1..] == [] && body[..1] == body;
    assert Scan(body) == [Block(Paragraph, body)] + Scan([]);
  }

  lemma {:induction false} ScanOfStubDocument()
    ensures Scan([HeadingLine(1, "Top"), HeadingLine(2, "Sub"), TextLine("Body.")]) ==
            [HeadingBlock(1, "Top"), HeadingBlock(2, "Sub"), Block(Paragraph, [TextLine("Body.")])]
  {
    ScanOfTextLine("Body.");
    TwoHeadings(1, "Top", 2, "Sub", TextLine("Body."));
  }

  lemma {:induction false} TwoHeadings(l: Level, a: string, m: Level, b: string, line: Line)
    ensures Scan([HeadingLine(l, a), HeadingLine(m, b), line]) ==
            [HeadingBlock(l, a), HeadingBlock(m, b)] + Scan([line])
  {
    var top, sub, body := [HeadingLine(l, a)], [HeadingLine(m, b)], [line];
    ScanOfHeading(m, b, body);
    ScanOfHeading(l, a, sub + body);
    assert top + (sub + body) == [HeadingLine(l, a), HeadingLine(m, b), line];
    var first, second := [HeadingBlock(l, a)], [HeadingBlock(m, b)];
    assert first + (second + Scan(body)) == [HeadingBlock(l, a), HeadingBlock(m, b)] + Scan(body);
  }

  lemma {:induction false} StubDocumentHasText()
    ensures SpaceIsBlank([HeadingLine(1, "Top"), HeadingLine(2, "Sub"), TextLine("Body.")])
  {
    assert !IsSpace(HeadingLine(1, "Top").raw[0]) && !IsSpace(HeadingLine(2, "Sub").raw[0]);
    assert !IsSpace(TextLine("Body.").raw[0]);
  }

  lemma {:induction false} TitleOfStubDocument(body: Block)
    requires !IsHeading(body)
    ensures var blocks := [HeadingBlock(1, "Top"), HeadingBlock(2, "Sub"), body];
            HeadingText(blocks, FirstTop(blocks, 0)) == Some("Top") && TitleAt(blocks, 0) == |blocks|
  {
    var blocks := [HeadingBlock(1, "Top"), HeadingBlock(2, "Sub"), body];
    assert TopAt(blocks, 0) && IsStub(blocks, 0) && !TopAt(blocks, 1) && !TopAt(blocks, 2);
    assert TitleAt(blocks, 2) == TitleAt(blocks, 3) == 3;
    assert TitleAt(blocks, 0) == TitleAt(blocks, 1) == TitleAt(blocks, 2);
  }

  /** `# Top`, `## Sub`, `Body.`: the first heading of level 1 is there, and the document has no title. */
  lemma {:induction false} StubTitleIsLost(count: string -> nat)
    ensures var blocks := Scan([HeadingLine(1, "Top"), HeadingLine(2, "Sub"), TextLine("Body.")]);
            HeadingText(blocks, FirstTop(blocks, 0)) == Some("Top") &&
            TitleOr(None, Shown(TextMeasure(count), SectionsFrom(blocks, 0))) == None
  {
    var lines := [HeadingLine(1, "Top"), HeadingLine(2, "Sub"), TextLine("Body.")];
    StubDocumentHasText();
    ScanOfStubDocument();
    TitleOfStubDocument(Block(Paragraph, [TextLine("Body.")]));
    TitleIsFirstTopIffNoStub(count, lines);
  }
}
