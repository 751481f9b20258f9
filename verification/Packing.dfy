/** Greedy packing of a section's blocks into batches. */
module Packing {
  import opened Wrappers
  import opened Scanner
  import opened Sections

  /** How many tokens a block's text has; any ruler will do. */
  type Ruler = Block -> nat

  function Sum(count: Ruler, blocks: seq<Block>): nat {
    if blocks == [] then 0 else count(blocks[0]) + Sum(count, blocks[1..])
  }

  datatype Batch = Batch(blocks: seq<Block>, tokens: nat)

  /** How many of the blocks still join a batch that has `used` tokens; a heading always joins. */
  function Fill(count: Ruler, max: nat, blocks: seq<Block>, used: nat): (k: nat)
    ensures k <= |blocks|
  {
    if blocks == [] || (used + count(blocks[0]) > max && !IsHeading(blocks[0])) then 0
    else 1 + Fill(count, max, blocks[1..], used + count(blocks[0]))
  }

  /** How many blocks the first batch takes: one always fits. */
  function FirstLen(count: Ruler, max: nat, blocks: seq<Block>): (k: nat)
    requires blocks != []
    ensures 1 <= k <= |blocks|
  {
    1 + Fill(count, max, blocks[1..], count(blocks[0]))
  }

  function Pack(count: Ruler, max: nat, blocks: seq<Block>): seq<Batch> {
    if blocks == [] then []
    else
      var k := FirstLen(count, max, blocks);
      [Batch(blocks[..k], Sum(count, blocks[..k]))] + Pack(count, max, blocks[k..])
  }

  /** The packing of what is left, when the batch `buf` is still open. */
  function PackOnto(count: Ruler, max: nat, buf: seq<Block>, rest: seq<Block>): seq<Batch> {
    if buf == [] then Pack(count, max, rest)
    else
      var k := Fill(count, max, rest, Sum(count, buf));
      [Batch(buf + rest[..k], Sum(count, buf + rest[..k]))] + Pack(count, max, rest[k..])
  }

  lemma {:induction false} SumAppend(count: Ruler, a: seq<Block>, b: seq<Block>)
    ensures Sum(count, a + b) == Sum(count, a) + Sum(count, b)
  {
    if a == [] {
      assert a + b == b;
    } else {
      assert (a + b)[1..] == a[1..] + b;
      SumAppend(count, a[1..], b);
    }
  }

  lemma {:induction false} SumOne(count: Ruler, block: Block)
    ensures Sum(count, [block]) == count(block)
  {
    assert [block][1..] == [];
  }

  /** A block that does not fit closes the open batch and opens the next one. */
  lemma {:induction false} PackCloses(count: Ruler, max: nat, buf: seq<Block>, block: Block, rest: seq<Block>)
    requires buf != [] && Sum(count, buf) + count(block) > max && !IsHeading(block)
    ensures PackOnto(count, max, buf, [block] + rest) ==
            [Batch(buf, Sum(count, buf))] + PackOnto(count, max, [block], rest)
  {
    var all := [block] + rest;
    assert Fill(count, max, all, Sum(count, buf)) == 0;
    assert buf + all[..0] == buf && all[0..] == all;
    PackOpens(count, max, block, rest);
  }

  lemma {:induction false} PackOpens(count: Ruler, max: nat, block: Block, rest: seq<Block>)
    ensures Pack(count, max, [block] + rest) == PackOnto(count, max, [block], rest)
  {
    var all := [block] + rest;
    SumOne(count, block);
    assert all[1..] == rest;
    var k := Fill(count, max, rest, count(block));
    assert all[..1 + k] == [block] + rest[..k] && all[1 + k..] == rest[k..];
  }

  lemma {:induction false} PackJoins(count: Ruler, max: nat, buf: seq<Block>, block: Block, rest: seq<Block>)
    requires buf == [] || Sum(count, buf) + count(block) <= max || IsHeading(block)
    ensures PackOnto(count, max, buf, [block] + rest) == PackOnto(count, max, buf + [block], rest)
  {
    if buf == [] {
      PackOpens(count, max, block, rest);
      assert buf + [block] == [block];
    } else {
      var all := [block] + rest;
      assert all[1..] == rest;
      SumPush(count, buf, block);
      var k := Fill(count, max, rest, Sum(count, buf + [block]));
      assert Fill(count, max, all, Sum(count, buf)) == 1 + k;
      assert buf + all[..1 + k] == buf + [block] + rest[..k] && all[1 + k..] == rest[k..];
    }
  }

  lemma {:induction false} SumPush(count: Ruler, buf: seq<Block>, block: Block)
    ensures Sum(count, buf + [block]) == Sum(count, buf) + count(block)
  {
    SumAppend(count, buf, [block]);
    SumOne(count, block);
  }

  /** The loop as a fold: the next block closes the open batch or joins it. */
  function Fold(count: Ruler, max: nat, buf: seq<Block>, rest: seq<Block>): seq<Batch>
    decreases |rest|
  {
    if rest == [] then (if buf == [] then [] else [Batch(buf, Sum(count, buf))])
    else if buf != [] && Sum(count, buf) + count(rest[0]) > max && !IsHeading(rest[0]) then
      [Batch(buf, Sum(count, buf))] + Fold(count, max, [rest[0]], rest[1..])
    else Fold(count, max, buf + [rest[0]], rest[1..])
  }

  lemma {:induction false} FoldIsPack(count: Ruler, max: nat, buf: seq<Block>, rest: seq<Block>)
    ensures Fold(count, max, buf, rest) == PackOnto(count, max, buf, rest)
    decreases |rest|
  {
    if rest == [] {
      assert buf + [] == buf;
    } else {
      assert rest == [rest[0]] + rest[1..];
      if buf != [] && Sum(count, buf) + count(rest[0]) > max && !IsHeading(rest[0]) {
        FoldIsPack(count, max, [rest[0]], rest[1..]);
        PackCloses(count, max, buf, rest[0], rest[1..]);
      } else {
        FoldIsPack(count, max, buf + [rest[0]], rest[1..]);
        PackJoins(count, max, buf, rest[0], rest[1..]);
      }
    }
  }

  method PackBlocks(count: Ruler, max: nat, blocks: seq<Block>) returns (batches: seq<Batch>)
    ensures batches == Pack(count, max, blocks)
  {
    batches := [];
    var buf: seq<Block> := [];
    var tokens := 0;
    assert blocks[0..] == blocks;
    for i := 0 to |blocks|
      invariant tokens == Sum(count, buf)
      invariant Fold(count, max, [], blocks) == batches + Fold(count, max, buf, blocks[i..])
    {
      var block := blocks[i];
      var cost := count(block);
      assert blocks[i..][1..] == blocks[i + 1..];
      if buf != [] && tokens + cost > max && !IsHeading(block) {
        batches := batches + [Batch(buf, tokens)];
        buf := [];
        tokens := 0;
        assert buf + [block] == [block];
      }
      SumPush(count, buf, block);
      buf := buf + [block];
      tokens := tokens + cost;
    }
    if buf != [] {
      batches := batches + [Batch(buf, tokens)];
    }
    FoldIsPack(count, max, [], blocks);
  }

  // ---- What packing guarantees -------------------------------------------

  function BatchBlocks(batches: seq<Batch>): seq<Block> {
    if batches == [] then [] else batches[0].blocks + BatchBlocks(batches[1..])
  }

  lemma {:induction false} BatchBlocksCons(batch: Batch, rest: seq<Batch>)
    ensures BatchBlocks([batch] + rest) == batch.blocks + BatchBlocks(rest)
  {
    assert ([batch] + rest)[1..] == rest;
  }

  lemma {:induction false} PackRebuilds(count: Ruler, max: nat, blocks: seq<Block>)
    ensures BatchBlocks(Pack(count, max, blocks)) == blocks
  {
    if blocks != [] {
      var k := FirstLen(count, max, blocks);
      var first, rest := Batch(blocks[..k], Sum(count, blocks[..k])), Pack(count, max, blocks[k..]);
      PackRebuilds(count, max, blocks[k..]);
      BatchBlocksCons(first, rest);
      assert blocks[..k] + blocks[k..] == blocks;
    }
  }

  lemma {:induction false} PackCounts(count: Ruler, max: nat, blocks: seq<Block>)
    ensures forall b | b in Pack(count, max, blocks) :: b.blocks != [] && b.tokens == Sum(count, b.blocks)
  {
    if blocks != [] {
      PackCounts(count, max, blocks[FirstLen(count, max, blocks)..]);
    }
  }

  /** The batches are non-empty, concatenate to the blocks in order, and count their own tokens. */
  lemma {:induction false} PackConserves(count: Ruler, max: nat, blocks: seq<Block>)
    ensures BatchBlocks(Pack(count, max, blocks)) == blocks
    ensures forall b | b in Pack(count, max, blocks) :: b.blocks != [] && b.tokens == Sum(count, b.blocks)
  {
    PackRebuilds(count, max, blocks);
    PackCounts(count, max, blocks);
  }

  predicate NoHeadings(blocks: seq<Block>) {
    forall i | 0 <= i < |blocks| :: !IsHeading(blocks[i])
  }

  lemma {:induction false} FillFits(count: Ruler, max: nat, blocks: seq<Block>, used: nat)
    requires NoHeadings(blocks)
    ensures var k := Fill(count, max, blocks, used); k == 0 || used + Sum(count, blocks[..k]) <= max
  {
    var k := Fill(count, max, blocks, used);
    if k > 0 {
      FillFits(count, max, blocks[1..], used + count(blocks[0]));
      assert blocks[..k][1..] == blocks[1..][..k - 1];
    }
  }

  lemma {:induction false} NoHeadingsInTail(blocks: seq<Block>, k: nat)
    requires 0 < k <= |blocks| && NoHeadings(blocks[1..])
    ensures k < |blocks| ==> NoHeadings(blocks[k..][1..])
  {
    if k < |blocks| {
      assert blocks[k..][1..] == blocks[1..][k..];
    }
  }

  /** Where no heading follows the first block, only a single block can exceed the cap. */
  lemma {:induction false} PackFits(count: Ruler, max: nat, blocks: seq<Block>)
    requires blocks != [] ==> NoHeadings(blocks[1..])
    ensures forall b | b in Pack(count, max, blocks) :: |b.blocks| == 1 || b.tokens <= max
  {
    if blocks != [] {
      var f := Fill(count, max, blocks[1..], count(blocks[0]));
      FillFits(count, max, blocks[1..], count(blocks[0]));
      assert blocks[..f + 1][1..] == blocks[1..][..f];
      NoHeadingsInTail(blocks, f + 1);
      PackFits(count, max, blocks[f + 1..]);
    }
  }

  lemma {:induction false} FillAtLeast(count: Ruler, max: nat, blocks: seq<Block>, used: nat, m: nat)
    requires m <= |blocks| && used + Sum(count, blocks[..m]) <= max
    ensures Fill(count, max, blocks, used) >= m
  {
    if m > 0 {
      assert blocks[..m][1..] == blocks[1..][..m - 1];
      FillAtLeast(count, max, blocks[1..], used + count(blocks[0]), m - 1);
    }
  }

  /** A run that a chunk may hold: it fits, or it is a single block. */
  predicate Admissible(count: Ruler, max: nat, run: seq<Block>) {
    |run| == 1 || (run != [] && Sum(count, run) <= max)
  }

  lemma {:induction false} PackLength(count: Ruler, max: nat, blocks: seq<Block>)
    requires blocks != []
    ensures |Pack(count, max, blocks)| == 1 + |Pack(count, max, blocks[FirstLen(count, max, blocks)..])|
  {
  }

  /** Started inside an admissible run, the first batch takes at least the rest of that run. */
  lemma {:induction false} GreedyReaches(count: Ruler, max: nat, run: seq<Block>, d: nat, rest: seq<Block>)
    requires d < |run| && Admissible(count, max, run)
    ensures var g := (run + rest)[d..];
            g != [] && FirstLen(count, max, g) >= |run| - d &&
            g[FirstLen(count, max, g)..] == rest[d + FirstLen(count, max, g) - |run|..]
  {
    var g := (run + rest)[d..];
    if d + 1 < |run| {
      assert run == run[..d] + run[d..];
      SumAppend(count, run[..d], run[d..]);
      assert g[1..][..|run| - d - 1] == run[d..][1..];
      FillAtLeast(count, max, g[1..], count(g[0]), |run| - d - 1);
    }
  }

  /** Where in what follows the run the greedy packing has got to after its next batch. */
  function Lead(count: Ruler, max: nat, run: seq<Block>, d: nat, rest: seq<Block>): (d': nat)
    requires d < |run| && Admissible(count, max, run)
    ensures d' <= |rest|
    ensures |Pack(count, max, (run + rest)[d..])| == 1 + |Pack(count, max, rest[d'..])|
  {
    var g := (run + rest)[d..];
    GreedyReaches(count, max, run, d, rest);
    PackLength(count, max, g);
    d + FirstLen(count, max, g) - |run|
  }

  /** Greedy packing that starts no earlier than any other admissible split needs no more runs. */
  lemma {:induction false} GreedyStaysAhead(count: Ruler, max: nat, d: nat, runs: seq<seq<Block>>)
    requires d <= |Flatten(runs)|
    requires forall r | r in runs :: Admissible(count, max, r)
    ensures |Pack(count, max, Flatten(runs)[d..])| <= |runs|
    decreases |runs|
  {
    if runs != [] {
      var run, rest := runs[0], Flatten(runs[1..]);
      assert run in runs;
      if d >= |run| {
        assert (run + rest)[d..] == rest[d - |run|..];
        GreedyStaysAhead(count, max, d - |run|, runs[1..]);
      } else {
        GreedyStaysAhead(count, max, Lead(count, max, run, d, rest), runs[1..]);
      }
    }
  }

  /** No split of the blocks into contiguous runs that each fit or are a single block has fewer runs. */
  lemma {:induction false} PackIsOptimal(count: Ruler, max: nat, blocks: seq<Block>, runs: seq<seq<Block>>)
    requires Flatten(runs) == blocks && forall r | r in runs :: Admissible(count, max, r)
    ensures |Pack(count, max, blocks)| <= |runs|
  {
    assert blocks[0..] == blocks;
    GreedyStaysAhead(count, max, 0, runs);
  }

  // ---- The only greedy cut -----------------------------------------------

  /** A block joins the blocks before it if it is a heading or fits beside them. */
  predicate Joins(count: Ruler, max: nat, run: seq<Block>, block: Block) {
    IsHeading(block) || Sum(count, run) + count(block) <= max
  }

  /** Each block but the first joins those before it, and the tokens are the sum. */
  predicate IsBatch(count: Ruler, max: nat, batch: Batch) {
    && batch.blocks != [] && batch.tokens == Sum(count, batch.blocks)
    && forall j | 0 < j < |batch.blocks| :: Joins(count, max, batch.blocks[..j], batch.blocks[j])
  }

  /** Every batch is closed only by a block that does not join it. */
  predicate GreedyCut(count: Ruler, max: nat, batches: seq<Batch>) {
    && (forall i | 0 <= i < |batches| :: IsBatch(count, max, batches[i]))
    && (forall i | 0 < i < |batches| :: !Joins(count, max, batches[i - 1].blocks, batches[i].blocks[0]))
  }

  /** Does the block at `j` join the ones before it, beside `used` other tokens? */
  predicate JoinsAt(count: Ruler, max: nat, blocks: seq<Block>, used: nat, j: nat)
    requires j < |blocks|
  {
    IsHeading(blocks[j]) || used + Sum(count, blocks[..j]) + count(blocks[j]) <= max
  }

  lemma {:induction false} JoinsAtTail(count: Ruler, max: nat, blocks: seq<Block>, used: nat, j: nat)
    requires 0 < j < |blocks|
    ensures JoinsAt(count, max, blocks, used, j) <==>
            JoinsAt(count, max, blocks[1..], used + count(blocks[0]), j - 1)
  {
    assert blocks[..j][1..] == blocks[1..][..j - 1];
  }

  lemma {:induction false} FillStops(count: Ruler, max: nat, blocks: seq<Block>, used: nat)
    ensures var k := Fill(count, max, blocks, used);
            k < |blocks| ==> !JoinsAt(count, max, blocks, used, k)
  {
    var k := Fill(count, max, blocks, used);
    if 0 < k < |blocks| {
      FillStops(count, max, blocks[1..], used + count(blocks[0]));
      JoinsAtTail(count, max, blocks, used, k);
    }
  }

  lemma {:induction false} FillJoins(count: Ruler, max: nat, blocks: seq<Block>, used: nat, j: nat)
    requires j < Fill(count, max, blocks, used)
    ensures JoinsAt(count, max, blocks, used, j)
  {
    if j > 0 {
      FillJoins(count, max, blocks[1..], used + count(blocks[0]), j - 1);
      JoinsAtTail(count, max, blocks, used, j);
    }
  }

  /** The first batch is closed by a block that does not join it. */
  lemma {:induction false} FirstStops(count: Ruler, max: nat, blocks: seq<Block>)
    requires blocks != []
    ensures var k := FirstLen(count, max, blocks);
            k < |blocks| ==> !Joins(count, max, blocks[..k], blocks[k])
  {
    var k := FirstLen(count, max, blocks);
    FillStops(count, max, blocks[1..], count(blocks[0]));
    if k < |blocks| {
      JoinsAtTail(count, max, blocks, 0, k);
    }
  }

  lemma {:induction false} FirstJoins(count: Ruler, max: nat, blocks: seq<Block>, j: nat)
    requires blocks != [] && 0 < j < FirstLen(count, max, blocks)
    ensures Joins(count, max, blocks[..j], blocks[j])
  {
    FillJoins(count, max, blocks[1..], count(blocks[0]), j - 1);
    JoinsAtTail(count, max, blocks, 0, j);
  }

  lemma {:induction false} FirstIsBatch(count: Ruler, max: nat, blocks: seq<Block>)
    requires blocks != []
    ensures IsBatch(count, max, Pack(count, max, blocks)[0])
  {
    var k := FirstLen(count, max, blocks);
    forall j | 0 < j < k ensures Joins(count, max, blocks[..k][..j], blocks[..k][j]) {
      FirstJoins(count, max, blocks, j);
      assert blocks[..k][..j] == blocks[..j];
    }
  }

  lemma {:induction false} GreedyCons(count: Ruler, max: nat, batch: Batch, rest: seq<Batch>)
    requires IsBatch(count, max, batch) && GreedyCut(count, max, rest)
    requires rest != [] ==> !Joins(count, max, batch.blocks, rest[0].blocks[0])
    ensures GreedyCut(count, max, [batch] + rest)
  {
  }

  lemma {:induction false} GreedyTail(count: Ruler, max: nat, batches: seq<Batch>)
    requires batches != [] && GreedyCut(count, max, batches)
    ensures GreedyCut(count, max, batches[1..])
  {
  }

  lemma {:induction false} PackIsGreedy(count: Ruler, max: nat, blocks: seq<Block>)
    ensures GreedyCut(count, max, Pack(count, max, blocks))
  {
    if blocks != [] {
      var k := FirstLen(count, max, blocks);
      PackIsGreedy(count, max, blocks[k..]);
      FirstIsBatch(count, max, blocks);
      FirstStops(count, max, blocks);
      GreedyCons(count, max, Pack(count, max, blocks)[0], Pack(count, max, blocks[k..]));
    }
  }

  /** A first batch that a block closes, or the end, is the one that the packer makes. */
  lemma {:induction false} FirstIsForced(count: Ruler, max: nat, batch: Batch, rest: seq<Block>)
    requires IsBatch(count, max, batch) && (rest != [] ==> !Joins(count, max, batch.blocks, rest[0]))
    ensures FirstLen(count, max, batch.blocks + rest) == |batch.blocks|
  {
    var blocks, n := batch.blocks + rest, |batch.blocks|;
    var k := FirstLen(count, max, blocks);
    assert blocks[..n] == batch.blocks;
    if k < n {
      assert blocks[..k] == batch.blocks[..k];
      FirstStops(count, max, blocks);
    } else if k > n {
      FirstJoins(count, max, blocks, n);
    }
  }

  lemma {:induction false} GreedyIsPack(count: Ruler, max: nat, batches: seq<Batch>)
    requires GreedyCut(count, max, batches)
    ensures batches == Pack(count, max, BatchBlocks(batches))
  {
    if batches != [] {
      var first, rest := batches[0], BatchBlocks(batches[1..]);
      GreedyTail(count, max, batches);
      GreedyIsPack(count, max, batches[1..]);
      if |batches| > 1 {
        assert rest[0] == batches[1].blocks[0];
      }
      FirstIsForced(count, max, first, rest);
      var blocks := first.blocks + rest;
      assert blocks[..|first.blocks|] == first.blocks && blocks[|first.blocks|..] == rest;
    }
  }

  /** A cut of the blocks into batches is the packer's if and only if each batch takes every block that
      joins it and no other. */
  lemma {:induction false} PackIsTheOnlyGreedyCut(count: Ruler, max: nat, blocks: seq<Block>, batches: seq<Batch>)
    ensures BatchBlocks(batches) == blocks && GreedyCut(count, max, batches) <==> batches == Pack(count, max, blocks)
  {
    PackIsGreedy(count, max, blocks);
    PackRebuilds(count, max, blocks);
    if GreedyCut(count, max, batches) {
      GreedyIsPack(count, max, batches);
    }
  }

  /** A section's heading is packed alone exactly when the block after it does not fit beside it. */
  lemma {:induction false} HeadingAloneWhenNextDoesNotFit(count: Ruler, max: nat, blocks: seq<Block>)
    requires |blocks| > 1 && IsHeading(blocks[0]) && !IsHeading(blocks[1])
    ensures Pack(count, max, blocks)[0].blocks == [blocks[0]] <==>
            count(blocks[0]) + count(blocks[1]) > max
  {
    assert blocks[1..][0] == blocks[1];
    assert Pack(count, max, blocks)[0].blocks ==
           blocks[..1 + Fill(count, max, blocks[1..], count(blocks[0]))];
  }
}
