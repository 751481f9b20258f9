/** Re-embedding every stored chunk: what is written, what is counted and when the whole run is an error. */
module Reembed {
  import opened Wrappers
  import opened FanOut
  import opened FanOutRun

  type ChunkId = nat

  datatype Chunk = Chunk(id: ChunkId, content: Text, contentHash: string)

  datatype Row = Row(embedding: Vector, contentHash: string)

  type Rows = map<ChunkId, Row>

  datatype Report = Report(total: nat, embedded: nat, failed: nat, failures: seq<Failure>)

  function Contents(chunks: seq<Chunk>): (texts: seq<Text>)
    ensures |texts| == |chunks|
  {
    seq(|chunks|, i requires 0 <= i < |chunks| => chunks[i].content)
  }

  /** The rows after every chunk that has a vector was upserted, in turn. */
  function Upserted(rows: Rows, chunks: seq<Chunk>, vectors: seq<Option<Vector>>): Rows
    requires |chunks| == |vectors|
    decreases |chunks|
  {
    if chunks == [] then rows
    else
      Upserted(if vectors[0].Some? then rows[chunks[0].id := Row(vectors[0].value, chunks[0].contentHash)] else rows,
               chunks[1..], vectors[1..])
  }

  function Holes(vectors: seq<Option<Vector>>): (n: nat)
    ensures n <= |vectors|
  {
    if vectors == [] then 0 else (if vectors[0].None? then 1 else 0) + Holes(vectors[1..])
  }

  function FailedTexts(failures: seq<Failure>): nat {
    if failures == [] then 0 else failures[0].size + FailedTexts(failures[1..])
  }

  class Embeddings {
    var rows: Rows

    /** Upserts every chunk that has a vector, and counts. */
    method WriteVectors(chunks: seq<Chunk>, vectors: seq<Option<Vector>>) returns (embedded: nat, failed: nat)
      requires |chunks| == |vectors|
      modifies this
      ensures rows == Upserted(old(rows), chunks, vectors)
      ensures failed == Holes(vectors) && embedded + failed == |chunks|
    {
      embedded, failed := 0, 0;
      var i := 0;
      while i < |chunks|
        invariant i <= |chunks| && embedded + failed == i
        invariant failed + Holes(vectors[i..]) == Holes(vectors)
        invariant Upserted(rows, chunks[i..], vectors[i..]) == Upserted(old(rows), chunks, vectors)
      {
        assert chunks[i..][1..] == chunks[i + 1..] && vectors[i..][1..] == vectors[i + 1..];
        if vectors[i].None? {
          failed := failed + 1;
        } else {
          rows := rows[chunks[i].id := Row(vectors[i].value, chunks[i].contentHash)];
          embedded := embedded + 1;
        }
        i := i + 1;
      }
    }

    /** Writes what the fan-out returned, unless nothing in it can be used. */
    method WriteResults(chunks: seq<Chunk>, results: BatchResults) returns (r: Result<Report, Error>)
      requires |chunks| == |results.vectors|
      modifies this
      ensures var holes, failures := Holes(results.vectors), results.failures;
              if failures != [] && holes == |chunks| then r == Err(failures[0].error) && rows == old(rows)
              else
                && rows == Upserted(old(rows), chunks, results.vectors)
                && r == Ok(Report(|chunks|, |chunks| - holes, holes, failures))
    {
      if results.failures != [] && Holes(results.vectors) == |results.vectors| {
        return Err(results.failures[0].error);
      }
      var embedded, failed := WriteVectors(chunks, results.vectors);
      r := Ok(Report(|chunks|, embedded, failed, results.failures));
    }

    /** Re-embeds all chunks. Nothing is asked or written on a dry run or an empty table; the run is an error,
        and writes nothing, exactly when every batch failed. */
    method ReembedAll(chunks: seq<Chunk>, batchSize: int, concurrency: int, dryRun: bool, schedule: seq<Event>)
      returns (r: Result<Report, Error>)
      requires batchSize > 0 && concurrency > 0 ==> Finishes(Contents(chunks), batchSize, concurrency, schedule)
      modifies this
      ensures chunks == [] || dryRun ==> r == Ok(Report(|chunks|, 0, 0, [])) && rows == old(rows)
      ensures chunks != [] && !dryRun && (batchSize <= 0 || concurrency <= 0) ==>
                r == Err(BadSetting) && rows == old(rows)
      ensures chunks != [] && !dryRun && batchSize > 0 && concurrency > 0 ==>
                var batches := BatchesFrom(Contents(chunks), 0, batchSize);
                var phases := FinalPhases(Contents(chunks), batchSize, concurrency, schedule);
                var failures := FailuresOf(batches, ErrorsOf(batches, phases));
                && |Expected(batches, phases)| == |chunks|
                && if |failures| == |batches| then r == Err(failures[0].error) && rows == old(rows)
                   else
                     && rows == Upserted(old(rows), chunks, Expected(batches, phases))
                     && FailedTexts(failures) < |chunks|
                     && r == Ok(Report(|chunks|, |chunks| - FailedTexts(failures), FailedTexts(failures), failures))
    {
      if chunks == [] || dryRun {
        return Ok(Report(|chunks|, 0, 0, []));
      }
      var texts := Contents(chunks);
      var result := EmbedConcurrently(texts, batchSize, concurrency, schedule);
      if result.Err? {
        return Err(result.error);
      }
      ghost var batches := BatchesFrom(texts, 0, batchSize);
      ghost var phases := FinalPhases(texts, batchSize, concurrency, schedule);
      BatchesTile(texts, 0, batchSize);
      ExpectedCoversTile(batches, phases, 0, |texts|);
      HolesAreFailedTexts(batches, phases, 0, |texts|);
      r := WriteResults(chunks, result.value);
    }
  }

  /** The empty slots are those of the failed batches; all are empty exactly when every batch failed. */
  lemma {:induction false} HolesAreFailedTexts(batches: seq<Batch>, phases: seq<Phase>, start: nat, end: nat)
    requires |phases| == |batches| && Complete(phases) && Tile(batches, start, end)
    ensures var failures := FailuresOf(batches, ErrorsOf(batches, phases));
            && Holes(Expected(batches, phases)) == FailedTexts(failures)
            && |failures| <= |batches|
            && (Holes(Expected(batches, phases)) == |Expected(batches, phases)| <==> |failures| == |batches|)
  {
    if batches != [] {
      var rest := Expected(batches[1..], phases[1..]);
      HolesAreFailedTexts(batches[1..], phases[1..], start + |batches[0].texts|, end);
      HolesAppend(Slots(batches[0], phases[0]), rest);
      var failures := FailuresOf(batches, ErrorsOf(batches, phases));
      var later := FailuresOf(batches[1..], ErrorsOf(batches[1..], phases[1..]));
      assert ErrorsOf(batches, phases)[1..] == ErrorsOf(batches[1..], phases[1..]);
      if ErrorAt(batches[0], phases[0]).Some? {
        HolesOfNones(|batches[0].texts|);
        assert failures[1..] == later;
      } else {
        HolesOfSomes(phases[0].answer.vectors);
        assert failures == later;
      }
    }
  }

  lemma {:induction false} HolesAppend(a: seq<Option<Vector>>, b: seq<Option<Vector>>)
    ensures Holes(a + b) == Holes(a) + Holes(b)
  {
    if a == [] {
      assert a + b == b;
    } else {
      HolesAppend(a[1..], b);
      assert (a + b)[1..] == a[1..] + b;
    }
  }

  lemma {:induction false} HolesOfNones(n: nat)
    ensures Holes(Nones(n)) == n
  {
    if n > 0 {
      HolesOfNones(n - 1);
      assert Nones(n)[1..] == Nones(n - 1);
    }
  }

  lemma {:induction false} HolesOfSomes(vs: seq<Vector>)
    ensures Holes(Somes(vs)) == 0
  {
    if vs != [] {
      HolesOfSomes(vs[1..]);
      assert Somes(vs)[1..] == Somes(vs[1..]);
    }
  }

  predicate DistinctIds(chunks: seq<Chunk>) {
    chunks == [] || ((forall c | c in chunks[1..] :: c.id != chunks[0].id) && DistinctIds(chunks[1..]))
  }

  lemma {:induction false} UpsertedOutside(rows: Rows, chunks: seq<Chunk>, vectors: seq<Option<Vector>>, id: ChunkId)
    requires |chunks| == |vectors| && forall c | c in chunks :: c.id != id
    ensures id in Upserted(rows, chunks, vectors) <==> id in rows
    ensures id in rows ==> Upserted(rows, chunks, vectors)[id] == rows[id]
    decreases |chunks|
  {
    if chunks != [] {
      assert chunks[0] in chunks;
      var next := if vectors[0].Some? then rows[chunks[0].id := Row(vectors[0].value, chunks[0].contentHash)] else rows;
      UpsertedOutside(next, chunks[1..], vectors[1..], id);
    }
  }

  /** A chunk whose batch succeeded has its own new vector under its own hash; one whose batch failed keeps
      the row it had. */
  lemma {:induction false} UpsertedAt(rows: Rows, chunks: seq<Chunk>, vectors: seq<Option<Vector>>, i: nat)
    requires |chunks| == |vectors| && DistinctIds(chunks) && i < |chunks|
    ensures var after := Upserted(rows, chunks, vectors);
            var id := chunks[i].id;
            match vectors[i]
            case Some(v) => id in after && after[id] == Row(v, chunks[i].contentHash)
            case None => (id in after <==> id in rows) && (id in rows ==> after[id] == rows[id])
    decreases |chunks|
  {
    var next := if vectors[0].Some? then rows[chunks[0].id := Row(vectors[0].value, chunks[0].contentHash)] else rows;
    if i == 0 {
      UpsertedOutside(next, chunks[1..], vectors[1..], chunks[0].id);
    } else {
      UpsertedAt(next, chunks[1..], vectors[1..], i - 1);
      assert chunks[1..][i - 1] == chunks[i];
    }
  }

  /** After a re-embed that did not fail, the chunk of every text that got a vector has that very vector under
      its own hash, and the chunk of every other text has what it had. */
  lemma {:induction false} ChunkGetsItsOwnAnswer(rows: Rows, chunks: seq<Chunk>, batchSize: nat, concurrency: nat,
                                                 schedule: seq<Event>, k: nat, o: nat)
    requires batchSize > 0 && Finishes(Contents(chunks), batchSize, concurrency, schedule) && DistinctIds(chunks)
    requires k < |schedule| && schedule[k].Answer?
    requires schedule[k].batch < |BatchesFrom(Contents(chunks), 0, batchSize)|
    requires o < |BatchesFrom(Contents(chunks), 0, batchSize)[schedule[k].batch].texts|
    ensures var batches := BatchesFrom(Contents(chunks), 0, batchSize);
            var vectors := Expected(batches, FinalPhases(Contents(chunks), batchSize, concurrency, schedule));
            var batch, answer := batches[schedule[k].batch], schedule[k].answer;
            && |vectors| == |chunks| && batch.start + o < |chunks|
            && batch.texts[o] == chunks[batch.start + o].content
            && var after, chunk := Upserted(rows, chunks, vectors), chunks[batch.start + o];
               if IsGood(batch, answer)
               then chunk.id in after && after[chunk.id] == Row(answer.vectors[o], chunk.contentHash)
               else
                 (chunk.id in after <==> chunk.id in rows) &&
                 (chunk.id in rows ==> after[chunk.id] == rows[chunk.id])
  {
    var batches := BatchesFrom(Contents(chunks), 0, batchSize);
    var vectors := Expected(batches, FinalPhases(Contents(chunks), batchSize, concurrency, schedule));
    AnswersArePlaced(Contents(chunks), batchSize, concurrency, schedule);
    assert PlacedAt(batches, schedule[k], vectors);
    SlotOfText(batches[schedule[k].batch], schedule[k].answer, vectors, o);
    TextOfChunk(chunks, batchSize, schedule[k].batch, o);
    UpsertedAt(rows, chunks, vectors, batches[schedule[k].batch].start + o);
  }

  lemma {:induction false} TextOfChunk(chunks: seq<Chunk>, batchSize: nat, b: nat, o: nat)
    requires batchSize > 0 && b < |BatchesFrom(Contents(chunks), 0, batchSize)|
    requires o < |BatchesFrom(Contents(chunks), 0, batchSize)[b].texts|
    ensures var batch := BatchesFrom(Contents(chunks), 0, batchSize)[b];
            batch.start + o < |chunks| && batch.texts[o] == chunks[batch.start + o].content
  {
    var texts := Contents(chunks);
    BatchesTile(texts, 0, batchSize);
    TextsInPlace(BatchesFrom(texts, 0, batchSize), 0, |texts|, b, o);
    assert texts[0..] == texts;
  }

  lemma {:induction false} SlotOfText(batch: Batch, answer: Answer, out: seq<Option<Vector>>, o: nat)
    requires Placed(batch, answer, out) && o < |batch.texts|
    ensures batch.start + o < |out|
    ensures out[batch.start + o] == if IsGood(batch, answer) then Some(answer.vectors[o]) else None
  {
    var slots := out[batch.start..batch.start + |batch.texts|];
    assert slots[o] == out[batch.start + o];
  }
}
