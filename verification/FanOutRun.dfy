/** The fan-out over its shared mutable array, and what it returns once every batch has been answered. */
module FanOutRun {
  import opened Wrappers
  import opened FanOut

  /** The fields the batch tasks share. */
  class Tasks {
    const batches: seq<Batch>
    const out: array<Option<Vector>>
    var phases: seq<Phase>
    var permits: int

    ghost function View(): State
      reads this, out
    {
      State(out[..], phases, permits)
    }

    constructor (texts: seq<Text>, batchSize: nat, concurrency: nat)
      requires batchSize > 0
      ensures fresh(out)
      ensures batches == BatchesFrom(texts, 0, batchSize) && View() == Start(texts, batchSize, concurrency)
    {
      batches := BatchesFrom(texts, 0, batchSize);
      out := new Option<Vector>[|texts|](_ => None);
      phases := Waitings(|BatchesFrom(texts, 0, batchSize)|);
      permits := concurrency;
    }

    /** One task moves: into its provider call, or out of it. A short answer is an error of this batch
        alone; a good one is written slot by slot. */
    method Move(e: Event)
      requires Fits(batches, View()) && Enabled(View(), e)
      modifies this, out
      ensures View() == Next(batches, old(View()), e)
    {
      var b := e.batch;
      if e.Acquire? {
        phases, permits := phases[b := Calling], permits - 1;
        return;
      }
      permits := permits + 1;
      phases := phases[b := Answered(e.answer)];
      if ErrorOf(batches[b], e.answer).None? {
        TilesAreInside(batches, 0, out.Length, b);
        WriteStretch(out, batches[b].start, e.answer.vectors);
      }
    }
  }

  method WriteStretch(out: array<Option<Vector>>, start: nat, vectors: seq<Vector>)
    requires start + |vectors| <= out.Length
    modifies out
    ensures out[..] == Written(old(out[..]), start, Somes(vectors))
  {
    for offset := 0 to |vectors|
      invariant out[..] == Written(old(out[..]), start, Somes(vectors[..offset]))
    {
      ghost var before := out[..];
      out[start + offset] := Some(vectors[offset]);
      assert out[..] == before[start + offset := Some(vectors[offset])];
      WrittenNext(old(out[..]), start, Somes(vectors[..offset]), Some(vectors[offset]));
      assert Somes(vectors[..offset + 1]) == Somes(vectors[..offset]) + [Some(vectors[offset])];
    }
    assert vectors[..|vectors|] == vectors;
  }

  datatype BatchResults = BatchResults(vectors: seq<Option<Vector>>, failures: seq<Failure>)

  /** A schedule that brings every batch to its answer. */
  predicate Finishes(texts: seq<Text>, batchSize: nat, concurrency: nat, schedule: seq<Event>)
    requires batchSize > 0
  {
    StartIsSound(texts, batchSize, concurrency);
    var batches, s := BatchesFrom(texts, 0, batchSize), Start(texts, batchSize, concurrency);
    Possible(batches, s, schedule) && Complete(After(batches, s, schedule).phases)
  }

  /** The answers that a schedule leaves the batches with. */
  function FinalPhases(texts: seq<Text>, batchSize: nat, concurrency: nat, schedule: seq<Event>): (phases: seq<Phase>)
    requires batchSize > 0 && Finishes(texts, batchSize, concurrency, schedule)
    ensures |phases| == |BatchesFrom(texts, 0, batchSize)| && Complete(phases)
  {
    var batches, s := BatchesFrom(texts, 0, batchSize), Start(texts, batchSize, concurrency);
    StartIsSound(texts, batchSize, concurrency);
    RunKeepsSound(batches, concurrency, s, schedule);
    After(batches, s, schedule).phases
  }

  /** What the answers alone decide. */
  function SequentialResults(batches: seq<Batch>, phases: seq<Phase>): BatchResults
    requires |phases| == |batches|
  {
    BatchResults(Expected(batches, phases), FailuresOf(batches, ErrorsOf(batches, phases)))
  }

  /** The event's batch has its vectors, or nothing, in its texts' own slots. */
  predicate PlacedAt(batches: seq<Batch>, e: Event, out: seq<Option<Vector>>)
    requires e.Answer?
  {
    e.batch < |batches| && Placed(batches[e.batch], e.answer, out)
  }

  /** Every answer of the schedule is found in its texts' own slots. */
  predicate AllPlaced(texts: seq<Text>, batchSize: nat, schedule: seq<Event>, out: seq<Option<Vector>>)
    requires batchSize > 0
  {
    && |out| == |texts|
    && forall k | 0 <= k < |schedule| && schedule[k].Answer? ::
         PlacedAt(BatchesFrom(texts, 0, batchSize), schedule[k], out)
  }

  lemma {:induction false} NothingToAnswer(batchSize: nat, concurrency: nat, schedule: seq<Event>)
    requires batchSize > 0 && Finishes([], batchSize, concurrency, schedule)
    ensures schedule == []
  {
  }

  /** Every answer of the schedule is found in its texts' own slots of the result. */
  lemma {:induction false} AnswersArePlaced(texts: seq<Text>, batchSize: nat, concurrency: nat, schedule: seq<Event>)
    requires batchSize > 0 && Finishes(texts, batchSize, concurrency, schedule)
    ensures AllPlaced(texts, batchSize, schedule,
                      Expected(BatchesFrom(texts, 0, batchSize), FinalPhases(texts, batchSize, concurrency, schedule)))
  {
    var batches, s := BatchesFrom(texts, 0, batchSize), Start(texts, batchSize, concurrency);
    var phases := FinalPhases(texts, batchSize, concurrency, schedule);
    StartIsSound(texts, batchSize, concurrency);
    BatchesTile(texts, 0, batchSize);
    ExpectedCoversTile(batches, phases, 0, |texts|);
    forall k | 0 <= k < |schedule| && schedule[k].Answer?
      ensures PlacedAt(batches, schedule[k], Expected(batches, phases))
    {
      AnswersStay(batches, s, schedule, k);
      AnswerIsPlaced(batches, phases, |texts|, schedule[k].batch, schedule[k].answer);
    }
  }

  /** Starts one task per batch and sees them through the schedule. */
  method Gather(texts: seq<Text>, batchSize: nat, concurrency: nat, schedule: seq<Event>) returns (tasks: Tasks)
    requires batchSize > 0 && Finishes(texts, batchSize, concurrency, schedule)
    ensures fresh(tasks) && fresh(tasks.out) && tasks.batches == BatchesFrom(texts, 0, batchSize)
    ensures tasks.phases == FinalPhases(texts, batchSize, concurrency, schedule)
    ensures Sound(tasks.batches, concurrency, tasks.View())
  {
    tasks := new Tasks(texts, batchSize, concurrency);
    StartIsSound(texts, batchSize, concurrency);
    ghost var end := After(tasks.batches, tasks.View(), schedule);
    var i := 0;
    while i < |schedule|
      invariant i <= |schedule| && fresh(tasks) && fresh(tasks.out)
      invariant Sound(tasks.batches, concurrency, tasks.View())
      invariant Possible(tasks.batches, tasks.View(), schedule[i..])
      invariant After(tasks.batches, tasks.View(), schedule[i..]) == end
    {
      assert schedule[i..][0] == schedule[i] && schedule[i..][1..] == schedule[i + 1..];
      StepKeepsSound(tasks.batches, concurrency, tasks.View(), schedule[i]);
      tasks.Move(schedule[i]);
      i := i + 1;
    }
    assert tasks.View() == end;
  }

  /** Embeds the texts with their batches moving in any order. The result depends only on the answers. */
  method EmbedConcurrently(texts: seq<Text>, batchSize: int, concurrency: int, schedule: seq<Event>)
    returns (r: Result<BatchResults, Error>)
    requires batchSize > 0 && concurrency > 0 ==> Finishes(texts, batchSize, concurrency, schedule)
    ensures batchSize <= 0 || concurrency <= 0 ==> r == Err(BadSetting)
    ensures batchSize > 0 && concurrency > 0 ==>
              r == Ok(SequentialResults(BatchesFrom(texts, 0, batchSize),
                                        FinalPhases(texts, batchSize, concurrency, schedule)))
    ensures batchSize > 0 && concurrency > 0 ==>
              r.Ok? && AllPlaced(texts, batchSize, schedule, r.value.vectors)
  {
    if batchSize <= 0 || concurrency <= 0 {
      return Err(BadSetting);
    }
    if texts == [] {
      NothingToAnswer(batchSize, concurrency, schedule);
      return Ok(BatchResults([], []));
    }
    AnswersArePlaced(texts, batchSize, concurrency, schedule);
    var tasks := Gather(texts, batchSize, concurrency, schedule);
    var errors := ErrorsOf(tasks.batches, tasks.phases);
    ClearingChangesNothing(tasks.batches, tasks.phases, []);
    assert [] + Expected(tasks.batches, tasks.phases) == tasks.out[..];
    var failures := CollectFailures(tasks.batches, errors, tasks.out);
    r := Ok(BatchResults(tasks.out[..], failures));
  }
}
