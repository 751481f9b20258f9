/** The concurrent embedding fan-out: batches are answered in any order, each writing its own stretch of
    one shared array. */
module FanOut {
  import opened Wrappers

  type Text = string
  type Vector = seq<real>

  datatype Error =
    | ProviderError(message: string)
    | WrongCount(got: nat, batch: nat, start: nat)
    | BadSetting

  /** Texts sliced off at an absolute position. */
  datatype Batch = Batch(start: nat, texts: seq<Text>)

  /** What the provider does with a batch. */
  datatype Answer = Vectors(vectors: seq<Vector>) | Raised(error: Error)

  /** A batch waits for a permit, is with the provider, or has been answered. */
  datatype Phase = Waiting | Calling | Answered(answer: Answer)

  /** The slices of the texts from `start` on. */
  function BatchesFrom(texts: seq<Text>, start: nat, size: nat): seq<Batch>
    requires size > 0
    decreases |texts| - start
  {
    if start >= |texts| then []
    else
      var end := if start + size < |texts| then start + size else |texts|;
      [Batch(start, texts[start..end])] + BatchesFrom(texts, start + size, size)
  }

  /** The batches are non-empty stretches that follow on from `start` to `end`. */
  predicate Tile(batches: seq<Batch>, start: nat, end: nat) {
    if batches == [] then start == end
    else batches[0].start == start && batches[0].texts != [] && Tile(batches[1..], start + |batches[0].texts|, end)
  }

  function AllTexts(batches: seq<Batch>): seq<Text> {
    if batches == [] then [] else batches[0].texts + AllTexts(batches[1..])
  }

  /** Every batch but the last is full, and the last is not over-full. */
  predicate AllFull(batches: seq<Batch>, size: nat) {
    batches == [] ||
    (|batches[0].texts| <= size && (|batches| > 1 ==> |batches[0].texts| == size) && AllFull(batches[1..], size))
  }

  /** The batches hold every text once, in order, each where it says; none is empty, and all but the last are
      full. */
  lemma {:induction false} BatchesTile(texts: seq<Text>, start: nat, size: nat)
    requires size > 0 && start <= |texts|
    ensures var batches := BatchesFrom(texts, start, size);
            Tile(batches, start, |texts|) && AllTexts(batches) == texts[start..] && AllFull(batches, size)
    decreases |texts| - start
  {
    if start < |texts| {
      var end := if start + size < |texts| then start + size else |texts|;
      BatchesTile(texts, end, size);
      assert BatchesFrom(texts, end, size) == BatchesFrom(texts, start + size, size);
      assert texts[start..] == texts[start..end] + texts[end..];
    }
  }

  /** Each batch's texts stand in the whole where the batch says. */
  lemma {:induction false} TextsInPlace(batches: seq<Batch>, start: nat, end: nat, b: nat, o: nat)
    requires Tile(batches, start, end) && b < |batches| && o < |batches[b].texts|
    ensures start <= batches[b].start && batches[b].start - start + o < |AllTexts(batches)|
    ensures AllTexts(batches)[batches[b].start - start + o] == batches[b].texts[o]
  {
    if b > 0 {
      TextsInPlace(batches[1..], start + |batches[0].texts|, end, b - 1, o);
    }
  }

  /** What the batch's task raises: the provider's error, or a wrong number of vectors. */
  function ErrorOf(b: Batch, a: Answer): Option<Error> {
    match a
    case Raised(e) => Some(e)
    case Vectors(vs) => if |vs| != |b.texts| then Some(WrongCount(|vs|, |b.texts|, b.start)) else None
  }

  function Somes(vs: seq<Vector>): (s: seq<Option<Vector>>)
    ensures |s| == |vs|
  {
    seq(|vs|, i requires 0 <= i < |vs| => Some(vs[i]))
  }

  function Nones(n: nat): (s: seq<Option<Vector>>)
    ensures |s| == n
  {
    seq(n, _ => None)
  }

  /** The error that a phase stands for. */
  function ErrorAt(b: Batch, p: Phase): Option<Error> {
    if p.Answered? then ErrorOf(b, p.answer) else None
  }

  /** A batch's slots: its vectors once it has been answered well. */
  function Slots(b: Batch, p: Phase): (s: seq<Option<Vector>>)
    ensures |s| == |b.texts|
  {
    if p.Answered? && ErrorOf(b, p.answer).None? then Somes(p.answer.vectors) else Nones(|b.texts|)
  }

  /** The sequential result: every batch's slots in turn. */
  function Expected(batches: seq<Batch>, phases: seq<Phase>): seq<Option<Vector>>
    requires |phases| == |batches|
  {
    if batches == [] then [] else Slots(batches[0], phases[0]) + Expected(batches[1..], phases[1..])
  }

  /** One result per batch, in input order: its error, if its task raised. */
  function ErrorsOf(batches: seq<Batch>, phases: seq<Phase>): (errors: seq<Option<Error>>)
    requires |phases| == |batches|
    ensures |errors| == |batches|
  {
    if batches == [] then [] else [ErrorAt(batches[0], phases[0])] + ErrorsOf(batches[1..], phases[1..])
  }

  datatype Failure = Failure(start: nat, size: nat, error: Error)

  /** The failed batches, in input order. */
  function FailuresOf(batches: seq<Batch>, errors: seq<Option<Error>>): seq<Failure>
    requires |errors| == |batches|
  {
    if batches == [] then []
    else
      (if errors[0].Some? then [Failure(batches[0].start, |batches[0].texts|, errors[0].value)] else []) +
      FailuresOf(batches[1..], errors[1..])
  }

  // ---- The batches as steps ----------------------------------------------

  /** The shared array, each batch's phase, and the semaphore's free permits. */
  datatype State = State(out: seq<Option<Vector>>, phases: seq<Phase>, permits: int)

  datatype Event = Acquire(batch: nat) | Answer(batch: nat, answer: Answer)

  /** A waiting batch may take a free permit; a batch with the provider may be answered in any way. */
  predicate Enabled(s: State, e: Event) {
    e.batch < |s.phases| &&
    match e
    case Acquire(b) => s.phases[b].Waiting? && s.permits > 0
    case Answer(b, _) => s.phases[b].Calling?
  }

  /** `out` with the values written from `at` on. */
  function Written(out: seq<Option<Vector>>, at: nat, values: seq<Option<Vector>>): (w: seq<Option<Vector>>)
    requires at + |values| <= |out|
    ensures |w| == |out|
  {
    out[..at] + values + out[at + |values|..]
  }

  predicate Fits(batches: seq<Batch>, s: State) {
    |s.phases| == |batches| && Tile(batches, 0, |s.out|)
  }

  lemma {:induction false} TilesAreInside(batches: seq<Batch>, start: nat, end: nat, b: nat)
    requires Tile(batches, start, end) && b < |batches|
    ensures start <= batches[b].start && batches[b].start + |batches[b].texts| <= end
  {
    if b > 0 {
      TilesAreInside(batches[1..], start + |batches[0].texts|, end, b - 1);
      assert batches[1..][b - 1] == batches[b];
    } else {
      TileIsForward(batches[1..], start + |batches[0].texts|, end);
    }
  }

  lemma {:induction false} TileIsForward(batches: seq<Batch>, start: nat, end: nat)
    requires Tile(batches, start, end)
    ensures start <= end
  {
    if batches != [] {
      TileIsForward(batches[1..], start + |batches[0].texts|, end);
    }
  }

  /** Taking a permit starts the call. The answer gives the permit back and, if it is good, is written. */
  function Next(batches: seq<Batch>, s: State, e: Event): State
    requires Fits(batches, s) && Enabled(s, e)
  {
    match e
    case Acquire(b) => State(s.out, s.phases[b := Calling], s.permits - 1)
    case Answer(b, a) =>
      TilesAreInside(batches, 0, |s.out|, b);
      State(if ErrorOf(batches[b], a).Some? then s.out else Written(s.out, batches[b].start, Somes(a.vectors)),
            s.phases[b := Answered(a)], s.permits + 1)
  }

  function InFlight(phases: seq<Phase>): nat {
    if phases == [] then 0 else (if phases[0].Calling? then 1 else 0) + InFlight(phases[1..])
  }

  /** The array is the sequential result of the answers so far, and the permits out are the calls under way. */
  predicate Sound(batches: seq<Batch>, concurrency: nat, s: State) {
    Fits(batches, s) && s.out == Expected(batches, s.phases) && s.permits >= 0 &&
    s.permits + InFlight(s.phases) == concurrency
  }

  function Waitings(n: nat): (phases: seq<Phase>)
    ensures |phases| == n
  {
    seq(n, _ => Waiting)
  }

  function Start(texts: seq<Text>, size: nat, concurrency: nat): State
    requires size > 0
  {
    State(Nones(|texts|), Waitings(|BatchesFrom(texts, 0, size)|), concurrency)
  }

  lemma {:induction false} WaitingsGiveNones(batches: seq<Batch>, start: nat, end: nat)
    requires Tile(batches, start, end)
    ensures start <= end && Expected(batches, Waitings(|batches|)) == Nones(end - start)
    ensures InFlight(Waitings(|batches|)) == 0
  {
    if batches != [] {
      var next := start + |batches[0].texts|;
      WaitingsGiveNones(batches[1..], next, end);
      assert Waitings(|batches|)[1..] == Waitings(|batches[1..]|);
      assert Nones(end - start) == Nones(next - start) + Nones(end - next);
    }
  }

  lemma {:induction false} StartIsSound(texts: seq<Text>, size: nat, concurrency: nat)
    requires size > 0
    ensures Sound(BatchesFrom(texts, 0, size), concurrency, Start(texts, size, concurrency))
  {
    BatchesTile(texts, 0, size);
    WaitingsGiveNones(BatchesFrom(texts, 0, size), 0, |texts|);
  }

  lemma {:induction false} WrittenBetween(front: seq<Option<Vector>>, was: seq<Option<Vector>>,
                                          back: seq<Option<Vector>>, values: seq<Option<Vector>>)
    requires |values| == |was|
    ensures Written(front + was + back, |front|, values) == front + values + back
  {
  }

  /** What the batches before `b` give, what `b` gives, and what the ones after it give. */
  lemma {:induction false} ExpectedSplits(batches: seq<Batch>, phases: seq<Phase>, b: nat)
    requires |phases| == |batches| && b < |batches|
    ensures Expected(batches, phases) ==
            Expected(batches[..b], phases[..b]) + Slots(batches[b], phases[b]) +
            Expected(batches[b + 1..], phases[b + 1..])
  {
    if b > 0 {
      ExpectedSplits(batches[1..], phases[1..], b - 1);
      assert batches[..b][1..] == batches[1..][..b - 1] && phases[..b][1..] == phases[1..][..b - 1];
      assert batches[1..][b..] == batches[b + 1..] && phases[1..][b..] == phases[b + 1..];
    }
  }

  lemma {:induction false} FrontReachesStart(batches: seq<Batch>, phases: seq<Phase>, start: nat, end: nat, b: nat)
    requires |phases| == |batches| && Tile(batches, start, end) && b < |batches|
    ensures start + |Expected(batches[..b], phases[..b])| == batches[b].start
  {
    if b > 0 {
      FrontReachesStart(batches[1..], phases[1..], start + |batches[0].texts|, end, b - 1);
      assert batches[..b][1..] == batches[1..][..b - 1] && phases[..b][1..] == phases[1..][..b - 1];
    }
  }

  lemma {:induction false} SplitsAfterUpdate(batches: seq<Batch>, phases: seq<Phase>, b: nat, p: Phase)
    requires |phases| == |batches| && b < |batches|
    ensures Expected(batches, phases[b := p]) ==
            Expected(batches[..b], phases[..b]) + Slots(batches[b], p) + Expected(batches[b + 1..], phases[b + 1..])
  {
    ExpectedSplits(batches, phases[b := p], b);
    assert phases[b := p][..b] == phases[..b] && phases[b := p][b + 1..] == phases[b + 1..];
  }

  /** Changing one phase changes one stretch of the sequential result. */
  lemma {:induction false} ExpectedUpdate(batches: seq<Batch>, phases: seq<Phase>, end: nat, b: nat, p: Phase)
    requires |phases| == |batches| && Tile(batches, 0, end) && b < |batches|
    requires batches[b].start + |batches[b].texts| <= |Expected(batches, phases)|
    ensures Expected(batches, phases[b := p]) ==
            Written(Expected(batches, phases), batches[b].start, Slots(batches[b], p))
  {
    var front, back := Expected(batches[..b], phases[..b]), Expected(batches[b + 1..], phases[b + 1..]);
    ExpectedSplits(batches, phases, b);
    SplitsAfterUpdate(batches, phases, b, p);
    FrontReachesStart(batches, phases, 0, end, b);
    WrittenBetween(front, Slots(batches[b], phases[b]), back, Slots(batches[b], p));
  }

  /** A phase that leaves its slots as they were changes nothing. */
  lemma {:induction false} ExpectedUnchanged(batches: seq<Batch>, phases: seq<Phase>, b: nat, p: Phase)
    requires |phases| == |batches| && b < |batches| && Slots(batches[b], p) == Slots(batches[b], phases[b])
    ensures Expected(batches, phases[b := p]) == Expected(batches, phases)
  {
    ExpectedSplits(batches, phases, b);
    SplitsAfterUpdate(batches, phases, b, p);
  }

  lemma {:induction false} ExpectedCoversTile(batches: seq<Batch>, phases: seq<Phase>, start: nat, end: nat)
    requires |phases| == |batches| && Tile(batches, start, end)
    ensures start <= end && |Expected(batches, phases)| == end - start
  {
    if batches != [] {
      ExpectedCoversTile(batches[1..], phases[1..], start + |batches[0].texts|, end);
    }
  }

  lemma {:induction false} InFlightUpdate(phases: seq<Phase>, b: nat, p: Phase)
    requires b < |phases|
    ensures InFlight(phases[b := p]) ==
            InFlight(phases) - (if phases[b].Calling? then 1 else 0) + (if p.Calling? then 1 else 0)
  {
    if b > 0 {
      InFlightUpdate(phases[1..], b - 1, p);
      assert phases[b := p][1..] == phases[1..][b - 1 := p];
    } else {
      assert phases[b := p][1..] == phases[1..];
    }
  }

  lemma {:induction false} GoodAnswerKeepsExpected(batches: seq<Batch>, s: State, b: nat, answer: Answer)
    requires Fits(batches, s) && s.out == Expected(batches, s.phases) && Enabled(s, Event.Answer(b, answer))
    requires ErrorOf(batches[b], answer).None?
    ensures var next := Next(batches, s, Event.Answer(b, answer)); next.out == Expected(batches, next.phases)
  {
    TilesAreInside(batches, 0, |s.out|, b);
    ExpectedUpdate(batches, s.phases, |s.out|, b, Answered(answer));
  }

  lemma {:induction false} NoAnswerKeepsExpected(batches: seq<Batch>, phases: seq<Phase>, b: nat, p: Phase)
    requires |phases| == |batches| && b < |batches| && !phases[b].Answered?
    requires !p.Answered? || ErrorOf(batches[b], p.answer).Some?
    ensures Expected(batches, phases[b := p]) == Expected(batches, phases)
  {
    ExpectedUnchanged(batches, phases, b, p);
  }

  /** A step changes the sequential result as it changes the array. */
  lemma {:induction false} StepKeepsExpected(batches: seq<Batch>, s: State, e: Event)
    requires Fits(batches, s) && s.out == Expected(batches, s.phases) && Enabled(s, e)
    ensures Next(batches, s, e).out == Expected(batches, Next(batches, s, e).phases)
  {
    match e
    case Acquire(b) => NoAnswerKeepsExpected(batches, s.phases, b, Calling);
    case Answer(b, answer) =>
      if ErrorOf(batches[b], answer).Some? {
        NoAnswerKeepsExpected(batches, s.phases, b, Answered(answer));
      } else {
        GoodAnswerKeepsExpected(batches, s, b, answer);
      }
  }

  lemma {:induction false} StepKeepsSound(batches: seq<Batch>, concurrency: nat, s: State, e: Event)
    requires Sound(batches, concurrency, s) && Enabled(s, e)
    ensures Sound(batches, concurrency, Next(batches, s, e))
  {
    StepKeepsExpected(batches, s, e);
    InFlightUpdate(s.phases, e.batch, if e.Acquire? then Calling else Answered(e.answer));
  }

  /** The events can happen in this order. */
  predicate Possible(batches: seq<Batch>, s: State, events: seq<Event>)
    requires Fits(batches, s)
    decreases |events|
  {
    events == [] || (Enabled(s, events[0]) && Possible(batches, Next(batches, s, events[0]), events[1..]))
  }

  function After(batches: seq<Batch>, s: State, events: seq<Event>): State
    requires Fits(batches, s) && Possible(batches, s, events)
    decreases |events|
  {
    if events == [] then s else After(batches, Next(batches, s, events[0]), events[1..])
  }

  /** Whatever the order of the answers, the array is at every moment the sequential result of the answers
      given, and at most `concurrency` calls are under way. */
  lemma {:induction false} RunKeepsSound(batches: seq<Batch>, concurrency: nat, s: State, events: seq<Event>)
    requires Sound(batches, concurrency, s) && Possible(batches, s, events)
    ensures Sound(batches, concurrency, After(batches, s, events))
    ensures InFlight(After(batches, s, events).phases) <= concurrency
    decreases |events|
  {
    if events != [] {
      StepKeepsSound(batches, concurrency, s, events[0]);
      RunKeepsSound(batches, concurrency, Next(batches, s, events[0]), events[1..]);
    }
  }

  /** Every batch has been answered. */
  predicate Complete(phases: seq<Phase>) {
    phases == [] || (phases[0].Answered? && Complete(phases[1..]))
  }

  lemma {:induction false} ExpectedAt(batches: seq<Batch>, phases: seq<Phase>, start: nat, end: nat, b: nat, o: nat)
    requires |phases| == |batches| && Tile(batches, start, end) && b < |batches| && o < |batches[b].texts|
    ensures start <= batches[b].start && batches[b].start - start + o < |Expected(batches, phases)|
    ensures Expected(batches, phases)[batches[b].start - start + o] == Slots(batches[b], phases[b])[o]
  {
    if b > 0 {
      var next := start + |batches[0].texts|;
      TilesAreInside(batches[1..], next, end, b - 1);
      ExpectedAt(batches[1..], phases[1..], next, end, b - 1, o);
      AppendAt(Slots(batches[0], phases[0]), Expected(batches[1..], phases[1..]), batches[b].start - next + o);
    }
  }

  lemma {:induction false} AppendAt<T>(a: seq<T>, b: seq<T>, i: nat)
    requires i < |b|
    ensures (a + b)[|a| + i] == b[i]
  {
  }

  /** As many vectors as the batch has texts. */
  predicate IsGood(batch: Batch, answer: Answer) {
    answer.Vectors? && |answer.vectors| == |batch.texts|
  }

  /** The answered batch's texts have the answer's vectors, each its own, or nothing if the answer is bad. */
  predicate Placed(batch: Batch, answer: Answer, out: seq<Option<Vector>>) {
    && batch.start + |batch.texts| <= |out|
    && var slots := out[batch.start..batch.start + |batch.texts|];
       forall o | 0 <= o < |slots| :: slots[o] == if IsGood(batch, answer) then Some(answer.vectors[o]) else None
  }

  /** Where a text's vector ends up: in the text's own slot. */
  lemma {:induction false} AnswerIsPlaced(batches: seq<Batch>, phases: seq<Phase>, end: nat, b: nat, answer: Answer)
    requires |phases| == |batches| && Tile(batches, 0, end) && b < |batches| && phases[b] == Answered(answer)
    ensures Placed(batches[b], answer, Expected(batches, phases))
  {
    TilesAreInside(batches, 0, end, b);
    ExpectedCoversTile(batches, phases, 0, end);
    var slots := Expected(batches, phases)[batches[b].start..batches[b].start + |batches[b].texts|];
    forall o | 0 <= o < |slots|
      ensures slots[o] == if IsGood(batches[b], answer) then Some(answer.vectors[o]) else None
    {
      ExpectedAt(batches, phases, 0, end, b, o);
    }
  }

  lemma {:induction false} AnsweredStays(batches: seq<Batch>, s: State, events: seq<Event>, b: nat)
    requires Fits(batches, s) && Possible(batches, s, events) && b < |s.phases| && s.phases[b].Answered?
    ensures b < |After(batches, s, events).phases| && After(batches, s, events).phases[b] == s.phases[b]
    decreases |events|
  {
    if events != [] {
      AnsweredStays(batches, Next(batches, s, events[0]), events[1..], b);
    }
  }

  /** A batch ends up with the answer that it was given. */
  lemma {:induction false} AnswersStay(batches: seq<Batch>, s: State, events: seq<Event>, k: nat)
    requires Fits(batches, s) && Possible(batches, s, events) && k < |events| && events[k].Answer?
    ensures events[k].batch < |After(batches, s, events).phases|
    ensures After(batches, s, events).phases[events[k].batch] == Answered(events[k].answer)
    decreases |events|
  {
    if k == 0 {
      AnsweredStays(batches, Next(batches, s, events[0]), events[1..], events[0].batch);
    } else {
      AnswersStay(batches, Next(batches, s, events[0]), events[1..], k - 1);
    }
  }

  // ---- What the list of failures says ------------------------------------

  /** What a bad answer raises. */
  function RaisedBy(batch: Batch, answer: Answer): Error
    requires !IsGood(batch, answer)
  {
    if answer.Raised? then answer.error else WrongCount(|answer.vectors|, |batch.texts|, batch.start)
  }

  predicate Failed(batch: Batch, p: Phase) {
    p.Answered? && !IsGood(batch, p.answer)
  }

  /** How many of the first `n` batches failed. */
  function FailedBefore(batches: seq<Batch>, phases: seq<Phase>, n: nat): nat
    requires |phases| == |batches| && n <= |batches|
  {
    if n == 0 then 0
    else (if Failed(batches[0], phases[0]) then 1 else 0) + FailedBefore(batches[1..], phases[1..], n - 1)
  }

  lemma {:induction false} FailuresAreCounted(batches: seq<Batch>, phases: seq<Phase>)
    requires |phases| == |batches|
    ensures |FailuresOf(batches, ErrorsOf(batches, phases))| == FailedBefore(batches, phases, |batches|)
  {
    if batches != [] {
      FailuresAreCounted(batches[1..], phases[1..]);
      assert ErrorsOf(batches, phases)[1..] == ErrorsOf(batches[1..], phases[1..]);
    }
  }

  /** The list holds the failed batches and no others, each in its place in input order, with its offset, its
      size and what its task raised. */
  lemma {:induction false} FailureIsInPlace(batches: seq<Batch>, phases: seq<Phase>, b: nat)
    requires |phases| == |batches| && b < |batches| && Failed(batches[b], phases[b])
    ensures var failures, at := FailuresOf(batches, ErrorsOf(batches, phases)), FailedBefore(batches, phases, b);
            && |failures| == FailedBefore(batches, phases, |batches|)
            && at < |failures|
            && failures[at] == Failure(batches[b].start, |batches[b].texts|, RaisedBy(batches[b], phases[b].answer))
  {
    FailuresAreCounted(batches, phases);
    assert ErrorsOf(batches, phases)[1..] == ErrorsOf(batches[1..], phases[1..]);
    if b > 0 {
      FailureIsInPlace(batches[1..], phases[1..], b - 1);
    }
  }

  // ---- Every fan-out ends ------------------------------------------------

  /** The moves still to come: two for a waiting batch, one for a batch with the provider. */
  function MovesLeft(phases: seq<Phase>): nat {
    if phases == [] then 0
    else (match phases[0] case Waiting => 2 case Calling => 1 case Answered(_) => 0) + MovesLeft(phases[1..])
  }

  lemma {:induction false} MoveIsUsed(phases: seq<Phase>, b: nat, p: Phase)
    requires b < |phases|
    requires (phases[b].Waiting? && p.Calling?) || (phases[b].Calling? && p.Answered?)
    ensures MovesLeft(phases[b := p]) == MovesLeft(phases) - 1
  {
    if b > 0 {
      MoveIsUsed(phases[1..], b - 1, p);
      assert phases[b := p][1..] == phases[1..][b - 1 := p];
    } else {
      assert phases[b := p][1..] == phases[1..];
    }
  }

  lemma {:induction false} CompleteIffNoMovesLeft(phases: seq<Phase>)
    ensures Complete(phases) <==> MovesLeft(phases) == 0
  {
    if phases != [] {
      CompleteIffNoMovesLeft(phases[1..]);
    }
  }

  /** A batch with the provider, or else a waiting one. */
  lemma {:induction false} FindUnanswered(phases: seq<Phase>) returns (b: nat)
    requires !Complete(phases)
    ensures b < |phases| && !phases[b].Answered? && (InFlight(phases) > 0 ==> phases[b].Calling?)
  {
    if phases[0].Calling? || (phases[0].Waiting? && InFlight(phases[1..]) == 0) {
      b := 0;
    } else {
      CompleteIfNoneLeft(phases[1..]);
      var rest := FindUnanswered(phases[1..]);
      b := rest + 1;
    }
  }

  lemma {:induction false} CompleteIfNoneLeft(phases: seq<Phase>)
    ensures Complete(phases) ==> InFlight(phases) == 0
  {
    if phases != [] {
      CompleteIfNoneLeft(phases[1..]);
    }
  }

  /** No deadlock: until every batch is answered, some batch can move, and each move brings the end nearer. */
  lemma {:induction false} SomeBatchMoves(batches: seq<Batch>, concurrency: nat, s: State, a: Answer) returns (e: Event)
    requires concurrency > 0 && Sound(batches, concurrency, s) && !Complete(s.phases)
    ensures Enabled(s, e) && MovesLeft(Next(batches, s, e).phases) == MovesLeft(s.phases) - 1
  {
    var b := FindUnanswered(s.phases);
    e := if s.phases[b].Calling? then Event.Answer(b, a) else Acquire(b);
    MoveIsUsed(s.phases, b, if e.Acquire? then Calling else Answered(a));
  }

  /** A run completes exactly when it has moved every batch twice. */
  lemma {:induction false} RunsEndAfterTwoMovesEach(batches: seq<Batch>, s: State, events: seq<Event>)
    requires Fits(batches, s) && Possible(batches, s, events)
    ensures MovesLeft(After(batches, s, events).phases) + |events| == MovesLeft(s.phases)
    ensures Complete(After(batches, s, events).phases) <==> |events| == MovesLeft(s.phases)
    decreases |events|
  {
    CompleteIffNoMovesLeft(After(batches, s, events).phases);
    if events != [] {
      var e := events[0];
      MoveIsUsed(s.phases, e.batch, if e.Acquire? then Calling else Answered(e.answer));
      RunsEndAfterTwoMovesEach(batches, Next(batches, s, e), events[1..]);
    }
  }

  // ---- Collecting the failures -------------------------------------------

  /** The array after every failed batch's stretch has been emptied. */
  function Cleared(batches: seq<Batch>, errors: seq<Option<Error>>, start: nat,
                   out: seq<Option<Vector>>): (cleared: seq<Option<Vector>>)
    requires |errors| == |batches| && Tile(batches, start, |out|)
    ensures |cleared| == |out|
    decreases |batches|
  {
    if batches == [] then out
    else
      TilesAreInside(batches, start, |out|, 0);
      var size := |batches[0].texts|;
      Cleared(batches[1..], errors[1..], start + size,
              if errors[0].Some? then Written(out, start, Nones(size)) else out)
  }

  /** The stretch of a batch in the array. */
  function Stretch(batch: Batch, out: seq<Option<Vector>>): seq<Option<Vector>>
    requires batch.start + |batch.texts| <= |out|
  {
    out[batch.start..batch.start + |batch.texts|]
  }

  lemma {:induction false} WrittenReads(out: seq<Option<Vector>>, at: nat, values: seq<Option<Vector>>)
    requires at + |values| <= |out|
    ensures Written(out, at, values)[..at] == out[..at]
    ensures Written(out, at, values)[at..at + |values|] == values
    ensures Written(out, at, values)[at + |values|..] == out[at + |values|..]
  {
  }

  lemma {:induction false} SliceOfSame<T>(a: seq<T>, b: seq<T>, lo: nat, hi: nat, from: nat)
    requires from <= lo <= hi <= |a| == |b| && a[from..] == b[from..]
    ensures a[lo..hi] == b[lo..hi]
  {
    forall i | from <= i < |a|
      ensures a[i] == b[i]
    {
      assert a[i] == a[from..][i - from] && b[i] == b[from..][i - from];
    }
  }

  lemma {:induction false} PrefixOfSame<T>(a: seq<T>, b: seq<T>, lo: nat, hi: nat)
    requires lo <= hi <= |a| == |b| && a[..hi] == b[..hi]
    ensures a[..lo] == b[..lo] && a[lo..hi] == b[lo..hi]
  {
    forall i | 0 <= i < hi
      ensures a[i] == b[i]
    {
      assert a[i] == a[..hi][i] && b[i] == b[..hi][i];
    }
  }

  /** The array after the first batch's stretch was looked at. */
  function ClearedFirst(batches: seq<Batch>, errors: seq<Option<Error>>, start: nat,
                        out: seq<Option<Vector>>): (next: seq<Option<Vector>>)
    requires |errors| == |batches| > 0 && Tile(batches, start, |out|)
    ensures |next| == |out|
  {
    TilesAreInside(batches, start, |out|, 0);
    if errors[0].Some? then Written(out, start, Nones(|batches[0].texts|)) else out
  }

  lemma {:induction false} ClearedKeepsFront(batches: seq<Batch>, errors: seq<Option<Error>>, start: nat,
                                             out: seq<Option<Vector>>)
    requires |errors| == |batches| && Tile(batches, start, |out|)
    ensures start <= |out| && Cleared(batches, errors, start, out)[..start] == out[..start]
    decreases |batches|
  {
    TileIsForward(batches, start, |out|);
    if batches != [] {
      var size, next := |batches[0].texts|, ClearedFirst(batches, errors, start, out);
      TilesAreInside(batches, start, |out|, 0);
      ClearedKeepsFront(batches[1..], errors[1..], start + size, next);
      WrittenReads(out, start, Nones(size));
      PrefixOfSame(Cleared(batches[1..], errors[1..], start + size, next), next, start, start + size);
    }
  }

  lemma {:induction false} FirstIsCleared(batches: seq<Batch>, errors: seq<Option<Error>>, start: nat,
                                          out: seq<Option<Vector>>)
    requires |errors| == |batches| > 0 && Tile(batches, start, |out|)
    ensures start + |batches[0].texts| <= |out|
    ensures Stretch(batches[0], Cleared(batches, errors, start, out)) ==
            if errors[0].Some? then Nones(|batches[0].texts|) else Stretch(batches[0], out)
  {
    var size, next := |batches[0].texts|, ClearedFirst(batches, errors, start, out);
    TilesAreInside(batches, start, |out|, 0);
    ClearedKeepsFront(batches[1..], errors[1..], start + size, next);
    PrefixOfSame(Cleared(batches[1..], errors[1..], start + size, next), next, start, start + size);
    WrittenReads(out, start, Nones(size));
  }

  /** Emptying leaves nothing in a failed batch's stretch, and every other batch's as it was. */
  lemma {:induction false} ClearedStretch(batches: seq<Batch>, errors: seq<Option<Error>>, start: nat,
                                          out: seq<Option<Vector>>, b: nat)
    requires |errors| == |batches| && Tile(batches, start, |out|) && b < |batches|
    ensures batches[b].start + |batches[b].texts| <= |out|
    ensures Stretch(batches[b], Cleared(batches, errors, start, out)) ==
            if errors[b].Some? then Nones(|batches[b].texts|) else Stretch(batches[b], out)
    decreases |batches|
  {
    if b == 0 {
      FirstIsCleared(batches, errors, start, out);
    } else {
      var size, next := |batches[0].texts|, ClearedFirst(batches, errors, start, out);
      TilesAreInside(batches, start, |out|, 0);
      ClearedStretch(batches[1..], errors[1..], start + size, next, b - 1);
      TilesAreInside(batches[1..], start + size, |out|, b - 1);
      WrittenReads(out, start, Nones(size));
      SliceOfSame(next, out, batches[b].start, batches[b].start + |batches[b].texts|, start + size);
    }
  }

  lemma {:induction false} WrittenInMiddle(front: seq<Option<Vector>>, middle: seq<Option<Vector>>,
                                           back: seq<Option<Vector>>)
    ensures Written(front + middle + back, |front|, middle) == front + middle + back
  {
  }

  /** Emptying the failed batches' stretches is only a precaution: they never hold anything. */
  lemma {:induction false} ClearingChangesNothing(batches: seq<Batch>, phases: seq<Phase>, front: seq<Option<Vector>>)
    requires |phases| == |batches| && Tile(batches, |front|, |front| + |Expected(batches, phases)|)
    ensures var out := front + Expected(batches, phases);
            Cleared(batches, ErrorsOf(batches, phases), |front|, out) == out
    decreases |batches|
  {
    if batches != [] {
      var slots, back := Slots(batches[0], phases[0]), Expected(batches[1..], phases[1..]);
      ClearingChangesNothing(batches[1..], phases[1..], front + slots);
      WrittenInMiddle(front, slots, back);
      assert front + (slots + back) == front + slots + back;
    }
  }

  /** What one batch adds to the list of failures. */
  function FailureOf(b: Batch, error: Option<Error>): seq<Failure> {
    if error.Some? then [Failure(b.start, |b.texts|, error.value)] else []
  }

  /** The array with the batch's stretch emptied, if it failed. */
  function ClearedOne(b: Batch, error: Option<Error>, out: seq<Option<Vector>>): (next: seq<Option<Vector>>)
    requires b.start + |b.texts| <= |out|
    ensures |next| == |out|
  {
    if error.Some? then Written(out, b.start, Nones(|b.texts|)) else out
  }

  /** What is still to be collected from batch `i` on completes both results. */
  ghost predicate Collecting(batches: seq<Batch>, errors: seq<Option<Error>>, i: nat, start: nat,
                             out: seq<Option<Vector>>, failures: seq<Failure>, cleared: seq<Option<Vector>>)
    requires |errors| == |batches|
  {
    && i <= |batches| && Tile(batches[i..], start, |out|)
    && failures + FailuresOf(batches[i..], errors[i..]) == FailuresOf(batches, errors)
    && Cleared(batches[i..], errors[i..], start, out) == cleared
  }

  lemma {:induction false} CollectStep(batches: seq<Batch>, errors: seq<Option<Error>>, i: nat, start: nat,
                                       out: seq<Option<Vector>>, failures: seq<Failure>, cleared: seq<Option<Vector>>)
    requires |errors| == |batches| && i < |batches| && Collecting(batches, errors, i, start, out, failures, cleared)
    ensures batches[i].start + |batches[i].texts| <= |out|
    ensures Collecting(batches, errors, i + 1, start + |batches[i].texts|, ClearedOne(batches[i], errors[i], out),
                       failures + FailureOf(batches[i], errors[i]), cleared)
  {
    TilesAreInside(batches[i..], start, |out|, 0);
    assert batches[i..][1..] == batches[i + 1..] && errors[i..][1..] == errors[i + 1..];
    var found, later := FailureOf(batches[i], errors[i]), FailuresOf(batches[i + 1..], errors[i + 1..]);
    assert failures + (found + later) == failures + found + later;
  }

  /** Notes one batch's failure, if it failed, and empties its slots. */
  method CollectOne(b: Batch, error: Option<Error>, out: array<Option<Vector>>) returns (failures: seq<Failure>)
    requires b.start + |b.texts| <= out.Length
    modifies out
    ensures failures == FailureOf(b, error) && out[..] == ClearedOne(b, error, old(out[..]))
  {
    failures := [];
    if error.Some? {
      failures := [Failure(b.start, |b.texts|, error.value)];
      ClearStretch(out, b.start, |b.texts|);
    }
  }

  /** Walks the batches with their results; empties the slots of each failed one. */
  method CollectFailures(batches: seq<Batch>, errors: seq<Option<Error>>, out: array<Option<Vector>>)
    returns (failures: seq<Failure>)
    requires |errors| == |batches| && Tile(batches, 0, out.Length)
    modifies out
    ensures failures == FailuresOf(batches, errors)
    ensures out[..] == Cleared(batches, errors, 0, old(out[..]))
  {
    failures := [];
    ghost var start: nat := 0;
    ghost var cleared := Cleared(batches, errors, 0, out[..]);
    assert batches[0..] == batches && errors[0..] == errors;
    var i := 0;
    while i < |batches|
      invariant i <= |batches| && Collecting(batches, errors, i, start, out[..], failures, cleared)
    {
      CollectStep(batches, errors, i, start, out[..], failures, cleared);
      var found := CollectOne(batches[i], errors[i], out);
      failures := failures + found;
      start := start + |batches[i].texts|;
      i := i + 1;
    }
  }

  lemma {:induction false} WrittenNext(out: seq<Option<Vector>>, at: nat, values: seq<Option<Vector>>,
                                       v: Option<Vector>)
    requires at + |values| < |out|
    ensures Written(out, at, values)[at + |values| := v] == Written(out, at, values + [v])
  {
  }

  method ClearStretch(out: array<Option<Vector>>, start: nat, size: nat)
    requires start + size <= out.Length
    modifies out
    ensures out[..] == Written(old(out[..]), start, Nones(size))
  {
    for offset := 0 to size
      invariant out[..] == Written(old(out[..]), start, Nones(offset))
    {
      ghost var before := out[..];
      out[start + offset] := None;
      assert out[..] == before[start + offset := None];
      WrittenNext(old(out[..]), start, Nones(offset), None);
      assert Nones(offset + 1) == Nones(offset) + [None];
    }
  }
}
