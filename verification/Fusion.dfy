/** Reciprocal rank fusion of ranked lists, its rescaling to the unit interval, and the boosts applied
    afterwards. */
module Fusion {
  import opened Wrappers
  import opened Reals

  type Id = string

  /** What a place in a list is worth; places count from zero. */
  type Worth = nat -> real

  ghost predicate Decreasing(w: Worth) {
    (forall i :: w(i) > 0.0) && forall i, j | i < j :: w(j) < w(i)
  }

  /** The worth of place `i`, which is rank `i + 1`. */
  function Reciprocal(k: nat): Worth {
    (i: nat) => 1.0 / (k + i + 1) as real
  }

  lemma {:induction false} ReciprocalIsDecreasing(k: nat)
    ensures Decreasing(Reciprocal(k))
  {
    forall i: nat, j: nat | i < j
      ensures Reciprocal(k)(j) < Reciprocal(k)(i)
    {
      LargerDivisor((k + i + 1) as real, (k + j + 1) as real);
    }
  }

  lemma {:induction false} LargerDivisor(x: real, y: real)
    requires 0.0 < x < y
    ensures 1.0 / y < 1.0 / x
  {
    var u, v := 1.0 / x, 1.0 / y;
    assert u * x == 1.0 && v * y == 1.0;
    ScaleKeepsOrder(x, y, v);
    assert v * x < u * x;
    if u <= v {
      ScaleKeepsOrder(u, v, x);
    }
  }

  // ---- The accumulating loop ---------------------------------------------

  type Scores = map<Id, real>

  function ScoreIn(scores: Scores, id: Id): real {
    if id in scores then scores[id] else 0.0
  }

  /** The scores after an arm's entries have been added, the first of them at place `first`. */
  function AddArm(w: Worth, scores: Scores, arm: seq<Id>, first: nat): Scores
    decreases |arm|
  {
    if arm == [] then scores
    else AddArm(w, scores[arm[0] := ScoreIn(scores, arm[0]) + w(first)], arm[1..], first + 1)
  }

  function AddArms(w: Worth, scores: Scores, arms: seq<seq<Id>>): Scores
    decreases |arms|
  {
    if arms == [] then scores else AddArms(w, AddArm(w, scores, arms[0], 0), arms[1..])
  }

  /** What the arm gives a chunk. */
  function ArmSum(w: Worth, arm: seq<Id>, first: nat, id: Id): real {
    if arm == [] then 0.0 else (if arm[0] == id then w(first) else 0.0) + ArmSum(w, arm[1..], first + 1, id)
  }

  /** The sum over the arms of what each gives. */
  function Score(w: Worth, arms: seq<seq<Id>>, id: Id): real {
    if arms == [] then 0.0 else ArmSum(w, arms[0], 0, id) + Score(w, arms[1..], id)
  }

  predicate InSome(arms: seq<seq<Id>>, id: Id) {
    arms != [] && (id in arms[0] || InSome(arms[1..], id))
  }

  /** Adds up what every arm gives, entry by entry. */
  method Fuse(w: Worth, arms: seq<seq<Id>>) returns (scores: Scores)
    ensures forall id :: id in scores <==> InSome(arms, id)
    ensures forall id | id in scores :: scores[id] == Score(w, arms, id)
  {
    scores := map[];
    var i := 0;
    while i < |arms|
      invariant i <= |arms|
      invariant AddArms(w, scores, arms[i..]) == AddArms(w, map[], arms)
    {
      var arm := arms[i];
      ghost var before := scores;
      var place := 0;
      while place < |arm|
        invariant place <= |arm|
        invariant AddArm(w, scores, arm[place..], place) == AddArm(w, before, arm, 0)
      {
        assert arm[place..][1..] == arm[place + 1..];
        scores := scores[arm[place] := ScoreIn(scores, arm[place]) + w(place)];
        place := place + 1;
      }
      assert arms[i..][1..] == arms[i + 1..];
      i := i + 1;
    }
    forall id {
      ArmsTotal(w, map[], arms, id);
    }
  }

  lemma {:induction false} ArmTotal(w: Worth, scores: Scores, arm: seq<Id>, first: nat, id: Id)
    ensures ScoreIn(AddArm(w, scores, arm, first), id) == ScoreIn(scores, id) + ArmSum(w, arm, first, id)
    ensures id in AddArm(w, scores, arm, first) <==> id in scores || id in arm
    decreases |arm|
  {
    if arm != [] {
      ArmTotal(w, scores[arm[0] := ScoreIn(scores, arm[0]) + w(first)], arm[1..], first + 1, id);
    }
  }

  lemma {:induction false} ArmsTotal(w: Worth, scores: Scores, arms: seq<seq<Id>>, id: Id)
    ensures ScoreIn(AddArms(w, scores, arms), id) == ScoreIn(scores, id) + Score(w, arms, id)
    ensures id in AddArms(w, scores, arms) <==> id in scores || InSome(arms, id)
    decreases |arms|
  {
    if arms != [] {
      ArmTotal(w, scores, arms[0], 0, id);
      ArmsTotal(w, AddArm(w, scores, arms[0], 0), arms[1..], id);
    }
  }

  // ---- The grouped query -------------------------------------------------

  /** A row of an arm: a chunk and its row number. */
  datatype Ranked = Ranked(id: Id, place: nat)

  function RowsOf(arm: seq<Id>, first: nat): seq<Ranked> {
    if arm == [] then [] else [Ranked(arm[0], first)] + RowsOf(arm[1..], first + 1)
  }

  /** The sum over the rows of one chunk. */
  function GroupSum(w: Worth, rows: seq<Ranked>, id: Id): real {
    if rows == [] then 0.0 else (if rows[0].id == id then w(rows[0].place) else 0.0) + GroupSum(w, rows[1..], id)
  }

  lemma {:induction false} GroupSumAppend(w: Worth, a: seq<Ranked>, b: seq<Ranked>, id: Id)
    ensures GroupSum(w, a + b, id) == GroupSum(w, a, id) + GroupSum(w, b, id)
  {
    if a == [] {
      assert a + b == b;
    } else {
      GroupSumAppend(w, a[1..], b, id);
      assert (a + b)[1..] == a[1..] + b;
    }
  }

  lemma {:induction false} RowsGiveArmSum(w: Worth, arm: seq<Id>, first: nat, id: Id)
    ensures GroupSum(w, RowsOf(arm, first), id) == ArmSum(w, arm, first, id)
  {
    if arm != [] {
      RowsGiveArmSum(w, arm[1..], first + 1, id);
      assert RowsOf(arm, first)[1..] == RowsOf(arm[1..], first + 1);
    }
  }

  /** The query's rescaled sum over the union of both arms' rows. */
  function QueryScore(k: nat, vector: seq<Id>, text: seq<Id>, id: Id): real {
    GroupSum(Reciprocal(k), RowsOf(vector, 0) + RowsOf(text, 0), id) * ((k + 1) as real / 2.0)
  }

  /** The query's grouped sum is the loop's score, rescaled. */
  lemma {:induction false} QueryIsRescaledLoop(k: nat, vector: seq<Id>, text: seq<Id>, id: Id)
    ensures QueryScore(k, vector, text, id) == Score(Reciprocal(k), [vector, text], id) * ((k + 1) as real / 2.0)
  {
    var w := Reciprocal(k);
    GroupSumAppend(w, RowsOf(vector, 0), RowsOf(text, 0), id);
    RowsGiveArmSum(w, vector, 0, id);
    RowsGiveArmSum(w, text, 0, id);
    ScoreOfTwo(w, vector, text, id);
  }

  lemma {:induction false} ScoreOfTwo(w: Worth, a: seq<Id>, b: seq<Id>, id: Id)
    ensures Score(w, [a, b], id) == ArmSum(w, a, 0, id) + ArmSum(w, b, 0, id)
  {
    assert [a, b][1..] == [b];
    assert Score(w, [b], id) == ArmSum(w, b, 0, id) + Score(w, [], id);
  }

  // ---- What a score says -------------------------------------------------

  predicate NoDuplicates(arm: seq<Id>) {
    arm == [] || (arm[0] !in arm[1..] && NoDuplicates(arm[1..]))
  }

  /** An arm without duplicates gives at most the worth of its first place, and that only to its first. */
  lemma {:induction false} ArmSumBounds(w: Worth, arm: seq<Id>, first: nat, id: Id)
    requires Decreasing(w) && NoDuplicates(arm)
    ensures id !in arm ==> ArmSum(w, arm, first, id) == 0.0
    ensures id in arm ==> 0.0 < ArmSum(w, arm, first, id) <= w(first)
    ensures ArmSum(w, arm, first, id) == w(first) <==> arm != [] && arm[0] == id
  {
    if arm != [] {
      ArmSumBounds(w, arm[1..], first + 1, id);
      assert w(first + 1) < w(first);
    } else {
      assert w(first) > 0.0;
    }
  }

  predicate FirstIn(arm: seq<Id>, id: Id) {
    arm != [] && arm[0] == id
  }

  /** The rescaled score lies in the unit interval: it is positive exactly for the chunks found, one exactly
      for a chunk first in both arms, and a half for one that is first in one arm and not in the other. */
  lemma {:induction false} QueryScoreBounds(k: nat, vector: seq<Id>, text: seq<Id>, id: Id)
    requires NoDuplicates(vector) && NoDuplicates(text)
    ensures 0.0 <= QueryScore(k, vector, text, id) <= 1.0
    ensures QueryScore(k, vector, text, id) > 0.0 <==> id in vector || id in text
    ensures QueryScore(k, vector, text, id) == 1.0 <==> FirstIn(vector, id) && FirstIn(text, id)
    ensures FirstIn(vector, id) && id !in text ==> QueryScore(k, vector, text, id) == 0.5
    ensures FirstIn(text, id) && id !in vector ==> QueryScore(k, vector, text, id) == 0.5
  {
    PartsOfScore(k, vector, text, id);
    PartBounds(k, vector, id);
    PartBounds(k, text, id);
    RescaledBounds(ArmSum(Reciprocal(k), vector, 0, id), ArmSum(Reciprocal(k), text, 0, id), (k + 1) as real);
  }

  lemma {:induction false} PartsOfScore(k: nat, vector: seq<Id>, text: seq<Id>, id: Id)
    ensures QueryScore(k, vector, text, id) ==
            (ArmSum(Reciprocal(k), vector, 0, id) + ArmSum(Reciprocal(k), text, 0, id)) * ((k + 1) as real / 2.0)
  {
    QueryIsRescaledLoop(k, vector, text, id);
    ScoreOfTwo(Reciprocal(k), vector, text, id);
  }

  lemma {:induction false} PartBounds(k: nat, arm: seq<Id>, id: Id)
    requires NoDuplicates(arm)
    ensures var part := ArmSum(Reciprocal(k), arm, 0, id);
            && 0.0 <= part <= 1.0 / (k + 1) as real
            && (part == 0.0 <==> id !in arm)
            && (part == 1.0 / (k + 1) as real <==> FirstIn(arm, id))
  {
    ReciprocalIsDecreasing(k);
    ArmSumBounds(Reciprocal(k), arm, 0, id);
    assert Reciprocal(k)(0) > 0.0;
  }

  /** Two parts, each at most `1 / n`, rescaled by half of `n`. */
  lemma {:induction false} RescaledBounds(a: real, b: real, n: real)
    requires n > 0.0 && 0.0 <= a <= 1.0 / n && 0.0 <= b <= 1.0 / n
    ensures var s := (a + b) * (n / 2.0);
            && 0.0 <= s <= 1.0
            && (s > 0.0 <==> a > 0.0 || b > 0.0)
            && (s == 1.0 <==> a == 1.0 / n && b == 1.0 / n)
            && (a == 1.0 / n && b == 0.0 ==> s == 0.5)
            && (b == 1.0 / n && a == 0.0 ==> s == 0.5)
  {
    PartIsFraction(a, n);
    PartIsFraction(b, n);
    HalvesSum(a, b, n);
  }

  lemma {:induction false} PartIsFraction(a: real, n: real)
    requires n > 0.0 && 0.0 <= a <= 1.0 / n
    ensures 0.0 <= a * n <= 1.0
    ensures a * n > 0.0 <==> a > 0.0
    ensures a * n == 1.0 <==> a == 1.0 / n
  {
    var u := 1.0 / n;
    assert u * n == 1.0;
    ScaleKeepsOrder(a, u, n);
    ScaleKeepsOrder(0.0, a, n);
    assert 0.0 * n == 0.0;
  }

  lemma {:induction false} HalvesSum(a: real, b: real, n: real)
    ensures (a + b) * (n / 2.0) == (a * n + b * n) / 2.0
  {
  }

  /** An arm without duplicates gives each of its chunks the worth of the chunk's place. */
  lemma {:induction false} ArmSumAt(w: Worth, arm: seq<Id>, first: nat, i: nat)
    requires NoDuplicates(arm) && i < |arm|
    ensures ArmSum(w, arm, first, arm[i]) == w(first + i)
  {
    if i == 0 {
      ArmSumAbsent(w, arm[1..], first + 1, arm[0]);
    } else {
      assert arm[1..][i - 1] in arm[1..];
      ArmSumAt(w, arm[1..], first + 1, i - 1);
    }
  }

  lemma {:induction false} ArmSumAbsent(w: Worth, arm: seq<Id>, first: nat, id: Id)
    requires id !in arm
    ensures ArmSum(w, arm, first, id) == 0.0
  {
    if arm != [] {
      ArmSumAbsent(w, arm[1..], first + 1, id);
    }
  }

  predicate PlacedAt(arm: seq<Id>, id: Id, i: nat) {
    i < |arm| && arm[i] == id
  }

  /** What the places say: ranks `i + 1` and `j + 1` give `1 / (k + i + 1)` and `1 / (k + j + 1)`, summed and
      rescaled by half of `k + 1`; an arm without the chunk gives nothing. */
  lemma {:induction false} QueryScoreOfPlaces(k: nat, vector: seq<Id>, text: seq<Id>, id: Id, i: nat, j: nat)
    requires NoDuplicates(vector) && NoDuplicates(text)
    ensures PlacedAt(vector, id, i) && PlacedAt(text, id, j) ==>
              QueryScore(k, vector, text, id) ==
              (1.0 / (k + i + 1) as real + 1.0 / (k + j + 1) as real) * ((k + 1) as real / 2.0)
    ensures PlacedAt(vector, id, i) && id !in text ==>
              QueryScore(k, vector, text, id) == (1.0 / (k + i + 1) as real) * ((k + 1) as real / 2.0)
    ensures PlacedAt(text, id, j) && id !in vector ==>
              QueryScore(k, vector, text, id) == (1.0 / (k + j + 1) as real) * ((k + 1) as real / 2.0)
  {
    var w := Reciprocal(k);
    PartsOfScore(k, vector, text, id);
    if PlacedAt(vector, id, i) {
      ArmSumAt(w, vector, 0, i);
    }
    if PlacedAt(text, id, j) {
      ArmSumAt(w, text, 0, j);
    }
    if id !in vector {
      ArmSumAbsent(w, vector, 0, id);
    }
    if id !in text {
      ArmSumAbsent(w, text, 0, id);
    }
  }

  /** `b` is not before `a`, nor in a list that `a` is not in. */
  predicate Ahead(arm: seq<Id>, a: Id, b: Id) {
    arm == [] || arm[0] == a || (arm[0] != b && Ahead(arm[1..], a, b))
  }

  lemma {:induction false} AheadGetsMore(w: Worth, arm: seq<Id>, first: nat, a: Id, b: Id)
    requires Decreasing(w) && NoDuplicates(arm) && a != b && Ahead(arm, a, b)
    ensures ArmSum(w, arm, first, a) >= ArmSum(w, arm, first, b)
    ensures a in arm ==> ArmSum(w, arm, first, a) > ArmSum(w, arm, first, b)
  {
    if arm != [] {
      if arm[0] == a {
        ArmSumBounds(w, arm[1..], first + 1, a);
        ArmSumBounds(w, arm[1..], first + 1, b);
        assert w(first + 1) < w(first);
      } else {
        AheadGetsMore(w, arm[1..], first + 1, a, b);
      }
    }
  }

  ghost predicate AheadInAll(arms: seq<seq<Id>>, a: Id, b: Id) {
    forall i | 0 <= i < |arms| :: NoDuplicates(arms[i]) && Ahead(arms[i], a, b)
  }

  /** A chunk that is ahead of another wherever either is ranked scores strictly higher. */
  lemma {:induction false} AheadEverywhereScoresHigher(w: Worth, arms: seq<seq<Id>>, a: Id, b: Id)
    requires Decreasing(w) && a != b && AheadInAll(arms, a, b)
    ensures Score(w, arms, a) >= Score(w, arms, b)
    ensures InSome(arms, a) ==> Score(w, arms, a) > Score(w, arms, b)
  {
    if arms != [] {
      AheadGetsMore(w, arms[0], 0, a, b);
      AheadEverywhereScoresHigher(w, arms[1..], a, b);
    }
  }

  // ---- Boosts ------------------------------------------------------------

  /** Days are counted from a fixed one. */
  datatype Chunk = Chunk(id: Id, score: real, status: string, lastReviewed: Option<int>)

  datatype Config = Config(statusWeights: map<string, real>, staleAfterDays: Option<int>)

  /** The validators' checks. */
  predicate ValidConfig(c: Config) {
    (forall s | s in c.statusWeights :: 0.0 < c.statusWeights[s] <= 1.0) &&
    (c.staleAfterDays.Some? ==> c.staleAfterDays.value > 0)
  }

  function WeightFor(c: Config, status: string): real {
    if status in c.statusWeights then c.statusWeights[status] else 1.0
  }

  function Freshness(lastReviewed: Option<int>, today: int, staleAfterDays: Option<int>): real
    requires staleAfterDays.Some? ==> staleAfterDays.value > 0
  {
    if staleAfterDays.None? then 1.0
    else if lastReviewed.None? then 0.3
    else
      var age, stale := today - lastReviewed.value, staleAfterDays.value;
      if age <= stale then 1.0
      else Max(0.3, 1.0 - 0.7 * Min(1.0, (age - stale) as real / stale as real))
  }

  function Multiplied(score: real, weight: real, freshness: real): real {
    score * weight * freshness
  }

  function Boosted(c: Config, today: int, chunk: Chunk): Chunk
    requires ValidConfig(c)
  {
    chunk.(score := Multiplied(chunk.score, WeightFor(c, chunk.status),
                               Freshness(chunk.lastReviewed, today, c.staleAfterDays)))
  }

  /** Fresh inside the window, at the floor from twice the window on, and strictly between in between. */
  lemma {:induction false} FreshnessRange(lastReviewed: int, today: int, stale: int)
    requires stale > 0
    ensures var f, age := Freshness(Some(lastReviewed), today, Some(stale)), today - lastReviewed;
            && 0.3 <= f <= 1.0
            && (f == 1.0 <==> age <= stale)
            && (f == 0.3 <==> age >= 2 * stale)
  {
    var age := today - lastReviewed;
    if age > stale {
      DecayIsFraction((age - stale) as real, stale as real);
    }
  }

  /** Between one window and two each day costs the same, `0.7 / stale`. Without a window nothing is stale,
      and what was never reviewed is at the floor. */
  lemma {:induction false} FreshnessFallsEvenly(lastReviewed: int, today: int, stale: int)
    requires stale > 0 && stale <= today - lastReviewed < 2 * stale
    ensures Freshness(Some(lastReviewed), today, Some(stale)) - Freshness(Some(lastReviewed), today + 1, Some(stale)) ==
            0.7 / stale as real
    ensures Freshness(Some(lastReviewed), today, None) == 1.0
    ensures Freshness(None, today, Some(stale)) == 0.3
  {
    var n, over := stale as real, (today - lastReviewed - stale) as real;
    DecayAt(over, n);
    DecayAt(over + 1.0, n);
    FractionsAdd(over, n);
    assert (today + 1 - lastReviewed - stale) as real == over + 1.0;
  }

  lemma {:induction false} DecayAt(over: real, n: real)
    requires n > 0.0 && 0.0 <= over <= n
    ensures Max(0.3, 1.0 - 0.7 * Min(1.0, over / n)) == 1.0 - 0.7 * (over / n)
  {
    var q := over / n;
    assert q * n == over;
    if q > 1.0 {
      ScaleKeepsOrder(1.0, q, n);
    }
  }

  lemma {:induction false} FractionsAdd(over: real, n: real)
    requires n > 0.0
    ensures 0.7 * ((over + 1.0) / n) - 0.7 * (over / n) == 0.7 / n
    ensures 0.0 / n == 0.0
  {
    var p, q, r := (over + 1.0) / n, over / n, 1.0 / n;
    assert p * n == over + 1.0 && q * n == over && r * n == 1.0;
    assert (q + r) * n == q * n + r * n;
    assert p == (p * n) / n && q + r == ((q + r) * n) / n;
  }

  lemma {:induction false} DecayIsFraction(over: real, stale: real)
    requires over > 0.0 && stale > 0.0
    ensures over / stale > 0.0
    ensures over / stale >= 1.0 <==> over >= stale
  {
    var q := over / stale;
    assert q * stale == over;
    if q >= 1.0 {
      ScaleKeepsOrder(1.0, q, stale);
    } else {
      ScaleKeepsOrder(q, 1.0, stale);
    }
    if q <= 0.0 {
      ScaleKeepsOrder(q, 0.0, stale);
    }
  }

  /** An earlier review is never fresher; an unknown one is as stale as any. */
  lemma {:induction false} FreshnessFallsWithAge(earlier: Option<int>, later: int, today: int,
                                                 staleAfterDays: Option<int>)
    requires staleAfterDays.Some? ==> staleAfterDays.value > 0
    requires earlier.Some? ==> earlier.value <= later
    ensures Freshness(earlier, today, staleAfterDays) <= Freshness(Some(later), today, staleAfterDays)
  {
    if staleAfterDays.Some? {
      FreshnessRange(later, today, staleAfterDays.value);
      if earlier.Some? {
        FreshnessRange(earlier.value, today, staleAfterDays.value);
        var s := staleAfterDays.value;
        QuotientKeepsOrder((today - later - s) as real, (today - earlier.value - s) as real, s as real);
      }
    }
  }

  lemma {:induction false} QuotientKeepsOrder(x: real, y: real, n: real)
    requires x <= y && n > 0.0
    ensures x / n <= y / n
  {
    var u, v := x / n, y / n;
    assert u * n == x && v * n == y;
    if v < u {
      ScaleKeepsOrder(v, u, n);
    }
  }

  /** Both factors of a boost lie in (0, 1]. */
  lemma {:induction false} FactorsAreFractions(c: Config, today: int, chunk: Chunk)
    requires ValidConfig(c)
    ensures 0.0 < WeightFor(c, chunk.status) <= 1.0
    ensures 0.3 <= Freshness(chunk.lastReviewed, today, c.staleAfterDays) <= 1.0
  {
    if c.staleAfterDays.Some? && chunk.lastReviewed.Some? {
      FreshnessRange(chunk.lastReviewed.value, today, c.staleAfterDays.value);
    }
  }

  lemma {:induction false} FractionOf(x: real, f: real)
    requires x > 0.0 && 0.0 < f <= 1.0
    ensures 0.0 < x * f <= x
  {
    ScaleKeepsOrder(f, 1.0, x);
    ScaleKeepsOrder(0.0, f, x);
  }

  lemma {:induction false} FractionOfFraction(x: real, f: real, g: real)
    requires x > 0.0 && 0.0 < f <= 1.0 && 0.0 < g <= 1.0
    ensures 0.0 < Multiplied(x, f, g) <= x
  {
    FractionOf(x, f);
    var p := x * f;
    FractionOf(p, g);
    assert p * g == Multiplied(x, f, g);
  }

  /** A boost keeps a positive score positive and never raises it, so scores stay in (0, 1]. */
  lemma {:induction false} BoostNeverRaises(c: Config, today: int, chunk: Chunk)
    requires ValidConfig(c) && 0.0 < chunk.score <= 1.0
    ensures 0.0 < Boosted(c, today, chunk).score <= chunk.score
  {
    FactorsAreFractions(c, today, chunk);
    FractionOfFraction(chunk.score, WeightFor(c, chunk.status), Freshness(chunk.lastReviewed, today, c.staleAfterDays));
  }

  /** A chunk with the better score and no worse status weight or freshness stays ahead. */
  lemma {:induction false} BoostKeepsLead(c: Config, today: int, a: Chunk, b: Chunk)
    requires ValidConfig(c) && 0.0 < b.score < a.score
    requires WeightFor(c, a.status) >= WeightFor(c, b.status)
    requires Freshness(a.lastReviewed, today, c.staleAfterDays) >= Freshness(b.lastReviewed, today, c.staleAfterDays)
    ensures Boosted(c, today, a).score > Boosted(c, today, b).score
  {
    FactorsAreFractions(c, today, a);
    FactorsAreFractions(c, today, b);
    ProductsKeepOrder(b.score, a.score, WeightFor(c, b.status), WeightFor(c, a.status),
                      Freshness(b.lastReviewed, today, c.staleAfterDays),
                      Freshness(a.lastReviewed, today, c.staleAfterDays));
  }

  lemma {:induction false} ProductsKeepOrder(x: real, y: real, f: real, g: real, h: real, i: real)
    requires 0.0 < x < y && 0.0 < f <= g <= 1.0 && 0.0 < h <= i
    ensures Multiplied(x, f, h) < Multiplied(y, g, i)
  {
    FractionOf(x, f);
    ProductKeepsOrder(x, y, f, g);
    ProductKeepsOrder(x * f, y * g, h, i);
  }

  lemma {:induction false} ProductKeepsOrder(x: real, y: real, f: real, g: real)
    requires 0.0 < x < y && 0.0 < f <= g
    ensures x * f < y * g
  {
    ScaleKeepsOrder(x, y, f);
    ScaleKeepsOrder(f, g, y);
  }

  /** The two boosts are independent: the status weight is one, and the freshness that of the chunk as it is;
      both together are one after the other, in either order. Nothing but the score changes. */
  lemma {:induction false} BoostsCompose(c: Config, today: int, chunk: Chunk)
    requires ValidConfig(c)
    ensures var weighted := Boosted(c.(staleAfterDays := None), today, chunk);
            var aged := Boosted(c.(statusWeights := map[]), today, chunk);
            && weighted.score ==
               (if chunk.status in c.statusWeights then c.statusWeights[chunk.status] else 1.0) * chunk.score
            && aged.score == chunk.score * Freshness(chunk.lastReviewed, today, c.staleAfterDays)
            && Boosted(c, today, chunk) == Boosted(c.(statusWeights := map[]), today, weighted)
            && Boosted(c, today, chunk) == Boosted(c.(staleAfterDays := None), today, aged)
            && Boosted(c, today, chunk).(score := chunk.score) == chunk
  {
    var w, f := WeightFor(c, chunk.status), Freshness(chunk.lastReviewed, today, c.staleAfterDays);
    assert Multiplied(chunk.score, w, 1.0) == chunk.score * w;
    assert Multiplied(chunk.score, 1.0, f) == chunk.score * f;
    ProductsCommute(chunk.score, w, f);
  }

  lemma {:induction false} ProductsCommute(x: real, w: real, f: real)
    ensures Multiplied(Multiplied(x, w, 1.0), 1.0, f) == Multiplied(x, w, f)
    ensures Multiplied(Multiplied(x, 1.0, f), w, 1.0) == Multiplied(x, w, f)
  {
  }
}
