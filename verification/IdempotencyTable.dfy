/** The replay cache for `Idempotency-Key` requests: the table, its statements and the decision made
    before a handler runs. */
module IdempotencyTable {
  import opened Wrappers

  type Time = nat
  type RequestId = nat

  /** The primary key of the table: the sanitized header and the route. */
  datatype Slot = Slot(key: string, route: string)

  datatype Response = Response(body: string, status: nat)

  /** A cached response, who stored it and when. */
  datatype Row = Row(hash: string, response: Response, author: RequestId, createdAt: Time, expiresAt: Time)

  type Rows = map<Slot, Row>

  /** 24 hours, in seconds. */
  const TTL: nat := 24 * 60 * 60

  // ---- The decision ------------------------------------------------------

  datatype Outcome = Miss | Hit(response: Response) | Conflict

  /** A request without a usable key misses; so does one whose row is absent or past its expiry. */
  function Check(rows: Rows, slot: Option<Slot>, hash: string, now: Time): Outcome {
    if slot.None? || slot.value !in rows then Miss
    else
      var row := rows[slot.value];
      if row.expiresAt <= now then Miss
      else if row.hash != hash then Conflict
      else Hit(row.response)
  }

  /** 2xx to 4xx responses are cached, 5xx are not. */
  predicate ShouldCache(status: nat) {
    200 <= status <= 499
  }

  function Swept(rows: Rows, cutoff: Time): Rows {
    map slot | slot in rows && rows[slot].expiresAt >= cutoff :: rows[slot]
  }

  /** Sweeping changes no answer: from the cutoff on, every request gets the same decision as before. */
  lemma {:induction false} SweepingChangesNoAnswer(rows: Rows, cutoff: Time, slot: Option<Slot>, hash: string,
                                                   now: Time)
    requires cutoff <= now
    ensures Check(Swept(rows, cutoff), slot, hash, now) == Check(rows, slot, hash, now)
  {
    if slot.Some? && slot.value in rows && slot.value !in Swept(rows, cutoff) {
      assert rows[slot.value].expiresAt < cutoff;
    }
  }

  /** At the very moment of expiry a row is refused though a sweep would still keep it. */
  lemma {:induction false} RefusedButNotSwept(slot: Slot, row: Row)
    ensures var rows := map[slot := row];
            slot in Swept(rows, row.expiresAt) && Check(rows, Some(slot), row.hash, row.expiresAt) == Miss
  {
    var rows := map[slot := row];
    assert rows[slot] == row;
  }

  // ---- The table ---------------------------------------------------------

  class Table {
    var rows: Rows

    constructor ()
      ensures rows == map[]
    {
      rows := map[];
    }

    /** The stored row, expired or not. */
    method Lookup(slot: Slot) returns (row: Option<Row>)
      ensures row.Some? <==> slot in rows
      ensures row.Some? ==> row.value == rows[slot]
    {
      row := if slot in rows then Some(rows[slot]) else None;
    }

    method CheckOrReplay(slot: Option<Slot>, hash: string, now: Time) returns (outcome: Outcome)
      ensures outcome == Check(rows, slot, hash, now)
      ensures outcome.Miss? <==> slot.None? || slot.value !in rows || rows[slot.value].expiresAt <= now
      ensures outcome.Conflict? <==>
                slot.Some? && slot.value in rows && now < rows[slot.value].expiresAt && rows[slot.value].hash != hash
      ensures outcome.Hit? <==>
                slot.Some? && slot.value in rows && now < rows[slot.value].expiresAt && rows[slot.value].hash == hash
      ensures outcome.Hit? ==> outcome.response == rows[slot.value].response
    {
      if slot.None? {
        return Miss;
      }
      var cached := Lookup(slot.value);
      if cached.None? {
        return Miss;
      }
      if cached.value.expiresAt <= now {
        return Miss;
      }
      if cached.value.hash != hash {
        return Conflict;
      }
      return Hit(cached.value.response);
    }

    /** Inserts unless the slot is taken, by an expired row as much as by a fresh one. */
    method CreateIfAbsent(slot: Slot, hash: string, response: Response, author: RequestId,
                          now: Time) returns (inserted: bool)
      modifies this
      ensures inserted <==> slot !in old(rows)
      ensures !inserted ==> rows == old(rows)
      ensures inserted ==> rows == old(rows)[slot := Row(hash, response, author, now, now + 24 * 60 * 60)]
    {
      inserted := slot !in rows;
      if inserted {
        rows := rows[slot := Row(hash, response, author, now, now + TTL)];
      }
    }

    method DeleteExpired(cutoff: Time) returns (deleted: nat)
      modifies this
      ensures rows == Swept(old(rows), cutoff)
      ensures forall slot :: slot in rows <==> slot in old(rows) && old(rows)[slot].expiresAt >= cutoff
      ensures forall slot | slot in rows :: rows[slot] == old(rows)[slot]
      ensures deleted == |set slot | slot in old(rows) && old(rows)[slot].expiresAt < cutoff|
    {
      var expired := set slot | slot in rows && rows[slot].expiresAt < cutoff;
      deleted := |expired|;
      rows := rows - expired;
    }
  }
}
