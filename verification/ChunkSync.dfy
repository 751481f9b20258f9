/** Bringing a document's stored chunks up to date: rows whose hash still agrees are left alone, others are
    upserted in place, and rows past the new end are deleted. */
module ChunkSync {
  type DocId = nat
  type RowId = nat
  type Hash = string
  type Markers = set<string>

  /** What the parser makes of a section; the index is the chunk's position. */
  datatype Parsed = Parsed(index: nat, content: string, tokens: nat, hash: Hash, headingPath: seq<string>)

  /** Rows are unique by document and index. */
  datatype Key = Key(doc: DocId, index: nat)

  datatype Row = Row(id: RowId, content: string, tokens: nat, hash: Hash, headingPath: seq<string>, markers: Markers)

  type Rows = map<Key, Row>

  predicate Numbered(chunks: seq<Parsed>) {
    forall i | 0 <= i < |chunks| :: chunks[i].index == i
  }

  /** The row that a write of the chunk stores. */
  function Rewritten(chunk: Parsed, id: RowId, mark: string -> Markers): Row {
    Row(id, chunk.content, chunk.tokens, chunk.hash, chunk.headingPath, mark(chunk.content))
  }

  /** The chunk's row is there with the chunk's hash. */
  predicate Unchanged(rows: Rows, doc: DocId, chunk: Parsed) {
    Key(doc, chunk.index) in rows && rows[Key(doc, chunk.index)].hash == chunk.hash
  }

  /** How many of the first `n` chunks have no row with their hash. */
  function ChangedUpTo(rows: Rows, doc: DocId, chunks: seq<Parsed>, n: nat): (count: nat)
    requires n <= |chunks|
    ensures count <= n
  {
    if n == 0 then 0
    else ChangedUpTo(rows, doc, chunks, n - 1) + if Unchanged(rows, doc, chunks[n - 1]) then 0 else 1
  }

  function ChangedCount(rows: Rows, doc: DocId, chunks: seq<Parsed>): nat {
    ChangedUpTo(rows, doc, chunks, |chunks|)
  }

  /** No two rows share an id. */
  predicate UniqueIds(rows: Rows) {
    forall k, l | k in rows && l in rows && rows[k].id == rows[l].id :: k == l
  }

  /** A chunk's row after the sync: left alone if the hash agreed, otherwise overwritten under the id it had. */
  predicate RowSynced(before: Rows, after: Rows, doc: DocId, chunk: Parsed, mark: string -> Markers) {
    var k := Key(doc, chunk.index);
    k in after &&
    if Unchanged(before, doc, chunk) then after[k] == before[k]
    else after[k] == Rewritten(chunk, after[k].id, mark) && (k in before ==> after[k].id == before[k].id)
  }

  predicate SameAt(before: Rows, after: Rows, k: Key) {
    (k in after <==> k in before) && (k in before ==> after[k] == before[k])
  }

  /** The document's ids and hashes by index. */
  ghost predicate Lists(existing: map<nat, (RowId, Hash)>, rows: Rows, doc: DocId) {
    && (forall i :: i in existing <==> Key(doc, i) in rows)
    && forall i | i in existing :: existing[i] == (rows[Key(doc, i)].id, rows[Key(doc, i)].hash)
  }

  lemma {:induction false} ChangedStep(rows: Rows, existing: map<nat, (RowId, Hash)>, doc: DocId,
                                       chunks: seq<Parsed>, n: nat)
    requires n < |chunks| && Lists(existing, rows, doc)
    ensures Unchanged(rows, doc, chunks[n]) <==>
            chunks[n].index in existing && existing[chunks[n].index].1 == chunks[n].hash
  {
  }

  /** What a sync of the document leaves: one row per chunk, and everything else of other documents. */
  ghost predicate SyncedTo(before: Rows, after: Rows, doc: DocId, chunks: seq<Parsed>, mark: string -> Markers) {
    && (forall i | 0 <= i < |chunks| :: RowSynced(before, after, doc, chunks[i], mark))
    && (forall k | k in after && k.doc == doc :: k.index < |chunks|)
    && (forall k: Key | k.doc != doc :: SameAt(before, after, k))
  }

  /** The sync of the first `n` chunks. */
  ghost predicate Partway(before: Rows, now: Rows, doc: DocId, chunks: seq<Parsed>, n: nat, mark: string -> Markers) {
    && n <= |chunks|
    && (forall i | 0 <= i < n :: RowSynced(before, now, doc, chunks[i], mark))
    && (forall k: Key | k.doc != doc || k.index >= n :: SameAt(before, now, k))
  }

  lemma {:induction false} NoneYet(before: Rows, doc: DocId, chunks: seq<Parsed>, mark: string -> Markers)
    ensures Partway(before, before, doc, chunks, 0, mark)
  {
  }

  lemma {:induction false} KeepStep(before: Rows, now: Rows, doc: DocId, chunks: seq<Parsed>, n: nat,
                                    mark: string -> Markers)
    requires Numbered(chunks) && n < |chunks| && Partway(before, now, doc, chunks, n, mark)
    requires Unchanged(before, doc, chunks[n])
    ensures Partway(before, now, doc, chunks, n + 1, mark)
  {
    assert SameAt(before, now, Key(doc, n));
  }

  lemma {:induction false} WriteStep(before: Rows, now: Rows, doc: DocId, chunks: seq<Parsed>, n: nat,
                                     mark: string -> Markers, id: RowId)
    requires Numbered(chunks) && n < |chunks| && Partway(before, now, doc, chunks, n, mark)
    requires !Unchanged(before, doc, chunks[n])
    requires Key(doc, n) in now ==> id == now[Key(doc, n)].id
    ensures Partway(before, now[Key(doc, n) := Rewritten(chunks[n], id, mark)], doc, chunks, n + 1, mark)
  {
    var next := now[Key(doc, n) := Rewritten(chunks[n], id, mark)];
    assert SameAt(before, now, Key(doc, n));
    forall i | 0 <= i <= n
      ensures RowSynced(before, next, doc, chunks[i], mark)
    {
      assert i < n ==> RowSynced(before, now, doc, chunks[i], mark);
    }
    forall k: Key | k.doc != doc || k.index >= n + 1
      ensures SameAt(before, next, k)
    {
      assert SameAt(before, now, k);
    }
  }

  /** A row that was there still is, under the same id. */
  lemma {:induction false} IdSurvives(before: Rows, now: Rows, doc: DocId, chunks: seq<Parsed>,
                                      mark: string -> Markers, k: Key)
    requires Numbered(chunks) && Partway(before, now, doc, chunks, |chunks|, mark) && k in before
    ensures k in now && now[k].id == before[k].id
  {
    if k.doc == doc && k.index < |chunks| {
      assert RowSynced(before, now, doc, chunks[k.index], mark);
    } else {
      assert SameAt(before, now, k);
    }
  }

  /** Deleting by the ids of the surplus rows deletes exactly the rows past the end of the document. */
  lemma {:induction false} OrphansGo(before: Rows, now: Rows, after: Rows, doc: DocId, chunks: seq<Parsed>,
                                     mark: string -> Markers, orphans: set<RowId>)
    requires Numbered(chunks) && Partway(before, now, doc, chunks, |chunks|, mark) && UniqueIds(now)
    requires orphans == set k | k in before && k.doc == doc && k.index >= |chunks| :: before[k].id
    requires after == map k | k in now && now[k].id !in orphans :: now[k]
    ensures SyncedTo(before, after, doc, chunks, mark)
  {
    forall k | k in now
      ensures k in after <==> !(k.doc == doc && k.index >= |chunks|)
      ensures k in after ==> after[k] == now[k]
    {
      assert k.doc != doc || k.index >= |chunks| ==> SameAt(before, now, k);
      if now[k].id in orphans {
        var l :| l in before && l.doc == doc && l.index >= |chunks| && before[l].id == now[k].id;
        IdSurvives(before, now, doc, chunks, mark, l);
      }
    }
    forall k: Key | k.doc != doc
      ensures SameAt(before, after, k)
    {
      assert SameAt(before, now, k);
    }
    forall i | 0 <= i < |chunks|
      ensures RowSynced(before, after, doc, chunks[i], mark)
    {
      assert RowSynced(before, now, doc, chunks[i], mark);
    }
  }

  /** What reading a file comes to. */
  datatype File = NotUtf8 | FrontmatterTooLarge | Readable(chunks: seq<Parsed>)

  datatype Outcome = Skipped | Indexed(created: nat, kept: nat)

  function UpTo(n: nat): set<nat> {
    if n == 0 then {} else UpTo(n - 1) + {n - 1}
  }

  lemma {:induction false} UpToHas(n: nat, j: nat)
    ensures j in UpTo(n) <==> j < n
  {
    if n > 0 {
      UpToHas(n - 1, j);
    }
  }

  lemma {:induction false} OrphanIds(before: Rows, existing: map<nat, (RowId, Hash)>, seen: set<nat>, doc: DocId,
                                     n: nat, orphans: set<RowId>)
    requires Lists(existing, before, doc)
    requires seen == UpTo(n)
    requires orphans == set j | j in existing && j !in seen :: existing[j].0
    ensures orphans == set k | k in before && k.doc == doc && k.index >= n :: before[k].id
  {
    forall j: nat ensures j in seen <==> j < n {
      UpToHas(n, j);
    }
    forall k | k in before && k.doc == doc && k.index >= n
      ensures before[k].id in orphans
    {
      assert k == Key(doc, k.index) && k.index in existing;
    }
  }

  class Store {
    var rows: Rows
    var nextId: RowId

    ghost predicate Valid()
      reads this
    {
      UniqueIds(rows) && forall k | k in rows :: rows[k].id < nextId
    }

    constructor ()
      ensures Valid() && rows == map[]
    {
      rows, nextId := map[], 0;
    }

    method ExistingByIndex(doc: DocId) returns (existing: map<nat, (RowId, Hash)>)
      ensures Lists(existing, rows, doc)
    {
      var indices := set k | k in rows && k.doc == doc :: k.index;
      existing := map i | i in indices :: (rows[Key(doc, i)].id, rows[Key(doc, i)].hash);
    }

    /** Inserts the chunk's row, or overwrites everything but the id of the one that is there. */
    method Upsert(doc: DocId, chunk: Parsed, mark: string -> Markers)
      requires Valid()
      modifies this
      ensures Valid()
      ensures var k := Key(doc, chunk.index);
              rows == old(rows)[k := Row(if k in old(rows) then old(rows)[k].id else old(nextId), chunk.content,
                                         chunk.tokens, chunk.hash, chunk.headingPath, mark(chunk.content))]
    {
      var k := Key(doc, chunk.index);
      if k in rows {
        rows := rows[k := Rewritten(chunk, rows[k].id, mark)];
      } else {
        rows := rows[k := Rewritten(chunk, nextId, mark)];
        nextId := nextId + 1;
      }
    }

    method DeleteByIds(ids: set<RowId>)
      requires Valid()
      modifies this`rows
      ensures Valid()
      ensures rows == map k | k in old(rows) && old(rows)[k].id !in ids :: old(rows)[k]
    {
      rows := map k | k in rows && rows[k].id !in ids :: rows[k];
    }

    /** The counts after `n` chunks. */
    ghost predicate Counted(before: Rows, doc: DocId, chunks: seq<Parsed>, n: nat, created: nat, kept: nat)
      requires n <= |chunks|
    {
      created == ChangedUpTo(before, doc, chunks, n) && created + kept == n
    }

    /** Writes a chunk, unless its hash is the stored one, and counts it. */
    method SyncOne(doc: DocId, chunks: seq<Parsed>, i: nat, mark: string -> Markers, existing: map<nat, (RowId, Hash)>,
                   created: nat, kept: nat, ghost before: Rows)
      returns (created': nat, kept': nat)
      requires Valid() && Numbered(chunks) && i < |chunks|
      requires Lists(existing, before, doc) && Partway(before, rows, doc, chunks, i, mark)
      requires Counted(before, doc, chunks, i, created, kept)
      modifies this
      ensures Valid() && Partway(before, rows, doc, chunks, i + 1, mark)
      ensures Counted(before, doc, chunks, i + 1, created', kept')
    {
      var chunk := chunks[i];
      created', kept' := created, kept;
      ChangedStep(before, existing, doc, chunks, i);
      if chunk.index in existing && existing[chunk.index].1 == chunk.hash {
        KeepStep(before, rows, doc, chunks, i, mark);
        kept' := kept + 1;
      } else {
        WriteStep(before, rows, doc, chunks, i, mark, if Key(doc, i) in rows then rows[Key(doc, i)].id else nextId);
        Upsert(doc, chunk, mark);
        created' := created + 1;
      }
    }

    /** Writes the chunks whose hash is not the stored one. */
    method WriteChanged(doc: DocId, chunks: seq<Parsed>, mark: string -> Markers, existing: map<nat, (RowId, Hash)>)
      returns (created: nat, kept: nat, seen: set<nat>)
      requires Valid() && Numbered(chunks) && Lists(existing, rows, doc)
      modifies this
      ensures Valid() && Partway(old(rows), rows, doc, chunks, |chunks|, mark)
      ensures created == ChangedCount(old(rows), doc, chunks) && created + kept == |chunks|
      ensures seen == UpTo(|chunks|)
    {
      ghost var before := rows;
      seen := {};
      created, kept := 0, 0;
      NoneYet(before, doc, chunks, mark);
      var i := 0;
      while i < |chunks|
        invariant i <= |chunks| && Valid() && seen == UpTo(i)
        invariant Counted(before, doc, chunks, i, created, kept)
        invariant Partway(before, rows, doc, chunks, i, mark)
      {
        seen := seen + {chunks[i].index};
        created, kept := SyncOne(doc, chunks, i, mark, existing, created, kept, before);
        i := i + 1;
      }
    }

    /** Brings the document's rows to its chunks: writes the changed ones, deletes the surplus. */
    method Sync(doc: DocId, chunks: seq<Parsed>, mark: string -> Markers) returns (created: nat, kept: nat)
      requires Valid() && Numbered(chunks)
      modifies this
      ensures Valid() && SyncedTo(old(rows), rows, doc, chunks, mark)
      ensures created == ChangedCount(old(rows), doc, chunks) && created + kept == |chunks|
    {
      var existing := ExistingByIndex(doc);
      var seen;
      created, kept, seen := WriteChanged(doc, chunks, mark, existing);
      var orphans := set j | j in existing && j !in seen :: existing[j].0;
      ghost var now := rows;
      OrphanIds(old(rows), existing, seen, doc, |chunks|, orphans);
      DeleteByIds(orphans);
      OrphansGo(old(rows), now, rows, doc, chunks, mark, orphans);
    }

    /** One fetched file: a file that cannot be read, or has no chunks, is skipped before any row is
        looked at. */
    method ProcessFile(doc: DocId, file: File, mark: string -> Markers) returns (outcome: Outcome)
      requires Valid() && (file.Readable? ==> Numbered(file.chunks))
      modifies this
      ensures Valid()
      ensures outcome.Skipped? <==> file.NotUtf8? || file.FrontmatterTooLarge? || file.chunks == []
      ensures outcome.Skipped? ==> rows == old(rows)
      ensures outcome.Indexed? ==>
                && SyncedTo(old(rows), rows, doc, file.chunks, mark)
                && outcome.created == ChangedCount(old(rows), doc, file.chunks)
                && outcome.created + outcome.kept == |file.chunks|
    {
      if file.NotUtf8? || file.FrontmatterTooLarge? || file.chunks == [] {
        return Skipped;
      }
      var created, kept := Sync(doc, file.chunks, mark);
      outcome := Indexed(created, kept);
    }
  }

  // ---- What a sync achieves ----------------------------------------------

  ghost predicate Injective(hash: string -> Hash) {
    forall a, b | hash(a) == hash(b) :: a == b
  }

  /** Every stored hash is the hash of its row's content. */
  ghost predicate Consistent(rows: Rows, hash: string -> Hash) {
    forall k | k in rows :: rows[k].hash == hash(rows[k].content)
  }

  predicate HashedBy(chunks: seq<Parsed>, hash: string -> Hash) {
    forall i | 0 <= i < |chunks| :: chunks[i].hash == hash(chunks[i].content)
  }

  /** The sync agrees with deleting everything and writing all chunks anew in which rows there are and in
      their contents and hashes; it keeps the ids; a row whose hash it had stored stays as it is, and any
      other takes the chunk's token count and path and its content's markers. */
  lemma {:induction false} SyncStoresTheDocument(before: Rows, after: Rows, doc: DocId, chunks: seq<Parsed>,
                                                 mark: string -> Markers, hash: string -> Hash)
    requires Numbered(chunks) && SyncedTo(before, after, doc, chunks, mark)
    requires Injective(hash) && Consistent(before, hash) && HashedBy(chunks, hash)
    ensures Consistent(after, hash)
    ensures forall i: nat :: Key(doc, i) in after <==> i < |chunks|
    ensures forall i | 0 <= i < |chunks| ::
              var row := after[Key(doc, i)];
              row.content == chunks[i].content && row.hash == chunks[i].hash
    ensures forall i: nat | i < |chunks| && Key(doc, i) in before :: after[Key(doc, i)].id == before[Key(doc, i)].id
    ensures forall i: nat | i < |chunks| && Key(doc, i) in before && before[Key(doc, i)].hash == chunks[i].hash ::
              after[Key(doc, i)] == before[Key(doc, i)]
    ensures forall i | 0 <= i < |chunks| && !(Key(doc, i) in before && before[Key(doc, i)].hash == chunks[i].hash) ::
              var row := after[Key(doc, i)];
              row.tokens == chunks[i].tokens && row.headingPath == chunks[i].headingPath &&
              row.markers == mark(chunks[i].content)
    ensures forall k: Key | k.doc != doc :: (k in after <==> k in before) && (k in before ==> after[k] == before[k])
  {
    forall k: Key | k.doc != doc
      ensures (k in after <==> k in before) && (k in before ==> after[k] == before[k])
    {
      assert SameAt(before, after, k);
    }
    forall i | 0 <= i < |chunks|
      ensures RowSynced(before, after, doc, chunks[i], mark) && chunks[i].index == i
    {
    }
    forall i | 0 <= i < |chunks|
      ensures Key(doc, i) in after
      ensures after[Key(doc, i)].content == chunks[i].content && after[Key(doc, i)].hash == chunks[i].hash
      ensures Key(doc, i) in before ==> after[Key(doc, i)].id == before[Key(doc, i)].id
    {
      assert RowSynced(before, after, doc, chunks[i], mark);
    }
    forall k | k in after
      ensures after[k].hash == hash(after[k].content)
    {
      if k.doc == doc {
        assert after[Key(doc, k.index)].hash == chunks[k.index].hash;
      } else {
        assert SameAt(before, after, k);
      }
    }
  }

  /** The row holds the chunk, its path, token count and markers included. */
  predicate UpToDate(rows: Rows, doc: DocId, chunk: Parsed, mark: string -> Markers) {
    var k := Key(doc, chunk.index);
    && k in rows && rows[k].content == chunk.content && rows[k].tokens == chunk.tokens
    && rows[k].hash == chunk.hash && rows[k].headingPath == chunk.headingPath
    && rows[k].markers == mark(chunk.content)
  }

  /** A row ends up to date if and only if its hash had changed, or it was up to date already: paths and
      markers are not refreshed on a row that is left alone. */
  lemma {:induction false} UpToDateIffChangedOrBefore(before: Rows, after: Rows, doc: DocId, chunks: seq<Parsed>,
                                                      mark: string -> Markers, i: nat)
    requires SyncedTo(before, after, doc, chunks, mark) && i < |chunks|
    ensures UpToDate(after, doc, chunks[i], mark) <==>
            !Unchanged(before, doc, chunks[i]) || UpToDate(before, doc, chunks[i], mark)
  {
    assert RowSynced(before, after, doc, chunks[i], mark);
  }

  /** Renaming a parent heading leaves the old path on a row below it: the row's own text has not changed. */
  lemma {:induction false} RenamedParentLeavesOldPath(mark: string -> Markers) returns (before: Rows, chunk: Parsed)
    ensures forall after: Rows | SyncedTo(before, after, 0, [chunk], mark) ::
              Key(0, 0) in after && after[Key(0, 0)].headingPath != chunk.headingPath
  {
    chunk := Parsed(0, "## Setup", 2, "h", ["New name", "Setup"]);
    before := map[Key(0, 0) := Rewritten(chunk.(headingPath := ["Old name", "Setup"]), 7, mark)];
    forall after: Rows | SyncedTo(before, after, 0, [chunk], mark)
      ensures Key(0, 0) in after && after[Key(0, 0)].headingPath != chunk.headingPath
    {
      assert RowSynced(before, after, 0, [chunk][0], mark);
      assert chunk.headingPath[0] != ["Old name", "Setup"][0];
    }
  }

  /** The first `n` chunks without a stored row of their hash. */
  function ChangedIn(rows: Rows, doc: DocId, chunks: seq<Parsed>, n: nat): set<nat>
    requires n <= |chunks|
  {
    set i: nat | i < n && !(Key(doc, chunks[i].index) in rows &&
                            rows[Key(doc, chunks[i].index)].hash == chunks[i].hash)
  }

  /** The count of written chunks is the number of chunks without a stored row of their hash. */
  lemma {:induction false} ChangedCountIsExact(rows: Rows, doc: DocId, chunks: seq<Parsed>, n: nat)
    requires n <= |chunks|
    ensures ChangedUpTo(rows, doc, chunks, n) == |ChangedIn(rows, doc, chunks, n)|
  {
    if n > 0 {
      ChangedCountIsExact(rows, doc, chunks, n - 1);
      assert ChangedIn(rows, doc, chunks, n) ==
             ChangedIn(rows, doc, chunks, n - 1) + if Unchanged(rows, doc, chunks[n - 1]) then {} else {n - 1};
    }
  }

  lemma {:induction false} NothingChanged(rows: Rows, doc: DocId, chunks: seq<Parsed>, n: nat)
    requires n <= |chunks| && forall i | 0 <= i < |chunks| :: Unchanged(rows, doc, chunks[i])
    ensures ChangedUpTo(rows, doc, chunks, n) == 0
  {
    if n > 0 {
      NothingChanged(rows, doc, chunks, n - 1);
    }
  }

  /** A second sync right after the first finds nothing to write and changes nothing. */
  lemma {:induction false} SecondSyncWritesNothing(before: Rows, after: Rows, again: Rows, doc: DocId,
                                                   chunks: seq<Parsed>, mark: string -> Markers)
    requires Numbered(chunks)
    requires SyncedTo(before, after, doc, chunks, mark) && SyncedTo(after, again, doc, chunks, mark)
    ensures ChangedCount(after, doc, chunks) == 0
    ensures again == after
  {
    forall i | 0 <= i < |chunks|
      ensures Unchanged(after, doc, chunks[i]) && Key(doc, i) in again && again[Key(doc, i)] == after[Key(doc, i)]
    {
      assert RowSynced(before, after, doc, chunks[i], mark);
      assert RowSynced(after, again, doc, chunks[i], mark);
    }
    NothingChanged(after, doc, chunks, |chunks|);
    forall k: Key
      ensures SameAt(after, again, k)
    {
      if k.doc == doc && k.index < |chunks| {
        assert k == Key(doc, k.index);
      }
    }
    assert forall k: Key :: k in again <==> k in after by {
      forall k: Key
        ensures k in again <==> k in after
      {
        assert SameAt(after, again, k);
      }
    }
    forall k | k in after
      ensures again[k] == after[k]
    {
      assert SameAt(after, again, k);
    }
  }
}
