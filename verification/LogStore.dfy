/** Writing log rows: chunks found or stored, records listing them, all in one transaction. */
module LogStore {
  import opened Words
  import opened Chunking
  import opened LogRecord
  import opened Prepare
  import opened LogTables

  /** How many hashes one IN list carries. */
  const LOOKUP_BATCH_SIZE := 500

  /** Captured bytes are held in memory, so there are fewer than the address space has. */
  const MAX_CAPTURED := 0x8000_0000_0000

  /** A body as capturing makes it: some prefix of its length, or nothing when it is omitted. */
  predicate Capturable(body: Body) {
    && |body.data| <= body.length <= MAX_LENGTH
    && |body.data| < MAX_CAPTURED
    && (HasChunks(body.kind) || body == Body(KIND_OMITTED, [], body.length, false))
  }

  predicate RowCapturable(row: Snapshots) {
    forall i :: 0 <= i < SLOT_COUNT && row[i].Some? && row[i].value.body.Some? ==> Capturable(row[i].value.body.value)
  }

  /** Rows were only added to log_chunks, under ids above every one handed out before. */
  ghost predicate ChunksGrew(t: Tables, t': Tables) {
    && t.lastChunk <= t'.lastChunk
    && (forall id :: id in t.chunks ==> id in t'.chunks && t'.chunks[id] == t.chunks[id])
    && (forall id :: id in t'.chunks ==> id in t.chunks || id > t.lastChunk)
  }

  lemma ChunksGrewTwice(t: Tables, mid: Tables, t': Tables)
    requires ChunksGrew(t, mid) && ChunksGrew(mid, t')
    ensures ChunksGrew(t, t')
  {
  }

  lemma StartsUnchanged(t: Tables)
    ensures ChunksGrew(t, t)
  {
  }

  ghost predicate HasSnapshot(row: Snapshots) {
    exists slot :: 0 <= slot < SLOT_COUNT && row[slot].Some?
  }

  /** The log's rows are those of one whose bodies are kept: they read back as captured, and
      everything they list is stored. */
  ghost predicate RowStored(t: Tables, logID: int, row: Snapshots) {
    && ReadsBack(t, logID, row)
    && (logID in t.snapshots ==> !t.snapshots[logID].cleared && HasSnapshot(row))
    && (logID in t.bodies ==>
          && logID in t.snapshots
          && Parse(t.bodies[logID]).Some?
          && forall id :: BodyLists(t.bodies[logID], id) ==> id in t.chunks)
  }

  /** The chunks of a row's first slots, the most ids that can go to them. */
  ghost function ChunksBefore(p: Prepared, slot: nat): nat
    requires slot <= SLOT_COUNT
  {
    if slot == 0 then 0 else ChunksBefore(p, slot - 1) + |p[slot - 1].chunks|
  }

  ghost function ChunkCount(p: Prepared): nat {
    ChunksBefore(p, SLOT_COUNT)
  }

  predicate DistinctHashes(chunks: seq<Chunk>) {
    forall i, j :: 0 <= i < j < |chunks| ==> chunks[i].hash != chunks[j].hash
  }

  predicate ChunkFits(c: Chunk) {
    IsNamed(c) && 1 <= |c.data| <= MAX_CHUNK
  }

  predicate NamesOne(chunks: seq<Chunk>, h: Digest) {
    exists k :: 0 <= k < |chunks| && chunks[k].hash == h
  }

  /** The tables, as a transaction sees and changes them. */
  class LogStore {
    var chunks: map<int, ChunkRow>
    var lastChunk: int
    var logs: set<int>
    var lastLog: int
    var snapshots: map<int, SnapshotRow>
    var bodies: map<int, Bytes>

    ghost function Contents(): Tables
      reads this
    {
      Tables(chunks, lastChunk, logs, lastLog, snapshots, bodies)
    }

    constructor ()
      ensures Contents() == NO_TABLES
    {
      chunks, lastChunk, logs, lastLog, snapshots, bodies := map[], 0, {}, 0, map[], map[];
    }

    /** SELECT id, hash FROM log_chunks WHERE hash IN (group). */
    method SelectByHash(group: set<Digest>) returns (found: map<Digest, int>)
      requires ChunksSound(Contents())
      ensures forall h :: h in found ==> h in group && found[h] in chunks && chunks[found[h]].hash == h
      ensures forall id :: id in chunks && chunks[id].hash in group ==> chunks[id].hash in found
    {
      found := map id | id in chunks && chunks[id].hash in group :: chunks[id].hash := id;
    }

    /** INSERT INTO log_chunks ... RETURNING id; it fails once the ids are used up. */
    method InsertChunk(c: Chunk) returns (ok: bool, id: int)
      requires ChunksSound(Contents())
      requires IsNamed(c) && 1 <= |c.data| <= MAX_CHUNK
      requires forall k :: k in chunks ==> chunks[k].hash != c.hash
      modifies `chunks, `lastChunk
      ensures ChunksSound(Contents()) && ChunksGrew(old(Contents()), Contents())
      ensures ok <==> old(lastChunk) < TWO_63 - 1
      ensures ok ==> id == lastChunk == old(lastChunk) + 1
      ensures ok ==> chunks == old(chunks)[id := ChunkRow(c.hash, |c.data|, c.data)]
      ensures !ok ==> Contents() == old(Contents())
    {
      if lastChunk == TWO_63 - 1 {
        return false, 0;
      }
      lastChunk := lastChunk + 1;
      id := lastChunk;
      chunks := chunks[id := ChunkRow(c.hash, |c.data|, c.data)];
      ok := true;
    }
  }

  /** Writes log snapshots inside one transaction, remembering the chunk ids it resolved. */
  class PayloadStore {
    const db: LogStore
    var chunks: map<Digest, Int64>

    constructor (db: LogStore)
      ensures this.db == db && chunks == map[]
    {
      this.db, chunks := db, map[];
    }

    /** What is remembered still holds: within a transaction nothing else changes the chunks. */
    ghost predicate Valid()
      reads this, db
    {
      && ChunksSound(db.Contents())
      && forall h :: h in chunks ==> chunks[h] in db.chunks && db.chunks[chunks[h]].hash == h
    }

    /** The chunks queued to be resolved: one for each hash, none resolved already. */
    ghost predicate Queued(missing: seq<Chunk>, queued: set<Digest>)
      reads this
    {
      && (forall m :: m in missing ==> m.hash in queued)
      && (forall h :: h in queued ==> h !in chunks && NamesOne(missing, h))
      && (forall a, b :: 0 <= a < b < |missing| ==> missing[a].hash != missing[b].hash)
    }

    method QueueSlot(slot: seq<Chunk>, missing0: seq<Chunk>, queued0: set<Digest>)
      returns (missing: seq<Chunk>, queued: set<Digest>)
      requires Queued(missing0, queued0)
      ensures Queued(missing, queued) && queued0 <= queued && |missing| <= |missing0| + |slot|
      ensures forall m :: m in missing ==> m in missing0 || m in slot
      ensures forall c :: c in slot ==> c.hash in chunks || c.hash in queued
    {
      missing, queued := missing0, queued0;
      for j := 0 to |slot|
        invariant Queued(missing, queued) && queued0 <= queued && |missing| <= |missing0| + j
        invariant forall m :: m in missing ==> m in missing0 || m in slot
        invariant forall k :: 0 <= k < j ==> slot[k].hash in chunks || slot[k].hash in queued
      {
        var c := slot[j];
        if c.hash in chunks || c.hash in queued {
          continue;
        }
        QueueGrows(missing, queued, c);
        queued := queued + {c.hash};
        missing := missing + [c];
      }
    }

    lemma QueueGrows(missing: seq<Chunk>, queued: set<Digest>, c: Chunk)
      requires Queued(missing, queued) && c.hash !in queued && c.hash !in chunks
      ensures Queued(missing + [c], queued + {c.hash})
    {
      var more := missing + [c];
      forall h | h in queued + {c.hash}
        ensures NamesOne(more, h)
      {
        if h == c.hash {
          assert more[|missing|].hash == h;
        } else {
          var k :| 0 <= k < |missing| && missing[k].hash == h;
          assert more[k].hash == h;
        }
      }
    }

    /** The row's chunks not resolved yet, each hash once. */
    method Missing(p: Prepared) returns (missing: seq<Chunk>)
      ensures forall c :: c in missing ==> InSlots(p, c)
      ensures forall c :: InSlots(p, c) ==> c.hash in chunks || NamesOne(missing, c.hash)
      ensures DistinctHashes(missing)
      ensures |missing| <= ChunkCount(p)
    {
      missing := [];
      var queued: set<Digest> := {};
      for i := 0 to SLOT_COUNT
        invariant Queued(missing, queued)
        invariant |missing| <= ChunksBefore(p, i)
        invariant forall m :: m in missing ==> InSlots(p, m)
        invariant forall k, c :: 0 <= k < i && c in p[k].chunks ==> c.hash in chunks || c.hash in queued
      {
        missing, queued := QueueSlot(p[i].chunks, missing, queued);
      }
    }

    method LookUpGroup(group: seq<Chunk>)
      requires Valid()
      modifies this
      ensures Valid() && forall h :: h in old(chunks) ==> h in chunks
      ensures forall c, id :: c in group && id in db.chunks && db.chunks[id].hash == c.hash ==> c.hash in chunks
    {
      var hashes := set c | c in group :: c.hash;
      var found := db.SelectByHash(hashes);
      chunks := chunks + map h | h in found :: found[h];
    }

    /** Looks the missing chunks up, a batch of hashes at a time. */
    method LookUp(missing: seq<Chunk>)
      requires Valid()
      modifies this
      ensures Valid() && forall h :: h in old(chunks) ==> h in chunks
      ensures forall k, id :: 0 <= k < |missing| && id in db.chunks && db.chunks[id].hash == missing[k].hash ==>
                missing[k].hash in chunks
    {
      hide Valid();
      var start := 0;
      while start < |missing|
        invariant 0 <= start
        invariant Valid() && forall h :: h in old(chunks) ==> h in chunks
        invariant forall k, id ::
                    0 <= k < start && k < |missing| && id in db.chunks && db.chunks[id].hash == missing[k].hash ==>
                      missing[k].hash in chunks
        decreases |missing| - start
      {
        var group := missing[start..Min(start + LOOKUP_BATCH_SIZE, |missing|)];
        LookUpGroup(group);
        assert forall k :: start <= k < start + |group| ==> missing[k] == group[k - start];
        start := start + LOOKUP_BATCH_SIZE;
      }
    }

    /** The chunks from the i-th on that the table holds are the ones resolved already. */
    ghost predicate LookedUp(missing: seq<Chunk>, i: nat)
      reads this, db
    {
      forall k, id :: i <= k < |missing| && id in db.chunks && db.chunks[id].hash == missing[k].hash ==>
        missing[k].hash in chunks
    }

    /** Every hash resolved before still is. */
    static predicate StillResolved(before: map<Digest, Int64>, after: map<Digest, Int64>) {
      forall h :: h in before ==> h in after
    }

    static predicate ResolvedTo(chunks: map<Digest, Int64>, missing: seq<Chunk>, i: nat) {
      forall k :: 0 <= k < i && k < |missing| ==> missing[k].hash in chunks
    }

    static lemma ResolvedTwice(before: map<Digest, Int64>, mid: map<Digest, Int64>, after: map<Digest, Int64>)
      requires StillResolved(before, mid) && StillResolved(mid, after)
      ensures StillResolved(before, after)
    {
    }

    static lemma OneMoreResolved(before: map<Digest, Int64>, after: map<Digest, Int64>, missing: seq<Chunk>, i: nat)
      requires ResolvedTo(before, missing, i) && StillResolved(before, after) && i < |missing|
      requires missing[i].hash in after
      ensures ResolvedTo(after, missing, i + 1)
    {
    }

    /** Resolves one looked-up chunk, storing it if nothing was found. */
    method StoreOne(ghost missing: seq<Chunk>, ghost i: nat, c: Chunk) returns (ok: bool)
      requires Valid() && i < |missing| && missing[i] == c && LookedUp(missing, i)
      requires DistinctHashes(missing) && ChunkFits(c)
      modifies this, db`chunks, db`lastChunk
      ensures Valid() && ChunksGrew(old(db.Contents()), db.Contents())
      ensures StillResolved(old(chunks), chunks)
      ensures ok ==> c.hash in chunks && LookedUp(missing, i + 1)
      ensures db.lastChunk <= old(db.lastChunk) + 1
      ensures !ok ==> old(db.lastChunk) == TWO_63 - 1
    {
      if c.hash in chunks {
        return true;
      }
      var inserted, id := db.InsertChunk(c);
      if !inserted {
        return false;
      }
      chunks := chunks[c.hash := id];
      return true;
    }

    /** Stores the looked-up chunks the table does not hold. */
    method StoreMissing(missing: seq<Chunk>) returns (ok: bool)
      requires Valid() && LookedUp(missing, 0)
      requires DistinctHashes(missing)
      requires forall k :: 0 <= k < |missing| ==> ChunkFits(missing[k])
      modifies this, db`chunks, db`lastChunk
      ensures Valid() && ChunksGrew(old(db.Contents()), db.Contents())
      ensures StillResolved(old(chunks), chunks)
      ensures ok ==> ResolvedTo(chunks, missing, |missing|)
      ensures db.lastChunk <= old(db.lastChunk) + |missing|
      ensures !ok ==> old(db.lastChunk) + |missing| >= TWO_63
    {
      StartsUnchanged(db.Contents());
      assert ResolvedTo(chunks, missing, 0) && StillResolved(chunks, chunks);
      hide Valid(), LookedUp(), ChunksGrew(), DistinctHashes, ChunkFits, StillResolved, ResolvedTo;
      for i := 0 to |missing|
        invariant Valid() && ChunksGrew(old(db.Contents()), db.Contents())
        invariant StillResolved(old(chunks), chunks) && ResolvedTo(chunks, missing, i)
        invariant LookedUp(missing, i)
        invariant db.lastChunk <= old(db.lastChunk) + i
      {
        ghost var before, resolved := db.Contents(), chunks;
        ok := StoreOne(missing, i, missing[i]);
        ChunksGrewTwice(old(db.Contents()), before, db.Contents());
        ResolvedTwice(old(chunks), resolved, chunks);
        if !ok {
          return;
        }
        OneMoreResolved(resolved, chunks, missing, i);
      }
      return true;
    }

    /** Finds or stores every chunk of a row. */
    method ResolveChunks(p: Prepared) returns (ok: bool)
      requires Valid()
      requires forall c :: InSlots(p, c) ==> IsNamed(c) && 1 <= |c.data| <= MAX_CHUNK
      modifies this, db`chunks, db`lastChunk
      ensures Valid() && ChunksGrew(old(db.Contents()), db.Contents())
      ensures ok ==> forall c :: InSlots(p, c) ==> c.hash in chunks
      ensures db.lastChunk <= old(db.lastChunk) + ChunkCount(p)
      ensures !ok ==> old(db.lastChunk) + ChunkCount(p) >= TWO_63
    {
      hide Valid(), ChunksGrew(), InSlots, ChunkCount();
      var missing := Missing(p);
      LookUp(missing);
      assert LookedUp(missing, 0);
      forall k | 0 <= k < |missing|
        ensures ChunkFits(missing[k])
      {
        assert missing[k] in missing;
      }
      ok := StoreMissing(missing);
    }

    /** Stores a row's chunks and lists them. */
    method StoreBodies(logID: int, ghost row: Snapshots, p: Prepared, present: seq<bool>, ghost gear: Gear)
      returns (ok: bool)
      requires Valid() && RowCapturable(row) && IsPrepared(gear, row, p) && HasSnapshot(row)
      requires |present| == SLOT_COUNT && forall i :: 0 <= i < SLOT_COUNT ==> present[i] == row[i].Some?
      requires logID !in db.snapshots && logID !in db.bodies
      modifies this, db`chunks, db`lastChunk, db`snapshots, db`bodies
      ensures Valid() && ChunksGrew(old(db.Contents()), db.Contents())
      ensures ok ==> db.snapshots == old(db.snapshots)[logID := SnapshotRow(present, false)]
      ensures !ok ==> db.snapshots == old(db.snapshots)
      ensures db.bodies == old(db.bodies) ||
                (logID in db.bodies && db.bodies == old(db.bodies)[logID := db.bodies[logID]])
      ensures ok ==> RowStored(db.Contents(), logID, row)
      ensures db.lastChunk <= old(db.lastChunk) + ChunkCount(p)
      ensures !ok ==> old(db.lastChunk) + ChunkCount(p) >= TWO_63
    {
      hide IsPrepared(), Parse, Encoding, RecordOf, RowStored(), InSlots;
      PreparedSizes(gear, row, p);
      ok := ResolveChunks(p);
      if !ok {
        return;
      }
      var record := MakeRecord(p, chunks);
      if !IsEmpty(record) {
        var encoded := AppendRecord([], record);
        assert encoded == Encoding(record);
        db.bodies := db.bodies[logID := encoded];
      }
      db.snapshots := db.snapshots[logID := SnapshotRow(present, false)];
      RecordReadsBack(db.Contents(), logID, gear, row, p, chunks, present);
    }

    /** Writes one log row's snapshots; cleared keeps only which there are. */
    method Store(logID: int, ghost row: Snapshots, p: Prepared, cleared: bool, ghost gear: Gear) returns (ok: bool)
      requires Valid() && RowCapturable(row) && IsPrepared(gear, row, p)
      requires logID !in db.snapshots && logID !in db.bodies
      modifies this, db`chunks, db`lastChunk, db`snapshots, db`bodies
      ensures Valid() && ChunksGrew(old(db.Contents()), db.Contents())
      ensures forall k :: k != logID ==>
                (k in db.snapshots <==> k in old(db.snapshots)) && (k in db.bodies <==> k in old(db.bodies))
      ensures forall k :: k != logID && k in db.snapshots ==> db.snapshots[k] == old(db.snapshots)[k]
      ensures forall k :: k != logID && k in db.bodies ==> db.bodies[k] == old(db.bodies)[k]
      ensures ok && !cleared ==> RowStored(db.Contents(), logID, row)
      ensures ok && cleared ==> logID !in db.bodies && forall slot :: 0 <= slot < SLOT_COUNT ==>
                ShownSlot(db.Contents(), logID, slot) == if row[slot].Some? then Cleared else Absent
      ensures db.lastChunk <= old(db.lastChunk) + ChunkCount(p)
      ensures !ok ==> old(db.lastChunk) + ChunkCount(p) >= TWO_63
    {
      hide IsSplit(), Parse, Encoding, ChunkCount(), RowStored(), HasSnapshot(), RowCapturable, ShownSlot, IsPrepared();
      var present := [p[0].snapshot.Some?, p[1].snapshot.Some?, p[2].snapshot.Some?, p[3].snapshot.Some?];
      PresentIs(gear, row, p, present);
      if true !in present {
        NothingStored(db.Contents(), logID, row);
        return true;
      }
      if !cleared {
        ok := StoreBodies(logID, row, p, present, gear);
        return;
      }
      db.snapshots := db.snapshots[logID := SnapshotRow(present, true)];
      ShowsCleared(db.Contents(), logID, row, present);
      return true;
    }
  }

  lemma PresentIs(gear: Gear, row: Snapshots, p: Prepared, present: seq<bool>)
    requires IsPrepared(gear, row, p)
    requires present == [p[0].snapshot.Some?, p[1].snapshot.Some?, p[2].snapshot.Some?, p[3].snapshot.Some?]
    ensures forall i :: 0 <= i < SLOT_COUNT ==> present[i] == row[i].Some?
    ensures HasSnapshot(row) <==> true in present
  {
  }

  lemma NothingStored(t: Tables, logID: int, row: Snapshots)
    requires logID !in t.snapshots && logID !in t.bodies && !HasSnapshot(row)
    ensures RowStored(t, logID, row)
    ensures forall slot :: 0 <= slot < SLOT_COUNT ==> ShownSlot(t, logID, slot) == Absent && row[slot].None?
  {
  }

  lemma ShowsCleared(t: Tables, logID: int, row: Snapshots, present: seq<bool>)
    requires logID in t.snapshots && t.snapshots[logID] == SnapshotRow(present, true)
    requires |present| == SLOT_COUNT && forall i :: 0 <= i < SLOT_COUNT ==> present[i] == row[i].Some?
    ensures forall slot :: 0 <= slot < SLOT_COUNT ==>
              ShownSlot(t, logID, slot) == if row[slot].Some? then Cleared else Absent
  {
  }

  lemma PreparedSizes(gear: Gear, row: Snapshots, p: Prepared)
    requires IsPrepared(gear, row, p)
    ensures forall c :: InSlots(p, c) ==> IsNamed(c) && 1 <= |c.data| <= MAX_CHUNK
  {
    forall c | InSlots(p, c)
      ensures IsNamed(c) && 1 <= |c.data| <= MAX_CHUNK
    {
      var i :| 0 <= i < SLOT_COUNT && c in p[i].chunks;
      assert SlotPrepared(gear, row[i], p[i]);
      var j :| 0 <= j < |p[i].chunks| && p[i].chunks[j] == c;
      SplitSizes(gear, row[i].value.body.value.data, Pieces(p[i].chunks));
      assert Pieces(p[i].chunks)[j] == c.data;
    }
  }

  /** The ids name stored chunks with the hashes of these. */
  ghost predicate Resolved(table: map<int, ChunkRow>, ids: map<Digest, Int64>, chunks: seq<Chunk>) {
    forall c :: c in chunks ==>
      && IsNamed(c)
      && c.hash in ids && ids[c.hash] > 0
      && ids[c.hash] in table && ChunkSound(table[ids[c.hash]])
      && table[ids[c.hash]].hash == c.hash
  }

  lemma {:induction false} ResolvedAssembles(table: map<int, ChunkRow>, ids: map<Digest, Int64>, chunks: seq<Chunk>)
    requires Resolved(table, ids, chunks)
    ensures Assembled(IdsOf(chunks, ids), table) == Some(Join(Pieces(chunks)))
  {
    if chunks != [] {
      assert chunks[0] in chunks;
      assert IdsOf(chunks, ids)[1..] == IdsOf(chunks[1..], ids);
      assert Pieces(chunks)[1..] == Pieces(chunks[1..]);
      ResolvedAssembles(table, ids, chunks[1..]);
    }
  }

  lemma {:induction false} CountBounds(pieces: seq<Bytes>)
    requires forall i :: 0 <= i < |pieces| ==> 1 <= |pieces[i]| <= MAX_CHUNK
    ensures |pieces| <= |Join(pieces)| <= |pieces| * MAX_CHUNK
  {
    if pieces != [] {
      CountBounds(pieces[1..]);
    }
  }

  /** One slot of a resolved row: its record is storable, assembles to the captured body, and
      lists only stored chunks. */
  lemma SlotReadsBack(gear: Gear, snapshot: Option<Snapshot>, slot: PreparedSlot,
                      table: map<int, ChunkRow>, ids: map<Digest, Int64>, before: Option<SlotBody>)
    requires SlotPrepared(gear, snapshot, slot) && Resolved(table, ids, slot.chunks)
    requires snapshot.Some? && snapshot.value.body.Some? ==> Capturable(snapshot.value.body.value)
    ensures SlotStorable(before, SlotRecord(slot, ids))
    ensures snapshot.Some? ==> AssembledBody(SlotRecord(slot, ids), table) == Assembly(snapshot.value.body)
    ensures forall id :: id in SlotRecord(slot, ids).chunks ==> id in table
  {
    hide IsSplit();
    if snapshot.Some? && snapshot.value.body.Some? && HasChunks(snapshot.value.body.value.kind) {
      var body := snapshot.value.body.value;
      var pieces := Pieces(slot.chunks);
      if body.data != [] {
        SplitSizes(gear, body.data, pieces);
        SplitJoinsBack(gear, body.data, pieces);
      }
      assert Join(pieces) == body.data;
      CountBounds(pieces);
      ResolvedAssembles(table, ids, slot.chunks);
      assert forall c :: c in slot.chunks ==> ids[c.hash] > 0;
      forall id | id in SlotRecord(slot, ids).chunks
        ensures id in table
      {
        var j :| 0 <= j < |slot.chunks| && IdsOf(slot.chunks, ids)[j] == id;
        assert slot.chunks[j] in slot.chunks;
      }
    }
  }

  lemma RecordReadsBack(t: Tables, logID: int, gear: Gear, row: Snapshots, p: Prepared,
                        ids: map<Digest, Int64>, present: seq<bool>)
    requires ChunksSound(t) && RowCapturable(row) && IsPrepared(gear, row, p) && HasSnapshot(row)
    requires forall h :: h in ids ==> ids[h] in t.chunks && t.chunks[ids[h]].hash == h
    requires forall c :: InSlots(p, c) ==> c.hash in ids
    requires |present| == SLOT_COUNT && forall i :: 0 <= i < SLOT_COUNT ==> present[i] == row[i].Some?
    requires logID in t.snapshots && t.snapshots[logID] == SnapshotRow(present, false)
    requires logID in t.bodies <==> !IsEmpty(RecordOf(p, ids))
    requires logID in t.bodies ==> t.bodies[logID] == Encoding(RecordOf(p, ids))
    ensures RowStored(t, logID, row)
  {
    hide IsSplit(), Parse, Encoding, SlotRecord, SlotPrepared(), AssembledBody, SlotStorable;
    var r := RecordOf(p, ids);
    forall i | 0 <= i < SLOT_COUNT
      ensures SlotStorable(Before(r, i), r[i])
      ensures row[i].Some? ==> AssembledBody(r[i], t.chunks) == Assembly(row[i].value.body)
      ensures forall id :: id in r[i].chunks ==> id in t.chunks
    {
      assert SlotPrepared(gear, row[i], p[i]);
      SlotIsResolved(t, gear, row[i], p, i, ids);
      SlotReadsBack(gear, row[i], p[i], t.chunks, ids, Before(r, i));
      assert r[i] == SlotRecord(p[i], ids);
    }
    RoundTrip(r);
    if IsEmpty(r) {
      EmptyIsEmpty(r);
    }
    assert StoredRecord(t, logID) == Some(r);
  }

  lemma EmptyIsEmpty(r: Record)
    requires Storable(r) && IsEmpty(r)
    ensures r == EMPTY_RECORD
  {
  }

  lemma SlotIsResolved(t: Tables, gear: Gear, snapshot: Option<Snapshot>, p: Prepared, i: nat, ids: map<Digest, Int64>)
    requires ChunksSound(t) && i < SLOT_COUNT && SlotPrepared(gear, snapshot, p[i])
    requires forall h :: h in ids ==> ids[h] in t.chunks && t.chunks[ids[h]].hash == h
    requires forall c :: InSlots(p, c) ==> c.hash in ids
    ensures Resolved(t.chunks, ids, p[i].chunks)
  {
  }
}
