/** The tables log bodies live in, as values: what they hold, how one row reads back from them,
    and when a change leaves what a row reads unchanged. */
module LogTables {
  import opened Words
  import opened Chunking
  import opened LogRecord
  import opened Prepare

  /** A row of log_chunks: the content hash, the length and the stored bytes. */
  datatype ChunkRow = ChunkRow(hash: Digest, size: nat, data: Bytes)

  /** A row of request_log_snapshots: which snapshots the log has, and whether the keep-count
      policy dropped their bodies. */
  datatype SnapshotRow = SnapshotRow(present: seq<bool>, cleared: bool)

  /** lastChunk and lastLog are the highest ids handed out; AUTOINCREMENT never hands out one again. */
  datatype Tables = Tables(chunks: map<int, ChunkRow>, lastChunk: int,
                           logs: set<int>, lastLog: int,
                           snapshots: map<int, SnapshotRow>, bodies: map<int, Bytes>)

  const NO_TABLES := Tables(map[], 0, {}, 0, map[], map[])

  // Reading

  /** Reads a stored chunk and checks it is the one that was stored. */
  function ChunkBytes(row: ChunkRow): Option<Bytes> {
    if |row.data| == row.size && Sum(row.data) == row.hash then Some(row.data) else None
  }

  /** The bytes of the listed chunks, joined; a missing or damaged chunk loses them all. */
  function Assembled(ids: seq<Int64>, chunks: map<int, ChunkRow>): Option<Bytes> {
    if ids == [] then Some([])
    else if ids[0] !in chunks then None
    else
      match ChunkBytes(chunks[ids[0]])
      case None => None
      case Some(part) =>
        match Assembled(ids[1..], chunks)
        case None => None
        case Some(rest) => Some(part + rest)
  }

  datatype Assembly = Incomplete | Assembly(body: Option<Body>)

  function AssembledBody(slot: SlotBody, chunks: map<int, ChunkRow>): Assembly {
    if slot.kind == KIND_NONE then Assembly(None)
    else if slot.kind == KIND_OMITTED then Assembly(Some(Body(KIND_OMITTED, [], slot.length, false)))
    else
      match Assembled(slot.chunks, chunks)
      case None => Incomplete
      case Some(data) =>
        if |data| != slot.captured then Incomplete
        else Assembly(Some(Body(slot.kind, data, slot.length, slot.truncated)))
  }

  lemma {:induction false} AssembledAppend(front: seq<Int64>, id: Int64, chunks: map<int, ChunkRow>)
    ensures Assembled(front + [id], chunks) ==
            if Assembled(front, chunks).None? || id !in chunks || ChunkBytes(chunks[id]).None? then None
            else Some(Assembled(front, chunks).value + ChunkBytes(chunks[id]).value)
  {
    if front == [] {
      assert (front + [id])[1..] == [];
      if id in chunks && ChunkBytes(chunks[id]).Some? {
        assert ChunkBytes(chunks[id]).value + [] == [] + ChunkBytes(chunks[id]).value;
      }
    } else {
      assert (front + [id])[1..] == front[1..] + [id];
      AssembledAppend(front[1..], id, chunks);
      var whole := Assembled(front + [id], chunks);
      if whole.Some? {
        var part, rest, last := ChunkBytes(chunks[front[0]]).value, Assembled(front[1..], chunks).value,
          ChunkBytes(chunks[id]).value;
        assert part + (rest + last) == part + rest + last;
      }
    }
  }

  lemma {:induction false} AssembledMissing(ids: seq<Int64>, k: nat, chunks: map<int, ChunkRow>)
    requires k < |ids| && (ids[k] !in chunks || ChunkBytes(chunks[ids[k]]).None?)
    ensures Assembled(ids, chunks).None?
  {
    if k > 0 {
      AssembledMissing(ids[1..], k - 1, chunks);
    }
  }

  /** Rebuilds a slot's body from its chunks. */
  method AssembleBody(slot: SlotBody, chunks: map<int, ChunkRow>) returns (a: Assembly)
    ensures a == AssembledBody(slot, chunks)
  {
    if slot.kind == KIND_NONE {
      return Assembly(None);
    }
    if slot.kind == KIND_OMITTED {
      return Assembly(Some(Body(KIND_OMITTED, [], slot.length, false)));
    }
    var data: Bytes := [];
    for i := 0 to |slot.chunks|
      invariant Assembled(slot.chunks[..i], chunks) == Some(data)
    {
      var id := slot.chunks[i];
      AssembledAppend(slot.chunks[..i], id, chunks);
      assert slot.chunks[..i + 1] == slot.chunks[..i] + [id];
      if id !in chunks {
        AssembledMissing(slot.chunks, i, chunks);
        return Incomplete;
      }
      var part := ChunkBytes(chunks[id]);
      if part.None? {
        AssembledMissing(slot.chunks, i, chunks);
        return Incomplete;
      }
      data := data + part.value;
    }
    assert slot.chunks[..|slot.chunks|] == slot.chunks;
    if |data| != slot.captured {
      return Incomplete;
    }
    return Assembly(Some(Body(slot.kind, data, slot.length, slot.truncated)));
  }

  /** The chunk has the length and the content it was stored with. */
  predicate Undamaged(row: ChunkRow) {
    row.size == |row.data| && row.hash == Sum(row.data)
  }

  /** The stored bytes of the listed chunks, joined. */
  function Gathered(ids: seq<Int64>, chunks: map<int, ChunkRow>): Bytes
    requires forall id :: id in ids ==> id in chunks
  {
    if ids == [] then [] else chunks[ids[0]].data + Gathered(ids[1..], chunks)
  }

  lemma {:induction false} AssembledIff(ids: seq<Int64>, chunks: map<int, ChunkRow>)
    ensures Assembled(ids, chunks).Some? <==> forall id :: id in ids ==> id in chunks && Undamaged(chunks[id])
    ensures Assembled(ids, chunks).Some? ==> Assembled(ids, chunks).value == Gathered(ids, chunks)
  {
    if ids != [] {
      AssembledIff(ids[1..], chunks);
      assert forall id :: id in ids <==> id == ids[0] || id in ids[1..] by {
        assert ids == [ids[0]] + ids[1..];
      }
    }
  }

  /** A captured body is rebuilt exactly when every listed chunk is stored and undamaged and they come
      to the captured size; it is their bytes in the order listed. */
  lemma AssemblesIff(slot: SlotBody, chunks: map<int, ChunkRow>)
    requires HasChunks(slot.kind)
    ensures var a := AssembledBody(slot, chunks);
            if forall id :: id in slot.chunks ==> id in chunks && Undamaged(chunks[id]) then
              var data := Gathered(slot.chunks, chunks);
              if |data| == slot.captured
              then a == Assembly(Some(Body(slot.kind, data, slot.length, slot.truncated)))
              else a == Incomplete
            else a == Incomplete
  {
    AssembledIff(slot.chunks, chunks);
    hide Assembled, Gathered;
  }

  /** What the console shows of one snapshot: nothing, the snapshot without its body, or all of it. */
  datatype Shown = Absent | Cleared | Shown(body: Option<Body>)

  function ShownSlot(t: Tables, logID: int, slot: nat): Shown
    requires slot < SLOT_COUNT
  {
    if logID !in t.snapshots then Absent
    else
      var row := t.snapshots[logID];
      if slot >= |row.present| || !row.present[slot] then Absent
      else if row.cleared then Cleared
      else
        match StoredRecord(t, logID)
        case None => Cleared
        case Some(r) =>
          match AssembledBody(r[slot], t.chunks)
          case Incomplete => Cleared
          case Assembly(body) => Shown(body)
  }

  /** The record of a log whose bodies are not cleared; a log without one has no bodies. */
  function StoredRecord(t: Tables, logID: int): Option<Record> {
    if logID in t.bodies then Parse(t.bodies[logID]) else Some(EMPTY_RECORD)
  }

  /** What was captured, as it should show for as long as the bodies are kept. */
  function ExpectedSlot(snapshot: Option<Snapshot>): Shown {
    match snapshot
    case None => Absent
    case Some(s) => Shown(s.body)
  }

  ghost predicate ReadsBack(t: Tables, logID: int, snapshots: Snapshots) {
    forall slot :: 0 <= slot < SLOT_COUNT ==> ShownSlot(t, logID, slot) == ExpectedSlot(snapshots[slot])
  }

  // Which chunks a record lists

  ghost predicate RecordLists(r: Record, id: int) {
    exists slot :: 0 <= slot < SLOT_COUNT && id in r[slot].chunks
  }

  ghost predicate BodyLists(encoded: Bytes, id: int) {
    Parse(encoded).Some? && RecordLists(Parse(encoded).value, id)
  }

  /** Some stored record lists the chunk. */
  ghost predicate Listed(t: Tables, id: int) {
    exists logID :: logID in t.bodies && BodyLists(t.bodies[logID], id)
  }

  // What holds of the tables at all times

  predicate ChunkSound(row: ChunkRow) {
    && row.hash == Sum(row.data)
    && row.size == |row.data|
    && 1 <= row.size <= MAX_CHUNK
  }

  /** Sound rows under positive ids the counter has passed, each content stored once. */
  ghost predicate ChunksSound(t: Tables) {
    && 0 <= t.lastChunk < TWO_63
    && (forall id :: id in t.chunks ==> 1 <= id <= t.lastChunk && ChunkSound(t.chunks[id]))
    && (forall i, j :: i in t.chunks && j in t.chunks && t.chunks[i].hash == t.chunks[j].hash ==> i == j)
  }

  /** Bodies and snapshots belong to logs, and a cleared log has no bodies. */
  ghost predicate LogsSound(t: Tables) {
    && 0 <= t.lastLog
    && (forall logID :: logID in t.logs ==> 1 <= logID <= t.lastLog)
    && (forall logID :: logID in t.snapshots ==> logID in t.logs)
    && (forall logID :: logID in t.bodies ==> logID in t.snapshots && !t.snapshots[logID].cleared)
  }

  /** The collector's promise: every record decodes, and every chunk it lists is stored. */
  ghost predicate NothingMissing(t: Tables) {
    forall logID :: logID in t.bodies ==>
      && Parse(t.bodies[logID]).Some?
      && forall id :: BodyLists(t.bodies[logID], id) ==> id in t.chunks
  }

  ghost predicate TablesSound(t: Tables) {
    ChunksSound(t) && LogsSound(t) && NothingMissing(t)
  }

  // Stability of what is read

  lemma {:induction false} AssembledStable(ids: seq<Int64>, before: map<int, ChunkRow>, after: map<int, ChunkRow>)
    requires forall id :: id in ids ==> id in before && id in after && before[id] == after[id]
    ensures Assembled(ids, before) == Assembled(ids, after)
  {
    if ids != [] {
      AssembledStable(ids[1..], before, after);
    }
  }

  /** A log keeps reading back as long as its own rows and the chunks it lists are left alone. */
  lemma ReadStable(t: Tables, t': Tables, logID: int, slot: nat)
    requires slot < SLOT_COUNT
    requires logID in t.snapshots && logID in t'.snapshots && t.snapshots[logID] == t'.snapshots[logID]
    requires logID in t.bodies <==> logID in t'.bodies
    requires logID in t.bodies ==> t.bodies[logID] == t'.bodies[logID]
    requires logID in t.bodies ==>
               forall id :: BodyLists(t.bodies[logID], id) ==>
                 id in t.chunks && id in t'.chunks && t.chunks[id] == t'.chunks[id]
    ensures ShownSlot(t, logID, slot) == ShownSlot(t', logID, slot)
  {
    hide Parse;
    var r := StoredRecord(t, logID);
    if r.Some? {
      var ids := r.value[slot].chunks;
      forall id | id in ids
        ensures id in t.chunks && id in t'.chunks && t.chunks[id] == t'.chunks[id]
      {
        if logID in t.bodies {
          assert RecordLists(r.value, id);
          assert BodyLists(t.bodies[logID], id);
        }
      }
      AssembledStable(ids, t.chunks, t'.chunks);
    }
  }
}
