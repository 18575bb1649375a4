/** Snapshots on their way to storage: their bodies hashed and cut, each distinct chunk kept once
    per batch and a slot sharing its neighbour's work where the two carry the same bytes. */
module Prepare {
  import opened Words
  import opened Chunking
  import opened LogRecord

  /** The name of stored bytes by content: a hash no two byte strings share. */
  datatype Digest = Sum(content: Bytes)

  /** A captured request or response body; data is the captured prefix of length bytes. */
  datatype Body = Body(kind: Byte, data: Bytes, length: int, truncated: bool)

  datatype Snapshot = Snapshot(meta: Bytes, body: Option<Body>)

  /** A log row's four snapshots, in record order. */
  type Snapshots = s: seq<Option<Snapshot>> | |s| == SLOT_COUNT witness [None, None, None, None]

  datatype Chunk = Chunk(hash: Digest, data: Bytes)

  datatype PreparedSlot = PreparedSlot(snapshot: Option<Snapshot>, metaHash: Digest, chunks: seq<Chunk>)

  const NO_SLOT := PreparedSlot(None, Sum([]), [])

  type Prepared = p: seq<PreparedSlot> | |p| == SLOT_COUNT witness [NO_SLOT, NO_SLOT, NO_SLOT, NO_SLOT]

  /** A body with captured bytes to store. */
  predicate HasBytes(body: Option<Body>) {
    body.Some? && HasChunks(body.value.kind) && body.value.data != []
  }

  function Pieces(chunks: seq<Chunk>): (pieces: seq<Bytes>)
    ensures |pieces| == |chunks|
    ensures forall i :: 0 <= i < |chunks| ==> pieces[i] == chunks[i].data
  {
    seq(|chunks|, i requires 0 <= i < |chunks| => chunks[i].data)
  }

  /** A chunk is filed under the hash of its own bytes. */
  predicate IsNamed(c: Chunk) {
    c.hash == Sum(c.data)
  }

  /** The slot holds exactly what its snapshot alone calls for, whatever was shared to get there. */
  ghost predicate SlotPrepared(gear: Gear, snapshot: Option<Snapshot>, slot: PreparedSlot) {
    match snapshot
    case None => slot == NO_SLOT
    case Some(s) =>
      && slot.snapshot == snapshot
      && slot.metaHash == Sum(s.meta)
      && (forall c :: c in slot.chunks ==> IsNamed(c))
      && (HasBytes(s.body) ==> IsSplit(gear, s.body.value.data, Pieces(slot.chunks)))
      && (!HasBytes(s.body) ==> slot.chunks == [])
  }

  ghost predicate IsPrepared(gear: Gear, snapshots: Snapshots, p: Prepared) {
    forall i :: 0 <= i < SLOT_COUNT ==> SlotPrepared(gear, snapshots[i], p[i])
  }

  ghost predicate Distinct(chunks: seq<Chunk>) {
    forall i, j :: 0 <= i < j < |chunks| ==> chunks[i] != chunks[j]
  }

  /** Cuts the snapshots of one write, keeping one chunk per distinct hash. */
  class Batch {
    const gear: Gear
    var chunks: map<Digest, Chunk>
    var order: seq<Chunk>

    ghost predicate Valid()
      reads this
    {
      && (forall h :: h in chunks ==> chunks[h].hash == h && IsNamed(chunks[h]) && chunks[h] in order)
      && (forall c :: c in order ==> c.hash in chunks && chunks[c.hash] == c)
      && Distinct(order)
    }

    constructor (gear: Gear)
      ensures Valid() && this.gear == gear && order == []
    {
      this.gear := gear;
      chunks, order := map[], [];
    }

    /** The batch's chunk for a piece: the one it already has, or a new one. */
    method Intern(piece: Bytes) returns (c: Chunk)
      requires Valid()
      modifies this
      ensures Valid() && c == Chunk(Sum(piece), piece)
      ensures order == if c in old(order) then old(order) else old(order) + [c]
    {
      var h := Sum(piece);
      if h in chunks {
        return chunks[h];
      }
      c := Chunk(h, piece);
      chunks := chunks[h := c];
      order := order + [c];
    }

    /** Interns pieces in order. */
    method InternAll(pieces: seq<Bytes>) returns (cut: seq<Chunk>)
      requires Valid()
      modifies this
      ensures Valid() && Pieces(cut) == pieces && forall c :: c in cut ==> IsNamed(c)
      ensures old(order) <= order && forall c :: c in order <==> c in old(order) || c in cut
    {
      hide Valid();
      cut := [];
      for i := 0 to |pieces|
        invariant Valid() && |cut| == i
        invariant forall k :: 0 <= k < i ==> cut[k] == Chunk(Sum(pieces[k]), pieces[k])
        invariant old(order) <= order && forall c :: c in order <==> c in old(order) || c in cut
      {
        var c := Intern(pieces[i]);
        cut := cut + [c];
      }
    }

    /** Hashes and cuts the i-th of a row's snapshots, those before it done already. */
    method PrepareSlot(snapshots: Snapshots, i: nat, p: Prepared) returns (slot: PreparedSlot)
      requires Valid() && i < SLOT_COUNT
      requires forall k :: 0 <= k < i ==> SlotPrepared(gear, snapshots[k], p[k])
      modifies this
      ensures Valid() && SlotPrepared(gear, snapshots[i], slot)
      ensures old(order) <= order
      ensures forall c :: c in order ==> c in old(order) || c in slot.chunks
      ensures (forall c :: c in slot.chunks ==> c in order) || (i > 0 && slot.chunks == p[i - 1].chunks)
    {
      hide Valid(), IsSplit();
      if snapshots[i].None? {
        return NO_SLOT;
      }
      var s := snapshots[i].value;
      var previous := if i > 0 then snapshots[i - 1] else None;
      var metaHash := if previous.Some? && previous.value.meta == s.meta then p[i - 1].metaHash else Sum(s.meta);
      slot := PreparedSlot(snapshots[i], metaHash, []);
      if !HasBytes(s.body) {
        return;
      }
      if previous.Some? && HasBytes(previous.value.body) && previous.value.body.value.data == s.body.value.data {
        slot := slot.(chunks := p[i - 1].chunks);
        return;
      }
      var pieces := Split(gear, s.body.value.data);
      var cut := InternAll(pieces);
      slot := slot.(chunks := cut);
    }

    /** Hashes and cuts one row's snapshots. */
    method Prepare(snapshots: Snapshots) returns (p: Prepared)
      requires Valid()
      modifies this
      ensures Valid() && IsPrepared(gear, snapshots, p)
      ensures old(order) <= order
      ensures forall c :: c in order <==> c in old(order) || InSlots(p, c)
    {
      hide Valid(), SlotPrepared();
      p := [NO_SLOT, NO_SLOT, NO_SLOT, NO_SLOT];
      for i := 0 to SLOT_COUNT
        invariant Valid() && old(order) <= order
        invariant forall k :: 0 <= k < i ==> SlotPrepared(gear, snapshots[k], p[k])
        invariant forall k :: i <= k < SLOT_COUNT ==> p[k] == NO_SLOT
        invariant forall c :: InSlots(p, c) ==> c in order
        invariant forall c :: c in order ==> c in old(order) || InSlots(p, c)
      {
        var slot := PrepareSlot(snapshots, i, p);
        ghost var before := p;
        p := p[i := slot];
        forall c ensures InSlots(p, c) <==> InSlots(before, c) || c in slot.chunks {
          SlotReplaced(before, i, slot, c);
        }
        if i > 0 && slot.chunks == before[i - 1].chunks {
          assert forall c :: c in slot.chunks ==> InSlots(before, c);
        }
      }
    }
  }

  predicate InSlots(p: Prepared, c: Chunk) {
    exists i :: 0 <= i < SLOT_COUNT && c in p[i].chunks
  }

  lemma SlotReplaced(p: Prepared, i: nat, slot: PreparedSlot, c: Chunk)
    requires i < SLOT_COUNT && p[i].chunks == []
    ensures InSlots(p[i := slot], c) <==> InSlots(p, c) || c in slot.chunks
  {
    if c in slot.chunks {
      assert c in p[i := slot][i].chunks;
    }
    if InSlots(p, c) {
      var k :| 0 <= k < SLOT_COUNT && c in p[k].chunks;
      assert c in p[i := slot][k].chunks;
    }
  }

  /** The record of a row once every chunk has an id. */
  function SlotRecord(slot: PreparedSlot, ids: map<Digest, Int64>): SlotBody {
    match slot.snapshot
    case None => NO_BODY
    case Some(s) =>
      match s.body
      case None => NO_BODY
      case Some(body) =>
        if HasChunks(body.kind)
        then SlotBody(body.kind, WrapInt64(body.length), body.truncated, WrapInt64(|body.data|),
          IdsOf(slot.chunks, ids))
        else SlotBody(body.kind, WrapInt64(body.length), false, 0, [])
  }

  /** A chunk the map does not name reads as id 0. */
  function IdsOf(chunks: seq<Chunk>, ids: map<Digest, Int64>): (r: seq<Int64>)
    ensures |r| == |chunks|
    ensures forall j :: 0 <= j < |r| ==> r[j] == if chunks[j].hash in ids then ids[chunks[j].hash] else 0
  {
    seq(|chunks|, j requires 0 <= j < |chunks| => if chunks[j].hash in ids then ids[chunks[j].hash] else 0)
  }

  function RecordOf(p: Prepared, ids: map<Digest, Int64>): (r: Record) {
    [SlotRecord(p[0], ids), SlotRecord(p[1], ids), SlotRecord(p[2], ids), SlotRecord(p[3], ids)]
  }

  /** Lists the row's bodies with the chunk ids storage assigned. */
  method MakeRecord(p: Prepared, ids: map<Digest, Int64>) returns (r: Record)
    ensures r == RecordOf(p, ids)
  {
    r := EMPTY_RECORD;
    for i := 0 to SLOT_COUNT
      invariant forall k :: 0 <= k < i ==> r[k] == SlotRecord(p[k], ids)
      invariant forall k :: i <= k < SLOT_COUNT ==> r[k] == NO_BODY
    {
      if p[i].snapshot.None? || p[i].snapshot.value.body.None? {
        continue;
      }
      var body := p[i].snapshot.value.body.value;
      var slot := NO_BODY.(kind := body.kind, length := WrapInt64(body.length));
      if !HasChunks(body.kind) {
        r := r[i := slot];
        continue;
      }
      slot := slot.(truncated := body.truncated, captured := WrapInt64(|body.data|));
      var chunkIds: seq<Int64> := [];
      for j := 0 to |p[i].chunks|
        invariant |chunkIds| == j
        invariant forall k :: 0 <= k < j ==> chunkIds[k] == IdsOf(p[i].chunks, ids)[k]
      {
        var h := p[i].chunks[j].hash;
        chunkIds := chunkIds + [if h in ids then ids[h] else 0];
      }
      r := r[i := slot.(chunks := chunkIds)];
    }
  }
}
