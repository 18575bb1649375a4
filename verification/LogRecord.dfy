/** The stored form of a log row's bodies: which chunks, by id, hold which body. */
module LogRecord {
  import opened Words
  import opened Varints
  import opened Chunking

  const SLOT_COUNT := 4
  const RECORD_VERSION := 1

  const KIND_NONE: Byte := 0
  const KIND_TEXT: Byte := 1
  const KIND_BINARY: Byte := 2
  const KIND_OMITTED: Byte := 3

  const FLAG_TRUNCATED := 1
  const FLAG_SAME_CHUNKS := 2

  /** The largest byte count a record may state. */
  const MAX_LENGTH := 0x4000_0000_0000_0000

  /** One slot's body as stored; captured is the number of bytes across its chunks. */
  datatype SlotBody = SlotBody(kind: Byte, length: Int64, truncated: bool,
                               captured: Int64, chunks: seq<Int64>)

  const NO_BODY := SlotBody(KIND_NONE, 0, false, 0, [])

  type Record = r: seq<SlotBody> | |r| == SLOT_COUNT witness [NO_BODY, NO_BODY, NO_BODY, NO_BODY]

  const EMPTY_RECORD: Record := [NO_BODY, NO_BODY, NO_BODY, NO_BODY]

  predicate HasChunks(kind: Byte) {
    kind == KIND_TEXT || kind == KIND_BINARY
  }

  /** A record with no slot worth storing. */
  predicate IsEmpty(r: Record) {
    forall i :: 0 <= i < SLOT_COUNT ==> r[i].kind == KIND_NONE
  }

  /** The slot's bytes are the ones the previous slot already lists. */
  predicate SameChunks(previous: SlotBody, slot: SlotBody) {
    && HasChunks(previous.kind)
    && previous.captured == slot.captured
    && slot.chunks != []
    && previous.chunks == slot.chunks
  }

  // Encoding

  function IdDelta(id: Int64, previous: Int64): Bytes {
    PutVarint(WrapInt64(id - previous))
  }

  function IdDeltas(chunks: seq<Int64>, previous: Int64): Bytes {
    if chunks == [] then [] else IdDelta(chunks[0], previous) + IdDeltas(chunks[1..], chunks[0])
  }

  function LastOr(ids: seq<Int64>, start: Int64): Int64 {
    if ids == [] then start else ids[|ids| - 1]
  }

  function Flags(truncated: bool, same: bool): Byte {
    (if truncated then FLAG_TRUNCATED else 0) + (if same then FLAG_SAME_CHUNKS else 0)
  }

  function OwnList(slot: SlotBody): Bytes {
    PutUvarint(ToUint64(slot.captured)) + PutUvarint(|slot.chunks|) + IdDeltas(slot.chunks, 0)
  }

  function SlotEncoding(before: Option<SlotBody>, slot: SlotBody): Bytes {
    [slot.kind] +
    if slot.kind == KIND_OMITTED then PutUvarint(ToUint64(slot.length))
    else if HasChunks(slot.kind) then
      var same := before.Some? && SameChunks(before.value, slot);
      PutUvarint(ToUint64(slot.length)) + [Flags(slot.truncated, same)] +
      if same then [] else OwnList(slot)
    else []
  }

  function Before(r: seq<SlotBody>, i: nat): Option<SlotBody>
    requires i <= |r|
  {
    if i == 0 then None else Some(r[i - 1])
  }

  function SlotsEncoding(r: Record, i: nat): Bytes
    requires i <= SLOT_COUNT
    decreases SLOT_COUNT - i
  {
    if i == SLOT_COUNT then [] else SlotEncoding(Before(r, i), r[i]) + SlotsEncoding(r, i + 1)
  }

  function Encoding(r: Record): Bytes {
    PutUvarint(RECORD_VERSION) + SlotsEncoding(r, 0)
  }

  lemma {:induction false} DeltasAppend(front: seq<Int64>, id: Int64, start: Int64)
    ensures IdDeltas(front + [id], start) == IdDeltas(front, start) + IdDelta(id, LastOr(front, start))
  {
    hide IdDelta;
    if front == [] {
      assert (front + [id])[1..] == [];
    } else {
      assert (front + [id])[1..] == front[1..] + [id];
      DeltasAppend(front[1..], id, front[0]);
      assert LastOr(front, start) == LastOr(front[1..], front[0]);
    }
  }

  lemma SlotsEncodingStep(r: Record, i: nat, done: Bytes)
    requires i < SLOT_COUNT
    ensures done + SlotsEncoding(r, i) ==
            done + SlotEncoding(Before(r, i), r[i]) + SlotsEncoding(r, i + 1)
  {
  }

  method AppendDeltas(dst: Bytes, chunks: seq<Int64>) returns (out: Bytes)
    ensures out == dst + IdDeltas(chunks, 0)
  {
    hide IdDelta;
    out := dst;
    var previous: Int64 := 0;
    for j := 0 to |chunks|
      invariant previous == LastOr(chunks[..j], 0)
      invariant out == dst + IdDeltas(chunks[..j], 0)
    {
      DeltasAppend(chunks[..j], chunks[j], 0);
      assert chunks[..j + 1] == chunks[..j] + [chunks[j]];
      out := out + IdDelta(chunks[j], previous);
      previous := chunks[j];
    }
    assert chunks[..|chunks|] == chunks;
  }

  method AppendSlot(dst: Bytes, before: Option<SlotBody>, slot: SlotBody) returns (out: Bytes)
    ensures out == dst + SlotEncoding(before, slot)
  {
    hide PutUvarint, IdDeltas, ToUint64;
    out := dst + [slot.kind];
    if slot.kind == KIND_OMITTED {
      out := out + PutUvarint(ToUint64(slot.length));
    } else if HasChunks(slot.kind) {
      out := out + PutUvarint(ToUint64(slot.length));
      var same := before.Some? && SameChunks(before.value, slot);
      out := out + [Flags(slot.truncated, same)];
      if same {
        return;
      }
      out := out + PutUvarint(ToUint64(slot.captured));
      out := out + PutUvarint(|slot.chunks|);
      out := AppendDeltas(out, slot.chunks);
    }
  }

  method AppendRecord(dst: Bytes, r: Record) returns (out: Bytes)
    ensures out == dst + Encoding(r)
  {
    hide PutUvarint, SlotEncoding;
    out := dst + PutUvarint(RECORD_VERSION);
    for i := 0 to SLOT_COUNT
      invariant out + SlotsEncoding(r, i) == dst + Encoding(r)
    {
      SlotsEncodingStep(r, i, out);
      out := AppendSlot(out, Before(r, i), r[i]);
    }
  }

  // Decoding

  function ReadByte(b: Bytes): Read<Byte> {
    if b == [] then Malformed else Read(b[0], b[1..])
  }

  /** A byte count, which must fit an int64. */
  function ReadLength(b: Bytes): (r: Read<Int64>)
    ensures r.Read? ==> 0 <= r.value <= MAX_LENGTH && |r.rest| < |b|
  {
    match Uvarint(b)
    case Malformed => Malformed
    case Read(v, rest) => if v > MAX_LENGTH then Malformed else Read(v, rest)
  }

  function ReadIds(b: Bytes, n: nat, previous: Int64): (r: Read<seq<Int64>>)
    ensures r.Read? ==> |r.value| == n && forall j :: 0 <= j < n ==> r.value[j] > 0
    decreases n
  {
    if n == 0 then Read([], b)
    else
      match Varint(b)
      case Malformed => Malformed
      case Read(delta, rest) =>
        var id := WrapInt64(previous + delta);
        if id <= 0 then Malformed
        else
          match ReadIds(rest, n - 1, id)
          case Malformed => Malformed
          case Read(ids, rest) => Read([id] + ids, rest)
  }

  /** Every chunk holds at least one byte and at most MAX_CHUNK; n * MAX_CHUNK wraps in 64 bits. */
  predicate PlausibleList(n: Uint64, captured: Int64, length: Int64) {
    n <= captured && captured <= ToUint64(n * MAX_CHUNK) && captured <= length
  }

  function ReadOwnList(b: Bytes, kind: Byte, length: Int64, truncated: bool): (r: Read<SlotBody>)
    ensures r.Read? ==> r.value.kind == kind && r.value.length == length && r.value.truncated == truncated
  {
    match ReadLength(b)
    case Malformed => Malformed
    case Read(captured, b) =>
      match Uvarint(b)
      case Malformed => Malformed
      case Read(n, b) =>
        if !PlausibleList(n, captured, length) then Malformed
        else
          match ReadIds(b, n, 0)
          case Malformed => Malformed
          case Read(ids, b) => Read(SlotBody(kind, length, truncated, captured, ids), b)
  }

  function ReadSlot(b: Bytes, before: Option<SlotBody>): Read<SlotBody> {
    match ReadByte(b)
    case Malformed => Malformed
    case Read(kind, b) =>
      if kind == KIND_NONE then Read(NO_BODY, b)
      else if kind == KIND_OMITTED then
        match ReadLength(b)
        case Malformed => Malformed
        case Read(length, b) => Read(SlotBody(kind, length, false, 0, []), b)
      else if HasChunks(kind) then ReadCaptured(b, before, kind)
      else Malformed
  }

  function ReadCaptured(b: Bytes, before: Option<SlotBody>, kind: Byte): Read<SlotBody> {
    match ReadLength(b)
    case Malformed => Malformed
    case Read(length, b) =>
      match ReadByte(b)
      case Malformed => Malformed
      case Read(flags, b) =>
        if flags > FLAG_TRUNCATED + FLAG_SAME_CHUNKS then Malformed
        else if flags >= FLAG_SAME_CHUNKS then
          if before.None? || !HasChunks(before.value.kind) || before.value.chunks == [] then Malformed
          else Read(SlotBody(kind, length, flags % 2 == 1, before.value.captured, before.value.chunks), b)
        else ReadOwnList(b, kind, length, flags % 2 == 1)
  }

  function ParseSlots(b: Bytes, done: seq<SlotBody>): Option<Record>
    requires |done| <= SLOT_COUNT
    decreases SLOT_COUNT - |done|
  {
    if |done| == SLOT_COUNT then
      if b == [] then Some(done) else None
    else
      match ReadSlot(b, Before(done, |done|))
      case Malformed => None
      case Read(slot, rest) => ParseSlots(rest, done + [slot])
  }

  /** The record a byte string decodes to, if it does. */
  function Parse(b: Bytes): Option<Record> {
    match Uvarint(b)
    case Malformed => None
    case Read(version, rest) => if version == RECORD_VERSION then ParseSlots(rest, []) else None
  }

  /** Reads a record front to back, remembering the first failure so that the caller checks once. */
  class Decoder {
    var b: Bytes
    var err: bool

    constructor (b: Bytes)
      ensures this.b == b && !err
    {
      this.b, err := b, false;
    }

    method Fail()
      modifies `err
      ensures err
    {
      err := true;
    }

    method NextByte() returns (v: Byte)
      modifies this
      ensures old(err) || ReadByte(old(b)).Malformed? ==> err && v == 0
      ensures !old(err) && ReadByte(old(b)).Read? ==> !err && ReadByte(old(b)) == Read(v, b)
    {
      if err || b == [] {
        Fail();
        return 0;
      }
      v := b[0];
      b := b[1..];
    }

    method NextUvarint() returns (v: Uint64)
      modifies this
      ensures old(err) || Uvarint(old(b)).Malformed? ==> err && v == 0
      ensures !old(err) && Uvarint(old(b)).Read? ==> !err && Uvarint(old(b)) == Read(v, b)
    {
      if err {
        return 0;
      }
      var read := Uvarint(b);
      if read.Malformed? {
        Fail();
        return 0;
      }
      v, b := read.value, read.rest;
    }

    method NextVarint() returns (v: Int64)
      modifies this
      ensures old(err) || Varint(old(b)).Malformed? ==> err && v == 0
      ensures !old(err) && Varint(old(b)).Read? ==> !err && Varint(old(b)) == Read(v, b)
    {
      if err {
        return 0;
      }
      var read := Varint(b);
      if read.Malformed? {
        Fail();
        return 0;
      }
      v, b := read.value, read.rest;
    }

    method NextLength() returns (v: Int64)
      modifies this
      ensures old(err) || ReadLength(old(b)).Malformed? ==> err && v == 0
      ensures !old(err) && ReadLength(old(b)).Read? ==> !err && ReadLength(old(b)) == Read(v, b)
    {
      var u := NextUvarint();
      if u > MAX_LENGTH {
        Fail();
        return 0;
      }
      v := u;
    }

    /** Reads n chunk ids, each a delta from the one before. */
    method NextIds(n: Uint64) returns (ids: seq<Int64>)
      requires !err
      modifies this
      ensures err <==> ReadIds(old(b), n, 0).Malformed?
      ensures !err ==> ReadIds(old(b), n, 0) == Read(ids, b)
    {
      hide Varint, WrapInt64;
      ids := [];
      var previous: Int64 := 0;
      var j := 0;
      PrependNone(ReadIds(b, n, 0));
      while j < n
        invariant j == |ids| <= n
        invariant if err then ReadIds(old(b), n, 0).Malformed?
                  else ReadIds(old(b), n, 0) == Prepend(ids, ReadIds(b, n - j, previous))
      {
        ghost var start: Bytes, from: Int64, readSoFar := b, previous, ids;
        var delta := NextVarint();
        if !err {
          ReadIdsStep(start, n - j, from, delta, b);
          ghost var id: Int64 := WrapInt64(from + delta);
          PrependTwice(readSoFar, id, ReadIds(b, n - j - 1, id));
        }
        previous := WrapInt64(previous + delta);
        if previous <= 0 {
          Fail();
          break;
        }
        ids := ids + [previous];
        j := j + 1;
      }
      assert ids + [] == ids;
    }

    /** Reads one slot, the previous one given. */
    method NextSlot(before: Option<SlotBody>) returns (slot: SlotBody)
      requires !err
      modifies this
      ensures err <==> ReadSlot(old(b), before).Malformed?
      ensures !err ==> ReadSlot(old(b), before) == Read(slot, b)
    {
      hide Uvarint, ReadIds, ReadLength;
      slot := NO_BODY;
      var kind := NextByte();
      if kind == KIND_NONE {
      } else if kind == KIND_OMITTED {
        var length := NextLength();
        slot := slot.(kind := kind, length := length);
      } else if HasChunks(kind) {
        slot := NextCaptured(before, kind);
      } else {
        Fail();
      }
    }

    method NextCaptured(before: Option<SlotBody>, kind: Byte) returns (slot: SlotBody)
      requires !err
      modifies this
      ensures err <==> ReadCaptured(old(b), before, kind).Malformed?
      ensures !err ==> ReadCaptured(old(b), before, kind) == Read(slot, b)
    {
      hide Uvarint, ReadIds, ReadLength;
      var length := NextLength();
      var flags := NextByte();
      if flags > FLAG_TRUNCATED + FLAG_SAME_CHUNKS {
        Fail();
      }
      slot := SlotBody(kind, length, flags % 2 == 1, 0, []);
      if flags / 2 % 2 == 1 {
        if before.None? || !HasChunks(before.value.kind) || before.value.chunks == [] {
          Fail();
          return;
        }
        slot := slot.(captured := before.value.captured, chunks := before.value.chunks);
        return;
      }
      var captured := NextLength();
      var n := NextUvarint();
      if err || !PlausibleList(n, captured, length) {
        Fail();
        return;
      }
      var ids := NextIds(n);
      slot := slot.(captured := captured, chunks := ids);
    }
  }

  function Prepend(front: seq<Int64>, read: Read<seq<Int64>>): Read<seq<Int64>> {
    match read
    case Malformed => Malformed
    case Read(ids, rest) => Read(front + ids, rest)
  }

  lemma PrependNone(read: Read<seq<Int64>>)
    ensures Prepend([], read) == read
  {
    if read.Read? { assert [] + read.value == read.value; }
  }

  lemma PrependTwice(front: seq<Int64>, id: Int64, read: Read<seq<Int64>>)
    ensures Prepend(front, Prepend([id], read)) == Prepend(front + [id], read)
  {
    if read.Read? { assert front + ([id] + read.value) == front + [id] + read.value; }
  }

  lemma ReadIdsStep(b: Bytes, n: nat, previous: Int64, delta: Int64, rest: Bytes)
    requires n > 0 && Varint(b) == Read(delta, rest)
    ensures var id := WrapInt64(previous + delta);
            ReadIds(b, n, previous) == if id <= 0 then Malformed else Prepend([id], ReadIds(rest, n - 1, id))
  {
    hide Varint, WrapInt64;
  }

  lemma ParseSlotsStep(b: Bytes, done: seq<SlotBody>)
    requires |done| < SLOT_COUNT
    ensures var read := ReadSlot(b, Before(done, |done|));
            ParseSlots(b, done) == if read.Malformed? then None else ParseSlots(read.rest, done + [read.value])
  {
  }

  method DecodeRecord(b: Bytes) returns (r: Record, err: bool)
    ensures err <==> Parse(b).None?
    ensures r == if err then EMPTY_RECORD else Parse(b).value
  {
    hide ReadSlot, Uvarint;
    r := EMPTY_RECORD;
    var d := new Decoder(b);
    var version := d.NextUvarint();
    if version != RECORD_VERSION {
      return EMPTY_RECORD, true;
    }
    for i := 0 to SLOT_COUNT
      invariant !d.err && Parse(b) == ParseSlots(d.b, r[..i])
    {
      ParseSlotsStep(d.b, r[..i]);
      assert Before(r[..i], i) == Before(r, i);
      var slot := d.NextSlot(Before(r, i));
      if d.err {
        return EMPTY_RECORD, true;
      }
      r := r[i := slot];
      assert r[..i + 1] == r[..i] + [slot];
    }
    assert r[..SLOT_COUNT] == r;
    if d.b != [] {
      d.Fail();
    }
    if d.err {
      return EMPTY_RECORD, true;
    }
    return r, false;
  }

  // What a record must look like to be stored

  /** A slot with a list of its own: the ids are positive, and each stands for 1 to MAX_CHUNK
      of the captured bytes. */
  predicate ListStorable(slot: SlotBody) {
    && 0 <= slot.captured
    && |slot.chunks| < TWO_64
    && PlausibleList(|slot.chunks|, slot.captured, slot.length)
    && forall j :: 0 <= j < |slot.chunks| ==> slot.chunks[j] > 0
  }

  predicate SlotStorable(before: Option<SlotBody>, slot: SlotBody) {
    && 0 <= slot.length <= MAX_LENGTH
    && if HasChunks(slot.kind) then
         (before.Some? && SameChunks(before.value, slot)) || ListStorable(slot)
       else if slot.kind == KIND_OMITTED then slot == SlotBody(KIND_OMITTED, slot.length, false, 0, [])
       else slot == NO_BODY
  }

  predicate Storable(r: Record) {
    forall i :: 0 <= i < SLOT_COUNT ==> SlotStorable(Before(r, i), r[i])
  }

  lemma DeltaRestores(id: Int64, previous: Int64)
    requires 0 <= previous && 0 < id
    ensures WrapInt64(previous + WrapInt64(id - previous)) == id
  {
  }

  lemma {:induction false} IdsRoundTrip(ids: seq<Int64>, previous: Int64, rest: Bytes)
    requires 0 <= previous && forall j :: 0 <= j < |ids| ==> ids[j] > 0
    ensures ReadIds(IdDeltas(ids, previous) + rest, |ids|, previous) == Read(ids, rest)
  {
    hide PutVarint, Varint, WrapInt64;
    if ids == [] {
      assert IdDeltas(ids, previous) + rest == rest;
    } else {
      var delta := WrapInt64(ids[0] - previous);
      var tail := IdDeltas(ids[1..], ids[0]) + rest;
      assert IdDeltas(ids, previous) + rest == PutVarint(delta) + tail;
      VarintRoundTrip(delta, tail);
      DeltaRestores(ids[0], previous);
      ReadIdsStep(PutVarint(delta) + tail, |ids|, previous, delta, tail);
      IdsRoundTrip(ids[1..], ids[0], rest);
      assert ids == [ids[0]] + ids[1..];
    }
  }

  lemma ReadLengthRoundTrip(v: Int64, rest: Bytes)
    requires 0 <= v <= MAX_LENGTH
    ensures ReadLength(PutUvarint(ToUint64(v)) + rest) == Read(v, rest)
  {
    UvarintRoundTrip(v, rest);
  }

  lemma OwnListRoundTrip(slot: SlotBody, rest: Bytes)
    requires ListStorable(slot) && slot.length <= MAX_LENGTH
    ensures ReadOwnList(OwnList(slot) + rest, slot.kind, slot.length, slot.truncated) == Read(slot, rest)
  {
    hide PutUvarint, Uvarint, IdDeltas, ReadIds, ToUint64, ReadLength;
    var deltas := IdDeltas(slot.chunks, 0) + rest;
    var counted := PutUvarint(|slot.chunks|) + deltas;
    assert OwnList(slot) + rest == PutUvarint(ToUint64(slot.captured)) + counted;
    ReadLengthRoundTrip(slot.captured, counted);
    UvarintRoundTrip(|slot.chunks|, deltas);
    IdsRoundTrip(slot.chunks, 0, rest);
  }

  lemma CapturedRoundTrip(before: Option<SlotBody>, slot: SlotBody, rest: Bytes)
    requires SlotStorable(before, slot) && HasChunks(slot.kind)
    ensures ReadCaptured(SlotEncoding(before, slot)[1..] + rest, before, slot.kind) == Read(slot, rest)
  {
    hide PutUvarint, ReadLength, ToUint64, OwnList, ReadOwnList;
    var same := before.Some? && SameChunks(before.value, slot);
    var list := (if same then [] else OwnList(slot)) + rest;
    var flagged := [Flags(slot.truncated, same)] + list;
    assert SlotEncoding(before, slot)[1..] + rest == PutUvarint(ToUint64(slot.length)) + flagged;
    ReadLengthRoundTrip(slot.length, flagged);
    assert flagged[1..] == list;
    if same {
      assert list == rest;
    } else {
      OwnListRoundTrip(slot, rest);
    }
  }

  lemma SlotRoundTrip(before: Option<SlotBody>, slot: SlotBody, rest: Bytes)
    requires SlotStorable(before, slot)
    ensures ReadSlot(SlotEncoding(before, slot) + rest, before) == Read(slot, rest)
  {
    hide PutUvarint, ReadLength, ToUint64, ReadCaptured;
    var b := SlotEncoding(before, slot) + rest;
    assert b[0] == slot.kind;
    assert b[1..] == SlotEncoding(before, slot)[1..] + rest;
    if slot.kind == KIND_OMITTED {
      assert b[1..] == PutUvarint(ToUint64(slot.length)) + rest;
      ReadLengthRoundTrip(slot.length, rest);
    } else if HasChunks(slot.kind) {
      CapturedRoundTrip(before, slot, rest);
    } else {
      assert b[1..] == rest;
    }
  }

  lemma {:induction false} SlotsRoundTrip(r: Record, i: nat)
    requires i <= SLOT_COUNT && Storable(r)
    ensures ParseSlots(SlotsEncoding(r, i), r[..i]) == Some(r)
    decreases SLOT_COUNT - i
  {
    hide SlotEncoding, ReadSlot, SlotStorable;
    if i == SLOT_COUNT {
      assert r[..i] == r;
    } else {
      assert Before(r[..i], i) == Before(r, i);
      SlotRoundTrip(Before(r, i), r[i], SlotsEncoding(r, i + 1));
      assert r[..i] + [r[i]] == r[..i + 1];
      SlotsRoundTrip(r, i + 1);
    }
  }

  lemma RoundTrip(r: Record)
    requires Storable(r)
    ensures Parse(Encoding(r)) == Some(r)
  {
    UvarintRoundTrip(RECORD_VERSION, SlotsEncoding(r, 0));
    SlotsRoundTrip(r, 0);
    assert r[..0] == [];
  }

  lemma ReadSlotStorable(b: Bytes, before: Option<SlotBody>)
    requires ReadSlot(b, before).Read?
    ensures SlotStorable(before, ReadSlot(b, before).value)
  {
    hide Uvarint, ReadIds, ToUint64;
  }

  lemma {:induction false} ParsedSlotsStorable(b: Bytes, done: seq<SlotBody>)
    requires |done| <= SLOT_COUNT && ParseSlots(b, done).Some?
    requires forall i :: 0 <= i < |done| ==> SlotStorable(Before(done, i), done[i])
    ensures done <= ParseSlots(b, done).value && Storable(ParseSlots(b, done).value)
    decreases SLOT_COUNT - |done|
  {
    if |done| < SLOT_COUNT {
      var read := ReadSlot(b, Before(done, |done|));
      ReadSlotStorable(b, Before(done, |done|));
      var more := done + [read.value];
      forall i | 0 <= i < |more|
        ensures SlotStorable(Before(more, i), more[i])
      {
        assert Before(more, i) == Before(done, i);
      }
      ParsedSlotsStorable(read.rest, more);
    }
  }

  /** A list of positive ids, each of 1 to MAX_CHUNK of the captured bytes. */
  predicate CountsAddUp(slot: SlotBody) {
    && |slot.chunks| <= slot.captured <= |slot.chunks| * MAX_CHUNK
    && forall j :: 0 <= j < |slot.chunks| ==> slot.chunks[j] > 0
  }

  lemma OwnCountsAddUp(slot: SlotBody)
    requires ListStorable(slot)
    ensures CountsAddUp(slot)
  {
    var product := |slot.chunks| * MAX_CHUNK;
    assert ToUint64(product) <= product;
  }

  /** Also in a slot that shares the list of the one before. */
  lemma {:induction false} StoredCountsAddUp(r: Record, i: nat)
    requires Storable(r) && i < SLOT_COUNT && HasChunks(r[i].kind)
    ensures CountsAddUp(r[i])
  {
    assert SlotStorable(Before(r, i), r[i]);
    if ListStorable(r[i]) {
      OwnCountsAddUp(r[i]);
    } else {
      StoredCountsAddUp(r, i - 1);
    }
  }

  /** Whatever bytes decode, they decode to a record that could have been stored: positive ids,
      and a count of them that the captured bytes can make up. */
  lemma ParsedIsStorable(b: Bytes)
    requires Parse(b).Some?
    ensures Storable(Parse(b).value)
    ensures forall i :: 0 <= i < SLOT_COUNT && HasChunks(Parse(b).value[i].kind) ==>
              var slot := Parse(b).value[i];
              && |slot.chunks| <= slot.captured <= |slot.chunks| * MAX_CHUNK
              && forall j :: 0 <= j < |slot.chunks| ==> slot.chunks[j] > 0
  {
    ParsedSlotsStorable(Uvarint(b).rest, []);
    var r := Parse(b).value;
    forall i | 0 <= i < SLOT_COUNT && HasChunks(r[i].kind)
      ensures CountsAddUp(r[i])
    {
      StoredCountsAddUp(r, i);
    }
  }

  /** The codec is exact: a record comes back as it was precisely when it is storable. */
  lemma RoundTripIff(r: Record)
    ensures Parse(Encoding(r)) == Some(r) <==> Storable(r)
  {
    if Storable(r) {
      RoundTrip(r);
    } else if Parse(Encoding(r)).Some? {
      ParsedIsStorable(Encoding(r));
    }
  }

  /** A record read from any bytes is stable: stored again, it reads back the same. */
  lemma ParsedRoundTrips(b: Bytes)
    requires Parse(b).Some?
    ensures Parse(Encoding(Parse(b).value)) == Parse(b)
  {
    ParsedIsStorable(b);
    RoundTrip(Parse(b).value);
  }
}
