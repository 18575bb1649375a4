/** Base-128 varints as the record format uses them: least significant group first, the top
    bit of a byte set when another follows, signed values zigzag-coded. */
module Varints {
  import opened Words

  /** A value read from the front of a byte string, and the bytes after it. */
  datatype Read<+T> = Malformed | Read(value: T, rest: Bytes)

  /** A varint is at most 10 bytes; the tenth carries the top bit of a uint64 alone. */
  const MAX_VARINT_LEN := 10

  function PutUvarint(v: nat): Bytes {
    if v < 0x80 then [v] else [v % 0x80 + 0x80] + PutUvarint(v / 0x80)
  }

  /** Reads a varint of which i bytes have been read already. Padding groups of zero bits are
      accepted, as are all lengths up to ten bytes. */
  function UvarintFrom(b: Bytes, i: nat): (r: Read<nat>)
    requires i <= MAX_VARINT_LEN
    ensures r.Read? ==> r.value < Room(i) && |r.rest| < |b|
    decreases MAX_VARINT_LEN - i
  {
    if b == [] || i == MAX_VARINT_LEN then Malformed
    else if b[0] < 0x80 then
      if i == MAX_VARINT_LEN - 1 && b[0] > 1 then Malformed else Read(b[0], b[1..])
    else
      match UvarintFrom(b[1..], i + 1)
      case Malformed => Malformed
      case Read(high, rest) => Read(b[0] - 0x80 + 0x80 * high, rest)
  }

  /** One more than the largest value the bytes from the i-th on can hold: 2^(64 - 7 i). */
  ghost function Room(i: nat): (r: nat)
    requires i <= MAX_VARINT_LEN
    ensures i < MAX_VARINT_LEN - 1 ==> r >= 0x80
    decreases MAX_VARINT_LEN - i
  {
    if i == MAX_VARINT_LEN then 0 else if i == MAX_VARINT_LEN - 1 then 2 else 0x80 * Room(i + 1)
  }

  lemma RoomIs64Bits()
    ensures Room(0) == TWO_64
  {
  }

  function Uvarint(b: Bytes): (r: Read<Uint64>)
    ensures r.Read? ==> |r.rest| < |b|
  {
    RoomIs64Bits();
    match UvarintFrom(b, 0)
    case Malformed => Malformed
    case Read(v, rest) => Read(v, rest)
  }

  lemma {:induction false} UvarintRoundTripFrom(v: nat, i: nat, rest: Bytes)
    requires i < MAX_VARINT_LEN && v < Room(i)
    ensures UvarintFrom(PutUvarint(v) + rest, i) == Read(v, rest)
    decreases MAX_VARINT_LEN - i
  {
    var b := PutUvarint(v) + rest;
    if v < 0x80 {
      assert b[1..] == rest;
    } else {
      GroupsFit(v, i);
      UvarintRoundTripFrom(v / 0x80, i + 1, rest);
      OneGroupMore(v, i, rest);
    }
  }

  lemma GroupsFit(v: nat, i: nat)
    requires i < MAX_VARINT_LEN && 0x80 <= v < Room(i)
    ensures i + 1 < MAX_VARINT_LEN && v / 0x80 < Room(i + 1)
  {
  }

  lemma ReadGroup(group: Byte, tail: Bytes, i: nat, high: nat, rest: Bytes)
    requires i + 1 < MAX_VARINT_LEN && 0x80 <= group && UvarintFrom(tail, i + 1) == Read(high, rest)
    ensures UvarintFrom([group] + tail, i) == Read(group - 0x80 + 0x80 * high, rest)
  {
  }

  lemma PutGroup(v: nat)
    requires 0x80 <= v
    ensures PutUvarint(v) == [v % 0x80 + 0x80] + PutUvarint(v / 0x80)
  {
  }

  lemma OneGroupMore(v: nat, i: nat, rest: Bytes)
    requires i + 1 < MAX_VARINT_LEN && 0x80 <= v
    requires UvarintFrom(PutUvarint(v / 0x80) + rest, i + 1) == Read(v / 0x80, rest)
    ensures UvarintFrom(PutUvarint(v) + rest, i) == Read(v, rest)
  {
    hide UvarintFrom, PutUvarint;
    var group: Byte, high := v % 0x80 + 0x80, v / 0x80;
    PutGroup(v);
    assert PutUvarint(v) + rest == [group] + (PutUvarint(high) + rest);
    ReadGroup(group, PutUvarint(high) + rest, i, high, rest);
  }

  lemma UvarintRoundTrip(v: Uint64, rest: Bytes)
    ensures Uvarint(PutUvarint(v) + rest) == Read(v, rest)
  {
    RoomIs64Bits();
    UvarintRoundTripFrom(v, 0, rest);
  }

  /** No padding group: the last byte read is not a zero that follows another. */
  predicate Unpadded(b: Bytes, rest: Bytes)
    requires |rest| < |b|
  {
    var used := |b| - |rest|;
    used == 1 || b[used - 1] != 0
  }

  /** Splitting one group off a varint splits it off what PutUvarint writes, too, unless the
      groups after it are all zero: then it was padding that followed. */
  lemma GroupByGroup(b: Bytes, high: nat, rest: Bytes)
    requires b != [] && b[0] >= 0x80
    ensures var v := b[0] - 0x80 + 0x80 * high;
            b == PutUvarint(v) + rest <==> high > 0 && b[1..] == PutUvarint(high) + rest
  {
  }

  lemma LastGroup(b: Bytes, i: nat)
    requires i < MAX_VARINT_LEN && UvarintFrom(b, i).Read? && b[0] < 0x80
    ensures var r := UvarintFrom(b, i); b == PutUvarint(r.value) + r.rest && |b| - |r.rest| == 1
  {
  }

  lemma NonzeroUnpadded(tail: Bytes, i: nat)
    requires i < MAX_VARINT_LEN && UvarintFrom(tail, i).Read?
    requires var r := UvarintFrom(tail, i);
             Unpadded(tail, r.rest) <==> tail == PutUvarint(r.value) + r.rest
    ensures var r := UvarintFrom(tail, i);
            tail[|tail| - |r.rest| - 1] != 0 <==> r.value > 0 && Unpadded(tail, r.rest)
  {
  }

  lemma TailRead(b: Bytes, i: nat)
    requires i < MAX_VARINT_LEN && UvarintFrom(b, i).Read? && b[0] >= 0x80
    ensures i + 1 < MAX_VARINT_LEN && UvarintFrom(b[1..], i + 1).Read?
    ensures var r, tail := UvarintFrom(b, i), UvarintFrom(b[1..], i + 1);
            r.rest == tail.rest && r.value == b[0] - 0x80 + 0x80 * tail.value
  {
  }

  /** A varint is the one PutUvarint writes for its value exactly when it carries no padding. */
  lemma {:induction false} UnpaddedFrom(b: Bytes, i: nat)
    requires i < MAX_VARINT_LEN && UvarintFrom(b, i).Read?
    ensures var r := UvarintFrom(b, i); Unpadded(b, r.rest) <==> b == PutUvarint(r.value) + r.rest
    decreases MAX_VARINT_LEN - i
  {
    hide PutUvarint, UvarintFrom;
    var r := UvarintFrom(b, i);
    if b[0] < 0x80 {
      LastGroup(b, i);
    } else {
      TailRead(b, i);
      UnpaddedFrom(b[1..], i + 1);
      NonzeroUnpadded(b[1..], i + 1);
      GroupByGroup(b, UvarintFrom(b[1..], i + 1).value, r.rest);
      LastByte(b, r.rest);
    }
  }

  lemma LastByte(b: Bytes, rest: Bytes)
    requires |rest| + 1 < |b|
    ensures Unpadded(b, rest) <==> b[1..][|b[1..]| - |rest| - 1] != 0
  {
  }

  predicate Minimal(b: Bytes)
    requires Uvarint(b).Read?
  {
    Unpadded(b, Uvarint(b).rest)
  }

  lemma MinimalIsCanonical(b: Bytes)
    requires Uvarint(b).Read?
    ensures Minimal(b) <==> b == PutUvarint(Uvarint(b).value) + Uvarint(b).rest
  {
    RoomIs64Bits();
    UnpaddedFrom(b, 0);
  }

  /** Zigzag: 0, -1, 1, -2, 2 become 0, 1, 2, 3, 4. */
  function Zigzag(x: Int64): (u: Uint64)
    ensures Unzigzag(u) == x
  {
    if x >= 0 then 2 * x else -2 * x - 1
  }

  function Unzigzag(u: Uint64): (x: Int64)
    ensures 0 <= x ==> u == 2 * x
    ensures x < 0 ==> u == -2 * x - 1
  {
    if u % 2 == 0 then u / 2 else -(u / 2) - 1
  }

  function PutVarint(x: Int64): Bytes {
    PutUvarint(Zigzag(x))
  }

  function Varint(b: Bytes): (r: Read<Int64>)
    ensures r.Read? ==> |r.rest| < |b|
  {
    match Uvarint(b)
    case Malformed => Malformed
    case Read(u, rest) => Read(Unzigzag(u), rest)
  }

  lemma VarintRoundTrip(x: Int64, rest: Bytes)
    ensures Varint(PutVarint(x) + rest) == Read(x, rest)
  {
    UvarintRoundTrip(Zigzag(x), rest);
  }
}
