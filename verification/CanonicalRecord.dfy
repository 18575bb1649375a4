/** Which byte strings the decoder accepts are the ones the encoder writes: those without padded
    varints that flag every list repeating its predecessor. The decoder accepts others as well. */
module CanonicalRecord {
  import opened Words
  import opened Varints
  import opened LogRecord

  predicate CanonicalIds(b: Bytes, n: nat)
    decreases n
  {
    n > 0 ==> Uvarint(b).Read? && Minimal(b) && CanonicalIds(Uvarint(b).rest, n - 1)
  }

  predicate CanonicalList(b: Bytes) {
    && Uvarint(b).Read?
    && Minimal(b)
    && var counted := Uvarint(b).rest;
       && Uvarint(counted).Read?
       && Minimal(counted)
       && CanonicalIds(Uvarint(counted).rest, Uvarint(counted).value)
  }

  /** The bytes after the kind of a captured slot, decoded to slot. */
  predicate CanonicalCaptured(b: Bytes, before: Option<SlotBody>, slot: SlotBody) {
    && Uvarint(b).Read?
    && Minimal(b)
    && var flagged := Uvarint(b).rest;
       && flagged != []
       && (flagged[0] < FLAG_SAME_CHUNKS ==>
             && CanonicalList(flagged[1..])
             && !(before.Some? && SameChunks(before.value, slot)))
  }

  predicate CanonicalSlot(b: Bytes, before: Option<SlotBody>, slot: SlotBody) {
    && b != []
    && (slot.kind == KIND_OMITTED ==> Uvarint(b[1..]).Read? && Minimal(b[1..]))
    && (HasChunks(slot.kind) ==> CanonicalCaptured(b[1..], before, slot))
  }

  predicate CanonicalSlots(b: Bytes, done: seq<SlotBody>)
    requires |done| <= SLOT_COUNT && ParseSlots(b, done).Some?
    decreases SLOT_COUNT - |done|
  {
    |done| < SLOT_COUNT ==>
      var read := ReadSlot(b, Before(done, |done|));
      && CanonicalSlot(b, Before(done, |done|), read.value)
      && CanonicalSlots(read.rest, done + [read.value])
  }

  predicate Canonical(b: Bytes)
    requires Parse(b).Some?
  {
    Minimal(b) && CanonicalSlots(Uvarint(b).rest, [])
  }

  lemma OneIdCanonical(b: Bytes, n: nat, previous: Int64)
    requires 0 <= previous && 0 < n && ReadIds(b, n, previous).Read?
    ensures Varint(b).Read?
    ensures var id := WrapInt64(previous + Varint(b).value); var read := ReadIds(b, n, previous);
            && read.value != [] && read.value[0] == id > 0
            && ReadIds(Varint(b).rest, n - 1, id) == Read(read.value[1..], read.rest)
            && IdDeltas(read.value, previous) == PutVarint(Varint(b).value) + IdDeltas(read.value[1..], id)
  {
    hide Varint, PutVarint, WrapInt64;
    var first := Varint(b);
    ReadIdsStep(b, n, previous, first.value, first.rest);
    DeltaReturns(first.value, previous);
  }

  lemma {:induction false} IdsCanonical(b: Bytes, n: nat, previous: Int64)
    requires 0 <= previous && ReadIds(b, n, previous).Read?
    ensures var read := ReadIds(b, n, previous);
            CanonicalIds(b, n) <==> b == IdDeltas(read.value, previous) + read.rest
    decreases n
  {
    hide Minimal, PutUvarint, Uvarint, WrapInt64, ReadIds, Zigzag, Unzigzag;
    var read := ReadIds(b, n, previous);
    if n > 0 {
      OneIdCanonical(b, n, previous);
      var id: Int64 := read.value[0];
      IdsCanonical(Varint(b).rest, n - 1, id);
      var more := IdDeltas(read.value[1..], id) + read.rest;
      assert IdDeltas(read.value, previous) + read.rest == PutUvarint(Uvarint(b).value) + more;
      PeelUvarint(b, more);
    } else {
      NoIds(b, previous);
      assert IdDeltas([], previous) + b == b;
    }
  }

  lemma NoIds(b: Bytes, previous: Int64)
    ensures ReadIds(b, 0, previous) == Read([], b)
  {
  }

  lemma DeltaReturns(delta: Int64, previous: Int64)
    requires 0 <= previous && WrapInt64(previous + delta) > 0
    ensures WrapInt64(WrapInt64(previous + delta) - previous) == delta
  {
  }

  /** Peeling one varint off both sides of an equation between byte strings. */
  lemma PeelUvarint(b: Bytes, more: Bytes)
    requires Uvarint(b).Read?
    ensures b == PutUvarint(Uvarint(b).value) + more <==> Minimal(b) && Uvarint(b).rest == more
  {
    hide PutUvarint, Minimal, Uvarint;
    MinimalIsCanonical(b);
    if b == PutUvarint(Uvarint(b).value) + more {
      UvarintRoundTrip(Uvarint(b).value, more);
    }
  }

  lemma ListCanonical(b: Bytes, kind: Byte, length: Int64, truncated: bool)
    requires ReadOwnList(b, kind, length, truncated).Read?
    ensures var read := ReadOwnList(b, kind, length, truncated);
            CanonicalList(b) <==> b == OwnList(read.value) + read.rest
  {
    hide PutUvarint, Minimal, Uvarint, ReadIds, IdDeltas, CanonicalIds;
    var read := ReadOwnList(b, kind, length, truncated);
    var counted := Uvarint(b).rest;
    var listed := Uvarint(counted).rest;
    var n := Uvarint(counted).value;
    IdsCanonical(listed, n, 0);
    var ids := IdDeltas(read.value.chunks, 0) + read.rest;
    assert OwnList(read.value) + read.rest ==
           PutUvarint(Uvarint(b).value) + (PutUvarint(n) + ids);
    PeelUvarint(b, PutUvarint(n) + ids);
    PeelUvarint(counted, ids);
  }

  /** The bytes from the flags on: they are the written ones unless an unflagged list repeats. */
  lemma FlaggedCanonical(flagged: Bytes, before: Option<SlotBody>, slot: SlotBody, rest: Bytes)
    requires flagged != [] && HasChunks(slot.kind) && flagged[0] <= FLAG_TRUNCATED + FLAG_SAME_CHUNKS
    requires slot.truncated == (flagged[0] % 2 == 1)
    requires flagged[0] < FLAG_SAME_CHUNKS ==>
               ReadOwnList(flagged[1..], slot.kind, slot.length, slot.truncated) == Read(slot, rest)
    requires flagged[0] >= FLAG_SAME_CHUNKS ==>
               flagged[1..] == rest && before.Some? && SameChunks(before.value, slot)
    ensures var same := before.Some? && SameChunks(before.value, slot);
            (flagged[0] < FLAG_SAME_CHUNKS ==> CanonicalList(flagged[1..]) && !same) <==>
            flagged == [Flags(slot.truncated, same)] + ((if same then [] else OwnList(slot)) + rest)
  {
    hide PutUvarint, Minimal, Uvarint, OwnList, ReadOwnList, CanonicalList;
    var same := before.Some? && SameChunks(before.value, slot);
    var written := (if same then [] else OwnList(slot)) + rest;
    var tail := [Flags(slot.truncated, same)] + written;
    assert flagged == [flagged[0]] + flagged[1..];
    assert tail[1..] == written && tail[0] == Flags(slot.truncated, same);
    if flagged[0] < FLAG_SAME_CHUNKS {
      ListCanonical(flagged[1..], slot.kind, slot.length, slot.truncated);
    } else {
      assert written == rest;
    }
  }

  lemma CapturedCanonical(b: Bytes, before: Option<SlotBody>, kind: Byte)
    requires HasChunks(kind) && ReadCaptured(b, before, kind).Read?
    ensures var read := ReadCaptured(b, before, kind);
            CanonicalCaptured(b, before, read.value) <==> b == SlotEncoding(before, read.value)[1..] + read.rest
  {
    hide PutUvarint, Minimal, Uvarint, OwnList, ReadOwnList, CanonicalList, SlotEncoding;
    var read := ReadCaptured(b, before, kind);
    var slot := read.value;
    FlaggedCanonical(Uvarint(b).rest, before, slot, read.rest);
    var same := before.Some? && SameChunks(before.value, slot);
    var tail := [Flags(slot.truncated, same)] + ((if same then [] else OwnList(slot)) + read.rest);
    CapturedEncoding(before, slot, read.rest);
    PeelUvarint(b, tail);
  }

  lemma CapturedEncoding(before: Option<SlotBody>, slot: SlotBody, rest: Bytes)
    requires HasChunks(slot.kind)
    ensures var same := before.Some? && SameChunks(before.value, slot);
            && SlotEncoding(before, slot) != []
            && SlotEncoding(before, slot)[1..] + rest ==
               PutUvarint(ToUint64(slot.length)) +
                 ([Flags(slot.truncated, same)] + ((if same then [] else OwnList(slot)) + rest))
  {
    hide PutUvarint, OwnList, SameChunks, Flags;
  }

  lemma SlotCanonical(b: Bytes, before: Option<SlotBody>)
    requires ReadSlot(b, before).Read?
    ensures var read := ReadSlot(b, before);
            CanonicalSlot(b, before, read.value) <==> b == SlotEncoding(before, read.value) + read.rest
  {
    hide PutUvarint, Minimal, Uvarint, CanonicalCaptured, OwnList, ReadOwnList, ReadLength;
    var read := ReadSlot(b, before);
    var written := SlotEncoding(before, read.value);
    assert b == [b[0]] + b[1..];
    assert written == [b[0]] + written[1..];
    assert (written + read.rest)[1..] == written[1..] + read.rest;
    if b[0] == KIND_OMITTED {
      LengthIsUvarint(b[1..]);
      PeelUvarint(b[1..], read.rest);
    } else if HasChunks(b[0]) {
      CapturedCanonical(b[1..], before, b[0]);
    } else {
      assert written[1..] + read.rest == read.rest;
    }
  }

  lemma LengthIsUvarint(b: Bytes)
    requires ReadLength(b).Read?
    ensures Uvarint(b) == Read(ReadLength(b).value, ReadLength(b).rest)
  {
  }

  lemma {:induction false} SlotsCanonical(b: Bytes, done: seq<SlotBody>)
    requires |done| <= SLOT_COUNT && ParseSlots(b, done).Some?
    requires Storable(ParseSlots(b, done).value) && done <= ParseSlots(b, done).value
    ensures CanonicalSlots(b, done) <==> b == SlotsEncoding(ParseSlots(b, done).value, |done|)
    decreases SLOT_COUNT - |done|
  {
    hide ReadSlot, SlotEncoding, CanonicalSlot;
    if |done| < SLOT_COUNT {
      var r := ParseSlots(b, done).value;
      var before := Before(done, |done|);
      var read := ReadSlot(b, before);
      var more := done + [read.value];
      ParsedPrefix(read.rest, more);
      assert before == Before(r, |done|) && r[|done|] == more[|done|] == read.value;
      SlotsCanonical(read.rest, more);
      SlotCanonical(b, before);
      var later := SlotsEncoding(r, |more|);
      if b == SlotEncoding(before, read.value) + later {
        SlotRoundTrip(before, read.value, later);
      }
    }
  }

  lemma {:induction false} ParsedPrefix(b: Bytes, done: seq<SlotBody>)
    requires |done| <= SLOT_COUNT && ParseSlots(b, done).Some?
    ensures done <= ParseSlots(b, done).value
    decreases SLOT_COUNT - |done|
  {
    if |done| < SLOT_COUNT {
      var read := ReadSlot(b, Before(done, |done|));
      ParsedPrefix(read.rest, done + [read.value]);
    }
  }

  /** Accepted bytes are the ones the encoder would have written exactly when they are canonical. */
  lemma EncodesBackIff(b: Bytes)
    requires Parse(b).Some?
    ensures Encoding(Parse(b).value) == b <==> Canonical(b)
  {
    hide PutUvarint, Minimal, Uvarint, CanonicalSlots, ParseSlots, SlotsEncoding, Storable;
    ParsedIsStorable(b);
    SlotsCanonical(Uvarint(b).rest, []);
    PeelUvarint(b, SlotsEncoding(Parse(b).value, 0));
  }

  /** The decoder does accept bytes the encoder never writes: here a padded version number. */
  lemma AcceptsPadding()
    ensures var padded: Bytes := [0x81, 0x00, KIND_NONE, KIND_NONE, KIND_NONE, KIND_NONE];
            && Parse(padded) == Some(EMPTY_RECORD)
            && Encoding(EMPTY_RECORD) == [1, KIND_NONE, KIND_NONE, KIND_NONE, KIND_NONE]
  {
    var padded: Bytes := [0x81, 0x00, KIND_NONE, KIND_NONE, KIND_NONE, KIND_NONE];
    assert UvarintFrom(padded[1..], 1) == Read(0, padded[2..]);
    assert Uvarint(padded) == Read(1, padded[2..]);
    NoneSlots(0);
    assert padded[2..] == seq(SLOT_COUNT, _ => KIND_NONE);
    assert SlotsEncoding(EMPTY_RECORD, 2) == [KIND_NONE, KIND_NONE];
  }

  lemma {:induction false} NoneSlots(i: nat)
    requires i <= SLOT_COUNT
    ensures ParseSlots(seq(SLOT_COUNT - i, _ => KIND_NONE), EMPTY_RECORD[..i]) == Some(EMPTY_RECORD)
    decreases SLOT_COUNT - i
  {
    if i < SLOT_COUNT {
      var b: Bytes := seq(SLOT_COUNT - i, _ => KIND_NONE);
      ParseSlotsStep(b, EMPTY_RECORD[..i]);
      assert b[1..] == seq(SLOT_COUNT - i - 1, _ => KIND_NONE);
      assert EMPTY_RECORD[..i] + [NO_BODY] == EMPTY_RECORD[..i + 1];
      NoneSlots(i + 1);
    } else {
      assert EMPTY_RECORD[..i] == EMPTY_RECORD;
    }
  }

  lemma SmallUvarint(b: Bytes)
    requires b != [] && b[0] < 0x80
    ensures Uvarint(b) == Read(b[0], b[1..])
  {
  }

  /** A text body of one byte, in chunk 1. */
  const ONE_BYTE := SlotBody(KIND_TEXT, 1, false, 1, [1])
  const ONE_BYTE_LISTED: Bytes := [KIND_TEXT, 1, 0, 1, 1, 2]

  lemma ReadsOneByte(rest: Bytes, before: Option<SlotBody>)
    ensures ReadSlot(ONE_BYTE_LISTED + rest, before) == Read(ONE_BYTE, rest)
  {
    var b := ONE_BYTE_LISTED + rest;
    SmallUvarint(b[1..]);
    SmallUvarint(b[3..]);
    SmallUvarint(b[4..]);
    SmallUvarint(b[5..]);
    hide Uvarint;
    assert b[1..][1..] == b[2..] && b[2..][1..] == b[3..] && b[3..][1..] == b[4..] && b[4..][1..] == b[5..] &&
      b[5..][1..] == rest;
    assert Varint(b[5..]) == Read(1, rest);
    assert ReadIds(rest, 0, 1) == Read([], rest);
    var ids: seq<Int64> := [1];
    assert WrapInt64(0 + 1) == 1 && [1] + [] == ids;
    assert ReadIds(b[5..], 1, 0) == Read(ids, rest);
    assert ReadOwnList(b[3..], KIND_TEXT, 1, false) == Read(ONE_BYTE, rest);
  }

  lemma ReadsFlagged(rest: Bytes)
    ensures ReadSlot([KIND_TEXT, 1, FLAG_SAME_CHUNKS] + rest, Some(ONE_BYTE)) == Read(ONE_BYTE, rest)
  {
    var b := [KIND_TEXT, 1, FLAG_SAME_CHUNKS] + rest;
    SmallUvarint(b[1..]);
    assert b[1..][1..] == b[2..] && b[2..][1..] == rest;
  }

  lemma ReadsNone(done: seq<SlotBody>)
    requires |done| == 2
    ensures ParseSlots([KIND_NONE, KIND_NONE], done) == Some(done + [NO_BODY, NO_BODY])
  {
    ParseSlotsStep([KIND_NONE, KIND_NONE], done);
    assert [KIND_NONE, KIND_NONE][1..] == [KIND_NONE];
    ParseSlotsStep([KIND_NONE], done + [NO_BODY]);
    assert [KIND_NONE][1..] == [];
    assert done + [NO_BODY] + [NO_BODY] == done + [NO_BODY, NO_BODY];
  }

  /** Nor does it need a repeated list flagged: the second of two slots with the same chunks may list
      them again, and the record is the one the flag gives. */
  lemma AcceptsUnflagged()
    ensures var none: Bytes := [KIND_NONE, KIND_NONE];
            var listed: Bytes := [RECORD_VERSION] + ONE_BYTE_LISTED + ONE_BYTE_LISTED + none;
            var flagged: Bytes := [RECORD_VERSION] + ONE_BYTE_LISTED + [KIND_TEXT, 1, FLAG_SAME_CHUNKS] + none;
            && listed != flagged
            && Parse(listed) == Parse(flagged) == Some([ONE_BYTE, ONE_BYTE, NO_BODY, NO_BODY])
  {
    hide ReadSlot, Parse;
    var none: Bytes := [KIND_NONE, KIND_NONE];
    ReadsOneByte(none, Some(ONE_BYTE));
    ReadsFlagged(none);
    TwoSlots(ONE_BYTE_LISTED);
    TwoSlots([KIND_TEXT, 1, FLAG_SAME_CHUNKS]);
  }

  lemma TwoSlots(second: Bytes)
    requires ReadSlot(second + [KIND_NONE, KIND_NONE], Some(ONE_BYTE)) == Read(ONE_BYTE, [KIND_NONE, KIND_NONE])
    ensures Parse([RECORD_VERSION] + ONE_BYTE_LISTED + second + [KIND_NONE, KIND_NONE]) ==
            Some([ONE_BYTE, ONE_BYTE, NO_BODY, NO_BODY])
  {
    hide Uvarint, ReadSlot, ParseSlots;
    var none: Bytes := [KIND_NONE, KIND_NONE];
    var b := [RECORD_VERSION] + ONE_BYTE_LISTED + second + none;
    assert b[1..] == ONE_BYTE_LISTED + (second + none);
    SmallUvarint(b);
    ParseSlotsStep(b[1..], []);
    ReadsOneByte(second + none, None);
    ParseSlotsStep(second + none, [ONE_BYTE]);
    ReadsNone([ONE_BYTE, ONE_BYTE]);
    assert [] + [ONE_BYTE] == [ONE_BYTE] && [ONE_BYTE] + [ONE_BYTE] == [ONE_BYTE, ONE_BYTE];
    assert [ONE_BYTE, ONE_BYTE] + [NO_BODY, NO_BODY] == [ONE_BYTE, ONE_BYTE, NO_BODY, NO_BODY];
  }
}
