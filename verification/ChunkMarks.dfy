/** Which chunk ids a stored record lists: one bit per id, in 64-bit words. */
module ChunkMarks {
  import opened Words
  import opened LogRecord
  import opened LogTables

  /** The position of an id's bit in its word. */
  function Position(id: nat): (p: bv64)
    ensures p < 64
  {
    SixBitsAreLess((id % 64) as bv6);
    ((id % 64) as bv6) as bv64
  }

  predicate Bit(word: bv64, position: bv64)
    requires position < 64
  {
    word & ((1 as bv64) << position) != 0
  }

  function WithBit(word: bv64, position: bv64): bv64
    requires position < 64
  {
    word | ((1 as bv64) << position)
  }

  lemma SetBit(word: bv64, position: bv64, other: bv64)
    requires position < 64 && other < 64
    ensures Bit(WithBit(word, position), other) == (Bit(word, other) || other == position)
  {
    OrBit(word, position, other);
  }

  lemma OrBit(word: bv64, position: bv64, other: bv64)
    requires position < 64 && other < 64
    ensures Bit(word | ((1 as bv64) << position), other) == (Bit(word, other) || other == position)
  {
  }

  lemma NoBit(position: bv64)
    requires position < 64
    ensures !Bit(0, position)
  {
  }

  lemma SixBitsAreLess(k: bv6)
    ensures k as bv64 < 64
  {
  }

  lemma SixBitsSuffice(j: nat)
    requires j < 64
    ensures (j as bv6) as int == j
  {
  }

  lemma SamePosition(a: nat, b: nat)
    ensures Position(a) == Position(b) <==> a % 64 == b % 64
  {
    SixBitsSuffice(a % 64);
    SixBitsSuffice(b % 64);
    if Position(a) == Position(b) {
      Widened((a % 64) as bv6, (b % 64) as bv6);
    }
  }

  lemma Widened(k: bv6, j: bv6)
    requires k as bv64 == j as bv64
    ensures k == j
  {
  }

  class ChunkMarks {
    const words: array<bv64>

    constructor (highest: nat)
      ensures fresh(words) && words.Length == highest / 64 + 1
      ensures forall id :: !Has(id)
    {
      words := new bv64[highest / 64 + 1](i => 0);
      new;
      forall id | InRange(id)
        ensures !Has(id)
      {
        NoBit(Position(id));
      }
    }

    predicate InRange(id: int) {
      0 <= id && id / 64 < words.Length
    }

    predicate Has(id: int)
      reads words
    {
      InRange(id) && Bit(words[id / 64], Position(id))
    }

    /** The set of marked ids, which the words represent exactly. */
    ghost function Marked(): set<int>
      reads words
    {
      set id | 0 <= id < 64 * words.Length && Has(id)
    }

    method Set(id: int)
      requires InRange(id)
      modifies words
      ensures forall k :: Has(k) <==> old(Has(k)) || k == id
    {
      hide Bit, Position, WithBit;
      ghost var before := words[..];
      words[id / 64] := WithBit(words[id / 64], Position(id));
      forall k | InRange(k)
        ensures Has(k) <==> old(Has(k)) || k == id
      {
        if k / 64 == id / 64 {
          SetBit(before[id / 64], Position(id), Position(k));
          SamePosition(id, k);
        }
      }
    }

    /** Marks the chunks a record lists, those above highest excepted. */
    method MarkRecord(encoded: Bytes, highest: nat) returns (ok: bool)
      requires words.Length == highest / 64 + 1
      modifies words
      ensures ok <==> Parse(encoded).Some?
      ensures forall k :: Has(k) <==> old(Has(k)) || (k <= highest && BodyLists(encoded, k))
    {
      var record, err := DecodeRecord(encoded);
      if err {
        return false;
      }
      DecodesStorable(encoded);
      for i := 0 to SLOT_COUNT
        invariant forall k :: Has(k) <==> old(Has(k)) || (k <= highest && ListedBefore(record, i, k))
      {
        MarkSlot(record, i, highest);
      }
      assert forall k :: ListedBefore(record, SLOT_COUNT, k) <==> BodyLists(encoded, k);
      return true;
    }

    method MarkSlot(record: Record, i: nat, highest: nat)
      requires i < SLOT_COUNT && Storable(record) && words.Length == highest / 64 + 1
      modifies words
      ensures forall k :: Has(k) <==> old(Has(k)) || (k <= highest && k in record[i].chunks)
    {
      ListedIsPositive(record, i);
      var ids := record[i].chunks;
      hide Has(), Storable;
      for j := 0 to |ids|
        invariant forall k :: Has(k) <==> old(Has(k)) || (k <= highest && k in ids[..j])
      {
        assert ids[j] in ids;
        if ids[j] <= highest {
          Set(ids[j]);
        }
        assert ids[..j + 1] == ids[..j] + [ids[j]];
      }
      assert ids[..|ids|] == ids;
    }
  }

  lemma DecodesStorable(encoded: Bytes)
    requires Parse(encoded).Some?
    ensures Storable(Parse(encoded).value)
  {
    ParsedIsStorable(encoded);
  }

  ghost predicate ListedBefore(r: Record, i: nat, id: int) {
    exists slot :: 0 <= slot < i && slot < SLOT_COUNT && id in r[slot].chunks
  }

  /** A slot lists positive ids only, its neighbour's list included. */
  lemma {:induction false} ListedIsPositive(r: Record, i: nat)
    requires i < SLOT_COUNT && Storable(r)
    ensures forall id :: id in r[i].chunks ==> id > 0
    decreases i
  {
  }
}
