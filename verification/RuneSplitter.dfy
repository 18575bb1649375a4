/** Cutting a byte stream into strings without splitting a character. */
module RuneSplitter {
  import opened Words
  import opened Utf8

  /** Where to cut: before the last character if it is not whole yet. */
  function CutFrom(data: Bytes, back: nat): nat
    requires 1 <= back <= 4
    decreases 4 - back
  {
    if back > 3 || back > |data| then |data|
    else
      var index := |data| - back;
      if RuneStart(data[index]) then (if FullRune(data[index..]) then |data| else index)
      else CutFrom(data, back + 1)
  }

  function Cut(data: Bytes): (cut: nat)
    ensures |data| - 3 <= cut <= |data|
  {
    CutInside(data, 1);
    CutFrom(data, 1)
  }

  lemma {:induction false} CutInside(data: Bytes, back: nat)
    requires 1 <= back <= 4
    ensures |data| - 3 <= CutFrom(data, back) <= |data|
    decreases 4 - back
  {
    if back <= 3 && back <= |data| && !RuneStart(data[|data| - back]) {
      CutInside(data, back + 1);
    }
  }

  class RuneSplitter {
    var pending: Bytes

    constructor ()
      ensures pending == []
    {
      pending := [];
    }

    /** Takes a chunk in and gives out what is whole. */
    method Push(chunk: Bytes) returns (out: Bytes)
      modifies this
      ensures out == (old(pending) + chunk)[..Cut(old(pending) + chunk)]
      ensures out + pending == old(pending) + chunk && |pending| <= 3
    {
      var data := pending + chunk;
      var cut := |data|;
      var back := 1;
      while back <= 3 && back <= |data|
        invariant 1 <= back <= 4 && cut == |data|
        invariant CutFrom(data, 1) == CutFrom(data, back)
      {
        var index := |data| - back;
        if RuneStart(data[index]) {
          if !FullRune(data[index..]) {
            cut := index;
          }
          break;
        }
        back := back + 1;
      }
      pending := data[cut..];
      out := data[..cut];
    }

    /** Gives out whatever is held back. */
    method Flush() returns (rest: Bytes)
      modifies this
      ensures rest == old(pending) && pending == []
    {
      rest := pending;
      pending := [];
    }
  }

  // Whole streams

  function Joined(pieces: seq<Bytes>): Bytes {
    if pieces == [] then [] else Joined(pieces[..|pieces| - 1]) + pieces[|pieces| - 1]
  }

  /** What was given out for each chunk, and what is still held back. */
  datatype Fed = Fed(pieces: seq<Bytes>, pending: Bytes)

  function AfterChunk(f: Fed, chunk: Bytes): Fed {
    var data := f.pending + chunk;
    Fed(f.pieces + [data[..Cut(data)]], data[Cut(data)..])
  }

  function Feed(chunks: seq<Bytes>): Fed {
    if chunks == [] then Fed([], []) else AfterChunk(Feed(chunks[..|chunks| - 1]), chunks[|chunks| - 1])
  }

  lemma JoinedNext(pieces: seq<Bytes>, piece: Bytes)
    ensures Joined(pieces + [piece]) == Joined(pieces) + piece
  {
  }

  lemma ChunkJoins(f: Fed, chunk: Bytes)
    ensures var next := AfterChunk(f, chunk);
            Joined(next.pieces) + next.pending == Joined(f.pieces) + f.pending + chunk && |next.pending| <= 3
  {
    hide Joined;
    var data := f.pending + chunk;
    var cut := Cut(data);
    hide Cut;
    JoinedNext(f.pieces, data[..cut]);
    assert data[..cut] + data[cut..] == data;
    assert Joined(f.pieces) + data[..cut] + data[cut..] == Joined(f.pieces) + data;
    assert Joined(f.pieces) + data == Joined(f.pieces) + f.pending + chunk;
  }

  /** However the stream arrives, the pieces and the rest are all of it. */
  lemma {:induction false} NothingIsLost(chunks: seq<Bytes>)
    ensures Joined(Feed(chunks).pieces) + Feed(chunks).pending == Joined(chunks)
    ensures |Feed(chunks).pieces| == |chunks| && |Feed(chunks).pending| <= 3
  {
    if chunks != [] {
      var front, last := chunks[..|chunks| - 1], chunks[|chunks| - 1];
      NothingIsLost(front);
      ChunkJoins(Feed(front), last);
    }
  }

  lemma WholeIsUncut(data: Bytes)
    requires Valid(data)
    ensures Cut(data) == |data|
  {
    hide IsRune;
    if data != [] {
      var last := LastRune(data);
      WholeAtEnd(data, last);
    }
  }

  /** Cutting a beginning of valid text gives its whole characters. */
  lemma CutIsWhole(s: Bytes, k: nat)
    requires Valid(s) && k <= |s|
    ensures Valid(s[..k][..Cut(s[..k])])
  {
    var data := s[..k];
    hide IsRune, BeginsRune, Cut;
    var j := PrefixParts(s, k);
    assert data[j..] == s[j..k] && data[..j] == s[..j];
    if j < k {
      PartialAtEnd(data, j);
    } else {
      WholeIsUncut(data);
      assert data[..|data|] == data;
    }
  }

  /** Only the first byte of a character's beginning begins one, so scanning back stops there. */
  lemma PartialAtEnd(data: Bytes, j: nat)
    requires j < |data| && BeginsRune(data[j..]) && !IsRune(data[j..])
    ensures Cut(data) == j
  {
  }

  lemma WholeAtEnd(data: Bytes, j: nat)
    requires j < |data| && IsRune(data[j..])
    ensures Cut(data) == |data|
  {
    var rune := data[j..];
    assert forall i :: 0 <= i < |rune| ==> rune[i] == data[j + i];
    ScanWhole(data, j, 1);
  }

  lemma {:induction false} ScanWhole(data: Bytes, j: nat, back: nat)
    requires 1 <= back <= 4 && back <= |data| - j <= 4 && IsRune(data[j..])
    requires RuneStart(data[j]) && forall i :: j < i < |data| ==> !RuneStart(data[i])
    ensures CutFrom(data, back) == |data|
    decreases 4 - back
  {
  }

  predicate AllValid(pieces: seq<Bytes>) {
    forall i :: 0 <= i < |pieces| ==> Valid(pieces[i])
  }

  lemma {:induction false} JoinedValid(pieces: seq<Bytes>)
    requires AllValid(pieces)
    ensures Valid(Joined(pieces))
  {
    if pieces != [] {
      JoinedValid(pieces[..|pieces| - 1]);
      ValidConcat(Joined(pieces[..|pieces| - 1]), pieces[|pieces| - 1]);
    }
  }

  /** As long as the chunks are a beginning of valid text, every piece is valid. */
  lemma {:induction false} PiecesOfPrefix(chunks: seq<Bytes>, s: Bytes)
    requires Valid(s) && Joined(chunks) <= s
    ensures AllValid(Feed(chunks).pieces)
    ensures Joined(chunks) == s ==> Feed(chunks).pending == []
  {
    if chunks != [] {
      hide Cut, Valid;
      var front, last := chunks[..|chunks| - 1], chunks[|chunks| - 1];
      assert Joined(front) <= Joined(chunks);
      PiecesOfPrefix(front, s);
      NothingIsLost(front);
      hide Joined, Feed;
      NextPiece(s, Feed(front), last);
    }
  }

  lemma NextPiece(s: Bytes, f: Fed, chunk: Bytes)
    requires Valid(s) && AllValid(f.pieces) && Joined(f.pieces) + f.pending + chunk <= s
    ensures AllValid(AfterChunk(f, chunk).pieces)
    ensures Joined(f.pieces) + f.pending + chunk == s ==> AfterChunk(f, chunk).pending == []
  {
    hide Cut, Valid;
    var done, data := Joined(f.pieces), f.pending + chunk;
    JoinedValid(f.pieces);
    assert done + data == Joined(f.pieces) + f.pending + chunk;
    assert s[..|done|] == done;
    ValidRest(s, |done|);
    assert s[|done|..][..|data|] == data;
    CutIsWhole(s[|done|..], |data|);
    if done + data == s {
      assert s[|done|..] == data;
      WholeIsUncut(data);
    }
  }

  /** The pieces and the rest are all valid exactly when the whole stream is. */
  lemma PiecesValidIff(chunks: seq<Bytes>)
    ensures AllValid(Feed(chunks).pieces) && Valid(Feed(chunks).pending) <==> Valid(Joined(chunks))
  {
    hide Feed, Joined;
    NothingIsLost(chunks);
    if Valid(Joined(chunks)) {
      PiecesOfPrefix(chunks, Joined(chunks));
    }
    if AllValid(Feed(chunks).pieces) && Valid(Feed(chunks).pending) {
      JoinedValid(Feed(chunks).pieces);
      ValidConcat(Joined(Feed(chunks).pieces), Feed(chunks).pending);
    }
  }
}
