/** Content-defined chunking of a body: where the gear hash cuts, and what that means. */
module Chunking {
  import opened Words

  const MIN_CHUNK := 0x800
  const AVG_CHUNK := 0x2000
  const MAX_CHUNK := 0x1_0000
  /** A cut is made when the top 13 bits of the 64-bit hash are zero. */
  const CUT_SHIFT := 64 - 13
  const CUT_BELOW := 0x8_0000_0000_0000

  /** One pseudo-random word per byte value. Everything here holds for any table. */
  type Gear = g: seq<Uint64> | |g| == 0x100 witness seq(0x100, _ => 0)

  /** One step of the hash: (h << 1) + gear, in 64 bits. */
  function Roll(h: Uint64, word: Uint64): Uint64 {
    (2 * h + word) % TWO_64
  }

  function HashFrom(gear: Gear, h: Uint64, scanned: Bytes): Uint64 {
    if scanned == [] then h
    else Roll(HashFrom(gear, h, scanned[..|scanned| - 1]), gear[scanned[|scanned| - 1]])
  }

  /** Whether the hash over b[MIN_CHUNK..i + 1] calls for a cut after position i. */
  predicate CutsAfter(gear: Gear, b: Bytes, i: nat)
    requires MIN_CHUNK <= i < |b|
  {
    HashFrom(gear, 0, b[MIN_CHUNK..i + 1]) < CUT_BELOW
  }

  /** n is where the next chunk of b ends: at the first position past the minimum that calls
      for a cut, or as far as a chunk may reach. */
  ghost predicate IsCut(gear: Gear, b: Bytes, n: nat) {
    && n <= |b|
    && n <= MAX_CHUNK
    && (|b| <= MIN_CHUNK ==> n == |b|)
    && (|b| > MIN_CHUNK ==>
          && n > MIN_CHUNK
          && (n == Min(|b|, MAX_CHUNK) || CutsAfter(gear, b, n - 1))
          && (forall i :: MIN_CHUNK <= i < n - 1 ==> !CutsAfter(gear, b, i)))
  }

  lemma CutIsUnique(gear: Gear, b: Bytes, m: nat, n: nat)
    requires IsCut(gear, b, m) && IsCut(gear, b, n)
    ensures m == n
  {
  }

  method Cut(gear: Gear, b: Bytes) returns (n: nat)
    ensures IsCut(gear, b, n)
    ensures b != [] ==> n > 0
  {
    n := |b|;
    if n <= MIN_CHUNK {
      return n;
    }
    n := Min(n, MAX_CHUNK);
    var h: Uint64 := 0;
    assert b[MIN_CHUNK..MIN_CHUNK] == [];
    for i := MIN_CHUNK to n
      invariant h == HashFrom(gear, 0, b[MIN_CHUNK..i])
      invariant forall k :: MIN_CHUNK <= k < i ==> !CutsAfter(gear, b, k)
    {
      h := Roll(h, gear[b[i]]);
      assert b[MIN_CHUNK..i + 1][..i - MIN_CHUNK] == b[MIN_CHUNK..i];
      if h < CUT_BELOW {
        return i + 1;
      }
    }
  }

  function Join(pieces: seq<Bytes>): Bytes {
    if pieces == [] then [] else pieces[0] + Join(pieces[1..])
  }

  lemma {:induction false} JoinAppend(a: seq<Bytes>, b: seq<Bytes>)
    ensures Join(a + b) == Join(a) + Join(b)
  {
    if a == [] {
      assert a + b == b;
    } else {
      assert (a + b)[1..] == a[1..] + b;
      JoinAppend(a[1..], b);
    }
  }

  /** The chunks of b: each is the next cut of what the ones before it leave. */
  ghost predicate IsSplit(gear: Gear, b: Bytes, chunks: seq<Bytes>)
    decreases |chunks|
  {
    if chunks == [] then b == []
    else
      && b != []
      && |chunks[0]| <= |b|
      && chunks[0] == b[..|chunks[0]|]
      && IsCut(gear, b, |chunks[0]|)
      && IsSplit(gear, b[|chunks[0]|..], chunks[1..])
  }

  lemma {:induction false} SplitExtends(gear: Gear, b: Bytes, done: seq<Bytes>, rest: Bytes, n: nat)
    requires rest != [] && IsCut(gear, rest, n)
    requires SplitUpTo(gear, b, done, rest)
    ensures SplitUpTo(gear, b, done + [rest[..n]], rest[n..])
    decreases |done|
  {
    if done == [] {
      assert (done + [rest[..n]])[1..] == [];
    } else {
      assert (done + [rest[..n]])[1..] == done[1..] + [rest[..n]];
      SplitExtends(gear, b[|done[0]|..], done[1..], rest, n);
    }
  }

  /** done are the first chunks of b, and rest is what they leave. */
  ghost predicate SplitUpTo(gear: Gear, b: Bytes, done: seq<Bytes>, rest: Bytes)
    decreases |done|
  {
    if done == [] then rest == b
    else
      && b != []
      && |done[0]| <= |b|
      && done[0] == b[..|done[0]|]
      && IsCut(gear, b, |done[0]|)
      && SplitUpTo(gear, b[|done[0]|..], done[1..], rest)
  }

  lemma {:induction false} SplitFinished(gear: Gear, b: Bytes, done: seq<Bytes>)
    requires SplitUpTo(gear, b, done, [])
    ensures IsSplit(gear, b, done)
    decreases |done|
  {
    if done != [] {
      SplitFinished(gear, b[|done[0]|..], done[1..]);
    }
  }

  method Split(gear: Gear, b: Bytes) returns (chunks: seq<Bytes>)
    ensures IsSplit(gear, b, chunks)
    ensures Join(chunks) == b
    ensures forall i :: 0 <= i < |chunks| ==> 1 <= |chunks[i]| <= MAX_CHUNK
    ensures forall i :: 0 <= i < |chunks| - 1 ==> MIN_CHUNK < |chunks[i]|
  {
    chunks := [];
    var rest := b;
    while rest != []
      invariant SplitUpTo(gear, b, chunks, rest)
      decreases |rest|
    {
      var n := Cut(gear, rest);
      SplitExtends(gear, b, chunks, rest, n);
      chunks := chunks + [rest[..n]];
      rest := rest[n..];
    }
    SplitFinished(gear, b, chunks);
    SplitJoinsBack(gear, b, chunks);
    SplitSizes(gear, b, chunks);
  }

  lemma {:induction false} SplitJoinsBack(gear: Gear, b: Bytes, chunks: seq<Bytes>)
    requires IsSplit(gear, b, chunks)
    ensures Join(chunks) == b
    decreases |chunks|
  {
    if chunks != [] {
      SplitJoinsBack(gear, b[|chunks[0]|..], chunks[1..]);
    }
  }

  lemma {:induction false} SplitSizes(gear: Gear, b: Bytes, chunks: seq<Bytes>)
    requires IsSplit(gear, b, chunks)
    ensures forall i :: 0 <= i < |chunks| ==> 1 <= |chunks[i]| <= MAX_CHUNK
    ensures forall i :: 0 <= i < |chunks| - 1 ==> MIN_CHUNK < |chunks[i]|
    decreases |chunks|
  {
    if chunks != [] {
      SplitSizes(gear, b[|chunks[0]|..], chunks[1..]);
    }
  }

  lemma {:induction false} SplitIsUnique(gear: Gear, b: Bytes, s: seq<Bytes>, t: seq<Bytes>)
    requires IsSplit(gear, b, s) && IsSplit(gear, b, t)
    ensures s == t
    decreases |s|
  {
    if s != [] && t != [] {
      CutIsUnique(gear, b, |s[0]|, |t[0]|);
      SplitIsUnique(gear, b[|s[0]|..], s[1..], t[1..]);
    }
  }

  /** A cut made before the end of a body does not depend on what follows it. */
  lemma CutIgnoresSuffix(gear: Gear, b: Bytes, suffix: Bytes, n: nat)
    requires IsCut(gear, b, n) && n < |b|
    ensures IsCut(gear, b + suffix, n)
  {
    var longer := b + suffix;
    forall i | MIN_CHUNK <= i < n
      ensures CutsAfter(gear, longer, i) == CutsAfter(gear, b, i)
    {
      assert longer[MIN_CHUNK..i + 1] == b[MIN_CHUNK..i + 1];
    }
  }

  /** A turn appended to a conversation leaves every chunk but the last where it was. */
  lemma {:induction false} AppendKeepsChunks(gear: Gear, b: Bytes, suffix: Bytes,
                                             before: seq<Bytes>, after: seq<Bytes>)
    requires IsSplit(gear, b, before) && IsSplit(gear, b + suffix, after)
    ensures |before| <= |after| + 1
    ensures forall i :: 0 <= i < |before| - 1 ==> i < |after| && after[i] == before[i]
    ensures suffix == [] ==> after == before
    decreases |before|
  {
    if suffix == [] {
      assert b + suffix == b;
      SplitIsUnique(gear, b, before, after);
    }
    if |before| > 1 {
      var n := |before[0]|;
      CutIgnoresSuffix(gear, b, suffix, n);
      CutIsUnique(gear, b + suffix, n, |after[0]|);
      assert (b + suffix)[n..] == b[n..] + suffix;
      assert (b + suffix)[..n] == b[..n];
      AppendKeepsChunks(gear, b[n..], suffix, before[1..], after[1..]);
      forall i | 0 <= i < |before| - 1
        ensures i < |after| && after[i] == before[i]
      {
        if i > 0 { assert before[1..][i - 1] == before[i]; assert after[1..][i - 1] == after[i]; }
      }
    }
  }

  /** Bodies that agree from some cut on are cut alike from there on, whatever came before. */
  lemma {:induction false} CutsMoveWithContent(gear: Gear, a: Bytes, b: Bytes, tail: Bytes,
                                               aChunks: seq<Bytes>, bChunks: seq<Bytes>, i: nat, j: nat)
    requires IsSplit(gear, a + tail, aChunks) && IsSplit(gear, b + tail, bChunks)
    requires i <= |aChunks| && Join(aChunks[..i]) == a
    requires j <= |bChunks| && Join(bChunks[..j]) == b
    ensures aChunks[i..] == bChunks[j..]
  {
    SplitAfter(gear, a, tail, aChunks, i);
    SplitAfter(gear, b, tail, bChunks, j);
    SplitIsUnique(gear, tail, aChunks[i..], bChunks[j..]);
  }

  lemma {:induction false} SplitAfter(gear: Gear, a: Bytes, tail: Bytes, chunks: seq<Bytes>, i: nat)
    requires IsSplit(gear, a + tail, chunks)
    requires i <= |chunks| && Join(chunks[..i]) == a
    ensures IsSplit(gear, tail, chunks[i..])
    decreases i
  {
    if i == 0 {
      assert a + tail == tail;
    } else {
      var head := chunks[0];
      assert chunks[..i][1..] == chunks[1..][..i - 1];
      assert a == head + Join(chunks[1..][..i - 1]);
      assert (a + tail)[|head|..] == a[|head|..] + tail;
      SplitAfter(gear, a[|head|..], tail, chunks[1..], i - 1);
      assert chunks[1..][i - 1..] == chunks[i..];
    }
  }

  function Pow2(n: nat): (p: nat)
    ensures p > 0
  {
    if n == 0 then 1 else 2 * Pow2(n - 1)
  }

  lemma {:induction false} Pow2Split(m: nat, n: nat)
    ensures Pow2(m + n) == Pow2(m) * Pow2(n)
  {
    if n > 0 {
      Pow2Split(m, n - 1);
      assert Pow2(m + n) == 2 * (Pow2(m) * Pow2(n - 1)) == Pow2(m) * (2 * Pow2(n - 1));
    }
  }

  lemma Pow2At64()
    ensures Pow2(64) == TWO_64
  {
    hide Pow2;
    assert Pow2(1) == 2 by { PowOne(); }
    PowSquared(1, 2);
    PowSquared(2, 4);
    PowSquared(4, 0x10);
    PowSquared(8, 0x100);
    PowSquared(16, 0x1_0000);
    PowSquared(32, 0x1_0000_0000);
  }

  lemma PowOne()
    ensures Pow2(1) == 2
  {
  }

  lemma PowSquared(n: nat, p: nat)
    requires Pow2(n) == p
    ensures Pow2(2 * n) == p * p
  {
    Pow2Split(n, n);
  }

  /** The contribution of the starting hash is shifted left once per byte. */
  lemma {:induction false} StartIsShifted(gear: Gear, h: Uint64, s: Bytes)
    ensures HashFrom(gear, h, s) == (Pow2(|s|) * h + HashFrom(gear, 0, s)) % TWO_64
    decreases |s|
  {
    hide Roll;
    if s != [] {
      var front := s[..|s| - 1];
      StartIsShifted(gear, h, front);
      Shifted(Pow2(|front|) * h, HashFrom(gear, 0, front), gear[s[|s| - 1]]);
      assert Pow2(|s|) * h == 2 * (Pow2(|front|) * h);
    }
  }

  lemma Shifted(p: nat, f: Uint64, w: Uint64)
    ensures Roll((p + f) % TWO_64, w) == (2 * p + Roll(f, w)) % TWO_64
  {
    DoubledModulo(p + f, w);
    ModuloOfSum(2 * p, 2 * f + w);
  }

  lemma DoubledModulo(x: nat, w: nat)
    ensures (2 * (x % TWO_64) + w) % TWO_64 == (2 * x + w) % TWO_64
  {
  }

  lemma MultipleVanishes(x: nat, q: nat)
    ensures (x + TWO_64 * q) % TWO_64 == x % TWO_64
  {
  }

  lemma ModuloOfSum(x: nat, y: nat)
    ensures (x + y % TWO_64) % TWO_64 == (x + y) % TWO_64
  {
  }

  lemma {:induction false} HashAppend(gear: Gear, h: Uint64, s: Bytes, t: Bytes)
    ensures HashFrom(gear, h, s + t) == HashFrom(gear, HashFrom(gear, h, s), t)
    decreases |t|
  {
    if t == [] {
      assert s + t == s;
    } else {
      assert (s + t)[..|s + t| - 1] == s + t[..|t| - 1];
      HashAppend(gear, h, s, t[..|t| - 1]);
    }
  }

  /** The hash at a position depends on the last 64 bytes scanned and on nothing before them. */
  lemma HashWindow(gear: Gear, earlier: Bytes, other: Bytes, window: Bytes)
    requires |window| == 64
    ensures HashFrom(gear, 0, earlier + window) == HashFrom(gear, 0, other + window)
  {
    Pow2At64();
    HashAppend(gear, 0, earlier, window);
    HashAppend(gear, 0, other, window);
    var a, b, w := HashFrom(gear, 0, earlier), HashFrom(gear, 0, other), HashFrom(gear, 0, window);
    StartIsShifted(gear, a, window);
    StartIsShifted(gear, b, window);
    MultipleVanishes(w, a);
    MultipleVanishes(w, b);
  }
}
