/** Well-formed UTF-8, as section 4 of RFC 3629 lays it out. */
module Utf8 {
  import opened Words

  /** The length of a character by its first byte, 0 for a byte that begins none. */
  function RuneLength(first: Byte): nat {
    if first <= 0x7F then 1
    else if 0xC2 <= first <= 0xDF then 2
    else if 0xE0 <= first <= 0xEF then 3
    else if 0xF0 <= first <= 0xF4 then 4
    else 0
  }

  predicate IsTail(b: Byte) {
    0x80 <= b <= 0xBF
  }

  /** Whether a byte may begin a character, well-formed or not. */
  predicate RuneStart(b: Byte) {
    !IsTail(b)
  }

  /** The range of the second byte keeps out overlong forms, surrogates and values too large. */
  predicate SecondFits(first: Byte, second: Byte) {
    if first == 0xE0 then 0xA0 <= second <= 0xBF
    else if first == 0xED then 0x80 <= second <= 0x9F
    else if first == 0xF0 then 0x90 <= second <= 0xBF
    else if first == 0xF4 then 0x80 <= second <= 0x8F
    else IsTail(second)
  }

  /** s is the beginning of a character's encoding, or all of it. */
  predicate BeginsRune(s: Bytes) {
    && 1 <= |s| <= RuneLength(s[0])
    && (|s| > 1 ==> SecondFits(s[0], s[1]))
    && (forall i :: 2 <= i < |s| ==> IsTail(s[i]))
  }

  predicate IsRune(s: Bytes) {
    BeginsRune(s) && |s| == RuneLength(s[0])
  }

  /** A Unicode scalar value: a code point that is no surrogate. */
  predicate IsScalar(c: int) {
    0 <= c < 0x11_0000 && !(0xD800 <= c < 0xE000)
  }

  function Tail(c: nat): Byte {
    0x80 + c % 64
  }

  /** The bytes of a scalar value, as section 3 of RFC 3629 gives them. */
  function EncodeScalar(c: int): Bytes
    requires IsScalar(c)
  {
    if c < 0x80 then [c]
    else if c < 0x800 then [0xC0 + c / 64, Tail(c)]
    else if c < 0x1_0000 then [0xE0 + c / 64 / 64, Tail(c / 64), Tail(c)]
    else [0xF0 + c / 64 / 64 / 64, Tail(c / 64 / 64), Tail(c / 64), Tail(c)]
  }

  /** Six more bits. */
  function Six(high: int, b: Byte): int {
    high * 64 + (b as int - 0x80)
  }

  lemma SixBits(high: nat, b: Byte)
    requires IsTail(b)
    ensures Six(high, b) / 64 == high && Tail(Six(high, b)) == b
  {
  }

  function DecodeScalar(s: Bytes): int
    requires IsRune(s)
  {
    var first: int := s[0];
    match |s|
    case 1 => first
    case 2 => Six(first - 0xC0, s[1])
    case 3 => Six(Six(first - 0xE0, s[1]), s[2])
    case _ => Six(Six(Six(first - 0xF0, s[1]), s[2]), s[3])
  }

  /** Exactly the encodings of scalar values are characters. */
  lemma RuneIff(s: Bytes)
    ensures IsRune(s) <==> exists c :: IsScalar(c) && EncodeScalar(c) == s
  {
    if IsRune(s) {
      DecodeEncodes(s);
    }
    if c :| IsScalar(c) && EncodeScalar(c) == s {
      EncodedIsRune(c);
    }
  }

  lemma EncodedIsRune(c: int)
    requires IsScalar(c)
    ensures IsRune(EncodeScalar(c))
  {
  }

  lemma DecodeEncodes(s: Bytes)
    requires IsRune(s)
    ensures IsScalar(DecodeScalar(s)) && EncodeScalar(DecodeScalar(s)) == s
  {
    match |s|
    case 1 =>
    case 2 => TwoBytes(s);
    case 3 => ThreeBytes(s);
    case _ => FourBytes(s);
  }

  lemma TwoBytes(s: Bytes)
    requires IsRune(s) && |s| == 2
    ensures IsScalar(DecodeScalar(s)) && EncodeScalar(DecodeScalar(s)) == s
  {
    SixBits(s[0] as int - 0xC0, s[1]);
  }

  lemma ThreeBytes(s: Bytes)
    requires IsRune(s) && |s| == 3
    ensures IsScalar(DecodeScalar(s)) && EncodeScalar(DecodeScalar(s)) == s
  {
    var high := Six(s[0] as int - 0xE0, s[1]);
    SixBits(s[0] as int - 0xE0, s[1]);
    SixBits(high, s[2]);
  }

  lemma FourBytes(s: Bytes)
    requires IsRune(s) && |s| == 4
    ensures IsScalar(DecodeScalar(s)) && EncodeScalar(DecodeScalar(s)) == s
  {
    var high := Six(s[0] as int - 0xF0, s[1]);
    SixBits(s[0] as int - 0xF0, s[1]);
    SixBits(high, s[2]);
    SixBits(Six(high, s[2]), s[3]);
  }

  predicate Valid(s: Bytes)
    decreases |s|
  {
    s == [] ||
    var n := RuneLength(s[0]);
    1 <= n <= |s| && IsRune(s[..n]) && Valid(s[n..])
  }

  /** Whether s begins with a whole encoding; one that can no longer become well-formed counts. */
  predicate FullRune(s: Bytes) {
    if s == [] then false
    else if |s| >= Max(RuneLength(s[0]), 1) then true
    else if |s| > 1 && !SecondFits(s[0], s[1]) then true
    else |s| > 2 && !IsTail(s[2])
  }

  /** A character is not whole exactly when it is a proper beginning of one. */
  lemma FullRuneIff(s: Bytes)
    ensures s != [] && |s| <= 3 ==> (!FullRune(s) <==> BeginsRune(s) && !IsRune(s))
  {
  }

  lemma {:induction false} ValidConcat(a: Bytes, b: Bytes)
    requires Valid(a) && Valid(b)
    ensures Valid(a + b)
    decreases |a|
  {
    hide IsRune;
    if a == [] {
      assert a + b == b;
    } else {
      var n := RuneLength(a[0]);
      assert (a + b)[..n] == a[..n] && (a + b)[n..] == a[n..] + b;
      ValidConcat(a[n..], b);
    }
  }

  /** What is left of valid text after a valid prefix is valid. */
  lemma {:induction false} ValidRest(s: Bytes, k: nat)
    requires Valid(s) && k <= |s| && Valid(s[..k])
    ensures Valid(s[k..])
    decreases |s|
  {
    hide IsRune;
    if k > 0 {
      var n := RuneLength(s[0]);
      assert s[..k][n..] == s[n..][..k - n];
      ValidRest(s[n..], k - n);
      assert s[n..][k - n..] == s[k..];
    } else {
      assert s[k..] == s;
    }
  }

  lemma FirstRune(s: Bytes, k: nat)
    requires s != [] && IsRune(s) && 0 < k < |s|
    ensures !RuneStart(s[k]) && RuneStart(s[0])
  {
  }

  /** In valid text a character begins exactly where the text before it is valid. */
  lemma {:induction false} BoundaryIff(s: Bytes, k: nat)
    requires Valid(s) && k < |s|
    ensures RuneStart(s[k]) <==> Valid(s[..k])
    decreases |s|
  {
    hide IsRune;
    var n := RuneLength(s[0]);
    var rune := s[..n];
    if k == 0 {
      assert RuneStart(s[0]);
    } else if k < n {
      FirstRune(rune, k);
      assert s[..k][0] == s[0];
    } else {
      BoundaryIff(s[n..], k - n);
      assert s[..k][n..] == s[n..][..k - n] && s[..k][..n] == rune;
      assert s[n..][k - n] == s[k];
    }
  }

  /** A boundary is never more than three bytes back. */
  lemma {:induction false} BoundaryNearby(s: Bytes, k: nat) returns (j: nat)
    requires Valid(s) && k <= |s|
    ensures k - 3 <= j <= k && Valid(s[..j])
    decreases |s|
  {
    hide IsRune;
    if s == [] {
      return 0;
    }
    var n := RuneLength(s[0]);
    if k < n {
      return 0;
    }
    var rest := BoundaryNearby(s[n..], k - n);
    j := n + rest;
    assert s[..j][n..] == s[n..][..rest] && s[..j][..n] == s[..n];
  }

  /** A beginning of valid text: whole characters, then at most a proper beginning of one. */
  lemma {:induction false} PrefixParts(s: Bytes, k: nat) returns (j: nat)
    requires Valid(s) && k <= |s|
    ensures k - 3 <= j <= k && Valid(s[..j])
    ensures j < k ==> BeginsRune(s[j..k]) && !IsRune(s[j..k])
    decreases |s|
  {
    hide IsRune, BeginsRune;
    if k == 0 {
      return 0;
    }
    var n := RuneLength(s[0]);
    if k < n {
      assert s[..n][..k] == s[0..k];
      RuneBegins(s[..n], k);
      RuneIsShort(s[..n]);
      return 0;
    }
    var rest := PrefixParts(s[n..], k - n);
    j := n + rest;
    SlicesShift(s, n, rest, k);
    ValidAfterRune(s, n, rest);
  }

  lemma SlicesShift(s: Bytes, n: nat, rest: nat, k: nat)
    requires n + rest <= k <= |s|
    ensures s[n..][rest..k - n] == s[n + rest..k]
  {
  }

  /** A character and valid text after it are valid. */
  lemma ValidAfterRune(s: Bytes, n: nat, rest: nat)
    requires s != [] && n == RuneLength(s[0]) && 1 <= n <= n + rest <= |s| && IsRune(s[..n]) && Valid(s[n..][..rest])
    ensures Valid(s[..n + rest])
  {
    hide IsRune;
    var whole := s[..n + rest];
    assert whole[n..] == s[n..][..rest] && whole[..n] == s[..n] && whole[0] == s[0];
  }

  lemma RuneIsShort(rune: Bytes)
    requires IsRune(rune)
    ensures |rune| <= 4
  {
  }

  lemma RuneBegins(rune: Bytes, k: nat)
    requires IsRune(rune) && 0 < k < |rune|
    ensures BeginsRune(rune[..k]) && !IsRune(rune[..k])
  {
  }

  /** The last character of valid text. */
  lemma {:induction false} LastRune(s: Bytes) returns (j: nat)
    requires Valid(s) && s != []
    ensures j < |s| && IsRune(s[j..]) && Valid(s[..j])
    decreases |s|
  {
    hide IsRune;
    var n := RuneLength(s[0]);
    if n == |s| {
      assert s[0..] == s[..n];
      return 0;
    }
    var rest := LastRune(s[n..]);
    j := n + rest;
    assert s[..j][n..] == s[n..][..rest] && s[..j][..n] == s[..n];
    assert s[n..][rest..] == s[j..];
  }
}
