/** Keeping a bounded prefix of a body: text cut between characters, anything else as bytes. */
module Capture {
  import opened Words
  import opened Utf8
  import opened LogRecord
  import opened Prepare
  import opened LogStore

  const UTF_MAX := 4

  /** The longest prefix of at most limit bytes that is valid text. */
  ghost predicate IsLongestText(body: Bytes, limit: nat, k: nat) {
    && k <= limit <= |body| && Valid(body[..k])
    && forall j: nat :: k < j <= limit ==> !Valid(body[..j])
  }

  /** A prefix of at most three bytes less is text and not empty. */
  ghost predicate NearlyText(body: Bytes, limit: nat) {
    limit <= |body| && exists k: nat :: limit - 3 <= k <= limit && k > 0 && Valid(body[..k])
  }

  /** The body is all there: its longest text prefix within the budget, or nothing if it is no text. */
  method WholeTextPrefix(body: Bytes, limit: nat) returns (cutoff: nat, ok: bool)
    requires limit <= |body|
    ensures ok <==> Valid(body)
    ensures ok ==> IsLongestText(body, limit, cutoff) && limit - 3 <= cutoff
  {
    if !Valid(body) {
      return 0, false;
    }
    assert body[..|body|] == body;
    cutoff := limit;
    while 0 < cutoff < |body| && !RuneStart(body[cutoff])
      invariant cutoff <= limit
      invariant forall j: nat :: cutoff < j <= limit ==> j < |body| && !Valid(body[..j])
      decreases cutoff
    {
      BoundaryIff(body, cutoff);
      cutoff := cutoff - 1;
    }
    if cutoff < |body| && cutoff > 0 {
      BoundaryIff(body, cutoff);
    }
    var near := BoundaryNearby(body, limit);
    return cutoff, true;
  }

  /** Only a prefix of the body is there: up to three bytes of a partial character are dropped. */
  method PartialTextPrefix(slice: Bytes) returns (length: nat, ok: bool)
    requires slice != []
    ensures ok <==> NearlyText(slice, |slice|)
    ensures ok ==> IsLongestText(slice, |slice|, length) && |slice| - 3 <= length && length > 0
  {
    var back := 0;
    while back < UTF_MAX && back <= |slice|
      invariant 0 <= back <= UTF_MAX && back <= |slice| + 1
      invariant forall j: nat :: |slice| - back < j <= |slice| ==> !Valid(slice[..j])
    {
      if Valid(slice[..|slice| - back]) {
        length := |slice| - back;
        return length, length > 0;
      }
      back := back + 1;
    }
    return 0, false;
  }

  method ValidTextPrefix(body: Bytes, limit: nat, originalLength: nat) returns (text: Bytes, ok: bool)
    requires body != [] && limit <= |body|
    ensures |body| == originalLength ==> (ok <==> Valid(body))
    ensures |body| != originalLength && limit > 0 ==> (ok <==> NearlyText(body, limit))
    ensures ok && limit > 0 ==> text <= body && IsLongestText(body, limit, |text|) && limit - 3 <= |text|
    ensures limit == 0 ==> text == [] && (|body| != originalLength ==> ok)
  {
    if |body| == originalLength {
      var cutoff;
      cutoff, ok := WholeTextPrefix(body, limit);
      return if ok then body[..cutoff] else [], ok;
    }
    if limit == 0 {
      return [], true;
    }
    var slice := body[..limit];
    assert forall j: nat :: j <= limit ==> slice[..j] == body[..j];
    var length;
    length, ok := PartialTextPrefix(slice);
    return if ok then slice[..length] else [], ok;
  }

  /** Keeps up to budget bytes of a body, of which body is a prefix or all. */
  method CaptureBody(body: Bytes, budget: nat, originalLength: nat) returns (captured: Body)
    ensures |body| <= originalLength <= MAX_LENGTH && |body| < MAX_CAPTURED ==> Capturable(captured)
    ensures budget == 0 ==> captured == Body(KIND_OMITTED, [], originalLength, false)
    ensures budget > 0 && body == [] ==> captured == Body(KIND_TEXT, [], originalLength, false)
    ensures budget > 0 && body != [] ==>
              var limit := Min(|body|, budget);
              var isText := if |body| == originalLength then Valid(body) else NearlyText(body, limit);
              && captured.length == originalLength && captured.data <= body
              && captured.kind == (if isText then KIND_TEXT else KIND_BINARY)
              && (if isText then IsLongestText(body, limit, |captured.data|) && limit - 3 <= |captured.data|
                   else |captured.data| == limit)
              && captured.truncated == (|captured.data| < originalLength)
  {
    if budget == 0 {
      return Body(KIND_OMITTED, [], originalLength, false);
    }
    if |body| == 0 {
      return Body(KIND_TEXT, [], originalLength, false);
    }
    var slice := body[..Min(|body|, budget)];
    var text, ok := ValidTextPrefix(body, |slice|, originalLength);
    if ok {
      return Body(KIND_TEXT, text, originalLength, |text| < originalLength);
    }
    return Body(KIND_BINARY, slice, originalLength, |slice| < originalLength);
  }

  lemma ShortIsNotText(s: Bytes, k: nat)
    requires 0 < k <= |s| && k < RuneLength(s[0])
    ensures !Valid(s[..k])
  {
  }

  /** A beginning of valid text is taken for text, unless what is kept of it is less than its first
      character. */
  lemma TextPrefixIsText(s: Bytes, body: Bytes, limit: nat)
    requires Valid(s) && body <= s && 0 < limit <= |body|
    ensures NearlyText(body, limit) <==> RuneLength(s[0]) <= limit
  {
    var j := BoundaryNearby(s, limit);
    assert forall k: nat :: k <= limit ==> body[..k] == s[..k];
    var n := RuneLength(s[0]);
    if n <= limit {
      if j == 0 {
        assert s[..n][..n] == s[..n] && s[..n][n..] == [];
        assert Valid(s[..n]);
        assert Valid(body[..n]);
      } else {
        assert Valid(body[..j]);
      }
    } else {
      forall k: nat | 0 < k <= limit
        ensures !Valid(body[..k])
      {
        ShortIsNotText(body, k);
      }
    }
  }
}
