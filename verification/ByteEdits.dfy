/** Replacing ranges of a byte string, given in any order. */
module ByteEdits {
  import opened Words

  /** Replaces body[start..end] with text; start == end inserts. */
  datatype Edit = Edit(start: int, end: int, text: Bytes)

  predicate InBody(e: Edit, length: nat) {
    0 <= e.start <= e.end <= length
  }

  predicate AllInBody(edits: seq<Edit>, length: nat) {
    forall e :: e in edits ==> InBody(e, length)
  }

  /** Of two edits in the order given: they do not overlap, and an insertion where the other starts
      comes first. */
  predicate Apart(a: Edit, b: Edit) {
    if a.start <= b.start then a.end <= b.start else b.end <= a.start
  }

  predicate AllApart(edits: seq<Edit>) {
    forall i, j :: 0 <= i < j < |edits| ==> Apart(edits[i], edits[j])
  }

  // What the edits mean, whatever their order

  /** What the edits put at a position, in the order given. */
  function TextAt(edits: seq<Edit>, p: int): Bytes {
    if edits == [] then []
    else TextAt(edits[..|edits| - 1], p) + if edits[|edits| - 1].start == p then edits[|edits| - 1].text else []
  }

  predicate Covered(edits: seq<Edit>, p: int) {
    exists e :: e in edits && e.start <= p < e.end
  }

  /** What the positions before p come to: at each, what the edits put there, then the byte itself
      unless an edit replaces it. */
  function EditedTo(body: Bytes, edits: seq<Edit>, p: nat): Bytes
    requires p <= |body|
  {
    if p == 0 then []
    else EditedTo(body, edits, p - 1) + TextAt(edits, p - 1) + if Covered(edits, p - 1) then [] else [body[p - 1]]
  }

  function Edited(body: Bytes, edits: seq<Edit>): Bytes {
    EditedTo(body, edits, |body|) + TextAt(edits, |body|)
  }

  /** How much the edits lengthen a body. */
  function Growth(edits: seq<Edit>): int {
    if edits == [] then 0
    else
      var last := edits[|edits| - 1];
      Growth(edits[..|edits| - 1]) + |last.text| - (last.end - last.start)
  }

  // Sorting

  /** Puts e in its place by start, after those that start where it does. */
  function Placed(sorted: seq<Edit>, e: Edit): seq<Edit> {
    if sorted == [] || sorted[|sorted| - 1].start <= e.start then sorted + [e]
    else Placed(sorted[..|sorted| - 1], e) + [sorted[|sorted| - 1]]
  }

  /** The edits by start, ties in the order given. */
  function Sorted(edits: seq<Edit>): seq<Edit> {
    if edits == [] then [] else Placed(Sorted(edits[..|edits| - 1]), edits[|edits| - 1])
  }

  predicate Ascending(edits: seq<Edit>) {
    forall i, j :: 0 <= i < j < |edits| ==> edits[i].start <= edits[j].start
  }

  lemma {:induction false} PlacedMembers(sorted: seq<Edit>, e: Edit)
    ensures forall x :: x in Placed(sorted, e) <==> x in sorted || x == e
    ensures |Placed(sorted, e)| == |sorted| + 1
    ensures Growth(Placed(sorted, e)) == Growth(sorted) + |e.text| - (e.end - e.start)
  {
    if sorted == [] || sorted[|sorted| - 1].start <= e.start {
      assert (sorted + [e])[..|sorted|] == sorted;
    } else {
      var front, last := sorted[..|sorted| - 1], sorted[|sorted| - 1];
      PlacedMembers(front, e);
      assert sorted == front + [last];
      assert (Placed(front, e) + [last])[..|Placed(front, e)|] == Placed(front, e);
    }
  }

  lemma AscendingWithLast(front: seq<Edit>, last: Edit)
    ensures Ascending(front + [last]) <==> Ascending(front) && forall x :: x in front ==> x.start <= last.start
  {
    var all := front + [last];
    if Ascending(all) {
      forall x | x in front
        ensures x.start <= last.start
      {
        var i :| 0 <= i < |front| && front[i] == x;
        assert all[i].start <= all[|front|].start;
      }
      assert forall i, j :: 0 <= i < j < |front| ==> front[i] == all[i] && front[j] == all[j];
    }
  }

  lemma {:induction false} PlacedAscends(sorted: seq<Edit>, e: Edit)
    requires Ascending(sorted)
    ensures Ascending(Placed(sorted, e))
  {
    if sorted == [] || sorted[|sorted| - 1].start <= e.start {
      AscendingWithLast(sorted, e);
    } else {
      var front, last := sorted[..|sorted| - 1], sorted[|sorted| - 1];
      assert sorted == front + [last];
      AscendingWithLast(front, last);
      PlacedAscends(front, e);
      PlacedMembers(front, e);
      AscendingWithLast(Placed(front, e), last);
    }
  }

  lemma PlacedIs(sorted: seq<Edit>, e: Edit)
    ensures Placed(sorted, e) ==
            if sorted == [] || sorted[|sorted| - 1].start <= e.start then sorted + [e]
            else Placed(sorted[..|sorted| - 1], e) + [sorted[|sorted| - 1]]
  {
  }

  /** Placing is stable: at every position the new text goes after the texts already there. */
  lemma {:induction false} PlacedText(sorted: seq<Edit>, e: Edit, p: int)
    ensures TextAt(Placed(sorted, e), p) == TextAt(sorted + [e], p)
  {
    hide TextAt, Placed;
    PlacedIs(sorted, e);
    if sorted != [] && sorted[|sorted| - 1].start > e.start {
      var front, last := sorted[..|sorted| - 1], sorted[|sorted| - 1];
      PlacedText(front, e, p);
      assert sorted == front + [last];
      OneMoreText(Placed(front, e), last, p);
      OneMoreText(front, e, p);
      OneMoreText(sorted, e, p);
      OneMoreText(front, last, p);
    }
  }

  lemma ApartWithLast(front: seq<Edit>, last: Edit)
    ensures AllApart(front + [last]) <==> AllApart(front) && forall x :: x in front ==> Apart(x, last)
  {
    var all := front + [last];
    if AllApart(all) {
      forall i, j | 0 <= i < j < |front|
        ensures Apart(front[i], front[j])
      {
        assert Apart(all[i], all[j]);
      }
      forall x | x in front
        ensures Apart(x, last)
      {
        var i :| 0 <= i < |front| && front[i] == x;
        assert Apart(all[i], all[|front|]);
      }
    }
  }

  /** Placing an edit keeps apart exactly what was. */
  lemma {:induction false} PlacedApart(sorted: seq<Edit>, e: Edit)
    ensures AllApart(Placed(sorted, e)) <==> AllApart(sorted + [e])
  {
    if sorted != [] && sorted[|sorted| - 1].start > e.start {
      var front, last := sorted[..|sorted| - 1], sorted[|sorted| - 1];
      assert sorted == front + [last];
      PlacedApart(front, e);
      PlacedMembers(front, e);
      ApartWithLast(Placed(front, e), last);
      ApartWithLast(front, e);
      ApartWithLast(front, last);
      ApartWithLast(sorted, e);
      assert Apart(e, last) <==> Apart(last, e);
      hide Apart;
      assert (forall x :: x in sorted ==> Apart(x, e)) <==> (forall x :: x in front ==> Apart(x, e)) && Apart(last, e);
    }
  }

  lemma {:induction false} SortedMembers(edits: seq<Edit>)
    ensures forall x :: x in Sorted(edits) <==> x in edits
    ensures |Sorted(edits)| == |edits| && Growth(Sorted(edits)) == Growth(edits)
    ensures Ascending(Sorted(edits))
  {
    hide Ascending;
    if edits == [] {
      NothingAscends();
    } else {
      var front, last := edits[..|edits| - 1], edits[|edits| - 1];
      assert edits == front + [last];
      SortedMembers(front);
      PlacedMembers(Sorted(front), last);
      PlacedAscends(Sorted(front), last);
    }
  }

  lemma NothingAscends()
    ensures Ascending([])
  {
  }

  lemma {:induction false} SortedApart(edits: seq<Edit>)
    ensures AllApart(Sorted(edits)) <==> AllApart(edits)
  {
    hide Apart;
    if edits != [] {
      var front, last := edits[..|edits| - 1], edits[|edits| - 1];
      assert edits == front + [last];
      SortedApart(front);
      SortedMembers(front);
      PlacedApart(Sorted(front), last);
      ApartWithLast(Sorted(front), last);
      ApartWithLast(front, last);
    }
  }

  lemma {:induction false} SortedText(edits: seq<Edit>, p: int)
    ensures TextAt(Sorted(edits), p) == TextAt(edits, p)
  {
    if edits != [] {
      var front, last := edits[..|edits| - 1], edits[|edits| - 1];
      SortedText(front, p);
      PlacedText(Sorted(front), last, p);
      assert (Sorted(front) + [last])[..|Sorted(front)|] == Sorted(front);
    }
  }

  /** Sorting changes nothing about what the edits mean. */
  lemma {:induction false} SortedEdits(body: Bytes, edits: seq<Edit>, p: nat)
    requires p <= |body|
    ensures EditedTo(body, Sorted(edits), p) == EditedTo(body, edits, p)
  {
    hide TextAt, Sorted;
    if p > 0 {
      SortedEdits(body, edits, p - 1);
      SortedText(edits, p - 1);
      SortedMembers(edits);
      assert Covered(Sorted(edits), p - 1) <==> Covered(edits, p - 1);
    }
  }

  // Splicing in order

  lemma {:induction false} NoText(edits: seq<Edit>, p: int)
    requires forall e :: e in edits ==> e.start != p
    ensures TextAt(edits, p) == []
  {
    if edits != [] {
      NoText(edits[..|edits| - 1], p);
    }
  }

  /** Past the last edit the body goes on as it was. */
  lemma {:induction false} Untouched(body: Bytes, edits: seq<Edit>, last: nat, p: nat)
    requires last <= p <= |body|
    requires forall e :: e in edits ==> e.start <= e.end <= last
    ensures EditedTo(body, edits, p) + TextAt(edits, p) ==
              EditedTo(body, edits, last) + TextAt(edits, last) + body[last..p]
  {
    hide TextAt;
    if last < p {
      Untouched(body, edits, last, p - 1);
      NoText(edits, p);
      assert !Covered(edits, p - 1);
      assert body[last..p] == body[last..p - 1] + [body[p - 1]];
    }
  }

  lemma OneMoreText(edits: seq<Edit>, e: Edit, p: int)
    ensures TextAt(edits + [e], p) == TextAt(edits, p) + if e.start == p then e.text else []
  {
  }

  /** A later edit changes nothing before it. */
  lemma {:induction false} LaterEdit(body: Bytes, edits: seq<Edit>, e: Edit, p: nat)
    requires p <= |body| && p <= e.start
    ensures EditedTo(body, edits + [e], p) == EditedTo(body, edits, p)
  {
    hide TextAt, Covered;
    if p > 0 {
      LaterEdit(body, edits, e, p - 1);
      OneMoreText(edits, e, p - 1);
      LaterCovers(edits, e, p - 1);
    }
  }

  lemma LaterCovers(edits: seq<Edit>, e: Edit, p: int)
    requires p < e.start
    ensures Covered(edits + [e], p) <==> Covered(edits, p)
  {
    if Covered(edits, p) {
      var x :| x in edits && x.start <= p < x.end;
      assert x in edits + [e];
    }
  }

  /** The range an edit replaces comes to its text. */
  lemma {:induction false} Replaced(body: Bytes, edits: seq<Edit>, e: Edit, p: nat)
    requires e in edits && 0 <= e.start <= p <= e.end && p <= |body|
    requires forall x :: x in edits ==> x.start <= e.start
    ensures EditedTo(body, edits, p) + TextAt(edits, p) == EditedTo(body, edits, e.start) + TextAt(edits, e.start)
  {
    hide TextAt;
    if e.start < p {
      Replaced(body, edits, e, p - 1);
      NoText(edits, p);
      assert Covered(edits, p - 1);
    }
  }

  /** One more edit, starting no earlier than the others end. */
  lemma OneMoreEdit(body: Bytes, edits: seq<Edit>, e: Edit, last: nat)
    requires forall x :: x in edits ==> x.start <= x.end <= last
    requires last <= e.start <= e.end <= |body|
    ensures EditedTo(body, edits + [e], e.end) + TextAt(edits + [e], e.end) ==
            EditedTo(body, edits, last) + TextAt(edits, last) + body[last..e.start] + e.text
  {
    hide EditedTo, TextAt;
    Untouched(body, edits, last, e.start);
    LaterEdit(body, edits, e, e.start);
    OneMoreText(edits, e, e.start);
    assert e in edits + [e];
    Replaced(body, edits + [e], e, e.end);
  }

  method SortStable(edits: seq<Edit>) returns (sorted: seq<Edit>)
    ensures sorted == Sorted(edits)
  {
    sorted := [];
    for i := 0 to |edits|
      invariant sorted == Sorted(edits[..i])
    {
      assert edits[..i + 1][..i] == edits[..i];
      sorted := Placed(sorted, edits[i]);
    }
    assert edits[..|edits|] == edits;
  }

  /** Where splicing stands after the first k edits. */
  ghost predicate SplicedTo(body: Bytes, sorted: seq<Edit>, k: nat, last: nat, result: Bytes) {
    && k <= |sorted| && last <= |body|
    && (forall i :: 0 <= i < k ==> sorted[i].start <= sorted[i].end <= last)
    && (forall i, j :: 0 <= i < j < k ==> sorted[i].end <= sorted[j].start)
    && last == (if k > 0 then sorted[k - 1].end else 0)
    && result == EditedTo(body, sorted[..k], last) + TextAt(sorted[..k], last)
    && |result| == last + Growth(sorted[..k])
  }

  lemma SpliceNext(body: Bytes, sorted: seq<Edit>, k: nat, last: nat, result: Bytes)
    requires SplicedTo(body, sorted, k, last, result) && k < |sorted|
    requires last <= sorted[k].start <= sorted[k].end <= |body|
    ensures SplicedTo(body, sorted, k + 1, sorted[k].end, result + body[last..sorted[k].start] + sorted[k].text)
  {
    hide EditedTo, TextAt, Growth;
    var front, e := sorted[..k], sorted[k];
    forall x | x in front
      ensures x.start <= x.end <= last
    {
    }
    assert sorted[..k + 1] == front + [e];
    OneMoreEdit(body, front, e, last);
    GrowthAppend(front, e);
  }

  lemma SpliceOverlaps(body: Bytes, sorted: seq<Edit>, k: nat, last: nat, result: Bytes)
    requires SplicedTo(body, sorted, k, last, result) && k < |sorted| && Ascending(sorted)
    requires 0 <= sorted[k].start < last
    ensures !AllApart(sorted)
  {
  }

  lemma SpliceEnds(body: Bytes, sorted: seq<Edit>, last: nat, result: Bytes)
    requires SplicedTo(body, sorted, |sorted|, last, result)
    ensures AllApart(sorted)
    ensures result + body[last..] == Edited(body, sorted) && |result + body[last..]| == |body| + Growth(sorted)
  {
    hide EditedTo, TextAt, Growth;
    assert sorted[..|sorted|] == sorted;
    forall i, j | 0 <= i < j < |sorted|
      ensures Apart(sorted[i], sorted[j])
    {
      assert sorted[i].end <= sorted[j].start;
    }
    Untouched(body, sorted, last, |body|);
  }

  /** Splices sorted edits in, one after the other. */
  method SpliceSorted(body: Bytes, sorted: seq<Edit>) returns (out: Option<Bytes>)
    requires AllInBody(sorted, |body|) && Ascending(sorted)
    ensures out.Some? <==> AllApart(sorted)
    ensures out.Some? ==> out.value == Edited(body, sorted) && |out.value| == |body| + Growth(sorted)
  {
    hide *;
    var result: Bytes := [];
    var last := 0;
    NothingSpliced(body, sorted);
    for k := 0 to |sorted|
      invariant 0 <= last <= |body| && SplicedTo(body, sorted, k, last, result)
    {
      var e := sorted[k];
      EditInBody(sorted, k, |body|);
      if e.start < last {
        SpliceOverlaps(body, sorted, k, last, result);
        return None;
      }
      SpliceNext(body, sorted, k, last, result);
      result := result + body[last..e.start] + e.text;
      last := e.end;
    }
    SpliceEnds(body, sorted, last, result);
    return Some(result + body[last..]);
  }

  /** Makes the edits. Overlapping ones have no result: slicing the body fails. */
  method ApplyEdits(body: Bytes, edits: seq<Edit>) returns (out: Option<Bytes>)
    requires AllInBody(edits, |body|)
    ensures out.Some? <==> AllApart(edits)
    ensures out.Some? ==> out.value == Edited(body, edits) && |out.value| == |body| + Growth(edits)
  {
    if |edits| == 0 {
      Unedited(body, |body|);
      return Some(body);
    }
    hide *;
    var sorted := SortStable(edits);
    SortedMeansSame(body, edits);
    out := SpliceSorted(body, sorted);
  }

  lemma EditInBody(edits: seq<Edit>, k: nat, length: nat)
    requires AllInBody(edits, length) && k < |edits|
    ensures 0 <= edits[k].start <= edits[k].end <= length
  {
    assert edits[k] in edits;
  }

  lemma SortedMeansSame(body: Bytes, edits: seq<Edit>)
    ensures AllInBody(edits, |body|) ==> AllInBody(Sorted(edits), |body|)
    ensures Ascending(Sorted(edits)) && (AllApart(Sorted(edits)) <==> AllApart(edits))
    ensures Edited(body, Sorted(edits)) == Edited(body, edits) && Growth(Sorted(edits)) == Growth(edits)
  {
    hide EditedTo, TextAt, Sorted, Growth, AllApart, Ascending;
    SortedMembers(edits);
    SortedApart(edits);
    SortedEdits(body, edits, |body|);
    SortedText(edits, |body|);
  }

  lemma NothingSpliced(body: Bytes, sorted: seq<Edit>)
    ensures SplicedTo(body, sorted, 0, 0, [])
  {
  }

  lemma GrowthAppend(edits: seq<Edit>, e: Edit)
    ensures Growth(edits + [e]) == Growth(edits) + |e.text| - (e.end - e.start)
  {
  }

  lemma {:induction false} Unedited(body: Bytes, p: nat)
    requires p <= |body|
    ensures EditedTo(body, [], p) == body[..p]
  {
    if p > 0 {
      Unedited(body, p - 1);
      assert body[..p] == body[..p - 1] + [body[p - 1]];
    }
  }

  // In any order

  predicate DistinctStarts(edits: seq<Edit>) {
    forall i, j :: 0 <= i < j < |edits| ==> edits[i].start != edits[j].start
  }

  lemma {:induction false} OwnText(edits: seq<Edit>, i: nat)
    requires DistinctStarts(edits) && i < |edits|
    ensures TextAt(edits, edits[i].start) == edits[i].text
  {
    var front, last := edits[..|edits| - 1], edits[|edits| - 1];
    if i == |front| {
      NoText(front, last.start);
    } else {
      OwnText(front, i);
    }
  }

  lemma SameText(a: seq<Edit>, b: seq<Edit>, p: int)
    requires DistinctStarts(a) && DistinctStarts(b) && forall e :: e in a <==> e in b
    ensures TextAt(a, p) == TextAt(b, p)
  {
    if i :| 0 <= i < |a| && a[i].start == p {
      OwnText(a, i);
      assert a[i] in b;
      var j :| 0 <= j < |b| && b[j] == a[i];
      OwnText(b, j);
    } else {
      NoText(a, p);
      NoText(b, p);
    }
  }

  /** Edits that start apart mean the same in whatever order they are given. */
  lemma {:induction false} OrderIsFree(body: Bytes, a: seq<Edit>, b: seq<Edit>, p: nat)
    requires DistinctStarts(a) && DistinctStarts(b) && (forall e :: e in a <==> e in b) && p <= |body|
    ensures EditedTo(body, a, p) == EditedTo(body, b, p)
    ensures Edited(body, a) == Edited(body, b) || p < |body|
  {
    hide TextAt;
    if p > 0 {
      OrderIsFree(body, a, b, p - 1);
      SameText(a, b, p - 1);
      assert Covered(a, p - 1) <==> Covered(b, p - 1);
    }
    if p == |body| {
      SameText(a, b, p);
    }
  }
}
