/** Spreading a channel's requests over its keys, sitting out the keys the upstream refused. */
module Keys {
  import opened Words
  import opened Division

  /** Times and waits are in nanoseconds. */
  const SECOND := 1_000_000_000
  const KEY_COOLDOWN_BASE := 10 * SECOND
  const KEY_COOLDOWN_MAX := 300 * SECOND

  datatype Key = Key(id: int, secret: string)

  /** A key's run of refusals, and when the last of them ends. */
  datatype KeyBench = KeyBench(refusals: nat, until: int)

  datatype Picked = NoKey | Picked(key: Key, benched: bool)

  // What picking chooses

  /** The i-th slot from a rotation position; positions are 64-bit and wrap. */
  function Slot(start: nat, i: nat, n: nat): (r: nat)
    requires n > 0
    ensures r < n
  {
    (start + i) % TWO_64 % n
  }

  /** The first key not barred, in rotation from the position. */
  function FirstFrom(keys: seq<Key>, start: nat, i: nat, barred: set<int>): Option<Key>
    requires i <= |keys|
    decreases |keys| - i
  {
    if i == |keys| then None
    else
      var candidate := keys[Slot(start, i, |keys|)];
      if candidate.id !in barred then Some(candidate) else FirstFrom(keys, start, i + 1, barred)
  }

  function Chosen(keys: seq<Key>, start: nat, refused: set<int>, out: set<int>): Picked {
    match FirstFrom(keys, start, 0, refused + out)
    case Some(key) => Picked(key, false)
    case None =>
      match FirstFrom(keys, start, 0, refused)
      case Some(key) => Picked(key, true)
      case None => NoKey
  }

  predicate AnyBut(keys: seq<Key>, barred: set<int>) {
    exists k :: 0 <= k < |keys| && keys[k].id !in barred
  }

  lemma {:induction false} FirstFromIff(keys: seq<Key>, start: nat, i: nat, barred: set<int>)
    requires i <= |keys|
    ensures FirstFrom(keys, start, i, barred).Some? <==>
            exists j :: i <= j < |keys| && keys[Slot(start, j, |keys|)].id !in barred
    ensures FirstFrom(keys, start, i, barred).Some? ==>
              FirstFrom(keys, start, i, barred).value in keys && FirstFrom(keys, start, i, barred).value.id !in barred
    decreases |keys| - i
  {
    if i < |keys| {
      FirstFromIff(keys, start, i + 1, barred);
    }
  }

  /** Which key is chosen: never a refused one, one sitting out only for want of another. */
  lemma ChosenMeaning(keys: seq<Key>, start: nat, refused: set<int>, out: set<int>)
    ensures var c := Chosen(keys, start, refused, out);
            && (c.Picked? ==> c.key in keys && c.key.id !in refused && (c.benched <==> c.key.id in out))
  {
    FirstFromIff(keys, start, 0, refused + out);
    FirstFromIff(keys, start, 0, refused);
    if FirstFrom(keys, start, 0, refused + out).None? && FirstFrom(keys, start, 0, refused).Some? {
      FirstFromOneOf(keys, start, 0, refused, out);
    }
  }

  lemma {:induction false} FirstFromOneOf(keys: seq<Key>, start: nat, i: nat, refused: set<int>, out: set<int>)
    requires i <= |keys| && FirstFrom(keys, start, i, refused + out).None? && FirstFrom(keys, start, i, refused).Some?
    ensures FirstFrom(keys, start, i, refused).value.id in out
    decreases |keys| - i
  {
    if keys[Slot(start, i, |keys|)].id in refused {
      FirstFromOneOf(keys, start, i + 1, refused, out);
    }
  }

  // A rotation visits every key, unless the position wraps meanwhile

  /** The position does not wrap within the next n, or wraps to where it would have been. */
  predicate Unbroken(start: nat, n: nat)
    requires n > 0
  {
    start + n <= TWO_64 || TWO_64 % n == 0
  }

  predicate Visited(start: nat, n: nat, k: nat)
    requires n > 0
  {
    exists i :: 0 <= i < n && Slot(start, i, n) == k
  }

  lemma SlotVisits(start: nat, i: nat, n: nat, k: nat)
    requires n > 0 && i < n && start < TWO_64 && n <= TWO_64 && k < n && Unbroken(start, n)
    requires (start + i) % n == k
    ensures Slot(start, i, n) == k
  {
    if start + i >= TWO_64 {
      var q := TWO_64 / n;
      var x := start + i - TWO_64;
      var d := (start + i) / n;
      assert TWO_64 == n * q;
      assert x == n * (d - q) + k by {
        assert start + i == n * d + k;
        assert n * (d - q) == n * d - n * q;
      }
      DivisionIs(x, n, d - q, k);
    }
  }

  /** The offset that reaches slot k from a position. */
  lemma OffsetTo(start: nat, n: nat, k: nat) returns (i: nat)
    requires k < n
    ensures i < n && (start + i) % n == k
  {
    var low := start % n;
    i := if k >= low then k - low else k + n - low;
    var d := start / n;
    assert start == n * d + low;
    if k >= low {
      DivisionIs(start + i, n, d, k);
    } else {
      assert n * (d + 1) == n * d + n;
      DivisionIs(start + i, n, d + 1, k);
    }
  }

  /** Which slot a broken rotation misses. */
  lemma MissedSlot(start: nat, n: nat) returns (k: nat)
    requires 0 < n <= TWO_64 && start < TWO_64 && !Unbroken(start, n)
    ensures k < n && !Visited(start, n, k)
  {
    var r, m := TWO_64 % n, start + n - TWO_64;
    k := Max(r, m);
    forall i | 0 <= i < n
      ensures Slot(start, i, n) != k
    {
      if start + i < TWO_64 {
        SlotBeforeWrap(start, i, n, r, m, k);
      } else {
        var x := start + i - TWO_64;
        assert n * 0 == 0;
        DivisionIs(x, n, 0, x);
      }
    }
  }

  lemma SlotBeforeWrap(start: nat, i: nat, n: nat, r: nat, m: nat, k: nat)
    requires 0 < n <= TWO_64 && i < n && start + i < TWO_64 && r == TWO_64 % n && m == start + n - TWO_64
    requires 0 < m < n && r <= k < r + m && k < n
    ensures Slot(start, i, n) != k
  {
    var x := start + i;
    var e := TWO_64 / n - x / n;
    assert TWO_64 == n * (TWO_64 / n) + r && x == n * (x / n) + x % n;
    assert n * e == n * (TWO_64 / n) - n * (x / n);
    assert n * e == TWO_64 - x + x % n - r;
    Multiples(n, e);
  }

  /** Any |keys| positions in a row are each key's once, exactly when the rotation is unbroken. */
  lemma RotationIff(start: nat, n: nat)
    requires 0 < n <= TWO_64 && start < TWO_64
    ensures (forall k :: 0 <= k < n ==> Visited(start, n, k)) <==> Unbroken(start, n)
    ensures Unbroken(start, n) ==> forall i, j :: 0 <= i < j < n ==> Slot(start, i, n) != Slot(start, j, n)
  {
    if Unbroken(start, n) {
      forall k | 0 <= k < n
        ensures Visited(start, n, k)
      {
        var i := OffsetTo(start, n, k);
        SlotVisits(start, i, n, k);
      }
      forall i, j | 0 <= i < j < n
        ensures Slot(start, i, n) != Slot(start, j, n)
      {
        SlotVisits(start, i, n, (start + i) % n);
        SlotVisits(start, j, n, (start + j) % n);
        DistinctRemainders(start + i, start + j, n);
      }
    } else {
      var k := MissedSlot(start, n);
    }
  }

  lemma DistinctRemainders(a: nat, b: nat, n: nat)
    requires a < b < a + n
    ensures a % n != b % n
  {
    var d := b / n - a / n;
    assert a == n * (a / n) + a % n && b == n * (b / n) + b % n;
    assert n * d == n * (b / n) - n * (a / n);
    assert n * d == (b - a) - (b % n - a % n);
    Multiples(n, d);
  }

  /** Picking finds a key whenever looking at all of them would, whichever are barred, exactly when
      the rotation is unbroken. */
  lemma PickFindsIff(keys: seq<Key>, start: nat)
    requires 0 < |keys| <= TWO_64 && start < TWO_64
    requires forall i, j :: 0 <= i < j < |keys| ==> keys[i].id != keys[j].id
    ensures (forall barred :: FirstFrom(keys, start, 0, barred).Some? <==> AnyBut(keys, barred)) <==>
              Unbroken(start, |keys|)
  {
    if Unbroken(start, |keys|) {
      forall barred
        ensures FirstFrom(keys, start, 0, barred).Some? <==> AnyBut(keys, barred)
      {
        UnbrokenFinds(keys, start, barred);
      }
    } else {
      var k := MissedSlot(start, |keys|);
      var barred := (set j | 0 <= j < |keys| :: keys[j].id) - {keys[k].id};
      FirstFromIff(keys, start, 0, barred);
      assert AnyBut(keys, barred);
    }
  }

  lemma UnbrokenFinds(keys: seq<Key>, start: nat, barred: set<int>)
    requires 0 < |keys| <= TWO_64 && start < TWO_64 && Unbroken(start, |keys|)
    ensures FirstFrom(keys, start, 0, barred).Some? <==> AnyBut(keys, barred)
  {
    FirstFromIff(keys, start, 0, barred);
    RotationIff(start, |keys|);
    if AnyBut(keys, barred) {
      var k :| 0 <= k < |keys| && keys[k].id !in barred;
      assert Visited(start, |keys|, k);
    }
  }

  /** With no key refused or sitting out, the picks from a position on. */
  function Picks(keys: seq<Key>, start: nat, count: nat): (r: seq<Picked>)
    requires start < TWO_64
    ensures |r| == count
    decreases count
  {
    if count == 0 then [] else [Chosen(keys, start, {}, {})] + Picks(keys, (start + 1) % TWO_64, count - 1)
  }

  lemma {:induction false} PickAt(keys: seq<Key>, start: nat, count: nat, i: nat)
    requires start < TWO_64 && i < count && 0 < |keys|
    ensures Picks(keys, start, count)[i] == Picked(keys[Slot(start, i, |keys|)], false)
    decreases i
  {
    hide Chosen, Slot;
    NextSlot(start, i, |keys|);
    if i > 0 {
      PickAt(keys, (start + 1) % TWO_64, count - 1, i - 1);
    } else {
      ChosenFirst(keys, start);
    }
  }

  lemma NextSlot(start: nat, i: nat, n: nat)
    requires n > 0 && start < TWO_64
    ensures i > 0 ==> Slot((start + 1) % TWO_64, i - 1, n) == Slot(start, i, n)
  {
    if i > 0 {
      NextPosition(start, i);
    }
  }

  lemma NextPosition(start: nat, i: nat)
    requires start < TWO_64 && i > 0
    ensures ((start + 1) % TWO_64 + (i - 1)) % TWO_64 == (start + i) % TWO_64
  {
  }

  lemma ChosenFirst(keys: seq<Key>, start: nat)
    requires 0 < |keys|
    ensures Chosen(keys, start, {}, {}) == Picked(keys[Slot(start, 0, |keys|)], false)
  {
  }

  /** |keys| picks in a row return each key once while the rotation is unbroken. */
  lemma EachKeyOnce(keys: seq<Key>, start: nat, k: nat)
    requires k < |keys| <= TWO_64 && start < TWO_64 && Unbroken(start, |keys|)
    requires forall i, j :: 0 <= i < j < |keys| ==> keys[i] != keys[j]
    ensures exists i :: 0 <= i < |keys| && Picks(keys, start, |keys|)[i] == Picked(keys[k], false)
    ensures forall i, j :: 0 <= i < j < |keys| ==> Picks(keys, start, |keys|)[i] != Picks(keys, start, |keys|)[j]
  {
    RotationIff(start, |keys|);
    forall i | 0 <= i < |keys|
      ensures Picks(keys, start, |keys|)[i] == Picked(keys[Slot(start, i, |keys|)], false)
    {
      PickAt(keys, start, |keys|, i);
    }
    assert Visited(start, |keys|, k);
    var i :| 0 <= i < |keys| && Slot(start, i, |keys|) == k;
    assert Picks(keys, start, |keys|)[i] == Picked(keys[k], false);
  }

  // Sitting out

  function Doubled(base: int, times: nat): int {
    if times == 0 then base else 2 * Doubled(base, times - 1)
  }

  /** How long a key's nth refusal in a row sits it out. */
  function BenchWait(refusals: nat, retryAfter: int): int
    requires refusals >= 1
  {
    var wait := if retryAfter > 0 then retryAfter else Doubled(KEY_COOLDOWN_BASE, Min(refusals - 1, 5));
    Min(wait, KEY_COOLDOWN_MAX)
  }

  lemma {:induction false} DoubledGrows(base: int, low: nat, high: nat)
    requires base > 0 && low <= high
    ensures 0 < Doubled(base, low) <= Doubled(base, high)
    decreases high
  {
    if high > 0 {
      if low == high {
        DoubledGrows(base, low - 1, high - 1);
      } else {
        DoubledGrows(base, low, high - 1);
      }
    }
  }

  /** Every wait ends within five minutes. Retry-After says how long it is up to there; without it the
      next is never shorter: it doubles from ten seconds until the cap. */
  lemma WaitsGrow(refusals: nat, retryAfter: int)
    requires refusals >= 1
    ensures 0 < BenchWait(refusals, retryAfter) <= KEY_COOLDOWN_MAX
    ensures retryAfter > 0 ==> BenchWait(refusals, retryAfter) == Min(retryAfter, 300 * SECOND)
    ensures retryAfter <= 0 ==> BenchWait(refusals, retryAfter) == BenchWait(refusals, 0)
    ensures BenchWait(refusals, 0) <= BenchWait(refusals + 1, 0)
    ensures BenchWait(refusals + 1, 0) == Min(2 * BenchWait(refusals, 0), KEY_COOLDOWN_MAX)
    ensures BenchWait(1, 0) == 10 * SECOND && (refusals >= 6 ==> BenchWait(refusals, 0) == 300 * SECOND)
  {
    DoubledGrows(KEY_COOLDOWN_BASE, 0, Min(refusals - 1, 5));
    DoubledGrows(KEY_COOLDOWN_BASE, Min(refusals - 1, 5), Min(refusals, 5));
    FiveDoublings(KEY_COOLDOWN_BASE);
  }

  lemma FiveDoublings(base: int)
    ensures Doubled(base, 5) == 32 * base
  {
    assert Doubled(base, 1) == 2 * base;
    assert Doubled(base, 2) == 4 * base;
    assert Doubled(base, 3) == 8 * base;
    assert Doubled(base, 4) == 16 * base;
  }

  class KeyPicker {
    /** By channel, the rotation position; by key, its run of refusals. */
    var next: map<int, Uint64>
    var benched: map<int, KeyBench>

    constructor ()
      ensures next == map[] && benched == map[]
    {
      next, benched := map[], map[];
    }

    predicate SittingOut(keyID: int, now: int)
      reads this
    {
      keyID in benched && now < benched[keyID].until
    }

    ghost function Out(now: int): set<int>
      reads this
    {
      set id | id in benched && SittingOut(id, now)
    }

    function Position(upstreamID: int): Uint64
      reads this
    {
      if upstreamID in next then next[upstreamID] else 0
    }

    /** The next of a channel's keys, one not sitting out if there is one. */
    method Pick(upstreamID: int, keys: seq<Key>, refused: set<int>, now: int) returns (picked: Picked)
      modifies `next
      ensures picked == Chosen(keys, old(Position(upstreamID)), refused, Out(now))
      ensures next == if keys == [] then old(next)
                else old(next)[upstreamID := (old(Position(upstreamID)) + 1) % TWO_64]
    {
      if |keys| == 0 {
        return NoKey;
      }
      var start := Position(upstreamID);
      next := next[upstreamID := (start + 1) % TWO_64];
      picked := NoKey;
      for i := 0 to |keys|
        invariant FirstFrom(keys, start, 0, refused + Out(now)) == FirstFrom(keys, start, i, refused + Out(now))
        invariant picked.NoKey? ==> FirstFrom(keys, start, 0, refused) == FirstFrom(keys, start, i, refused)
        invariant picked.Picked? ==> picked.benched && FirstFrom(keys, start, 0, refused) == Some(picked.key)
      {
        var candidate := keys[Slot(start, i, |keys|)];
        if candidate.id in refused {
          continue;
        }
        if picked.NoKey? {
          picked := Picked(candidate, true);
        }
        if !SittingOut(candidate.id, now) {
          return Picked(candidate, false);
        }
      }
    }

    /** Whether a key besides those refused is not sitting out. */
    method HasFresh(keys: seq<Key>, refused: set<int>, now: int) returns (found: bool)
      ensures found <==> AnyBut(keys, refused + Out(now))
    {
      for k := 0 to |keys|
        invariant forall j :: 0 <= j < k ==> keys[j].id in refused + Out(now)
      {
        if keys[k].id !in refused && !SittingOut(keys[k].id, now) {
          return true;
        }
      }
      return false;
    }

    /** Sits a refused key out. */
    method Bench(keyID: int, retryAfter: int, now: int)
      modifies `benched
      ensures keyID in benched && benched == old(benched)[keyID := benched[keyID]]
      ensures benched[keyID].refusals == 1 + if keyID in old(benched) then old(benched[keyID].refusals) else 0
      ensures benched[keyID].until == now + BenchWait(benched[keyID].refusals, retryAfter)
      ensures SittingOut(keyID, now) && !SittingOut(keyID, now + KEY_COOLDOWN_MAX)
    {
      var refusals := 1 + if keyID in benched then benched[keyID].refusals else 0;
      var wait := Doubled(KEY_COOLDOWN_BASE, Min(refusals - 1, 5));
      if retryAfter > 0 {
        wait := retryAfter;
      }
      WaitsGrow(refusals, retryAfter);
      benched := benched[keyID := KeyBench(refusals, now + Min(wait, KEY_COOLDOWN_MAX))];
    }

    /** Forgets a key's refusals once it has served a request. */
    method Clear(keyID: int)
      modifies `benched
      ensures benched == old(benched) - {keyID}
    {
      benched := benched - {keyID};
    }

    /** How long a key still sits out. */
    method Remaining(keyID: int, now: int) returns (wait: nat)
      ensures wait > 0 <==> SittingOut(keyID, now)
      ensures !SittingOut(keyID, now + wait)
      ensures forall earlier :: now <= earlier < now + wait ==> SittingOut(keyID, earlier)
    {
      wait := if keyID in benched then Max(benched[keyID].until - now, 0) else 0;
    }
  }

  /** At one instant, a key is fresh exactly when the next pick returns one not sitting out. */
  lemma FreshIffPicked(picker: KeyPicker, upstreamID: int, keys: seq<Key>, refused: set<int>, now: int)
    requires 0 < |keys| <= TWO_64 && Unbroken(picker.Position(upstreamID), |keys|)
    ensures AnyBut(keys, refused + picker.Out(now)) <==>
            Chosen(keys, picker.Position(upstreamID), refused, picker.Out(now)).Picked? &&
            !Chosen(keys, picker.Position(upstreamID), refused, picker.Out(now)).benched
    ensures AnyBut(keys, refused) <==> Chosen(keys, picker.Position(upstreamID), refused, picker.Out(now)).Picked?
  {
    var start := picker.Position(upstreamID);
    UnbrokenFinds(keys, start, refused + picker.Out(now));
    UnbrokenFinds(keys, start, refused);
  }
}
