/** How far a token's usage can overshoot its limit while requests are still running. */
module Quota {
  import opened Words

  const PROVISIONAL_COST := 4096

  /** Usage of a token that its stored total does not show: requests whose cost is not known, and
      usage that is known but not committed. */
  datatype Outstanding = Outstanding(requests: nat, metered: nat)

  const NOTHING := Outstanding(0, 0)

  // What each operation makes of a token's entry; a token without one has nothing outstanding

  /** The total admission goes by, in 64 bits. */
  function Projected(o: Outstanding, stored: int): Int64 {
    WrapInt64(stored + o.metered + o.requests * PROVISIONAL_COST)
  }

  predicate Admits(o: Outstanding, stored: int, limit: Option<int>) {
    limit.None? || Projected(o, stored) < limit.value
  }

  function Metered(o: Outstanding, used: int): Outstanding {
    if used <= 0 then o else o.(metered := o.metered + used)
  }

  function Settled(o: Outstanding, used: int): Outstanding {
    if used <= 0 then o else o.(metered := Max(o.metered - used, 0))
  }

  function Released(o: Outstanding): Outstanding {
    o.(requests := Max(o.requests - 1, 0))
  }

  class Reservation {
    const tracker: Tracker?
    const tokenID: int
    var held: bool

    constructor (tracker: Tracker?, tokenID: int)
      ensures this.tracker == tracker && this.tokenID == tokenID && held == (tracker != null)
    {
      this.tracker, this.tokenID, held := tracker, tokenID, tracker != null;
    }

    /** Returns the hold; a second time, or when nothing is held, it does nothing. */
    method Release()
      requires tracker != null ==> tracker.Valid()
      requires held ==> tracker != null && this in tracker.holders
      modifies this, tracker
      ensures !held && (tracker != null ==> tracker.Valid())
      ensures tracker != null ==> tracker.holders == old(tracker.holders) - {this}
      ensures tracker != null ==> forall id :: id != tokenID ==> tracker.Of(id) == old(tracker.Of(id))
      ensures old(held) ==> tracker.Of(tokenID) == Released(old(tracker.Of(tokenID)))
      ensures tracker != null && !old(held) ==> tracker.tokens == old(tracker.tokens)
    {
      if !held {
        if tracker != null {
          tracker.NotHolding(this);
        }
        return;
      }
      tracker.HoldsOne(this);
      held := false;
      tracker.ReleaseFor(tokenID);
      assert forall id :: id != tokenID ==> tracker.Of(id) == old(tracker.Of(id));
      tracker.holders := tracker.holders - {this};
      tracker.OneFewer(old(tracker.holders), this);
      assert forall id :: old(tracker.Of(id).requests) == |Tracker.HeldFor(old(tracker.holders), id)|;
    }
  }

  class Tracker {
    var tokens: map<int, Outstanding>
    /** The reservations not yet released. */
    ghost var holders: set<Reservation>

    constructor ()
      ensures Valid() && tokens == map[] && holders == {}
    {
      tokens, holders := map[], {};
    }

    function Of(tokenID: int): Outstanding
      reads this
    {
      if tokenID in tokens then tokens[tokenID] else NOTHING
    }

    static ghost function HeldFor(holders: set<Reservation>, tokenID: int): set<Reservation> {
      set r | r in holders && r.tokenID == tokenID
    }

    /** The requests outstanding are the unreleased reservations, and an idle token has no entry. */
    ghost predicate Valid()
      reads this, holders
    {
      && (forall r :: r in holders ==> r.held && r.tracker == this)
      && (forall id :: Of(id).requests == |HeldFor(holders, id)|)
      && (forall id :: id in tokens ==> tokens[id] != NOTHING)
    }

    lemma NotHolding(r: Reservation)
      requires Valid() && !r.held
      ensures holders - {r} == holders
    {
    }

    lemma HoldsOne(r: Reservation)
      requires Valid() && r in holders
      ensures Of(r.tokenID).requests >= 1
    {
      assert r in HeldFor(holders, r.tokenID);
    }

    static lemma OneFewer(before: set<Reservation>, r: Reservation)
      requires r in before
      ensures forall id :: |HeldFor(before - {r}, id)| == |HeldFor(before, id)| - if id == r.tokenID then 1 else 0
    {
      forall id
        ensures |HeldFor(before - {r}, id)| == |HeldFor(before, id)| - if id == r.tokenID then 1 else 0
      {
        if id == r.tokenID {
          assert HeldFor(before - {r}, id) == HeldFor(before, id) - {r};
        } else {
          assert HeldFor(before - {r}, id) == HeldFor(before, id);
        }
      }
    }

    static lemma OneMore(before: set<Reservation>, r: Reservation)
      requires r !in before
      ensures forall id :: |HeldFor(before + {r}, id)| == |HeldFor(before, id)| + if id == r.tokenID then 1 else 0
    {
      OneFewer(before + {r}, r);
      assert before + {r} - {r} == before;
    }

    /** Weighs a request against the limit and reserves room for it. */
    method Admit(tokenID: int, stored: int, limit: Option<int>) returns (reservation: Reservation, admitted: bool)
      requires Valid()
      modifies this
      ensures Valid() && fresh(reservation)
      // Where it fits 64 bits, the total is what is stored, what is metered and 4096 for each request held.
      ensures var total := stored + old(Of(tokenID)).metered + 4096 * |HeldFor(old(holders), tokenID)|;
              -TWO_63 <= total < TWO_63 ==> (admitted <==> limit.None? || total < limit.value)
      ensures admitted == Admits(old(Of(tokenID)), stored, limit)
      ensures reservation.held <==> admitted && limit.Some?
      ensures holders == if reservation.held then old(holders) + {reservation} else old(holders)
      ensures reservation.held ==> reservation.tokenID == tokenID && reservation.tracker == this
      ensures forall id :: id != tokenID ==> Of(id) == old(Of(id))
      ensures Of(tokenID) == if reservation.held then old(Of(tokenID)).(requests := old(Of(tokenID)).requests + 1)
                else old(Of(tokenID))
    {
      if limit.None? {
        reservation := new Reservation(null, 0);
        return reservation, true;
      }
      if Projected(Of(tokenID), stored) >= limit.value {
        reservation := new Reservation(null, 0);
        return reservation, false;
      }
      tokens := tokens[tokenID := Outstanding(Of(tokenID).requests + 1, Of(tokenID).metered)];
      reservation := new Reservation(this, tokenID);
      admitted := true;
      OneMore(holders, reservation);
      holders := holders + {reservation};
    }

    method Keep(tokenID: int, o: Outstanding)
      modifies `tokens
      ensures Of(tokenID) == o && forall id :: id != tokenID ==> Of(id) == old(Of(id))
      ensures forall id :: id in tokens ==>
                (id in old(tokens) && tokens[id] == old(tokens)[id]) || tokens[id] != NOTHING
      ensures tokenID in tokens ==> tokens[tokenID] != NOTHING
    {
      tokens := tokens[tokenID := o];
      if o.requests == 0 && o.metered == 0 {
        tokens := tokens - {tokenID};
      }
    }

    /** Records usage that is known but not yet committed. */
    method Meter(tokenID: int, used: int)
      requires Valid()
      modifies this
      ensures Valid() && holders == old(holders) && forall id :: id != tokenID ==> Of(id) == old(Of(id))
      ensures Of(tokenID) == Metered(old(Of(tokenID)), used)
      ensures Of(tokenID).requests == old(Of(tokenID)).requests
      ensures Of(tokenID).metered == old(Of(tokenID)).metered + Max(used, 0)
    {
      if used <= 0 {
        return;
      }
      Keep(tokenID, Outstanding(Of(tokenID).requests, Of(tokenID).metered + used));
    }

    /** Drops usage whose row committed, or never will. */
    method Settle(tokenID: int, used: int)
      requires Valid()
      modifies this
      ensures Valid() && holders == old(holders) && forall id :: id != tokenID ==> Of(id) == old(Of(id))
      ensures Of(tokenID) == Settled(old(Of(tokenID)), used)
      ensures Of(tokenID).requests == old(Of(tokenID)).requests
      ensures Of(tokenID).metered == Max(old(Of(tokenID)).metered - Max(used, 0), 0)
    {
      if used <= 0 || tokenID !in tokens {
        return;
      }
      Keep(tokenID, Outstanding(tokens[tokenID].requests, Max(tokens[tokenID].metered - used, 0)));
    }

    method ReleaseFor(tokenID: int)
      modifies `tokens
      ensures Of(tokenID) == Released(old(Of(tokenID))) && forall id :: id != tokenID ==> Of(id) == old(Of(id))
      ensures forall id :: id in tokens ==>
                (id in old(tokens) && tokens[id] == old(tokens)[id]) || tokens[id] != NOTHING
      ensures tokenID in tokens && tokenID in old(tokens) ==> tokens[tokenID] != NOTHING
    {
      if tokenID !in tokens {
        return;
      }
      Keep(tokenID, Outstanding(Max(tokens[tokenID].requests - 1, 0), tokens[tokenID].metered));
    }
  }
}
