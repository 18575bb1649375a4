/** One token's requests against a fixed limit, in any order of reads, admissions, metering, releases
    and commits: the overshoot is bounded by the requests that fit in flight and those that are
    between their read of the stored total and their admission at once, and by nothing less. */
module QuotaRun {
  import opened Words
  import opened Quota

  /** A token's stored total and outstanding usage, what each running request has been metered so
      far, how much metered usage waits to commit or was committed and waits to be settled, the
      totals requests have read and not gone by yet, and how many went by one that missed usage. */
  datatype Account = Account(stored: int, out: Outstanding, running: seq<nat>, pending: nat, unsettled: nat,
                             seen: seq<int>, stale: nat)

  datatype Step =
    | Read
    | Admit(which: nat)
    | Meter(which: nat, used: nat)
    | Release(which: nat)
    | Commit(used: nat)
    | Settle(used: nat)
    | Abandon(used: nat)

  function Without<T>(s: seq<T>, i: nat): seq<T>
    requires i < |s|
  {
    s[..i] + s[i + 1..]
  }

  /** Usage committed since the total was read is no longer held: admission sees it nowhere. */
  predicate Misses(a: Account, which: nat)
    requires which < |a.seen|
  {
    a.seen[which] + a.unsettled < a.stored
  }

  /** Then, and only then, what admission goes by is less than the usage there is. */
  lemma MissesIff(a: Account, which: nat)
    requires which < |a.seen| && a.out.metered == a.pending + a.unsettled
    ensures Misses(a, which) <==> a.seen[which] + a.out.metered < a.stored + a.pending
  {
  }

  function Admitted(a: Account, which: nat): Account
    requires which < |a.seen|
  {
    a.(out := a.out.(requests := a.out.requests + 1), running := a.running + [0],
       seen := Without(a.seen, which), stale := a.stale + if Misses(a, which) then 1 else 0)
  }

  /** No request costs more than cost. Admission goes by a total read in an earlier step. */
  ghost predicate Takes(a: Account, step: Step, a': Account, limit: int, cost: nat) {
    match step
    case Read => a' == a.(seen := a.seen + [a.stored])
    case Admit(which) =>
      && which < |a.seen|
      && a' == if Admits(a.out, a.seen[which], Some(limit)) then Admitted(a, which)
           else a.(seen := Without(a.seen, which))
    case Meter(which, used) =>
      && which < |a.running| && a.running[which] + used <= cost
      && a' == a.(out := Metered(a.out, used), running := a.running[which := a.running[which] + used],
           pending := a.pending + used)
    case Release(which) =>
      && which < |a.running|
      && a' == a.(out := Released(a.out), running := Without(a.running, which))
    case Commit(used) =>
      used <= a.pending && a' ==
        a.(stored := a.stored + used, pending := a.pending - used, unsettled := a.unsettled + used)
    case Settle(used) => used <= a.unsettled && a' == a.(out := Settled(a.out, used), unsettled := a.unsettled - used)
    case Abandon(used) => used <= a.pending && a' == a.(out := Settled(a.out, used), pending := a.pending - used)
  }

  /** The requests that fit below the limit at the provisional cost: limit / 4096, rounded up. */
  function Rooms(limit: int): nat {
    if limit <= 0 then 0 else (limit + PROVISIONAL_COST - 1) / PROVISIONAL_COST
  }

  /** What the running requests may still cost. */
  function Left(running: seq<nat>, cost: nat): int {
    if running == [] then 0 else cost - running[0] + Left(running[1..], cost)
  }

  lemma {:induction false} LeftBounds(running: seq<nat>, cost: nat)
    requires forall i :: 0 <= i < |running| ==> running[i] <= cost
    ensures 0 <= Left(running, cost) <= |running| * cost
  {
    if running != [] {
      LeftBounds(running[1..], cost);
    }
  }

  lemma {:induction false} LeftAppend(running: seq<nat>, cost: nat)
    ensures Left(running + [0], cost) == Left(running, cost) + cost
  {
    if running == [] {
      assert Left([0], cost) == cost + Left([0][1..], cost);
    } else {
      assert (running + [0])[1..] == running[1..] + [0];
      LeftAppend(running[1..], cost);
    }
  }

  lemma {:induction false} LeftUpdate(running: seq<nat>, which: nat, used: nat, cost: nat)
    requires which < |running|
    ensures Left(running[which := running[which] + used], cost) == Left(running, cost) - used
  {
    var after := running[which := running[which] + used];
    if which == 0 {
      assert after[1..] == running[1..];
    } else {
      assert after[1..] == running[1..][which - 1 := running[which] + used];
      LeftUpdate(running[1..], which - 1, used, cost);
    }
  }

  lemma {:induction false} LeftRemove(running: seq<nat>, which: nat, cost: nat)
    requires which < |running|
    ensures Left(Without(running, which), cost) == Left(running, cost) - (cost - running[which])
  {
    var after := Without(running, which);
    if which == 0 {
      assert after == running[1..];
    } else {
      assert after[1..] == Without(running[1..], which - 1);
      LeftRemove(running[1..], which - 1, cost);
    }
  }

  /** The most the total can come to, from a stored total when the limit took effect, with so many
      admissions that missed usage. */
  function Bound(start: int, limit: int, cost: nat, stale: nat): int {
    Max(start, limit - 1 + Rooms(limit) * cost) + stale * cost
  }

  /** The sums admission forms fit 64 bits. */
  predicate Fits(start: int, limit: int, cost: nat, stale: nat) {
    0 <= start && limit < TWO_63 && 2 * Bound(start, limit, cost, stale) + Rooms(limit) * PROVISIONAL_COST < TWO_63
  }

  /** The tracker holds what is not settled, no more requests run than fit, and every total read is
      one there was. */
  ghost predicate Held(a: Account, start: int, limit: int, cost: nat) {
    && a.out.requests == |a.running| <= Rooms(limit)
    && a.out.metered == a.pending + a.unsettled
    && start <= a.stored && a.unsettled <= a.stored - start
    && (forall i :: 0 <= i < |a.running| ==> a.running[i] <= cost)
    && (forall i :: 0 <= i < |a.seen| ==> start <= a.seen[i] <= a.stored)
  }

  /** What is used already and what the running requests may still use. */
  function Total(a: Account, cost: nat): int {
    a.stored + a.pending + Left(a.running, cost)
  }

  ghost predicate AccountSound(a: Account, start: int, limit: int, cost: nat) {
    Held(a, start, limit, cost) && Total(a, cost) <= Bound(start, limit, cost, a.stale)
  }

  /** The sum admission forms does not wrap. */
  predicate Exact(a: Account, which: nat)
    requires which < |a.seen|
  {
    Projected(a.out, a.seen[which]) == a.seen[which] + a.out.metered + a.out.requests * PROVISIONAL_COST
  }

  lemma ProjectedExact(a: Account, start: int, limit: int, cost: nat, which: nat)
    requires AccountSound(a, start, limit, cost) && Fits(start, limit, cost, a.stale) && which < |a.seen|
    ensures Exact(a, which)
  {
    LeftBounds(a.running, cost);
  }

  /** An admission is made only with room for one more at the provisional cost. */
  lemma RoomForOne(limit: int, held: nat, requests: nat)
    requires held + requests * PROVISIONAL_COST < limit
    ensures requests + 1 <= Rooms(limit) && held < limit
  {
  }

  lemma TimesCost(requests: nat, rooms: nat, cost: nat)
    requires requests <= rooms
    ensures requests * cost <= rooms * cost && (requests + 1) * cost == requests * cost + cost
  {
  }

  /** An admission keeps to the requests that fit, and its read and the held usage were below the limit. */
  lemma AdmitHolds(a: Account, which: nat, a': Account, start: int, limit: int, cost: nat)
    requires Held(a, start, limit, cost) && 0 <= start
    requires Takes(a, Admit(which), a', limit, cost) && Exact(a, which)
    ensures Held(a', start, limit, cost)
    ensures Admits(a.out, a.seen[which], Some(limit)) ==>
              a.seen[which] + a.pending + a.unsettled < limit && |a.running| + 1 <= Rooms(limit)
  {
    assert forall i :: 0 <= i < |Without(a.seen, which)| ==> Without(a.seen, which)[i] in a.seen;
    if Admits(a.out, a.seen[which], Some(limit)) {
      RoomForOne(limit, a.seen[which] + a.pending + a.unsettled, |a.running|);
    }
  }

  lemma AdmitKeeps(a: Account, which: nat, a': Account, start: int, limit: int, cost: nat)
    requires AccountSound(a, start, limit, cost) && Fits(start, limit, cost, a.stale)
    requires Takes(a, Admit(which), a', limit, cost)
    ensures AccountSound(a', start, limit, cost)
  {
    ProjectedExact(a, start, limit, cost, which);
    AdmitHolds(a, which, a', start, limit, cost);
    if Admits(a.out, a.seen[which], Some(limit)) {
      AdmittedWithin(a, which, start, limit, cost);
    }
  }

  /** One more request stays within the bound: with room for it when its read missed nothing, and as
      one more that missed something otherwise. */
  lemma AdmittedWithin(a: Account, which: nat, start: int, limit: int, cost: nat)
    requires AccountSound(a, start, limit, cost) && which < |a.seen|
    requires a.seen[which] + a.pending + a.unsettled < limit && |a.running| + 1 <= Rooms(limit)
    ensures Total(Admitted(a, which), cost) <= Bound(start, limit, cost, Admitted(a, which).stale)
  {
    RoomsTimesCost(a, limit, cost);
    TimesCost(a.stale, a.stale, cost);
    TimesCost(0, a.stale, cost);
  }

  lemma RoomsTimesCost(a: Account, limit: int, cost: nat)
    requires |a.running| + 1 <= Rooms(limit) && forall i :: 0 <= i < |a.running| ==> a.running[i] <= cost
    ensures Left(a.running + [0], cost) == Left(a.running, cost) + cost <= Rooms(limit) * cost
    ensures 0 <= Left(a.running, cost)
  {
    LeftBounds(a.running, cost);
    LeftAppend(a.running, cost);
    TimesCost(|a.running| + 1, Rooms(limit), cost);
    TimesCost(|a.running|, |a.running|, cost);
  }

  /** No other step raises the total, nor what is pending and still to come. */
  lemma UsageHolds(a: Account, step: Step, a': Account, start: int, limit: int, cost: nat)
    requires Held(a, start, limit, cost) && Takes(a, step, a', limit, cost) && !step.Admit?
    ensures Held(a', start, limit, cost)
    ensures Total(a', cost) <= Total(a, cost) && Total(a', cost) - a'.stored <= Total(a, cost) - a.stored
  {
    hide Rooms;
    match step
    case Meter(which, used) => LeftUpdate(a.running, which, used, cost);
    case Release(which) => LeftRemove(a.running, which, cost);
    case _ =>
  }

  lemma StepKeeps(a: Account, step: Step, a': Account, start: int, limit: int, cost: nat)
    requires AccountSound(a, start, limit, cost) && Takes(a, step, a', limit, cost) && Fits(start, limit, cost, a.stale)
    ensures AccountSound(a', start, limit, cost)
  {
    hide Held(), Fits, Bound, Total;
    if step.Admit? {
      AdmitKeeps(a, step.which, a', start, limit, cost);
    } else {
      UsageHolds(a, step, a', start, limit, cost);
    }
  }

  ghost predicate IsRun(accounts: seq<Account>, steps: seq<Step>, limit: int, cost: nat) {
    && |accounts| == |steps| + 1
    && forall i :: 0 <= i < |steps| ==> Takes(accounts[i], steps[i], accounts[i + 1], limit, cost)
  }

  function Opened(start: int): Account {
    Account(start, NOTHING, [], 0, 0, [], 0)
  }

  lemma FitsBefore(start: int, limit: int, cost: nat, before: nat, after: nat)
    requires Fits(start, limit, cost, after) && before <= after
    ensures Fits(start, limit, cost, before)
  {
    TimesCost(before, after, cost);
  }

  lemma {:induction false} RunKeeps(accounts: seq<Account>, steps: seq<Step>, start: int, limit: int, cost: nat, k: nat)
    requires IsRun(accounts, steps, limit, cost) && k < |accounts| && Fits(start, limit, cost, accounts[k].stale)
    requires accounts[0] == Opened(start)
    ensures AccountSound(accounts[k], start, limit, cost)
  {
    hide AccountSound(), Fits, Admits;
    if k == 0 {
      StartsSound(start, limit, cost);
    } else {
      assert Takes(accounts[k - 1], steps[k - 1], accounts[k], limit, cost);
      FitsBefore(start, limit, cost, accounts[k - 1].stale, accounts[k].stale);
      RunKeeps(accounts, steps, start, limit, cost, k - 1);
      StepKeeps(accounts[k - 1], steps[k - 1], accounts[k], start, limit, cost);
    }
  }

  lemma StartsSound(start: int, limit: int, cost: nat)
    ensures AccountSound(Opened(start), start, limit, cost)
  {
  }

  /** However old the totals admission goes by: no more requests are in flight than fit below the
      limit at the provisional cost, and the total stays below the limit plus that many real costs,
      and one more for each admission whose total missed usage no longer held. So it stays below the
      limit plus that many real costs where none missed any. */
  lemma OvershootIsBounded(accounts: seq<Account>, steps: seq<Step>, start: int, limit: int, cost: nat, k: nat)
    requires IsRun(accounts, steps, limit, cost) && k < |accounts| && Fits(start, limit, cost, accounts[k].stale)
    requires accounts[0] == Opened(start)
    ensures accounts[k].out.requests == |accounts[k].running| <= Rooms(limit)
    ensures start < limit ==>
              accounts[k].stored + accounts[k].pending < limit + (Rooms(limit) + accounts[k].stale) * cost
    ensures start >= limit ==> accounts[k].running == [] && accounts[k].stored + accounts[k].pending == start
  {
    RunKeeps(accounts, steps, start, limit, cost, k);
    LeftBounds(accounts[k].running, cost);
    if start < limit {
      TotalWithin(accounts[k], start, limit, cost);
    } else {
      FitsBefore(start, limit, cost, 0, accounts[k].stale);
      NoneAdmitted(accounts, steps, start, limit, cost, k);
    }
  }

  lemma TotalWithin(a: Account, start: int, limit: int, cost: nat)
    requires a.stored + a.pending <= Bound(start, limit, cost, a.stale) && start < limit
    ensures a.stored + a.pending < limit + (Rooms(limit) + a.stale) * cost
  {
    assert (Rooms(limit) + a.stale) * cost == Rooms(limit) * cost + a.stale * cost;
    TimesCost(0, Rooms(limit), cost);
  }

  /** From the limit on, no request is admitted, whatever it read. */
  lemma {:induction false} NoneAdmitted(accounts: seq<Account>, steps: seq<Step>, start: int, limit: int, cost: nat,
                                        k: nat)
    requires IsRun(accounts, steps, limit, cost) && k < |accounts| && Fits(start, limit, cost, 0)
    requires accounts[0] == Opened(start) && start >= limit
    ensures accounts[k].running == [] && accounts[k].stored == start && accounts[k].pending == accounts[k].stale == 0
  {
    hide AccountSound(), Fits;
    if k > 0 {
      var a := accounts[k - 1];
      assert Takes(a, steps[k - 1], accounts[k], limit, cost);
      NoneAdmitted(accounts, steps, start, limit, cost, k - 1);
      RunKeeps(accounts, steps, start, limit, cost, k - 1);
      if steps[k - 1].Admit? {
        RefusedPast(a, steps[k - 1].which, start, limit, cost);
      }
    }
  }

  lemma RefusedPast(a: Account, which: nat, start: int, limit: int, cost: nat)
    requires AccountSound(a, start, limit, cost) && Fits(start, limit, cost, a.stale)
    requires which < |a.seen| && start >= limit
    ensures !Admits(a.out, a.seen[which], Some(limit))
  {
    ProjectedExact(a, start, limit, cost, which);
  }

  // How many are in flight

  /** A read of at least what was stored at first leaves room for no more than fit above that. */
  lemma RoomAbove(start: int, limit: int, seen: int, held: nat, requests: nat)
    requires start <= seen && seen + held + requests * PROVISIONAL_COST < limit
    ensures requests + 1 <= Rooms(limit - start)
  {
  }

  /** No more requests are in flight than fit between the stored total and the limit at the
      provisional cost. */
  lemma {:induction false} InFlightFits(accounts: seq<Account>, steps: seq<Step>, start: int, limit: int, cost: nat,
                                        k: nat)
    requires IsRun(accounts, steps, limit, cost) && k < |accounts| && Fits(start, limit, cost, accounts[k].stale)
    requires accounts[0] == Opened(start)
    ensures |accounts[k].running| <= Rooms(limit - start)
  {
    hide AccountSound(), Fits, Rooms;
    if k > 0 {
      var a := accounts[k - 1];
      assert Takes(a, steps[k - 1], accounts[k], limit, cost);
      FitsBefore(start, limit, cost, a.stale, accounts[k].stale);
      InFlightFits(accounts, steps, start, limit, cost, k - 1);
      RunKeeps(accounts, steps, start, limit, cost, k - 1);
      if steps[k - 1].Admit? {
        AdmitsAbove(a, steps[k - 1].which, start, limit, cost);
      }
    }
  }

  lemma AdmitsAbove(a: Account, which: nat, start: int, limit: int, cost: nat)
    requires AccountSound(a, start, limit, cost) && Fits(start, limit, cost, a.stale) && which < |a.seen|
    ensures Admits(a.out, a.seen[which], Some(limit)) ==> |a.running| + 1 <= Rooms(limit - start)
  {
    ProjectedExact(a, start, limit, cost, which);
    hide Fits, Rooms;
    if Admits(a.out, a.seen[which], Some(limit)) {
      RoomAbove(start, limit, a.seen[which], a.out.metered, |a.running|);
    }
  }

  function InFlight(start: int, n: nat): Account {
    Opened(start).(out := Outstanding(n, 0), running := seq(n, _ => 0))
  }

  /** And so many can be in flight at once: each reads the stored total and is admitted. */
  lemma {:induction false} RoomsAreFilled(start: int, limit: int, cost: nat, n: nat)
    returns (accounts: seq<Account>, steps: seq<Step>)
    requires 0 <= start && limit < TWO_63 && n <= Rooms(limit - start)
    ensures IsRun(accounts, steps, limit, cost) && accounts[0] == Opened(start)
    ensures |accounts[|accounts| - 1].running| == n && accounts[|accounts| - 1].stored == start
    ensures IsWideRun(accounts, steps, start, limit, cost, 1) && accounts[|accounts| - 1] == InFlight(start, n)
  {
    if n == 0 {
      assert InFlight(start, 0).running == [];
      return [Opened(start)], [];
    }
    accounts, steps := RoomsAreFilled(start, limit, cost, n - 1);
    var before, after := InFlight(start, n - 1), InFlight(start, n);
    var read := before.(seen := [start]);
    RunOn(accounts, steps, Read, read, start, limit, cost, 1);
    accounts, steps := accounts + [read], steps + [Read];
    AdmitsNext(start, limit, n);
    RunOn(accounts, steps, Admit(0), after, start, limit, cost, 1);
    accounts, steps := accounts + [after], steps + [Admit(0)];
  }

  lemma AdmitsNext(start: int, limit: int, n: nat)
    requires 0 <= start && limit < TWO_63 && 0 < n <= Rooms(limit - start)
    ensures Admits(Outstanding(n - 1, 0), start, Some(limit))
    ensures Admitted(InFlight(start, n - 1).(seen := [start]), 0) == InFlight(start, n)
  {
    assert start + (n - 1) * PROVISIONAL_COST < limit;
    assert InFlight(start, n).running == InFlight(start, n - 1).running + [0];
    assert Without([start], 0) == [];
  }

  // With so many requests between their read and their admission at once

  /** At every moment of the run up to k at most wide requests have read a total and not gone by it. */
  predicate IsWide(accounts: seq<Account>, wide: nat, k: nat)
    requires k < |accounts|
  {
    forall i :: 0 <= i <= k ==> |accounts[i].seen| <= wide
  }

  /** The totals read that are below the limit: those that can still be admitted. */
  function Low(seen: seq<int>, limit: int): nat {
    if seen == [] then 0 else Low(seen[1..], limit) + if seen[0] < limit then 1 else 0
  }

  lemma {:induction false} LowAppend(seen: seq<int>, x: int, limit: int)
    ensures Low(seen + [x], limit) == Low(seen, limit) + if x < limit then 1 else 0
  {
    if seen == [] {
      assert Low([x], limit) == Low([x][1..], limit) + if x < limit then 1 else 0;
    } else {
      assert (seen + [x])[1..] == seen[1..] + [x];
      LowAppend(seen[1..], x, limit);
    }
  }

  lemma {:induction false} LowRemove(seen: seq<int>, which: nat, limit: int)
    requires which < |seen|
    ensures Low(Without(seen, which), limit) == Low(seen, limit) - if seen[which] < limit then 1 else 0
  {
    var after := Without(seen, which);
    if which == 0 {
      assert after == seen[1..];
    } else {
      assert after[1..] == Without(seen[1..], which - 1);
      LowRemove(seen[1..], which - 1, limit);
    }
  }

  lemma {:induction false} LowBounds(seen: seq<int>, limit: int)
    ensures Low(seen, limit) <= |seen|
  {
    if seen != [] {
      LowBounds(seen[1..], limit);
    }
  }

  /** The most the total can come to, so many requests wide. */
  function WideBound(limit: int, cost: nat, wide: nat): int {
    2 * (limit - 1) + (Rooms(limit) + wide) * cost
  }

  predicate FitsWide(start: int, limit: int, cost: nat, wide: nat) {
    0 <= start < limit < TWO_63 && 2 * WideBound(limit, cost, wide) + Rooms(limit) * PROVISIONAL_COST < TWO_63
  }

  /** What is pending and still to come never passes the limit and the requests that fit. Once the
      stored total reaches the limit, only a total read before can still be admitted. */
  ghost predicate WideSound(a: Account, start: int, limit: int, cost: nat, wide: nat) {
    && Held(a, start, limit, cost)
    && Total(a, cost) - a.stored <= limit - 1 + Rooms(limit) * cost
    && |a.seen| <= wide
    && (a.stored >= limit ==> Total(a, cost) + Low(a.seen, limit) * cost <= WideBound(limit, cost, wide))
  }

  lemma Widths(rooms: nat, low: nat, wide: nat, cost: nat)
    requires low <= wide
    ensures (rooms + wide) * cost == rooms * cost + wide * cost && 0 <= low * cost <= wide * cost
    ensures low > 0 ==> (low - 1) * cost + cost == low * cost
  {
    TimesCost(low, wide, cost);
    TimesCost(0, low, cost);
    if low > 0 {
      TimesCost(low - 1, low, cost);
    }
  }

  lemma WideTotal(a: Account, start: int, limit: int, cost: nat, wide: nat)
    requires WideSound(a, start, limit, cost, wide)
    ensures a.stored + a.pending <= Total(a, cost) <= WideBound(limit, cost, wide)
  {
    LeftBounds(a.running, cost);
    LowBounds(a.seen, limit);
    Widths(Rooms(limit), Low(a.seen, limit), wide, cost);
  }

  lemma WideExact(a: Account, start: int, limit: int, cost: nat, wide: nat, which: nat)
    requires WideSound(a, start, limit, cost, wide) && FitsWide(start, limit, cost, wide) && which < |a.seen|
    ensures Exact(a, which)
  {
    hide WideBound, Low;
    WideTotal(a, start, limit, cost, wide);
  }

  lemma WideAdmits(a: Account, which: nat, a': Account, start: int, limit: int, cost: nat, wide: nat)
    requires WideSound(a, start, limit, cost, wide) && FitsWide(start, limit, cost, wide)
    requires Takes(a, Admit(which), a', limit, cost)
    ensures WideSound(a', start, limit, cost, wide)
  {
    hide Held(), FitsWide, WideBound;
    assert 0 <= start by { StartsWithin(start, limit, cost, wide); }
    WideExact(a, start, limit, cost, wide, which);
    AdmitHolds(a, which, a', start, limit, cost);
    LowRemove(a.seen, which, limit);
    LowBounds(a.seen, limit);
    Widths(Rooms(limit), Low(a.seen, limit), wide, cost);
    if Admits(a.out, a.seen[which], Some(limit)) {
      HeldUsage(a, start, limit, cost, which);
      RoomsTimesCost(a, limit, cost);
    }
  }

  lemma StartsWithin(start: int, limit: int, cost: nat, wide: nat)
    requires FitsWide(start, limit, cost, wide)
    ensures 0 <= start < limit
  {
  }

  lemma HeldUsage(a: Account, start: int, limit: int, cost: nat, which: nat)
    requires Held(a, start, limit, cost) && 0 <= start && which < |a.seen|
    requires a.seen[which] + a.pending + a.unsettled < limit
    ensures a.pending <= limit - 1 && a.seen[which] < limit
    ensures forall i :: 0 <= i < |a.running| ==> a.running[i] <= cost
  {
  }

  /** Reading, metering, releasing, committing and settling: a commit that reaches the limit finds
      the total within the bound already. */
  lemma WideUses(a: Account, step: Step, a': Account, start: int, limit: int, cost: nat, wide: nat)
    requires WideSound(a, start, limit, cost, wide) && |a'.seen| <= wide
    requires Takes(a, step, a', limit, cost) && !step.Admit?
    ensures WideSound(a', start, limit, cost, wide)
  {
    UsageHolds(a, step, a', start, limit, cost);
    SeenBy(a, step, a', limit, cost);
    hide Held(), Takes(), Total, Low;
    LowBounds(a'.seen, limit);
    Widths(Rooms(limit), Low(a'.seen, limit), wide, cost);
  }

  lemma SeenBy(a: Account, step: Step, a': Account, limit: int, cost: nat)
    requires Takes(a, step, a', limit, cost) && !step.Admit?
    ensures a.stored <= a'.stored
    ensures a.stored >= limit ==> Low(a'.seen, limit) == Low(a.seen, limit)
  {
    hide Low;
    LowAppend(a.seen, a.stored, limit);
  }

  lemma {:induction false} RunKeepsWide(accounts: seq<Account>, steps: seq<Step>, start: int, limit: int, cost: nat,
                                        wide: nat, k: nat)
    requires IsRun(accounts, steps, limit, cost) && accounts[0] == Opened(start) && k < |accounts|
    requires IsWide(accounts, wide, k) && FitsWide(start, limit, cost, wide)
    ensures WideSound(accounts[k], start, limit, cost, wide)
  {
    hide WideSound(), FitsWide, Takes();
    if k == 0 {
      OpensWide(start, limit, cost, wide);
    } else {
      RunKeepsWide(accounts, steps, start, limit, cost, wide, k - 1);
      if steps[k - 1].Admit? {
        WideAdmits(accounts[k - 1], steps[k - 1].which, accounts[k], start, limit, cost, wide);
      } else {
        WideUses(accounts[k - 1], steps[k - 1], accounts[k], start, limit, cost, wide);
      }
    }
  }

  lemma OpensWide(start: int, limit: int, cost: nat, wide: nat)
    requires FitsWide(start, limit, cost, wide)
    ensures WideSound(Opened(start), start, limit, cost, wide)
  {
    TimesCost(0, Rooms(limit), cost);
  }

  /** With at most wide requests between their read and their admission at once, the total of a run
      of any length stays within twice the limit and so many real costs more than fit. */
  lemma WidthBoundsOvershoot(accounts: seq<Account>, steps: seq<Step>, start: int, limit: int, cost: nat, wide: nat,
                             k: nat)
    requires IsRun(accounts, steps, limit, cost) && accounts[0] == Opened(start) && k < |accounts|
    requires IsWide(accounts, wide, k) && FitsWide(start, limit, cost, wide)
    ensures accounts[k].stored + accounts[k].pending <= 2 * (limit - 1) + (Rooms(limit) + wide) * cost
    ensures accounts[k].out.requests == |accounts[k].running| <= Rooms(limit)
  {
    RunKeepsWide(accounts, steps, start, limit, cost, wide, k);
    WideTotal(accounts[k], start, limit, cost, wide);
  }

  // With any number of them there is no bound

  function Copies(n: nat, x: int): seq<int> {
    seq(n, _ => x)
  }

  /** So many requests have run one after the other at full cost, each by the total it read at first. */
  function Overshot(start: int, cost: nat, done: nat, waiting: nat): Account {
    Account(start + done * cost, NOTHING, [], 0, 0, Copies(waiting, start), Max(done - 1, 0))
  }

  /** A run from a token opened at start, at most wide requests wide. */
  ghost predicate IsWideRun(accounts: seq<Account>, steps: seq<Step>, start: int, limit: int, cost: nat, wide: nat) {
    IsRun(accounts, steps, limit, cost) && accounts[0] == Opened(start) && IsWide(accounts, wide, |accounts| - 1)
  }

  lemma RunOn(accounts: seq<Account>, steps: seq<Step>, step: Step, a: Account, start: int, limit: int, cost: nat,
              wide: nat)
    requires IsWideRun(accounts, steps, start, limit, cost, wide) && |a.seen| <= wide
    requires Takes(accounts[|accounts| - 1], step, a, limit, cost)
    ensures IsWideRun(accounts + [a], steps + [step], start, limit, cost, wide)
  {
    hide Takes();
    var all, taken := accounts + [a], steps + [step];
    forall i | 0 <= i < |taken|
      ensures Takes(all[i], taken[i], all[i + 1], limit, cost)
    {
      if i < |steps| {
        assert Takes(accounts[i], steps[i], accounts[i + 1], limit, cost);
      }
    }
  }

  lemma {:induction false} AllRead(start: int, limit: int, cost: nat, n: nat, wide: nat)
    returns (accounts: seq<Account>, steps: seq<Step>)
    requires n <= wide
    ensures IsWideRun(accounts, steps, start, limit, cost, wide)
    ensures accounts[|accounts| - 1] == Overshot(start, cost, 0, n)
  {
    if n == 0 {
      assert Copies(0, start) == [];
      return [Opened(start)], [];
    }
    accounts, steps := AllRead(start, limit, cost, n - 1, wide);
    assert Copies(n, start) == Copies(n - 1, start) + [start];
    RunOn(accounts, steps, Read, Overshot(start, cost, 0, n), start, limit, cost, wide);
    accounts, steps := accounts + [Overshot(start, cost, 0, n)], steps + [Read];
  }

  /** One more of them runs: admitted, metered, released, committed and settled. */
  lemma OneMoreRuns(accounts: seq<Account>, steps: seq<Step>, start: int, limit: int, cost: nat, wide: nat, done: nat,
                    waiting: nat)
    returns (more: seq<Account>, taken: seq<Step>)
    requires 0 <= start < limit < TWO_63 && cost > 0
    requires IsWideRun(accounts, steps, start, limit, cost, wide) && 0 < waiting <= wide
    requires accounts[|accounts| - 1] == Overshot(start, cost, done, waiting)
    ensures IsWideRun(more, taken, start, limit, cost, wide)
    ensures more[|more| - 1] == Overshot(start, cost, done + 1, waiting - 1)
  {
    hide IsWideRun();
    var first, last := Overshot(start, cost, done, waiting), Overshot(start, cost, done + 1, waiting - 1);
    TimesCost(done, done, cost);
    TimesCost(0, done, cost);
    assert done > 0 ==> done * cost > 0;
    assert Without(Copies(waiting, start), 0) == Copies(waiting - 1, start);
    var admitted := last.(stored := first.stored, out := Outstanding(1, 0), running := [0]);
    RunOn(accounts, steps, Admit(0), admitted, start, limit, cost, wide);
    more, taken := accounts + [admitted], steps + [Admit(0)];
    var metered := admitted.(out := Outstanding(1, cost), running := [cost], pending := cost);
    RunOn(more, taken, Meter(0, cost), metered, start, limit, cost, wide);
    more, taken := more + [metered], taken + [Meter(0, cost)];
    var released := metered.(out := Outstanding(0, cost), running := []);
    RunOn(more, taken, Release(0), released, start, limit, cost, wide);
    more, taken := more + [released], taken + [Release(0)];
    var committed := released.(stored := last.stored, pending := 0, unsettled := cost);
    RunOn(more, taken, Commit(cost), committed, start, limit, cost, wide);
    more, taken := more + [committed], taken + [Commit(cost)];
    RunOn(more, taken, Settle(cost), last, start, limit, cost, wide);
    more, taken := more + [last], taken + [Settle(cost)];
  }

  /** Any limit lets through, past any total below it, as many requests at full cost as read it
      before the first of them was admitted, though never two are in flight. */
  lemma {:induction false} StaleReadsOvershoot(start: int, limit: int, cost: nat, n: nat, waiting: nat)
    returns (accounts: seq<Account>, steps: seq<Step>)
    requires 0 <= start < limit < TWO_63 && cost > 0
    ensures IsWideRun(accounts, steps, start, limit, cost, n + waiting)
    ensures accounts[|accounts| - 1] == Overshot(start, cost, n, waiting)
    ensures accounts[|accounts| - 1].stored == start + n * cost
  {
    if n == 0 {
      accounts, steps := AllRead(start, limit, cost, waiting, waiting);
    } else {
      accounts, steps := StaleReadsOvershoot(start, limit, cost, n - 1, waiting + 1);
      accounts, steps := OneMoreRuns(accounts, steps, start, limit, cost, n + waiting, n - 1, waiting + 1);
    }
  }

  ghost predicate TotalsBelow(start: int, limit: int, cost: nat, b: int) {
    forall accounts: seq<Account>, steps, k ::
      IsRun(accounts, steps, limit, cost) && accounts[0] == Opened(start) && 0 <= k < |accounts| ==>
        accounts[k].stored + accounts[k].pending <= b
  }

  lemma {:induction false} FreeRequests(accounts: seq<Account>, steps: seq<Step>, start: int, limit: int, k: nat)
    requires IsRun(accounts, steps, limit, 0) && accounts[0] == Opened(start) && k < |accounts|
    ensures accounts[k].stored == start && accounts[k].pending == 0
    ensures forall i :: 0 <= i < |accounts[k].running| ==> accounts[k].running[i] == 0
  {
    if k > 0 {
      FreeRequests(accounts, steps, start, limit, k - 1);
      assert Takes(accounts[k - 1], steps[k - 1], accounts[k], limit, 0);
    }
  }

  /** However early totals may be read, the bound that admission is for, or any bound at all, holds
      of every run if and only if the limit was reached from the start or requests cost nothing. */
  lemma BoundedIff(start: int, limit: int, cost: nat)
    requires Fits(start, limit, cost, 0)
    ensures TotalsBelow(start, limit, cost, Bound(start, limit, cost, 0)) <==> start >= limit || cost == 0
    ensures (exists b :: TotalsBelow(start, limit, cost, b)) <==> start >= limit || cost == 0
  {
    if start >= limit || cost == 0 {
      forall accounts: seq<Account>, steps, k
        | IsRun(accounts, steps, limit, cost) && accounts[0] == Opened(start) && 0 <= k < |accounts|
        ensures accounts[k].stored + accounts[k].pending <= Bound(start, limit, cost, 0)
      {
        if cost == 0 {
          FreeRequests(accounts, steps, start, limit, k);
        } else {
          NoneAdmitted(accounts, steps, start, limit, cost, k);
        }
      }
      assert TotalsBelow(start, limit, cost, Bound(start, limit, cost, 0));
    } else {
      forall b
        ensures !TotalsBelow(start, limit, cost, b)
      {
        PastAnyBound(start, limit, cost, b);
      }
    }
  }

  lemma PastAnyBound(start: int, limit: int, cost: nat, b: int)
    requires 0 <= start < limit < TWO_63 && cost > 0
    ensures !TotalsBelow(start, limit, cost, b)
  {
    var n := Max(b + 1, 0);
    var accounts, steps := StaleReadsOvershoot(start, limit, cost, n, 0);
    assert n * cost >= n;
    assert accounts[|accounts| - 1].stored + accounts[|accounts| - 1].pending > b;
  }
}
