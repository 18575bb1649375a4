/** Channel health: failures lower a score, successes and time raise it. Recovery by time is worked
    out only when a channel is looked at. */
module Health {
  import opened Words
  import opened Division

  /** Times are in nanoseconds. */
  const SECOND := 1_000_000_000
  const MAX_HEALTH_SCORE := 100

  /** The settings allow 0 to 100 for each amount. */
  type Amount = x: int | 0 <= x <= 100

  datatype Policy = Policy(failurePenalty: Amount, successIncrement: Amount, recoveryIncrement: Amount,
                           recoveryInterval: int)

  datatype HealthState = HealthState(score: int, lastAdjustedAt: int)

  /** An untracked channel is at full health. */
  type Entry = Option<HealthState>

  datatype HealthSnapshot = HealthSnapshot(score: int, routingWeight: Uint64, effectiveWeight: real,
                                           recoveryRemaining: Option<int>)

  // What time does

  function IntervalSeconds(policy: Policy): int {
    if policy.recoveryInterval >= 0 then policy.recoveryInterval / SECOND else -(-policy.recoveryInterval / SECOND)
  }

  function Intervals(policy: Policy, since: int, now: int): int
    requires IntervalSeconds(policy) > 0 && since <= now
  {
    (now - since) / SECOND / IntervalSeconds(policy)
  }

  /** Credits whole elapsed recovery intervals to the score. */
  function Recovered(state: HealthState, policy: Policy, now: int): HealthState {
    if state.score >= MAX_HEALTH_SCORE || policy.recoveryIncrement == 0 then state
    else if IntervalSeconds(policy) <= 0 || now < state.lastAdjustedAt then state
    else
      var intervals := Intervals(policy, state.lastAdjustedAt, now);
      if intervals == 0 then state
      else HealthState(Min(state.score + policy.recoveryIncrement * intervals, MAX_HEALTH_SCORE),
                       state.lastAdjustedAt + IntervalSeconds(policy) * intervals * SECOND)
  }

  function Tracked(state: HealthState): Entry {
    if state.score == MAX_HEALTH_SCORE then None else Some(state)
  }

  /** A channel's health as a look at it would leave it. */
  function Seen(entry: Entry, policy: Policy, now: int): Entry {
    if entry.None? then None else Tracked(Recovered(entry.value, policy, now))
  }

  function Score(entry: Entry): int {
    if entry.None? then MAX_HEALTH_SCORE else entry.value.score
  }

  /** Scores of tracked channels are below full, and time has not run ahead of the clock. */
  predicate Sound(entry: Entry, now: int) {
    entry.Some? ==> 0 <= entry.value.score < MAX_HEALTH_SCORE && entry.value.lastAdjustedAt <= now
  }

  // Recovery is exact

  /** A product in one order and the other. */
  lemma Reordered(interval: int, k: int)
    ensures interval * k * SECOND == interval * SECOND * k == SECOND * (interval * k)
  {
  }

  /** Seconds, then intervals of them, are whole intervals. */
  lemma NestedDivision(elapsed: nat, interval: int)
    requires interval > 0
    ensures elapsed / SECOND / interval == elapsed / (interval * SECOND)
  {
    var seconds, rest := elapsed / SECOND, elapsed % SECOND;
    var k, left := seconds / interval, seconds % interval;
    assert seconds == interval * k + left;
    Reordered(interval, k);
    WithinInterval(interval, left, rest);
    DivisionIs(elapsed, interval * SECOND, k, SECOND * left + rest);
  }

  lemma WithinInterval(interval: int, left: nat, rest: nat)
    requires left < interval && rest < SECOND
    ensures SECOND * left + rest < interval * SECOND
  {
  }

  /** Whole intervals up to a moment, and those from where they end. */
  lemma QuotientsAdd(mid: nat, now: nat, width: int)
    requires width > 0 && mid <= now
    ensures var first := mid / width;
            0 <= first && 0 <= width * first <= mid && now / width == first + (now - width * first) / width
  {
    var first := mid / width;
    assert mid == width * first + mid % width;
    var k, rest := (now - width * first) / width, (now - width * first) % width;
    assert now - width * first == width * k + rest;
    Distributes(width, first, k);
    DivisionIs(now, width, first + k, rest);
  }

  lemma Distributes(width: int, first: int, k: int)
    requires width > 0
    ensures width * (first + k) == width * first + width * k && (first >= 0 ==> width * first >= 0)
  {
  }

  lemma WholeIntervals(policy: Policy, since: int, now: int) returns (k: int, rest: int)
    requires IntervalSeconds(policy) > 0 && since <= now
    ensures k == Intervals(policy, since, now) >= 0
    ensures now - since == IntervalSeconds(policy) * SECOND * k + rest && 0 <= rest < IntervalSeconds(policy) * SECOND
  {
    var width := IntervalSeconds(policy) * SECOND;
    NestedDivision(now - since, IntervalSeconds(policy));
    k, rest := (now - since) / width, (now - since) % width;
  }

  /** The intervals up to a moment, and those from where they end, are all of them. */
  lemma IntervalsAdd(policy: Policy, since: int, mid: int, now: int)
    requires IntervalSeconds(policy) > 0 && since <= mid <= now
    ensures var first := Intervals(policy, since, mid);
            var then_ := since + IntervalSeconds(policy) * first * SECOND;
            first >= 0 && since <= then_ <= mid &&
              Intervals(policy, since, now) == first + Intervals(policy, then_, now)
  {
    var interval, first := IntervalSeconds(policy), Intervals(policy, since, mid);
    hide IntervalSeconds;
    NestedDivision(mid - since, interval);
    NestedDivision(now - since, interval);
    QuotientsAdd(mid - since, now - since, interval * SECOND);
    Reordered(interval, first);
    NestedDivision(now - since - interval * SECOND * first, interval);
  }

  lemma RecoveredSound(state: HealthState, policy: Policy, now: int)
    requires Sound(Some(state), now)
    ensures Sound(Tracked(Recovered(state, policy, now)), now)
    ensures state.score <= Recovered(state, policy, now).score <= MAX_HEALTH_SCORE
  {
    if policy.recoveryIncrement > 0 && IntervalSeconds(policy) > 0 {
      IntervalsAdd(policy, state.lastAdjustedAt, now, now);
      assert policy.recoveryIncrement * Intervals(policy, state.lastAdjustedAt, now) >= 0;
    }
  }

  /** The state so many intervals later. */
  function Credited(state: HealthState, policy: Policy, intervals: int): HealthState {
    HealthState(Min(state.score + policy.recoveryIncrement * intervals, MAX_HEALTH_SCORE),
                state.lastAdjustedAt + IntervalSeconds(policy) * intervals * SECOND)
  }

  lemma RecoveredIsCredited(state: HealthState, policy: Policy, now: int)
    requires policy.recoveryIncrement > 0 && IntervalSeconds(policy) > 0
    requires state.lastAdjustedAt <= now && state.score < MAX_HEALTH_SCORE
    ensures Recovered(state, policy, now) == Credited(state, policy, Intervals(policy, state.lastAdjustedAt, now))
  {
  }

  lemma CreditedTwice(state: HealthState, policy: Policy, a: nat, b: nat)
    requires policy.recoveryIncrement > 0
    ensures var once := Credited(state, policy, a);
            && (once.score < MAX_HEALTH_SCORE ==> Credited(once, policy, b) == Credited(state, policy, a + b))
            && (once.score == MAX_HEALTH_SCORE ==> Credited(state, policy, a + b).score == MAX_HEALTH_SCORE)
  {
  }

  /** Looking twice sees what looking once, the second time, would have. */
  lemma RecoveryIsExact(entry: Entry, policy: Policy, first: int, second: int)
    requires Sound(entry, first) && first <= second
    ensures Seen(Seen(entry, policy, first), policy, second) == Seen(entry, policy, second)
  {
    if entry.Some? && policy.recoveryIncrement > 0 && IntervalSeconds(policy) > 0 {
      var state := entry.value;
      IntervalsAdd(policy, state.lastAdjustedAt, first, second);
      RecoveredIsCredited(state, policy, first);
      RecoveredIsCredited(state, policy, second);
      var a := Intervals(policy, state.lastAdjustedAt, first);
      var once := Recovered(state, policy, first);
      var b := Intervals(policy, once.lastAdjustedAt, second);
      IntervalsAdd(policy, once.lastAdjustedAt, second, second);
      CreditedTwice(state, policy, a, b);
      if once.score < MAX_HEALTH_SCORE {
        RecoveredIsCredited(once, policy, second);
      }
      hide Recovered, Credited, Intervals, IntervalSeconds;
    }
  }

  /** Where k whole recovery intervals, in whole seconds, have passed since the last adjustment, the
      score is so many increments higher, up to full health, and the rest of the time is kept: so
      before the first has passed, a look changes nothing. */
  lemma RecoversByIntervals(state: HealthState, policy: Policy, k: nat, now: int)
    requires state.score < MAX_HEALTH_SCORE && policy.recoveryIncrement > 0
    requires policy.recoveryInterval >= 1_000_000_000
    requires var width := policy.recoveryInterval / 1_000_000_000 * 1_000_000_000;
             state.lastAdjustedAt + width * k <= now < state.lastAdjustedAt + width * (k + 1)
    ensures var width := policy.recoveryInterval / 1_000_000_000 * 1_000_000_000;
            var score := state.score + policy.recoveryIncrement * k;
            Seen(Some(state), policy, now) ==
            if score >= 100 then None else Some(HealthState(score, state.lastAdjustedAt + width * k))
  {
    var interval := policy.recoveryInterval / SECOND;
    var width := interval * SECOND;
    var rest := now - state.lastAdjustedAt - width * k;
    assert width * (k + 1) == width * k + width;
    Distributes(width, k, 0);
    NestedDivision(now - state.lastAdjustedAt, interval);
    DivisionIs(now - state.lastAdjustedAt, width, k, rest);
    Reordered(interval, k);
    assert Intervals(policy, state.lastAdjustedAt, now) == k;
    hide Intervals;
  }

  /** Without an increment, or with less than a second between recoveries, time changes nothing. */
  lemma NeverRecovers(state: HealthState, policy: Policy, now: int)
    requires state.score < MAX_HEALTH_SCORE
    requires policy.recoveryIncrement == 0 || policy.recoveryInterval < 1_000_000_000
    ensures Seen(Some(state), policy, now) == Some(state)
  {
    assert policy.recoveryInterval < 0 ==> -policy.recoveryInterval / SECOND >= 0;
  }

  // What failures and successes do

  function AfterFailure(entry: Entry, policy: Policy, now: int): Entry {
    var state := Recovered(if entry.Some? then entry.value else HealthState(MAX_HEALTH_SCORE, now), policy, now);
    var score := Max(state.score - policy.failurePenalty, 0);
    Tracked(HealthState(score, if policy.failurePenalty > 0 then now else state.lastAdjustedAt))
  }

  function AfterSuccess(entry: Entry, policy: Policy, now: int): Entry {
    if entry.None? then None
    else
      var state := Recovered(entry.value, policy, now);
      var score := Min(state.score + policy.successIncrement, MAX_HEALTH_SCORE);
      Tracked(HealthState(score, if score != state.score then now else state.lastAdjustedAt))
  }

  datatype Event = Failure(at: int) | Success(at: int) | Look(at: int)

  function After(entry: Entry, policy: Policy, e: Event): Entry {
    match e
    case Failure(at) => AfterFailure(entry, policy, at)
    case Success(at) => AfterSuccess(entry, policy, at)
    case Look(at) => Seen(entry, policy, at)
  }

  lemma AfterSound(entry: Entry, policy: Policy, e: Event)
    requires Sound(entry, e.at)
    ensures Sound(After(entry, policy, e), e.at)
  {
    if entry.Some? {
      RecoveredSound(entry.value, policy, e.at);
    }
  }

  /** What an event does depends only on what a look at that moment would see. */
  lemma AfterSeen(entry: Entry, policy: Policy, e: Event)
    requires Sound(entry, e.at)
    ensures After(Seen(entry, policy, e.at), policy, e) == After(entry, policy, e)
  {
    RecoveryIsExact(entry, policy, e.at, e.at);
    if entry.Some? {
      RecoveredSound(entry.value, policy, e.at);
      hide Recovered;
      var state := Recovered(entry.value, policy, e.at);
      if state.score < MAX_HEALTH_SCORE {
        SeenAgain(state, entry, policy, e.at);
      }
    }
  }

  lemma SeenAgain(state: HealthState, entry: Entry, policy: Policy, now: int)
    requires entry.Some? && state == Recovered(entry.value, policy, now) && state.score < MAX_HEALTH_SCORE
    requires Seen(Seen(entry, policy, now), policy, now) == Seen(entry, policy, now)
    ensures Recovered(state, policy, now) == state
  {
  }

  /** An entry at full health, whenever it was last adjusted, is as good as none. */
  lemma UntrackedIsFull(policy: Policy, lastAdjustedAt: int, e: Event)
    ensures After(Some(HealthState(MAX_HEALTH_SCORE, lastAdjustedAt)), policy, e) == After(None, policy, e)
  {
  }

  // Whole traces

  function AfterAll(entry: Entry, policy: Policy, events: seq<Event>): Entry {
    if events == [] then entry else After(AfterAll(entry, policy, events[..|events| - 1]), policy, events[|events| - 1])
  }

  function WithoutLooks(events: seq<Event>): seq<Event> {
    if events == [] then []
    else WithoutLooks(events[..|events| - 1]) + if events[|events| - 1].Look? then [] else [events[|events| - 1]]
  }

  predicate Ordered(events: seq<Event>, now: int) {
    && (forall i, j :: 0 <= i < j < |events| ==> events[i].at <= events[j].at)
    && (forall i :: 0 <= i < |events| ==> events[i].at <= now)
  }

  lemma {:induction false} TraceSound(entry: Entry, policy: Policy, events: seq<Event>, start: int, now: int)
    requires Sound(entry, start) && Ordered(events, now) && start <= now
    requires forall i :: 0 <= i < |events| ==> start <= events[i].at
    ensures Sound(AfterAll(entry, policy, events), if events == [] then start else events[|events| - 1].at)
    ensures 0 <= Score(AfterAll(entry, policy, events)) <= MAX_HEALTH_SCORE
  {
    hide After;
    if events != [] {
      var front, last := events[..|events| - 1], events[|events| - 1];
      TraceSound(entry, policy, front, start, last.at);
      AfterSound(AfterAll(entry, policy, front), policy, last);
    }
  }

  lemma WithoutLooksOrdered(events: seq<Event>, start: int, now: int)
    requires Ordered(events, now) && forall i :: 0 <= i < |events| ==> start <= events[i].at
    ensures Ordered(WithoutLooks(events), now)
    ensures forall i :: 0 <= i < |WithoutLooks(events)| ==> start <= WithoutLooks(events)[i].at
  {
    if events != [] {
      var front, last := events[..|events| - 1], events[|events| - 1];
      WithoutLooksOrdered(front, start, last.at);
      assert forall i :: 0 <= i < |WithoutLooks(front)| ==> start <= WithoutLooks(front)[i].at <= last.at;
    }
  }

  /** Looks inserted anywhere in a trace change no later score: what is seen afterwards, whenever
      that is, is what would have been seen without them. */
  lemma {:induction false} LooksChangeNothing(entry: Entry, policy: Policy, events: seq<Event>, start: int, now: int)
    requires Sound(entry, start) && start <= now && Ordered(events, now)
    requires forall i :: 0 <= i < |events| ==> start <= events[i].at
    ensures Seen(AfterAll(entry, policy, events), policy, now) ==
              Seen(AfterAll(entry, policy, WithoutLooks(events)), policy, now)
  {
    hide Seen, After;
    if events != [] {
      var front, last := events[..|events| - 1], events[|events| - 1];
      LooksChangeNothing(entry, policy, front, start, last.at);
      WithoutLooksOrdered(front, start, last.at);
      var a, b := AfterAll(entry, policy, front), AfterAll(entry, policy, WithoutLooks(front));
      StillSound(entry, policy, front, start, last.at);
      StillSound(entry, policy, WithoutLooks(front), start, last.at);
      if last.Look? {
        LookIsSeen(a, policy, last);
        RecoveryIsExact(a, policy, last.at, now);
        RecoveryIsExact(b, policy, last.at, now);
        assert WithoutLooks(events) == WithoutLooks(front);
      } else {
        AfterSeen(a, policy, last);
        AfterSeen(b, policy, last);
        assert WithoutLooks(events)[..|WithoutLooks(front)|] == WithoutLooks(front);
      }
    }
  }

  lemma LookIsSeen(entry: Entry, policy: Policy, e: Event)
    requires e.Look?
    ensures After(entry, policy, e) == Seen(entry, policy, e.at)
  {
  }

  lemma StillSound(entry: Entry, policy: Policy, events: seq<Event>, start: int, now: int)
    requires Sound(entry, start) && start <= now && Ordered(events, now)
    requires forall i :: 0 <= i < |events| ==> start <= events[i].at
    ensures Sound(AfterAll(entry, policy, events), now)
  {
    TraceSound(entry, policy, events, start, now);
  }

  /** A failure with a penalty costs at least it or brings the score to zero; neither a success nor
      time ever lowers it. */
  lemma ScoresMove(entry: Entry, policy: Policy, e: Event)
    requires Sound(entry, e.at)
    ensures Score(Seen(entry, policy, e.at)) >= Score(entry)
    ensures var before, after := Score(Seen(entry, policy, e.at)), Score(After(entry, policy, e));
            && (e.Failure? ==> after == Max(before - policy.failurePenalty, 0))
            && (e.Success? ==> after == Min(before + policy.successIncrement, MAX_HEALTH_SCORE))
  {
    if entry.Some? {
      RecoveredSound(entry.value, policy, e.at);
    }
  }

  /** A failure or a success that moves the score starts the recovery interval anew; one that cannot
      is only a look. */
  lemma IntervalsRestart(entry: Entry, policy: Policy, at: int)
    requires Sound(entry, at)
    ensures var after := After(entry, policy, Failure(at));
            if policy.failurePenalty > 0 then after.Some? && after.value.lastAdjustedAt == at
            else after == Seen(entry, policy, at)
    ensures var after := After(entry, policy, Success(at));
            if policy.successIncrement > 0 then after.Some? ==> after.value.lastAdjustedAt == at
            else after == Seen(entry, policy, at)
  {
    if entry.Some? {
      RecoveredSound(entry.value, policy, at);
    }
  }

  // The seconds left before a channel at zero is tried again

  function CeilSeconds(duration: nat): nat {
    (duration + SECOND - 1) / SECOND
  }

  function Remaining(entry: Entry, policy: Policy, now: int): Option<int> {
    if entry.Some? && entry.value.score == 0 && policy.recoveryIncrement > 0 then
      Some(CeilSeconds(Max(policy.recoveryInterval - (now - entry.value.lastAdjustedAt), 0)))
    else None
  }

  /** A time is reported exactly for a score of zero that will recover: what is left of the interval,
      rounded up to seconds. */
  lemma RemainingIs(state: HealthState, policy: Policy, now: int)
    ensures var remaining, left := Remaining(Some(state), policy, now),
              policy.recoveryInterval - (now - state.lastAdjustedAt);
            && (remaining.Some? <==> state.score == 0 && policy.recoveryIncrement > 0)
            && (remaining.Some? && left <= 0 ==> remaining.value == 0)
            && (remaining.Some? && left > 0 ==> (remaining.value - 1) * SECOND < left <= remaining.value * SECOND)
  {
  }

  /** After the seconds reported, the score has left zero. */
  lemma RecoversInTime(entry: Entry, policy: Policy, now: int)
    requires Sound(entry, now) && policy.recoveryInterval >= SECOND
    ensures var seen := Seen(entry, policy, now);
            Remaining(seen, policy, now).Some? ==>
              Score(Seen(entry, policy, now + Remaining(seen, policy, now).value * SECOND)) > 0
  {
    var seen := Seen(entry, policy, now);
    if Remaining(seen, policy, now).Some? {
      RecoveredSound(entry.value, policy, now);
      var later := now + Remaining(seen, policy, now).value * SECOND;
      RecoveryIsExact(entry, policy, now, later);
      LeavesZero(seen.value, policy, later);
    }
  }

  lemma LeavesZero(state: HealthState, policy: Policy, later: int)
    requires state.score == 0 && policy.recoveryIncrement > 0 && policy.recoveryInterval >= SECOND
    requires later >= state.lastAdjustedAt + policy.recoveryInterval
    ensures Score(Tracked(Recovered(state, policy, later))) > 0
  {
  }

  class AutoWeightManager {
    var states: map<int, HealthState>

    constructor ()
      ensures states == map[]
    {
      states := map[];
    }

    function EntryOf(upstreamID: int): Entry
      reads this
    {
      if upstreamID in states then Some(states[upstreamID]) else None
    }

    /** Only this channel's entry is touched. */
    twostate predicate OthersUnchanged(upstreamID: int)
      reads this
    {
      forall id :: id != upstreamID ==> EntryOf(id) == old(EntryOf(id))
    }

    method Keep(upstreamID: int, state: HealthState)
      modifies this
      ensures EntryOf(upstreamID) == Tracked(state) && OthersUnchanged(upstreamID)
    {
      states := states[upstreamID := state];
      if state.score == MAX_HEALTH_SCORE {
        states := states - {upstreamID};
      }
    }

    method RecordFailure(upstreamID: int, autoWeightEnabled: bool, policy: Policy, now: int)
      modifies this
      ensures OthersUnchanged(upstreamID)
      ensures EntryOf(upstreamID) ==
              if autoWeightEnabled then After(old(EntryOf(upstreamID)), policy, Failure(now))
                else old(EntryOf(upstreamID))
    {
      if !autoWeightEnabled {
        return;
      }
      var state := HealthState(MAX_HEALTH_SCORE, now);
      if upstreamID in states {
        state := states[upstreamID];
      }
      state := Recovered(state, policy, now);
      state := state.(score := Max(state.score - policy.failurePenalty, 0));
      if policy.failurePenalty > 0 {
        state := state.(lastAdjustedAt := now);
      }
      Keep(upstreamID, state);
    }

    method RecordSuccess(upstreamID: int, autoWeightEnabled: bool, policy: Policy, now: int)
      modifies this
      ensures OthersUnchanged(upstreamID)
      ensures EntryOf(upstreamID) ==
              if autoWeightEnabled then After(old(EntryOf(upstreamID)), policy, Success(now))
                else old(EntryOf(upstreamID))
    {
      if !autoWeightEnabled || upstreamID !in states {
        return;
      }
      var state := Recovered(states[upstreamID], policy, now);
      var previous := state.score;
      state := state.(score := Min(state.score + policy.successIncrement, MAX_HEALTH_SCORE));
      if state.score != previous {
        state := state.(lastAdjustedAt := now);
      }
      Keep(upstreamID, state);
    }

    /** The routing weight a channel currently earns. */
    method Snapshot(upstreamID: int, weight: int, autoWeightEnabled: bool, policy: Policy, now: int)
      returns (s: HealthSnapshot)
      modifies this
      ensures OthersUnchanged(upstreamID)
      ensures EntryOf(upstreamID) ==
              if autoWeightEnabled then After(old(EntryOf(upstreamID)), policy, Look(now)) else old(EntryOf(upstreamID))
      ensures s.score == if autoWeightEnabled then Score(Seen(old(EntryOf(upstreamID)), policy, now))
                else MAX_HEALTH_SCORE
      ensures s.routingWeight == Max(weight, 0) * s.score % TWO_64
      ensures s.effectiveWeight == Max(weight, 0) as real * s.score as real / 100.0
      ensures s.recoveryRemaining ==
              if autoWeightEnabled then Remaining(Seen(old(EntryOf(upstreamID)), policy, now), policy, now) else None
    {
      if !autoWeightEnabled {
        return HealthSnapshot(MAX_HEALTH_SCORE, Max(weight, 0) * MAX_HEALTH_SCORE % TWO_64, Max(weight, 0) as real,
          None);
      }
      var score, remaining := MAX_HEALTH_SCORE, None;
      if upstreamID in states {
        var state := Recovered(states[upstreamID], policy, now);
        score := state.score;
        if score == 0 && policy.recoveryIncrement > 0 {
          var left := Max(policy.recoveryInterval - (now - state.lastAdjustedAt), 0);
          remaining := Some(CeilSeconds(left));
        }
        Keep(upstreamID, state);
      }
      return HealthSnapshot(score, Max(weight, 0) * score % TWO_64, Max(weight, 0) as real * score as real / 100.0,
        remaining);
    }

    /** Restores full health. */
    method Reset(upstreamID: int)
      modifies this
      ensures EntryOf(upstreamID) == None && OthersUnchanged(upstreamID)
    {
      states := states - {upstreamID};
    }
  }
}
