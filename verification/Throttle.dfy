/** How often callers who have not proved a token may pay for a verification. */
module Throttle {
  import opened Words
  import opened Division

  /** Times are in nanoseconds. */
  const SECOND := 1_000_000_000
  const FREE_ATTEMPTS := 5
  const BASE_BACKOFF := SECOND
  const MAX_BACKOFF := 60 * SECOND
  const CLIENT_RESET_AFTER := 15 * 60 * SECOND
  const MAX_TRACKED_CLIENTS := 4096
  const GLOBAL_WINDOW := 60 * SECOND
  const GLOBAL_THRESHOLD := 100
  const GLOBAL_COOLDOWN := 30 * SECOND

  const TWO_32 := 0x1_0000_0000

  type Uint32 = x: int | 0 <= x < TWO_32

  /** Loopback callers and unknown ones are not tracked one by one. */
  datatype Client = Loopback | Remote(addr: int) | Unknown

  datatype ClientState = ClientState(failures: Uint32, blockedUntil: Option<int>, lastFailure: int)

  datatype Gate = Gate(windowStart: int, failures: Uint32, cooldownUntil: Option<int>)

  // Backing off

  function PowerOfTwo(n: nat): nat {
    if n == 0 then 1 else 2 * PowerOfTwo(n - 1)
  }

  /** The delay after so many failures in a row, shifted in 64 bits; none within the free attempts. */
  function Backoff(failures: Uint32): Option<int> {
    if failures <= FREE_ATTEMPTS then None
    else
      var exponent := failures - FREE_ATTEMPTS - 1;
      if exponent >= 63 then Some(MAX_BACKOFF)
      else
        var delay := WrapInt64(BASE_BACKOFF * PowerOfTwo(exponent));
        Some(if delay <= 0 || delay > MAX_BACKOFF then MAX_BACKOFF else delay)
  }

  lemma {:induction false} PowersMultiply(a: nat, b: nat)
    ensures PowerOfTwo(a + b) == PowerOfTwo(a) * PowerOfTwo(b)
  {
    if a > 0 {
      PowersMultiply(a - 1, b);
      TwiceProduct(PowerOfTwo(a - 1), PowerOfTwo(b));
    }
  }

  lemma TwiceProduct(x: nat, y: nat)
    ensures 2 * (x * y) == (2 * x) * y
  {
  }

  lemma {:induction false} PowersGrow(low: nat, high: nat)
    requires low <= high
    ensures 1 <= PowerOfTwo(low) <= PowerOfTwo(high)
    decreases high
  {
    if low < high {
      PowersGrow(low, high - 1);
    } else if low > 0 {
      PowersGrow(low - 1, high - 1);
    }
  }

  lemma SmallPowers()
    ensures PowerOfTwo(6) == 64 && PowerOfTwo(31) == 0x8000_0000
  {
    assert PowerOfTwo(3) == 8;
    PowersMultiply(3, 3);
    PowersMultiply(6, 6);
    PowersMultiply(12, 12);
    PowersMultiply(24, 6);
    PowersMultiply(30, 1);
  }

  /** A multiple of 2^36 wraps around to one: to nothing, to a negative, or past the cap. */
  lemma WrappedIsLarge(y: nat)
    ensures WrapInt64(0x10_0000_0000 * y) <= 0 || WrapInt64(0x10_0000_0000 * y) > MAX_BACKOFF
  {
  }

  /** The delay doubles from a second up to the cap and stays there: where the shift overflows, what
      it leaves is never taken for a shorter delay. */
  lemma BackoffDoubles(failures: Uint32)
    ensures failures <= FREE_ATTEMPTS ==> Backoff(failures) == None
    ensures failures > FREE_ATTEMPTS ==>
              Backoff(failures) == Some(Min(BASE_BACKOFF * PowerOfTwo(failures - FREE_ATTEMPTS - 1), MAX_BACKOFF))
  {
    if failures > FREE_ATTEMPTS {
      var e := failures - FREE_ATTEMPTS - 1;
      SmallPowers();
      if e <= 31 {
        PowersGrow(e, 31);
        assert 0 < BASE_BACKOFF * PowerOfTwo(e) < TWO_63;
      } else {
        PowersGrow(6, e);
        PowersGrow(0, e - 31);
        PowersMultiply(31, e - 31);
        assert BASE_BACKOFF == 0x20 * 31_250_000;
        var y := 31_250_000 * PowerOfTwo(e - 31);
        assert BASE_BACKOFF * PowerOfTwo(e) == 0x10_0000_0000 * y;
        WrappedIsLarge(y);
      }
    }
  }

  // One failure

  predicate Blocked(state: ClientState, now: int) {
    state.blockedUntil.Some? && now < state.blockedUntil.value
  }

  predicate Quiet(state: ClientState, now: int) {
    now - state.lastFailure >= CLIENT_RESET_AFTER
  }

  function AfterFailure(state: Option<ClientState>, now: int): ClientState {
    var streak := if state.None? || Quiet(state.value, now) then 0 else state.value.failures;
    var failures := (streak + 1) % TWO_32;
    var delay := Backoff(failures);
    ClientState(failures, if delay.Some? then Some(now + delay.value) else None, now)
  }

  lemma QuietStartsAnew(state: ClientState, now: int)
    requires Quiet(state, now)
    ensures AfterFailure(Some(state), now) == AfterFailure(None, now)
  {
  }

  /** A client's failures add up while less than fifteen minutes pass between them, up to 2^32; from
      the sixth on each blocks it. */
  lemma StreakGoesOn(state: ClientState, now: int)
    requires now - state.lastFailure < 15 * 60 * SECOND && state.failures < TWO_32 - 1
    ensures AfterFailure(Some(state), now).failures == state.failures + 1
    ensures AfterFailure(None, now).failures == 1
    ensures AfterFailure(Some(state), now).lastFailure == now
    ensures AfterFailure(Some(state), now).blockedUntil ==
            if state.failures < 5 then None
            else Some(now + Min(SECOND * PowerOfTwo(state.failures - 5), 60 * SECOND))
  {
    BackoffDoubles(state.failures + 1);
  }

  /** The gate of failures that come within a minute of the first of them. */
  function GateAfterAll(g: Gate, failures: seq<int>): Gate {
    if failures == [] then g
    else GateAfterFailure(GateAfterAll(g, failures[..|failures| - 1]), failures[|failures| - 1])
  }

  predicate WithinAMinute(first: int, failures: seq<int>) {
    forall i :: 0 <= i < |failures| ==> first <= failures[i] < first + 60 * SECOND
  }

  lemma {:induction false} GateCounts(g: Gate, first: int, failures: seq<int>)
    requires first - g.windowStart >= 60 * SECOND && WithinAMinute(first, [first] + failures) && |failures| < 99
    ensures GateAfterAll(g, [first] + failures) == Gate(first, 1 + |failures|, g.cooldownUntil)
  {
    var all := [first] + failures;
    if failures == [] {
      assert all[..0] == [] && GateAfterAll(g, []) == g;
    } else {
      var front := failures[..|failures| - 1];
      assert all[..|all| - 1] == [first] + front;
      assert forall i :: 0 <= i < |all| - 1 ==> ([first] + front)[i] == all[i];
      GateCounts(g, first, front);
      assert all[|all| - 1] == failures[|failures| - 1];
    }
  }

  /** A hundred failures within a minute close the gate for thirty seconds from the last; fewer leave
      it as it was. */
  lemma HundredthCloses(g: Gate, first: int, failures: seq<int>)
    requires first - g.windowStart >= 60 * SECOND && WithinAMinute(first, [first] + failures) && |failures| <= 99
    ensures var after := GateAfterAll(g, [first] + failures);
            after.cooldownUntil ==
              if |failures| == 99 then Some(failures[98] + 30 * SECOND) else g.cooldownUntil
  {
    var all := [first] + failures;
    if |failures| == 99 {
      var front := failures[..98];
      assert all[..99] == [first] + front;
      assert forall i :: 0 <= i < 99 ==> ([first] + front)[i] == all[i];
      GateCounts(g, first, front);
      assert all[99] == failures[98];
    } else {
      GateCounts(g, first, failures);
    }
  }

  function GateAfterFailure(g: Gate, now: int): Gate {
    var counted := if now - g.windowStart >= GLOBAL_WINDOW then Gate(now, 1, g.cooldownUntil)
                   else g.(failures := (g.failures + 1) % TWO_32);
    if counted.failures >= GLOBAL_THRESHOLD then Gate(now, 0, Some(now + GLOBAL_COOLDOWN)) else counted
  }

  class Throttle {
    var clients: map<int, ClientState>
    var remote: Gate
    var loopback: Gate

    constructor (now: int)
      ensures clients == map[] && remote == loopback == Gate(now, 0, None)
    {
      clients := map[];
      remote, loopback := Gate(now, 0, None), Gate(now, 0, None);
    }

    predicate Valid()
      reads this
    {
      |clients| <= MAX_TRACKED_CLIENTS
    }

    function GateFor(client: Client): Gate
      reads this
    {
      if client.Loopback? then loopback else remote
    }

    /** Whether the client may pay for a verification right now. */
    method Admit(client: Client, now: int) returns (admitted: bool)
      modifies `remote, `loopback
      ensures admitted <==>
                && !(old(GateFor(client)).cooldownUntil.Some? && now < old(GateFor(client)).cooldownUntil.value)
                && !(client.Remote? && client.addr in clients && Blocked(clients[client.addr], now))
      ensures client.Loopback? ==> remote == old(remote)
      ensures !client.Loopback? ==> loopback == old(loopback)
      // A cooldown that is over is forgotten, and the gate changes in nothing else.
      ensures var gate := old(GateFor(client));
              GateFor(client) == if gate.cooldownUntil.Some? && now < gate.cooldownUntil.value then gate
                else gate.(cooldownUntil := None)
    {
      var gate := GateFor(client);
      if gate.cooldownUntil.Some? && now < gate.cooldownUntil.value {
        return false;
      }
      if client.Loopback? {
        loopback := gate.(cooldownUntil := None);
      } else {
        remote := gate.(cooldownUntil := None);
      }
      if !client.Remote? || client.addr !in clients || clients[client.addr].blockedUntil.None? {
        return true;
      }
      return now >= clients[client.addr].blockedUntil.value;
    }

    /** Forgets a client's streak once it has proved a token. */
    method RecordSuccess(client: Client)
      modifies `clients
      ensures clients == if client.Remote? then old(clients) - {client.addr} else old(clients)
    {
      if client.Remote? {
        clients := clients - {client.addr};
      }
    }

    /** Makes room only among clients gone quiet and not still penalised. */
    method Prune(now: int) returns (hasRoom: bool)
      requires Valid()
      modifies `clients
      ensures Valid() && (hasRoom <==> |clients| < MAX_TRACKED_CLIENTS)
      ensures |old(clients)| < MAX_TRACKED_CLIENTS ==> clients == old(clients)
      ensures forall a :: a in clients ==> a in old(clients) && clients[a] == old(clients)[a]
      ensures forall a :: a in old(clients) && a !in clients ==>
                Quiet(old(clients)[a], now) && !Blocked(old(clients)[a], now) && hasRoom
      ensures |old(clients)| >= MAX_TRACKED_CLIENTS ==>
                forall a :: a in clients ==> !Quiet(clients[a], now) || Blocked(clients[a], now)
    {
      if |clients| < MAX_TRACKED_CLIENTS {
        return true;
      }
      var kept := map a | a in clients && !(Quiet(clients[a], now) && !Blocked(clients[a], now)) :: clients[a];
      FewerKeys(kept, clients);
      clients := kept;
      hasRoom := |clients| < MAX_TRACKED_CLIENTS;
    }

    lemma FewerKeys(a: map<int, ClientState>, b: map<int, ClientState>)
      requires a.Keys <= b.Keys
      ensures |a| <= |b| && ((exists k :: k in b && k !in a) ==> |a| < |b|)
    {
      if k :| k in b && k !in a {
        assert k in b.Keys - a.Keys;
      }
      assert b.Keys == a.Keys + (b.Keys - a.Keys);
      assert |b.Keys| == |a.Keys| + |b.Keys - a.Keys|;
      assert |a.Keys| == |a| && |b.Keys| == |b|;
    }

    /** Charges a failure to the client's gate and, if it can be told apart, to the client. However
        many addresses fail, no client still penalised loses its penalty, and the table stays bounded. */
    method RecordFailure(client: Client, now: int)
      requires Valid()
      modifies this
      ensures Valid()
      ensures loopback == if client.Loopback? then GateAfterFailure(old(loopback), now) else old(loopback)
      ensures remote == if client.Loopback? then old(remote) else GateAfterFailure(old(remote), now)
      ensures !client.Remote? ==> clients == old(clients)
      ensures forall a :: a in old(clients) && Blocked(old(clients)[a], now) && client != Remote(a) ==>
                            a in clients && clients[a] == old(clients)[a]
      ensures forall a :: a in clients && client != Remote(a) ==> a in old(clients) && clients[a] == old(clients)[a]
      // The streak of a client listed goes on, unless it was quiet for fifteen minutes; one not listed starts.
      ensures client.Remote? && client.addr in old(clients) ==>
                client.addr in clients && clients[client.addr] == AfterFailure(Some(old(clients)[client.addr]), now)
      ensures client.Remote? && client.addr !in old(clients) && client.addr in clients ==>
                clients[client.addr] == AfterFailure(None, now)
      // A client goes without an entry only where every other's still counts.
      ensures client.Remote? && client.addr !in clients ==>
                && |clients| == MAX_TRACKED_CLIENTS
                && forall a :: a in clients ==> !Quiet(clients[a], now) || Blocked(clients[a], now)
    {
      if client.Loopback? {
        loopback := GateAfterFailure(loopback, now);
      } else {
        remote := GateAfterFailure(remote, now);
      }
      if !client.Remote? {
        return;
      }
      hide Backoff;
      var hasRoom := Prune(now);
      var state := if client.addr in clients then Some(clients[client.addr]) else None;
      if state.None? && !hasRoom {
        return;
      }
      if client.addr in old(clients) && client.addr !in clients {
        QuietStartsAnew(old(clients)[client.addr], now);
      }
      ghost var before := clients;
      clients := clients[client.addr := AfterFailure(state, now)];
      assert clients.Keys == before.Keys + {client.addr};
      assert |clients.Keys| == |clients| && |before.Keys| == |before|;
    }
  }
}
