/** Admin authentication while credentials rotate: threads interleaved step by step, each step one
    atomic operation or one critical section. Verifies(hash, token) stands for Argon2id, and tokens
    stand for their keyed fingerprints. */
module Authentication {
  import opened Words

  const MAX_VERIFICATION_WAITERS := 8

  type Verifier = (string, string) -> bool

  datatype Credential = Credential(version: int, hash: string)

  /** A token that passed, and the generation it passed against. */
  datatype CachedToken = CachedToken(version: int, token: string)

  /** Where a call stands. Authenticate runs from Started to Returned, with the generation it
      proved or nothing; Publish runs from Publishing to Published. */
  datatype Call =
    | Started(token: string)
    | Loaded(token: string, version: int)
    | Missed(token: string)
    | Admitted(token: string)
    | Queued(token: string)
    | Granted(token: string)
    | Holding(token: string)
    | Reloaded(token: string, version: int)
    | MissedAgain(token: string, version: int)
    | Read(token: string, version: int, credential: Credential)
    | Verified(token: string, version: int)
    | Checked(token: string, version: int)
    | Releasing(token: string, proved: Option<int>)
    | Returned(token: string, proved: Option<int>)
    | Publishing(credential: Credential)
    | Swapping(credential: Credential, seen: int)
    | Installing(credential: Credential)
    | Clearing(credential: Credential)
    | Published(credential: Credential)

  /** What the calls share: the published generation and snapshot, the cache, and the queue. */
  datatype Shared = Shared(version: int, current: Credential, verified: Option<CachedToken>, waiting: nat,
                           slotFree: bool)

  /** The database's credentials by version, and the calls. */
  datatype State = State(committed: map<int, Credential>, lastCommitted: int, shared: Shared, calls: map<int, Call>)

  datatype Step =
    | Rotate(hash: string, expectedVersion: int)
    | Authenticate(id: int, token: string)
    | Publish(id: int, version: int)
    | Advance(id: int, admits: bool)

  predicate Hit(s: Shared, token: string, version: int) {
    s.verified == Some(CachedToken(version, token))
  }

  datatype Move = Move(shared: Shared, call: Call)

  /** The next step of a call; admits is what the throttle would say. */
  function Moved(verifies: Verifier, s: Shared, call: Call, admits: bool): Move {
    match call
    case Started(token) => Move(s, Loaded(token, s.version))
    case Loaded(token, version) => Move(s, if Hit(s, token, version) then Returned(token, Some(version))
      else Missed(token))
    case Missed(token) => Move(s, if admits then Admitted(token) else Returned(token, None))
    case Admitted(token) =>
      if s.waiting >= MAX_VERIFICATION_WAITERS then Move(s, Returned(token, None))
      else Move(s.(waiting := s.waiting + 1), Queued(token))
    case Queued(token) => if s.slotFree then Move(s.(slotFree := false), Granted(token)) else Move(s, call)
    case Granted(token) => Move(s.(waiting := Max(s.waiting - 1, 0)), Holding(token))
    case Holding(token) => Move(s, Reloaded(token, s.version))
    case Reloaded(token, version) =>
      Move(s, if Hit(s, token, version) then Releasing(token, Some(version)) else MissedAgain(token, version))
    case MissedAgain(token, version) =>
      Move(s, if s.current.version == version then Read(token, version, s.current) else Releasing(token, None))
    case Read(token, version, credential) =>
      Move(s, if verifies(credential.hash, token) then Verified(token, version) else Releasing(token, None))
    case Verified(token, version) =>
      Move(s, if s.version == version then Checked(token, version) else Releasing(token, None))
    case Checked(token, version) =>
      Move(s.(verified := Some(CachedToken(version, token))), Releasing(token, Some(version)))
    case Releasing(token, proved) => Move(s.(slotFree := true), Returned(token, proved))
    case Publishing(credential) =>
      Move(s, if credential.version <= s.version then Installing(credential) else Swapping(credential, s.version))
    case Swapping(credential, seen) =>
      if s.version == seen then Move(s.(version := credential.version), Installing(credential))
      else Move(s, Publishing(credential))
    case Installing(credential) =>
      Move(s.(current := if credential.version > s.current.version then credential else s.current),
        Clearing(credential))
    case Clearing(credential) => Move(s.(verified := None), Published(credential))
    case _ => Move(s, call)
  }

  /** The state a step leads to. A rotation commits only if the sole credential is still at the
      version it expects, and only what was committed is published. */
  function Next(verifies: Verifier, s: State, step: Step): State {
    match step
    case Rotate(hash, expectedVersion) =>
      if s.lastCommitted == expectedVersion then
        var next := s.lastCommitted + 1;
        s.(lastCommitted := next, committed := s.committed[next := Credential(next, hash)])
      else s
    case Authenticate(id, token) => if id in s.calls then s else s.(calls := s.calls[id := Started(token)])
    case Publish(id, version) =>
      if id in s.calls || version !in s.committed then s
        else s.(calls := s.calls[id := Publishing(s.committed[version])])
    case Advance(id, admits) =>
      if id in s.calls then
        var m := Moved(verifies, s.shared, s.calls[id], admits);
        s.(shared := m.shared, calls := s.calls[id := m.call])
      else s
  }

  function Initial(credential: Credential): State {
    State(map[credential.version := credential], credential.version,
      Shared(credential.version, credential, None, 0, true), map[])
  }

  ghost predicate IsRun(verifies: Verifier, states: seq<State>, steps: seq<Step>) {
    && |states| == |steps| + 1
    && forall i :: 0 <= i < |steps| ==> states[i + 1] == Next(verifies, states[i], steps[i])
  }

  // What every reachable state keeps

  type Credentials = map<int, Credential>

  predicate Proved(verifies: Verifier, committed: Credentials, version: int, token: string) {
    version in committed && verifies(committed[version].hash, token)
  }

  predicate IsCommitted(committed: Credentials, credential: Credential) {
    credential.version in committed && committed[credential.version] == credential
  }

  /** What a call has established so far. */
  predicate CallSound(verifies: Verifier, committed: Credentials, shared: Shared, call: Call) {
    match call
    case Read(_, version, credential) => credential.version == version && IsCommitted(committed, credential)
    case Verified(token, version) => Proved(verifies, committed, version, token)
    case Checked(token, version) => Proved(verifies, committed, version, token)
    case Releasing(token, proved) => proved.Some? ==> Proved(verifies, committed, proved.value, token)
    case Returned(token, proved) => proved.Some? ==> Proved(verifies, committed, proved.value, token)
    case Publishing(credential) => IsCommitted(committed, credential)
    case Swapping(credential, seen) => IsCommitted(committed, credential) && seen < credential.version
    case Installing(credential) => IsCommitted(committed, credential) && credential.version <= shared.version
    case Clearing(credential) => IsCommitted(committed, credential) && credential.version <= shared.current.version
    case Published(credential) => IsCommitted(committed, credential) && credential.version <= shared.current.version
    case _ => true
  }

  /** The cache and the snapshot rest on committed credentials, and the generation is never behind
      the snapshot. */
  predicate SharedSound(verifies: Verifier, committed: Credentials, s: Shared) {
    && s.version in committed
    && IsCommitted(committed, s.current) && s.current.version <= s.version
    && (s.verified.Some? ==> Proved(verifies, committed, s.verified.value.version, s.verified.value.token))
  }

  predicate HoldsSlot(call: Call) {
    call.Granted? || call.Holding? || call.Reloaded? || call.MissedAgain? || call.Read? || call.Verified? ||
      call.Checked? || call.Releasing?
  }

  predicate Waits(call: Call) {
    call.Queued? || call.Granted?
  }

  ghost function Holders(s: State): set<int> {
    set id | id in s.calls && HoldsSlot(s.calls[id])
  }

  ghost function Waiters(s: State): set<int> {
    set id | id in s.calls && Waits(s.calls[id])
  }

  ghost predicate CredentialsSound(verifies: Verifier, s: State) {
    && (forall v :: v in s.committed ==> s.committed[v].version == v && v <= s.lastCommitted)
    && SharedSound(verifies, s.committed, s.shared)
    && (forall id :: id in s.calls ==> CallSound(verifies, s.committed, s.shared, s.calls[id]))
  }

  ghost predicate QueueSound(s: State) {
    && s.shared.waiting == |Waiters(s)| <= MAX_VERIFICATION_WAITERS
    && |Holders(s)| == if s.shared.slotFree then 0 else 1
  }

  /** Neither the generation nor the snapshot goes back. */
  predicate NotBehind(before: Shared, after: Shared) {
    before.version <= after.version && before.current.version <= after.current.version
  }

  lemma MoveKeepsCredentials(verifies: Verifier, committed: Credentials, s: Shared, call: Call, admits: bool)
    requires SharedSound(verifies, committed, s) && CallSound(verifies, committed, s, call)
    ensures var m := Moved(verifies, s, call, admits);
            && SharedSound(verifies, committed, m.shared) && CallSound(verifies, committed, m.shared, m.call)
            && NotBehind(s, m.shared)
  {
  }

  lemma CallStaysSound(verifies: Verifier, before: Credentials, after: Credentials, was: Shared, now: Shared,
                       call: Call)
    requires CallSound(verifies, before, was, call) && NotBehind(was, now)
    requires forall v :: v in before ==> v in after && after[v] == before[v]
    ensures CallSound(verifies, after, now, call)
  {
  }

  lemma StepKeepsCredentials(verifies: Verifier, s: State, step: Step)
    requires CredentialsSound(verifies, s)
    ensures CredentialsSound(verifies, Next(verifies, s, step))
    ensures NotBehind(s.shared, Next(verifies, s, step).shared)
  {
    var s' := Next(verifies, s, step);
    if step.Advance? && step.id in s.calls {
      MoveKeepsCredentials(verifies, s.committed, s.shared, s.calls[step.id], step.admits);
    }
    hide Moved, CallSound, SharedSound;
    if !step.Advance? {
      CommittedMore(verifies, s, step);
    }
    forall id | id in s'.calls
      ensures CallSound(verifies, s'.committed, s'.shared, s'.calls[id])
    {
      if id !in s.calls {
        NewCallSound(verifies, s, step, id);
      } else if step != Advance(id, true) && step != Advance(id, false) {
        CallStaysSound(verifies, s.committed, s'.committed, s.shared, s'.shared, s.calls[id]);
      }
    }
  }

  lemma CommittedMore(verifies: Verifier, s: State, step: Step)
    requires CredentialsSound(verifies, s) && !step.Advance?
    ensures SharedSound(verifies, Next(verifies, s, step).committed, s.shared)
  {
  }

  lemma NewCallSound(verifies: Verifier, s: State, step: Step, id: int)
    requires CredentialsSound(verifies, s) && id !in s.calls && id in Next(verifies, s, step).calls
    ensures var s' := Next(verifies, s, step); CallSound(verifies, s'.committed, s'.shared, s'.calls[id])
  {
  }

  // The queue

  lemma CountAfter(before: set<int>, after: set<int>, id: int)
    requires forall x :: x != id ==> (x in before <==> x in after)
    ensures |after| == |before| + (if id in after then 1 else 0) - (if id in before then 1 else 0)
  {
    forall x
      ensures x in before - {id} <==> x in after - {id}
    {
    }
    assert before - {id} == after - {id};
    assert |before - {id}| == |before| - if id in before then 1 else 0;
    assert |after - {id}| == |after| - if id in after then 1 else 0;
  }

  /** A call joins the holders when the slot is free and frees it when it leaves; it joins fewer
      than eight waiters. */
  lemma MoveKeepsQueue(verifies: Verifier, s: Shared, call: Call, admits: bool)
    ensures var m := Moved(verifies, s, call, admits);
            && (Waits(call) ==> s.waiting >= 1 ==> m.shared.waiting == s.waiting - (if Waits(m.call) then 0 else 1))
            && (!Waits(call) ==> m.shared.waiting == s.waiting + (if Waits(m.call) then 1 else 0))
            && (!Waits(call) && Waits(m.call) ==> s.waiting < MAX_VERIFICATION_WAITERS)
            && (HoldsSlot(call) ==> m.shared.slotFree == (s.slotFree || !HoldsSlot(m.call)))
            && (!HoldsSlot(call) && HoldsSlot(m.call) ==> s.slotFree && !m.shared.slotFree)
            && (!HoldsSlot(call) && !HoldsSlot(m.call) ==> m.shared.slotFree == s.slotFree)
  {
  }

  lemma StepKeepsQueue(verifies: Verifier, s: State, step: Step)
    requires QueueSound(s)
    ensures QueueSound(Next(verifies, s, step))
  {
    var s' := Next(verifies, s, step);
    if step.Advance? && step.id in s.calls {
      MoveKeepsQueue(verifies, s.shared, s.calls[step.id], step.admits);
      hide Moved;
      CountAfter(Holders(s), Holders(s'), step.id);
      CountAfter(Waiters(s), Waiters(s'), step.id);
      HolderCounts(s, step.id);
    } else {
      hide Moved;
      assert Holders(s') == Holders(s) && Waiters(s') == Waiters(s);
    }
  }

  lemma HolderCounts(s: State, id: int)
    ensures id in Holders(s) ==> |Holders(s)| >= 1
    ensures id in Waiters(s) ==> |Waiters(s)| >= 1
  {
  }

  // Over whole runs

  lemma {:induction false} RunKeeps(verifies: Verifier, states: seq<State>, steps: seq<Step>, credential: Credential,
                                    k: nat)
    requires IsRun(verifies, states, steps) && states[0] == Initial(credential) && k < |states|
    ensures CredentialsSound(verifies, states[k]) && QueueSound(states[k])
  {
    hide CredentialsSound(), QueueSound(), Next;
    if k == 0 {
      InitialSound(verifies, credential);
    } else {
      RunKeeps(verifies, states, steps, credential, k - 1);
      StepKeepsCredentials(verifies, states[k - 1], steps[k - 1]);
      StepKeepsQueue(verifies, states[k - 1], steps[k - 1]);
    }
  }

  lemma InitialSound(verifies: Verifier, credential: Credential)
    ensures CredentialsSound(verifies, Initial(credential)) && QueueSound(Initial(credential))
  {
  }

  /** At any moment at most one call has the verification slot, and at most eight wait for it. */
  lemma OneVerification(verifies: Verifier, states: seq<State>, steps: seq<Step>, credential: Credential, k: nat,
                        a: int, b: int)
    requires IsRun(verifies, states, steps) && states[0] == Initial(credential) && k < |states|
    ensures a in Holders(states[k]) && b in Holders(states[k]) ==> a == b
    ensures |Waiters(states[k])| <= MAX_VERIFICATION_WAITERS
  {
    RunKeeps(verifies, states, steps, credential, k);
    var holders := Holders(states[k]);
    if a in holders && b in holders {
      TwoOfOne(holders, a, b);
    }
  }

  lemma TwoOfOne(s: set<int>, a: int, b: int)
    requires a in s && b in s && |s| <= 1
    ensures a == b
  {
    assert |s - {a}| == |s| - 1;
    assert b in s - {a} || a == b;
  }

  /** Neither the published generation nor the snapshot ever goes back. */
  lemma {:induction false} GenerationsOnlyGrow(verifies: Verifier, states: seq<State>, steps: seq<Step>,
                                               credential: Credential, i: nat, k: nat)
    requires IsRun(verifies, states, steps) && states[0] == Initial(credential) && i <= k < |states|
    ensures NotBehind(states[i].shared, states[k].shared)
    decreases k
  {
    hide CredentialsSound(), QueueSound(), Next;
    if i < k {
      GenerationsOnlyGrow(verifies, states, steps, credential, i, k - 1);
      RunKeeps(verifies, states, steps, credential, k - 1);
      StepKeepsCredentials(verifies, states[k - 1], steps[k - 1]);
    }
  }

  /** The generation a call goes by. */
  function GoesBy(call: Call): Option<int> {
    match call
    case Loaded(_, version) => Some(version)
    case Reloaded(_, version) => Some(version)
    case MissedAgain(_, version) => Some(version)
    case Read(_, version, _) => Some(version)
    case Verified(_, version) => Some(version)
    case Checked(_, version) => Some(version)
    case Releasing(_, proved) => proved
    case Returned(_, proved) => proved
    case _ => None
  }

  predicate UnderWay(s: State, id: int) {
    id in s.calls && !s.calls[id].Returned?
  }

  /** A call takes its generation from the published one, or keeps the one it has. */
  lemma TakesPublished(verifies: Verifier, s: State, step: Step, id: int)
    requires var s' := Next(verifies, s, step); id in s'.calls && GoesBy(s'.calls[id]).Some?
    ensures id in s.calls
    ensures GoesBy(Next(verifies, s, step).calls[id]) == GoesBy(s.calls[id]) ||
            (UnderWay(s, id) && GoesBy(Next(verifies, s, step).calls[id]) == Some(s.shared.version))
  {
  }

  /** A generation a call goes by was the published one at some moment of the call. */
  lemma {:induction false} SeenMeanwhile(verifies: Verifier, states: seq<State>, steps: seq<Step>,
                                         credential: Credential, k: nat, id: int)
    returns (seen: nat)
    requires IsRun(verifies, states, steps) && states[0] == Initial(credential) && k < |states|
    requires id in states[k].calls && GoesBy(states[k].calls[id]).Some?
    ensures seen <= k && UnderWay(states[seen], id) && GoesBy(states[k].calls[id]) == Some(states[seen].shared.version)
    decreases k
  {
    hide Next;
    if k == 0 {
      assert false;
    } else {
      TakesPublished(verifies, states[k - 1], steps[k - 1], id);
      if GoesBy(states[k].calls[id]) == GoesBy(states[k - 1].calls[id]) {
        seen := SeenMeanwhile(verifies, states, steps, credential, k - 1, id);
      } else {
        seen := k - 1;
      }
    }
  }

  /** It is never older than the generation published when the call began. */
  lemma {:induction false} NeverOlder(verifies: Verifier, states: seq<State>, steps: seq<Step>, credential: Credential,
                                      start: nat, k: nat, id: int)
    requires IsRun(verifies, states, steps) && states[0] == Initial(credential) && start <= k < |states|
    requires id in states[start].calls && states[start].calls[id].Started?
    requires id in states[k].calls && GoesBy(states[k].calls[id]).Some?
    ensures GoesBy(states[k].calls[id]).value >= states[start].shared.version
    decreases k
  {
    hide Next;
    if start < k {
      TakesPublished(verifies, states[k - 1], steps[k - 1], id);
      if GoesBy(states[k].calls[id]) == GoesBy(states[k - 1].calls[id]) {
        NeverOlder(verifies, states, steps, credential, start, k - 1, id);
      } else {
        GenerationsOnlyGrow(verifies, states, steps, credential, start, k - 1);
      }
    }
  }

  /** Whatever else rotates, publishes, stores late or waits: a call that returns a generation has a
      token that verifies against the one credential of that generation, which was the published one
      at some moment of the call. */
  lemma ReturnsOnlyProved(verifies: Verifier, states: seq<State>, steps: seq<Step>, credential: Credential, k: nat,
                          id: int, token: string, v: int)
    requires IsRun(verifies, states, steps) && states[0] == Initial(credential) && k < |states|
    requires id in states[k].calls && states[k].calls[id] == Returned(token, Some(v))
    ensures v in states[k].committed && verifies(states[k].committed[v].hash, token)
    ensures exists seen :: 0 <= seen <= k && UnderWay(states[seen], id) && states[seen].shared.version == v
  {
    RunKeeps(verifies, states, steps, credential, k);
    var seen := SeenMeanwhile(verifies, states, steps, credential, k, id);
    assert UnderWay(states[seen], id);
  }

  // Publications

  /** In every run a publication that is over has installed its credential, or a newer one, and the
      published generation is no older. */
  lemma PublishedTakesEffect(verifies: Verifier, states: seq<State>, steps: seq<Step>, credential: Credential, k: nat,
                             id: int, published: Credential)
    requires IsRun(verifies, states, steps) && states[0] == Initial(credential) && k < |states|
    requires id in states[k].calls && states[k].calls[id] == Published(published)
    ensures published.version in states[k].committed && states[k].committed[published.version] == published
    ensures published.version <= states[k].shared.current.version <= states[k].shared.version
  {
    hide Next;
    RunKeeps(verifies, states, steps, credential, k);
  }

  lemma BecomesPublished(verifies: Verifier, s: State, step: Step, id: int, published: Credential)
    requires var s' := Next(verifies, s, step); id in s'.calls && s'.calls[id] == Published(published)
    ensures id in s.calls
    ensures s.calls[id] == Published(published) ||
            (s.calls[id] == Clearing(published) && Next(verifies, s, step).shared.verified.None?)
  {
  }

  /** And the cache was emptied by it. */
  lemma {:induction false} ClearedMeanwhile(verifies: Verifier, states: seq<State>, steps: seq<Step>,
                                            credential: Credential, k: nat, id: int, published: Credential)
    returns (cleared: nat)
    requires IsRun(verifies, states, steps) && states[0] == Initial(credential) && k < |states|
    requires id in states[k].calls && states[k].calls[id] == Published(published)
    ensures 0 < cleared <= k && states[cleared].shared.verified.None?
    ensures id in states[cleared - 1].calls && states[cleared - 1].calls[id] == Clearing(published)
    ensures id in states[cleared].calls && states[cleared].calls[id] == Published(published)
    decreases k
  {
    hide Next;
    if k == 0 {
      assert false;
    } else {
      BecomesPublished(verifies, states[k - 1], steps[k - 1], id, published);
      if states[k - 1].calls[id] == Published(published) {
        cleared := ClearedMeanwhile(verifies, states, steps, credential, k - 1, id, published);
      } else {
        cleared := k;
      }
    }
  }

  /** A call begun once a publication is over never returns a generation older than what it
      published. */
  lemma NothingOlderAfter(verifies: Verifier, states: seq<State>, steps: seq<Step>, credential: Credential,
                          over: nat, publication: int, published: Credential, start: nat, k: nat, id: int,
                          token: string, v: int)
    requires IsRun(verifies, states, steps) && states[0] == Initial(credential) && over <= start <= k < |states|
    requires publication in states[over].calls && states[over].calls[publication] == Published(published)
    requires id in states[start].calls && states[start].calls[id] == Started(token)
    requires id in states[k].calls && states[k].calls[id] == Returned(token, Some(v))
    ensures v >= published.version
  {
    hide Next;
    PublishedTakesEffect(verifies, states, steps, credential, over, publication, published);
    GenerationsOnlyGrow(verifies, states, steps, credential, over, start);
    NeverOlder(verifies, states, steps, credential, start, k, id);
  }

  /** What a returned generation rests on: the cache held the token for the generation just loaded,
      or the token was verified and the generation was still the published one after that. */
  predicate Rests(s: State, id: int, token: string, version: int) {
    && id in s.calls
    && (|| (s.calls[id] == Loaded(token, version) && Hit(s.shared, token, version))
        || (s.calls[id] == Reloaded(token, version) && Hit(s.shared, token, version))
        || (s.calls[id] == Verified(token, version) && s.shared.version == version))
  }

  predicate HasProved(call: Call, token: string, version: int) {
    call == Checked(token, version) || call == Releasing(token, Some(version)) || call == Returned(token, Some(version))
  }

  lemma StepProves(verifies: Verifier, s: State, step: Step, id: int, token: string, version: int)
    requires var s' := Next(verifies, s, step); id in s'.calls && HasProved(s'.calls[id], token, version)
    ensures id in s.calls && (HasProved(s.calls[id], token, version) || Rests(s, id, token, version))
  {
  }

  lemma {:induction false} RestsOn(verifies: Verifier, states: seq<State>, steps: seq<Step>, credential: Credential,
                                   k: nat, id: int, token: string, version: int)
    returns (j: nat)
    requires IsRun(verifies, states, steps) && states[0] == Initial(credential) && k < |states|
    requires id in states[k].calls && HasProved(states[k].calls[id], token, version)
    ensures j < k && Rests(states[j], id, token, version)
    decreases k
  {
    hide Next, Rests;
    if k == 0 {
      assert false;
    } else {
      StepProves(verifies, states[k - 1], steps[k - 1], id, token, version);
      if HasProved(states[k - 1].calls[id], token, version) {
        j := RestsOn(verifies, states, steps, credential, k - 1, id, token, version);
      } else {
        j := k - 1;
      }
    }
  }

  // Rotations

  lemma RotationIs(verifies: Verifier, s: State, step: Step)
    ensures s.lastCommitted <= Next(verifies, s, step).lastCommitted
    ensures step.Rotate? && step.expectedVersion != s.lastCommitted ==> Next(verifies, s, step) == s
    ensures step.Rotate? && step.expectedVersion == s.lastCommitted ==>
              Next(verifies, s, step).lastCommitted == s.lastCommitted + 1 &&
                Next(verifies, s, step).committed ==
                  s.committed[s.lastCommitted + 1 := Credential(s.lastCommitted + 1, step.hash)]
    ensures forall v :: v in s.committed && v <= s.lastCommitted ==>
                          v in Next(verifies, s, step).committed &&
                            Next(verifies, s, step).committed[v] == s.committed[v]
  {
    hide Moved;
  }

  /** A version's credential is committed once: in every run it stays what it was. */
  lemma {:induction false} CommittedOnce(verifies: Verifier, states: seq<State>, steps: seq<Step>,
                                         credential: Credential, i: nat, k: nat)
    requires IsRun(verifies, states, steps) && states[0] == Initial(credential) && i <= k < |states|
    ensures states[i].lastCommitted <= states[k].lastCommitted
    ensures forall v :: v in states[i].committed ==>
              v in states[k].committed && states[k].committed[v] == states[i].committed[v]
    decreases k
  {
    hide QueueSound(), Next;
    if i < k {
      CommittedOnce(verifies, states, steps, credential, i, k - 1);
      RunKeeps(verifies, states, steps, credential, k - 1);
      RotationIs(verifies, states[k - 1], steps[k - 1]);
    }
  }

  /** Of the rotations of a run that expect one version at most the first to find it commits: after
      it, any other leaves the whole state as it is. */
  lemma OneRotationWins(verifies: Verifier, states: seq<State>, steps: seq<Step>, credential: Credential, i: nat,
                        k: nat)
    requires IsRun(verifies, states, steps) && states[0] == Initial(credential) && i < k < |steps|
    requires steps[i].Rotate? && steps[k].Rotate? && steps[i].expectedVersion == steps[k].expectedVersion
    requires states[i + 1] != states[i]
    ensures states[k + 1] == states[k]
  {
    hide Next;
    RotationIs(verifies, states[i], steps[i]);
    CommittedOnce(verifies, states, steps, credential, i + 1, k);
    RotationIs(verifies, states[k], steps[k]);
  }

  // Undisturbed

  function Alone(verifies: Verifier, m: Move, admits: bool, count: nat): Move
    decreases count
  {
    if count == 0 then m else Alone(verifies, Moved(verifies, m.shared, m.call, admits), admits, count - 1)
  }

  /** The steps of a whole call, and of a publication. */
  const CALL_STEPS: nat := 13
  const PUBLISH_STEPS: nat := 4

  lemma {:induction false} StaysReturned(verifies: Verifier, m: Move, admits: bool, count: nat)
    requires m.call.Returned?
    ensures Alone(verifies, m, admits, count) == m
    decreases count
  {
    if count > 0 {
      StaysReturned(verifies, m, admits, count - 1);
    }
  }

  lemma {:induction false} AloneTwice(verifies: Verifier, m: Move, admits: bool, first: nat, second: nat)
    ensures Alone(verifies, Alone(verifies, m, admits, first), admits, second) ==
            Alone(verifies, m, admits, first + second)
    decreases first
  {
    hide Moved;
    if first > 0 {
      AloneTwice(verifies, Moved(verifies, m.shared, m.call, admits), admits, first - 1, second);
    }
  }

  /** From a missed cache to the slot, up to the second look at the cache. */
  lemma ToTheSlot(verifies: Verifier, s: Shared, token: string)
    requires s.slotFree && s.waiting < MAX_VERIFICATION_WAITERS && !Hit(s, token, s.version)
    ensures Alone(verifies, Move(s, Missed(token)), true, 6) ==
            Move(s.(slotFree := false), MissedAgain(token, s.version))
  {
    hide Alone;
    var waiting := s.(waiting := s.waiting + 1);
    var held := s.(slotFree := false);
    OneStep(verifies, Move(s, Missed(token)), true, 6);
    OneStep(verifies, Move(s, Admitted(token)), true, 5);
    OneStep(verifies, Move(waiting, Queued(token)), true, 4);
    OneStep(verifies, Move(waiting.(slotFree := false), Granted(token)), true, 3);
    OneStep(verifies, Move(held, Holding(token)), true, 2);
    OneStep(verifies, Move(held, Reloaded(token, s.version)), true, 1);
    NoStep(verifies, Move(held, MissedAgain(token, s.version)), true);
  }

  lemma NoStep(verifies: Verifier, m: Move, admits: bool)
    ensures Alone(verifies, m, admits, 0) == m
  {
  }

  lemma OneStep(verifies: Verifier, m: Move, admits: bool, count: nat)
    requires count > 0
    ensures Alone(verifies, m, admits, count) ==
            Alone(verifies, Moved(verifies, m.shared, m.call, admits), admits, count - 1)
  {
  }

  lemma InTheSlot(verifies: Verifier, s: Shared, token: string)
    requires s.current.version == s.version
    ensures Alone(verifies, Move(s, MissedAgain(token, s.version)), true, 5) ==
            if verifies(s.current.hash, token)
            then Move(Proving(s, token).(slotFree := true), Returned(token, Some(s.version)))
            else Move(s.(slotFree := true), Returned(token, None))
  {
    hide Alone;
    var read := Move(s, Read(token, s.version, s.current));
    OneStep(verifies, Move(s, MissedAgain(token, s.version)), true, 5);
    OneStep(verifies, read, true, 4);
    if verifies(s.current.hash, token) {
      Proves(verifies, s, token);
    } else {
      Refuses(verifies, s, token);
    }
  }

  /** The cache remembers the token for the published generation. */
  function Proving(s: Shared, token: string): Shared {
    s.(verified := Some(CachedToken(s.version, token)))
  }

  lemma Proves(verifies: Verifier, s: Shared, token: string)
    ensures Alone(verifies, Move(s, Verified(token, s.version)), true, 3) ==
            Move(Proving(s, token).(slotFree := true), Returned(token, Some(s.version)))
  {
    hide Alone;
    var stored := Move(Proving(s, token), Releasing(token, Some(s.version)));
    OneStep(verifies, Move(s, Verified(token, s.version)), true, 3);
    OneStep(verifies, Move(s, Checked(token, s.version)), true, 2);
    OneStep(verifies, stored, true, 1);
    NoStep(verifies, Move(stored.shared.(slotFree := true), Returned(token, Some(s.version))), true);
  }

  lemma Refuses(verifies: Verifier, s: Shared, token: string)
    ensures Alone(verifies, Move(s, Releasing(token, None)), true, 3) ==
            Move(s.(slotFree := true), Returned(token, None))
  {
    hide Alone;
    OneStep(verifies, Move(s, Releasing(token, None)), true, 3);
    StaysReturned(verifies, Move(s.(slotFree := true), Returned(token, None)), true, 2);
  }

  /** A token the cache holds for the published generation passes at once, whatever the throttle says
      and whoever has the slot. */
  lemma CachedPasses(verifies: Verifier, s: Shared, token: string, admits: bool)
    requires s.verified == Some(CachedToken(s.version, token))
    ensures Alone(verifies, Move(s, Started(token)), admits, 2) == Move(s, Returned(token, Some(s.version)))
    ensures Alone(verifies, Move(s, Started(token)), admits, CALL_STEPS) == Move(s, Returned(token, Some(s.version)))
  {
    var returned := Move(s, Returned(token, Some(s.version)));
    hide Alone;
    OneStep(verifies, Move(s, Started(token)), admits, 2);
    OneStep(verifies, Move(s, Loaded(token, s.version)), admits, 1);
    OneStep(verifies, Move(s, Started(token)), admits, 13);
    OneStep(verifies, Move(s, Loaded(token, s.version)), admits, 12);
    StaysReturned(verifies, returned, admits, 0);
    StaysReturned(verifies, returned, admits, 11);
  }

  /** A call that waited for the slot while another proved the same token verifies nothing. */
  lemma SecondLookPasses(verifies: Verifier, s: Shared, token: string, admits: bool)
    requires s.verified == Some(CachedToken(s.version, token))
    ensures Alone(verifies, Move(s, Holding(token)), admits, 3) ==
            Move(s.(slotFree := true), Returned(token, Some(s.version)))
  {
    hide Alone;
    OneStep(verifies, Move(s, Holding(token)), admits, 3);
    OneStep(verifies, Move(s, Reloaded(token, s.version)), admits, 2);
    OneStep(verifies, Move(s, Releasing(token, Some(s.version))), admits, 1);
    NoStep(verifies, Move(s.(slotFree := true), Returned(token, Some(s.version))), admits);
  }

  /** With nothing rotating meanwhile and the slot free, a call returns the current generation exactly
      when its token verifies and is cached or admitted by the throttle. The cache holds it then, and
      nothing else has changed. */
  lemma AloneProvesIff(verifies: Verifier, committed: Credentials, s: Shared, token: string, admits: bool)
    requires SharedSound(verifies, committed, s)
    requires s.slotFree && s.waiting < MAX_VERIFICATION_WAITERS && s.current.version == s.version
    ensures Alone(verifies, Move(s, Started(token)), admits, CALL_STEPS) ==
            if verifies(s.current.hash, token) && (admits || s.verified == Some(CachedToken(s.version, token)))
            then Move(Proving(s, token), Returned(token, Some(s.version)))
            else Move(s, Returned(token, None))
  {
    if Hit(s, token, s.version) {
      CachedPasses(verifies, s, token, admits);
    } else {
      hide Alone;
      var missed := Move(s, Missed(token));
      OneStep(verifies, Move(s, Started(token)), admits, 13);
      OneStep(verifies, Move(s, Loaded(token, s.version)), admits, 12);
      if admits {
        ToTheSlot(verifies, s, token);
        AloneTwice(verifies, missed, true, 6, 5);
        InTheSlot(verifies, s.(slotFree := false), token);
      } else {
        OneStep(verifies, missed, admits, 11);
        StaysReturned(verifies, Move(s, Returned(token, None)), admits, 10);
      }
    }
  }

  /** The credential is installed, if it is the newest, and the cache is empty. */
  function Publication(s: Shared, credential: Credential): Shared {
    s.(version := Max(s.version, credential.version),
    current := if credential.version > s.current.version then credential else s.current, verified := None)
  }

  /** An undisturbed publication does so, and nothing else. */
  lemma AlonePublishes(verifies: Verifier, s: Shared, credential: Credential)
    ensures Alone(verifies, Move(s, Publishing(credential)), true, PUBLISH_STEPS) ==
            Move(Publication(s, credential), Published(credential))
  {
    hide Alone;
    OneStep(verifies, Move(s, Publishing(credential)), true, 4);
    if credential.version > s.version {
      OneStep(verifies, Move(s, Swapping(credential, s.version)), true, 3);
      Installs(verifies, s.(version := credential.version), credential);
    } else {
      OneStep(verifies, Move(s, Installing(credential)), true, 3);
      OneStep(verifies, Move(Installed(s, credential), Clearing(credential)), true, 2);
      OneStep(verifies, Move(Publication(s, credential), Published(credential)), true, 1);
      NoStep(verifies, Move(Publication(s, credential), Published(credential)), true);
    }
  }

  /** One that another overtook between its two looks at the generation goes on all the same. */
  lemma OvertakenPublishes(verifies: Verifier, s: Shared, credential: Credential, seen: int)
    requires seen < credential.version
    ensures Alone(verifies, Move(s, Swapping(credential, seen)), true, PUBLISH_STEPS + 1) ==
            Move(Publication(s, credential), Published(credential))
  {
    hide Alone;
    OneStep(verifies, Move(s, Swapping(credential, seen)), true, 5);
    if s.version == seen {
      Installs(verifies, s.(version := credential.version), credential);
      AloneTwice(verifies, Move(s.(version := credential.version), Installing(credential)), true, 2, 2);
      OneStep(verifies, Move(Publication(s, credential), Published(credential)), true, 2);
      OneStep(verifies, Move(Publication(s, credential), Published(credential)), true, 1);
      NoStep(verifies, Move(Publication(s, credential), Published(credential)), true);
    } else {
      AlonePublishes(verifies, s, credential);
    }
  }

  function Installed(s: Shared, credential: Credential): Shared {
    s.(current := if credential.version > s.current.version then credential else s.current)
  }

  lemma Installs(verifies: Verifier, s: Shared, credential: Credential)
    ensures Alone(verifies, Move(s, Installing(credential)), true, 2) ==
            Move(Installed(s, credential).(verified := None), Published(credential))
  {
    hide Alone;
    OneStep(verifies, Move(s, Installing(credential)), true, 2);
    OneStep(verifies, Move(Installed(s, credential), Clearing(credential)), true, 1);
    NoStep(verifies, Move(Installed(s, credential).(verified := None), Published(credential)), true);
  }

  function Advanced(verifies: Verifier, s: State, id: int, count: nat): State
    decreases count
  {
    if count == 0 then s else Advanced(verifies, Next(verifies, s, Advance(id, true)), id, count - 1)
  }

  lemma {:induction false} AdvancedAlone(verifies: Verifier, s: State, id: int, count: nat)
    requires id in s.calls
    ensures var m, t := Alone(verifies, Move(s.shared, s.calls[id]), true, count), Advanced(verifies, s, id, count);
            && t.committed == s.committed && t.lastCommitted == s.lastCommitted && t.shared == m.shared
            && t.calls == s.calls[id := m.call]
    decreases count
  {
    hide Moved;
    if count > 0 {
      AdvancedAlone(verifies, Next(verifies, s, Advance(id, true)), id, count - 1);
    }
  }

  /** A rotation takes effect: once the new hash is committed and published, a call passes exactly
      when its token verifies against it, whatever was cached before. */
  lemma RotationTakesEffect(verifies: Verifier, s: State, hash: string, token: string, publication: int, id: int)
    requires CredentialsSound(verifies, s) && s.shared.slotFree && s.shared.waiting < MAX_VERIFICATION_WAITERS
    requires publication !in s.calls && id !in s.calls && publication != id
    ensures var version := s.lastCommitted + 1;
            var rotated := Next(verifies, s, Rotate(hash, s.lastCommitted));
            var published := Advanced(verifies, Next(verifies, rotated, Publish(publication, version)), publication,
                               PUBLISH_STEPS);
            var called := Advanced(verifies, Next(verifies, published, Authenticate(id, token)), id, CALL_STEPS);
            && id in called.calls
            && called.calls[id] == Returned(token, if verifies(hash, token) then Some(version) else None)
  {
    var version := s.lastCommitted + 1;
    var credential := Credential(version, hash);
    var rotated := Next(verifies, s, Rotate(hash, s.lastCommitted));
    var publishing := Next(verifies, rotated, Publish(publication, version));
    hide Alone, Advanced, Moved;
    AdvancedAlone(verifies, publishing, publication, PUBLISH_STEPS);
    AlonePublishes(verifies, s.shared, credential);
    var published := Advanced(verifies, publishing, publication, PUBLISH_STEPS);
    var called := Next(verifies, published, Authenticate(id, token));
    AdvancedAlone(verifies, called, id, CALL_STEPS);
    AloneProvesIff(verifies, published.committed, published.shared, token, true);
  }
}
