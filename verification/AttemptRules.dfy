/** The order in which things may happen to a proxied request, when it is over, and what its client
    then receives. */
module AttemptRules {
  import opened Words
  import opened AttemptTrace
  import K = Keys

  /** A channel that routing chose, with its keys. */
  datatype Selection = Selection(channel: int, keys: seq<K.Key>)

  /** How channels are found: by model, by a selector naming one, or by the channel and key that
      answered the response this request continues. */
  datatype Routing = ByModel | Direct(selection: Option<Selection>) | ForResponse(route: Selection, keyID: int)

  datatype Config = Config(routing: Routing, maxRetries: int, holdsStreams: bool, sameChannelPause: int)

  const NO_KEY := K.Key(0, "")

  function FindKey(keys: seq<K.Key>, id: int): Option<K.Key> {
    if keys == [] then None else if keys[0].id == id then Some(keys[0]) else FindKey(keys[1..], id)
  }

  /** The key that answered before; none when the channel had none then and has some now. */
  function ResponseRouteKey(keyID: int, keys: seq<K.Key>): Option<K.Key> {
    if keyID == 0 then (if keys == [] then Some(NO_KEY) else None) else FindKey(keys, keyID)
  }

  /** The response cannot be continued: the key that answered it is gone. */
  predicate KeyGone(routing: Routing) {
    routing.ForResponse? && ResponseRouteKey(routing.keyID, routing.route.keys).None?
  }

  /** A stream answering this call is held back until it shows content. */
  predicate HoldsStream(config: Config, attempt: nat) {
    config.holdsStreams && attempt < config.maxRetries
  }

  // What may happen next

  /** The channel just called is to be called again, with another of its keys. */
  predicate Staying(events: seq<Event>) {
    events != [] &&
    var e := events[|events| - 1];
    if e.Called? then e.stays else (e.ClientThere? || e.Built?) && Staying(events[..|events| - 1])
  }

  function StayedOn(events: seq<Event>): int
    requires Staying(events)
  {
    var e := events[|events| - 1];
    if e.Called? then e.channel else StayedOn(events[..|events| - 1])
  }

  predicate CalledLast(calls: seq<Event>, channel: int) {
    calls != [] && calls[|calls| - 1].Called? && calls[|calls| - 1].channel == channel
  }

  /** A pause comes before the channel is called. */
  predicate Pauses(config: Config, before: seq<Event>, channel: int) {
    config.sameChannelPause > 0 && CalledLast(Calls(before), channel) && !Staying(before)
  }

  /** A named channel is the only one. */
  predicate MayGo(routing: Routing, channel: int) {
    match routing
    case ByModel => true
    case Direct(selection) => selection.Some? && channel == selection.value.channel
    case ForResponse(route, _) => channel == route.channel
  }

  /** A continued response goes on with the key that answered before. */
  predicate MayUse(routing: Routing, key: int) {
    routing.ForResponse? ==>
      ResponseRouteKey(routing.keyID, routing.route.keys).Some? &&
      key == ResponseRouteKey(routing.keyID, routing.route.keys).value.id
  }

  /** A call is to a channel and with a key not ruled out. A channel or a key that sits out is used
      only once routing had nothing else to offer. */
  predicate MayCallAtAll(config: Config, before: seq<Event>, e: Event) {
    && e.Called? && MayGo(config.routing, e.channel) && MayUse(config.routing, e.key)
    && !Barred(before, e.channel) && !KeyBarred(before, e.key)
    && (Cooled(e.channel) in before ==> NothingWasOffered(before))
    && (e.sittingOut && config.routing.ByModel? ==> Staying(before) || NothingWasOffered(before))
  }

  /** A request for the channel was built and, unless the channel is kept, its rate limit admitted it. */
  predicate Cleared(asked: seq<Event>, channel: int) {
    && asked != []
    && (asked[|asked| - 1] == Admitted(channel) || (asked[|asked| - 1] == Built(channel) && Staying(asked)))
  }

  function BeforePause(before: seq<Event>): seq<Event> {
    if before != [] && before[|before| - 1].Waited? then before[..|before| - 1] else before
  }

  /** A call, what it may come to, and what comes before it. */
  predicate MayCall(config: Config, before: seq<Event>, e: Event) {
    && MayCallAtAll(config, before, e) && Cleared(BeforePause(before), e.channel)
    && (e.stays ==> !config.routing.ForResponse? && e.key != 0 && e.answer.Refused? && KeyRefused(e.answer.status))
    && (Pauses(config, before, e.channel) ==> before[|before| - 1] == Waited(e.channel))
    && (e.answer.StreamFailed? ==> HoldsStream(config, |Calls(before)|))
    && (e.answer.Served? ==> (e.answer.primed <==> e.answer.streaming && HoldsStream(config, |Calls(before)|)))
  }

  /** A rate limit is asked once the request is built, and the account answering a continued response
      is the same. */
  predicate Prepared(config: Config, before: seq<Event>, channel: int) {
    && before != []
    && before[|before| - 1] == if config.routing.ForResponse? then SameAccount else Built(channel)
  }

  /** What the last event leaves room for. A call that failed is followed by a look at the client; a
      channel is built for, its account and its rate limit asked, paused for and called in this order. */
  predicate MayFollow(before: seq<Event>, e: Event) {
    before != [] ==>
      match before[|before| - 1]
      case Called(_, _, _, _, _) => e.ClientThere? || e.ClientGone?
      case ClientThere =>
        Staying(before) ==> (e.Built? || e.Misconfigured? || e.KeysSpent?) && e.channel == StayedOn(before)
      case Built(channel) =>
        e.AccountChanged? || e.SameAccount? || ((e.Admitted? || e.RateLimited? || e.Called?) && e.channel == channel)
      case SameAccount => e.Admitted? || e.RateLimited?
      case Admitted(channel) => e.GoneInPause? || ((e.Waited? || e.Called?) && e.channel == channel)
      case Waited(channel) => e.Called? && e.channel == channel
      case _ => true
  }

  /** What may happen to a request not over, after the events before. */
  ghost predicate MayHappen(config: Config, before: seq<Event>, e: Event) {
    && !KeyGone(config.routing) && MayFollow(before, e)
    && match e
       case Called(_, _, _, _, _) => MayCall(config, before, e)
       case Misconfigured(channel) => !Barred(before, channel)
       case Built(channel) => !Barred(before, channel)
       case AccountChanged => config.routing.ForResponse? && Prepares(before, config.routing.route.channel)
       case SameAccount => config.routing.ForResponse? && Prepares(before, config.routing.route.channel)
       case RateLimited(channel) => !Staying(before) && !Barred(before, channel) && Prepared(config, before, channel)
       case Admitted(channel) => !Staying(before) && Prepared(config, before, channel)
       case KeysSpent(channel) => !config.routing.ForResponse? && !Barred(before, channel)
       case Cooled(channel) =>
         config.routing.ByModel? && !Barred(before, channel) && e !in before && !NothingWasOffered(before)
       case Waited(channel) => Pauses(config, before, channel)
       case GoneInPause => exists channel :: Pauses(config, before, channel)
       case ClientThere => before != [] && before[|before| - 1].Called?
       case ClientGone => before != [] && before[|before| - 1].Called?
       case NothingOffered(exclusions) =>
         && config.routing.ByModel?
         && forall c :: c in exclusions <==> Barred(before, c) || (Cooled(c) in before && !NothingWasOffered(before))
       case SelectionFailed => config.routing.ByModel?
  }

  /** A request for the channel was just built. */
  predicate Prepares(before: seq<Event>, channel: int) {
    before != [] && before[|before| - 1] == Built(channel)
  }

  /** The last event ends the request: a call that served it or was the last there may be, the
      client gone, a route that cannot be had, or routing with nothing left but what was ruled out. */
  ghost predicate Finished(config: Config, events: seq<Event>) {
    events != [] &&
    match events[|events| - 1]
    case Called(_, _, _, answer, _) => answer.Served? || |Calls(events)| > config.maxRetries
    case NothingOffered(exclusions) => forall c :: c in exclusions ==> Barred(events, c)
    case e => e.ClientGone? || e.GoneInPause? || e.SelectionFailed? || e.AccountChanged?
  }

  /** Each event was one that might happen then, to a request not over. */
  ghost predicate Orderly(config: Config, events: seq<Event>) {
    forall j :: 0 <= j < |events| ==> !Finished(config, events[..j]) && MayHappen(config, events[..j], events[j])
  }

  /** The request is over: its last event ended it, or the one channel it could go to is ruled out,
      or there is none. */
  ghost predicate Stopped(config: Config, events: seq<Event>) {
    || Finished(config, events)
    || KeyGone(config.routing)
    || (config.routing.Direct? &&
         (config.routing.selection.None? || Barred(events, config.routing.selection.value.channel)))
    || (config.routing.ForResponse? && Barred(events, config.routing.route.channel))
  }

  lemma OneMoreEvent(config: Config, events: seq<Event>, e: Event)
    requires Orderly(config, events) && !Finished(config, events) && MayHappen(config, events, e)
    ensures Orderly(config, events + [e])
  {
    var all := events + [e];
    forall j | 0 <= j < |all|
      ensures !Finished(config, all[..j]) && MayHappen(config, all[..j], all[j])
    {
      assert all[..j] == events[..j];
      if j == |events| {
        assert all[..j] == events;
      }
    }
  }

  // Runs

  predicate NoneServed(calls: seq<Event>) {
    forall i :: 0 <= i < |calls| && calls[i].Called? ==> !calls[i].answer.Served?
  }

  predicate OnlyLastServed(calls: seq<Event>) {
    forall i :: 0 <= i < |calls| - 1 && calls[i].Called? ==> !calls[i].answer.Served?
  }

  predicate EndsServed(calls: seq<Event>) {
    calls != [] && calls[|calls| - 1].Called? && calls[|calls| - 1].answer.Served?
  }

  lemma KeyNotGone(config: Config, events: seq<Event>)
    requires Orderly(config, events) && events != []
    ensures !KeyGone(config.routing)
  {
    assert MayHappen(config, events[..0], events[0]);
  }

  lemma OrderlyBefore(config: Config, before: seq<Event>, e: Event)
    requires Orderly(config, before + [e])
    ensures Orderly(config, before) && !Finished(config, before) && MayHappen(config, before, e)
  {
    hide MayHappen(), Finished();
    var all := before + [e];
    assert all[..|before|] == before && all[|before|] == e;
    assert forall j :: 0 <= j < |before| ==> before[..j] == all[..j] && before[j] == all[j];
  }

  lemma NothingCalled()
    ensures Calls([]) == [] && NoneCalledAgain([])
  {
  }

  /** Nothing ruled out is called again, and nothing is called after a call that served, or beyond the
      retries. */
  lemma {:induction false} OrderMeans(config: Config, events: seq<Event>)
    requires Orderly(config, events)
    ensures NoneCalledAgain(events) && OnlyLastServed(Calls(events))
    ensures |Calls(events)| <= Max(config.maxRetries, 0) + 1
    ensures !Finished(config, events) ==> NoneServed(Calls(events)) && |Calls(events)| <= Max(config.maxRetries, 0)
  {
    hide Orderly(), MayHappen(), NoneCalledAgain, Calls, Barred;
    NothingCalled();
    if events != [] {
      var before, e := events[..|events| - 1], events[|events| - 1];
      assert events == before + [e];
      OrderlyBefore(config, before, e);
      OrderMeans(config, before);
      Happened(before, e);
      OneMoreCalled(config, before, e);
    }
  }

  lemma OneMoreCalled(config: Config, before: seq<Event>, e: Event)
    requires NoneCalledAgain(before) && MayHappen(config, before, e)
    ensures NoneCalledAgain(before + [e])
  {
    var all := before + [e];
    forall i, j | 0 <= i < j < |all| && all[j].Called?
      ensures !BarsChannel(all[i], all[j].channel) && !BarsKey(all[i], all[j].key)
    {
      assert all[i] == before[i];
      if j < |before| {
        assert all[j] == before[j];
      }
    }
  }

  // What the client receives

  /** The stream that failed last, if one did. */
  predicate LastStream(calls: seq<Event>, call: nat) {
    && call < |calls| && calls[call].Called? && calls[call].answer.StreamFailed?
    && forall i :: call < i < |calls| && calls[i].Called? ==> !calls[i].answer.StreamFailed?
  }

  /** The request ended with no answer that could be passed on, whatever was called before. */
  predicate BrokenOff(events: seq<Event>) {
    events != [] && (events[|events| - 1].SelectionFailed? || events[|events| - 1].GoneInPause?)
  }

  predicate ChangedAccount(events: seq<Event>) {
    events != [] && events[|events| - 1].AccountChanged?
  }

  /** The status the request's own row gives, when no call is its answer. */
  function OwnStatus(config: Config, events: seq<Event>): Option<int> {
    var calls := Calls(events);
    if EndsServed(calls) || AnyStreamFailed(calls) then None
    else if BrokenOff(events) then Some(if events[|events| - 1].GoneInPause? then 499 else 500)
    else if ChangedAccount(events) then Some(409)
    else if KeyGone(config.routing) then Some(404)
    else if calls == [] then Some(NoChannelStatus(events))
    else None
  }

  /** The last call's answer, if it had one; instead, the last stream that failed, if one did. */
  predicate GivesLast(calls: seq<Event>, delivered: Option<nat>, failed: bool) {
    if AnyStreamFailed(calls) then delivered.Some? && LastStream(calls, delivered.value) && !failed
    else if calls != [] && calls[|calls| - 1].Called? && calls[|calls| - 1].answer.NoAnswer?
    then delivered.None? && failed
    else calls != [] && delivered == Some(|calls| - 1) && !failed
  }

  /** The client receives what served the request; else the last stream that failed, whose headers it
      has; else the last answer, unless the request was broken off or its account had changed. */
  predicate Delivers(events: seq<Event>, delivered: Option<nat>, failed: bool) {
    var calls := Calls(events);
    if EndsServed(calls) then delivered == Some(|calls| - 1) && !failed
    else if BrokenOff(events) && !AnyStreamFailed(calls) then delivered.None? && failed
    else if ChangedAccount(events) || calls == [] then delivered.None? && !failed
    else GivesLast(calls, delivered, failed)
  }
}
