/** Forwarding one request: choosing a channel and a key, calling it, and trying another while the
    retry limit allows. What the upstream, the routing query and the client do is left open. */
module ProxyAttempts {
  import opened Words
  import opened AttemptTrace
  import opened AttemptRules
  import opened AttemptLog
  import K = Keys

  method Clock() returns (now: int)
  {
    now := *;
  }

  /** The channels routing passes over. */
  function RoutingExclusions(excluded: set<int>, cooling: set<int>, lastResort: bool): set<int> {
    if lastResort then excluded else excluded + cooling
  }

  /** Which key a channel is called with, from a rotation position, while some keys are refused and
      some sit out: the one that answered before when a response is continued. */
  function PickedKey(routing: Routing, selection: Selection, start: nat, refused: set<int>, out: set<int>): K.Picked {
    if routing.ForResponse? then
      var key := ResponseRouteKey(routing.keyID, selection.keys);
      if key.Some? then K.Picked(key.value, false) else K.NoKey
    else if selection.keys == [] then K.Picked(NO_KEY, false)
    else K.Chosen(selection.keys, start, refused, out)
  }

  /** A stored response cannot be continued as its key is gone, or as its account has changed. */
  datatype Choice =
    | SelectFailed(status: int)
    | RouteGone(status: int)
    | NoneLeft
    | Chosen(selection: Selection, key: K.Key, sittingOut: bool, stayed: bool)

  lemma Shrinks(all: set<int>, out: set<int>, channel: int)
    requires channel in all && channel !in out
    ensures |all - (out + {channel})| < |all - out|
  {
    assert all - (out + {channel}) == (all - out) - {channel};
  }

  /** What one request knows about the channels and keys it has tried. */
  class Routes {
    const config: Config
    /** The channels there are. */
    const channels: set<int>
    const picker: K.KeyPicker

    /** Out for the rest of the request; waiting until the others are spent. */
    var excluded: set<int>
    var cooling: set<int>
    var lastResort: bool
    /** Keys turned away as unauthorized. */
    var refused: set<int>
    /** The channel to stay on, for another of its keys. */
    var stay: Option<Selection>
    var anyRateLimited: bool
    var anyMisconfigured: bool
    /** Channels that refused with what may be their own fault, and those charged with a failure. */
    var rejected: seq<int>
    var charged: seq<int>
    ghost var events: seq<Event>

    constructor (config: Config, channels: set<int>, picker: K.KeyPicker)
      requires Named(config.routing, channels)
      ensures this.config == config && this.channels == channels && this.picker == picker
      ensures Valid() && events == [] && !lastResort
    {
      this.config, this.channels, this.picker := config, channels, picker;
      excluded, cooling, lastResort, refused, stay := {}, {}, false, {}, None;
      anyRateLimited, anyMisconfigured, rejected, charged := false, false, [], [];
      events := [];
    }

    /** A channel named beforehand is one of those there are. */
    static ghost predicate Named(routing: Routing, channels: set<int>) {
      && (routing.Direct? && routing.selection.Some? ==> routing.selection.value.channel in channels)
      && (routing.ForResponse? ==> routing.route.channel in channels)
    }

    /** What is remembered is what happened rules out, or makes wait. */
    static ghost predicate Remembers(config: Config, events: seq<Event>, excluded: set<int>, refused: set<int>,
                                     cooling: set<int>, lastResort: bool) {
      && (forall c :: c in excluded <==> Barred(events, c))
      && (forall k :: k in refused <==> KeyBarred(events, k))
      && (forall c :: c in cooling <==> Cooled(c) in events)
      && (lastResort ==> NothingWasOffered(events))
      && (forall c :: c in cooling ==> config.routing.ByModel? && (!lastResort ==> c !in excluded))
    }

    /** What the request has met is remembered, up to the given moment. */
    ghost predicate Knows(happened: seq<Event>)
      reads `excluded, `refused, `cooling, `lastResort, `stay, `rejected, `charged, `anyMisconfigured, `anyRateLimited
    {
      && Named(config.routing, channels)
      && Orderly(config, happened)
      && Remembers(config, happened, excluded, refused, cooling, lastResort)
      && (forall k :: k in refused && config.routing.ForResponse? ==> config.routing.route.channel in excluded)
      && (config.routing.ForResponse? && config.routing.route.channel !in excluded ==>
            !AnyStreamFailed(Calls(happened)))
      && (stay.Some? ==>
            stay.value.channel in channels && stay.value.channel !in excluded &&
              MayGo(config.routing, stay.value.channel))
      && (stay.Some? ==> !config.routing.ForResponse? && (!lastResort ==> stay.value.channel !in cooling))
      && (stay.Some? ==> Staying(happened) && StayedOn(happened) == stay.value.channel)
      && rejected == Rejecting(happened) && charged == Misconfigurations(happened)
      && (anyMisconfigured <==> charged != []) && anyRateLimited == AnyRateLimited(happened)
    }

    ghost predicate Valid()
      reads this
    {
      Knows(events)
    }

    /** The request is not over, and no channel is about to be called. */
    ghost predicate GoesOn()
      reads this
    {
      && !Finished(config, events) && (NothingWasOffered(events) ==> lastResort)
      && (events != [] ==> !Passes(events[|events| - 1]))
    }

    /** The event is part of a call, or leads on to one. */
    static predicate Passes(e: Event) {
      e.Built? || e.SameAccount? || e.Admitted? || e.Waited? || e.Called?
    }

    ghost method Happens(e: Event)
      modifies this`events
      ensures events == old(events) + [e]
      ensures Calls(events) ==
              if e.Called? then Calls(old(events)) + [e] else Calls(old(events))
      ensures Rejecting(events) ==
              if Rejects(e) then Rejecting(old(events)) + [e.channel] else Rejecting(old(events))
      ensures Misconfigurations(events) ==
              if e.Misconfigured? then Misconfigurations(old(events)) + [e.channel] else Misconfigurations(old(events))
      ensures AnyRateLimited(events) == (e.RateLimited? || AnyRateLimited(old(events)))
    {
      Happened(events, e);
      events := events + [e];
    }

    // What is left open; what it comes to is recorded

    /** The routing query: it fails, finds nothing, or finds a channel not excluded. */
    method SelectUpstream(exclusions: set<int>) returns (failed: bool, selected: Option<Selection>)
      modifies `events
      ensures selected.Some? ==> selected.value.channel in channels && selected.value.channel !in exclusions
      ensures selected.Some? ==> !failed && events == old(events)
      ensures selected.None? ==>
                events == old(events) + [if failed then SelectionFailed else NothingOffered(exclusions)]
    {
      failed, selected := *, *;
      if failed || (selected.Some? && (selected.value.channel !in channels || selected.value.channel in exclusions)) {
        selected := None;
      }
      if selected.None? {
        Happens(if failed then SelectionFailed else NothingOffered(exclusions));
      }
    }

    /** A question whose answer is left open; either answer is an event. */
    method Asks(ghost yes: Event, ghost no: Event) returns (so: bool)
      modifies `events
      ensures events == old(events) + [if so then yes else no]
    {
      so := *;
      Happens(if so then yes else no);
    }

    // What is ruled out

    /** A channel ruled out without being called. */
    static lemma OneMoreBarred(config: Config, before: seq<Event>, e: Event, excluded: set<int>, refused: set<int>,
                               cooling: set<int>, lastResort: bool)
      requires Remembers(config, before, excluded, refused, cooling, lastResort)
      requires (e.RateLimited? || e.Misconfigured? || e.KeysSpent?) && e.channel !in excluded
      requires !lastResort ==> e.channel !in cooling
      ensures Remembers(config, before + [e], excluded + {e.channel}, refused, cooling, lastResort)
      ensures NothingWasOffered(before + [e]) <==> NothingWasOffered(before)
    {
      hide Barred, KeyBarred, NothingWasOffered;
      RuledOut(before, e);
    }

    static lemma GoesOnAfter(config: Config, before: seq<Event>, e: Event)
      requires e.RateLimited? || e.Misconfigured? || e.KeysSpent? || e.Cooled?
      ensures !Finished(config, before + [e]) && !Staying(before + [e])
    {
    }

    /** Rules out a channel that just turned out unusable. */
    method Exclude(channel: int, why: Event, ghost before: seq<Event>)
      requires Knows(before) && stay.None? && events == before + [why]
      requires (why.RateLimited? || why.Misconfigured? || why.KeysSpent?) && why.channel == channel
      requires !Finished(config, before) && MayHappen(config, before, why) && channel !in excluded
      requires !lastResort ==> channel !in cooling
      requires NothingWasOffered(before) ==> lastResort
      modifies `excluded, `charged, `anyRateLimited, `anyMisconfigured
      ensures Valid() && GoesOn() && !Staying(events) && excluded == old(excluded) + {channel}
      ensures Calls(events) == Calls(before)
    {
      hide Orderly(), Remembers(), Finished(), MayHappen(), MayFollow, Barred, Staying, NothingWasOffered, KeyGone,
        Calls,
        Rejecting, Misconfigurations, AnyRateLimited, AnyStreamFailed;
      OneMoreBarred(config, before, why, excluded, refused, cooling, lastResort);
      GoesOnAfter(config, before, why);
      OneMoreEvent(config, before, why);
      Happened(before, why);
      excluded := excluded + {channel};
      if why.RateLimited? {
        anyRateLimited := true;
      }
      if why.Misconfigured? {
        charged := charged + [channel];
        anyMisconfigured := true;
      }
    }

    static lemma OneMoreCooled(config: Config, before: seq<Event>, channel: int, excluded: set<int>,
                               refused: set<int>, cooling: set<int>)
      requires Remembers(config, before, excluded, refused, cooling, false)
      requires config.routing.ByModel? && channel !in excluded && channel !in cooling
      ensures Remembers(config, before + [Cooled(channel)], excluded, refused, cooling + {channel}, false)
      ensures NothingWasOffered(before + [Cooled(channel)]) <==> NothingWasOffered(before)
    {
      hide Barred, KeyBarred, NothingWasOffered;
      RuledOut(before, Cooled(channel));
    }

    static lemma MayCool(config: Config, before: seq<Event>, channel: int, excluded: set<int>, refused: set<int>,
                         cooling: set<int>)
      requires Remembers(config, before, excluded, refused, cooling, false)
      requires config.routing.ByModel? && channel !in excluded && channel !in cooling && !NothingWasOffered(before)
      requires MayFollow(before, Cooled(channel))
      ensures MayHappen(config, before, Cooled(channel))
    {
      hide Barred, KeyBarred, NothingWasOffered, MayFollow;
    }

    /** Leaves a channel whose keys all sit out until the others are spent. */
    method Cool(channel: int)
      requires Valid() && GoesOn() && stay.None? && !Staying(events)
      requires config.routing.ByModel? && !lastResort && channel !in excluded && channel !in cooling
      modifies `cooling, `events
      ensures Valid() && GoesOn() && !Staying(events)
      ensures cooling == old(cooling) + {channel} && events == old(events) + [Cooled(channel)]
      ensures Calls(events) == Calls(old(events))
    {
      hide Orderly(), Remembers(), Finished(), MayHappen(), MayFollow, Barred, Staying, NothingWasOffered, Calls,
        Rejecting, Misconfigurations, AnyRateLimited, AnyStreamFailed;
      MayFollowOn(Cooled(channel));
      OneMoreCooled(config, events, channel, excluded, refused, cooling);
      MayCool(config, events, channel, excluded, refused, cooling);
      GoesOnAfter(config, events, Cooled(channel));
      OneMoreEvent(config, events, Cooled(channel));
      cooling := cooling + {channel};
      Happens(Cooled(channel));
    }

    /** Routing has nothing left but the channels that wait: they are used after all. */
    method UseCooling()
      requires Valid() && stay.None? && NothingWasOffered(events) && !Finished(config, events)
      requires events != [] ==> !Passes(events[|events| - 1])
      modifies `lastResort
      ensures Valid() && GoesOn() && lastResort
    {
      hide Orderly(), Finished(), NothingWasOffered, Barred, KeyBarred, Calls, Rejecting, Misconfigurations,
        AnyRateLimited, AnyStreamFailed;
      lastResort := true;
    }

    /** Routing names no channel, or fails to answer. */
    static lemma OneMoreRefusal(config: Config, before: seq<Event>, e: Event, excluded: set<int>, refused: set<int>,
                                cooling: set<int>, lastResort: bool)
      requires Remembers(config, before, excluded, refused, cooling, lastResort)
      requires e == SelectionFailed || e == NothingOffered(RoutingExclusions(excluded, cooling, lastResort))
      ensures Remembers(config, before + [e], excluded, refused, cooling, lastResort)
      ensures NothingWasOffered(before + [e]) <==> e.NothingOffered? || NothingWasOffered(before)
    {
      hide Barred, KeyBarred, NothingWasOffered;
      RuledOut(before, e);
    }

    static lemma MayRefuse(config: Config, before: seq<Event>, e: Event, excluded: set<int>, refused: set<int>,
                           cooling: set<int>, lastResort: bool)
      requires Remembers(config, before, excluded, refused, cooling, lastResort)
      requires config.routing.ByModel? && MayFollow(before, e) && (NothingWasOffered(before) ==> lastResort)
      requires e == SelectionFailed || e == NothingOffered(RoutingExclusions(excluded, cooling, lastResort))
      ensures MayHappen(config, before, e)
    {
      hide Barred, KeyBarred, NothingWasOffered, MayFollow;
    }

    static lemma WhenSpent(config: Config, before: seq<Event>, exclusions: set<int>, excluded: set<int>,
                           refused: set<int>, cooling: set<int>, lastResort: bool)
      requires Remembers(config, before, excluded, refused, cooling, lastResort)
      requires exclusions == RoutingExclusions(excluded, cooling, lastResort)
      ensures Finished(config, before + [NothingOffered(exclusions)]) <==> lastResort || forall c :: c !in cooling
    {
      hide Barred, KeyBarred, NothingWasOffered;
      RuledOut(before, NothingOffered(exclusions));
      if !lastResort && exists c :: c in cooling {
        var c :| c in cooling;
        assert c in exclusions && !Barred(before + [NothingOffered(exclusions)], c);
      }
    }

    lemma KeyGoneAtOnce()
      requires Valid() && KeyGone(config.routing)
      ensures events == [] && excluded == {}
    {
      if events != [] {
        KeyNotGone(config, events);
      }
      if excluded != {} {
        NonemptyHasMember(excluded);
      }
    }

    lemma MayFollowOn(e: Event)
      requires GoesOn() && !Staying(events)
      ensures MayFollow(events, e)
    {
    }

    method AsksRouting() returns (failed: bool, selected: Option<Selection>)
      requires Valid() && GoesOn() && stay.None? && !Staying(events) && config.routing.ByModel?
      modifies `events
      ensures Valid() && Calls(events) == Calls(old(events))
      ensures selected.Some? ==> selected.value.channel in channels && selected.value.channel !in excluded
      ensures selected.Some? && !lastResort ==> selected.value.channel !in cooling
      ensures selected.Some? ==> !failed && events == old(events)
      ensures failed ==> events == old(events) + [SelectionFailed]
      ensures selected.None? && !failed ==>
                && events == old(events) + [NothingOffered(RoutingExclusions(excluded, cooling, lastResort))]
                && (Finished(config, events) <==> lastResort || forall c :: c !in cooling) && NothingWasOffered(events)
    {
      hide Orderly(), Remembers(), Finished(), MayHappen(), MayFollow, Barred, Staying, NothingWasOffered, Calls,
        Rejecting, Misconfigurations, AnyRateLimited, AnyStreamFailed;
      ghost var before := events;
      var exclusions := RoutingExclusions(excluded, cooling, lastResort);
      MayFollowOn(SelectionFailed);
      MayFollowOn(NothingOffered(exclusions));
      failed, selected := SelectUpstream(exclusions);
      if selected.None? {
        ghost var e := if failed then SelectionFailed else NothingOffered(exclusions);
        OneMoreRefusal(config, before, e, excluded, refused, cooling, lastResort);
        MayRefuse(config, before, e, excluded, refused, cooling, lastResort);
        WhenSpent(config, before, exclusions, excluded, refused, cooling, lastResort);
        OneMoreEvent(config, before, e);
        Happened(before, e);
      }
    }

    /** What a refusal to choose rests on. */
    ghost predicate Settled(choice: Choice)
      reads this
    {
      match choice
      case SelectFailed(status) => BrokenOff(events) && status == if events[|events| - 1].GoneInPause? then 499 else 500
      case RouteGone(status) =>
        && config.routing.ForResponse? && config.routing.route.channel !in excluded && !BrokenOff(events)
        && (if KeyGone(config.routing) then status == 404 && !ChangedAccount(events)
            else status == 409 && ChangedAccount(events))
      case NoneLeft => !BrokenOff(events) && !ChangedAccount(events) && !KeyGone(config.routing)
      case Chosen(_, _, _, _) => false
    }

    /** The channel to try, before its keys are looked at. */
    method NextChannel() returns (failed: bool, selected: Option<Selection>, stayed: bool)
      requires Valid() && GoesOn() && (stay.None? ==> !Staying(events))
      modifies `stay, `events
      ensures Valid() && stay.None? && Calls(events) == Calls(old(events))
      ensures stayed ==> !failed && selected == old(stay) && !config.routing.ForResponse?
      ensures selected.Some? ==> events == old(events) && selected.value.channel in channels && !failed
      ensures selected.Some? ==> GoesOn() && selected.value.channel !in excluded && (stayed <==> Staying(events))
      ensures selected.Some? && stayed ==> StayedOn(events) == selected.value.channel
      ensures selected.Some? && !lastResort ==> selected.value.channel !in cooling
      ensures selected.Some? && config.routing.ForResponse? ==> selected.value == config.routing.route
      ensures selected.Some? ==> MayGo(config.routing, selected.value.channel)
      ensures failed ==> selected.None? && Settled(SelectFailed(500)) && Stopped(config, events)
      ensures selected.None? && !failed && (lastResort || forall c :: c !in cooling) ==>
                Settled(NoneLeft) && Stopped(config, events)
      ensures selected.None? && !failed && !lastResort && (exists c :: c in cooling) ==>
                NothingWasOffered(events) && !Finished(config, events) && !Staying(events)
      ensures selected.None? && !failed && events != [] ==> !Passes(events[|events| - 1])
    {
      hide Orderly(), Rejecting, Misconfigurations, AnyRateLimited, AnyStreamFailed, Calls, Barred, KeyBarred;
      stayed, failed := stay.Some?, false;
      if stayed {
        selected, stay := stay, None;
        return;
      }
      if KeyGone(config.routing) {
        KeyGoneAtOnce();
      }
      match config.routing
      case ByModel =>
        failed, selected := AsksRouting();
      case Direct(selection) =>
        selected := if selection.Some? && selection.value.channel in excluded then None else selection;
      case ForResponse(selection, _) =>
        selected := if selection.channel in excluded then None else Some(selection);
    }

    /** Which of the channel's keys to use, or that none is left, or that they all sit out. */
    method NextKey(selection: Selection) returns (picked: K.Picked, ghost now: int)
      modifies picker`next, `events
      ensures picked == PickedKey(config.routing, selection, old(picker.Position(selection.channel)), refused,
                          picker.Out(now))
      ensures events == if picked.NoKey? && !config.routing.ForResponse?
                then old(events) + [KeysSpent(selection.channel)] else old(events)
    {
      now := 0;
      if config.routing.ForResponse? {
        var key := ResponseRouteKey(config.routing.keyID, selection.keys);
        picked := if key.Some? then K.Picked(key.value, false) else K.NoKey;
      } else if |selection.keys| > 0 {
        var clock := Clock();
        picked := picker.Pick(selection.channel, selection.keys, refused, clock);
        now := clock;
        if picked.NoKey? {
          Happens(KeysSpent(selection.channel));
        }
      } else {
        picked := K.Picked(NO_KEY, false);
      }
    }

    /** A channel whose picked key sits out waits for the others; a named one has no others. */
    predicate Waits(picked: K.Picked, stayed: bool)
      reads this
    {
      picked.Picked? && picked.benched && !stayed && !lastResort && config.routing.ByModel?
    }

    /** The channel and the key were not ruled out, and nothing else has to be tried first. */
    ghost predicate Usable(selection: Selection, key: K.Key, sittingOut: bool)
      reads this
    {
      && selection.channel in channels && stay.None? &&
           (config.routing.ForResponse? ==> selection == config.routing.route)
      && selection.channel !in excluded && (!lastResort ==> selection.channel !in cooling)
      && !KeyGone(config.routing) && (NothingWasOffered(events) ==> lastResort)
      && MayCallAtAll(config, events, Called(selection.channel, key.id, sittingOut, NoAnswer, false))
    }

    /** It was built for and admitted, too. */
    ghost predicate Callable(selection: Selection, key: K.Key, sittingOut: bool)
      reads this
    {
      Usable(selection, key, sittingOut) && !Finished(config, events) && Cleared(events, selection.channel)
    }

    /** And what pause there is has passed: it is called next. */
    ghost predicate Ready(selection: Selection, key: K.Key, sittingOut: bool)
      reads this
    {
      && Usable(selection, key, sittingOut) && !Finished(config, events)
      && MayFollow(events, Called(selection.channel, key.id, sittingOut, NoAnswer, false))
      && Cleared(BeforePause(events), selection.channel)
      && (Pauses(config, events, selection.channel) ==> events[|events| - 1] == Waited(selection.channel))
    }

    lemma IsUsable(selection: Selection, stayed: bool, picked: K.Picked, start: nat, out: set<int>)
      requires Valid() && GoesOn() && stay.None? && !KeyGone(config.routing)
      requires selection.channel in channels && selection.channel !in excluded
      requires !lastResort ==> selection.channel !in cooling
      requires MayGo(config.routing, selection.channel)
      requires config.routing.ForResponse? ==> selection == config.routing.route
      requires stayed <==> Staying(events)
      requires picked == PickedKey(config.routing, selection, start, refused, out) && picked.Picked?
      requires !Waits(picked, stayed)
      ensures Usable(selection, picked.key, picked.benched)
    {
      K.ChosenMeaning(selection.keys, start, refused, out);
    }

    /** An event that rules nothing out. */
    static lemma OneMoreAside(config: Config, before: seq<Event>, e: Event, excluded: set<int>, refused: set<int>,
                              cooling: set<int>, lastResort: bool)
      requires Remembers(config, before, excluded, refused, cooling, lastResort)
      requires IsAside(e)
      ensures Remembers(config, before + [e], excluded, refused, cooling, lastResort)
      ensures Finished(config, before + [e]) <==> e.AccountChanged? || e.GoneInPause?
      ensures NothingWasOffered(before + [e]) <==> NothingWasOffered(before)
    {
      hide Barred, KeyBarred, NothingWasOffered;
      RuledOut(before, e);
    }

    static predicate IsAside(e: Event) {
      e.Built? || e.AccountChanged? || e.SameAccount? || e.Admitted? || e.Waited? || e.GoneInPause? || e.ClientThere?
    }

    lemma Aside(before: seq<Event>, e: Event)
      requires Knows(before) && !Finished(config, before) && MayHappen(config, before, e) && IsAside(e)
      requires stay.None? || e.ClientThere?
      ensures Knows(before + [e]) && Calls(before + [e]) == Calls(before)
      ensures Finished(config, before + [e]) <==> e.AccountChanged? || e.GoneInPause?
      ensures NothingWasOffered(before + [e]) <==> NothingWasOffered(before)
      ensures e.ClientThere? || e.Built? ==> (Staying(before + [e]) <==> Staying(before))
      ensures !e.ClientThere? && !e.Built? ==> !Staying(before + [e])
    {
      hide Orderly(), Remembers(), Finished(), MayHappen(), Barred, NothingWasOffered, Calls, Rejecting,
        Misconfigurations, AnyRateLimited, AnyStreamFailed;
      OneMoreAside(config, before, e, excluded, refused, cooling, lastResort);
      OneMoreEvent(config, before, e);
      Happened(before, e);
      assert (before + [e])[..|before|] == before;
    }

    /** A channel that may be called still may while what leads on to the call happens. */
    lemma StillUsable(before: seq<Event>, e: Event, call: Event)
      requires MayCallAtAll(config, before, call) && IsAside(e) && (e.Built? || !Staying(before))
      ensures MayCallAtAll(config, before + [e], call)
    {
      RuledOut(before, e);
      assert (before + [e])[..|before|] == before;
    }

    /** One answer of the upstream's side, a yes that leads on to the call. */
    method Clears(ghost yes: Event, ghost no: Event, selection: Selection, key: K.Key, sittingOut: bool)
      returns (so: bool)
      requires Valid() && Usable(selection, key, sittingOut) && !Finished(config, events)
      requires MayHappen(config, events, yes) && IsAside(yes) && !yes.AccountChanged? && !yes.GoneInPause?
      requires yes.Built? || !Staying(events)
      modifies `events
      ensures events == old(events) + [if so then yes else no]
      ensures so ==>
                && Valid() && Usable(selection, key, sittingOut) && !Finished(config, events)
                && Calls(events) == Calls(old(events))
                && (Staying(events) <==> yes.Built? && Staying(old(events)))
    {
      hide Knows(), Finished(), MayHappen(), MayCallAtAll, Calls, Staying, NothingWasOffered;
      ghost var before := events;
      so := Asks(yes, no);
      if so {
        Aside(before, yes);
        StillUsable(before, yes, Called(selection.channel, key.id, sittingOut, NoAnswer, false));
      }
    }

    /** What happened to a channel that was considered and not chosen. */
    ghost predicate PassedOver(channel: int, before: seq<Event>, after: seq<Event>, picked: K.Picked, waits: bool) {
      && before < after
      && var why := after[|after| - 1];
         if picked.NoKey? then why == KeysSpent(channel)
         else if waits then why == Cooled(channel)
         else why == Misconfigured(channel) || why == RateLimited(channel)
    }

    /** Tries to settle on the channel; without a choice, it or its place in the order is ruled out. */
    method Consider(selection: Selection, stayed: bool, guard: AbortLogGuard, writer: LogWriter)
      returns (choice: Option<Choice>, ghost picked: K.Picked, ghost now: int)
      requires Valid() && GoesOn() && guard.Armed() && stay.None?
      requires selection.channel in channels && selection.channel !in excluded
      requires !lastResort ==> selection.channel !in cooling
      requires MayGo(config.routing, selection.channel)
      requires config.routing.ForResponse? ==> selection == config.routing.route
      requires stayed <==> Staying(events)
      requires stayed ==> StayedOn(events) == selection.channel && !config.routing.ForResponse?
      modifies this, picker`next, writer
      ensures Valid() && stay.None? && lastResort == old(lastResort)
      ensures Calls(events) == Calls(old(events)) && SameCounts(old(writer.rows), writer.rows)
      ensures picked == PickedKey(config.routing, selection, old(picker.Position(selection.channel)), old(refused),
                          picker.Out(now))
      ensures choice.None? ==>
                && GoesOn() && !Staying(events)
                && PassedOver(selection.channel, old(events), events, picked, old(Waits(picked, stayed)))
      ensures choice.None? ==>
                || (excluded == old(excluded) + {selection.channel})
                || (excluded == old(excluded) && !lastResort && cooling == old(cooling) + {selection.channel} &&
                     selection.channel !in old(cooling))
      ensures choice.Some? ==> excluded == old(excluded) && cooling == old(cooling)
      ensures choice.Some? && choice.value.Chosen? ==>
                && picked.Picked? && !old(Waits(picked, stayed))
                && choice.value == Chosen(selection, picked.key, picked.benched, stayed)
                && Callable(selection, picked.key, picked.benched) && (stayed <==> Staying(events))
      ensures choice.Some? && !choice.value.Chosen? ==>
                && config.routing.ForResponse? && selection.channel !in excluded && choice.value.RouteGone?
                && Settled(choice.value) && Stopped(config, events)
    {
      hide Knows(), Finished(), Stopped(), Settled(), Staying, MayFollow, Calls, RowsOf, Outcomes, Callable(),
        PickedKey,
        SameCounts();
      var channel := selection.channel;
      ghost var before := events;
      SameCountsAtFirst(writer.rows);
      choice := None;
      if !KeyGone(config.routing) {
        MayBuild(channel);
      }
      var found;
      found, now := NextKey(selection);
      picked := found;
      GoneIff(selection, found, old(picker.Position(channel)), picker.Out(now));
      if found.NoKey? {
        if config.routing.ForResponse? {
          KeyGoneSettles();
          choice := Some(RouteGone(404));
          return;
        }
        Exclude(channel, KeysSpent(channel), before);
        return;
      }
      if found.benched && !stayed && !lastResort && config.routing.ByModel? {
        Cool(channel);
        return;
      }
      IsUsable(selection, stayed, found, old(picker.Position(channel)), picker.Out(now));
      choice := Admit(selection, found.key, found.benched, stayed, guard, writer);
    }

    /** Settles on the channel if a request for it can be built, the account that answered before is
        the same, and its rate limit admits one more; another of its keys spends an admission it gave. */
    method Admit(selection: Selection, key: K.Key, sittingOut: bool, stayed: bool, guard: AbortLogGuard,
                 writer: LogWriter)
      returns (choice: Option<Choice>)
      requires Valid() && GoesOn() && guard.Armed() && Usable(selection, key, sittingOut)
      requires stayed <==> Staying(events)
      requires stayed ==> StayedOn(events) == selection.channel && !config.routing.ForResponse?
      modifies `excluded, `events, `charged, `anyRateLimited, `anyMisconfigured, writer
      ensures Valid() && Calls(events) == Calls(old(events)) && SameCounts(old(writer.rows), writer.rows)
      ensures choice.None? ==>
                && GoesOn() && !Staying(events) && excluded == old(excluded) + {selection.channel}
                && old(events) < events
                && (events[|events| - 1] == Misconfigured(selection.channel) ||
                    (events[|events| - 1] == RateLimited(selection.channel) && !stayed))
      ensures choice.Some? ==> excluded == old(excluded)
      ensures choice.Some? && choice.value.Chosen? ==>
                && choice.value == Chosen(selection, key, sittingOut, stayed)
                && Callable(selection, key, sittingOut) && (stayed <==> Staying(events))
      ensures choice.Some? && !choice.value.Chosen? ==>
                && config.routing.ForResponse? && choice.value.RouteGone?
                && Settled(choice.value) && Stopped(config, events)
    {
      hide Knows(), Finished(), Stopped(), Settled(), Staying, StayedOn, MayFollow, MayCallAtAll, MayHappen(), Calls,
        RowsOf, Outcomes, SameCounts(), Usable(), Callable(), GoesOn();
      var channel := selection.channel;
      ghost var before := events;
      SameCountsAtFirst(writer.rows);
      IsUnspent(selection, key, sittingOut);
      MayBuild(channel);
      choice := None;
      var built := Clears(Built(channel), Misconfigured(channel), selection, key, sittingOut);
      if !built {
        guard.LogAttempt(writer, channel);
        Exclude(channel, Misconfigured(channel), before);
        return;
      }
      if config.routing.ForResponse? {
        before := events;
        MayAskAccount();
        var same := Clears(SameAccount, AccountChanged, selection, key, sittingOut);
        if !same {
          ChangeSettles(before);
          choice := Some(RouteGone(409));
          return;
        }
      }
      if !stayed {
        before := events;
        MayAskLimit(channel);
        var admits := Clears(Admitted(channel), RateLimited(channel), selection, key, sittingOut);
        if !admits {
          Exclude(channel, RateLimited(channel), before);
          return;
        }
      }
      IsCallable(selection, key, sittingOut);
      choice := Some(Chosen(selection, key, sittingOut, stayed));
    }

    lemma IsUnspent(selection: Selection, key: K.Key, sittingOut: bool)
      requires GoesOn() && Usable(selection, key, sittingOut)
      ensures stay.None? && selection.channel !in excluded && (!lastResort ==> selection.channel !in cooling)
      ensures !KeyGone(config.routing) && (NothingWasOffered(events) ==> lastResort) && !Finished(config, events)
      ensures config.routing.ForResponse? ==> selection == config.routing.route
    {
    }

    lemma MayBuild(channel: int)
      requires Valid() && GoesOn() && channel !in excluded && !KeyGone(config.routing)
      requires Staying(events) ==> StayedOn(events) == channel
      ensures MayHappen(config, events, Built(channel)) && MayHappen(config, events, Misconfigured(channel))
      ensures !config.routing.ForResponse? ==> MayHappen(config, events, KeysSpent(channel))
    {
      hide Barred, Orderly();
    }

    lemma MayAskAccount()
      requires config.routing.ForResponse? && !KeyGone(config.routing)
      requires Prepares(events, config.routing.route.channel)
      ensures MayHappen(config, events, SameAccount) && MayHappen(config, events, AccountChanged)
    {
    }

    lemma MayAskLimit(channel: int)
      requires Valid() && channel !in excluded && !KeyGone(config.routing)
      requires !Staying(events) && Prepared(config, events, channel)
      ensures MayHappen(config, events, Admitted(channel)) && MayHappen(config, events, RateLimited(channel))
    {
      hide Barred, Orderly();
    }

    lemma IsCallable(selection: Selection, key: K.Key, sittingOut: bool)
      requires Usable(selection, key, sittingOut) && !Finished(config, events)
      requires events != []
      requires events[|events| - 1] == Admitted(selection.channel) ||
                 (events[|events| - 1] == Built(selection.channel) && Staying(events))
      ensures Callable(selection, key, sittingOut)
    {
    }

    lemma ChangeSettles(before: seq<Event>)
      requires Knows(before) && stay.None? && !Finished(config, before) && events == before + [AccountChanged]
      requires MayHappen(config, before, AccountChanged)
      requires config.routing.ForResponse? && config.routing.route.channel !in excluded && !KeyGone(config.routing)
      ensures Valid() && Calls(events) == Calls(before) && Settled(RouteGone(409)) && Stopped(config, events)
    {
      hide Knows(), Finished(), MayHappen(), Calls;
      Aside(before, AccountChanged);
    }

    lemma KeyGoneSettles()
      requires GoesOn() && KeyGone(config.routing) && config.routing.route.channel !in excluded
      ensures Settled(RouteGone(404)) && Stopped(config, events)
    {
    }

    lemma GoneIff(selection: Selection, picked: K.Picked, start: nat, out: set<int>)
      requires config.routing.ForResponse? ==> selection == config.routing.route
      requires picked == PickedKey(config.routing, selection, start, refused, out)
      ensures config.routing.ForResponse? ==> (picked.NoKey? <==> KeyGone(config.routing))
      ensures !config.routing.ForResponse? ==> !KeyGone(config.routing)
    {
    }

    /** Settles on the channel, or leaves fewer channels to look at. */
    method Narrow(selection: Selection, stayed: bool, guard: AbortLogGuard, writer: LogWriter)
      returns (choice: Option<Choice>)
      requires Valid() && GoesOn() && guard.Armed() && stay.None?
      requires selection.channel in channels && selection.channel !in excluded
      requires !lastResort ==> selection.channel !in cooling
      requires MayGo(config.routing, selection.channel)
      requires config.routing.ForResponse? ==> selection == config.routing.route
      requires stayed <==> Staying(events)
      requires stayed ==> StayedOn(events) == selection.channel && !config.routing.ForResponse?
      modifies this, picker`next, writer
      ensures Valid() && stay.None? && lastResort == old(lastResort)
      ensures Calls(events) == Calls(old(events)) && SameCounts(old(writer.rows), writer.rows)
      ensures choice.None? ==> GoesOn() && !Staying(events)
      ensures choice.None? ==>
                || |channels - excluded| < |channels - old(excluded)|
                || (excluded == old(excluded) && |channels - cooling| < |channels - old(cooling)|)
      ensures choice.Some? && choice.value.Chosen? ==>
                && choice.value.stayed == stayed && (stayed <==> Staying(events))
                && Callable(choice.value.selection, choice.value.key, choice.value.sittingOut)
      ensures choice.Some? && !choice.value.Chosen? ==> Settled(choice.value) && Stopped(config, events)
    {
      hide Valid(), GoesOn(), Finished(), Stopped(), Settled(), Callable(), Staying, MayGo, PassedOver(), PickedKey,
        Waits(), KeyGone, NothingWasOffered, Calls, SameCounts();
      ghost var out, waiting := excluded, cooling;
      var considered, _, _ := Consider(selection, stayed, guard, writer);
      choice := considered;
      if choice.None? {
        if excluded != out {
          Shrinks(channels, out, selection.channel);
        } else {
          Shrinks(channels, waiting, selection.channel);
        }
      }
    }

    /** Selects until a channel's rate limit admits the request. Every refusal takes a channel out,
        so it ends. */
    method Choose(guard: AbortLogGuard, writer: LogWriter) returns (choice: Choice)
      requires Valid() && GoesOn() && guard.Armed() && (stay.None? ==> !Staying(events))
      modifies this, picker`next, writer
      ensures Valid() && stay.None?
      ensures Calls(events) == Calls(old(events)) && SameCounts(old(writer.rows), writer.rows)
      ensures !choice.Chosen? ==> Settled(choice) && Stopped(config, events)
      ensures choice.Chosen? ==> Callable(choice.selection, choice.key, choice.sittingOut)
      ensures choice.Chosen? ==> (choice.stayed <==> Staying(events))
    {
      hide Valid(), GoesOn(), Finished(), Stopped(), Settled(), Callable(), Staying, MayGo, PassedOver(), PickedKey,
        Waits(), KeyGone, NothingWasOffered, Calls, SameCounts();
      SameCountsAtFirst(writer.rows);
      while true
        invariant Valid() && GoesOn() && (stay.None? ==> !Staying(events))
        invariant Calls(events) == Calls(old(events)) && SameCounts(old(writer.rows), writer.rows)
        decreases |channels - excluded|, if lastResort then 0 else 1, |channels - cooling|
      {
        var failed, selected, stayed := NextChannel();
        if failed {
          return SelectFailed(500);
        }
        if selected.None? && !lastResort && cooling != {} {
          NonemptyHasMember(cooling);
          UseCooling();
          continue;
        }
        if selected.None? {
          return NoneLeft;
        }
        ghost var before := writer.rows;
        var considered := Narrow(selected.value, stayed, guard, writer);
        SameCountsTwice(old(writer.rows), before, writer.rows);
        if considered.Some? {
          return considered.value;
        }
      }
    }

    lemma MayPause(channel: int)
      requires Cleared(events, channel) && !Staying(events) && !KeyGone(config.routing)
      requires Pauses(config, events, channel)
      ensures MayHappen(config, events, Waited(channel)) && MayHappen(config, events, GoneInPause)
    {
    }

    lemma PauseCut(before: seq<Event>)
      requires Knows(before) && stay.None? && !Finished(config, before) && MayHappen(config, before, GoneInPause)
      requires events == before + [GoneInPause]
      ensures Valid() && Calls(events) == Calls(before) && Settled(SelectFailed(499)) && Stopped(config, events)
    {
      hide Knows(), Finished(), MayHappen(), Calls;
      Aside(before, GoneInPause);
    }

    lemma ReadyAtOnce(selection: Selection, key: K.Key, sittingOut: bool)
      requires Callable(selection, key, sittingOut) && !Pauses(config, events, selection.channel)
      ensures Ready(selection, key, sittingOut)
    {
    }

    lemma ReadyAfter(before: seq<Event>, selection: Selection, key: K.Key, sittingOut: bool)
      requires Usable(selection, key, sittingOut) && !Finished(config, events)
      requires Cleared(before, selection.channel) && events == before + [Waited(selection.channel)]
      ensures Ready(selection, key, sittingOut)
    {
      assert BeforePause(events) == before;
    }

    /** Waits before the channel just called is called again; the client may go meanwhile. */
    method Pause(selection: Selection, key: K.Key, sittingOut: bool) returns (stillThere: bool)
      requires Valid() && Callable(selection, key, sittingOut)
      requires CalledLast(Calls(events), selection.channel) && !Staying(events)
      modifies `events
      ensures Valid() && Calls(events) == Calls(old(events)) && stay.None?
      ensures stillThere ==> Ready(selection, key, sittingOut)
      ensures !stillThere ==> Settled(SelectFailed(499)) && Stopped(config, events)
    {
      hide Knows(), Finished(), MayHappen(), MayCallAtAll, Calls, Staying, Settled(), Stopped(), Ready(), Cleared,
        CalledLast;
      stillThere := true;
      if config.sameChannelPause > 0 {
        ghost var before := events;
        MayPause(selection.channel);
        stillThere := Clears(Waited(selection.channel), GoneInPause, selection, key, sittingOut);
        if stillThere {
          ReadyAfter(before, selection, key, sittingOut);
        } else {
          PauseCut(before);
        }
      } else {
        ReadyAtOnce(selection, key, sittingOut);
      }
    }

    /** Whether the client is still there after a call that failed. */
    method AsksClient() returns (stillThere: bool)
      requires Valid() && !Finished(config, events) && events != [] && events[|events| - 1].Called?
      requires !KeyGone(config.routing) && (stay.None? ==> !Staying(events))
      requires NothingWasOffered(events) ==> lastResort
      modifies `events
      ensures Calls(events) == Calls(old(events)) && Misconfigurations(events) == charged
      ensures events == old(events) + [if stillThere then ClientThere else ClientGone]
      ensures stillThere ==> Valid() && GoesOn() && (stay.None? ==> !Staying(events))
      ensures !stillThere ==> Orderly(config, events) && Stopped(config, events)
    {
      hide Orderly(), Knows(), Remembers(), Finished(), Stopped(), MayHappen(), Calls, Misconfigurations, Staying,
        NothingWasOffered;
      ghost var before := events;
      KnownSoFar(before);
      MayAskClient(before);
      stillThere := Asks(ClientThere, ClientGone);
      Happened(before, events[|before|]);
      if stillThere {
        Aside(before, ClientThere);
        KnownSoFar(events);
      } else {
        OneMoreEvent(config, before, ClientGone);
        AtAnEnd(before);
      }
    }

    lemma MayAskClient(before: seq<Event>)
      requires before != [] && before[|before| - 1].Called? && !KeyGone(config.routing)
      ensures MayHappen(config, before, ClientThere) && MayHappen(config, before, ClientGone)
    {
    }

    lemma KnownSoFar(happened: seq<Event>)
      requires Knows(happened)
      ensures Orderly(config, happened) && Misconfigurations(happened) == charged
    {
    }

    lemma AtAnEnd(before: seq<Event>)
      ensures Stopped(config, before + [ClientGone])
    {
    }

    /** Only this key sits out anew, for one refusal more and as long as that asks. */
    static predicate OneMoreBenched(before: map<int, K.KeyBench>, after: map<int, K.KeyBench>, key: int,
                                    retryAfter: int, now: int) {
      var refusals := 1 + if key in before then before[key].refusals else 0;
      after == before[key := K.KeyBench(refusals, now + K.BenchWait(refusals, retryAfter))]
    }

    /** Benches a key the upstream turned away, and stays if another of the channel's is fresh. */
    method BenchKey(selection: Selection, key: K.Key, status: int)
      returns (ghost retryAfter: int, ghost now: int, ghost later: int)
      requires stay.None?
      modifies `refused, `stay, picker`benched
      ensures OneMoreBenched(old(picker.benched), picker.benched, key.id, retryAfter, now)
      ensures refused == old(refused) + if status == STATUS_TOO_MANY_REQUESTS then {} else {key.id}
      ensures stay == if !config.routing.ForResponse? && K.AnyBut(selection.keys, refused + picker.Out(later))
                then Some(selection) else None
    {
      var wait := Clock();
      var moment := Clock();
      picker.Bench(key.id, wait, moment);
      retryAfter, now, later := wait, moment, 0;
      if status != STATUS_TOO_MANY_REQUESTS {
        refused := refused + {key.id};
      }
      if !config.routing.ForResponse? {
        moment := Clock();
        later := moment;
        var another := picker.HasFresh(selection.keys, refused, moment);
        if another {
          stay := Some(selection);
        }
      }
    }

    static lemma OneMoreCall(config: Config, before: seq<Event>, e: Event, excluded: set<int>, refused: set<int>,
                             cooling: set<int>, lastResort: bool)
      requires Remembers(config, before, excluded, refused, cooling, lastResort)
      requires e.Called? && (!lastResort ==> e.channel !in cooling)
      ensures Remembers(config, before + [e], excluded + (if BarsChannel(e, e.channel) then {e.channel} else {}),
                        refused + (if BarsKey(e, e.key) then {e.key} else {}), cooling, lastResort)
      ensures Finished(config, before + [e]) <==> e.answer.Served? || |Calls(before)| + 1 > config.maxRetries
      ensures NothingWasOffered(before + [e]) <==> NothingWasOffered(before)
    {
      hide Barred, KeyBarred, NothingWasOffered, Calls;
      RuledOut(before, e);
      Happened(before, e);
    }

    /** The call made, with its answer, was one that might be made. */
    static lemma MayHaveCalled(config: Config, before: seq<Event>, e: Event, call: nat)
      requires e.Called? && !KeyGone(config.routing) && call == |Calls(before)|
      requires MayFollow(before, e.(answer := NoAnswer, stays := false))
      requires MayCallAtAll(config, before, e.(answer := NoAnswer, stays := false))
      requires Cleared(BeforePause(before), e.channel)
      requires Pauses(config, before, e.channel) ==> before[|before| - 1] == Waited(e.channel)
      requires e.stays ==> !config.routing.ForResponse? && e.key != 0
      requires e.stays ==> e.answer.Refused? && KeyRefused(e.answer.status)
      requires e.answer.StreamFailed? ==> HoldsStream(config, call)
      requires e.answer.Served? ==> (e.answer.primed <==> e.answer.streaming && HoldsStream(config, call))
      ensures MayHappen(config, before, e)
    {
    }

    lemma ReadyCalled(selection: Selection, key: K.Key, sittingOut: bool, answer: Answer, stays: bool, call: nat)
      requires Ready(selection, key, sittingOut) && call == |Calls(events)|
      requires stays ==> !config.routing.ForResponse? && key.id != 0
      requires stays ==> answer.Refused? && KeyRefused(answer.status)
      requires answer.StreamFailed? ==> HoldsStream(config, call)
      requires answer.Served? ==> (answer.primed <==> answer.streaming && HoldsStream(config, call))
      ensures MayHappen(config, events, Called(selection.channel, key.id, sittingOut, answer, stays))
      ensures !Finished(config, events) && stay.None? && selection.channel in channels
      ensures selection.channel !in excluded && (!lastResort ==> selection.channel !in cooling)
      ensures MayGo(config.routing, selection.channel) && (NothingWasOffered(events) ==> lastResort)
      ensures config.routing.ForResponse? ==> selection == config.routing.route
    {
      hide Calls, Finished(), MayHappen(), Cleared, BeforePause, MayFollow, Pauses, NothingWasOffered, HoldsStream;
      MayHaveCalled(config, events, Called(selection.channel, key.id, sittingOut, answer, stays), call);
    }

    /** Remembers a failed call, ruling its channel out when asking it again would end the same. */
    method RecordFailed(selection: Selection, answer: Answer, ghost before: seq<Event>, ghost e: Event,
                        ghost wasRefused: set<int>)
      requires Named(config.routing, channels)
      requires Remembers(config, before, excluded, wasRefused, cooling, lastResort)
      requires Orderly(config, before) && !Finished(config, before)
      requires MayHappen(config, before, e) && e.Called? && e.channel == selection.channel && e.answer == answer
      requires refused == wasRefused + if BarsKey(e, e.key) then {e.key} else {}
      requires rejected == Rejecting(before) && charged == Misconfigurations(before) &&
                 (anyMisconfigured <==> charged != [])
      requires anyRateLimited == AnyRateLimited(before) && events == before
      requires selection.channel in channels && selection.channel !in excluded
      requires MayGo(config.routing, selection.channel)
      requires !lastResort ==> selection.channel !in cooling
      requires e.stays == stay.Some? && (stay.Some? ==> stay == Some(selection) && answer.Refused?)
      requires !answer.Served?
      requires config.routing.ForResponse? ==>
                 selection == config.routing.route && !AnyStreamFailed(Calls(before)) && stay.None? &&
                   forall k :: k !in wasRefused
      modifies `excluded, `rejected, `events
      ensures Valid() && Orderly(config, events)
      ensures events == before + [e] && Calls(events) == Calls(before) + [e]
      ensures Finished(config, events) <==> |Calls(before)| + 1 > config.maxRetries
      ensures NothingWasOffered(events) <==> NothingWasOffered(before)
    {
      hide Orderly(), Remembers(), Finished(), MayHappen(), Rejecting, Misconfigurations, AnyRateLimited,
        AnyStreamFailed,
        Calls;
      OneMoreCall(config, before, e, excluded, wasRefused, cooling, lastResort);
      OneMoreEvent(config, before, e);
      OneMoreAnswer(Calls(before), e);
      ghost var was := excluded;
      if answer.StreamFailed? {
        excluded := excluded + {selection.channel};
      } else if stay.None? && answer.Refused? && !IsChannelFault(answer.status) {
        excluded := excluded + {selection.channel};
        rejected := rejected + [selection.channel];
      }
      Happens(e);
      assert excluded == was + if BarsChannel(e, e.channel) then {e.channel} else {};
    }

    /** One call: a response that serves the request, or a failure to hold. */
    method Try(selection: Selection, key: K.Key, sittingOut: bool, call: nat, writer: LogWriter)
      returns (current: AttemptResult, answer: Answer, ghost later: int)
      requires Valid() && Ready(selection, key, sittingOut)
      requires call == |Calls(events)|
      modifies this, picker`benched, writer
      ensures fresh(current) && (current.response != null ==> fresh(current.response))
      ensures current.call == call && Pending(current, answer)
      // The call and its answer are what happened; the channel is kept for another of its keys that is fresh.
      ensures events == old(events) + [Called(selection.channel, key.id, sittingOut, answer, stay.Some?)]
      ensures Calls(events) == Calls(old(events)) + [events[|events| - 1]]
      ensures stay == if key.id != 0 && answer.Refused? && KeyRefused(answer.status) && !config.routing.ForResponse? &&
                           K.AnyBut(selection.keys, refused + picker.Out(later))
                then Some(selection) else None
      ensures Orderly(config, events)
      ensures !answer.Served? ==> Valid() && (NothingWasOffered(events) ==> lastResort)
      ensures Finished(config, events) <==> answer.Served? || call >= config.maxRetries
      // A key that served is cleared, one that was refused sits out.
      ensures answer.Served? ==> picker.benched == old(picker.benched) - {key.id}
      ensures !answer.Served? ==>
                if key.id != 0 && answer.Refused? && KeyRefused(answer.status)
                then exists retryAfter, now ::
                  OneMoreBenched(old(picker.benched), picker.benched, key.id, retryAfter, now)
                else picker.benched == old(picker.benched)
      ensures charged == Misconfigurations(events) + if answer.Served? then Rejecting(events) else []
      ensures answer != StreamFailed(true) ==> writer.rows == old(writer.rows)
      ensures answer == StreamFailed(true) ==> Outcomes(writer.rows) == Outcomes(old(writer.rows)) + 1
      ensures answer == StreamFailed(true) ==>
                forall n: nat :: RowsOf(writer.rows, n) == RowsOf(old(writer.rows), n) + if n == call then 1 else 0
    {
      hide Rejecting, Misconfigurations, AnyRateLimited, AnyStreamFailed, Calls, RowsOf, Outcomes, Pending(),
        Orderly(), Remembers(), Finished(), MayHappen(), MayFollow, Pauses, OneMoreBenched(), Ready(), MayGo;
      current, answer := Ask(call, config.holdsStreams && call < config.maxRetries, writer);
      later := 0;
      if answer.Served? {
        ReadyCalled(selection, key, sittingOut, answer, false, call);
        picker.Clear(key.id);
        charged := charged + rejected;
        ghost var e := Called(selection.channel, key.id, sittingOut, answer, false);
        OneMoreCall(config, events, e, excluded, refused, cooling, lastResort);
        OneMoreEvent(config, events, e);
        Happens(e);
      } else {
        ghost var moment := Fail(selection, key, sittingOut, answer, call);
        later := moment;
      }
    }

    /** A call that failed: its key sits out when it was refused, and its channel is ruled out when
        asking it again would end the same. */
    method Fail(selection: Selection, key: K.Key, ghost sittingOut: bool, answer: Answer, ghost call: nat)
      returns (ghost later: int)
      requires Valid() && Ready(selection, key, sittingOut)
      requires call == |Calls(events)| && !answer.Served? && (answer.StreamFailed? ==> HoldsStream(config, call))
      modifies `refused, `stay, `excluded, `rejected, `events, picker`benched
      ensures Valid() && Orderly(config, events) && (NothingWasOffered(events) ==> lastResort)
      ensures events == old(events) + [Called(selection.channel, key.id, sittingOut, answer, stay.Some?)]
      ensures Calls(events) == Calls(old(events)) + [events[|events| - 1]]
      ensures stay == if key.id != 0 && answer.Refused? && KeyRefused(answer.status) && !config.routing.ForResponse? &&
                           K.AnyBut(selection.keys, refused + picker.Out(later))
                then Some(selection) else None
      ensures Finished(config, events) <==> call >= config.maxRetries
      ensures charged == Misconfigurations(events)
      ensures if key.id != 0 && answer.Refused? && KeyRefused(answer.status)
              then exists retryAfter, now ::
                OneMoreBenched(old(picker.benched), picker.benched, key.id, retryAfter, now)
              else picker.benched == old(picker.benched)
    {
      hide Rejecting, Misconfigurations, AnyRateLimited, AnyStreamFailed, Calls, Orderly(), Remembers(), Finished(),
        MayHappen(), MayFollow, Pauses, OneMoreBenched(), Ready(), MayGo;
      ReadyCalled(selection, key, sittingOut, answer, false, call);
      if key.id != 0 && answer.Refused? && KeyRefused(answer.status) && !config.routing.ForResponse? {
        ReadyCalled(selection, key, sittingOut, answer, true, call);
      }
      ghost var before, wasRefused := events, refused;
      later := 0;
      if key.id != 0 && answer.Refused? && KeyRefused(answer.status) {
        ghost var _, _, moment := BenchKey(selection, key, answer.status);
        later := moment;
      }
      ghost var e := Called(selection.channel, key.id, sittingOut, answer, stay.Some?);
      RecordFailed(selection, answer, before, e, wasRefused);
    }
  }
}
