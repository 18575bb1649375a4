/** One proxied request from its first attempt to the last row written about it. */
module ProxyHandler {
  import opened Words
  import opened AttemptTrace
  import opened AttemptRules
  import opened AttemptLog
  import opened ProxyAttempts
  import K = Keys

  ghost function Parts(a: AttemptResult?): set<object> {
    if a == null then {} else if a.response == null then {a} else {a, a.response}
  }

  /** The call whose row this failure has still to write. */
  ghost function Due(a: AttemptResult?): set<int>
    reads Parts(a)
  {
    if a != null && a.Owes() then {a.call} else {}
  }

  ghost predicate Held(a: AttemptResult?, calls: seq<Event>)
    reads Parts(a)
  {
    a != null ==> a.call < |calls| && calls[a.call].Called? && Pending(a, calls[a.call].answer)
  }

  /** The two held failures: one may be the other, and the stream is the last that failed. */
  ghost predicate BothHeld(last: AttemptResult?, stream: AttemptResult?, calls: seq<Event>)
    reads Parts(last), Parts(stream)
  {
    && Held(last, calls) && Held(stream, calls)
    && (last != null && stream != null && last != stream ==> last.call != stream.call)
    && (stream == null ==> !AnyStreamFailed(calls))
    && (stream != null ==> LastStream(calls, stream.call))
    && (last != null && last != stream ==> !calls[last.call].answer.StreamFailed?)
  }

  /** Where the rows stand when the attempts are over and the response, if any, is to be delivered. */
  ghost predicate Ended(rows: seq<LogEntry>, calls: seq<Event>, response: Response?)
    reads response
  {
    && (response == null ==> Ledger(rows, |calls|, {}) && Outcomes(rows) == LoggedThemselves(calls) + 1)
    && (response != null ==>
          && response.Valid() && response.call < |calls|
          && (response.entry.None? <==> LogsItself(calls[response.call]))
          && Ledger(rows, |calls|, if response.entry.Some? then {response.call} else {})
          && Outcomes(rows) == LoggedThemselves(calls))
  }

  /** The failure of the last call is held. */
  ghost predicate LastHeld(last: AttemptResult?, calls: seq<Event>) {
    (last == null <==> calls == []) && (last != null ==> last.call == |calls| - 1)
  }

  function CallOf(response: Response?): Option<nat> {
    if response == null then None else Some(response.call)
  }

  lemma RowWritten(before: seq<LogEntry>, after: seq<LogEntry>, calls: nat, owing: set<int>, call: nat)
    requires Ledger(before, calls, owing) && call in owing && call < calls
    requires forall n: nat :: RowsOf(after, n) == RowsOf(before, n) + if n == call then 1 else 0
    ensures Ledger(after, calls, owing - {call})
  {
  }

  /** Writes a held failure as one another attempt replaced. */
  method Retire(a: AttemptResult?, writer: LogWriter, ghost calls: nat, ghost owing: set<int>)
    requires a != null ==> a.Valid() && (a.Owes() ==> a.call in owing && a.call < calls)
    requires Ledger(writer.rows, calls, owing)
    modifies Parts(a), writer
    ensures a != null ==> a.settled && a.Valid()
    ensures old(writer.rows) <= writer.rows
    ensures a == null ==> writer.rows == old(writer.rows)
    ensures a != null && old(a.settled) && a.response != null ==> a.response.entry == old(a.response.entry)
    ensures Ledger(writer.rows, calls, owing - old(Due(a))) && Outcomes(writer.rows) == Outcomes(old(writer.rows))
  {
    hide RowsOf, Outcomes;
    if a != null {
      ghost var before, owed := writer.rows, a.Owes();
      a.Retried(writer);
      if owed {
        RowWritten(before, writer.rows, calls, owing, a.call);
      }
    }
    assert owing - {} == owing;
  }

  /** Another attempt has a route: the previous failure was only an attempt, unless it is the
      stream still held. */
  method Supersede(last: AttemptResult?, stream: AttemptResult?, writer: LogWriter, ghost calls: seq<Event>)
    requires BothHeld(last, stream, calls) && last != stream
    requires Ledger(writer.rows, |calls|, Due(last) + Due(stream))
    modifies Parts(last), writer
    ensures BothHeld(null, stream, calls)
    ensures Ledger(writer.rows, |calls|, Due(stream)) && Outcomes(writer.rows) == Outcomes(old(writer.rows))
  {
    hide RowsOf, Outcomes, Ledger();
    ghost var owing, first := Due(last) + Due(stream), Due(last);
    Retire(last, writer, |calls|, owing);
    assert owing - first == Due(stream);
  }

  /** Ends the attempts with no response to deliver: both held failures were only attempts. */
  method RetireBoth(last: AttemptResult?, stream: AttemptResult?, writer: LogWriter, ghost calls: seq<Event>)
    requires BothHeld(last, stream, calls)
    requires Ledger(writer.rows, |calls|, Due(last) + Due(stream))
    modifies Parts(last), Parts(stream), writer
    ensures Ledger(writer.rows, |calls|, {}) && Outcomes(writer.rows) == Outcomes(old(writer.rows))
    ensures last == null && stream == null ==> writer.rows == old(writer.rows)
    ensures old(writer.rows) <= writer.rows
  {
    hide RowsOf, Outcomes, Ledger();
    ghost var owing, first := Due(last) + Due(stream), Due(last);
    Retire(last, writer, |calls|, owing);
    ghost var second := Due(stream);
    Retire(stream, writer, |calls|, owing - first);
    assert owing - first - second == {};
  }

  /** Ends the request on the stream that failed: its headers are out. */
  method Replay(last: AttemptResult?, stream: AttemptResult, guard: AbortLogGuard, writer: LogWriter,
                ghost calls: seq<Event>)
    returns (response: Response)
    requires BothHeld(last, stream, calls)
    requires Ledger(writer.rows, |calls|, Due(last) + Due(stream)) && Outcomes(writer.rows) == LoggedThemselves(calls)
    modifies Parts(last), Parts(stream), guard, writer
    ensures response == stream.response && Ended(writer.rows, calls, response)
    ensures LastStream(calls, response.call)
  {
    hide RowsOf, Outcomes, Ledger(), LoggedThemselves;
    ghost var owing := Due(last) + Due(stream);
    stream.Concluded(writer);
    guard.Disarm();
    ghost var retired := Due(last);
    Retire(last, writer, |calls|, owing);
    response := stream.response;
    assert owing - retired == if response.entry.Some? then {response.call} else {};
  }

  /** A row of the request's own gives the status; it may be the last. */
  predicate RefusedWith(rows: seq<LogEntry>, status: int, last: bool) {
    && LogEntry(Request, status, false) in rows
    && (last ==> rows[|rows| - 1] == LogEntry(Request, status, false))
  }

  /** Ends the request on the guard's own row. */
  method Refuse(last: AttemptResult?, stream: AttemptResult?, guard: AbortLogGuard, writer: LogWriter, status: int,
                ghost calls: seq<Event>)
    requires guard.Armed() && BothHeld(last, stream, calls)
    requires Ledger(writer.rows, |calls|, Due(last) + Due(stream)) && Outcomes(writer.rows) == LoggedThemselves(calls)
    modifies Parts(last), Parts(stream), guard, writer
    ensures guard.entry.None? && Ended(writer.rows, calls, null)
    ensures RefusedWith(writer.rows, status, last == null && stream == null)
  {
    hide RowsOf, Outcomes, LoggedThemselves;
    guard.LogAndDisarm(writer, status);
    ghost var k := |writer.rows| - 1;
    assert writer.rows[k] == LogEntry(Request, status, false);
    RetireBoth(last, stream, writer, calls);
    assert writer.rows[k] == LogEntry(Request, status, false);
  }

  /** When no call is the request's answer, its own row says how it ended, and is the last when there
      was no call. */
  predicate SaysWhy(config: Config, rows: seq<LogEntry>, events: seq<Event>) {
    var own := OwnStatus(config, events);
    own.Some? ==>
      && LogEntry(Request, own.value, false) in rows
      && (Calls(events) == [] ==> rows[|rows| - 1] == LogEntry(Request, own.value, false))
  }

  /** Nothing else to try: a stream whose headers are out is the answer, else the last failure, else
      a refusal that says why. */
  method NothingLeft(last: AttemptResult?, stream: AttemptResult?, guard: AbortLogGuard, writer: LogWriter,
                     anyRateLimited: bool, anyMisconfigured: bool, ghost calls: seq<Event>, ghost events: seq<Event>)
    returns (response: Response?, failed: bool)
    requires guard.Armed() && BothHeld(last, stream, calls) && LastHeld(last, calls)
    requires anyRateLimited == AnyRateLimited(events) && anyMisconfigured == (Misconfigurations(events) != [])
    requires Ledger(writer.rows, |calls|, Due(last) + Due(stream)) && Outcomes(writer.rows) == LoggedThemselves(calls)
    modifies Parts(last), Parts(stream), guard, writer
    ensures Ended(writer.rows, calls, response)
    ensures if calls == []
            then response == null && !failed && guard.entry.None? &&
              RefusedWith(writer.rows, NoChannelStatus(events), true)
            else GivesLast(calls, CallOf(response), failed)
    ensures response != null ==> response in Parts(last) + Parts(stream)
  {
    hide RowsOf, Outcomes, LoggedThemselves;
    failed := false;
    if stream != null {
      response := Replay(last, stream, guard, writer, calls);
    } else if last != null {
      response, failed := Conclude(last, stream, writer, calls);
    } else {
      response := null;
      Refuse(last, stream, guard, writer, if anyRateLimited then 429 else if anyMisconfigured then 502 else 503, calls);
    }
  }

  /** Ends the request on a failed attempt; an earlier stream was only an attempt. */
  method Conclude(last: AttemptResult, stream: AttemptResult?, writer: LogWriter, ghost calls: seq<Event>)
    returns (response: Response?, failed: bool)
    requires Held(last, calls) && Held(stream, calls) && (stream != null ==> stream.call != last.call)
    requires Ledger(writer.rows, |calls|, Due(last) + Due(stream)) && Outcomes(writer.rows) == LoggedThemselves(calls)
    modifies Parts(last), Parts(stream), writer
    ensures response == last.response && Ended(writer.rows, calls, response)
    ensures failed <==> response == null
  {
    hide RowsOf, Outcomes, LoggedThemselves;
    ghost var before, owing := writer.rows, Due(last) + Due(stream);
    last.Concluded(writer);
    if last.held.Some? {
      RowWritten(before, writer.rows, |calls|, owing, last.call);
      owing := owing - {last.call};
    }
    ghost var retired := Due(stream);
    Retire(stream, writer, |calls|, owing);
    response, failed := last.response, last.response == null;
    assert owing - retired == if response != null && response.entry.Some? then {response.call} else {};
  }

  /** The last call ends the request, unless the client holds an earlier stream's headers: then
      its answer cannot follow, and that stream is replayed. */
  method EndOnLastCall(current: AttemptResult, streamFailed: bool, stream: AttemptResult?, guard: AbortLogGuard,
                       writer: LogWriter, ghost calls: seq<Event>)
    returns (response: Response?, failed: bool)
    requires calls != [] && current.call == |calls| - 1 && Held(current, calls)
    requires calls[|calls| - 1].Called? && !calls[|calls| - 1].answer.Served?
    requires streamFailed <==> calls[|calls| - 1].answer.StreamFailed?
    requires BothHeld(null, stream, calls[..|calls| - 1])
    requires Ledger(writer.rows, |calls|, Due(current) + Due(stream)) &&
               Outcomes(writer.rows) == LoggedThemselves(calls)
    modifies Parts(current), Parts(stream), guard, writer
    ensures Ended(writer.rows, calls, response) && GivesLast(calls, CallOf(response), failed)
    ensures response != null ==> response in Parts(current) + Parts(stream)
  {
    hide RowsOf, Outcomes, LoggedThemselves;
    StillHeld(stream, calls);
    if stream != null && !streamFailed {
      ghost var owing, owed := Due(current) + Due(stream), Due(current);
      Retire(current, writer, |calls|, owing);
      assert owing - owed == Due(null) + Due(stream);
      response := Replay(null, stream, guard, writer, calls);
      failed := false;
    } else {
      response, failed := Conclude(current, stream, writer, calls);
    }
  }

  /** Holds the failed call until it is known whether another replaces it. A failed stream takes
      the place of an earlier one. */
  method Hold(current: AttemptResult, streamFailed: bool, stream: AttemptResult?, writer: LogWriter,
              ghost calls: seq<Event>)
    returns (held: AttemptResult?)
    requires calls != [] && current.call == |calls| - 1 && Held(current, calls)
    requires calls[|calls| - 1].Called?
    requires streamFailed <==> calls[|calls| - 1].answer.StreamFailed?
    requires BothHeld(null, stream, calls[..|calls| - 1])
    requires Ledger(writer.rows, |calls|, Due(current) + Due(stream))
    modifies Parts(stream), writer
    ensures held == current || held == stream
    ensures BothHeld(current, held, calls)
    ensures Ledger(writer.rows, |calls|, Due(current) + Due(held)) &&
              Outcomes(writer.rows) == Outcomes(old(writer.rows))
  {
    hide RowsOf, Outcomes;
    StillHeld(stream, calls);
    held := stream;
    if streamFailed {
      ghost var owing, retired := Due(current) + Due(stream), Due(stream);
      Retire(stream, writer, |calls|, owing);
      assert owing - retired == Due(current) + Due(current);
      held := current;
    }
  }

  lemma StillHeld(stream: AttemptResult?, calls: seq<Event>)
    requires calls != [] && BothHeld(null, stream, calls[..|calls| - 1])
    ensures Held(stream, calls) && (stream != null ==> stream.call < |calls| - 1)
    ensures calls[|calls| - 1].Called? && calls[|calls| - 1].answer.StreamFailed? ==> LastStream(calls, |calls| - 1)
    ensures !(calls[|calls| - 1].Called? && calls[|calls| - 1].answer.StreamFailed?) ==> BothHeld(null, stream, calls)
  {
  }

  /** A call was served: an earlier stream was only an attempt. */
  method Serve(current: AttemptResult, stream: AttemptResult?, writer: LogWriter, ghost calls: seq<Event>)
    returns (response: Response)
    requires calls != [] && current.call == |calls| - 1 && Held(current, calls) && EndsServed(calls)
    requires BothHeld(null, stream, calls[..|calls| - 1])
    requires Ledger(writer.rows, |calls|, Due(current) + Due(stream)) &&
               Outcomes(writer.rows) == LoggedThemselves(calls)
    modifies Parts(stream), writer
    ensures response == current.response && response.call == current.call && Ended(writer.rows, calls, response)
  {
    hide RowsOf, Outcomes, LoggedThemselves;
    StillHeld(stream, calls);
    response := current.response;
    ghost var owing, retired := Due(current) + Due(stream), Due(stream);
    Retire(stream, writer, |calls|, owing);
    assert owing - retired == {response.call};
  }

  lemma CallMade(before: seq<LogEntry>, after: seq<LogEntry>, calls: seq<Event>, owing: set<int>, e: Event)
    requires Ledger(before, |calls|, owing) && Outcomes(before) == LoggedThemselves(calls) && |calls| !in owing
    requires !LogsItself(e) ==> after == before
    requires LogsItself(e) ==> Outcomes(after) == Outcomes(before) + 1
    requires LogsItself(e) ==> forall n: nat :: RowsOf(after, n) == RowsOf(before, n) + if n == |calls| then 1 else 0
    ensures Ledger(after, |calls + [e]|, if LogsItself(e) then owing else owing + {|calls|})
    ensures Outcomes(after) == LoggedThemselves(calls + [e])
  {
  }

  /** The request cannot go on: a stream whose headers are out is its answer, else a refusal. */
  method ReplayOrRefuse(last: AttemptResult?, stream: AttemptResult?, guard: AbortLogGuard, writer: LogWriter,
                        status: int,
                        ghost calls: seq<Event>)
    returns (response: Response?, failed: bool)
    requires guard.Armed() && BothHeld(last, stream, calls)
    requires Ledger(writer.rows, |calls|, Due(last) + Due(stream)) && Outcomes(writer.rows) == LoggedThemselves(calls)
    modifies Parts(last), Parts(stream), guard, writer
    ensures Ended(writer.rows, calls, response)
    ensures if AnyStreamFailed(calls)
            then !failed && response != null && LastStream(calls, response.call)
            else failed && response == null && RefusedWith(writer.rows, status, last == null && stream == null)
    ensures response != null ==> response in Parts(last) + Parts(stream)
  {
    hide RowsOf, Outcomes, LoggedThemselves;
    if stream != null {
      response := Replay(last, stream, guard, writer, calls);
      failed := false;
    } else {
      Refuse(last, stream, guard, writer, status, calls);
      response, failed := null, true;
    }
  }

  /** Between attempts: every call but those held has its row, and none has served the request. */
  ghost predicate Going(routes: Routes, guard: AbortLogGuard, writer: LogWriter, last: AttemptResult?,
                        stream: AttemptResult?)
    reads routes, guard, writer, Parts(last), Parts(stream)
  {
    var calls := Calls(routes.events);
    && routes.Valid() && guard.Armed() && NoneServed(calls)
    && BothHeld(last, stream, calls)
    && Ledger(writer.rows, |calls|, Due(last) + Due(stream))
    && Outcomes(writer.rows) == LoggedThemselves(calls)
  }

  /** The attempts are over, and what is to be delivered is decided. */
  ghost predicate Over(routes: Routes, guard: AbortLogGuard, writer: LogWriter, response: Response?, failed: bool)
    reads routes, guard, writer, response
  {
    var calls := Calls(routes.events);
    && Ended(writer.rows, calls, response)
    && Orderly(routes.config, routes.events) && Stopped(routes.config, routes.events)
    && Delivers(routes.events, CallOf(response), failed)
    && (response == null && !failed ==> guard.entry.None?)
    && SaysWhy(routes.config, writer.rows, routes.events)
    && routes.charged == Misconfigurations(routes.events) + if EndsServed(calls) then Rejecting(routes.events) else []
  }

  lemma RoutesAreExplained(routes: Routes)
    requires routes.Valid()
    ensures Orderly(routes.config, routes.events) && routes.charged == Misconfigurations(routes.events)
    ensures routes.anyRateLimited == AnyRateLimited(routes.events)
    ensures routes.anyMisconfigured == (Misconfigurations(routes.events) != [])
  {
  }

  /** A failed stream bars the one channel that can continue a response: while the channel is not
      ruled out, the client has no stream's headers. */
  lemma NoStreamOnRoute(routes: Routes, choice: Choice)
    requires routes.Valid() && choice.RouteGone? && routes.Settled(choice)
    ensures !AnyStreamFailed(Calls(routes.events))
    ensures KeyGone(routes.config.routing) ==> Calls(routes.events) == []
  {
    if KeyGone(routes.config.routing) {
      routes.KeyGoneAtOnce();
    }
  }

  lemma NoneHeld(last: AttemptResult?, stream: AttemptResult?, calls: seq<Event>)
    requires BothHeld(last, stream, calls)
    ensures calls == [] ==> last == null && stream == null
  {
  }

  lemma NotServed(calls: seq<Event>)
    requires NoneServed(calls)
    ensures !EndsServed(calls)
  {
  }

  /** What the choice rests on gives the request's own row its status. */
  lemma OwnStatusIs(routes: Routes, choice: Choice)
    requires routes.Settled(choice) && !EndsServed(Calls(routes.events))
    requires choice.RouteGone? ==>
               && !AnyStreamFailed(Calls(routes.events))
               && (KeyGone(routes.config.routing) ==> Calls(routes.events) == [])
    ensures OwnStatus(routes.config, routes.events) ==
            match choice
            case SelectFailed(status) => if AnyStreamFailed(Calls(routes.events)) then None else Some(status)
            case RouteGone(status) => Some(status)
            case NoneLeft => if Calls(routes.events) == [] then Some(NoChannelStatus(routes.events)) else None
    ensures choice.SelectFailed? ==> BrokenOff(routes.events) && !ChangedAccount(routes.events)
    ensures AnyStreamFailed(Calls(routes.events)) ==> Calls(routes.events) != []
    ensures choice.NoneLeft? ==> !BrokenOff(routes.events) && !ChangedAccount(routes.events)
    ensures choice.RouteGone? ==>
              !BrokenOff(routes.events) && (ChangedAccount(routes.events) || Calls(routes.events) == [])
  {
    if Calls(routes.events) == [] {
      assert !AnyStreamFailed(Calls(routes.events));
    }
  }

  /** Ends the request without another attempt. */
  method EndWithout(routes: Routes, guard: AbortLogGuard, writer: LogWriter, last: AttemptResult?,
                    stream: AttemptResult?,
                    choice: Choice)
    returns (response: Response?, failed: bool)
    requires Going(routes, guard, writer, last, stream) && LastHeld(last, Calls(routes.events))
    requires !choice.Chosen? && routes.Settled(choice) && Stopped(routes.config, routes.events)
    modifies guard, writer, Parts(last), Parts(stream)
    ensures Over(routes, guard, writer, response, failed)
    ensures response != null ==> response in Parts(last) + Parts(stream)
  {
    hide Routes.Settled(), RowsOf, Outcomes, Rejecting, Misconfigurations, AnyRateLimited, LoggedThemselves, Calls,
      Orderly(), Stopped(),
      OwnStatus, BrokenOff, ChangedAccount, NoChannelStatus, Ledger(), BothHeld(), Held(), Ended(), Routes.Valid(),
      LastStream, AnyStreamFailed, Pending(), AttemptResult.Valid(), Response.Valid(), NoneServed, EndsServed;
    ghost var calls := Calls(routes.events);
    NotServed(calls);
    RoutesAreExplained(routes);
    if choice.RouteGone? {
      NoStreamOnRoute(routes, choice);
    }
    OwnStatusIs(routes, choice);
    NoneHeld(last, stream, calls);
    response, failed := null, false;
    match choice
    case SelectFailed(status) => response, failed := ReplayOrRefuse(last, stream, guard, writer, status, calls);
    case RouteGone(gone) => Refuse(last, stream, guard, writer, gone, calls);
    case NoneLeft =>
      response, failed := NothingLeft(last, stream, guard, writer, routes.anyRateLimited, routes.anyMisconfigured,
        calls, routes.events);
  }

  /** Finds a channel and a key, or that there is none. */
  method ChooseRoute(routes: Routes, guard: AbortLogGuard, writer: LogWriter, ghost last: AttemptResult?,
                     ghost stream: AttemptResult?)
    returns (choice: Choice)
    requires Going(routes, guard, writer, last, stream) && routes.GoesOn()
    requires routes.stay.None? ==> !Staying(routes.events)
    modifies routes, routes.picker`next, writer
    ensures Calls(routes.events) == Calls(old(routes.events)) && Going(routes, guard, writer, last, stream)
    ensures routes.stay.None?
    ensures !choice.Chosen? ==> routes.Settled(choice) && Stopped(routes.config, routes.events)
    ensures choice.Chosen? ==>
              && routes.Callable(choice.selection, choice.key, choice.sittingOut)
              && (choice.stayed <==> Staying(routes.events))
  {
    hide RowsOf, Outcomes, LoggedThemselves, Calls, LastStream, AnyStreamFailed, Pending(), Routes.Valid(), NoneServed,
      Routes.GoesOn(), Routes.Callable(), Routes.Settled(), Stopped(), Staying;
    choice := routes.Choose(guard, writer);
  }

  /** The channel called last, if any was. */
  predicate Previous(calls: seq<Event>, channel: Option<int>) {
    if calls == [] then channel.None? else channel.Some? && CalledLast(calls, channel.value)
  }

  /** Finds the next attempt's channel and key, or ends the request. */
  method NextAttempt(routes: Routes, guard: AbortLogGuard, writer: LogWriter, last: AttemptResult?,
                     stream: AttemptResult?,
                     attempt: nat, previousChannel: Option<int>)
    returns (choice: Choice, response: Response?, failed: bool)
    requires Going(routes, guard, writer, last, stream) && LastHeld(last, Calls(routes.events)) && routes.GoesOn()
    requires routes.stay.None? ==> !Staying(routes.events)
    requires attempt == |Calls(routes.events)| && Previous(Calls(routes.events), previousChannel)
    modifies routes, routes.picker, guard, writer, Parts(last), Parts(stream)
    ensures Calls(routes.events) == Calls(old(routes.events))
    ensures choice.Chosen? ==> Going(routes, guard, writer, null, stream) && choice.Chosen? &&
                                 routes.Ready(choice.selection, choice.key, choice.sittingOut)
    ensures !choice.Chosen? ==> Over(routes, guard, writer, response, failed)
    ensures !choice.Chosen? && response != null ==> response in Parts(last) + Parts(stream)
  {
    hide Calls, Over(), Going(), Routes.GoesOn(), Routes.Callable(), Routes.Settled(), Stopped(), Staying, Finished();
    response, failed := null, false;
    choice := ChooseRoute(routes, guard, writer, last, stream);
    if !choice.Chosen? {
      response, failed := EndWithout(routes, guard, writer, last, stream, choice);
      return;
    }
    if attempt > 0 && !choice.stayed && previousChannel == Some(choice.selection.channel) {
      var stillThere := PauseBefore(routes, guard, writer, last, stream, choice);
      if !stillThere {
        choice := SelectFailed(499);
        response, failed := EndWithout(routes, guard, writer, last, stream, choice);
        return;
      }
    } else {
      AtOnce(routes, choice, attempt, previousChannel);
    }
    MoveOn(routes, guard, writer, last, stream);
  }

  lemma AtOnce(routes: Routes, choice: Choice, attempt: nat, previousChannel: Option<int>)
    requires choice.Chosen? && routes.Callable(choice.selection, choice.key, choice.sittingOut)
    requires attempt == |Calls(routes.events)| && Previous(Calls(routes.events), previousChannel)
    requires choice.stayed <==> Staying(routes.events)
    requires !(attempt > 0 && !choice.stayed && previousChannel == Some(choice.selection.channel))
    ensures routes.Ready(choice.selection, choice.key, choice.sittingOut)
  {
    hide Calls;
    routes.ReadyAtOnce(choice.selection, choice.key, choice.sittingOut);
  }

  method PauseBefore(routes: Routes, guard: AbortLogGuard, writer: LogWriter, ghost last: AttemptResult?,
                     ghost stream: AttemptResult?, choice: Choice)
    returns (stillThere: bool)
    requires Going(routes, guard, writer, last, stream)
    requires choice.Chosen? && routes.Callable(choice.selection, choice.key, choice.sittingOut)
    requires CalledLast(Calls(routes.events), choice.selection.channel) && !Staying(routes.events)
    modifies routes`events
    ensures Going(routes, guard, writer, last, stream) && Calls(routes.events) == Calls(old(routes.events))
    ensures stillThere ==> routes.Ready(choice.selection, choice.key, choice.sittingOut)
    ensures !stillThere ==> routes.Settled(SelectFailed(499)) && Stopped(routes.config, routes.events)
  {
    hide RowsOf, Outcomes, LoggedThemselves, Calls, LastStream, AnyStreamFailed, Pending(), Routes.Valid(), NoneServed,
      Routes.Ready(), Routes.Callable(), Stopped(), Staying, CalledLast;
    stillThere := routes.Pause(choice.selection, choice.key, choice.sittingOut);
  }

  /** A new attempt has a route: the previous failure was only an attempt. */
  method MoveOn(routes: Routes, guard: AbortLogGuard, writer: LogWriter, last: AttemptResult?, stream: AttemptResult?)
    requires Going(routes, guard, writer, last, stream)
    modifies writer, Parts(last)
    ensures Going(routes, guard, writer, null, stream)
  {
    hide RowsOf, Outcomes, LoggedThemselves, Calls, BothHeld(), Routes.Valid(), NoneServed;
    if last != stream {
      Supersede(last, stream, writer, Calls(routes.events));
    } else {
      OnlyStream(stream, Calls(routes.events));
    }
  }

  lemma OnlyStream(stream: AttemptResult?, calls: seq<Event>)
    requires BothHeld(stream, stream, calls)
    ensures BothHeld(null, stream, calls) && Due(stream) + Due(stream) == Due(null) + Due(stream)
  {
  }

  /** A call was just made, and its outcome is still to be dealt with. */
  ghost predicate Made(routes: Routes, guard: AbortLogGuard, writer: LogWriter, current: AttemptResult,
                       answer: Answer, stream: AttemptResult?)
    reads routes, guard, writer, Parts(current), Parts(stream)
  {
    var calls := Calls(routes.events);
    && calls != [] && calls[|calls| - 1].Called? && calls[|calls| - 1].answer == answer
    && current.call == |calls| - 1 && Held(current, calls) && BothHeld(null, stream, calls[..|calls| - 1])
    && Ledger(writer.rows, |calls|, Due(current) + Due(stream))
    && Outcomes(writer.rows) == LoggedThemselves(calls)
    && guard.Armed() && Orderly(routes.config, routes.events)
    && (if answer.Served? then EndsServed(calls) else NoneServed(calls) && routes.Valid())
    && routes.charged == Misconfigurations(routes.events) + if answer.Served? then Rejecting(routes.events) else []
  }

  /** After the call, the request is over when it was served or no retry is left. */
  ghost predicate CallEnds(routes: Routes, answer: Answer, attempt: nat)
    reads routes
  {
    && routes.events != [] && routes.events[|routes.events| - 1].Called?
    && (Finished(routes.config, routes.events) <==> answer.Served? || attempt >= routes.config.maxRetries)
    && (!answer.Served? ==> (NothingWasOffered(routes.events) ==> routes.lastResort))
    && (routes.stay.None? ==> !Staying(routes.events))
  }

  method MakeCall(routes: Routes, guard: AbortLogGuard, writer: LogWriter, stream: AttemptResult?, attempt: nat,
                  choice: Choice)
    returns (current: AttemptResult, answer: Answer)
    requires Going(routes, guard, writer, null, stream) && attempt == |Calls(routes.events)|
    requires choice.Chosen? && routes.Ready(choice.selection, choice.key, choice.sittingOut)
    modifies routes, routes.picker, writer
    ensures Made(routes, guard, writer, current, answer, stream) && |Calls(routes.events)| == attempt + 1
    ensures CallEnds(routes, answer, attempt) && CalledLast(Calls(routes.events), choice.selection.channel)
    ensures !KeyGone(routes.config.routing)
    ensures fresh(Parts(current))
  {
    hide RowsOf, Outcomes, Rejecting, Misconfigurations, AnyRateLimited, LoggedThemselves, Calls, Orderly(), Finished(),
      NoneServed, EndsServed, Ledger(), Routes.Valid(), LastStream, AnyStreamFailed, Pending(), Routes.Callable(),
      NothingWasOffered;
    ghost var calls := Calls(routes.events);
    ghost var before, owing := writer.rows, Due(stream);
    assert Due(null) + Due(stream) == owing;
    StreamCalled(stream, calls);
    ghost var later;
    current, answer, later := routes.Try(choice.selection, choice.key, choice.sittingOut, attempt, writer);
    ghost var made := Calls(routes.events);
    CallMade(before, writer.rows, calls, owing, made[attempt]);
    assert made[..attempt] == calls;
    PendingIsDue(current, made[attempt]);
    assert Due(current) + Due(stream) == if LogsItself(made[attempt]) then owing else owing + {attempt};
    OneMoreNotServed(calls, made);
  }

  lemma PendingIsDue(a: AttemptResult, e: Event)
    requires e.Called? && Pending(a, e.answer)
    ensures Due(a) == if LogsItself(e) then {} else {a.call}
  {
  }

  lemma StreamCalled(stream: AttemptResult?, calls: seq<Event>)
    requires BothHeld(null, stream, calls)
    ensures |calls| !in Due(stream)
  {
  }

  /** Makes the call. It serves the request, or ends it, or is held for the next attempt. */
  method CallOnce(routes: Routes, guard: AbortLogGuard, writer: LogWriter, stream: AttemptResult?, attempt: nat,
                  choice: Choice)
    returns (over: bool, response: Response?, failed: bool, last: AttemptResult?, held: AttemptResult?)
    requires Going(routes, guard, writer, null, stream) && attempt == |Calls(routes.events)|
    requires choice.Chosen? && routes.Ready(choice.selection, choice.key, choice.sittingOut)
    modifies routes, routes.picker, guard, writer, Parts(stream)
    ensures |Calls(routes.events)| == attempt + 1
    ensures over ==> Over(routes, guard, writer, response, failed)
    ensures over && response != null ==> fresh(response) || response in Parts(stream)
    ensures !over ==>
              && attempt < routes.config.maxRetries && Going(routes, guard, writer, last, held)
              && LastHeld(last, Calls(routes.events)) && routes.GoesOn()
              && (routes.stay.None? ==> !Staying(routes.events))
              && CalledLast(Calls(routes.events), choice.selection.channel)
    ensures !over ==> fresh(Parts(last)) && (fresh(Parts(held)) || held == stream)
  {
    hide Routes.Ready(), Routes.GoesOn(), KeyGone, RowsOf, Outcomes, Rejecting, Misconfigurations, AnyRateLimited,
      LoggedThemselves, Calls, Ledger(), Ended(),
      Routes.Valid(), LastStream, AnyStreamFailed, Pending(), NoneServed, EndsServed, Finished(), Orderly(), Stopped(),
      GivesLast, OwnStatus, CalledLast, Staying, NothingWasOffered;
    var current, answer := MakeCall(routes, guard, writer, stream, attempt, choice);
    ghost var made := Calls(routes.events);
    WhenFinished(routes.config, routes.events);
    response, failed, last, held := null, false, null, null;
    if answer.Served? {
      response := Serve(current, stream, writer, made);
      EndsWell(routes.config, routes.events, made, CallOf(response), failed);
      return true, response, false, null, null;
    }
    NotServed(made);
    over := attempt >= routes.config.maxRetries;
    if !over {
      var stillThere := routes.AsksClient();
      over := !stillThere;
    }
    if over {
      response, failed := EndOnLastCall(current, answer.StreamFailed?, stream, guard, writer, made);
      EndsWell(routes.config, routes.events, made, CallOf(response), failed);
      return;
    }
    last := current;
    held := Hold(current, answer.StreamFailed?, stream, writer, made);
  }

  lemma WhenFinished(config: Config, events: seq<Event>)
    ensures Finished(config, events) ==> Stopped(config, events)
  {
  }

  /** A call ended the request: it served it, or its answer or an earlier stream is passed on. */
  lemma EndsWell(config: Config, events: seq<Event>, calls: seq<Event>, delivered: Option<nat>, failed: bool)
    requires calls == Calls(events) != [] && events != []
    requires events[|events| - 1].Called? || events[|events| - 1].ClientGone?
    requires if EndsServed(calls) then delivered == Some(|calls| - 1) && !failed
               else GivesLast(calls, delivered, failed)
    requires !KeyGone(config.routing)
    ensures Delivers(events, delivered, failed) && OwnStatus(config, events).None?
    ensures delivered.None? ==> failed
  {
    hide Calls, LastStream, AnyStreamFailed;
  }

  lemma OneMoreNotServed(calls: seq<Event>, made: seq<Event>)
    requires NoneServed(calls) && |made| == |calls| + 1 && made[..|calls|] == calls && made[|calls|].Called?
    ensures EndsServed(made) <==> made[|calls|].answer.Served?
    ensures !made[|calls|].answer.Served? ==> NoneServed(made)
  {
  }

  /** Forwards the request, retrying up to the limit. */
  method RunProxyAttempts(routes: Routes, guard: AbortLogGuard, writer: LogWriter)
    returns (response: Response?, failed: bool)
    requires routes.Valid() && routes.events == [] && routes.stay.None? && guard.Armed() && writer.rows == []
    modifies routes, routes.picker, guard, writer
    ensures response != null ==> fresh(response)
    ensures Over(routes, guard, writer, response, failed)
    ensures |Calls(routes.events)| <= Max(routes.config.maxRetries, 0) + 1
  {
    var last: AttemptResult?, stream: AttemptResult? := null, null;
    var previousChannel: Option<int> := None;
    var attempt := 0;
    assert Going(routes, guard, writer, last, stream);
    assert routes.GoesOn() && !Staying(routes.events);
    hide Going(), Over(), Calls, Routes.Valid(), Routes.GoesOn(), Staying;
    while true
      invariant attempt == |Calls(routes.events)| <= Max(routes.config.maxRetries, 0)
      invariant fresh(Parts(last)) && fresh(Parts(stream))
      invariant Going(routes, guard, writer, last, stream) && LastHeld(last, Calls(routes.events)) && routes.GoesOn()
      invariant routes.stay.None? ==> !Staying(routes.events)
      invariant Previous(Calls(routes.events), previousChannel)
      decreases Max(routes.config.maxRetries, 0) - attempt
    {
      var choice;
      choice, response, failed := NextAttempt(routes, guard, writer, last, stream, attempt, previousChannel);
      if !choice.Chosen? {
        return;
      }
      var over;
      over, response, failed, last, stream := CallOnce(routes, guard, writer, stream, attempt, choice);
      if over {
        return;
      }
      previousChannel := Some(choice.selection.channel);
      attempt := attempt + 1;
    }
  }

  /** Handles one request: its attempts, then the delivery of what they came to. */
  method Handle(config: Config, channels: set<int>, picker: K.KeyPicker)
    returns (rows: seq<LogEntry>, delivered: Option<nat>, failed: bool, charged: seq<int>, ghost events: seq<Event>)
    requires Routes.Named(config.routing, channels)
    modifies picker
    // Everything that happened was one of the things that might happen then, and the request went on
    // until it was served, had no retry left, or could not go on.
    ensures Orderly(config, events) && Stopped(config, events)
    // No call beyond the limit, to a channel or with a key that was ruled out, or after one that served.
    ensures |Calls(events)| <= Max(config.maxRetries, 0) + 1
    ensures NoneCalledAgain(events) && OnlyLastServed(Calls(events))
    // The client receives what served the request, the last stream that failed, or the last answer.
    ensures Delivers(events, delivered, failed)
    // Each upstream call is on one row, and how the request ended on one more for each stream that
    // logged itself without being delivered.
    ensures forall call: nat :: RowsOf(rows, call) == if call < |Calls(events)| then 1 else 0
    ensures Outcomes(rows) == OutcomesFor(Calls(events), delivered)
    // A request that no call answers says why.
    ensures SaysWhy(config, rows, events)
    // Channels that refused the request are charged only when another served it.
    ensures charged == Misconfigurations(events) + if EndsServed(Calls(events)) then Rejecting(events) else []
  {
    hide RowsOf, Outcomes, Rejecting, Misconfigurations, AnyRateLimited, LoggedThemselves, Calls, NoneCalledAgain,
      Orderly(), Stopped(), Delivers, OwnStatus;
    var writer := new LogWriter();
    var guard := new AbortLogGuard();
    var routes := new Routes(config, channels, picker);
    var response;
    response, failed := RunProxyAttempts(routes, guard, writer);
    events, charged, delivered := routes.events, routes.charged, CallOf(response);
    OrderMeans(config, events);
    if delivered.Some? {
      NoRowOfItsOwn(config, events, delivered, failed);
    }
    if failed || response != null {
      guard.Disarm();
    }
    if response != null {
      ghost var before, owing := writer.rows, response.entry.Some?;
      response.Close(writer, false);
      if owing {
        RowWritten(before, writer.rows, |Calls(events)|, {response.call}, response.call);
      }
    }
    guard.Finish(writer);
    rows := writer.rows;
  }

  lemma NoRowOfItsOwn(config: Config, events: seq<Event>, delivered: Option<nat>, failed: bool)
    requires Orderly(config, events) && Delivers(events, delivered, failed) && delivered.Some?
    ensures OwnStatus(config, events).None?
  {
    hide LastStream, AnyStreamFailed;
    if events != [] {
      KeyNotGone(config, events);
    }
  }
}
