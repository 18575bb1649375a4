/** What happens over one proxied request, as a list of events, and the rows it leaves in the log. */
module AttemptTrace {
  import opened Words

  const STATUS_UNAUTHORIZED := 401
  const STATUS_FORBIDDEN := 403
  const STATUS_REQUEST_TIMEOUT := 408
  const STATUS_TOO_MANY_REQUESTS := 429

  /** A failed status that is the channel's own doing. */
  predicate IsChannelFault(status: int) {
    status < 400 || status >= 500 || status == STATUS_REQUEST_TIMEOUT || status == STATUS_TOO_MANY_REQUESTS
  }

  predicate KeyRefused(status: int) {
    status == STATUS_UNAUTHORIZED || status == STATUS_FORBIDDEN || status == STATUS_TOO_MANY_REQUESTS
  }

  /** How an upstream call came out. A stream held back and read ahead is primed. One that failed
      before content may have written its own row, when the response's account could not be
      remembered. */
  datatype Answer =
    | NoAnswer
    | Refused(status: int)
    | StreamFailed(loggedItself: bool)
    | Served(streaming: bool, primed: bool)

  /** What a request meets: its calls, what rules a channel out or makes it wait, what lets it be
      called, a pause before the same channel is called again, what routing answers when it names no
      channel, and whether the client is still there after a call that failed. */
  datatype Event =
    | Called(channel: int, key: int, sittingOut: bool, answer: Answer, stays: bool)
    | Misconfigured(channel: int)
    | Built(channel: int)
    | AccountChanged
    | SameAccount
    | RateLimited(channel: int)
    | Admitted(channel: int)
    | KeysSpent(channel: int)
    | Cooled(channel: int)
    | Waited(channel: int)
    | GoneInPause
    | ClientThere
    | ClientGone
    | NothingOffered(exclusions: set<int>)
    | SelectionFailed

  /** The event rules the channel out for the rest of the request. */
  predicate BarsChannel(e: Event, channel: int) {
    match e
    case Called(called, _, _, answer, stays) =>
      called == channel && (answer.StreamFailed? || (answer.Refused? && !stays && !IsChannelFault(answer.status)))
    case RateLimited(out) => out == channel
    case Misconfigured(out) => out == channel
    case KeysSpent(out) => out == channel
    case _ => false
  }

  /** The event rules the key out for the rest of the request. */
  predicate BarsKey(e: Event, key: int) {
    && e.Called? && key != 0 && e.key == key && e.answer.Refused?
    && (e.answer.status == STATUS_UNAUTHORIZED || e.answer.status == STATUS_FORBIDDEN)
  }

  /** Of the statuses a call may be refused with: a request's own fault rules the channel out unless
      another key is tried, and three turn the key away. */
  lemma RefusalsMean(channel: int, key: int, sittingOut: bool, status: int)
    requires key != 0
    ensures BarsChannel(Called(channel, key, sittingOut, Refused(status), false), channel) <==>
            400 <= status <= 407 || 409 <= status <= 428 || 430 <= status <= 499
    ensures !BarsChannel(Called(channel, key, sittingOut, Refused(status), true), channel)
    ensures BarsKey(Called(channel, key, sittingOut, Refused(status), true), key) <==> status == 401 || status == 403
    ensures KeyRefused(status) <==> status == 401 || status == 403 || status == 429
  {
  }

  predicate Barred(events: seq<Event>, channel: int) {
    exists i :: 0 <= i < |events| && BarsChannel(events[i], channel)
  }

  predicate KeyBarred(events: seq<Event>, key: int) {
    exists i :: 0 <= i < |events| && BarsKey(events[i], key)
  }

  /** Routing has named no channel before. */
  predicate NothingWasOffered(events: seq<Event>) {
    exists i :: 0 <= i < |events| && events[i].NothingOffered?
  }

  /** No channel and no key is called once it was ruled out. */
  predicate NoneCalledAgain(events: seq<Event>) {
    forall i, j :: 0 <= i < j < |events| && events[j].Called? ==>
      !BarsChannel(events[i], events[j].channel) && !BarsKey(events[i], events[j].key)
  }

  function Calls(events: seq<Event>): seq<Event> {
    if events == [] then []
    else Calls(events[..|events| - 1]) + if events[|events| - 1].Called? then [events[|events| - 1]] else []
  }

  predicate AnyStreamFailed(calls: seq<Event>) {
    exists i :: 0 <= i < |calls| && calls[i].Called? && calls[i].answer.StreamFailed?
  }

  lemma OneMoreAnswer(calls: seq<Event>, e: Event)
    requires e.Called?
    ensures AnyStreamFailed(calls + [e]) <==> AnyStreamFailed(calls) || e.answer.StreamFailed?
  {
    if AnyStreamFailed(calls) {
      var i :| 0 <= i < |calls| && calls[i].Called? && calls[i].answer.StreamFailed?;
      assert (calls + [e])[i] == calls[i];
    }
    assert (calls + [e])[|calls|] == e;
  }

  predicate Rejects(e: Event) {
    e.Called? && e.answer.Refused? && BarsChannel(e, e.channel)
  }

  /** Channels that refused the request in a way that may be their own fault. */
  function Rejecting(events: seq<Event>): seq<int> {
    if events == [] then []
    else
      var e := events[|events| - 1];
      Rejecting(events[..|events| - 1]) +
      if Rejects(e) then [e.channel] else []
  }

  function Misconfigurations(events: seq<Event>): seq<int> {
    if events == [] then []
    else
      Misconfigurations(events[..|events| - 1]) +
      if events[|events| - 1].Misconfigured? then [events[|events| - 1].channel] else []
  }

  predicate AnyRateLimited(events: seq<Event>) {
    events != [] && (events[|events| - 1].RateLimited? || AnyRateLimited(events[..|events| - 1]))
  }

  /** The status of a request no channel was left for. */
  function NoChannelStatus(events: seq<Event>): int {
    if AnyRateLimited(events) then STATUS_TOO_MANY_REQUESTS else if Misconfigurations(events) != [] then 502 else 503
  }

  lemma Happened(events: seq<Event>, e: Event)
    ensures Calls(events + [e]) ==
              if e.Called? then Calls(events) + [e] else Calls(events)
    ensures Rejecting(events + [e]) ==
              if Rejects(e) then Rejecting(events) + [e.channel] else Rejecting(events)
    ensures Misconfigurations(events + [e]) ==
              if e.Misconfigured? then Misconfigurations(events) + [e.channel] else Misconfigurations(events)
    ensures AnyRateLimited(events + [e]) == (e.RateLimited? || AnyRateLimited(events))
  {
  }

  lemma RuledOut(events: seq<Event>, e: Event)
    ensures forall c :: Barred(events + [e], c) <==> Barred(events, c) || BarsChannel(e, c)
    ensures forall k :: KeyBarred(events + [e], k) <==> KeyBarred(events, k) || BarsKey(e, k)
    ensures NothingWasOffered(events + [e]) <==> NothingWasOffered(events) || e.NothingOffered?
  {
    var all := events + [e];
    assert all[|events|] == e && forall i :: 0 <= i < |events| ==> all[i] == events[i];
  }

  // The log

  /** Whose row it is: that of an upstream call, of a channel no request could be built for, or
      the request's own. */
  datatype Origin = Attempt(call: nat) | Unbuilt(channel: int) | Request

  datatype LogEntry = LogEntry(origin: Origin, status: int, retried: bool)

  function RowsOf(rows: seq<LogEntry>, call: nat): nat {
    if rows == [] then 0
    else RowsOf(rows[..|rows| - 1], call) + if rows[|rows| - 1].origin == Attempt(call) then 1 else 0
  }

  /** Rows that say how the request ended. */
  function Outcomes(rows: seq<LogEntry>): nat {
    if rows == [] then 0
    else Outcomes(rows[..|rows| - 1]) + if rows[|rows| - 1].retried then 0 else 1
  }

  lemma Logged(rows: seq<LogEntry>, row: LogEntry)
    ensures Outcomes(rows + [row]) == Outcomes(rows) + if row.retried then 0 else 1
    ensures forall call: nat :: RowsOf(rows + [row], call) == RowsOf(rows, call) + if row.origin == Attempt(call)
              then 1 else 0
  {
  }

  /** Every call but those owing has its one row. */
  ghost predicate Ledger(rows: seq<LogEntry>, calls: nat, owing: set<int>) {
    forall call: nat :: RowsOf(rows, call) == if call < calls && call !in owing then 1 else 0
  }

  /** The rows added are those of no call and of no outcome. */
  ghost predicate SameCounts(before: seq<LogEntry>, after: seq<LogEntry>) {
    Outcomes(before) == Outcomes(after) && forall call: nat :: RowsOf(before, call) == RowsOf(after, call)
  }

  lemma SameCountsTwice(before: seq<LogEntry>, mid: seq<LogEntry>, after: seq<LogEntry>)
    requires SameCounts(before, mid) && SameCounts(mid, after)
    ensures SameCounts(before, after)
  {
  }

  lemma SameCountsAtFirst(rows: seq<LogEntry>)
    ensures SameCounts(rows, rows)
  {
  }

  function LoggedThemselves(calls: seq<Event>): nat {
    if calls == [] then 0
    else LoggedThemselves(calls[..|calls| - 1]) + if LogsItself(calls[|calls| - 1]) then 1 else 0
  }

  predicate LogsItself(e: Event) {
    e.Called? && e.answer == StreamFailed(true)
  }

  lemma {:induction false} NoneLogged(calls: seq<Event>)
    ensures LoggedThemselves(calls) == 0 <==> forall i :: 0 <= i < |calls| ==> !LogsItself(calls[i])
  {
    if calls != [] {
      var front := calls[..|calls| - 1];
      NoneLogged(front);
      assert forall i :: 0 <= i < |front| ==> front[i] == calls[i];
    }
  }

  /** Apart from one of them, none logged itself. */
  lemma {:induction false} OnlyOneLogged(calls: seq<Event>, call: nat)
    requires call < |calls| && LogsItself(calls[call])
    ensures LoggedThemselves(calls) >= 1
    ensures LoggedThemselves(calls) == 1 <==> forall i :: 0 <= i < |calls| && LogsItself(calls[i]) ==> i == call
  {
    var front := calls[..|calls| - 1];
    assert forall i :: 0 <= i < |front| ==> front[i] == calls[i];
    if call == |calls| - 1 {
      NoneLogged(front);
    } else {
      OnlyOneLogged(front, call);
    }
  }

  /** How the request ended is on one row, and on one more for every stream that logged itself and
      was not what the client received. */
  function OutcomesFor(calls: seq<Event>, delivered: Option<nat>): nat {
    LoggedThemselves(calls) + if EndedOnLogged(calls, delivered) then 0 else 1
  }

  predicate EndedOnLogged(calls: seq<Event>, delivered: Option<nat>) {
    delivered.Some? && delivered.value < |calls| && LogsItself(calls[delivered.value])
  }

  /** One outcome is logged exactly when every stream that logged itself is the one delivered. */
  lemma OneOutcomeIff(calls: seq<Event>, delivered: Option<nat>)
    ensures OutcomesFor(calls, delivered) == 1 <==>
            forall i: nat :: i < |calls| && LogsItself(calls[i]) ==> delivered == Some(i)
  {
    if EndedOnLogged(calls, delivered) {
      OnlyOneLogged(calls, delivered.value);
    } else {
      NoneLogged(calls);
    }
  }

  /** A stream logs itself on one channel, and another channel answers: two rows say how the request
      ended. */
  lemma TwoOutcomes()
    ensures var events := [Called(1, 0, false, StreamFailed(true), false),
              Called(2, 0, false, Served(true, true), false)];
            NoneCalledAgain(events) && Calls(events) == events && OutcomesFor(Calls(events), Some(1)) == 2
  {
    var first, second := Called(1, 0, false, StreamFailed(true), false), Called(2, 0, false, Served(true, true), false);
    Happened([], first);
    Happened([first], second);
    assert [first] + [second] == [first, second] && [] + [first] == [first];
    assert [first, second][..1] == [first] && [first][..0] == [];
    assert LoggedThemselves([first]) == 1;
    assert LoggedThemselves([first, second]) == 1;
  }
}
