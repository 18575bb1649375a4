/** The rows an upstream call leaves in the log, and the call itself: what it comes to is left open. */
module AttemptLog {
  import opened Words
  import opened AttemptTrace

  class LogWriter {
    var rows: seq<LogEntry>

    constructor ()
      ensures rows == []
    {
      rows := [];
    }

    method Schedule(entry: LogEntry)
      modifies this
      ensures rows == old(rows) + [entry]
      ensures Outcomes(rows) == Outcomes(old(rows)) + if entry.retried then 0 else 1
      ensures forall call: nat :: RowsOf(rows, call) == RowsOf(old(rows), call) + if entry.origin == Attempt(call)
                then 1 else 0
    {
      Logged(rows, entry);
      rows := rows + [entry];
    }
  }

  /** An upstream's answer. Its row is written when its body is closed. */
  class Response {
    const call: nat
    const status: int
    const streaming: bool
    var entry: Option<LogEntry>
    /** The stream was read ahead until it showed content. */
    var primed: bool

    constructor (call: nat, status: int, streaming: bool)
      ensures this.call == call && this.status == status && this.streaming == streaming
      ensures entry == Some(LogEntry(Attempt(call), status, false)) && !primed
    {
      this.call, this.status, this.streaming, primed := call, status, streaming, false;
      entry := Some(LogEntry(Attempt(call), status, false));
    }

    ghost predicate Valid()
      reads this
    {
      entry.Some? ==> entry.value.origin == Attempt(call) && !entry.value.retried
    }

    /** Writes the row, with whatever status the end of the body shows; the first time only. */
    method Close(writer: LogWriter, retried: bool)
      requires Valid()
      modifies this, writer
      ensures entry.None? && old(writer.rows) <= writer.rows
      ensures old(entry).None? ==> writer.rows == old(writer.rows)
      ensures old(entry).Some? ==> Outcomes(writer.rows) == Outcomes(old(writer.rows)) + if retried then 0 else 1
      ensures old(entry).Some? ==>
                forall n: nat :: RowsOf(writer.rows, n) == RowsOf(old(writer.rows), n) + if n == call then 1 else 0
    {
      if entry.Some? {
        var status: int := *;
        writer.Schedule(entry.value.(status := status, retried := retried));
      }
      entry := None;
    }

    /** Reads ahead until the stream shows content. It may fail first, and it writes its row at
        once when the account behind it could not be remembered. */
    method Prime(writer: LogWriter) returns (content: bool)
      requires Valid() && entry.Some?
      modifies this, writer
      ensures content ==> entry == old(entry) && writer.rows == old(writer.rows)
      ensures primed == content
      ensures entry.Some? ==> entry == old(entry) && writer.rows == old(writer.rows)
      ensures entry.None? ==> Outcomes(writer.rows) == Outcomes(old(writer.rows)) + 1
      ensures entry.None? ==>
                forall n: nat :: RowsOf(writer.rows, n) == RowsOf(old(writer.rows), n) + if n == call then 1 else 0
    {
      content := *;
      primed := content;
      if !content {
        var remembered: bool := *;
        if !remembered {
          writer.Schedule(entry.value.(status := 500));
          entry := None;
        }
      }
    }
  }

  /** A failed attempt, held until it is known whether another replaces it. */
  class AttemptResult {
    const call: nat
    const response: Response?
    /** The row of an attempt that got no answer. */
    const held: Option<LogEntry>
    var settled: bool

    constructor (call: nat, response: Response?)
      ensures this.call == call && this.response == response && !settled
      ensures held == if response == null then Some(LogEntry(Attempt(call), 502, false)) else None
    {
      this.call, this.response, settled := call, response, false;
      held := if response == null then Some(LogEntry(Attempt(call), 502, false)) else None;
    }

    ghost predicate Valid()
      reads this, response
    {
      && (response == null <==> held.Some?)
      && (held.Some? ==> held.value.origin == Attempt(call) && !held.value.retried)
      && (response != null ==> response.Valid() && response.call == call)
    }

    /** The call's row is still to be written, by this. */
    ghost predicate Owes()
      reads this, response
    {
      !settled && (held.Some? || (response != null && response.entry.Some?))
    }

    /** Writes the attempt as one another attempt replaced. */
    method Retried(writer: LogWriter)
      requires Valid()
      modifies this, response, writer
      ensures Valid() && settled && old(writer.rows) <= writer.rows
      ensures response != null && old(settled) ==> response.entry == old(response.entry)
      ensures !old(Owes()) ==> writer.rows == old(writer.rows)
      ensures old(Owes()) ==> Outcomes(writer.rows) == Outcomes(old(writer.rows))
      ensures old(Owes()) ==>
                forall n: nat :: RowsOf(writer.rows, n) == RowsOf(old(writer.rows), n) + if n == call then 1 else 0
    {
      if settled {
        return;
      }
      settled := true;
      if held.Some? {
        writer.Schedule(held.value.(retried := true));
      }
      if response != null {
        response.Close(writer, true);
      }
    }

    /** Writes the attempt as how the request ended; a response's row is written by whoever
        delivers it. */
    method Concluded(writer: LogWriter)
      requires Valid()
      modifies this, writer
      ensures Valid() && settled
      ensures old(settled) || held.None? ==> writer.rows == old(writer.rows)
      ensures !old(settled) && held.Some? ==> Outcomes(writer.rows) == Outcomes(old(writer.rows)) + 1
      ensures !old(settled) && held.Some? ==>
                forall n: nat :: RowsOf(writer.rows, n) == RowsOf(old(writer.rows), n) + if n == call then 1 else 0
    {
      if settled {
        return;
      }
      settled := true;
      if held.Some? {
        writer.Schedule(held.value);
      }
    }
  }

  /** Holds the row a request ends on, until some row says how it ended. */
  class AbortLogGuard {
    var entry: Option<LogEntry>

    constructor ()
      ensures entry == Some(LogEntry(Request, 499, false))
    {
      entry := Some(LogEntry(Request, 499, false));
    }

    ghost predicate Armed()
      reads this
    {
      entry.Some? && entry.value.origin == Request && !entry.value.retried
    }

    method Disarm()
      modifies this
      ensures entry.None?
    {
      entry := None;
    }

    /** Records a channel no request could be built for; the request goes on. */
    method LogAttempt(writer: LogWriter, channel: int)
      requires Armed()
      modifies writer
      ensures SameCounts(old(writer.rows), writer.rows)
    {
      writer.Schedule(LogEntry(Unbuilt(channel), 502, true));
    }

    method LogAndDisarm(writer: LogWriter, status: int)
      requires Armed()
      modifies this, writer
      ensures entry.None?
      ensures writer.rows == old(writer.rows) + [LogEntry(Request, status, false)]
      ensures Outcomes(writer.rows) == Outcomes(old(writer.rows)) + 1
      ensures forall n: nat :: RowsOf(writer.rows, n) == RowsOf(old(writer.rows), n)
    {
      writer.Schedule(entry.value.(status := status));
      entry := None;
    }

    /** Writes the default row if nothing claimed it. */
    method Finish(writer: LogWriter)
      modifies this, writer
      ensures entry.None?
      ensures old(entry).None? ==> writer.rows == old(writer.rows)
    {
      if entry.Some? {
        writer.Schedule(entry.value);
      }
      entry := None;
    }
  }

  /** Calls the upstream: no answer, or a response with its row pending. */
  method ProxyRequest(call: nat) returns (response: Response?)
    ensures response != null ==>
              fresh(response) && response.call == call &&
                response.entry == Some(LogEntry(Attempt(call), response.status, false)) && !response.primed
    ensures response != null && response.streaming ==> IsSuccess(response.status)
  {
    var answered: bool := *;
    var status: int, streaming: bool := *, *;
    response := null;
    if answered {
      response := new Response(call, status, streaming && IsSuccess(status));
    }
  }

  predicate IsSuccess(status: int) {
    200 <= status < 300
  }

  /** Calls the upstream, holding a stream back until it shows content where that is wanted. */
  method Ask(call: nat, holds: bool, writer: LogWriter) returns (current: AttemptResult, answer: Answer)
    modifies writer
    ensures fresh(current) && (current.response != null ==> fresh(current.response))
    ensures current.call == call && Pending(current, answer)
    ensures answer.Served? ==> (answer.primed <==> answer.streaming && holds)
    ensures answer.StreamFailed? ==> holds
    ensures answer != StreamFailed(true) ==> writer.rows == old(writer.rows)
    ensures answer == StreamFailed(true) ==> Outcomes(writer.rows) == Outcomes(old(writer.rows)) + 1
    ensures answer == StreamFailed(true) ==>
              forall n: nat :: RowsOf(writer.rows, n) == RowsOf(old(writer.rows), n) + if n == call then 1 else 0
  {
    hide RowsOf, Outcomes;
    var response := ProxyRequest(call);
    current := new AttemptResult(call, response);
    answer := NoAnswer;
    if response != null {
      answer := if IsSuccess(response.status) then Served(response.streaming, false) else Refused(response.status);
      if answer.Served? && response.streaming && holds {
        var content := response.Prime(writer);
        answer := if content then Served(true, true) else StreamFailed(response.entry.None?);
      }
    }
  }

  /** A failure not yet said to be retried or how the request ended: its row is still to be
      written, unless it is a stream that wrote its own. */
  ghost predicate Pending(a: AttemptResult, answer: Answer)
    reads a, a.response
  {
    && a.Valid() && !a.settled
    && (a.Owes() <==> answer != StreamFailed(true))
    && (a.response == null <==> answer.NoAnswer?)
    && (a.response != null ==> Shows(a.response, answer))
  }

  /** The response is the answer: refused by its status, or a success that shows its content. */
  ghost predicate Shows(response: Response, answer: Answer)
    reads response
  {
    match answer
    case NoAnswer => false
    case Refused(status) => status == response.status && !IsSuccess(response.status)
    case StreamFailed(_) => IsSuccess(response.status) && response.streaming && !response.primed
    case Served(streaming, primed) =>
      IsSuccess(response.status) && streaming == response.streaming && primed == response.primed
  }
}
