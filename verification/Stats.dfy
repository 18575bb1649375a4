/** The dashboard's counters: what a log row adds to them, filed per hour, channel and model, and
    read back over a span of time. */
module Stats {
  import opened Words

  const HOUR := 3600

  /** A row of request_logs, times in seconds. Channel 0 and the empty model stand for none. */
  datatype LogRow = LogRow(id: int, at: nat, channel: int, model: string, retried: bool, status: Option<int>,
                           durationMs: Option<int>, totalTokens: Option<int>, promptTokens: Option<int>,
                             cachedTokens: Option<int>)

  /** The counters of stats_hourly. A bound is NULL until some request had a duration. */
  datatype Facts = Facts(
    requests: int, errors: int, cancelled: int, status2xx: int, status4xx: int, status5xx: int,
    durationCount: int, durationSum: int, durationMin: Option<int>, durationMax: Option<int>, tokenRequests: int,
    attempts: int, attemptErrors: int, attemptDurationCount: int, attemptDurationSum: int,
    totalTokens: int, promptTokens: int, promptCachedTokens: int)

  const NO_FACTS := Facts(0, 0, 0, 0, 0, 0, 0, 0, None, None, 0, 0, 0, 0, 0, 0, 0, 0)

  datatype Key = Key(hour: int, channel: int, model: string)

  function KeyOf(row: LogRow): Key {
    Key(row.at / HOUR * HOUR, row.channel, row.model)
  }

  /** A row is filed under the one whole hour of UTC it is in, with its channel and its model. */
  lemma FiledUnder(row: LogRow, k: Key)
    ensures k == KeyOf(row) <==>
            k.hour % 3600 == 0 && k.hour <= row.at < k.hour + 3600 && k.channel == row.channel && k.model == row.model
  {
    var hour := KeyOf(row).hour;
    if k.hour % 3600 == 0 && k.hour <= row.at < k.hour + 3600 {
      assert k.hour / 3600 == row.at / 3600;
    }
  }

  // What one row contributes

  function CountIf(condition: bool): int {
    if condition then 1 else 0
  }

  predicate Failed(status: Option<int>) {
    status.None? || ((status.value < 200 || status.value >= 300) && status.value != 499)
  }

  predicate Within(status: Option<int>, low: int, high: int) {
    status.Some? && low <= status.value < high
  }

  function OrZero(x: Option<int>): int {
    if x.Some? then x.value else 0
  }

  function Contribution(row: LogRow): Facts {
    var request := !row.retried;
    var timed := row.durationMs.Some? && row.durationMs.value >= 0;
    var duration := if timed then row.durationMs else None;
    Facts(
      CountIf(request), CountIf(request && Failed(row.status)), CountIf(request && row.status == Some(499)),
      CountIf(request && Within(row.status, 200, 300)),
      CountIf(request && Within(row.status, 400, 500) && row.status != Some(499)),
      CountIf(request && row.status.Some? && row.status.value >= 500),
      CountIf(request && timed), if request then OrZero(duration) else 0,
      if request then duration else None, if request then duration else None,
      CountIf(request && row.totalTokens.Some?),
      1, CountIf(Failed(row.status)), CountIf(timed), OrZero(duration),
      OrZero(row.totalTokens), OrZero(row.promptTokens), OrZero(row.cachedTokens))
  }

  // Combining contributions: SUM, MIN and MAX, which skip NULL

  function Lower(a: Option<int>, b: Option<int>): Option<int> {
    if a.None? then b else if b.None? then a else Some(Min(a.value, b.value))
  }

  function Higher(a: Option<int>, b: Option<int>): Option<int> {
    if a.None? then b else if b.None? then a else Some(Max(a.value, b.value))
  }

  function Plus(a: Facts, b: Facts): Facts {
    Facts(
      a.requests + b.requests, a.errors + b.errors, a.cancelled + b.cancelled,
      a.status2xx + b.status2xx, a.status4xx + b.status4xx, a.status5xx + b.status5xx,
      a.durationCount + b.durationCount, a.durationSum + b.durationSum,
      Lower(a.durationMin, b.durationMin), Higher(a.durationMax, b.durationMax), a.tokenRequests + b.tokenRequests,
      a.attempts + b.attempts, a.attemptErrors + b.attemptErrors,
      a.attemptDurationCount + b.attemptDurationCount, a.attemptDurationSum + b.attemptDurationSum,
      a.totalTokens + b.totalTokens, a.promptTokens + b.promptTokens, a.promptCachedTokens + b.promptCachedTokens)
  }

  lemma PlusLaws(a: Facts, b: Facts, c: Facts)
    ensures Plus(a, b) == Plus(b, a)
    ensures Plus(Plus(a, b), c) == Plus(a, Plus(b, c))
    ensures Plus(a, NO_FACTS) == a == Plus(NO_FACTS, a)
  {
  }

  function Coalesce(a: Option<int>, b: Option<int>): Option<int> {
    if a.Some? then a else b
  }

  /** SQL's two-argument MIN and MAX: NULL when either is. */
  function ScalarMin(a: Option<int>, b: Option<int>): Option<int> {
    if a.Some? && b.Some? then Some(Min(a.value, b.value)) else None
  }

  function ScalarMax(a: Option<int>, b: Option<int>): Option<int> {
    if a.Some? && b.Some? then Some(Max(a.value, b.value)) else None
  }

  /** What ON CONFLICT makes of the stored counters and those of a new group. */
  function Upserted(stored: Facts, added: Facts): Facts {
    Plus(stored, added).(
      durationMin := ScalarMin(Coalesce(stored.durationMin, added.durationMin),
        Coalesce(added.durationMin, stored.durationMin)),
      durationMax := ScalarMax(Coalesce(stored.durationMax, added.durationMax),
        Coalesce(added.durationMax, stored.durationMax)))
  }

  lemma UpsertAdds(stored: Facts, added: Facts)
    ensures Upserted(stored, added) == Plus(stored, added)
  {
  }

  // Folding rows

  /** The counters of the rows that satisfy p. */
  function Fold(rows: seq<LogRow>, p: LogRow -> bool): Facts {
    if rows == [] then NO_FACTS
    else
      var last := rows[|rows| - 1];
      Plus(Fold(rows[..|rows| - 1], p), if p(last) then Contribution(last) else NO_FACTS)
  }

  lemma {:induction false} FoldSame(rows: seq<LogRow>, p: LogRow -> bool, q: LogRow -> bool)
    requires forall r :: r in rows ==> p(r) == q(r)
    ensures Fold(rows, p) == Fold(rows, q)
  {
    hide Plus, Contribution;
    if rows != [] {
      FoldSame(rows[..|rows| - 1], p, q);
    }
  }

  lemma {:induction false} FoldNone(rows: seq<LogRow>, p: LogRow -> bool)
    requires forall r :: r in rows ==> !p(r)
    ensures Fold(rows, p) == NO_FACTS
  {
    hide Contribution;
    if rows != [] {
      FoldNone(rows[..|rows| - 1], p);
    }
  }

  lemma {:induction false} FoldConcat(a: seq<LogRow>, b: seq<LogRow>, p: LogRow -> bool)
    ensures Fold(a + b, p) == Plus(Fold(a, p), Fold(b, p))
  {
    hide Plus, Contribution;
    if b == [] {
      assert a + b == a;
      PlusLaws(Fold(a, p), NO_FACTS, NO_FACTS);
    } else {
      var front, last := b[..|b| - 1], b[|b| - 1];
      assert (a + b)[..|a + b| - 1] == a + front;
      FoldConcat(a, front, p);
      PlusLaws(Fold(a, p), Fold(front, p), if p(last) then Contribution(last) else NO_FACTS);
    }
  }

  /** No row is lost or counted twice when one condition is split in two. */
  lemma {:induction false} FoldSplit(rows: seq<LogRow>, p: LogRow -> bool, q: LogRow -> bool, either: LogRow -> bool)
    requires forall r :: r in rows ==> !(p(r) && q(r)) && (either(r) <==> p(r) || q(r))
    ensures Fold(rows, either) == Plus(Fold(rows, p), Fold(rows, q))
  {
    hide Plus, Contribution;
    if rows == [] {
      PlusLaws(NO_FACTS, NO_FACTS, NO_FACTS);
    } else {
      var front, last := rows[..|rows| - 1], rows[|rows| - 1];
      assert last in rows;
      FoldSplit(front, p, q, either);
      var f, g, c := Fold(front, p), Fold(front, q), Contribution(last);
      PlusLaws(f, g, c);
      PlusLaws(g, c, NO_FACTS);
      PlusLaws(f, c, g);
      PlusLaws(f, g, NO_FACTS);
      PlusLaws(Plus(f, g), NO_FACTS, NO_FACTS);
    }
  }

  // What the counters say about each other

  /** Every request is a success, a failure or cancelled, and the bounds bound the durations. */
  predicate Balanced(f: Facts) {
    && f.requests == f.status2xx + f.errors + f.cancelled && 0 <= f.status2xx && 0 <= f.errors && 0 <= f.cancelled
    && 0 <= f.status4xx && 0 <= f.status5xx && f.status4xx + f.status5xx <= f.errors
    && f.requests <= f.attempts && f.errors <= f.attemptErrors <= f.attempts
    && 0 <= f.durationCount <= f.requests && f.durationCount <= f.attemptDurationCount <= f.attempts
    && (f.durationMin.Some? <==> f.durationCount > 0) && (f.durationMax.Some? <==> f.durationCount > 0)
    && (f.durationCount == 0 ==> f.durationSum == 0)
    && (f.durationCount > 0 ==> Spread(f.durationMin.value, f.durationMax.value, f.durationCount, f.durationSum))
  }

  /** The average lies between the bounds. */
  predicate Spread(low: int, high: int, count: int, sum: int) {
    0 <= low && low * count <= sum <= high * count
  }

  lemma SpreadLow(low: int, high: int, count: int, sum: int)
    requires Spread(low, high, count, sum)
    ensures 0 <= low
  {
  }

  lemma SpreadWidens(low: int, high: int, low': int, high': int, count: int, sum: int)
    requires Spread(low, high, count, sum) && 0 <= low' <= low && high <= high' && count >= 0
    ensures Spread(low', high', count, sum)
  {
  }

  lemma SpreadAdds(low: int, high: int, m: int, s: int, n: int, t: int)
    requires Spread(low, high, m, s) && Spread(low, high, n, t)
    ensures Spread(low, high, m + n, s + t)
  {
  }

  lemma PlusBalanced(a: Facts, b: Facts)
    requires Balanced(a) && Balanced(b)
    ensures Balanced(Plus(a, b))
  {
    hide Spread;
    if a.durationCount > 0 && b.durationCount > 0 {
      var low, high := Min(a.durationMin.value, b.durationMin.value), Max(a.durationMax.value, b.durationMax.value);
      SpreadLow(a.durationMin.value, a.durationMax.value, a.durationCount, a.durationSum);
      SpreadLow(b.durationMin.value, b.durationMax.value, b.durationCount, b.durationSum);
      SpreadWidens(a.durationMin.value, a.durationMax.value, low, high, a.durationCount, a.durationSum);
      SpreadWidens(b.durationMin.value, b.durationMax.value, low, high, b.durationCount, b.durationSum);
      SpreadAdds(low, high, a.durationCount, a.durationSum, b.durationCount, b.durationSum);
    }
  }

  lemma ContributionBalanced(row: LogRow)
    ensures Balanced(Contribution(row)) && Balanced(NO_FACTS)
  {
  }

  lemma {:induction false} FoldBalanced(rows: seq<LogRow>, p: LogRow -> bool)
    ensures Balanced(Fold(rows, p))
  {
    hide Plus, Contribution, Balanced;
    assert Balanced(NO_FACTS) by { ContributionBalanced(LogRow(0, 0, 0, "", false, None, None, None, None, None)); }
    if rows != [] {
      FoldBalanced(rows[..|rows| - 1], p);
      ContributionBalanced(rows[|rows| - 1]);
      PlusBalanced(Fold(rows[..|rows| - 1], p), if p(rows[|rows| - 1]) then Contribution(rows[|rows| - 1])
        else NO_FACTS);
    }
  }
}
