/** What each counter counts: the rows themselves, without the contributions they are folded from. */
module StatsCounts {
  import opened Words
  import opened Stats

  /** The places of the rows that satisfy q. */
  ghost function Places(rows: seq<LogRow>, q: LogRow -> bool): set<int> {
    set i | 0 <= i < |rows| && q(rows[i])
  }

  function Total(rows: seq<LogRow>, value: LogRow -> int): int {
    if rows == [] then 0 else Total(rows[..|rows| - 1], value) + value(rows[|rows| - 1])
  }

  lemma OneMorePlace(rows: seq<LogRow>, q: LogRow -> bool)
    requires rows != []
    ensures |Places(rows, q)| == |Places(rows[..|rows| - 1], q)| + if q(rows[|rows| - 1]) then 1 else 0
  {
    var front, n := rows[..|rows| - 1], |rows| - 1;
    var before := Places(front, q);
    if q(rows[n]) {
      assert Places(rows, q) == before + {n};
    } else {
      assert Places(rows, q) == before;
    }
  }

  ghost predicate Additive(counter: Facts -> int) {
    counter(NO_FACTS) == 0 && forall a, b :: counter(Plus(a, b)) == counter(a) + counter(b)
  }

  /** A counter that goes up by one for the rows that satisfy q is their number. */
  lemma {:induction false} CountsPlaces(rows: seq<LogRow>, p: LogRow -> bool, q: LogRow -> bool, counter: Facts -> int)
    requires Additive(counter)
    requires forall r :: (if p(r) then counter(Contribution(r)) else 0) == if q(r) then 1 else 0
    ensures counter(Fold(rows, p)) == |Places(rows, q)|
  {
    hide Plus, Contribution;
    if rows == [] {
      assert Places(rows, q) == {};
    } else {
      CountsPlaces(rows[..|rows| - 1], p, q, counter);
      OneMorePlace(rows, q);
    }
  }

  lemma {:induction false} SumsValues(rows: seq<LogRow>, p: LogRow -> bool, value: LogRow -> int, counter: Facts -> int)
    requires Additive(counter)
    requires forall r :: (if p(r) then counter(Contribution(r)) else 0) == value(r)
    ensures counter(Fold(rows, p)) == Total(rows, value)
  {
    hide Plus, Contribution;
    if rows != [] {
      SumsValues(rows[..|rows| - 1], p, value, counter);
    }
  }

  /** A request is a row not marked retried; every row is an attempt. */
  lemma RequestsAndAttempts(rows: seq<LogRow>, p: LogRow -> bool)
    ensures Fold(rows, p).requests == |Places(rows, (r: LogRow) => p(r) && !r.retried)|
    ensures Fold(rows, p).attempts == |Places(rows, (r: LogRow) => p(r))|
    ensures Fold(rows, p).tokenRequests == |Places(rows, (r: LogRow) => p(r) && !r.retried && r.totalTokens.Some?)|
  {
    CountsPlaces(rows, p, (r: LogRow) => p(r) && !r.retried, (f: Facts) => f.requests);
    CountsPlaces(rows, p, (r: LogRow) => p(r), (f: Facts) => f.attempts);
    CountsPlaces(rows, p, (r: LogRow) => p(r) && !r.retried && r.totalTokens.Some?, (f: Facts) => f.tokenRequests);
  }

  /** A row without a status failed, and so did one outside 200 to 299 but 499, which was cancelled. */
  lemma ErrorsAndCancelled(rows: seq<LogRow>, p: LogRow -> bool)
    ensures Fold(rows, p).cancelled == |Places(rows, (r: LogRow) => p(r) && !r.retried && r.status == Some(499))|
    ensures Fold(rows, p).errors ==
            |Places(rows, (r: LogRow) => p(r) && !r.retried && (r.status.None? ||
              ((r.status.value < 200 || r.status.value >= 300) && r.status.value != 499)))|
    ensures Fold(rows, p).attemptErrors ==
            |Places(rows, (r: LogRow) => p(r) && (r.status.None? ||
              ((r.status.value < 200 || r.status.value >= 300) && r.status.value != 499)))|
  {
    CountsPlaces(rows, p, (r: LogRow) => p(r) && !r.retried && r.status == Some(499), (f: Facts) => f.cancelled);
    CountsPlaces(rows, p, (r: LogRow) => p(r) && !r.retried && (r.status.None? ||
      ((r.status.value < 200 || r.status.value >= 300) && r.status.value != 499)), (f: Facts) => f.errors);
    CountsPlaces(rows, p, (r: LogRow) => p(r) && (r.status.None? ||
      ((r.status.value < 200 || r.status.value >= 300) && r.status.value != 499)), (f: Facts) => f.attemptErrors);
  }

  lemma StatusClasses(rows: seq<LogRow>, p: LogRow -> bool)
    ensures Fold(rows, p).status2xx ==
            |Places(rows, (r: LogRow) => p(r) && !r.retried && r.status.Some? && 200 <= r.status.value < 300)|
    ensures Fold(rows, p).status4xx ==
            |Places(rows, (r: LogRow) => p(r) && !r.retried && r.status.Some? && 400 <= r.status.value < 500 &&
              r.status.value != 499)|
    ensures Fold(rows, p).status5xx ==
            |Places(rows, (r: LogRow) => p(r) && !r.retried && r.status.Some? && 500 <= r.status.value)|
  {
    CountsPlaces(rows, p, (r: LogRow) => p(r) && !r.retried && r.status.Some? && 200 <= r.status.value < 300,
      (f: Facts) => f.status2xx);
    CountsPlaces(rows, p, (r: LogRow) => p(r) && !r.retried && r.status.Some? && 400 <= r.status.value < 500 &&
      r.status.value != 499, (f: Facts) => f.status4xx);
    CountsPlaces(rows, p, (r: LogRow) => p(r) && !r.retried && r.status.Some? && 500 <= r.status.value,
      (f: Facts) => f.status5xx);
  }

  predicate Timed(r: LogRow) {
    r.durationMs.Some? && r.durationMs.value >= 0
  }

  /** Only durations that are not negative are counted and summed. */
  lemma Durations(rows: seq<LogRow>, p: LogRow -> bool)
    ensures Fold(rows, p).durationCount == |Places(rows, (r: LogRow) => p(r) && !r.retried && Timed(r))|
    ensures Fold(rows, p).attemptDurationCount == |Places(rows, (r: LogRow) => p(r) && Timed(r))|
    ensures Fold(rows, p).durationSum ==
            Total(rows, (r: LogRow) => if p(r) && !r.retried && Timed(r) then r.durationMs.value else 0)
    ensures Fold(rows, p).attemptDurationSum ==
            Total(rows, (r: LogRow) => if p(r) && Timed(r) then r.durationMs.value else 0)
  {
    CountsPlaces(rows, p, (r: LogRow) => p(r) && !r.retried && Timed(r), (f: Facts) => f.durationCount);
    CountsPlaces(rows, p, (r: LogRow) => p(r) && Timed(r), (f: Facts) => f.attemptDurationCount);
    SumsValues(rows, p, (r: LogRow) => if p(r) && !r.retried && Timed(r) then r.durationMs.value else 0,
      (f: Facts) => f.durationSum);
    SumsValues(rows, p, (r: LogRow) => if p(r) && Timed(r) then r.durationMs.value else 0,
      (f: Facts) => f.attemptDurationSum);
  }

  /** Tokens are summed over every row, one without a count adding nothing. */
  lemma Tokens(rows: seq<LogRow>, p: LogRow -> bool)
    ensures Fold(rows, p).totalTokens ==
            Total(rows, (r: LogRow) => if p(r) && r.totalTokens.Some? then r.totalTokens.value else 0)
    ensures Fold(rows, p).promptTokens ==
            Total(rows, (r: LogRow) => if p(r) && r.promptTokens.Some? then r.promptTokens.value else 0)
    ensures Fold(rows, p).promptCachedTokens ==
            Total(rows, (r: LogRow) => if p(r) && r.cachedTokens.Some? then r.cachedTokens.value else 0)
  {
    SumsValues(rows, p, (r: LogRow) => if p(r) && r.totalTokens.Some? then r.totalTokens.value else 0,
      (f: Facts) => f.totalTokens);
    SumsValues(rows, p, (r: LogRow) => if p(r) && r.promptTokens.Some? then r.promptTokens.value else 0,
      (f: Facts) => f.promptTokens);
    SumsValues(rows, p, (r: LogRow) => if p(r) && r.cachedTokens.Some? then r.cachedTokens.value else 0,
      (f: Facts) => f.promptCachedTokens);
  }

  /** A request with a duration. */
  predicate Lasted(r: LogRow, p: LogRow -> bool) {
    p(r) && !r.retried && Timed(r)
  }

  /** There is a bound when some request lasted, and then one lasted exactly as long. */
  ghost predicate IsAttained(rows: seq<LogRow>, p: LogRow -> bool, bound: Option<int>) {
    && (bound.None? ==> forall r :: r in rows ==> !Lasted(r, p))
    && (bound.Some? ==> exists r :: r in rows && Lasted(r, p) && r.durationMs == bound)
  }

  ghost predicate IsShortest(rows: seq<LogRow>, p: LogRow -> bool, low: Option<int>) {
    && IsAttained(rows, p, low)
    && (low.Some? ==> forall r :: r in rows && Lasted(r, p) ==> low.value <= r.durationMs.value)
  }

  ghost predicate IsLongest(rows: seq<LogRow>, p: LogRow -> bool, high: Option<int>) {
    && IsAttained(rows, p, high)
    && (high.Some? ==> forall r :: r in rows && Lasted(r, p) ==> r.durationMs.value <= high.value)
  }

  function Lasting(r: LogRow, p: LogRow -> bool): Option<int> {
    if Lasted(r, p) then r.durationMs else None
  }

  lemma OneMoreAttained(rows: seq<LogRow>, last: LogRow, p: LogRow -> bool, bound: Option<int>)
    requires IsAttained(rows, p, bound)
    ensures IsAttained(rows + [last], p, if bound.None? then Lasting(last, p) else bound)
    ensures Lasted(last, p) ==> IsAttained(rows + [last], p, last.durationMs)
  {
    var all := rows + [last];
    assert last in all;
    if bound.Some? {
      var r :| r in rows && Lasted(r, p) && r.durationMs == bound;
      assert r in all;
    }
  }

  lemma OneMoreShortest(rows: seq<LogRow>, last: LogRow, p: LogRow -> bool, low: Option<int>)
    requires IsShortest(rows, p, low)
    ensures IsShortest(rows + [last], p, Lower(low, Lasting(last, p)))
  {
    OneMoreAttained(rows, last, p, low);
    hide IsAttained();
    assert forall r :: r in rows + [last] <==> r in rows || r == last;
    assert low.None? ==> forall r :: r in rows ==> !Lasted(r, p) by { NoneLasted(rows, p, low); }
  }

  lemma OneMoreLongest(rows: seq<LogRow>, last: LogRow, p: LogRow -> bool, high: Option<int>)
    requires IsLongest(rows, p, high)
    ensures IsLongest(rows + [last], p, Higher(high, Lasting(last, p)))
  {
    OneMoreAttained(rows, last, p, high);
    hide IsAttained();
    assert forall r :: r in rows + [last] <==> r in rows || r == last;
    assert high.None? ==> forall r :: r in rows ==> !Lasted(r, p) by { NoneLasted(rows, p, high); }
  }

  lemma NoneLasted(rows: seq<LogRow>, p: LogRow -> bool, bound: Option<int>)
    requires IsAttained(rows, p, bound)
    ensures bound.None? ==> forall r :: r in rows ==> !Lasted(r, p)
  {
  }

  /** The bounds are the shortest and the longest duration, and there are none without a duration. */
  lemma {:induction false} BoundsAreExtremes(rows: seq<LogRow>, p: LogRow -> bool)
    ensures IsShortest(rows, p, Fold(rows, p).durationMin) && IsLongest(rows, p, Fold(rows, p).durationMax)
  {
    hide Contribution, IsShortest(), IsLongest(), IsAttained(), Lower, Higher, Lasting;
    NoBounds(p);
    if rows != [] {
      var front, last := rows[..|rows| - 1], rows[|rows| - 1];
      BoundsAreExtremes(front, p);
      assert rows == front + [last];
      BoundOf(last, p);
      OneMoreShortest(front, last, p, Fold(front, p).durationMin);
      OneMoreLongest(front, last, p, Fold(front, p).durationMax);
    }
  }

  lemma NoBounds(p: LogRow -> bool)
    ensures IsShortest([], p, None) && IsLongest([], p, None)
  {
  }

  lemma BoundOf(row: LogRow, p: LogRow -> bool)
    ensures var added := if p(row) then Contribution(row) else NO_FACTS;
            added.durationMin == added.durationMax == Lasting(row, p)
  {
  }
}
