/** The hourly statistics table: filling it as rows are logged, and reading a span from it and from
    the rows at the span's edges. */
module StatsStore {
  import opened Words
  import opened Stats

  // What the table holds of a history of rows

  ghost function Filed(rows: seq<LogRow>, k: Key): Facts {
    Fold(rows, (r: LogRow) => KeyOf(r) == k)
  }

  /** The table is that of the rows: a line for each key a row has, with the key's counters. */
  ghost predicate IsRollup(hourly: map<Key, Facts>, rows: seq<LogRow>) {
    && (forall k :: k in hourly <==> exists r :: r in rows && KeyOf(r) == k)
    && (forall k :: k in hourly ==> hourly[k] == Filed(rows, k))
  }

  /** So the same rows, however they were batched, make the same table. */
  lemma OneRollup(a: map<Key, Facts>, b: map<Key, Facts>, rows: seq<LogRow>)
    requires IsRollup(a, rows) && IsRollup(b, rows)
    ensures a == b
  {
  }

  lemma NothingFiled(rows: seq<LogRow>, k: Key)
    requires forall r :: r in rows ==> KeyOf(r) != k
    ensures Filed(rows, k) == NO_FACTS
  {
    FoldNone(rows, (r: LogRow) => KeyOf(r) == k);
  }

  lemma FiledMore(rows: seq<LogRow>, more: seq<LogRow>, k: Key)
    ensures Filed(rows + more, k) == Plus(Filed(rows, k), Filed(more, k))
  {
    FoldConcat(rows, more, (r: LogRow) => KeyOf(r) == k);
  }

  /** Merging the table of some rows into that of earlier ones gives that of all of them. */
  lemma MergedIsRollup(hourly: map<Key, Facts>, rows: seq<LogRow>, groups: map<Key, Facts>, more: seq<LogRow>,
                       merged: map<Key, Facts>)
    requires IsRollup(hourly, rows) && IsRollup(groups, more)
    requires merged.Keys == hourly.Keys + groups.Keys
    requires forall k :: k in merged ==> merged[k] ==
                                         (if k !in groups then hourly[k] else if k !in hourly then groups[k]
                                           else Plus(hourly[k], groups[k]))
    ensures IsRollup(merged, rows + more)
  {
    hide Plus;
    forall k
      ensures k in merged <==> exists r :: r in rows + more && KeyOf(r) == k
    {
      if k in hourly {
        var r :| r in rows && KeyOf(r) == k;
        assert r in rows + more;
      } else if k in groups {
        var r :| r in more && KeyOf(r) == k;
        assert r in rows + more;
      }
    }
    forall k | k in merged
      ensures merged[k] == Filed(rows + more, k)
    {
      FiledMore(rows, more, k);
      PlusLaws(Filed(rows, k), Filed(more, k), NO_FACTS);
      if k !in groups {
        NothingFiled(more, k);
        PlusLaws(Filed(rows, k), NO_FACTS, NO_FACTS);
      } else if k !in hourly {
        NothingFiled(rows, k);
        PlusLaws(Filed(more, k), NO_FACTS, NO_FACTS);
      }
    }
  }

  // Batches

  /** The table with a batch's groups upserted. */
  function UpsertedAll(hourly: map<Key, Facts>, groups: map<Key, Facts>): map<Key, Facts> {
    map k | k in hourly.Keys + groups.Keys ::
      if k !in groups then hourly[k] else if k !in hourly then groups[k] else Upserted(hourly[k], groups[k])
  }

  function UpsertedBatches(tables: seq<map<Key, Facts>>): map<Key, Facts> {
    if tables == [] then map[] else UpsertedAll(UpsertedBatches(tables[..|tables| - 1]), tables[|tables| - 1])
  }

  function AllRows(batches: seq<seq<LogRow>>): seq<LogRow> {
    if batches == [] then [] else AllRows(batches[..|batches| - 1]) + batches[|batches| - 1]
  }

  /** However the rows are split into batches, upserting each batch's rollup gives the table one
      rollup of all of them gives: every sum and every bound, absent bounds included. */
  lemma {:induction false} IncrementalIsBatch(batches: seq<seq<LogRow>>, tables: seq<map<Key, Facts>>, whole: map<Key,
                                              Facts>)
    requires |tables| == |batches| && forall i :: 0 <= i < |batches| ==> IsRollup(tables[i], batches[i])
    requires IsRollup(whole, AllRows(batches))
    ensures UpsertedBatches(tables) == whole
  {
    BatchesRollUp(batches, tables);
    OneRollup(UpsertedBatches(tables), whole, AllRows(batches));
  }

  lemma {:induction false} BatchesRollUp(batches: seq<seq<LogRow>>, tables: seq<map<Key, Facts>>)
    requires |tables| == |batches| && forall i :: 0 <= i < |batches| ==> IsRollup(tables[i], batches[i])
    ensures IsRollup(UpsertedBatches(tables), AllRows(batches))
  {
    hide Upserted, Plus;
    if batches != [] {
      var front, last := UpsertedBatches(tables[..|tables| - 1]), tables[|tables| - 1];
      BatchesRollUp(batches[..|batches| - 1], tables[..|tables| - 1]);
      forall a, b
        ensures Upserted(a, b) == Plus(a, b)
      {
        UpsertAdds(a, b);
      }
      MergedIsRollup(front, AllRows(batches[..|batches| - 1]), last, batches[|batches| - 1], UpsertedAll(front, last));
    }
  }

  function Between(rows: seq<LogRow>, firstID: int, lastID: int): seq<LogRow> {
    if rows == [] then []
    else
      var last := rows[|rows| - 1];
      Between(rows[..|rows| - 1], firstID, lastID) + if firstID <= last.id <= lastID then [last] else []
  }

  lemma {:induction false} BetweenConcat(a: seq<LogRow>, b: seq<LogRow>, firstID: int, lastID: int)
    requires forall r :: r in a ==> r.id < firstID
    requires forall r :: r in b ==> firstID <= r.id <= lastID
    ensures Between(a + b, firstID, lastID) == b
  {
    if b != [] {
      assert (a + b)[..|a + b| - 1] == a + b[..|b| - 1];
      assert b == b[..|b| - 1] + [b[|b| - 1]];
      BetweenConcat(a, b[..|b| - 1], firstID, lastID);
    } else if a != [] {
      assert a + b == a;
      assert a[..|a| - 1] + b == a[..|a| - 1];
      BetweenConcat(a[..|a| - 1], b, firstID, lastID);
    }
  }

  // Which rows a span's counters are read from

  /** Seconds [start, end). Start 0 leaves it unbounded below, end 0 above. */
  datatype Span = Span(start: int, end: int)

  predicate InSpan(s: Span, at: int) {
    (s.start == 0 || s.start <= at) && (s.end == 0 || at < s.end)
  }

  /** Division as Go and SQLite do it: toward zero. */
  function Truncated(a: int, b: int): int
    requires b > 0
  {
    if a >= 0 then a / b else -(-a / b)
  }

  datatype Interval = Interval(from: int, to: int)

  predicate InInterval(i: Interval, at: int) {
    i.from <= at < i.to
  }

  /** The whole hours read from the table, with no end when None, and the edges read from the rows. */
  datatype Source = Source(hours: Option<Hours>, edges: seq<Interval>)
  datatype Hours = Hours(from: int, to: Option<int>)

  function FirstWholeHour(start: int): int {
    if start - Truncated(start, HOUR) * HOUR != 0 then (Truncated(start, HOUR) + 1) * HOUR else start
  }

  function LastWholeHour(end: int): int {
    if end != 0 then Truncated(end, HOUR) * HOUR else 0
  }

  function SourceOf(s: Span): Source {
    var from, to := FirstWholeHour(s.start), LastWholeHour(s.end);
    if to != 0 && from >= to then Source(None, [Interval(s.start, s.end)])
    else
      Source(Some(Hours(from, if to != 0 then Some(to) else None)),
             (if s.start != 0 && s.start < from then [Interval(s.start, from)] else []) +
             (if to != 0 && to < s.end then [Interval(to, s.end)] else []))
  }

  predicate InHours(hours: Option<Hours>, hour: int) {
    hours.Some? && hours.value.from <= hour && (hours.value.to.Some? ==> hour < hours.value.to.value)
  }

  /** What is asked for: rows of some channels, models or buckets of time. */
  type Wanted = (int, int, string) -> bool

  ghost function InEdge(i: Interval, wanted: Wanted): LogRow -> bool {
    (r: LogRow) => InInterval(i, r.at) && wanted(r.at, r.channel, r.model)
  }

  predicate IsTabled(hours: Option<Hours>, wanted: Wanted, k: Key) {
    InHours(hours, k.hour) && wanted(k.hour, k.channel, k.model)
  }

  ghost function InTable(hours: Option<Hours>, wanted: Wanted): LogRow -> bool {
    (r: LogRow) => IsTabled(hours, wanted, KeyOf(r))
  }

  ghost function Asked(s: Span, wanted: Wanted): LogRow -> bool {
    (r: LogRow) => InSpan(s, r.at) && wanted(r.at, r.channel, r.model)
  }

  ghost function EdgeFacts(rows: seq<LogRow>, edges: seq<Interval>, wanted: Wanted): Facts {
    if edges == [] then NO_FACTS
    else Plus(EdgeFacts(rows, edges[..|edges| - 1], wanted), Fold(rows, InEdge(edges[|edges| - 1], wanted)))
  }

  /** What reading a span comes to: the filed rows of its whole hours, and the kept rows of its edges. */
  ghost function Answer(filed: seq<LogRow>, kept: seq<LogRow>, s: Span, wanted: Wanted): Facts {
    Plus(Fold(filed, InTable(SourceOf(s).hours, wanted)), EdgeFacts(kept, SourceOf(s).edges, wanted))
  }

  /** The logs as kept and the table of all rows ever logged. */
  class StatsStore {
    var logs: seq<LogRow>
    var hourly: map<Key, Facts>
    ghost var filed: seq<LogRow>

    ghost predicate Valid()
      reads this
    {
      IsRollup(hourly, filed)
    }

    constructor ()
      ensures Valid() && logs == [] && filed == []
    {
      logs, hourly, filed := [], map[], [];
    }

    /** Groups rows by key. */
    method Rollup(rows: seq<LogRow>) returns (groups: map<Key, Facts>)
      ensures IsRollup(groups, rows)
    {
      hide WithRow;
      groups := map[];
      for i := 0 to |rows|
        invariant IsRollup(groups, rows[..i])
      {
        OneMoreFiled(groups, rows[..i], rows[i]);
        groups := WithRow(groups, rows[i]);
        assert rows[..i + 1] == rows[..i] + [rows[i]];
      }
      assert rows[..|rows|] == rows;
    }

    /** Folds the rows with ids in [firstID, lastID] into the table. */
    method AddStats(firstID: int, lastID: int)
      requires Valid()
      modifies this`hourly, this`filed
      ensures Valid() && filed == old(filed) + Between(logs, firstID, lastID)
    {
      hide Plus, Upserted, IsRollup();
      var batch := Select(firstID, lastID);
      var groups := Rollup(batch);
      var left := groups.Keys;
      ghost var before := hourly;
      while left != {}
        invariant left <= groups.Keys && filed == old(filed)
        invariant hourly.Keys == before.Keys + (groups.Keys - left)
        invariant forall k :: k in hourly ==> hourly[k] ==
                                              (if k !in groups || k in left then before[k]
                                               else if k !in before then groups[k] else Plus(before[k], groups[k]))
        decreases left
      {
        var k :| k in left;
        if k in hourly {
          UpsertAdds(hourly[k], groups[k]);
          hourly := hourly[k := Upserted(hourly[k], groups[k])];
        } else {
          hourly := hourly[k := groups[k]];
        }
        left := left - {k};
      }
      MergedIsRollup(before, filed, groups, batch, hourly);
      filed := filed + batch;
    }

    method Select(firstID: int, lastID: int) returns (batch: seq<LogRow>)
      ensures batch == Between(logs, firstID, lastID)
    {
      batch := [];
      for i := 0 to |logs|
        invariant batch == Between(logs[..i], firstID, lastID)
      {
        assert logs[..i + 1][..i] == logs[..i];
        if firstID <= logs[i].id <= lastID {
          batch := batch + [logs[i]];
        }
      }
      assert logs[..|logs|] == logs;
    }

    /** Inserts a batch of rows under consecutive ids and files them, in one transaction. */
    method InsertBatch(batch: seq<LogRow>, firstID: int)
      requires Valid()
      requires forall r :: r in logs ==> r.id < firstID
      requires forall i :: 0 <= i < |batch| ==> batch[i].id == firstID + i
      modifies this
      ensures Valid() && logs == old(logs) + batch && filed == old(filed) + batch
    {
      logs := logs + batch;
      BetweenConcat(old(logs), batch, firstID, firstID + |batch| - 1);
      if |batch| > 0 {
        AddStats(firstID, firstID + |batch| - 1);
      }
    }

    /** Sums the counters of the table's whole hours and of the rows at the edges. */
    method SumFacts(s: Span, wanted: Wanted) returns (total: Facts)
      requires Valid()
      ensures total == Answer(filed, logs, s, wanted)
    {
      hide Plus, Fold;
      var source := SourceOf(s);
      total := SumHours(source.hours, wanted);
      ghost var fromHours := total;
      ghost var edged := NO_FACTS;
      PlusLaws(total, NO_FACTS, NO_FACTS);
      for i := 0 to |source.edges|
        invariant edged == EdgeFacts(logs, source.edges[..i], wanted)
        invariant total == Plus(fromHours, edged)
      {
        var part := SumEdge(source.edges[i], wanted);
        assert source.edges[..i + 1][..i] == source.edges[..i];
        PlusLaws(fromHours, edged, part);
        edged := Plus(edged, part);
        total := Plus(total, part);
      }
      assert source.edges[..|source.edges|] == source.edges;
    }

    method SumEdge(i: Interval, wanted: Wanted) returns (total: Facts)
      ensures total == Fold(logs, InEdge(i, wanted))
    {
      hide Plus, Contribution;
      total := NO_FACTS;
      for n := 0 to |logs|
        invariant total == Fold(logs[..n], InEdge(i, wanted))
      {
        assert logs[..n + 1][..n] == logs[..n];
        if InInterval(i, logs[n].at) && wanted(logs[n].at, logs[n].channel, logs[n].model) {
          total := Plus(total, Contribution(logs[n]));
        } else {
          PlusLaws(total, NO_FACTS, NO_FACTS);
        }
      }
      assert logs[..|logs|] == logs;
    }

    /** The table's lines, in any order. */
    method SumHours(hours: Option<Hours>, wanted: Wanted) returns (total: Facts)
      requires Valid()
      ensures total == Fold(filed, InTable(hours, wanted))
    {
      hide Plus, Contribution, Fold;
      total := NO_FACTS;
      var left := hourly.Keys;
      ghost var done: set<Key> := {};
      FoldNone(filed, OfKeys({}, hours, wanted));
      while left != {}
        invariant left <= hourly.Keys && done == hourly.Keys - left
        invariant total == Fold(filed, OfKeys(done, hours, wanted))
        decreases left
      {
        var k :| k in left;
        OneMoreKey(filed, done, k, hours, wanted);
        if IsTabled(hours, wanted, k) {
          total := Plus(total, hourly[k]);
        } else {
          PlusLaws(total, NO_FACTS, NO_FACTS);
        }
        left, done := left - {k}, done + {k};
      }
      FoldSame(filed, OfKeys(done, hours, wanted), InTable(hours, wanted));
    }
  }

  ghost function OfKeys(keys: set<Key>, hours: Option<Hours>, wanted: Wanted): LogRow -> bool {
    (r: LogRow) => KeyOf(r) in keys && IsTabled(hours, wanted, KeyOf(r))
  }

  lemma OneMoreKey(rows: seq<LogRow>, keys: set<Key>, k: Key, hours: Option<Hours>, wanted: Wanted)
    requires k !in keys
    ensures Fold(rows, OfKeys(keys + {k}, hours, wanted)) ==
            Plus(Fold(rows, OfKeys(keys, hours, wanted)),
                 if IsTabled(hours, wanted, k) then Filed(rows, k) else NO_FACTS)
  {
    hide Plus, Fold, Contribution;
    var ofK := (r: LogRow) => KeyOf(r) == k;
    if IsTabled(hours, wanted, k) {
      FoldSplit(rows, OfKeys(keys, hours, wanted), ofK, OfKeys(keys + {k}, hours, wanted));
    } else {
      FoldSame(rows, OfKeys(keys + {k}, hours, wanted), OfKeys(keys, hours, wanted));
      PlusLaws(Fold(rows, OfKeys(keys, hours, wanted)), NO_FACTS, NO_FACTS);
    }
  }

  function WithRow(groups: map<Key, Facts>, row: LogRow): map<Key, Facts> {
    var k := KeyOf(row);
    groups[k := if k in groups then Plus(groups[k], Contribution(row)) else Contribution(row)]
  }

  lemma OneMoreFiled(groups: map<Key, Facts>, rows: seq<LogRow>, row: LogRow)
    requires IsRollup(groups, rows)
    ensures IsRollup(WithRow(groups, row), rows + [row])
  {
    hide Plus, Contribution, IsRollup();
    SingleRollup(row);
    MergedIsRollup(groups, rows, map[KeyOf(row) := Contribution(row)], [row], WithRow(groups, row));
  }

  lemma SingleRollup(row: LogRow)
    ensures IsRollup(map[KeyOf(row) := Contribution(row)], [row])
  {
    hide Plus, Contribution;
    assert Filed([row], KeyOf(row)) == Plus(Filed([], KeyOf(row)), Contribution(row)) by {
      assert [row][..0] == [];
    }
    PlusLaws(Contribution(row), NO_FACTS, NO_FACTS);
    assert row in [row];
  }
}
