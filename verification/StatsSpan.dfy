/** Reading a span from the table and the rows at its edges is the same as counting all its rows. */
module StatsSpan {
  import opened Words
  import opened Division
  import opened Stats
  import opened StatsStore

  function HourOf(at: nat): nat {
    at / HOUR * HOUR
  }

  predicate InSome(edges: seq<Interval>, at: int) {
    exists k :: 0 <= k < |edges| && InInterval(edges[k], at)
  }

  /** The rows of an interval, in order. */
  function Timed(rows: seq<LogRow>, i: Interval): seq<LogRow> {
    if rows == [] then []
    else
      var last := rows[|rows| - 1];
      Timed(rows[..|rows| - 1], i) + if InInterval(i, last.at) then [last] else []
  }

  /** Retention has not reached the edges of the span. */
  ghost predicate EdgesKept(filed: seq<LogRow>, kept: seq<LogRow>, s: Span) {
    forall k :: 0 <= k < |SourceOf(s).edges| ==> Timed(filed, SourceOf(s).edges[k]) == Timed(kept, SourceOf(s).edges[k])
  }

  /** What is asked for does not tell the seconds of an hour apart. */
  ghost predicate ByTheHour(rows: seq<LogRow>, wanted: Wanted) {
    forall r :: r in rows ==> wanted(r.at, r.channel, r.model) == wanted(HourOf(r.at), r.channel, r.model)
  }

  ghost predicate Agrees(filed: seq<LogRow>, kept: seq<LogRow>, s: Span, wanted: Wanted) {
    Answer(filed, kept, s, wanted) == Fold(filed, Asked(s, wanted))
  }

  // The parts cover the span, without overlap

  predicate SpanSound(s: Span) {
    s.end == 0 || s.end >= HOUR || s.end <= -HOUR
  }

  lemma WholeHours(s: Span)
    ensures FirstWholeHour(s.start) % HOUR == 0 && FirstWholeHour(s.start) >= s.start
    ensures LastWholeHour(s.end) % HOUR == 0
    ensures LastWholeHour(s.end) == 0 <==> -HOUR < s.end < HOUR
    ensures s.end >= 0 ==> 0 <= LastWholeHour(s.end) <= s.end
    ensures s.end < 0 ==> LastWholeHour(s.end) <= 0
    ensures s.start == 0 ==> FirstWholeHour(s.start) == 0
  {
  }

  lemma HourBounds(at: nat, bound: int)
    requires bound % HOUR == 0
    ensures HourOf(at) >= bound <==> at >= bound
  {
  }

  lemma EdgeSides(s: Span, at: nat)
    ensures var src := SourceOf(s);
            InSome(src.edges, at) <==>
              (|src.edges| > 0 && InInterval(src.edges[0], at)) || (|src.edges| > 1 && InInterval(src.edges[1], at))
    ensures |SourceOf(s).edges| <= 2
  {
  }

  /** Every second of the span is in one part, and no other second is in any. */
  lemma PartsCover(s: Span, at: nat)
    requires SpanSound(s)
    ensures InSpan(s, at) <==> InHours(SourceOf(s).hours, HourOf(at)) || InSome(SourceOf(s).edges, at)
    ensures !(InHours(SourceOf(s).hours, HourOf(at)) && InSome(SourceOf(s).edges, at))
    ensures forall j, k :: 0 <= j < k < |SourceOf(s).edges| ==>
                             !(InInterval(SourceOf(s).edges[j], at) && InInterval(SourceOf(s).edges[k], at))
  {
    hide InSome, FirstWholeHour, LastWholeHour;
    WholeHours(s);
    HourBounds(at, FirstWholeHour(s.start));
    HourBounds(at, LastWholeHour(s.end));
    EdgeSides(s, at);
  }

  // Folding the parts

  ghost function InParts(hours: Option<Hours>, edges: seq<Interval>, wanted: Wanted): LogRow -> bool {
    (r: LogRow) => (InHours(hours, HourOf(r.at)) || InSome(edges, r.at)) && wanted(r.at, r.channel, r.model)
  }

  lemma {:induction false} PartsFold(rows: seq<LogRow>, hours: Option<Hours>, edges: seq<Interval>, wanted: Wanted)
    requires ByTheHour(rows, wanted)
    requires forall r :: r in rows ==> !(InHours(hours, HourOf(r.at)) && InSome(edges, r.at))
    requires forall r, j, k :: r in rows && 0 <= j < k < |edges| ==>
               !(InInterval(edges[j], r.at) && InInterval(edges[k], r.at))
    ensures Plus(Fold(rows, InTable(hours, wanted)), EdgeFacts(rows, edges, wanted)) ==
              Fold(rows, InParts(hours, edges, wanted))
  {
    hide Plus, Fold, InHours, InInterval;
    if edges == [] {
      PlusLaws(Fold(rows, InTable(hours, wanted)), NO_FACTS, NO_FACTS);
      FoldSame(rows, InTable(hours, wanted), InParts(hours, edges, wanted));
    } else {
      var front, last := edges[..|edges| - 1], edges[|edges| - 1];
      forall r | r in rows
        ensures InSome(edges, r.at) <==> InSome(front, r.at) || InInterval(last, r.at)
        ensures !(InSome(front, r.at) && InInterval(last, r.at))
      {
        OneMoreEdge(edges, r.at);
      }
      PartsFold(rows, hours, front, wanted);
      FoldSplit(rows, InParts(hours, front, wanted), InEdge(last, wanted), InParts(hours, edges, wanted));
      PlusLaws(Fold(rows, InTable(hours, wanted)), EdgeFacts(rows, front, wanted), Fold(rows, InEdge(last, wanted)));
    }
  }

  lemma OneMoreEdge(edges: seq<Interval>, at: int)
    requires edges != []
    ensures InSome(edges, at) <==> InSome(edges[..|edges| - 1], at) || InInterval(edges[|edges| - 1], at)
  {
  }

  lemma {:induction false} EdgeFoldsTimed(rows: seq<LogRow>, i: Interval, wanted: Wanted)
    ensures Fold(rows, InEdge(i, wanted)) == Fold(Timed(rows, i), InEdge(i, wanted))
  {
    hide Plus, Contribution;
    if rows != [] {
      var front, last := rows[..|rows| - 1], rows[|rows| - 1];
      EdgeFoldsTimed(front, i, wanted);
      if InInterval(i, last.at) {
        assert (Timed(front, i) + [last])[..|Timed(front, i)|] == Timed(front, i);
      } else {
        PlusLaws(Fold(front, InEdge(i, wanted)), NO_FACTS, NO_FACTS);
        assert Timed(rows, i) == Timed(front, i);
      }
    }
  }

  lemma {:induction false} KeptEdges(filed: seq<LogRow>, kept: seq<LogRow>, edges: seq<Interval>, wanted: Wanted)
    requires forall k :: 0 <= k < |edges| ==> Timed(filed, edges[k]) == Timed(kept, edges[k])
    ensures EdgeFacts(filed, edges, wanted) == EdgeFacts(kept, edges, wanted)
  {
    hide Plus, Fold;
    if edges != [] {
      var last := edges[|edges| - 1];
      KeptEdges(filed, kept, edges[..|edges| - 1], wanted);
      EdgeFoldsTimed(filed, last, wanted);
      EdgeFoldsTimed(kept, last, wanted);
    }
  }

  lemma SoundAgrees(filed: seq<LogRow>, kept: seq<LogRow>, s: Span, wanted: Wanted)
    requires SpanSound(s) && EdgesKept(filed, kept, s) && ByTheHour(filed, wanted)
    ensures Agrees(filed, kept, s, wanted)
  {
    hide Plus, Fold, InSpan, SpanSound, SourceOf, InSome, InHours;
    var src := SourceOf(s);
    forall at: nat
      ensures InSpan(s, at) <==> InHours(src.hours, HourOf(at)) || InSome(src.edges, at)
      ensures !(InHours(src.hours, HourOf(at)) && InSome(src.edges, at))
      ensures forall j, k :: 0 <= j < k < |src.edges| ==>
                !(InInterval(src.edges[j], at) && InInterval(src.edges[k], at))
    {
      PartsCover(s, at);
    }
    KeptEdges(filed, kept, src.edges, wanted);
    PartsFold(filed, src.hours, src.edges, wanted);
    FoldSame(filed, InParts(src.hours, src.edges, wanted), Asked(s, wanted));
  }

  /** An end within the first hour is read as no end at all: a row it should leave out is counted. */
  lemma UnsoundMiscounts(s: Span) returns (rows: seq<LogRow>)
    requires !SpanSound(s)
    ensures !Agrees(rows, rows, s, (at, channel, model) => true)
  {
    WholeHours(s);
    var at := Max(FirstWholeHour(s.start), HOUR);
    rows := [LogRow(1, at, 0, "", false, None, None, None, None, None)];
    HourBounds(at, at);
    MiscountedRow(s, rows[0]);
  }

  /** The row is past the end, yet the table's part takes it in. */
  lemma MiscountedRow(s: Span, row: LogRow)
    requires !InSpan(s, row.at) && InHours(SourceOf(s).hours, KeyOf(row).hour)
    requires forall k :: 0 <= k < |SourceOf(s).edges| ==> !InInterval(SourceOf(s).edges[k], row.at)
    ensures !Agrees([row], [row], s, (at, channel, model) => true)
  {
    hide Plus, Contribution, InSpan, SourceOf, InHours, InInterval;
    var wanted: Wanted := (at, channel, model) => true;
    var rows, src := [row], SourceOf(s);
    assert rows[..0] == [];
    NoEdge(rows, src.edges, wanted);
    assert Fold(rows, InTable(src.hours, wanted)) == Plus(NO_FACTS, Contribution(row));
    FoldNone(rows, Asked(s, wanted));
    PlusLaws(Contribution(row), NO_FACTS, NO_FACTS);
    RowCounts(row);
  }

  lemma RowCounts(row: LogRow)
    ensures Contribution(row) != NO_FACTS
  {
  }

  lemma {:induction false} NoEdge(rows: seq<LogRow>, edges: seq<Interval>, wanted: Wanted)
    requires forall r, k :: r in rows && 0 <= k < |edges| ==> !InInterval(edges[k], r.at)
    ensures EdgeFacts(rows, edges, wanted) == NO_FACTS
  {
    hide Plus, Fold;
    PlusLaws(NO_FACTS, NO_FACTS, NO_FACTS);
    if edges != [] {
      NoEdge(rows, edges[..|edges| - 1], wanted);
      FoldNone(rows, InEdge(edges[|edges| - 1], wanted));
    }
  }

  /** For every history, reading the span counts exactly its rows, none lost and none twice, if and
      only if the span does not end within an hour of the epoch. */
  lemma AgreementIff(s: Span)
    ensures (forall filed, kept, wanted ::
               EdgesKept(filed, kept, s) && ByTheHour(filed, wanted) ==> Agrees(filed, kept, s, wanted)) <==>
                 SpanSound(s)
  {
    if SpanSound(s) {
      forall filed, kept, wanted | EdgesKept(filed, kept, s) && ByTheHour(filed, wanted)
        ensures Agrees(filed, kept, s, wanted)
      {
        SoundAgrees(filed, kept, s, wanted);
      }
    } else {
      var rows := UnsoundMiscounts(s);
      var wanted: Wanted := (at, channel, model) => true;
      assert EdgesKept(rows, rows, s) && ByTheHour(rows, wanted);
    }
  }

  // When channels were deleted since

  /** The row as logged, or without its channel, which deleting the channel takes from it. */
  predicate MayBe(logged: LogRow, kept: LogRow) {
    kept == logged || kept == logged.(channel := 0)
  }

  predicate Detached(logged: seq<LogRow>, kept: seq<LogRow>) {
    |logged| == |kept| && forall i :: 0 <= i < |logged| ==> MayBe(logged[i], kept[i])
  }

  /** The edges' rows are all there, some perhaps without their channel. */
  ghost predicate EdgesDetached(filed: seq<LogRow>, kept: seq<LogRow>, s: Span) {
    forall k :: 0 <= k < |SourceOf(s).edges| ==>
      Detached(Timed(filed, SourceOf(s).edges[k]), Timed(kept, SourceOf(s).edges[k]))
  }

  /** What is asked for takes a row of the edges or leaves it, with its channel or without. */
  ghost predicate IgnoresChannels(filed: seq<LogRow>, s: Span, wanted: Wanted) {
    forall r :: r in filed && InSome(SourceOf(s).edges, r.at) ==>
      wanted(r.at, r.channel, r.model) == wanted(r.at, 0, r.model)
  }

  lemma DetachedCounts(logged: LogRow, kept: LogRow)
    requires MayBe(logged, kept)
    ensures Contribution(kept) == Contribution(logged)
  {
  }

  lemma {:induction false} DetachedFold(logged: seq<LogRow>, kept: seq<LogRow>, i: Interval, wanted: Wanted)
    requires Detached(logged, kept)
    requires forall r :: r in logged && InInterval(i, r.at) ==>
               wanted(r.at, r.channel, r.model) == wanted(r.at, 0, r.model)
    ensures Fold(logged, InEdge(i, wanted)) == Fold(kept, InEdge(i, wanted))
  {
    hide Plus, Contribution;
    if logged != [] {
      var n := |logged| - 1;
      DetachedFold(logged[..n], kept[..n], i, wanted);
      DetachedCounts(logged[n], kept[n]);
      assert logged[n] in logged && kept[n].at == logged[n].at;
    }
  }

  lemma {:induction false} TimedIn(rows: seq<LogRow>, i: Interval)
    ensures forall r :: r in Timed(rows, i) <==> r in rows && InInterval(i, r.at)
  {
    if rows != [] {
      TimedIn(rows[..|rows| - 1], i);
      assert rows == rows[..|rows| - 1] + [rows[|rows| - 1]];
    }
  }

  lemma {:induction false} DetachedEdges(filed: seq<LogRow>, kept: seq<LogRow>, edges: seq<Interval>, wanted: Wanted)
    requires forall k :: 0 <= k < |edges| ==> Detached(Timed(filed, edges[k]), Timed(kept, edges[k]))
    requires forall r :: r in filed && InSome(edges, r.at) ==>
               wanted(r.at, r.channel, r.model) == wanted(r.at, 0, r.model)
    ensures EdgeFacts(filed, edges, wanted) == EdgeFacts(kept, edges, wanted)
  {
    hide Plus, Fold, Detached;
    if edges != [] {
      var front, last := edges[..|edges| - 1], edges[|edges| - 1];
      forall r | r in filed
        ensures InSome(edges, r.at) <==> InSome(front, r.at) || InInterval(last, r.at)
      {
        OneMoreEdge(edges, r.at);
      }
      DetachedEdges(filed, kept, front, wanted);
      TimedIn(filed, last);
      EdgeFoldsTimed(filed, last, wanted);
      EdgeFoldsTimed(kept, last, wanted);
      DetachedFold(Timed(filed, last), Timed(kept, last), last, wanted);
    }
  }

  lemma DetachedAgrees(filed: seq<LogRow>, kept: seq<LogRow>, s: Span, wanted: Wanted)
    requires SpanSound(s) && ByTheHour(filed, wanted)
    requires EdgesDetached(filed, kept, s) && IgnoresChannels(filed, s, wanted)
    ensures Agrees(filed, kept, s, wanted)
  {
    hide Plus, Fold, SourceOf, InSome, Timed, SpanSound;
    SoundAgrees(filed, filed, s, wanted);
    DetachedEdges(filed, kept, SourceOf(s).edges, wanted);
  }

  /** A row that lost its channel. */
  function WithoutChannel(rows: seq<LogRow>, k: nat): seq<LogRow>
    requires k < |rows|
  {
    rows[k := rows[k].(channel := 0)]
  }

  lemma {:induction false} TimedDetached(rows: seq<LogRow>, k: nat, i: Interval)
    requires k < |rows|
    ensures Detached(Timed(rows, i), Timed(WithoutChannel(rows, k), i))
  {
    var front, changed := rows[..|rows| - 1], WithoutChannel(rows, k);
    if k < |front| {
      TimedDetached(front, k, i);
      assert changed[..|rows| - 1] == WithoutChannel(front, k);
    } else {
      assert changed[..|rows| - 1] == front;
    }
  }

  lemma {:induction false} LostFromFold(rows: seq<LogRow>, k: nat, p: LogRow -> bool)
    requires k < |rows|
    ensures Fold(WithoutChannel(rows, k), p).attempts ==
            Fold(rows, p).attempts - CountIf(p(rows[k])) + CountIf(p(WithoutChannel(rows, k)[k]))
  {
    var front, changed := rows[..|rows| - 1], WithoutChannel(rows, k);
    if k < |front| {
      LostFromFold(front, k, p);
      assert changed[..|rows| - 1] == WithoutChannel(front, k);
    } else {
      assert changed[..|rows| - 1] == front;
    }
  }

  /** How many of the edges a second lies in. */
  function Times(edges: seq<Interval>, at: int): nat {
    if edges == [] then 0 else Times(edges[..|edges| - 1], at) + CountIf(InInterval(edges[|edges| - 1], at))
  }

  lemma {:induction false} InSomeTimes(edges: seq<Interval>, at: int)
    ensures InSome(edges, at) <==> Times(edges, at) > 0
  {
    hide InInterval;
    if edges != [] {
      InSomeTimes(edges[..|edges| - 1], at);
      OneMoreEdge(edges, at);
    }
  }

  lemma {:induction false} LostFromEdges(rows: seq<LogRow>, k: nat, edges: seq<Interval>, wanted: Wanted)
    requires k < |rows|
    ensures var r, times := rows[k], Times(edges, rows[k].at);
            EdgeFacts(WithoutChannel(rows, k), edges, wanted).attempts == EdgeFacts(rows, edges, wanted).attempts
              + (if wanted(r.at, 0, r.model) then times else 0) - (if wanted(r.at, r.channel, r.model) then times
                else 0)
  {
    hide Fold;
    if edges != [] {
      LostFromEdges(rows, k, edges[..|edges| - 1], wanted);
      LostFromFold(rows, k, InEdge(edges[|edges| - 1], wanted));
    }
  }

  /** One row of the edges without its channel is counted where it should not be, or missed. */
  lemma DetachedMiscounts(filed: seq<LogRow>, k: nat, s: Span, wanted: Wanted)
    requires SpanSound(s) && ByTheHour(filed, wanted) && k < |filed| && InSome(SourceOf(s).edges, filed[k].at)
    requires wanted(filed[k].at, filed[k].channel, filed[k].model) != wanted(filed[k].at, 0, filed[k].model)
    ensures EdgesDetached(filed, WithoutChannel(filed, k), s) && !Agrees(filed, WithoutChannel(filed, k), s, wanted)
  {
    hide Fold, SourceOf, InSome, Timed, SpanSound, Detached, WithoutChannel;
    forall j | 0 <= j < |SourceOf(s).edges|
      ensures Detached(Timed(filed, SourceOf(s).edges[j]), Timed(WithoutChannel(filed, k), SourceOf(s).edges[j]))
    {
      TimedDetached(filed, k, SourceOf(s).edges[j]);
    }
    SoundAgrees(filed, filed, s, wanted);
    InSomeTimes(SourceOf(s).edges, filed[k].at);
    LostFromEdges(filed, k, SourceOf(s).edges, wanted);
  }

  /** Whichever channels are deleted after a history was filed, reading a sound span counts its rows if
      and only if what is asked for does not tell the edges' rows from rows without a channel. */
  lemma DetachedAgreesIff(filed: seq<LogRow>, s: Span, wanted: Wanted)
    requires SpanSound(s) && ByTheHour(filed, wanted)
    ensures (forall kept :: EdgesDetached(filed, kept, s) ==> Agrees(filed, kept, s, wanted)) <==>
              IgnoresChannels(filed, s, wanted)
  {
    hide Agrees(), EdgesDetached(), SourceOf, SpanSound, ByTheHour(), WithoutChannel, InSome;
    if IgnoresChannels(filed, s, wanted) {
      forall kept | EdgesDetached(filed, kept, s)
        ensures Agrees(filed, kept, s, wanted)
      {
        DetachedAgrees(filed, kept, s, wanted);
      }
    } else {
      var r :| r in filed && InSome(SourceOf(s).edges, r.at) &&
        wanted(r.at, r.channel, r.model) != wanted(r.at, 0, r.model);
      var k :| 0 <= k < |filed| && filed[k] == r;
      DetachedMiscounts(filed, k, s, wanted);
    }
  }

  // The bucketed series

  const LATENCY_BUCKET_STEPS: seq<int> := [1800, 3600, 7200, 10800, 21600, 43200, 86400, 172800, 604800]
  const LATENCY_TARGET_BUCKETS := 40

  /** The narrowest bucket that needs about forty of them, or whole weeks. */
  method LatencyBucketSeconds(spanSeconds: nat) returns (width: int)
    ensures spanSeconds / LATENCY_TARGET_BUCKETS <= width
    ensures width % HOUR == 0 <==> spanSeconds / LATENCY_TARGET_BUCKETS > 1800
    ensures forall k :: 0 <= k < |LATENCY_BUCKET_STEPS| && LATENCY_BUCKET_STEPS[k] < width ==>
                          LATENCY_BUCKET_STEPS[k] < spanSeconds / LATENCY_TARGET_BUCKETS
    ensures width in LATENCY_BUCKET_STEPS ||
              (width % 604800 == 0 && width < spanSeconds / LATENCY_TARGET_BUCKETS + 604800)
  {
    var raw := spanSeconds / LATENCY_TARGET_BUCKETS;
    for k := 0 to |LATENCY_BUCKET_STEPS|
      invariant forall j :: 0 <= j < k ==> LATENCY_BUCKET_STEPS[j] < raw
    {
      if raw <= LATENCY_BUCKET_STEPS[k] {
        assert k > 0 ==> LATENCY_BUCKET_STEPS[0] < raw;
        return LATENCY_BUCKET_STEPS[k];
      }
    }
    assert LATENCY_BUCKET_STEPS[0] < raw;
    var week := LATENCY_BUCKET_STEPS[|LATENCY_BUCKET_STEPS| - 1];
    width := (raw + week - 1) / week * week;
  }

  /** The bucket a second falls in, aligned to a zone's offset. */
  function Bucket(at: int, offset: int, width: int): int
    requires width > 0
  {
    Truncated(at + offset, width) * width - offset
  }

  lemma HourInBucket(hours: nat, rest: nat, perBucket: int)
    requires rest < HOUR && perBucket > 0
    ensures (HOUR * hours + rest) / (HOUR * perBucket) == hours / perBucket == (HOUR * hours) / (HOUR * perBucket)
  {
    var q, r := hours / perBucket, hours % perBucket;
    assert hours == perBucket * q + r;
    assert HOUR * hours == HOUR * perBucket * q + HOUR * r;
    assert HOUR * r + rest < HOUR * perBucket;
    DivisionIs(HOUR * hours + rest, HOUR * perBucket, q, HOUR * r + rest);
    DivisionIs(HOUR * hours, HOUR * perBucket, q, HOUR * r);
  }

  /** An hour, in whole-hour zones and buckets, that no bucket's edge splits: dividing toward zero
      puts an edge before the epoch at the end of its first second. */
  predicate Unsplit(hour: int, offset: int, width: int)
    requires width > 0
  {
    hour + offset >= 0 || (0 - hour - offset) % width != 0
  }

  predicate InOneBucket(hour: int, offset: int, width: int)
    requires width > 0
  {
    forall at :: hour <= at < hour + HOUR ==> Bucket(at, offset, width) == Bucket(hour, offset, width)
  }

  lemma BucketAfterEpoch(hour: int, at: int, offset: int, width: int)
    requires hour % HOUR == 0 && offset % HOUR == 0 && width % HOUR == 0 && width > 0
    requires hour <= at < hour + HOUR && hour + offset >= 0
    ensures Bucket(at, offset, width) == Bucket(hour, offset, width)
  {
    var hours, perBucket := (hour + offset) / HOUR, width / HOUR;
    assert hour + offset == HOUR * hours && width == HOUR * perBucket;
    HourInBucket(hours, at - hour, perBucket);
    assert (at + offset) / width == (hour + offset) / width;
  }

  lemma BucketBeforeEpoch(hour: int, at: int, offset: int, width: int)
    requires hour % HOUR == 0 && offset % HOUR == 0 && width % HOUR == 0 && width > 0
    requires hour <= at < hour + HOUR && hour + offset < 0 && Unsplit(hour, offset, width)
    ensures Bucket(at, offset, width) == Bucket(hour, offset, width)
  {
    hide Bucket, EdgeBefore;
    var n, m := 0 - hour - offset, 0 - at - offset;
    BeforeEpoch(n, offset, width);
    BeforeEpoch(m, offset, width);
    SameQuotient(n, at - hour, width);
  }

  lemma SameQuotient(n: int, less: nat, width: int)
    requires n % HOUR == 0 && width % HOUR == 0 && width > 0 && less < HOUR && n % width != 0
    ensures (n - less) / width == n / width
  {
    WholeRemainder(n, width);
    var q, r := n / width, n % width;
    assert r >= HOUR;
    assert n == width * q + r;
    DivisionIs(n - less, width, q, r - less);
  }

  lemma WholeRemainder(n: int, width: int)
    requires n % HOUR == 0 && width % HOUR == 0 && width > 0
    ensures n % width % HOUR == 0
  {
    var q := n / width;
    assert n == width * q + n % width;
    assert width * q == HOUR * (width / HOUR * q);
  }

  /** The bucket so many whole widths before the epoch. */
  function EdgeBefore(widths: int, offset: int, width: int): int {
    0 - widths * width - offset
  }

  lemma BeforeEpoch(before: int, offset: int, width: int)
    requires width > 0 && before > 0
    ensures Bucket(0 - before - offset, offset, width) == EdgeBefore(before / width, offset, width)
  {
    assert 0 - before - offset + offset == -before;
    var q := before / width;
    assert -q * width == 0 - q * width;
  }

  lemma EdgeSplits(hour: int, offset: int, width: int)
    requires width > HOUR - 1 && hour + offset < 0 && !Unsplit(hour, offset, width)
    ensures Bucket(hour + 1, offset, width) != Bucket(hour, offset, width)
  {
    hide Bucket;
    var before := 0 - hour - offset;
    var q := before / width;
    assert before == width * q;
    assert before - 1 == width * (q - 1) + (width - 1);
    DivisionIs(before - 1, width, q - 1, width - 1);
    Multiples(width, q - 1);
    BeforeEpoch(before, offset, width);
    BeforeEpoch(before - 1, offset, width);
    assert q * width == (q - 1) * width + width;
  }

  /** An hour lies in one bucket exactly when no edge splits it. */
  lemma BucketByTheHourIff(hour: int, offset: int, width: int)
    requires hour % HOUR == 0 && offset % HOUR == 0 && width % HOUR == 0 && width > 0
    ensures InOneBucket(hour, offset, width) <==> Unsplit(hour, offset, width)
  {
    hide Bucket, Unsplit;
    if Unsplit(hour, offset, width) {
      forall at | hour <= at < hour + HOUR
        ensures Bucket(at, offset, width) == Bucket(hour, offset, width)
      {
        if hour + offset >= 0 {
          BucketAfterEpoch(hour, at, offset, width);
        } else {
          BucketBeforeEpoch(hour, at, offset, width);
        }
      }
    } else {
      SplitIsBefore(hour, offset, width);
      EdgeSplits(hour, offset, width);
    }
  }

  lemma SplitIsBefore(hour: int, offset: int, width: int)
    requires width > 0 && !Unsplit(hour, offset, width)
    ensures hour + offset < 0
  {
  }

  /** The rows of one bucket of the series, read from the table, are those counted from the rows. */
  ghost predicate BucketAgrees(filed: seq<LogRow>, kept: seq<LogRow>, s: Span, offset: int, width: int, epoch: int)
    requires width > 0
  {
    Agrees(filed, kept, s, (at, channel, model) => Bucket(at, offset, width) == epoch)
  }

  lemma SeriesAgrees(filed: seq<LogRow>, kept: seq<LogRow>, s: Span, offset: int, width: int, epoch: int)
    requires offset % HOUR == 0 && width % HOUR == 0 && width > 0
    requires forall r :: r in filed ==> Unsplit(HourOf(r.at), offset, width)
    requires SpanSound(s) && EdgesKept(filed, kept, s)
    ensures BucketAgrees(filed, kept, s, offset, width, epoch)
  {
    hide Unsplit, Bucket, SpanSound, EdgesKept(), Agrees();
    var wanted: Wanted := (at, channel, model) => Bucket(at, offset, width) == epoch;
    forall r | r in filed
      ensures wanted(r.at, r.channel, r.model) == wanted(HourOf(r.at), r.channel, r.model)
    {
      BucketByTheHourIff(HourOf(r.at), offset, width);
    }
    SoundAgrees(filed, kept, s, wanted);
  }

  /** For every history and span the series agrees if and only if the zone is less than one bucket
      behind UTC. */
  lemma SeriesAgreesIff(offset: int, width: int)
    requires offset % HOUR == 0 && width % HOUR == 0 && width > 0
    ensures (forall filed: seq<LogRow>, kept: seq<LogRow>, s, epoch :: SpanSound(s) && EdgesKept(filed, kept, s) ==>
                                               BucketAgrees(filed, kept, s, offset, width, epoch)) <==> offset > -width
  {
    if offset > -width {
      forall filed: seq<LogRow>, kept: seq<LogRow>, s, epoch | SpanSound(s) && EdgesKept(filed, kept, s)
        ensures BucketAgrees(filed, kept, s, offset, width, epoch)
      {
        forall r | r in filed
          ensures Unsplit(HourOf(r.at), offset, width)
        {
          LessThanABucket(HourOf(r.at), offset, width);
        }
        SeriesAgrees(filed, kept, s, offset, width, epoch);
      }
    } else {
      var rows, epoch := SplitHourMiscounts(offset, width);
      assert SpanSound(Span(0, 0)) && EdgesKept(rows, rows, Span(0, 0));
      assert !BucketAgrees(rows, rows, Span(0, 0), offset, width, epoch);
    }
  }

  lemma LessThanABucket(hour: int, offset: int, width: int)
    requires hour >= 0 && offset > -width && width > 0
    ensures Unsplit(hour, offset, width)
  {
  }

  /** A row in the second after a bucket's edge before the epoch is missed. */
  lemma SplitHourMiscounts(offset: int, width: int) returns (rows: seq<LogRow>, epoch: int)
    requires offset % HOUR == 0 && width % HOUR == 0 && width > 0 && offset <= -width
    ensures !BucketAgrees(rows, rows, Span(0, 0), offset, width, epoch)
  {
    var hour := 0 - offset - width;
    epoch := Bucket(hour + 1, offset, width);
    var row := LogRow(1, hour + 1, 0, "", false, None, None, None, None, None);
    rows := [row];
    assert width == width * 1 + 0;
    DivisionIs(width, width, 1, 0);
    assert !Unsplit(hour, offset, width);
    EdgeSplits(hour, offset, width);
    assert HourOf(row.at) == hour;
    hide Bucket;
    MissedRow(row, (at, channel, model) => Bucket(at, offset, width) == epoch);
  }

  /** The table files the row under an hour not asked for, though its second is. */
  lemma MissedRow(row: LogRow, wanted: Wanted)
    requires wanted(row.at, row.channel, row.model) && !wanted(HourOf(row.at), row.channel, row.model)
    ensures !Agrees([row], [row], Span(0, 0), wanted)
  {
    hide Plus, Contribution;
    var rows, s := [row], Span(0, 0);
    assert rows[..0] == [];
    assert SourceOf(s) == Source(Some(Hours(0, None)), []);
    FoldNone(rows, InTable(SourceOf(s).hours, wanted));
    assert Fold(rows, Asked(s, wanted)) == Plus(NO_FACTS, Contribution(row));
    PlusLaws(NO_FACTS, NO_FACTS, NO_FACTS);
    PlusLaws(Contribution(row), NO_FACTS, NO_FACTS);
    RowCounts(row);
  }

  ghost function Counted(p: LogRow -> bool): LogRow -> bool {
    (r: LogRow) => p(r) && !r.retried
  }

  lemma RowShows(row: LogRow)
    ensures var c := Contribution(row);
            && c.requests == (if row.retried then 0 else 1) && c.attempts == 1
            && (row.retried ==> c.errors == c.durationSum == c.durationCount == 0)
  {
  }

  /** The last row's part in what the series shows. */
  lemma FoldLast(front: seq<LogRow>, last: LogRow, p: LogRow -> bool)
    ensures var all, before, c := Fold(front + [last], p), Fold(front, p), if p(last) then Contribution(last)
              else NO_FACTS;
            && all.requests == before.requests + c.requests && all.attempts == before.attempts + c.attempts
            && all.errors == before.errors + c.errors && all.durationSum == before.durationSum + c.durationSum
            && all.durationCount == before.durationCount + c.durationCount
  {
    hide Contribution;
    assert (front + [last])[..|front|] == front;
  }

  /** Retried attempts add nothing to what the series shows, and a bucket is shown exactly when a
      request fell in it. */
  lemma {:induction false} OnlyRequestsShow(rows: seq<LogRow>, p: LogRow -> bool)
    ensures var all, counted := Fold(rows, p), Fold(rows, Counted(p));
            && all.requests == counted.requests == counted.attempts && all.errors == counted.errors
            && all.durationSum == counted.durationSum && all.durationCount == counted.durationCount
    ensures Fold(rows, p).requests > 0 <==> exists r :: r in rows && p(r) && !r.retried
    ensures Fold(rows, p).requests >= 0
  {
    if rows == [] {
      assert Fold(rows, p) == Fold(rows, Counted(p)) == NO_FACTS;
    } else {
      hide Fold, Plus, Contribution;
      var front, last := rows[..|rows| - 1], rows[|rows| - 1];
      assert rows == front + [last];
      OnlyRequestsShow(front, p);
      RowShows(last);
      FoldLast(front, last, p);
      FoldLast(front, last, Counted(p));
    }
  }
}
