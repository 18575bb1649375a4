/** Everything that happens to the log tables, in any order: batches written, bodies dropped, logs
    deleted, collections marked and swept. Each step is one transaction. */
module LogSystem {
  import opened Words
  import opened LogRecord
  import opened Prepare
  import opened LogTables
  import opened LogStore
  import opened LogWriter
  import opened Collector
  import opened BodyCleanup

  /** The tables, what every log was written with, and the collections begun. */
  datatype System = System(t: Tables, written: map<int, Snapshots>, collections: seq<Collection>)

  const EMPTY_SYSTEM := System(NO_TABLES, map[], [])

  datatype Step =
    | Write(rows: seq<Snapshots>)
    | Clear(dropped: set<int>, keepCount: int, batchSize: int)
    | Delete(gone: set<int>)
    | Mark
    | Sweep(which: nat)

  /** The logs, and by cascade their snapshots and bodies, are gone. */
  ghost predicate LogsDeleted(t: Tables, t': Tables, gone: set<int>) {
    t' == t.(logs := t.logs - gone, snapshots := t.snapshots - gone, bodies := t.bodies - gone)
  }

  ghost predicate Wrote(s: System, s': System, rows: seq<Snapshots>) {
    && (forall i :: 0 <= i < |rows| ==> RowCapturable(rows[i]))
    && BatchWritten(s.t, s'.t, rows)
    && (forall id :: id in s'.written <==> id in s.written || s.t.lastLog < id <= s'.t.lastLog)
    && (forall id :: id in s.written && id <= s.t.lastLog ==> s'.written[id] == s.written[id])
    && (forall i :: 0 <= i < |rows| ==> s'.written[s.t.lastLog + 1 + i] == rows[i])
    && s'.collections == s.collections
  }

  /** keep is the least number of logs the policy is ever asked to keep. */
  ghost predicate Takes(s: System, step: Step, s': System, keep: int) {
    match step
    case Write(rows) => Wrote(s, s', rows)
    case Clear(dropped, keepCount, batchSize) =>
      && s' == s.(t := s'.t) && keepCount >= keep
      && IsBatch(Uncleared(s.t), dropped, keepCount, batchSize) && BodiesDropped(s.t, s'.t, dropped)
    case Delete(gone) => s' == s.(t := s'.t) && LogsDeleted(s.t, s'.t, gone)
    case Mark =>
      && |s'.collections| == |s.collections| + 1
      && s' == s.(collections := s.collections + [s'.collections[|s.collections|]])
      && IsMarked(s.t, s'.collections[|s.collections|])
    case Sweep(which) =>
      && which < |s.collections| == |s'.collections|
      && s' == s.(t := s'.t, collections := s.collections[which := s'.collections[which]])
      && IsSwept(s.t, s'.t, s.collections[which], s'.collections[which])
  }

  ghost predicate IsRun(states: seq<System>, steps: seq<Step>, keep: int) {
    && |states| == |steps| + 1
    && forall i :: 0 <= i < |steps| ==> Takes(states[i], steps[i], states[i + 1], keep)
  }

  // What every reachable state keeps

  /** Every log ever written with a snapshot. */
  ghost function Snapshotted(written: map<int, Snapshots>): set<int> {
    set id | id in written && HasSnapshot(written[id])
  }

  /** What a log whose bodies were dropped shows. */
  ghost predicate ShowsCleared(t: Tables, logID: int, row: Snapshots) {
    forall slot :: 0 <= slot < SLOT_COUNT ==> ShownSlot(t, logID, slot) == if row[slot].Some? then Cleared else Absent
  }

  predicate IsCleared(t: Tables, logID: int) {
    logID in t.snapshots && t.snapshots[logID].cleared
  }

  /** The log shows what it was written with, or that its bodies were dropped. */
  ghost predicate Remembers(t: Tables, logID: int, row: Snapshots) {
    && (logID in t.snapshots ==> HasSnapshot(row))
    && (if IsCleared(t, logID) then ShowsCleared(t, logID, row) else ReadsBack(t, logID, row))
  }

  /** A collection has every mark it needs for the records it has read. */
  ghost predicate Marked(t: Tables, c: Collection) {
    && c.lastLog <= t.lastLog && 0 <= c.cursor <= c.lastChunk && c.lastChunk <= t.lastChunk
    && forall logID, id ::
         logID in t.bodies && logID <= c.lastLog && id <= c.lastChunk && BodyLists(t.bodies[logID], id) ==>
           id in c.marks
  }

  /** Every log the policy dropped had at least keep newer ones with snapshots. */
  ghost predicate NewestKept(s: System, keep: int) {
    forall id :: IsCleared(s.t, id) ==> |Above(Snapshotted(s.written), id)| >= keep
  }

  ghost predicate SystemSound(s: System, keep: int) {
    && TablesSound(s.t)
    && (forall id :: id in s.written <==> 1 <= id <= s.t.lastLog)
    && (forall id :: id in s.t.logs ==> Remembers(s.t, id, s.written[id]))
    && (forall i :: 0 <= i < |s.collections| ==> Marked(s.t, s.collections[i]))
    && NewestKept(s, keep)
  }

  // Each step keeps it

  /** A log reads the same while its rows and every chunk listed are left alone. */
  lemma StillRemembers(t: Tables, t': Tables, logID: int, row: Snapshots)
    requires LogsSound(t) && NothingMissing(t) && Remembers(t, logID, row) && SameRow(t, t', logID)
    requires forall id :: id in t.chunks && Listed(t, id) ==> id in t'.chunks && t'.chunks[id] == t.chunks[id]
    ensures Remembers(t', logID, row)
  {
    hide Parse, AssembledBody;
    forall slot | 0 <= slot < SLOT_COUNT
      ensures ShownSlot(t', logID, slot) == ShownSlot(t, logID, slot)
    {
      if logID in t.snapshots {
        if logID in t.bodies {
          forall id | BodyLists(t.bodies[logID], id)
            ensures id in t.chunks && id in t'.chunks && t.chunks[id] == t'.chunks[id]
          {
            assert Listed(t, id);
          }
        }
        ReadStable(t, t', logID, slot);
      }
    }
  }

  lemma WriteKeepsRows(s: System, s': System, rows: seq<Snapshots>, id: int)
    requires TablesSound(s.t) && Wrote(s, s', rows)
    requires forall k :: k in s.written <==> 1 <= k <= s.t.lastLog
    requires forall k :: k in s.t.logs ==> Remembers(s.t, k, s.written[k])
    requires id in s'.t.logs
    ensures id in s'.written && Remembers(s'.t, id, s'.written[id])
  {
    hide Remembers(), ReadsBack(), RowCapturable, ChunkSound, BodyLists(), Parse, RowStored();
    if id <= s.t.lastLog {
      assert SameRow(s.t, s'.t, id);
      StillRemembers(s.t, s'.t, id, s.written[id]);
    } else {
      var i := id - s.t.lastLog - 1;
      assert s'.written[s.t.lastLog + 1 + i] == rows[i];
      assert RowStored(s'.t, s.t.lastLog + 1 + i, rows[i]);
      StoredRemembers(s'.t, id, rows[i]);
    }
  }

  lemma StoredRemembers(t: Tables, logID: int, row: Snapshots)
    requires RowStored(t, logID, row)
    ensures Remembers(t, logID, row) && !IsCleared(t, logID)
  {
  }

  lemma WriteKeepsMarked(t: Tables, t': Tables, rows: seq<Snapshots>, c: Collection)
    requires BatchWritten(t, t', rows) && Marked(t, c)
    ensures Marked(t', c)
  {
    hide BodyLists(), RowStored();
    forall logID, id | logID in t'.bodies && logID <= c.lastLog && id <= c.lastChunk && BodyLists(t'.bodies[logID], id)
      ensures id in c.marks
    {
      assert SameRow(t, t', logID);
    }
  }

  lemma WriteKeepsNewest(s: System, s': System, rows: seq<Snapshots>, keep: int)
    requires TablesSound(s.t) && Wrote(s, s', rows) && NewestKept(s, keep)
    requires forall k :: k in s.written <==> 1 <= k <= s.t.lastLog
    ensures NewestKept(s', keep)
  {
    hide HasSnapshot(), NothingMissing(), RowCapturable;
    forall id | IsCleared(s'.t, id)
      ensures |Above(Snapshotted(s'.written), id)| >= keep
    {
      if id <= s.t.lastLog {
        assert SameRow(s.t, s'.t, id);
        SubsetIsNoLarger(Above(Snapshotted(s.written), id), Above(Snapshotted(s'.written), id));
      } else {
        StoredRemembers(s'.t, s.t.lastLog + 1 + (id - s.t.lastLog - 1), rows[id - s.t.lastLog - 1]);
      }
    }
  }

  lemma WriteKeeps(s: System, s': System, rows: seq<Snapshots>, keep: int)
    requires SystemSound(s, keep) && Wrote(s, s', rows)
    ensures SystemSound(s', keep)
  {
    assert 0 <= s.t.lastLog;
    hide TablesSound(), NewestKept(), Remembers(), Marked(), ChunksGrew(), RowStored(), ChunksSound();
    BatchKeepsSound(s.t, s'.t, rows);
    forall id | id in s'.t.logs
      ensures id in s'.written && Remembers(s'.t, id, s'.written[id])
    {
      WriteKeepsRows(s, s', rows, id);
    }
    forall i | 0 <= i < |s.collections|
      ensures Marked(s'.t, s'.collections[i])
    {
      WriteKeepsMarked(s.t, s'.t, rows, s.collections[i]);
    }
    WriteKeepsNewest(s, s', rows, keep);
  }

  lemma DropShowsCleared(t: Tables, t': Tables, dropped: set<int>, logID: int, row: Snapshots)
    requires BodiesDropped(t, t', dropped) && Remembers(t, logID, row) && logID in dropped
    ensures Remembers(t', logID, row)
  {
  }

  lemma ClearKeeps(s: System, s': System, dropped: set<int>, keepCount: int, batchSize: int, keep: int)
    requires SystemSound(s, keep) && Takes(s, Clear(dropped, keepCount, batchSize), s', keep)
    ensures SystemSound(s', keep)
  {
    hide Remembers(), BodyLists(), HasSnapshot(), NewestKept(), ChunksSound(), ChunkSound, Above, IsBatch(), Parse;
    forall id | id in s'.t.logs
      ensures Remembers(s'.t, id, s'.written[id])
    {
      if id in dropped {
        DropShowsCleared(s.t, s'.t, dropped, id, s.written[id]);
      } else {
        StillRemembers(s.t, s'.t, id, s.written[id]);
      }
    }
    ClearKeepsNewest(s, s', dropped, keepCount, batchSize, keep);
    SameChunksSound(s.t, s'.t);
    assert LogsSound(s'.t);
    assert NothingMissing(s'.t);
    forall i | 0 <= i < |s'.collections|
      ensures Marked(s'.t, s'.collections[i])
    {
      assert Marked(s.t, s.collections[i]);
    }
  }

  lemma SameChunksSound(t: Tables, t': Tables)
    requires ChunksSound(t) && t'.chunks == t.chunks && t'.lastChunk == t.lastChunk
    ensures ChunksSound(t')
  {
  }

  lemma ClearKeepsNewest(s: System, s': System, dropped: set<int>, keepCount: int, batchSize: int, keep: int)
    requires SystemSound(s, keep) && Takes(s, Clear(dropped, keepCount, batchSize), s', keep)
    ensures NewestKept(s', keep)
  {
    hide BodyLists(), HasSnapshot(), ChunksSound(), NothingMissing(), Marked(), ReadsBack(), ShowsCleared();
    forall id | IsCleared(s'.t, id)
      ensures |Above(Snapshotted(s'.written), id)| >= keep
    {
      if id in dropped {
        assert !Stays(Uncleared(s.t), id, keepCount);
        assert forall k :: k in Uncleared(s.t) ==> k in s.t.logs;
        SubsetIsNoLarger(Above(Uncleared(s.t), id), Above(Snapshotted(s.written), id));
      }
    }
  }

  lemma DeleteKeeps(s: System, s': System, gone: set<int>, keep: int)
    requires SystemSound(s, keep) && Takes(s, Delete(gone), s', keep)
    ensures SystemSound(s', keep)
  {
    hide Remembers(), BodyLists(), HasSnapshot(), ChunkSound, ChunksSound(), Parse;
    SameChunksSound(s.t, s'.t);
    forall id | id in s'.t.logs
      ensures Remembers(s'.t, id, s'.written[id])
    {
      StillRemembers(s.t, s'.t, id, s.written[id]);
    }
  }

  lemma MarkKeeps(s: System, s': System, keep: int)
    requires SystemSound(s, keep) && Takes(s, Mark, s', keep)
    ensures SystemSound(s', keep)
  {
    assert 0 <= s.t.lastChunk;
    hide Remembers(), BodyLists(), HasSnapshot(), ChunkSound, TablesSound(), Parse;
    var c := s'.collections[|s.collections|];
    assert Marked(s.t, c) by {
      BornMarked(s.t, c);
    }
  }

  lemma BornMarked(t: Tables, c: Collection)
    requires IsMarked(t, c) && 0 <= t.lastChunk
    ensures Marked(t, c)
  {
  }

  /** A sweep deletes no listed chunk. */
  lemma SweepSparesListed(t: Tables, t': Tables, c: Collection, c': Collection, id: int)
    requires Marked(t, c) && IsSwept(t, t', c, c')
    requires id in t.chunks && Listed(t, id)
    ensures id in t'.chunks && t'.chunks[id] == t.chunks[id]
  {
    hide BodyLists(), Parse;
    var logID :| logID in t.bodies && BodyLists(t.bodies[logID], id);
    if id <= c.lastChunk {
      if logID > c.lastLog {
        assert ListedSince(t, c.lastLog, id);
      }
      assert id in c'.marks;
    }
  }

  lemma SweepKeepsMarked(t: Tables, t': Tables, c: Collection, c': Collection)
    requires LogsSound(t) && Marked(t, c) && IsSwept(t, t', c, c')
    ensures Marked(t', c')
  {
  }

  lemma SweepKeepsTables(t: Tables, t': Tables, c: Collection, c': Collection)
    requires TablesSound(t) && Marked(t, c) && IsSwept(t, t', c, c')
    ensures TablesSound(t')
  {
  }

  lemma SweepKeeps(s: System, s': System, which: nat, keep: int)
    requires SystemSound(s, keep) && Takes(s, Sweep(which), s', keep)
    ensures SystemSound(s', keep)
  {
    hide Remembers(), BodyLists(), HasSnapshot(), CaughtUp(), ChunksSound(), Parse;
    var c, c' := s.collections[which], s'.collections[which];
    SweepKeepsTables(s.t, s'.t, c, c');
    SweepKeepsMarked(s.t, s'.t, c, c');
    forall id | id in s.t.chunks && Listed(s.t, id)
      ensures id in s'.t.chunks && s'.t.chunks[id] == s.t.chunks[id]
    {
      SweepSparesListed(s.t, s'.t, c, c', id);
    }
    forall id | id in s'.t.logs
      ensures Remembers(s'.t, id, s'.written[id])
    {
      StillRemembers(s.t, s'.t, id, s.written[id]);
    }
  }

  lemma StepKeeps(s: System, step: Step, s': System, keep: int)
    requires SystemSound(s, keep) && Takes(s, step, s', keep)
    ensures SystemSound(s', keep)
  {
    hide SystemSound();
    match step
    case Write(rows) => WriteKeeps(s, s', rows, keep);
    case Clear(dropped, keepCount, batchSize) => ClearKeeps(s, s', dropped, keepCount, batchSize, keep);
    case Delete(gone) => DeleteKeeps(s, s', gone, keep);
    case Mark => MarkKeeps(s, s', keep);
    case Sweep(which) => SweepKeeps(s, s', which, keep);
  }

  // Over whole runs

  lemma {:induction false} RunKeeps(states: seq<System>, steps: seq<Step>, keep: int, k: nat)
    requires IsRun(states, steps, keep) && SystemSound(states[0], keep) && k < |states|
    ensures SystemSound(states[k], keep)
  {
    hide SystemSound(), Takes();
    if k > 0 {
      RunKeeps(states, steps, keep, k - 1);
      StepKeeps(states[k - 1], steps[k - 1], states[k], keep);
    }
  }

  lemma StartsSound(keep: int)
    ensures SystemSound(EMPTY_SYSTEM, keep)
  {
  }

  /** Whatever was written, dropped, deleted, marked and swept in whatever order: every chunk a
      record lists is stored with the bytes its hash names, and every log still there reads back
      byte for byte as it was written unless the policy dropped its bodies. */
  lemma NothingIsLost(states: seq<System>, steps: seq<Step>, keep: int, k: nat)
    requires IsRun(states, steps, keep) && states[0] == EMPTY_SYSTEM && k < |states|
    ensures NothingMissing(states[k].t) && ChunksSound(states[k].t)
    ensures forall id :: id in states[k].t.logs && !IsCleared(states[k].t, id) ==>
                           id in states[k].written && ReadsBack(states[k].t, id, states[k].written[id])
    ensures forall id :: id in states[k].t.logs && IsCleared(states[k].t, id) ==>
                           id in states[k].written && ShowsCleared(states[k].t, id, states[k].written[id])
  {
    hide ReadsBack(), ShowsCleared();
    StartsSound(keep);
    RunKeeps(states, steps, keep, k);
  }

  /** Writers may append between the policy's batches: a log among the newest keep ever written
      with snapshots keeps its bodies. */
  lemma NewestAreKept(states: seq<System>, steps: seq<Step>, keep: int, k: nat, id: int)
    requires IsRun(states, steps, keep) && states[0] == EMPTY_SYSTEM && k < |states|
    requires id in states[k].t.logs && AmongNewest(Snapshotted(states[k].written), id, keep)
    ensures id in states[k].written && ReadsBack(states[k].t, id, states[k].written[id])
  {
    hide ReadsBack(), Takes();
    StartsSound(keep);
    RunKeeps(states, steps, keep, k);
  }

  /** What was written under an id stays what it was. */
  lemma {:induction false} WrittenOnce(states: seq<System>, steps: seq<Step>, keep: int, i: nat, j: nat, id: int)
    requires IsRun(states, steps, keep) && states[0] == EMPTY_SYSTEM && i <= j < |states| && id in states[i].written
    ensures id in states[j].written && states[j].written[id] == states[i].written[id]
    decreases j
  {
    hide BatchWritten(), IsBatch(), BodiesDropped(), IsMarked(), IsSwept(), LogsDeleted(), TablesSound(), Remembers(),
      NewestKept();
    if i < j {
      WrittenOnce(states, steps, keep, i, j - 1, id);
      StartsSound(keep);
      RunKeeps(states, steps, keep, j - 1);
      assert Takes(states[j - 1], steps[j - 1], states[j], keep);
    }
  }

  /** A sweep anywhere in a run deletes only chunks no record lists at that moment. */
  lemma SweepsOnlyGarbage(states: seq<System>, steps: seq<Step>, keep: int, k: nat, id: int)
    requires IsRun(states, steps, keep) && states[0] == EMPTY_SYSTEM && k < |steps| && steps[k].Sweep?
    requires id in states[k].t.chunks && id !in states[k + 1].t.chunks
    ensures !Listed(states[k].t, id) && !Listed(states[k + 1].t, id)
  {
    hide Listed(), Remembers(), NewestKept(), IsSwept(), TablesSound();
    StartsSound(keep);
    RunKeeps(states, steps, keep, k);
    assert Takes(states[k], steps[k], states[k + 1], keep);
    var which := steps[k].which;
    var c, c' := states[k].collections[which], states[k + 1].collections[which];
    SweptListsSame(states[k].t, states[k + 1].t, c, c', id);
    if Listed(states[k].t, id) {
      SweepSparesListed(states[k].t, states[k + 1].t, c, c', id);
    }
  }

  lemma SweptListsSame(t: Tables, t': Tables, c: Collection, c': Collection, id: int)
    requires IsSwept(t, t', c, c')
    ensures Listed(t, id) <==> Listed(t', id)
  {
  }

  // A finished collection has collected

  /** The collection has no mark for the chunk, or has passed and deleted it. */
  ghost predicate Collecting(s: System, which: nat, highest: int, id: int) {
    && which < |s.collections| && s.collections[which].lastChunk == highest
    && 1 <= id <= highest <= s.t.lastChunk && 0 <= s.collections[which].cursor
    && if s.collections[which].cursor < id then id !in s.collections[which].marks else id !in s.t.chunks
  }

  lemma StepCollects(s: System, step: Step, s': System, keep: int, which: nat, highest: int, id: int)
    requires Takes(s, step, s', keep) && Collecting(s, which, highest, id)
    requires s.collections[which].cursor < id ==> !Listed(s.t, id)
    ensures Collecting(s', which, highest, id) && s'.collections[which].cursor >= s.collections[which].cursor
    ensures step == Sweep(which) ==> s'.collections[which].cursor > s.collections[which].cursor
  {
  }

  /** The collection has not swept past the chunk yet. */
  ghost predicate Ahead(s: System, which: nat, id: int) {
    which < |s.collections| ==> s.collections[which].cursor < id
  }

  /** A chunk the mark's snapshot holds but does not list, and that no record lists until the sweep
      that passes it, is gone from then on. */
  lemma {:induction false} CollectionCompletes(states: seq<System>, steps: seq<Step>, keep: int, start: nat, end: nat,
                                               which: nat, id: int)
    requires IsRun(states, steps, keep) && states[0] == EMPTY_SYSTEM && start < end < |states|
    requires steps[start] == Mark && which == |states[start].collections|
    requires 1 <= id <= states[start].t.lastChunk
    requires forall k :: start <= k < end && Ahead(states[k], which, id) ==> !Listed(states[k].t, id)
    ensures Collecting(states[end], which, states[start].t.lastChunk, id)
    ensures states[end].collections[which].cursor >= id ==> id !in states[end].t.chunks
    decreases end
  {
    hide BodyLists(), IsSwept(), Remembers(), Listed(), BatchWritten();
    if end == start + 1 {
      StartsSound(keep);
      RunKeeps(states, steps, keep, start);
      assert Takes(states[start], steps[start], states[end], keep);
    } else {
      CollectionCompletes(states, steps, keep, start, end - 1, which, id);
      StepCollects(states[end - 1], steps[end - 1], states[end], keep, which, states[start].t.lastChunk, id);
    }
  }

  ghost function SweepCount(steps: seq<Step>, which: nat): nat {
    if steps == [] then 0
    else SweepCount(steps[..|steps| - 1], which) + if steps[|steps| - 1] == Sweep(which) then 1 else 0
  }

  lemma StepMovesCursor(s: System, step: Step, s': System, keep: int, which: nat)
    requires Takes(s, step, s', keep) && which < |s.collections|
    ensures which < |s'.collections| && s'.collections[which].lastChunk == s.collections[which].lastChunk
    ensures s'.collections[which].cursor >= s.collections[which].cursor + if step == Sweep(which) then 1 else 0
  {
  }

  /** A collection sweeps at most once for each chunk id its mark saw, however the other steps fall
      between. */
  lemma {:induction false} SweepsAreBounded(states: seq<System>, steps: seq<Step>, keep: int, which: nat, k: nat)
    requires IsRun(states, steps, keep) && SystemSound(states[0], keep) && which < |states[0].collections|
    requires k < |states|
    ensures which < |states[k].collections| &&
              states[k].collections[which].lastChunk == states[0].collections[which].lastChunk
    ensures SweepCount(steps[..k], which) + states[0].collections[which].cursor <= states[k].collections[which].cursor
    ensures states[k].collections[which].cursor <= states[0].collections[which].lastChunk
  {
    hide Takes(), TablesSound(), Remembers(), NewestKept();
    if k > 0 {
      SweepsAreBounded(states, steps, keep, which, k - 1);
      StepMovesCursor(states[k - 1], steps[k - 1], states[k], keep, which);
      assert steps[..k][..k - 1] == steps[..k - 1];
      RunKeeps(states, steps, keep, k);
    }
  }

  // A collection begun can go on

  /** The highest of these ids above a floor, or the floor. */
  lemma HighestAbove(ids: set<int>, floor: int) returns (highest: int)
    ensures forall id :: id in ids ==> id <= highest
    ensures highest == floor || (highest > floor && highest in ids)
    decreases |ids|
  {
    highest := floor;
    if ids != {} {
      NonemptyHasMember(ids);
      var id :| id in ids;
      highest := HighestAbove(ids - {id}, floor);
      forall k | k in ids
        ensures k <= Max(highest, id)
      {
        assert k != id ==> k in ids - {id};
      }
      highest := Max(highest, id);
    }
  }

  /** Every chunk a record lists is one of finitely many stored, so the marks are finite. */
  lemma CatchesUp(t: Tables, c: Collection) returns (c': Collection)
    requires NothingMissing(t)
    ensures CaughtUp(t, c, c') && c'.lastChunk == c.lastChunk && c'.cursor == c.lastChunk
  {
    hide Parse, BodyLists();
    var highest := HighestAbove(t.bodies.Keys, c.lastLog);
    var more := set id | id in t.chunks && id <= c.lastChunk && ListedSince(t, c.lastLog, id);
    c' := Collection(c.marks + more, highest, c.lastChunk, c.lastChunk);
  }

  /** In every reachable state a collection that has not reached its highest id can sweep further, and
      a new one can begin. */
  lemma CollectionGoesOn(states: seq<System>, steps: seq<Step>, keep: int, k: nat, which: nat)
    requires IsRun(states, steps, keep) && states[0] == EMPTY_SYSTEM && k < |states|
    requires which < |states[k].collections|
    requires states[k].collections[which].cursor < states[k].collections[which].lastChunk
    ensures exists s' :: Takes(states[k], Sweep(which), s', keep)
    ensures exists s' :: Takes(states[k], Mark, s', keep)
  {
    NothingIsLost(states, steps, keep, k);
    hide Takes(), NothingMissing(), ChunksSound();
    var swept := SweepsOn(states[k], which, keep);
    var begun := Begins(states[k].t);
    MarkTaken(states[k], begun, keep);
  }

  lemma SweepsOn(s: System, which: nat, keep: int) returns (s': System)
    requires NothingMissing(s.t) && which < |s.collections|
    requires s.collections[which].cursor < s.collections[which].lastChunk
    ensures Takes(s, Sweep(which), s', keep)
  {
    var c := s.collections[which];
    var c' := CatchesUp(s.t, c);
    hide CaughtUp(), NothingMissing();
    var left := map id | id in s.t.chunks && !(c.cursor < id <= c'.cursor && id !in c'.marks) :: s.t.chunks[id];
    s' := s.(t := s.t.(chunks := left), collections := s.collections[which := c']);
    assert IsSwept(s.t, s'.t, c, c');
  }

  lemma MarkTaken(s: System, c: Collection, keep: int)
    requires IsMarked(s.t, c)
    ensures Takes(s, Mark, s.(collections := s.collections + [c]), keep)
  {
    hide IsMarked();
  }

  lemma Begins(t: Tables) returns (c: Collection)
    requires NothingMissing(t)
    ensures IsMarked(t, c)
  {
    hide Parse, BodyLists();
    var marks := set id | id in t.chunks && id <= t.lastChunk && Listed(t, id);
    c := Collection(marks, t.lastLog, t.lastChunk, 0);
  }
}
