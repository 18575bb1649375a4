/** Dropping the bodies of all but the newest logs, in bounded batches. */
module BodyCleanup {
  import opened Words
  import opened LogRecord
  import opened LogTables
  import opened LogStore

  const LOG_BODY_CLEANUP_BATCH_SIZE := 1000

  /** The logs whose bodies have not been dropped. */
  ghost function Uncleared(t: Tables): set<int> {
    set id | id in t.snapshots && !t.snapshots[id].cleared
  }

  ghost function Above(ids: set<int>, id: int): set<int> {
    set k | k in ids && k > id
  }

  /** id is one of the newest keep of ids. */
  ghost predicate AmongNewest(ids: set<int>, id: int, keep: int) {
    id in ids && |Above(ids, id)| < keep
  }

  /** The offset of the oldest row kept. SQLite reads a negative offset as none. */
  function KeepOffset(keepCount: int): nat {
    Max(keepCount - 1, 0)
  }

  /** The row the window ends on. */
  ghost predicate IsThreshold(ids: set<int>, keepCount: int, id: int) {
    id in ids && |Above(ids, id)| == KeepOffset(keepCount)
  }

  lemma SubsetIsNoLarger(a: set<int>, b: set<int>)
    requires a <= b
    ensures |a| <= |b|
    decreases |b|
  {
    if a != {} {
      NonemptyHasMember(a);
      var x :| x in a;
      SubsetIsNoLarger(a - {x}, b - {x});
    }
  }

  lemma AboveShrinks(ids: set<int>, low: int, high: int)
    requires low <= high
    ensures |Above(ids, high)| <= |Above(ids, low)|
    ensures low < high && high in ids ==> |Above(ids, high)| < |Above(ids, low)|
  {
    SubsetIsNoLarger(Above(ids, high), Above(ids, low));
    if low < high && high in ids {
      SubsetIsNoLarger(Above(ids, high) + {high}, Above(ids, low));
    }
  }

  /** id is in the window that stays. */
  ghost predicate Stays(ids: set<int>, id: int, keepCount: int) {
    AmongNewest(ids, id, KeepOffset(keepCount) + 1)
  }

  /** From the threshold up, a row is kept; below it, none is. */
  lemma ThresholdSplits(ids: set<int>, keepCount: int, threshold: int, id: int)
    requires IsThreshold(ids, keepCount, threshold) && id in ids
    ensures Stays(ids, id, keepCount) <==> id >= threshold
  {
    if id >= threshold {
      AboveShrinks(ids, threshold, id);
    } else {
      AboveShrinks(ids, id, threshold);
    }
  }

  lemma AboveStep(ids: set<int>, id: int)
    ensures id in ids ==> |Above(ids, id - 1)| == |Above(ids, id)| + 1
    ensures id !in ids ==> |Above(ids, id - 1)| == |Above(ids, id)|
  {
    if id in ids {
      assert Above(ids, id - 1) == Above(ids, id) + {id};
    } else {
      assert Above(ids, id - 1) == Above(ids, id);
    }
  }

  function AfterDrop(row: SnapshotRow, dropped: bool): SnapshotRow {
    if dropped then row.(cleared := true) else row
  }

  /** Exactly the bodies of these logs were dropped. */
  ghost predicate BodiesDropped(t: Tables, t': Tables, dropped: set<int>) {
    && t' == t.(snapshots := t'.snapshots, bodies := t'.bodies)
    && t'.snapshots.Keys == t.snapshots.Keys
    && (forall id :: id in t.snapshots ==> t'.snapshots[id] == AfterDrop(t.snapshots[id], id in dropped))
    && (forall id :: id in t'.bodies <==> id in t.bodies && id !in dropped)
    && (forall id :: id in t'.bodies ==> t'.bodies[id] == t.bodies[id])
  }

  /** dropped are the oldest logs outside the window, as many as a batch takes. */
  ghost predicate IsBatch(ids: set<int>, dropped: set<int>, keepCount: int, batchSize: int) {
    && dropped <= ids
    && (forall id :: id in dropped ==> !Stays(ids, id, keepCount))
    && (forall id, older :: id in dropped && older in ids && older < id ==> older in dropped)
    && |dropped| <= batchSize
    && (|dropped| < batchSize ==>
          forall id :: id in ids && id !in dropped ==> Stays(ids, id, keepCount))
  }

  method FindThreshold(db: LogStore, keepCount: int) returns (found: bool, threshold: int)
    requires LogsSound(db.Contents())
    ensures found ==> IsThreshold(Uncleared(db.Contents()), keepCount, threshold)
    ensures !found ==> |Uncleared(db.Contents())| <= KeepOffset(keepCount)
  {
    ghost var ids := Uncleared(db.Contents());
    var newer := 0;
    threshold := db.lastLog;
    assert Above(ids, threshold) == {};
    while threshold >= 1
      invariant 0 <= threshold <= db.lastLog
      invariant newer == |Above(ids, threshold)| <= KeepOffset(keepCount)
    {
      AboveStep(ids, threshold);
      if threshold in db.snapshots && !db.snapshots[threshold].cleared {
        if newer == KeepOffset(keepCount) {
          return true, threshold;
        }
        newer := newer + 1;
      }
      threshold := threshold - 1;
    }
    assert Above(ids, 0) == ids;
    found := false;
  }

  /** The uncleared logs below the threshold, oldest first, as many as a batch takes: the ends of
      their range and their number. */
  method FindOldest(db: LogStore, threshold: int, batchSize: nat)
    returns (first: int, last: int, count: nat, ghost oldest: set<int>)
    requires LogsSound(db.Contents()) && 0 < batchSize
    ensures forall id :: id in oldest <==> id in Uncleared(db.Contents()) && id < threshold && id <= last
    ensures forall id :: id in oldest ==> first <= id
    ensures count == |oldest| <= batchSize
    ensures count < batchSize ==> forall id :: id in Uncleared(db.Contents()) && id < threshold ==> id in oldest
    ensures count > 0 ==> 1 <= first <= last < threshold
  {
    first, last, count, oldest := 0, 0, 0, {};
    var id := 1;
    while id < threshold && count < batchSize
      invariant 1 <= id
      invariant last < id && last < Max(threshold, 1)
      invariant forall k :: k in oldest <==> k in Uncleared(db.Contents()) && k < id && k < threshold
      invariant forall k :: k in oldest ==> first <= k <= last
      invariant count == |oldest| <= batchSize
      invariant count > 0 ==> 1 <= first <= last
      decreases threshold - id
    {
      if id in db.snapshots && !db.snapshots[id].cleared {
        if count == 0 {
          first := id;
        }
        last := id;
        count := count + 1;
        oldest := oldest + {id};
      }
      id := id + 1;
    }
  }

  /** Drops the bodies of up to batchSize of the oldest logs outside the newest keepCount. */
  method ClearOldLogBodiesBatch(db: LogStore, keepCount: int, batchSize: nat)
    returns (count: nat, ghost dropped: set<int>)
    requires LogsSound(db.Contents()) && 0 < batchSize
    modifies db`snapshots, db`bodies
    ensures BodiesDropped(old(db.Contents()), db.Contents(), dropped)
    ensures IsBatch(old(Uncleared(db.Contents())), dropped, keepCount, batchSize)
    ensures count == |dropped|
  {
    ghost var ids := Uncleared(db.Contents());
    dropped := {};
    var found, threshold := FindThreshold(db, keepCount);
    if !found {
      forall id | id in ids
        ensures Stays(ids, id, keepCount)
      {
        SubsetIsNoLarger(Above(ids, id), ids);
      }
      return 0, {};
    }
    forall id | id in ids
      ensures Stays(ids, id, keepCount) <==> id >= threshold
    {
      ThresholdSplits(ids, keepCount, threshold, id);
    }
    var first, last;
    first, last, count, dropped := FindOldest(db, threshold, batchSize);
    if count == 0 {
      NoneDropped(dropped);
      return 0, {};
    }
    forall id | id in dropped ensures id in ids {}
    db.bodies := map id | id in db.bodies && !(first <= id <= last) :: db.bodies[id];
    db.snapshots := map id | id in db.snapshots :: if !db.snapshots[id].cleared && first <= id <= last
                                                   then db.snapshots[id].(cleared := true) else db.snapshots[id];
  }

  lemma NoneDropped(s: set<int>)
    requires |s| == 0
    ensures s == {}
  {
  }

  /** Dropping rows outside the window leaves the window as it is. */
  lemma WindowUnmoved(ids: set<int>, dropped: set<int>, keepCount: int, batchSize: int)
    requires IsBatch(ids, dropped, keepCount, batchSize)
    ensures forall id :: Stays(ids - dropped, id, keepCount) <==>
                         Stays(ids, id, keepCount)
  {
    forall id
      ensures Stays(ids - dropped, id, keepCount) <==>
              Stays(ids, id, keepCount)
    {
      if id in ids && id !in dropped {
        assert Above(ids - dropped, id) == Above(ids, id);
      }
    }
  }

  /** Drops stored bodies beyond the newest keepCount rows. With keepCount at least 1 exactly the
      newest keepCount uncleared logs keep theirs; below 1 the newest one still does. */
  method ClearOldLogBodies(db: LogStore, keepCount: int) returns (total: nat)
    requires LogsSound(db.Contents())
    modifies db`snapshots, db`bodies
    ensures forall id :: id in Uncleared(db.Contents()) <==>
              AmongNewest(old(Uncleared(db.Contents())), id, Max(keepCount, 1))
    ensures BodiesDropped(old(db.Contents()), db.Contents(), old(Uncleared(db.Contents())) - Uncleared(db.Contents()))
    ensures total == |old(Uncleared(db.Contents()))| - |Uncleared(db.Contents())|
  {
    hide IsBatch(), BodiesDropped(), Stays(), LogsSound(), Uncleared, AmongNewest();
    ghost var all := Uncleared(db.Contents());
    total := 0;
    NothingDropped(db.Contents());
    while true
      invariant LogsSound(db.Contents())
      invariant Uncleared(db.Contents()) <= all
      invariant BodiesDropped(old(db.Contents()), db.Contents(), all - Uncleared(db.Contents()))
      invariant forall id :: Stays(Uncleared(db.Contents()), id, keepCount) <==> Stays(all, id, keepCount)
      invariant total == |all| - |Uncleared(db.Contents())|
      decreases |Uncleared(db.Contents())|
    {
      ghost var before, ids := db.Contents(), Uncleared(db.Contents());
      ghost var dropped;
      var affected;
      affected, dropped := ClearOldLogBodiesBatch(db, keepCount, LOG_BODY_CLEANUP_BATCH_SIZE);
      BatchFacts(ids, dropped, keepCount, LOG_BODY_CLEANUP_BATCH_SIZE);
      WindowUnmoved(ids, dropped, keepCount, LOG_BODY_CLEANUP_BATCH_SIZE);
      DroppedAreUncleared(before, db.Contents(), dropped);
      DroppedTwice(old(db.Contents()), before, db.Contents(), dropped);
      total := total + affected;
      if affected == 0 || affected < LOG_BODY_CLEANUP_BATCH_SIZE {
        OnlyWindowLeft(all, Uncleared(db.Contents()), keepCount);
        return;
      }
    }
  }

  lemma NothingDropped(t: Tables)
    ensures BodiesDropped(t, t, Uncleared(t) - Uncleared(t))
  {
  }

  lemma OnlyWindowLeft(all: set<int>, ids: set<int>, keepCount: int)
    requires forall id :: Stays(ids, id, keepCount) <==> Stays(all, id, keepCount)
    requires forall id :: id in ids ==> Stays(ids, id, keepCount)
    ensures forall id :: id in ids <==> AmongNewest(all, id, Max(keepCount, 1))
  {
    forall id
      ensures id in ids <==> AmongNewest(all, id, Max(keepCount, 1))
    {
      assert Stays(ids, id, keepCount) <==> Stays(all, id, keepCount);
    }
  }

  lemma BatchFacts(ids: set<int>, dropped: set<int>, keepCount: int, batchSize: int)
    requires IsBatch(ids, dropped, keepCount, batchSize)
    ensures dropped <= ids && |ids - dropped| == |ids| - |dropped|
    ensures |dropped| < batchSize ==>
              forall id :: id in ids - dropped ==> Stays(ids, id, keepCount)
  {
  }

  lemma DroppedAreUncleared(t: Tables, t': Tables, dropped: set<int>)
    requires BodiesDropped(t, t', dropped) && dropped <= Uncleared(t) && LogsSound(t)
    ensures Uncleared(t') == Uncleared(t) - dropped && LogsSound(t')
  {
    forall id
      ensures id in Uncleared(t') <==> id in Uncleared(t) - dropped
    {
    }
  }

  lemma DroppedTwice(t: Tables, mid: Tables, t': Tables, dropped: set<int>)
    requires BodiesDropped(t, mid, Uncleared(t) - Uncleared(mid)) && BodiesDropped(mid, t', dropped)
    requires Uncleared(mid) <= Uncleared(t) && Uncleared(t') == Uncleared(mid) - dropped && dropped <= Uncleared(mid)
    ensures BodiesDropped(t, t', Uncleared(t) - Uncleared(t'))
  {
  }

  ghost function Newest(ids: set<int>, keep: int): set<int> {
    set id | id in ids && AmongNewest(ids, id, keep)
  }

  /** The newest keep of ids are keep of them, when there are so many. */
  lemma {:induction false} NewestCount(ids: set<int>, keep: nat)
    ensures |Newest(ids, keep)| == Min(keep, |ids|)
    decreases keep
  {
    if ids == {} || keep == 0 {
      NoneNewest(ids, keep);
    } else {
      hide AmongNewest(), Newest();
      NewestExists(ids);
      var top :| AmongNewest(ids, top, 1);
      TopIsOne(ids, top);
      NewestCount(ids - {top}, keep - 1);
      NewestBelowTop(ids, top, keep);
    }
  }

  lemma NoneNewest(ids: set<int>, keep: nat)
    requires ids == {} || keep == 0
    ensures |Newest(ids, keep)| == 0
  {
  }

  lemma TopIsOne(ids: set<int>, top: int)
    requires AmongNewest(ids, top, 1)
    ensures top in ids && |ids - {top}| == |ids| - 1
  {
  }

  lemma NewestBelowTop(ids: set<int>, top: int, keep: int)
    requires AmongNewest(ids, top, 1) && keep >= 1
    ensures |Newest(ids, keep)| == |Newest(ids - {top}, keep - 1)| + 1
  {
    NoneDropped(Above(ids, top));
    forall id
      ensures id in Newest(ids, keep) <==> id in Newest(ids - {top}, keep - 1) + {top}
    {
      if id in ids && id != top {
        assert id !in Above(ids, top);
        assert Above(ids, id) == Above(ids - {top}, id) + {top};
      }
    }
    assert Newest(ids, keep) == Newest(ids - {top}, keep - 1) + {top};
  }

  /** The policy is met exactly when it asks for at least one log to be kept: asked for none, a
      sound table with an uncleared log keeps one. */
  lemma KeepsExactlyIff(ids: set<int>, keepCount: int)
    ensures (forall id :: AmongNewest(ids, id, Max(keepCount, 1)) <==> AmongNewest(ids, id, keepCount)) <==>
            keepCount >= 1 || ids == {}
  {
    if ids == {} {
      assert forall id :: !AmongNewest(ids, id, Max(keepCount, 1)) && !AmongNewest(ids, id, keepCount);
    } else if keepCount < 1 {
      NewestExists(ids);
      var id :| AmongNewest(ids, id, 1);
      assert !AmongNewest(ids, id, keepCount);
    }
  }

  lemma NewestExists(ids: set<int>)
    requires ids != {}
    ensures exists id :: AmongNewest(ids, id, 1)
    decreases |ids|
  {
    NonemptyHasMember(ids);
    var x :| x in ids;
    if Above(ids, x) == {} {
      assert AmongNewest(ids, x, 1);
    } else {
      SubsetIsNoLarger(Above(ids, x) + {x}, ids);
      NewestExists(Above(ids, x));
      var y :| AmongNewest(Above(ids, x), y, 1);
      assert Above(Above(ids, x), y) == Above(ids, y);
      assert AmongNewest(ids, y, 1);
    }
  }
}
