/** The collector: marks every chunk a stored record lists, then deletes the unmarked ones in short
    transactions, each of which first catches up on the records written meanwhile. */
module Collector {
  import opened Words
  import opened LogRecord
  import opened LogTables
  import opened LogStore
  import opened ChunkMarks

  /** How many unlisted chunks one transaction deletes, and how many ids it looks at. */
  const CHUNK_SWEEP_BATCH_SIZE := 1000
  const CHUNK_SCAN_LIMIT := 8 * CHUNK_SWEEP_BATCH_SIZE

  /** A collection under way: the marks, the highest log caught up with, the highest chunk the mark
      saw, and the highest chunk swept. */
  datatype Collection = Collection(marks: set<int>, lastLog: int, lastChunk: int, cursor: int)

  /** A record of a log above after lists the chunk. */
  ghost predicate ListedSince(t: Tables, after: int, id: int) {
    exists logID :: logID in t.bodies && logID > after && BodyLists(t.bodies[logID], id)
  }

  /** The marks are those of one snapshot of the tables. */
  ghost predicate IsMarked(t: Tables, c: Collection) {
    && c.lastLog == t.lastLog && c.lastChunk == t.lastChunk && c.cursor == 0
    && (forall logID :: logID in t.bodies ==> Parse(t.bodies[logID]).Some?)
    && (forall id :: id in c.marks <==> id <= t.lastChunk && Listed(t, id))
  }

  ghost predicate CaughtUp(t: Tables, c: Collection, c': Collection) {
    && (forall logID :: logID in t.bodies && logID > c.lastLog ==> logID <= c'.lastLog && Parse(t.bodies[logID]).Some?)
    && (c'.lastLog == c.lastLog || (c'.lastLog > c.lastLog && c'.lastLog in t.bodies))
    && (forall id :: id in c'.marks <==> id in c.marks || (id <= c.lastChunk && ListedSince(t, c.lastLog, id)))
  }

  /** One sweep: caught up, then every unmarked chunk in the next range of ids is gone, and nothing
      else has changed. */
  ghost predicate IsSwept(t: Tables, t': Tables, c: Collection, c': Collection) {
    && CaughtUp(t, c, c')
    && c'.lastChunk == c.lastChunk
    && c.cursor < c'.cursor <= c.lastChunk
    && t' == t.(chunks := t'.chunks)
    && (forall id :: id in t'.chunks <==> id in t.chunks && !(c.cursor < id <= c'.cursor && id !in c'.marks))
    && (forall id :: id in t'.chunks ==> t'.chunks[id] == t.chunks[id])
  }

  /** Marks what the bodies of the given logs list. */
  ghost predicate MarkedFor(db: LogStore, logIDs: set<int>, highest: int, id: int)
    reads db
  {
    exists logID :: logID in logIDs && logID in db.bodies && id <= highest && BodyLists(db.bodies[logID], id)
  }

  lemma MarkedForMore(db: LogStore, logIDs: set<int>, logID: int, highest: int)
    requires logID in db.bodies
    ensures forall id :: MarkedFor(db, logIDs + {logID}, highest, id) <==>
                         MarkedFor(db, logIDs, highest, id) || (id <= highest && BodyLists(db.bodies[logID], id))
  {
  }

  /** Reads every stored record in one snapshot. */
  method MarkLogChunks(db: LogStore) returns (ok: bool, marks: ChunkMarks, lastLog: int, lastChunk: int)
    requires 0 <= db.lastChunk
    ensures fresh(marks) && fresh(marks.words)
    ensures lastChunk == db.lastChunk && marks.words.Length == lastChunk / 64 + 1
    ensures ok ==> IsMarked(db.Contents(), Collection(marks.Marked(), lastLog, lastChunk, 0))
    ensures ok <==> forall logID :: logID in db.bodies ==> Parse(db.bodies[logID]).Some?
  {
    lastLog, lastChunk := db.lastLog, db.lastChunk;
    marks := new ChunkMarks(lastChunk);
    var left := db.bodies.Keys;
    ghost var done: set<int> := {};
    while left != {}
      invariant done == db.bodies.Keys - left && left <= db.bodies.Keys
      invariant fresh(marks.words)
      invariant forall logID :: logID in done ==> Parse(db.bodies[logID]).Some?
      invariant forall id :: marks.Has(id) <==> MarkedFor(db, done, lastChunk, id)
      decreases left
    {
      NonemptyHasMember(left);
      var logID: int :| logID in left;
      ok := marks.MarkRecord(db.bodies[logID], lastChunk);
      if !ok {
        return;
      }
      MarkedForMore(db, done, logID, lastChunk);
      left := left - {logID};
      done := done + {logID};
    }
    ok := true;
    assert done == db.bodies.Keys;
    forall id
      ensures id in marks.Marked() <==> id <= lastChunk && Listed(db.Contents(), id)
    {
      HasIsMarked(marks, id);
    }
  }

  lemma HasIsMarked(marks: ChunkMarks, id: int)
    ensures id in marks.Marked() <==> marks.Has(id)
  {
  }

  /** Marks what records of logs above lastLog list; seen is the highest such log. */
  method CatchUp(db: LogStore, marks: ChunkMarks, lastLog: int, lastChunk: int) returns (ok: bool, seen: int)
    requires 0 <= lastChunk && marks.words.Length == lastChunk / 64 + 1
    requires forall logID :: logID in db.bodies ==> logID <= db.lastLog
    modifies marks.words
    ensures ok <==> forall logID :: logID in db.bodies && logID > lastLog ==> Parse(db.bodies[logID]).Some?
    ensures ok ==> CaughtUp(db.Contents(), Collection(old(marks.Marked()), lastLog, lastChunk, 0),
                            Collection(marks.Marked(), seen, lastChunk, 0))
  {
    hide Parse, BodyLists(), MarkedFor();
    seen := lastLog;
    ghost var caught: set<int> := {};
    NothingMarked(db, lastChunk);
    for logID := lastLog + 1 to Max(db.lastLog, lastLog) + 1
      invariant forall k :: k in caught <==> k in db.bodies && lastLog < k < logID
      invariant forall k :: k in caught ==> Parse(db.bodies[k]).Some? && k <= seen
      invariant seen == lastLog || (seen > lastLog && seen in db.bodies)
      invariant forall id :: marks.Has(id) <==> old(marks.Has(id)) || MarkedFor(db, caught, lastChunk, id)
    {
      if logID in db.bodies {
        ok := marks.MarkRecord(db.bodies[logID], lastChunk);
        if !ok {
          return;
        }
        MarkedForMore(db, caught, logID, lastChunk);
        seen := logID;
        caught := caught + {logID};
      }
    }
    ok := true;
    forall id
      ensures id in marks.Marked() <==>
                id in old(marks.Marked()) || (id <= lastChunk && ListedSince(db.Contents(), lastLog, id))
    {
      HasIsMarked(marks, id);
      CaughtIsSince(db, caught, lastLog, lastChunk, id);
    }
  }

  lemma NothingMarked(db: LogStore, highest: int)
    ensures forall id :: !MarkedFor(db, {}, highest, id)
  {
  }

  lemma CaughtIsSince(db: LogStore, caught: set<int>, lastLog: int, highest: int, id: int)
    requires forall k :: k in caught <==> k in db.bodies && lastLog < k
    ensures MarkedFor(db, caught, highest, id) <==> id <= highest && ListedSince(db.Contents(), lastLog, id)
  {
  }

  /** Walks the chunk ids in order, collecting unmarked ones until a batch is full. */
  method FindUnmarked(db: LogStore, marks: ChunkMarks, cursor: int, lastChunk: int)
    returns (doomed: seq<int>, next: int)
    requires 0 <= cursor < lastChunk
    ensures cursor < next <= lastChunk
    ensures forall id :: id in doomed <==> id in db.chunks && cursor < id <= next && !marks.Has(id)
    ensures forall i, j :: 0 <= i < j < |doomed| ==> doomed[i] < doomed[j]
    ensures |doomed| <= CHUNK_SWEEP_BATCH_SIZE
  {
    next := lastChunk;
    doomed := [];
    var scanned := 0;
    for id := cursor + 1 to lastChunk + 1
      invariant next == lastChunk && |doomed| < CHUNK_SWEEP_BATCH_SIZE
      invariant forall k :: k in doomed <==> k in db.chunks && cursor < k < id && !marks.Has(k)
      invariant forall i, j :: 0 <= i < j < |doomed| ==> doomed[i] < doomed[j]
    {
      if id !in db.chunks {
        continue;
      }
      scanned := scanned + 1;
      if !marks.Has(id) {
        assert forall i :: 0 <= i < |doomed| ==> doomed[i] in doomed;
        doomed := doomed + [id];
      }
      if |doomed| == CHUNK_SWEEP_BATCH_SIZE || scanned == CHUNK_SCAN_LIMIT {
        next := id;
        break;
      }
    }
  }

  /** Deletes the chunks, a batch of ids at a time. */
  method DeleteChunks(db: LogStore, doomed: seq<int>)
    modifies db`chunks
    ensures forall id :: id in db.chunks <==> id in old(db.chunks) && id !in doomed
    ensures forall id :: id in db.chunks ==> db.chunks[id] == old(db.chunks)[id]
  {
    var start := 0;
    while start < |doomed|
      invariant 0 <= start
      invariant forall id :: id in db.chunks <==> id in old(db.chunks) && id !in doomed[..Min(start, |doomed|)]
      invariant forall id :: id in db.chunks ==> db.chunks[id] == old(db.chunks)[id]
      decreases |doomed| - start
    {
      var end := Min(start + LOOKUP_BATCH_SIZE, |doomed|);
      var group := set k | start <= k < end :: doomed[k];
      assert doomed[..end] == doomed[..start] + doomed[start..end];
      assert forall id :: id in group <==> id in doomed[start..end];
      db.chunks := db.chunks - group;
      start := start + LOOKUP_BATCH_SIZE;
    }
  }

  /** Catches up, then deletes unmarked chunks above cursor, in one write transaction. */
  method SweepLogChunks(db: LogStore, marks: ChunkMarks, lastLog: int, cursor: int, lastChunk: int)
    returns (ok: bool, deleted: nat, next: int, seen: int)
    requires 0 <= cursor < lastChunk && marks.words.Length == lastChunk / 64 + 1
    requires forall logID :: logID in db.bodies ==> logID <= db.lastLog
    modifies db`chunks, marks.words
    ensures ok <==> forall logID :: logID in db.bodies && logID > lastLog ==> Parse(db.bodies[logID]).Some?
    ensures !ok ==> db.Contents() == old(db.Contents()) && deleted == 0
    ensures ok ==> IsSwept(old(db.Contents()), db.Contents(),
              Collection(old(marks.Marked()), lastLog, lastChunk, cursor),
                           Collection(marks.Marked(), seen, lastChunk, next))
    ensures ok ==> deleted == |old(db.chunks.Keys) - db.chunks.Keys| <= CHUNK_SWEEP_BATCH_SIZE
  {
    hide CaughtUp(), IsSwept(), Parse;
    ghost var before, c := db.Contents(), Collection(marks.Marked(), lastLog, lastChunk, cursor);
    ok, seen := CatchUp(db, marks, lastLog, lastChunk);
    if !ok {
      return false, 0, cursor, lastLog;
    }
    ghost var c' := Collection(marks.Marked(), seen, lastChunk, cursor);
    CaughtUpAnywhere(before, c.(cursor := 0), c'.(cursor := 0), cursor);
    var doomed: seq<int>;
    doomed, next := FindUnmarked(db, marks, cursor, lastChunk);
    DeleteChunks(db, doomed);
    deleted := |doomed|;
    DistinctCount(doomed, before.chunks.Keys - db.chunks.Keys);
    forall id
      ensures id in c'.marks <==> marks.Has(id)
    {
      HasIsMarked(marks, id);
    }
    SweepDone(before, db.Contents(), c, c', next);
  }

  /** Catching up does not look at the cursor. */
  lemma CaughtUpAnywhere(t: Tables, c: Collection, c': Collection, cursor: int)
    requires CaughtUp(t, c, c')
    ensures CaughtUp(t, c.(cursor := cursor), c'.(cursor := cursor))
  {
  }

  lemma SweepDone(t: Tables, t': Tables, c: Collection, c': Collection, next: int)
    requires CaughtUp(t, c, c') && c'.lastChunk == c.lastChunk && c.cursor < next <= c.lastChunk
    requires t' == t.(chunks := t'.chunks)
    requires forall id :: id in t'.chunks <==> id in t.chunks && !(c.cursor < id <= next && id !in c'.marks)
    requires forall id :: id in t'.chunks ==> t'.chunks[id] == t.chunks[id]
    ensures IsSwept(t, t', c, c'.(cursor := next))
  {
    hide BodyLists(), Parse;
  }

  lemma {:induction false} DistinctCount(ids: seq<int>, all: set<int>)
    requires forall i, j :: 0 <= i < j < |ids| ==> ids[i] < ids[j]
    requires forall id :: id in all <==> id in ids
    ensures |ids| == |all|
  {
    if ids != [] {
      var last := ids[|ids| - 1];
      var front := ids[..|ids| - 1];
      assert ids == front + [last];
      forall id
        ensures id in all - {last} <==> id in front
      {
        assert id in ids <==> id in front || id == last;
      }
      assert last in ids;
      DistinctCount(front, all - {last});
    } else if all != {} {
      NonemptyHasMember(all);
    }
  }

  /** Where an undisturbed collection stands: the unlisted chunks up to the cursor are gone. */
  ghost predicate CollectedTo(t: Tables, t': Tables, marks: set<int>, cursor: int) {
    && t' == t.(chunks := t'.chunks)
    && (forall id :: id in marks <==> id <= t.lastChunk && Listed(t, id))
    && (forall id :: id in t'.chunks <==> id in t.chunks && (id > cursor || id in marks))
    && (forall id :: id in t'.chunks ==> t'.chunks[id] == t.chunks[id])
  }

  lemma SweptFurther(t: Tables, mid: Tables, t': Tables, c: Collection, c': Collection)
    requires CollectedTo(t, mid, c.marks, c.cursor) && c.lastChunk == t.lastChunk
    requires IsSwept(mid, t', c, c')
    ensures CollectedTo(t, t', c'.marks, c'.cursor)
  {
  }

  /** Deletes the chunks no stored body lists, and no others. (Here with nothing written meanwhile;
      LogSystem has the interleavings.) */
  method CollectLogChunks(db: LogStore) returns (ok: bool)
    requires TablesSound(db.Contents())
    modifies db`chunks
    ensures ok
    ensures forall id :: id in db.chunks <==> id in old(db.chunks) && Listed(old(db.Contents()), id)
    ensures forall id :: id in db.chunks ==> db.chunks[id] == old(db.chunks)[id]
  {
    hide BodyLists(), IsSwept();
    ghost var before := db.Contents();
    var marks, lastLog, lastChunk;
    ok, marks, lastLog, lastChunk := MarkLogChunks(db);
    if !ok || lastChunk == 0 {
      return;
    }
    var cursor := 0;
    assert CollectedTo(before, db.Contents(), marks.Marked(), 0);
    while cursor < lastChunk
      invariant 0 <= cursor <= lastChunk
      invariant fresh(marks.words)
      invariant ok && forall logID :: logID in db.bodies ==> Parse(db.bodies[logID]).Some?
      invariant CollectedTo(before, db.Contents(), marks.Marked(), cursor)
      decreases lastChunk - cursor
    {
      ghost var mid, c := db.Contents(), Collection(marks.Marked(), lastLog, lastChunk, cursor);
      var deleted, next, seen;
      ok, deleted, next, seen := SweepLogChunks(db, marks, lastLog, cursor, lastChunk);
      if !ok {
        return;
      }
      ghost var c' := Collection(marks.Marked(), seen, lastChunk, next);
      SweptFurther(before, mid, db.Contents(), c, c');
      SweptRange(mid, db.Contents(), c, c');
      cursor, lastLog := next, seen;
    }
  }

  lemma SweptRange(t: Tables, t': Tables, c: Collection, c': Collection)
    requires IsSwept(t, t', c, c')
    ensures c.cursor < c'.cursor <= c.lastChunk
  {
  }
}
