/** One write transaction: a batch of log rows, their snapshots, and nothing if any of it fails. */
module LogWriter {
  import opened Words
  import opened Chunking
  import opened LogRecord
  import opened Prepare
  import opened LogTables
  import opened LogStore

  ghost predicate SameRow(t: Tables, t': Tables, logID: int) {
    && (logID in t.snapshots <==> logID in t'.snapshots)
    && (logID in t.snapshots ==> t.snapshots[logID] == t'.snapshots[logID])
    && (logID in t.bodies <==> logID in t'.bodies)
    && (logID in t.bodies ==> t.bodies[logID] == t'.bodies[logID])
  }

  /** The rows were inserted under the next log ids, each reads back as captured, chunks were only
      added, and everything that was there is as it was. */
  ghost predicate BatchWritten(t: Tables, t': Tables, rows: seq<Snapshots>) {
    && ChunksGrew(t, t') && ChunksSound(t')
    && t'.lastLog == t.lastLog + |rows|
    && (forall id :: id in t'.logs <==> id in t.logs || t.lastLog < id <= t'.lastLog)
    && (forall id :: id <= t.lastLog ==> SameRow(t, t', id))
    && (forall id :: id > t'.lastLog ==> id !in t'.snapshots && id !in t'.bodies)
    && (forall i :: 0 <= i < |rows| ==> RowStored(t', t.lastLog + 1 + i, rows[i]))
  }

  /** Adding chunks changes nothing about a stored row. */
  lemma RowStoredStable(t: Tables, t': Tables, logID: int, row: Snapshots)
    requires RowStored(t, logID, row) && ChunksGrew(t, t') && SameRow(t, t', logID)
    ensures RowStored(t', logID, row)
  {
    if logID in t.snapshots {
      forall slot | 0 <= slot < SLOT_COUNT
        ensures ShownSlot(t', logID, slot) == ExpectedSlot(row[slot])
      {
        ReadStable(t, t', logID, slot);
        assert ShownSlot(t, logID, slot) == ExpectedSlot(row[slot]);
      }
    } else {
      assert forall slot :: 0 <= slot < SLOT_COUNT ==>
        ShownSlot(t', logID, slot) == ShownSlot(t, logID, slot) == ExpectedSlot(row[slot]);
    }
  }

  lemma NothingWritten(t: Tables)
    requires ChunksSound(t) && LogsSound(t)
    ensures BatchWritten(t, t, [])
  {
  }

  lemma OneRowMore(t: Tables, mid: Tables, t': Tables, rows: seq<Snapshots>, row: Snapshots)
    requires BatchWritten(t, mid, rows) && LogsSound(t)
    requires ChunksGrew(mid, t') && ChunksSound(t')
    requires t'.lastLog == mid.lastLog + 1 && t'.logs == mid.logs + {t'.lastLog}
    requires forall id :: id != t'.lastLog ==> SameRow(mid, t', id)
    requires RowStored(t', t'.lastLog, row)
    ensures BatchWritten(t, t', rows + [row])
  {
    hide RowStored();
    ChunksGrewTwice(t, mid, t');
    forall i | 0 <= i < |rows + [row]|
      ensures RowStored(t', t.lastLog + 1 + i, (rows + [row])[i])
    {
      if i < |rows| {
        assert RowStored(mid, t.lastLog + 1 + i, rows[i]);
        RowStoredStable(mid, t', t.lastLog + 1 + i, rows[i]);
      }
    }
    forall id | id <= t.lastLog
      ensures SameRow(t, t', id)
    {
      assert SameRow(t, mid, id) && SameRow(mid, t', id);
    }
    forall id | id > t'.lastLog
      ensures id !in t'.snapshots && id !in t'.bodies
    {
      assert SameRow(mid, t', id);
    }
  }

  /** Id numbers are left for these rows and all their chunks. */
  ghost predicate IdsLeft(t: Tables, prepared: seq<Prepared>) {
    t.lastLog + |prepared| < TWO_63 && t.lastChunk + TotalChunks(prepared) < TWO_63
  }

  ghost function TotalChunks(prepared: seq<Prepared>): nat {
    if prepared == [] then 0 else ChunkCount(prepared[0]) + TotalChunks(prepared[1..])
  }

  lemma {:induction false} TotalGrows(prepared: seq<Prepared>, i: nat)
    requires i < |prepared|
    ensures TotalChunks(prepared[..i + 1]) ==
              TotalChunks(prepared[..i]) + ChunkCount(prepared[i]) <= TotalChunks(prepared)
  {
    if i == 0 {
      assert prepared[..1] == [prepared[0]] && prepared[..0] == [];
      assert prepared[..1][1..] == [];
    } else {
      TotalGrows(prepared[1..], i - 1);
      assert prepared[..i + 1][1..] == prepared[1..][..i] && prepared[..i][1..] == prepared[1..][..i - 1];
    }
  }

  /** Inserts one row under the next id; it fails when the ids run out. */
  method InsertRow(db: LogStore, payloads: PayloadStore, gear: Gear, row: Snapshots, p: Prepared,
                   ghost start: Tables, ghost rows: seq<Snapshots>)
    returns (ok: bool)
    requires payloads.db == db && payloads.Valid() && LogsSound(start) && BatchWritten(start, db.Contents(), rows)
    requires RowCapturable(row) && IsPrepared(gear, row, p)
    modifies db, payloads
    ensures ok ==> payloads.Valid() && BatchWritten(start, db.Contents(), rows + [row])
    ensures ok ==> db.lastChunk <= old(db.lastChunk) + ChunkCount(p)
    ensures !ok ==> old(db.lastLog) >= TWO_63 - 1 || old(db.lastChunk) + ChunkCount(p) >= TWO_63
    ensures ok ==> db.lastLog < TWO_63
  {
    hide RowStored(), IsPrepared(), ChunksGrew(), RowCapturable, ChunkCount(), BatchWritten(), LogsSound();
    ghost var mid := db.Contents();
    NextIsFree(start, mid, rows);
    if db.lastLog >= TWO_63 - 1 {
      return false;
    }
    db.lastLog := db.lastLog + 1;
    db.logs := db.logs + {db.lastLog};
    ok := payloads.Store(db.lastLog, row, p, false, gear);
    if ok {
      ghost var now := db.Contents();
      assert forall id :: id != now.lastLog ==> SameRow(mid, now, id);
      OneRowMoreIgnoringLogs(start, mid, now, rows, row);
    }
  }

  /** Inserts a batch of rows, prepared beforehand, in one transaction. */
  method InsertLogBatch(db: LogStore, gear: Gear, rows: seq<Snapshots>, prepared: seq<Prepared>) returns (ok: bool)
    requires TablesSound(db.Contents())
    requires |prepared| == |rows|
    requires forall i :: 0 <= i < |rows| ==> RowCapturable(rows[i]) && IsPrepared(gear, rows[i], prepared[i])
    modifies db
    ensures ok ==> BatchWritten(old(db.Contents()), db.Contents(), rows) && (rows != [] ==> db.lastLog < TWO_63)
    ensures !ok ==> db.Contents() == old(db.Contents()) && !IdsLeft(old(db.Contents()), prepared)
  {
    hide IsPrepared(), NothingMissing(), RowCapturable, ChunkCount(), BatchWritten(), LogsSound();
    var chunks, lastChunk := db.chunks, db.lastChunk;
    var logs, lastLog := db.logs, db.lastLog;
    var snapshots, bodies := db.snapshots, db.bodies;
    NothingWritten(db.Contents());
    var payloads := new PayloadStore(db);
    for i := 0 to |rows|
      invariant payloads.Valid() && BatchWritten(old(db.Contents()), db.Contents(), rows[..i])
      invariant fresh(payloads) && payloads.db == db
      invariant db.lastChunk <= old(db.lastChunk) + TotalChunks(prepared[..i])
      invariant i > 0 ==> db.lastLog < TWO_63
    {
      NextIsFree(old(db.Contents()), db.Contents(), rows[..i]);
      TotalGrows(prepared, i);
      ok := InsertRow(db, payloads, gear, rows[i], prepared[i], old(db.Contents()), rows[..i]);
      if !ok {
        db.chunks, db.lastChunk := chunks, lastChunk;
        db.logs, db.lastLog := logs, lastLog;
        db.snapshots, db.bodies := snapshots, bodies;
        return;
      }
      assert rows[..i + 1] == rows[..i] + [rows[i]];
    }
    assert rows[..|rows|] == rows;
    return true;
  }

  lemma NextIsFree(t: Tables, mid: Tables, rows: seq<Snapshots>)
    requires BatchWritten(t, mid, rows)
    ensures mid.lastLog == t.lastLog + |rows| && ChunksSound(mid)
    ensures mid.lastLog + 1 !in mid.snapshots && mid.lastLog + 1 !in mid.bodies
  {
  }

  /** OneRowMore, where the chunks grew from the tables that already name the new log. */
  lemma OneRowMoreIgnoringLogs(t: Tables, mid: Tables, t': Tables, rows: seq<Snapshots>, row: Snapshots)
    requires BatchWritten(t, mid, rows) && LogsSound(t)
    requires ChunksGrew(mid.(lastLog := t'.lastLog, logs := t'.logs), t') && ChunksSound(t')
    requires t'.lastLog == mid.lastLog + 1 && t'.logs == mid.logs + {t'.lastLog}
    requires forall id :: id != t'.lastLog ==> SameRow(mid, t', id)
    requires RowStored(t', t'.lastLog, row)
    ensures BatchWritten(t, t', rows + [row])
  {
    OneRowMore(t, mid, t', rows, row);
  }

  /** A batch keeps the tables sound. */
  lemma BatchKeepsSound(t: Tables, t': Tables, rows: seq<Snapshots>)
    requires TablesSound(t) && BatchWritten(t, t', rows)
    ensures TablesSound(t')
  {
    hide Parse;
    forall logID | logID in t'.snapshots || logID in t'.bodies
      ensures logID in t'.logs
      ensures logID in t'.bodies ==> logID in t'.snapshots && !t'.snapshots[logID].cleared
      ensures logID in t'.bodies ==> Parse(t'.bodies[logID]).Some?
      ensures logID in t'.bodies ==> forall id :: BodyLists(t'.bodies[logID], id) ==> id in t'.chunks
    {
      if logID <= t.lastLog {
        assert SameRow(t, t', logID);
      } else {
        assert RowStored(t', t.lastLog + 1 + (logID - t.lastLog - 1), rows[logID - t.lastLog - 1]);
      }
    }
  }
}
