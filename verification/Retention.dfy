/** The cache that reads the tables of module `Storage`, the retention sweep, and what they promise
    over whole runs: sweeps never change what a cache reader sees, the full-text index never holds an
    orphan, and with zero retention nothing is ever stored. */
module Retention {
  import opened Wrappers
  import opened Storage

  // ---------- Reading and writing the cache ----------

  /** The value a reader gets: rows at or past their expiry are as good as absent. */
  function Lookup(cache: map<CacheKey, CacheRow>, key: CacheKey, now: Instant): Option<string> {
    if key in cache && cache[key].expiresAt > now then Some(cache[key].value) else None
  }

  /** The time to live of a pipeline write: given in minutes, or the whole retention period. */
  function TimeToLive(retentionDays: int, minutes: Option<nat>): int {
    if minutes.Some? then minutes.value * MINUTE else retentionDays * DAY
  }

  /** A cached value is found until it expires, unless the gate was closed; other keys are found as before. */
  lemma StoredIsFound(t: Tables, open: bool, key: CacheKey, value: string, ttl: int, now: Instant, later: Instant,
                      other: CacheKey)
    ensures var after := Gated(t, open, InsertCacheEntry(key, CacheRow(value, now, now + ttl))).cache;
            && (open ==> Lookup(after, key, later) == if later < now + ttl then Some(value) else None)
            && (!open ==> Lookup(after, key, later) == Lookup(t.cache, key, later))
            && (other != key ==> Lookup(after, other, later) == Lookup(t.cache, other, later))
  {
  }

  /** A deleted key is not found, whether the gate is open or not. */
  lemma DeletedIsNotFound(t: Tables, open: bool, key: CacheKey, later: Instant, other: CacheKey)
    ensures var after := Gated(t, open, DeleteCacheEntry(key)).cache;
            && Lookup(after, key, later) == None
            && (other != key ==> Lookup(after, other, later) == Lookup(t.cache, other, later))
  {
  }

  class Cache {
    const database: Database
    var hits: nat
    var misses: nat

    constructor (database: Database)
      ensures this.database == database && hits == 0 && misses == 0
    {
      this.database := database;
      hits, misses := 0, 0;
    }

    method Get(key: CacheKey, now: Instant) returns (value: Option<string>)
      modifies this
      ensures value == Lookup(database.cache, key, now)
      ensures hits == old(hits) + (if value.Some? then 1 else 0)
      ensures misses == old(misses) + (if value.Some? then 0 else 1)
    {
      if key !in database.cache || database.cache[key].expiresAt <= now {
        misses := misses + 1;
        return None;
      }
      hits := hits + 1;
      value := Some(database.cache[key].value);
    }

    method Put(key: CacheKey, value: string, ttl: int, now: Instant)
      modifies database
      ensures database.View() ==
                Gated(old(database.View()), old(database.queryDataPersistence),
                      InsertCacheEntry(key, CacheRow(value, now, now + ttl)))
    {
      database.Execute(InsertCacheEntry(key, CacheRow(value, now, now + ttl)));
    }

    method Delete(key: CacheKey)
      modifies database
      ensures database.View() == old(database.View()).(cache := old(database.cache) - {key})
    {
      database.Execute(DeleteCacheEntry(key));
    }
  }

  function SweptAt(t: Tables, retentionDays: int, now: Instant): Tables {
    Swept(t, now, now - retentionDays * DAY, retentionDays == 0)
  }

  method CleanExpired(database: Database, retentionDays: int, now: Instant) returns (cacheDeleted: int)
    modifies database
    ensures database.View() == SweptAt(old(database.View()), retentionDays, now)
    ensures cacheDeleted == |old(database.View()).cache| - |database.View().cache|
  {
    var cutoff := now - retentionDays * DAY;
    cacheDeleted := database.CleanRetainedQueryData(now, cutoff, retentionDays == 0);
  }

  // ---------- What one sweep keeps ----------

  lemma {:induction false} KeptRows(rows: seq<IndexRow>, keep: set<string>, row: IndexRow)
    ensures row in KeepRows(rows, keep) <==> row in rows && row.evidenceId in keep
  {
    if rows != [] {
      KeptRows(rows[1..], keep, row);
      assert row in rows <==> row == rows[0] || row in rows[1..];
    }
  }

  /** After a sweep that is not a purge exactly the unexpired records remain, with exactly the index
      rows that belong to them. */
  lemma SweepKeepsExactlyTheUnexpired(t: Tables, retentionDays: int, now: Instant)
    requires retentionDays != 0
    ensures var s := SweptAt(t, retentionDays, now);
            && (forall id :: id in s.records <==> id in t.records && t.records[id] > now)
            && (forall id :: id in s.records ==> s.records[id] == t.records[id])
            && (forall row :: row in s.index <==>
                  row in t.index && row.evidenceId in t.records && t.records[row.evidenceId] > now)
            && (forall id :: id in s.requests <==> id in t.requests && t.requests[id] > now - retentionDays * DAY)
  {
    var s := SweptAt(t, retentionDays, now);
    forall row
      ensures row in s.index <==> row in t.index && row.evidenceId in t.records && t.records[row.evidenceId] > now
    {
      KeptRows(t.index, s.records.Keys, row);
    }
  }

  /** A sweep goes unnoticed by every later reader exactly when each row old enough to be swept for
      its age has also expired. */
  lemma SweepIsInvisibleIff(t: Tables, retentionDays: int, now: Instant)
    requires retentionDays != 0
    ensures (forall key, later :: now <= later ==>
              Lookup(SweptAt(t, retentionDays, now).cache, key, later) == Lookup(t.cache, key, later))
            <==> (forall key :: key in t.cache && t.cache[key].createdAt <= now - retentionDays * DAY ==>
                    t.cache[key].expiresAt <= now)
  {
    var s := SweptAt(t, retentionDays, now);
    if key :| key in t.cache && t.cache[key].createdAt <= now - retentionDays * DAY && t.cache[key].expiresAt > now {
      assert Lookup(s.cache, key, now) != Lookup(t.cache, key, now);
    }
  }

  // ---------- Sweeps and cache readers, over whole runs ----------

  datatype CacheOp =
    | Get(key: CacheKey)
    | Put(key: CacheKey, value: string, minutes: Option<nat>)
    | Delete(key: CacheKey)
    | Sweep

  datatype Timed = Timed(at: Instant, op: CacheOp)

  /** What a run leaves behind: the tables, the counters, and the reply to every read. */
  datatype CacheRun = CacheRun(tables: Tables, hits: nat, misses: nat, replies: seq<Option<string>>)

  function After(r: CacheRun, retentionDays: int, step: Timed): CacheRun {
    match step.op
    case Get(key) =>
      var reply := Lookup(r.tables.cache, key, step.at);
      CacheRun(r.tables, r.hits + (if reply.Some? then 1 else 0), r.misses + (if reply.Some? then 0 else 1),
               r.replies + [reply])
    case Put(key, value, minutes) =>
      if retentionDays <= 0 then r
      else
        var row := CacheRow(value, step.at, step.at + TimeToLive(retentionDays, minutes));
        r.(tables := Executed(r.tables, InsertCacheEntry(key, row)))
    case Delete(key) => r.(tables := Executed(r.tables, DeleteCacheEntry(key)))
    case Sweep => r.(tables := SweptAt(r.tables, retentionDays, step.at))
  }

  function AfterAll(r: CacheRun, retentionDays: int, steps: seq<Timed>): CacheRun {
    if steps == [] then r
    else After(AfterAll(r, retentionDays, steps[..|steps| - 1]), retentionDays, steps[|steps| - 1])
  }

  function WithoutSweeps(steps: seq<Timed>): seq<Timed> {
    if steps == [] then []
    else
      var last := steps[|steps| - 1];
      WithoutSweeps(steps[..|steps| - 1]) + if last.op.Sweep? then [] else [last]
  }

  /** The clock never runs backwards, and no write outlives a day unless it lives for the retention. */
  ghost predicate Orderly(start: Instant, steps: seq<Timed>) {
    && (forall i :: 0 <= i < |steps| ==> start <= steps[i].at)
    && (forall i, j :: 0 <= i < j < |steps| ==> steps[i].at <= steps[j].at)
    && (forall i :: 0 <= i < |steps| && steps[i].op.Put? && steps[i].op.minutes.Some? ==>
          steps[i].op.minutes.value * MINUTE <= DAY)
  }

  ghost predicate TtlWithin(cache: map<CacheKey, CacheRow>, retentionDays: int) {
    forall key :: key in cache ==> cache[key].expiresAt <= cache[key].createdAt + retentionDays * DAY
  }

  /** Two caches that no reader can tell apart from `now` on. */
  ghost predicate LookAlike(a: map<CacheKey, CacheRow>, b: map<CacheKey, CacheRow>, now: Instant) {
    forall key, later :: now <= later ==> Lookup(a, key, later) == Lookup(b, key, later)
  }

  ghost predicate SameToReaders(a: CacheRun, b: CacheRun, now: Instant) {
    a.hits == b.hits && a.misses == b.misses && a.replies == b.replies && LookAlike(a.tables.cache, b.tables.cache, now)
  }

  lemma OtherStepsKeepLookAlike(a: CacheRun, b: CacheRun, retentionDays: int, step: Timed)
    requires retentionDays > 0 && TtlWithin(a.tables.cache, retentionDays) && SameToReaders(a, b, step.at)
    requires !step.op.Sweep?
    requires step.op.Put? && step.op.minutes.Some? ==> step.op.minutes.value * MINUTE <= DAY
    ensures SameToReaders(After(a, retentionDays, step), After(b, retentionDays, step), step.at)
    ensures TtlWithin(After(a, retentionDays, step).tables.cache, retentionDays)
  {
    var a', b' := After(a, retentionDays, step), After(b, retentionDays, step);
    forall key, later | step.at <= later
      ensures Lookup(a'.tables.cache, key, later) == Lookup(b'.tables.cache, key, later)
    {
      assert Lookup(a.tables.cache, key, later) == Lookup(b.tables.cache, key, later);
    }
    if step.op.Get? {
      assert Lookup(a.tables.cache, step.op.key, step.at) == Lookup(b.tables.cache, step.op.key, step.at);
    }
  }

  lemma {:induction false} RunsLookAlike(r: CacheRun, retentionDays: int, start: Instant, steps: seq<Timed>,
                                         now: Instant)
    requires retentionDays > 0 && TtlWithin(r.tables.cache, retentionDays) && Orderly(start, steps)
    requires start <= now && forall i :: 0 <= i < |steps| ==> steps[i].at <= now
    ensures SameToReaders(AfterAll(r, retentionDays, steps), AfterAll(r, retentionDays, WithoutSweeps(steps)), now)
    ensures TtlWithin(AfterAll(r, retentionDays, steps).tables.cache, retentionDays)
    decreases |steps|
  {
    if steps != [] {
      var last, before := steps[|steps| - 1], steps[..|steps| - 1];
      RunsLookAlike(r, retentionDays, start, before, last.at);
      var a, b := AfterAll(r, retentionDays, before), AfterAll(r, retentionDays, WithoutSweeps(before));
      if last.op.Sweep? {
        assert WithoutSweeps(steps) == WithoutSweeps(before);
      } else {
        OtherStepsKeepLookAlike(a, b, retentionDays, last);
        assert WithoutSweeps(steps)[..|WithoutSweeps(before)|] == WithoutSweeps(before);
      }
    }
  }

  /** However many sweeps run, and whenever, every read returns the same value and the hit and miss
      counters end the same as if no sweep had run at all. */
  lemma SweepsAreInvisible(r: CacheRun, retentionDays: int, start: Instant, steps: seq<Timed>)
    requires retentionDays > 0 && TtlWithin(r.tables.cache, retentionDays) && Orderly(start, steps)
    ensures var swept, unswept := AfterAll(r, retentionDays, steps), AfterAll(r, retentionDays, WithoutSweeps(steps));
            swept.replies == unswept.replies && swept.hits == unswept.hits && swept.misses == unswept.misses
  {
    RunsLookAlike(r, retentionDays, start, steps, if steps == [] then start else steps[|steps| - 1].at);
  }

  // ---------- The other tables, over whole runs ----------

  /** Everything that touches the tables. A request is recorded in two transactions, and a sweep on
      another thread can fall between them. */
  datatype StorageEvent =
    | RecordRequest(requestId: string, rows: seq<IndexRow>, at: Instant, sweptBetween: Option<Instant>)
    | CacheWrite(key: CacheKey, row: CacheRow)
    | CacheDelete(key: CacheKey)
    | RetentionSweep(at: Instant)
    | ClearData(namespaces: seq<string>)

  function Recorded(t: Tables, retentionDays: int, e: StorageEvent): Tables
    requires e.RecordRequest?
  {
    var open := retentionDays > 0;
    var t1 := Gated(t, open, InsertRequest(e.requestId, e.at));
    var t2 := Gated(t1, open, InsertEvidenceRecords(EvidenceIds(e.rows), e.at + retentionDays * DAY));
    var t3 := if e.sweptBetween.Some? then SweptAt(t2, retentionDays, e.sweptBetween.value) else t2;
    Gated(t3, open, InsertEvidenceIndex(e.rows))
  }

  function Happened(t: Tables, retentionDays: int, e: StorageEvent): Tables {
    match e
    case RecordRequest(_, _, _, _) => Recorded(t, retentionDays, e)
    case CacheWrite(key, row) => Gated(t, retentionDays > 0, InsertCacheEntry(key, row))
    case CacheDelete(key) => Gated(t, retentionDays > 0, DeleteCacheEntry(key))
    case RetentionSweep(at) => SweptAt(t, retentionDays, at)
    case ClearData(namespaces) => Cleared(t, namespaces)
  }

  function HappenedAll(t: Tables, retentionDays: int, es: seq<StorageEvent>): Tables
    decreases |es|
  {
    if es == [] then t else HappenedAll(Happened(t, retentionDays, es[0]), retentionDays, es[1..])
  }

  predicate OrphanFree(t: Tables) {
    forall row :: row in t.index ==> row.evidenceId in t.records
  }

  /** A sweep that falls between the two transactions of a request leaves its records alone. */
  predicate Timely(retentionDays: int, e: StorageEvent) {
    e.RecordRequest? ==>
      retentionDays <= 0 || e.rows == [] || e.sweptBetween.None? || e.sweptBetween.value < e.at + retentionDays * DAY
  }

  /** A sweep leaves no orphan, whatever it found. */
  lemma SweepLeavesNoOrphan(t: Tables, retentionDays: int, now: Instant)
    ensures OrphanFree(SweptAt(t, retentionDays, now))
  {
    var s := SweptAt(t, retentionDays, now);
    forall row | row in s.index ensures row.evidenceId in s.records {
      KeptRows(t.index, s.records.Keys, row);
    }
  }

  /** The tables after the first transaction: every row about to be indexed has its record. */
  lemma RecordsComeFirst(t: Tables, rows: seq<IndexRow>, ids: seq<string>, expires: Instant)
    requires OrphanFree(t) && |ids| == |rows| && forall i :: 0 <= i < |rows| ==> ids[i] == rows[i].evidenceId
    ensures var t' := Executed(t, InsertEvidenceRecords(ids, expires));
            && OrphanFree(t')
            && forall row :: row in rows ==> row.evidenceId in t'.records && t'.records[row.evidenceId] == expires
  {
    var t' := Executed(t, InsertEvidenceRecords(ids, expires));
    forall row | row in rows ensures row.evidenceId in t'.records && t'.records[row.evidenceId] == expires {
      var i :| 0 <= i < |rows| && rows[i] == row;
      assert ids[i] == row.evidenceId;
    }
  }

  lemma InterruptedIndexing(t: Tables, retentionDays: int, rows: seq<IndexRow>, expires: Instant, now: Instant)
    requires retentionDays > 0 && OrphanFree(t)
    requires forall row :: row in rows ==> row.evidenceId in t.records && t.records[row.evidenceId] == expires
    ensures OrphanFree(Executed(SweptAt(t, retentionDays, now), InsertEvidenceIndex(rows)))
            <==> rows == [] || now < expires
  {
    var s := SweptAt(t, retentionDays, now);
    SweepLeavesNoOrphan(t, retentionDays, now);
    assert rows != [] ==> rows[0] in rows;
    assert forall row :: row in rows ==> (row.evidenceId in s.records <==> expires > now);
  }

  function EvidenceIds(rows: seq<IndexRow>): seq<string> {
    seq(|rows|, i requires 0 <= i < |rows| => rows[i].evidenceId)
  }

  /** The tables after the first transaction of a request, with the gate open. */
  function WithRecords(t: Tables, retentionDays: int, requestId: string, at: Instant, rows: seq<IndexRow>): Tables {
    Executed(Executed(t, InsertRequest(requestId, at)),
      InsertEvidenceRecords(EvidenceIds(rows), at + retentionDays * DAY))
  }

  ghost predicate Backed(t: Tables, rows: seq<IndexRow>, expires: Instant) {
    OrphanFree(t) && forall row :: row in rows ==> row.evidenceId in t.records && t.records[row.evidenceId] == expires
  }

  lemma WithRecordsBacks(t: Tables, retentionDays: int, requestId: string, at: Instant, rows: seq<IndexRow>)
    requires OrphanFree(t)
    ensures Backed(WithRecords(t, retentionDays, requestId, at, rows), rows, at + retentionDays * DAY)
  {
    RecordsComeFirst(Executed(t, InsertRequest(requestId, at)), rows, EvidenceIds(rows), at + retentionDays * DAY);
  }

  /** The index rows of the second transaction, with or without a sweep in between. */
  lemma IndexingAfterASweep(t: Tables, retentionDays: int, rows: seq<IndexRow>, expires: Instant,
                            sweep: Option<Instant>)
    requires retentionDays > 0 && Backed(t, rows, expires)
    ensures var t3 := if sweep.Some? then SweptAt(t, retentionDays, sweep.value) else t;
            OrphanFree(Executed(t3, InsertEvidenceIndex(rows))) <==> rows == [] || sweep.None? || sweep.value < expires
  {
    if sweep.Some? {
      InterruptedIndexing(t, retentionDays, rows, expires, sweep.value);
    }
  }

  lemma RecordedWhenOpen(t: Tables, retentionDays: int, e: StorageEvent)
    requires retentionDays > 0 && e.RecordRequest?
    ensures var t2 := WithRecords(t, retentionDays, e.requestId, e.at, e.rows);
            var t3 := if e.sweptBetween.Some? then SweptAt(t2, retentionDays, e.sweptBetween.value) else t2;
            Recorded(t, retentionDays, e) == Executed(t3, InsertEvidenceIndex(e.rows))
  {
  }

  /** Recording a request keeps the index orphan-free exactly when no sweep past the records' own
      expiry falls between its two transactions. */
  lemma RecordingIsOrphanFreeIff(t: Tables, retentionDays: int, e: StorageEvent)
    requires retentionDays >= 0 && OrphanFree(t) && e.RecordRequest?
    ensures OrphanFree(Recorded(t, retentionDays, e)) <==> Timely(retentionDays, e)
  {
    if retentionDays > 0 {
      RecordedWhenOpen(t, retentionDays, e);
      WithRecordsBacks(t, retentionDays, e.requestId, e.at, e.rows);
      IndexingAfterASweep(WithRecords(t, retentionDays, e.requestId, e.at, e.rows), retentionDays, e.rows,
                          e.at + retentionDays * DAY, e.sweptBetween);
    } else if e.sweptBetween.Some? {
      SweepLeavesNoOrphan(t, retentionDays, e.sweptBetween.value);
    }
  }

  lemma {:induction false} ClearingLeavesNoOrphan(t: Tables, namespaces: seq<string>)
    requires OrphanFree(t)
    ensures OrphanFree(Cleared(t, namespaces))
    decreases |namespaces|
  {
    if namespaces != [] { ClearingLeavesNoOrphan(ClearedOne(t, namespaces[0]), namespaces[1..]); }
  }

  /** A sweep at the expiry of the records just inserted leaves their index rows without records. */
  lemma LateSweepLeavesAnOrphan(retentionDays: int, row: IndexRow, at: Instant)
    requires retentionDays > 0
    ensures var late := RecordRequest("req", [row], at, Some(at + retentionDays * DAY));
            !Timely(retentionDays, late) && !OrphanFree(Happened(EMPTY, retentionDays, late))
  {
    RecordingIsOrphanFreeIff(EMPTY, retentionDays, RecordRequest("req", [row], at, Some(at + retentionDays * DAY)));
  }

  /** In every reachable state each full-text row has its evidence record. */
  lemma {:induction false} IndexIsNeverOrphaned(t: Tables, retentionDays: int, es: seq<StorageEvent>)
    requires retentionDays >= 0 && OrphanFree(t) && forall e :: e in es ==> Timely(retentionDays, e)
    ensures OrphanFree(HappenedAll(t, retentionDays, es))
    decreases |es|
  {
    if es != [] {
      match es[0] {
        case RecordRequest(_, _, _, _) => RecordingIsOrphanFreeIff(t, retentionDays, es[0]);
        case RetentionSweep(at) => SweepLeavesNoOrphan(t, retentionDays, at);
        case ClearData(namespaces) => ClearingLeavesNoOrphan(t, namespaces);
        case CacheWrite(_, _) =>
        case CacheDelete(_) =>
      }
      IndexIsNeverOrphaned(Happened(t, retentionDays, es[0]), retentionDays, es[1..]);
    }
  }

  lemma {:induction false} ClearingEmptyTables(namespaces: seq<string>)
    ensures Cleared(EMPTY, namespaces) == EMPTY
    decreases |namespaces|
  {
    if namespaces != [] {
      assert ClearedOne(EMPTY, namespaces[0]) == EMPTY;
      ClearingEmptyTables(namespaces[1..]);
    }
  }

  lemma {:induction false} EmptyTablesStayEmpty(es: seq<StorageEvent>)
    ensures HappenedAll(EMPTY, 0, es) == EMPTY
    decreases |es|
  {
    if es != [] {
      if es[0].ClearData? { ClearingEmptyTables(es[0].namespaces); }
      assert Happened(EMPTY, 0, es[0]) == EMPTY;
      EmptyTablesStayEmpty(es[1..]);
    }
  }

  /** With zero retention the first sweep empties all four tables and nothing fills them again. */
  lemma ZeroRetentionStoresNothing(t: Tables, at: Instant, es: seq<StorageEvent>)
    ensures HappenedAll(t, 0, [RetentionSweep(at)] + es) == EMPTY
  {
    assert ([RetentionSweep(at)] + es)[1..] == es;
    EmptyTablesStayEmpty(es);
  }
}
