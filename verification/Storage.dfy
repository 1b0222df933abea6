/** The query-derived tables, the write gate in front of them, and the retention sweep. */
module Storage {
  import opened Wrappers

  // SQL tables are maps from primary key to row, except the full-text index, which has no key and is a
  // sequence of rows. Timestamps are readings of the wall clock; ISO-8601 strings with one UTC offset
  // sort like the instants they denote.

  type Instant = int
  type CacheKey = (string, string)

  const DAY := 86_400
  const MINUTE := 60

  datatype CacheRow = CacheRow(value: string, createdAt: Instant, expiresAt: Instant)
  datatype IndexRow = IndexRow(evidenceId: string, text: string)

  datatype Tables = Tables(
    cache: map<CacheKey, CacheRow>,
    requests: map<string, Instant>,
    records: map<string, Instant>,
    index: seq<IndexRow>)

  const EMPTY := Tables(map[], map[], map[], [])

  datatype Statement =
    | InsertCacheEntry(key: CacheKey, row: CacheRow)
    | InsertRequest(requestId: string, createdAt: Instant)
    | InsertEvidenceRecords(recordIds: seq<string>, expiresAt: Instant)
    | InsertEvidenceIndex(rows: seq<IndexRow>)
    | DeleteCacheEntry(cacheKey: CacheKey)

  // ---------- What the statements do ----------

  /** The statements the gate recognises as inserts into a query-derived table. */
  predicate IsQueryDataInsert(sql: Statement) {
    !sql.DeleteCacheEntry?
  }

  predicate IsPermitted(persistence: bool, sql: Statement) {
    persistence || !IsQueryDataInsert(sql)
  }

  function Executed(t: Tables, sql: Statement): Tables {
    match sql
    case InsertCacheEntry(key, row) => t.(cache := t.cache[key := row])
    case InsertRequest(id, at) => t.(requests := t.requests[id := at])
    case InsertEvidenceRecords(ids, expires) =>
      t.(records := t.records + map id | id in ids :: expires)
    case InsertEvidenceIndex(rows) => t.(index := t.index + rows)
    case DeleteCacheEntry(key) => t.(cache := t.cache - {key})
  }

  function Gated(t: Tables, persistence: bool, sql: Statement): Tables {
    if IsPermitted(persistence, sql) then Executed(t, sql) else t
  }

  /** Index rows whose id is kept, in order. */
  function KeepRows(rows: seq<IndexRow>, keep: set<string>): seq<IndexRow> {
    if rows == [] then []
    else if rows[0].evidenceId in keep then [rows[0]] + KeepRows(rows[1..], keep)
    else KeepRows(rows[1..], keep)
  }

  /** Index rows whose id is not dropped, in order. */
  function DropRows(rows: seq<IndexRow>, drop: set<string>): seq<IndexRow> {
    if rows == [] then []
    else if rows[0].evidenceId !in drop then [rows[0]] + DropRows(rows[1..], drop)
    else DropRows(rows[1..], drop)
  }

  function Unexpired(records: map<string, Instant>, now: Instant): map<string, Instant> {
    map id | id in records && records[id] > now :: records[id]
  }

  /** The tables after a sweep: expired and aged rows are gone, and so is every index row without a
      record; a purge empties everything. */
  function Swept(t: Tables, now: Instant, requestCutoff: Instant, purgeAll: bool): Tables {
    if purgeAll then EMPTY
    else
      var records := Unexpired(t.records, now);
      Tables(
        map k | k in t.cache && t.cache[k].expiresAt > now && t.cache[k].createdAt > requestCutoff :: t.cache[k],
        map id | id in t.requests && t.requests[id] > requestCutoff :: t.requests[id],
        records,
        KeepRows(t.index, records.Keys))
  }

  const CACHE_NAMESPACES: set<string> := {"search", "pages", "extracted", "robots", "failures"}

  function WithoutNamespace(cache: map<CacheKey, CacheRow>, namespace: string): map<CacheKey, CacheRow> {
    map k | k in cache && k.0 != namespace :: cache[k]
  }

  function ClearedOne(t: Tables, namespace: string): Tables {
    if namespace == "history" then t.(requests := map[])
    else if namespace == "evidence" then
      Tables(WithoutNamespace(t.cache, namespace), t.requests, map[], [])
    else if namespace in CACHE_NAMESPACES then t.(cache := WithoutNamespace(t.cache, namespace))
    else t
  }

  function Cleared(t: Tables, namespaces: seq<string>): Tables
    decreases |namespaces|
  {
    if namespaces == [] then t
    else Cleared(ClearedOne(t, namespaces[0]), namespaces[1..])
  }

  /** Clearing namespaces removes the cache rows of those named, and no others. */
  lemma {:induction false} ClearedCache(t: Tables, namespaces: seq<string>, k: CacheKey)
    ensures var after := Cleared(t, namespaces).cache;
            && (k in after <==> k in t.cache && !(k.0 in namespaces && IsCacheNamespace(k.0)))
            && (k in after ==> after[k] == t.cache[k])
    decreases |namespaces|
  {
    if namespaces != [] { ClearedCache(ClearedOne(t, namespaces[0]), namespaces[1..], k); }
  }

  /** It removes the requests for "history", and the records with their index rows for "evidence". */
  lemma {:induction false} ClearedRows(t: Tables, namespaces: seq<string>)
    ensures var after := Cleared(t, namespaces);
            && after.requests == (if "history" in namespaces then map[] else t.requests)
            && after.records == (if "evidence" in namespaces then map[] else t.records)
            && after.index == (if "evidence" in namespaces then [] else t.index)
    decreases |namespaces|
  {
    if namespaces != [] {
      ClearedRows(ClearedOne(t, namespaces[0]), namespaces[1..]);
      assert forall n :: n in namespaces <==> n == namespaces[0] || n in namespaces[1..];
    }
  }

  predicate IsCacheNamespace(namespace: string) {
    namespace == "search" || namespace == "pages" || namespace == "extracted" || namespace == "robots"
    || namespace == "failures" || namespace == "evidence"
  }

  /** The index rows kept are those of the records named, in order. */
  lemma {:induction false} KeptRowsComeInOrder(rows: seq<IndexRow>, keep: set<string>) returns (ps: seq<nat>)
    ensures PicksInOrder(rows, KeepRows(rows, keep), ps)
    ensures forall row :: row in KeepRows(rows, keep) <==> row in rows && row.evidenceId in keep
  {
    if rows == [] {
      ps := [];
    } else {
      var rest := KeepRows(rows[1..], keep);
      assert rows == [rows[0]] + rows[1..];
      ps := KeptRowsComeInOrder(rows[1..], keep);
      ps := SkipFirst(rows[0], rows[1..], rest, ps);
      if rows[0].evidenceId in keep {
        PickFirst(rows[0], rows[1..], rest, ps);
        ps := [0] + ps;
      }
    }
  }

  // ---------- The database object ----------

  method DeleteFromIndex(rows: seq<IndexRow>, drop: set<string>) returns (kept: seq<IndexRow>)
    ensures kept == DropRows(rows, drop)
  {
    kept := [];
    for i := 0 to |rows|
      invariant DropRows(rows, drop) == kept + DropRows(rows[i..], drop)
    {
      ghost var rest := rows[i..];
      assert rest[0] == rows[i] && rest[1..] == rows[i+1..];
      if rows[i].evidenceId !in drop { kept := kept + [rows[i]]; }
    }
  }

  method DeleteOrphans(rows: seq<IndexRow>, records: set<string>) returns (kept: seq<IndexRow>)
    ensures kept == KeepRows(rows, records)
  {
    kept := [];
    for i := 0 to |rows|
      invariant KeepRows(rows, records) == kept + KeepRows(rows[i..], records)
    {
      ghost var rest := rows[i..];
      assert rest[0] == rows[i] && rest[1..] == rows[i+1..];
      if rows[i].evidenceId in records { kept := kept + [rows[i]]; }
    }
  }

  class Database {
    var cache: map<CacheKey, CacheRow>
    var requests: map<string, Instant>
    var records: map<string, Instant>
    var index: seq<IndexRow>
    var queryDataPersistence: bool

    function View(): Tables
      reads this
    {
      Tables(cache, requests, records, index)
    }

    constructor ()
      ensures View() == EMPTY && queryDataPersistence
    {
      cache, requests, records, index := map[], map[], map[], [];
      queryDataPersistence := true;
    }

    method SetQueryDataPersistence(enabled: bool)
      modifies this`queryDataPersistence
      ensures queryDataPersistence == enabled
    {
      queryDataPersistence := enabled;
    }

    /** `executemany` over the record ids. */
    method InsertRecords(ids: seq<string>, expires: Instant)
      modifies this`records
      ensures records == old(records) + map id | id in ids :: expires
    {
      for i := 0 to |ids|
        invariant records == old(records) + map id | id in ids[..i] :: expires
      {
        assert ids[..i+1] == ids[..i] + [ids[i]];
        records := records[ids[i] := expires];
      }
      assert ids[..|ids|] == ids;
    }

    method Execute(sql: Statement)
      modifies this`cache, this`requests, this`records, this`index
      ensures View() == Gated(old(View()), queryDataPersistence, sql)
    {
      if !IsPermitted(queryDataPersistence, sql) {
        return;
      }
      match sql {
        case InsertCacheEntry(key, row) => cache := cache[key := row];
        case InsertRequest(id, at) => requests := requests[id := at];
        case InsertEvidenceRecords(ids, expires) => InsertRecords(ids, expires);
        case InsertEvidenceIndex(rows) => index := index + rows;
        case DeleteCacheEntry(key) => cache := cache - {key};
      }
    }

    /** The evidence half of the sweep: first the index rows of expired records, then the records, then
        any index row left without a record. */
    method CleanExpiredEvidence(cutoff: Instant) returns (deleted: nat)
      modifies this`records, this`index
      ensures records == Unexpired(old(records), cutoff)
      ensures index == KeepRows(old(index), records.Keys)
      ensures deleted == |old(records)| - |records|
    {
      var identifiers := set id | id in records && records[id] <= cutoff;
      index := DeleteFromIndex(index, identifiers);
      var remaining := records - identifiers;
      assert remaining.Keys == records.Keys - identifiers;
      assert |records.Keys| == |remaining.Keys| + |identifiers|;
      deleted := |identifiers|;
      records := remaining;
      index := DeleteOrphans(index, records.Keys);
      KeepAfterDrop(old(index), identifiers, records.Keys);
    }

    /** The whole sweep; the result counts the cache rows removed. */
    method CleanRetainedQueryData(now: Instant, requestCutoff: Instant, purgeAll: bool) returns (cacheDeleted: int)
      modifies this`cache, this`requests, this`records, this`index
      ensures View() == Swept(old(View()), now, requestCutoff, purgeAll)
      ensures cacheDeleted == |old(cache)| - |cache|
    {
      var cacheRows := |cache|;
      if purgeAll {
        cache, index, records, requests := map[], [], map[], map[];
        return cacheRows;
      }
      var _ := CleanExpiredEvidence(now);
      cache := map k | k in cache && !(cache[k].expiresAt <= now || cache[k].createdAt <= requestCutoff) :: cache[k];
      requests := map id | id in requests && !(requests[id] <= requestCutoff) :: requests[id];
      cacheDeleted := cacheRows - |cache|;
    }

    method Clear(namespaces: seq<string>) returns (deleted: int)
      modifies this`cache, this`requests, this`records, this`index
      ensures View() == Cleared(old(View()), namespaces)
      ensures deleted == TotalRows(old(View())) - TotalRows(View())
    {
      deleted := 0;
      for i := 0 to |namespaces|
        invariant Cleared(old(View()), namespaces) == Cleared(View(), namespaces[i..])
        invariant deleted == TotalRows(old(View())) - TotalRows(View())
      {
        var namespace := namespaces[i];
        assert namespaces[i..][1..] == namespaces[i+1..];
        if namespace == "history" {
          deleted := deleted + |requests|;
          requests := map[];
        } else if namespace == "evidence" || namespace in CACHE_NAMESPACES {
          var remaining := map k | k in cache && k.0 != namespace :: cache[k];
          deleted := deleted + (|cache| - |remaining|);
          cache := remaining;
          if namespace == "evidence" {
            deleted := deleted + |index| + |records|;
            index, records := [], map[];
          }
        }
      }
    }
  }

  function TotalRows(t: Tables): nat {
    |t.cache| + |t.requests| + |t.records| + |t.index|
  }

  /** Deleting the rows of expired records first does not change what the orphan deletion keeps. */
  lemma {:induction false} KeepAfterDrop(rows: seq<IndexRow>, drop: set<string>, keep: set<string>)
    requires drop !! keep
    ensures KeepRows(DropRows(rows, drop), keep) == KeepRows(rows, keep)
  {
    if rows != [] {
      KeepAfterDrop(rows[1..], drop, keep);
      if rows[0].evidenceId !in drop {
        assert DropRows(rows, drop)[1..] == DropRows(rows[1..], drop);
      }
    }
  }
}
