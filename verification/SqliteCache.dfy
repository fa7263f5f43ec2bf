/** The persistent cache over mutable tables: the cleanup statements and loops of
    app/cache/sqlite_cache.py and the report of a full run. */
module SqliteCache {
  import opened Sequences
  import opened IsoTime
  import opened StringOrder
  import opened CacheTable
  import SizeSweep

  class Table {
    var rows: seq<Row>

    ghost predicate Valid()
      reads this
    {
      Unique(rows)
    }

    constructor ()
      ensures Valid() && rows == []
    {
      rows := [];
    }

    /** `INSERT OR REPLACE`. */
    method Put(row: Row)
      requires Valid()
      modifies this
      ensures Valid()
      ensures forall r :: r in rows <==> r == row || (r in old(rows) && r.key != row.key)
    {
      WithoutUnique(rows, {row.key});
      var kept := Without(rows, {row.key});
      assert forall k :: 0 <= k < |kept| ==> kept[k] in kept;
      rows := kept + [row];
    }

    /** `stats`: rows, bytes and expired rows. */
    method Stats(now: string) returns (total: nat, bytes: nat, expired: nat)
      requires Valid()
      ensures total == |rows| && bytes == TotalSize(rows)
      ensures expired == |rows| - |Unexpired(rows, now)|
    {
      UnexpiredProperties(rows, now);
      total, bytes, expired := |rows|, TotalSize(rows), 0;
      for k := 0 to |rows|
        invariant expired == k - |Unexpired(rows[..k], now)|
      {
        assert rows[..k + 1] == rows[..k] + [rows[k]];
        UnexpiredAppend(rows[..k], rows[k], now);
        if ExpiredBefore(rows[k], now) {
          expired := expired + 1;
        }
      }
      assert rows[..|rows|] == rows;
    }

    static lemma {:induction false} UnexpiredAppend(t: seq<Row>, r: Row, now: string)
      ensures Unexpired(t + [r], now) == Unexpired(t, now) + if ExpiredBefore(r, now) then [] else [r]
    {
      if t == [] {
        assert t + [r] == [r];
      } else {
        UnexpiredAppend(t[1..], r, now);
        assert (t + [r])[1..] == t[1..] + [r];
      }
    }

    /** `cleanup_expired`. */
    method CleanupExpired(cutoff: string) returns (deleted: nat)
      requires Valid()
      modifies this
      ensures Valid() && Subsequence(rows, old(rows))
      ensures forall r :: r in rows <==> r in old(rows) && !ExpiredBefore(r, cutoff)
      ensures deleted == |old(rows)| - |rows|
    {
      UnexpiredProperties(rows, cutoff);
      UnexpiredSubsequence(rows, cutoff);
      var kept := Unexpired(rows, cutoff);
      deleted := |rows| - |kept|;
      rows := kept;
    }

    /** `cleanup_by_max_entries`. */
    method CleanupByMaxEntries(maxEntries: int) returns (deleted: nat)
      requires Valid()
      modifies this
      ensures Valid() && Subsequence(rows, old(rows))
      ensures |rows| == Min(|old(rows)|, Max(0, maxEntries)) && Suffix(Oldest(rows), Oldest(old(rows)))
      ensures deleted == |old(rows)| - |rows|
    {
      CapEntriesProperties(rows, maxEntries);
      CapEntriesSubsequence(rows, maxEntries);
      var total := |rows|;
      if total <= maxEntries {
        return 0;
      }
      var kept := DeleteOldest(rows, total - maxEntries);
      deleted := total - |kept|;
      rows := kept;
    }

    /** One turn of the loop of `cleanup_by_max_size`: nothing to do, or one batch of the
        oldest rows. */
    method DeleteBatch(maxSize: int) returns (rowcount: nat)
      requires Valid()
      modifies this
      ensures Unique(rows) && BatchDone(old(rows), rows, rowcount, maxSize)
      ensures rowcount == 0 ==> rows == old(rows)
      ensures rowcount > 0 ==> |rows| < |old(rows)|
    {
      var totalSize := TotalSize(rows);
      var count := |rows|;
      DeleteNothing(rows);
      if totalSize <= maxSize || count == 0 {
        return 0;
      }
      var batch := SizeSweep.Batch(totalSize, count, maxSize);
      BatchSweep(rows, batch, maxSize);
      DeleteOldestIsPrefix(rows, batch);
      DeleteOldestCapped(rows, batch);
      rows := DeleteOldest(rows, batch);
      rowcount := count - |rows|;
    }

    /** `cleanup_by_max_size`: batches of oldest rows until the content fits. */
    method CleanupByMaxSize(maxSize: int) returns (deleted: nat)
      requires Valid()
      modifies this
      ensures Valid() && rows == CapSize(old(rows), maxSize)
      ensures deleted == |old(rows)| - |rows|
    {
      ghost var before := rows;
      deleted := 0;
      SweptStart(before, maxSize);
      while true
        invariant Swept(before, rows, deleted, maxSize)
        decreases |rows|
      {
        ghost var now := rows;
        var rowcount := DeleteBatch(maxSize);
        SweptStep(before, now, deleted, rows, rowcount, maxSize);
        if rowcount == 0 {
          SweptEnd(before, rows, deleted, maxSize);
          break;
        }
        deleted := deleted + rowcount;
      }
    }
  }

  /** `deleted` rows of the sweep are done. */
  ghost predicate Swept(before: seq<Row>, rows: seq<Row>, deleted: nat, maxSize: int) {
    && Unique(before) && Unique(rows) && |rows| == |before| - deleted
    && rows == DeleteOldest(before, deleted)
    && SizeSweep.Sweep(Sizes(Oldest(before)), maxSize) == deleted + SizeSweep.Sweep(Sizes(Oldest(rows)), maxSize)
  }

  lemma SweptStart(before: seq<Row>, maxSize: int)
    requires Unique(before)
    ensures Swept(before, before, 0, maxSize)
  {
    DeleteNothing(before);
  }

  /** One turn of the loop deletes the oldest `n` rows, none exactly when it is done. */
  ghost predicate BatchDone(rows: seq<Row>, rows': seq<Row>, n: nat, maxSize: int) {
    && rows' == DeleteOldest(rows, n) && |rows'| == |rows| - n
    && (n == 0 <==> TotalSize(rows) <= maxSize || rows == [])
    && SizeSweep.Sweep(Sizes(Oldest(rows)), maxSize) == n + SizeSweep.Sweep(Sizes(Oldest(rows')), maxSize)
  }

  lemma SweptStep(before: seq<Row>, rows: seq<Row>, deleted: nat, rows': seq<Row>, n: nat, maxSize: int)
    requires Swept(before, rows, deleted, maxSize)
    requires Unique(rows') && BatchDone(rows, rows', n, maxSize)
    ensures Swept(before, rows', deleted + n, maxSize)
  {
    DeleteTwice(before, deleted, n);
  }

  /** When nothing was left to delete, the sweep is complete. */
  lemma SweptEnd(before: seq<Row>, rows: seq<Row>, deleted: nat, maxSize: int)
    requires Swept(before, rows, deleted, maxSize) && BatchDone(rows, rows, 0, maxSize)
    ensures rows == CapSize(before, maxSize) && deleted == |before| - |rows|
  {
    OldestTotal(rows);
  }

  lemma DeleteOldestCapped(rows: seq<Row>, n: nat)
    requires Unique(rows)
    ensures DeleteOldest(rows, n) == DeleteOldest(rows, Min(n, |rows|))
  {
    OldestUnique(rows);
  }

  lemma {:induction false} WithoutTwice(t: seq<Row>, a: set<string>, b: set<string>)
    ensures Without(Without(t, a), b) == Without(t, a + b)
  {
    if t != [] {
      WithoutTwice(t[1..], a, b);
      if t[0].key !in a {
        var rest := Without(t[1..], a);
        assert ([t[0]] + rest)[1..] == rest;
      }
    }
  }

  /** Deleting again continues the oldest-first prefix. */
  lemma DeleteTwice(before: seq<Row>, m: nat, n: nat)
    requires Unique(before) && m + n <= |before|
    ensures DeleteOldest(DeleteOldest(before, m), n) == DeleteOldest(before, m + n)
  {
    var o := Oldest(before);
    DeleteOldestIsPrefix(before, m);
    WithoutTwice(before, Keys(o[..m]), Keys(o[m..][..n]));
    assert o[..m + n] == o[..m] + o[m..][..n];
    assert Keys(o[..m + n]) == Keys(o[..m]) + Keys(o[m..][..n]);
  }

  /** One batch of the sweep. */
  lemma BatchSweep(rows: seq<Row>, batch: nat, maxSize: int)
    requires Unique(rows) && rows != [] && TotalSize(rows) > maxSize
    requires batch == SizeSweep.Batch(TotalSize(rows), |rows|, maxSize)
    ensures SizeSweep.Sweep(Sizes(Oldest(rows)), maxSize)
         == Min(batch, |rows|) + SizeSweep.Sweep(Sizes(Oldest(DeleteOldest(rows, batch))), maxSize)
  {
    OldestTotal(rows);
    DeleteOldestIsPrefix(rows, batch);
    SizesSuffix(Oldest(rows), Min(batch, |rows|));
  }

  // ------------------------------------------------------------ the whole run

  /** The counters of one table in a cleanup report. */
  datatype TableReport = TableReport(
    expired: nat, byEntries: nat, bySize: nat, total: nat, before: nat, after: nat)

  class Cache {
    const scrape: Table
    const search: Table
    const transcript: Table

    ghost predicate Valid()
      reads this, scrape, search, transcript
    {
      && scrape != search && scrape != transcript && search != transcript
      && scrape.Valid() && search.Valid() && transcript.Valid()
    }

    constructor ()
      ensures Valid() && fresh(scrape) && fresh(search) && fresh(transcript)
    {
      scrape := new Table();
      search := new Table();
      transcript := new Table();
    }

    /** The three phases on one table. */
    static method CleanTable(t: Table, cutoff: string, maxEntries: int, maxSize: int) returns (r: TableReport)
      requires t.Valid()
      modifies t
      ensures t.Valid() && t.rows == Cleanup(old(t.rows), cutoff, maxEntries, maxSize)
      ensures r.before == |old(t.rows)| && r.after == |t.rows|
      ensures r.total == r.expired + r.byEntries + r.bySize == r.before - r.after
    {
      var before := |t.rows|;
      ghost var rows := t.rows;
      var expired := t.CleanupExpired(cutoff);
      UnexpiredDetermined(rows, t.rows, cutoff);
      rows := t.rows;
      var byEntries := t.CleanupByMaxEntries(maxEntries);
      CapEntriesDetermined(rows, t.rows, maxEntries);
      var bySize := t.CleanupByMaxSize(maxSize);
      r := TableReport(expired, byEntries, bySize, expired + byEntries + bySize, before, |t.rows|);
    }

    /** `cleanup` on the three tables; each phase reads the clock itself, so each table
        has its own cutoff. */
    method CleanupAll(cutoffs: (string, string, string), maxEntries: int, maxSize: int)
      returns (scrapeReport: TableReport, searchReport: TableReport, transcriptReport: TableReport)
      requires Valid()
      modifies scrape, search, transcript
      ensures Valid()
      ensures scrape.rows == Cleanup(old(scrape.rows), cutoffs.0, maxEntries, maxSize)
      ensures search.rows == Cleanup(old(search.rows), cutoffs.1, maxEntries, maxSize)
      ensures transcript.rows == Cleanup(old(transcript.rows), cutoffs.2, maxEntries, maxSize)
      ensures scrapeReport.total == |old(scrape.rows)| - |scrape.rows|
      ensures searchReport.total == |old(search.rows)| - |search.rows|
      ensures transcriptReport.total == |old(transcript.rows)| - |transcript.rows|
    {
      scrapeReport := CleanTable(scrape, cutoffs.0, maxEntries, maxSize);
      searchReport := CleanTable(search, cutoffs.1, maxEntries, maxSize);
      transcriptReport := CleanTable(transcript, cutoffs.2, maxEntries, maxSize);
    }

    /** `is_expired(cache_key)`: a missing row counts as expired. */
    method IsExpired(key: string, now: string) returns (expired: bool)
      requires Valid()
      ensures expired <==> forall r :: r in scrape.rows && r.key == key ==> ExpiredBefore(r, now)
    {
      var k := 0;
      while k < |scrape.rows|
        invariant 0 <= k <= |scrape.rows|
        invariant forall j :: 0 <= j < k ==> scrape.rows[j].key != key
      {
        var row := scrape.rows[k];
        if row.key == key {
          assert forall r :: r in scrape.rows && r.key == key ==> r == row;
          return row.expiresAt.Some? && Less(row.expiresAt.value, now);
        }
        k := k + 1;
      }
      expired := true;
    }
  }
}
