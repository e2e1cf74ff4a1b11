/**
 Operation logs live in a main table and move to an archive table, from which they are purged in the
 end.  This module holds the two tables, the batches that the maintenance job selects and commits, and
 the job itself with its loops.
 */
module LogTables {
  import opened Wrappers

  type LogId = nat
  /** Seconds. */
  type Instant = int

  const DAY: int := 24 * 60 * 60

  datatype Log = Log(createdAt: Instant, content: string)

  /** An archived row keeps its log unchanged and records when its transaction began. */
  datatype Archived = Archived(log: Log, archivedAt: Instant)

  /** What the archiving job returns. */
  datatype Totals = Totals(archived: nat, purged: nat)

  datatype Tables = Tables(main: map<LogId, Log>, archive: map<LogId, Archived>)

  /** `ORDER BY id LIMIT n`. */
  function Smallest(ids: set<LogId>, n: nat): (picked: set<LogId>)
    ensures picked <= ids
    ensures |picked| == if |ids| <= n then |ids| else n
    ensures forall p, q :: p in picked && q in ids - picked ==> p < q
    decreases n
  {
    if n == 0 || ids == {} then {}
    else
      var m := Least(ids);
      var rest := Smallest(ids - {m}, n - 1);
      assert ids - ({m} + rest) == (ids - {m}) - rest;
      {m} + rest
  }

  function Expired(main: map<LogId, Log>, cutoff: Instant): (ids: set<LogId>)
    ensures ids <= main.Keys
  {
    set id | id in main && main[id].createdAt < cutoff
  }

  function Outlived(archive: map<LogId, Archived>, cutoff: Instant): (ids: set<LogId>)
    ensures ids <= archive.Keys
  {
    set id | id in archive && archive[id].archivedAt < cutoff
  }

  /** The rows one archiving batch reads. */
  function ArchiveBatch(main: map<LogId, Log>, cutoff: Instant, batch: nat): (rows: map<LogId, Log>)
    ensures rows.Keys <= Expired(main, cutoff)
  {
    var picked := Smallest(Expired(main, cutoff), batch);
    map id | id in picked :: main[id]
  }

  /** One transaction: insert into the archive skipping ids already there, delete from the main table. */
  function ArchiveCommit(t: Tables, rows: map<LogId, Log>, at: Instant): Tables {
    Tables(t.main - rows.Keys, (map id | id in rows :: Archived(rows[id], at)) + t.archive)
  }

  function PurgeBatch(archive: map<LogId, Archived>, cutoff: Instant, batch: nat): (ids: set<LogId>)
    ensures ids <= Outlived(archive, cutoff)
  {
    Smallest(Outlived(archive, cutoff), batch)
  }

  function PurgeCommit(t: Tables, ids: set<LogId>): Tables {
    t.(archive := t.archive - ids)
  }

  /** A full batch makes progress; a batch comes back empty only when nothing is left to do. */
  lemma {:induction false} BatchProgress(main: map<LogId, Log>, cutoff: Instant, batch: nat)
    requires batch > 0
    ensures ArchiveBatch(main, cutoff, batch) == map[] <==> Expired(main, cutoff) == {}
    ensures var rows := ArchiveBatch(main, cutoff, batch);
            && Expired(main - rows.Keys, cutoff) == Expired(main, cutoff) - rows.Keys
            && |Expired(main - rows.Keys, cutoff)| == |Expired(main, cutoff)| - |rows|
  {
    var rows := ArchiveBatch(main, cutoff, batch);
    assert rows.Keys == Smallest(Expired(main, cutoff), batch);
    assert |rows| == |rows.Keys|;
    assert rows == map[] <==> rows.Keys == {};
    assert Expired(main, cutoff) == {} <==> |Expired(main, cutoff)| == 0;
    assert Expired(main - rows.Keys, cutoff) == Expired(main, cutoff) - rows.Keys;
  }

  lemma {:induction false} PurgeProgress(archive: map<LogId, Archived>, cutoff: Instant, batch: nat)
    requires batch > 0
    ensures PurgeBatch(archive, cutoff, batch) == {} <==> Outlived(archive, cutoff) == {}
    ensures var ids := PurgeBatch(archive, cutoff, batch);
            && Outlived(archive - ids, cutoff) == Outlived(archive, cutoff) - ids
            && |Outlived(archive - ids, cutoff)| == |Outlived(archive, cutoff)| - |ids|
  {
    var ids := PurgeBatch(archive, cutoff, batch);
    assert ids == {} <==> |ids| == 0;
    assert Outlived(archive - ids, cutoff) == Outlived(archive, cutoff) - ids;
  }

  /** The main table with everything that arrived before round `n`, had nothing been moved. */
  function WithArrivals(main: map<LogId, Log>, arrivals: nat -> map<LogId, Log>, n: nat): map<LogId, Log> {
    if n == 0 then main else WithArrivals(main, arrivals, n - 1) + arrivals(n - 1)
  }

  /** New ids, none of them expired. */
  ghost predicate NewLogs(more: map<LogId, Log>, main: map<LogId, Log>, archive: map<LogId, Archived>, cutoff: Instant)
  {
    && more.Keys !! main.Keys && more.Keys !! archive.Keys
    && forall id :: id in more ==> more[id].createdAt >= cutoff
  }

  ghost predicate FreshAt(arrivals: nat -> map<LogId, Log>, k: nat, t: Tables, cutoff: Instant) {
    NewLogs(arrivals(k), WithArrivals(t.main, arrivals, k), t.archive, cutoff)
  }

  /** Logs that other transactions commit while the job runs. */
  ghost predicate FreshArrivals(arrivals: nat -> map<LogId, Log>, t: Tables, cutoff: Instant) {
    forall k :: FreshAt(arrivals, k, t, cutoff)
  }

  lemma {:induction false} NewLogsStep(main: map<LogId, Log>, more: map<LogId, Log>, archive: map<LogId, Archived>,
                                       cutoff: Instant)
    requires NewLogs(more, main, archive, cutoff) && main.Keys !! archive.Keys
    ensures Expired(main + more, cutoff) == Expired(main, cutoff)
    ensures (main + more).Keys !! archive.Keys
    ensures forall id :: id in main ==> (main + more)[id] == main[id]
  {
  }

  lemma {:induction false} ArrivalsNeverExpire(t: Tables, arrivals: nat -> map<LogId, Log>, n: nat, cutoff: Instant)
    requires FreshArrivals(arrivals, t, cutoff) && t.main.Keys !! t.archive.Keys
    ensures var all := WithArrivals(t.main, arrivals, n);
            && Expired(all, cutoff) == Expired(t.main, cutoff)
            && all.Keys !! t.archive.Keys && t.main.Keys <= all.Keys
            && (forall id :: id in t.main ==> all[id] == t.main[id])
  {
    if n == 0 {
    } else {
      ArrivalsNeverExpire(t, arrivals, n - 1, cutoff);
      var main := WithArrivals(t.main, arrivals, n - 1);
      assert FreshAt(arrivals, n - 1, t, cutoff);
      hide NewLogs, FreshArrivals, Expired;
      NewLogsStep(main, arrivals(n - 1), t.archive, cutoff);
    }
  }

  /** A sequential run has moved the rows `moved` out of `all` into the archive `kept` so far. */
  ghost predicate Moved(all: map<LogId, Log>, kept: map<LogId, Archived>, moved: set<LogId>, t: Tables, now: Instant) {
    && moved <= all.Keys
    && t.main == all - moved
    && t.archive.Keys == kept.Keys + moved
    && (forall id :: id in kept ==> t.archive[id] == kept[id])
    && (forall id :: id in moved ==> t.archive[id].log == all[id] && t.archive[id].archivedAt >= now)
  }

  lemma {:induction false} ArrivalStep(all: map<LogId, Log>, kept: map<LogId, Archived>, moved: set<LogId>, t: Tables,
                                       more: map<LogId, Log>, now: Instant)
    requires Moved(all, kept, moved, t, now) && all.Keys !! more.Keys
    ensures Moved(all + more, kept, moved, t.(main := t.main + more), now)
  {
    assert (all - moved) + more == (all + more) - moved;
  }

  lemma {:induction false} CommitStep(all: map<LogId, Log>, kept: map<LogId, Archived>, moved: set<LogId>, t: Tables,
                                      rows: map<LogId, Log>, at: Instant, now: Instant)
    requires Moved(all, kept, moved, t, now) && all.Keys !! kept.Keys && at >= now
    requires rows.Keys <= t.main.Keys && forall id :: id in rows ==> rows[id] == t.main[id]
    ensures Moved(all, kept, moved + rows.Keys, ArchiveCommit(t, rows, at), now)
  {
    assert (all - moved) - rows.Keys == all - (moved + rows.Keys);
  }

  /** What one batch leaves to do. */
  lemma {:induction false} BatchStep(all: map<LogId, Log>, moved: set<LogId>, cutoff: Instant, batch: nat)
    requires batch > 0 && moved <= Expired(all, cutoff)
    ensures var rows := ArchiveBatch(all - moved, cutoff, batch);
            && moved + rows.Keys <= Expired(all, cutoff)
            && |moved + rows.Keys| == |moved| + |rows| <= |Expired(all, cutoff)|
            && (|rows| == 0 ==> moved == Expired(all, cutoff))
  {
    var left, due := all - moved, Expired(all, cutoff);
    var rows := ArchiveBatch(left, cutoff, batch);
    assert Expired(left, cutoff) == due - moved;
    BatchProgress(left, cutoff, batch);
    hide ArchiveBatch, Expired;
    assert |rows| == |rows.Keys|;
    DisjointSizes(moved, rows.Keys, due);
    if |rows| == 0 {
      assert rows == map[];
    }
  }

  lemma {:induction false} DisjointSizes(a: set<LogId>, b: set<LogId>, all: set<LogId>)
    requires a <= all && b <= all - a
    ensures a + b <= all && |a + b| == |a| + |b| <= |all|
  {
    SubsetSize(a + b, all);
  }

  /** The invariant of the archiving loop after `k` rounds. */
  ghost predicate Archiving(t0: Tables, arrivals: nat -> map<LogId, Log>, k: nat, moved: set<LogId>, t: Tables,
                            cutoff: Instant, now: Instant) {
    && Moved(WithArrivals(t0.main, arrivals, k), t0.archive, moved, t, now)
    && moved <= Expired(t0.main, cutoff)
    && |moved| <= |Expired(t0.main, cutoff)|
  }

  lemma {:induction false} ArchivingStarts(t0: Tables, arrivals: nat -> map<LogId, Log>, cutoff: Instant, now: Instant)
    ensures Archiving(t0, arrivals, 0, {}, t0, cutoff, now)
  {
    assert t0.main - {} == t0.main;
  }

  lemma {:induction false} ArchivingBounds(t0: Tables, arrivals: nat -> map<LogId, Log>, k: nat, moved: set<LogId>,
                                           t: Tables, cutoff: Instant, now: Instant)
    requires Archiving(t0, arrivals, k, moved, t, cutoff, now)
    ensures |moved| <= |Expired(t0.main, cutoff)|
    ensures Moved(WithArrivals(t0.main, arrivals, k), t0.archive, moved, t, now)
  {
  }

  lemma {:induction false} Round(t0: Tables, arrivals: nat -> map<LogId, Log>, k: nat, moved: set<LogId>, t: Tables,
                                 cutoff: Instant, batch: nat, at: Instant, now: Instant)
    requires batch > 0 && at >= now
    requires FreshArrivals(arrivals, t0, cutoff) && t0.main.Keys !! t0.archive.Keys
    requires Archiving(t0, arrivals, k, moved, t, cutoff, now)
    ensures var t1 := t.(main := t.main + arrivals(k));
            var rows := ArchiveBatch(t1.main, cutoff, batch);
            && Archiving(t0, arrivals, k + 1, moved + rows.Keys, ArchiveCommit(t1, rows, at), cutoff, now)
            && |moved + rows.Keys| == |moved| + |rows|
            && (|rows| == 0 ==> moved + rows.Keys == Expired(t0.main, cutoff))
  {
    var all := WithArrivals(t0.main, arrivals, k + 1);
    assert FreshAt(arrivals, k, t0, cutoff);
    ArrivalsNeverExpire(t0, arrivals, k + 1, cutoff);
    ArrivalStep(WithArrivals(t0.main, arrivals, k), t0.archive, moved, t, arrivals(k), now);
    var t1 := t.(main := t.main + arrivals(k));
    assert t1.main == all - moved;
    hide WithArrivals, FreshArrivals, Expired;
    var rows := ArchiveBatch(t1.main, cutoff, batch);
    BatchStep(all, moved, cutoff, batch);
    CommitStep(all, t0.archive, moved, t1, rows, at, now);
    hide Moved, ArchiveCommit, ArchiveBatch;
    if |rows| == 0 { SubsetSize(moved, moved + rows.Keys); }
  }

  /** Logs that arrive before a purging batch stay in the main table. */
  lemma {:induction false} ArrivalRound(t0: Tables, arrivals: nat -> map<LogId, Log>, k: nat, moved: set<LogId>,
                                        t: Tables, now: Instant, cutoff: Instant)
    requires FreshArrivals(arrivals, t0, cutoff)
    requires Moved(WithArrivals(t0.main, arrivals, k), t0.archive, moved, t, now)
    ensures Moved(WithArrivals(t0.main, arrivals, k + 1), t0.archive, moved, t.(main := t.main + arrivals(k)), now)
  {
    assert FreshAt(arrivals, k, t0, cutoff);
    hide Moved, FreshArrivals;
    ArrivalStep(WithArrivals(t0.main, arrivals, k), t0.archive, moved, t, arrivals(k), now);
  }

  lemma {:induction false} PurgeRound(archive: map<LogId, Archived>, gone: set<LogId>, cutoff: Instant, batch: nat)
    requires batch > 0 && gone <= Outlived(archive, cutoff)
    ensures var ids := PurgeBatch(archive - gone, cutoff, batch);
            && (archive - gone) - ids == archive - (gone + ids)
            && gone + ids <= Outlived(archive, cutoff)
            && |gone + ids| == |gone| + |ids| <= |Outlived(archive, cutoff)|
            && (|ids| == 0 ==> gone + ids == Outlived(archive, cutoff))
  {
    var ids := PurgeBatch(archive - gone, cutoff, batch);
    assert Outlived(archive - gone, cutoff) == Outlived(archive, cutoff) - gone;
    PurgeProgress(archive - gone, cutoff, batch);
    SubsetSize(gone + ids, Outlived(archive, cutoff));
    if |ids| == 0 { assert ids == {}; }
  }

  /** Rows archived by this run are too new for this run's purge. */
  lemma {:induction false} MovedRowsStay(all: map<LogId, Log>, kept: map<LogId, Archived>, moved: set<LogId>, t: Tables,
                                         now: Instant, cutoff: Instant)
    requires Moved(all, kept, moved, t, now) && cutoff < now
    ensures Outlived(t.archive, cutoff) == Outlived(kept, cutoff)
  {
  }

  /** Out of `all`, the main table keeps exactly the logs not in `moved`; the archive `kept` loses exactly
      the rows in `purged` and gains exactly the moved logs, unchanged and stamped at `now` or later. */
  ghost predicate Partitioned(all: map<LogId, Log>, kept: map<LogId, Archived>, moved: set<LogId>, purged: set<LogId>,
                              t: Tables, now: Instant) {
    && t.main == all - moved
    && t.archive.Keys == kept.Keys - purged + moved
    && (forall id :: id in t.archive && id in kept ==> t.archive[id] == kept[id])
    && (forall id :: id in moved ==> id in all && t.archive[id].log == all[id] && t.archive[id].archivedAt >= now)
  }

  /** A whole run equals the one-shot partition by age of the logs it found and those that arrived meanwhile,
      and its totals are the numbers moved and purged. */
  ghost predicate OneShotPartition(t0: Tables, arrivals: nat -> map<LogId, Log>, rounds: nat, cutoff: Instant,
                                   purgeCutoff: Instant, now: Instant, t: Tables, totals: Totals) {
    && Partitioned(WithArrivals(t0.main, arrivals, rounds), t0.archive, Expired(t0.main, cutoff),
                   Outlived(t0.archive, purgeCutoff), t, now)
    && totals == Totals(|Expired(t0.main, cutoff)|, |Outlived(t0.archive, purgeCutoff)|)
  }

  /** Main keeps exactly the logs of `all` created at `cutoff` or later. */
  ghost predicate MainByAge(all: map<LogId, Log>, cutoff: Instant, t: Tables) {
    && (forall id :: id in t.main <==> id in all && all[id].createdAt >= cutoff)
    && (forall id :: id in t.main ==> t.main[id] == all[id])
  }

  /** The archive holds exactly its former rows stamped at `purgeCutoff` or later, as they were, and the logs of
      the first main table created before `cutoff`, unchanged and stamped at `now` or later. */
  ghost predicate ArchiveByAge(t0: Tables, cutoff: Instant, purgeCutoff: Instant, now: Instant, t: Tables) {
    && (forall id :: id in t.archive <==>
          || (id in t0.archive && t0.archive[id].archivedAt >= purgeCutoff)
          || (id in t0.main && t0.main[id].createdAt < cutoff))
    && (forall id :: id in t.archive && id in t0.archive ==> t.archive[id] == t0.archive[id])
    && (forall id :: id in t.archive && id in t0.main ==>
          t.archive[id].log == t0.main[id] && t.archive[id].archivedAt >= now)
  }

  /** The totals count exactly the logs created before `cutoff` and the rows stamped before `purgeCutoff`. */
  ghost predicate CountedByAge(t0: Tables, cutoff: Instant, purgeCutoff: Instant, totals: Totals) {
    && totals.archived == |set id | id in t0.main && t0.main[id].createdAt < cutoff|
    && totals.purged == |set id | id in t0.archive && t0.archive[id].archivedAt < purgeCutoff|
  }

  lemma {:induction false} CountsAreByAge(t0: Tables, cutoff: Instant, purgeCutoff: Instant)
    ensures CountedByAge(t0, cutoff, purgeCutoff,
                         Totals(|Expired(t0.main, cutoff)|, |Outlived(t0.archive, purgeCutoff)|))
  {
    assert Expired(t0.main, cutoff) == set id | id in t0.main && t0.main[id].createdAt < cutoff;
    assert Outlived(t0.archive, purgeCutoff) == set id | id in t0.archive && t0.archive[id].archivedAt < purgeCutoff;
  }

  lemma {:induction false} MainIsByAge(all: map<LogId, Log>, t0: Tables, cutoff: Instant, purgeCutoff: Instant,
                                       now: Instant, t: Tables)
    requires Partitioned(all, t0.archive, Expired(t0.main, cutoff), Outlived(t0.archive, purgeCutoff), t, now)
    requires Expired(all, cutoff) == Expired(t0.main, cutoff)
    ensures MainByAge(all, cutoff, t)
  {
    hide Outlived;
    forall id ensures id in t.main <==> id in all && all[id].createdAt >= cutoff {
      assert id in Expired(all, cutoff) <==> id in all && all[id].createdAt < cutoff;
    }
  }

  lemma {:induction false} ArchiveIsByAge(all: map<LogId, Log>, t0: Tables, cutoff: Instant, purgeCutoff: Instant,
                                          now: Instant, t: Tables)
    requires Partitioned(all, t0.archive, Expired(t0.main, cutoff), Outlived(t0.archive, purgeCutoff), t, now)
    requires t0.main.Keys !! t0.archive.Keys && forall id :: id in t0.main ==> id in all && all[id] == t0.main[id]
    ensures ArchiveByAge(t0, cutoff, purgeCutoff, now, t)
  {
    forall id
      ensures id in t.archive <==>
                || (id in t0.archive && t0.archive[id].archivedAt >= purgeCutoff)
                || (id in t0.main && t0.main[id].createdAt < cutoff)
    {
      assert id in t.archive.Keys <==>
               id in t0.archive.Keys - Outlived(t0.archive, purgeCutoff) + Expired(t0.main, cutoff);
    }
  }

  lemma {:induction false} OneShotIsByAge(t0: Tables, arrivals: nat -> map<LogId, Log>, rounds: nat, cutoff: Instant,
                                          purgeCutoff: Instant, now: Instant, t: Tables, totals: Totals)
    requires OneShotPartition(t0, arrivals, rounds, cutoff, purgeCutoff, now, t, totals)
    requires FreshArrivals(arrivals, t0, cutoff) && t0.main.Keys !! t0.archive.Keys
    ensures MainByAge(WithArrivals(t0.main, arrivals, rounds), cutoff, t)
    ensures ArchiveByAge(t0, cutoff, purgeCutoff, now, t)
    ensures CountedByAge(t0, cutoff, purgeCutoff, totals)
  {
    hide Partitioned, Expired, Outlived, FreshArrivals, WithArrivals;
    ArrivalsNeverExpire(t0, arrivals, rounds, cutoff);
    MainIsByAge(WithArrivals(t0.main, arrivals, rounds), t0, cutoff, purgeCutoff, now, t);
    ArchiveIsByAge(WithArrivals(t0.main, arrivals, rounds), t0, cutoff, purgeCutoff, now, t);
    CountsAreByAge(t0, cutoff, purgeCutoff);
  }

  lemma {:induction false} PurgePartitions(all: map<LogId, Log>, kept: map<LogId, Archived>, moved: set<LogId>,
                                           purged: set<LogId>, t: Tables, now: Instant)
    requires Moved(all, kept, moved, t, now) && purged <= kept.Keys && moved !! kept.Keys
    ensures Partitioned(all, kept, moved, purged, PurgeCommit(t, purged), now)
  {
  }

  lemma {:induction false} PurgeCompletesPartition(t0: Tables, arrivals: nat -> map<LogId, Log>, rounds: nat,
                                                   cutoff: Instant, purgeCutoff: Instant, now: Instant, t1: Tables,
                                                   total: nat, purged: nat)
    requires t0.main.Keys !! t0.archive.Keys && purgeCutoff < now
    requires Moved(WithArrivals(t0.main, arrivals, rounds), t0.archive, Expired(t0.main, cutoff), t1, now)
    requires total == |Expired(t0.main, cutoff)| && purged == |Outlived(t1.archive, purgeCutoff)|
    ensures OneShotPartition(t0, arrivals, rounds, cutoff, purgeCutoff, now,
                             PurgeCommit(t1, Outlived(t1.archive, purgeCutoff)),
                             Totals(total, purged))
  {
    hide WithArrivals, Expired, Outlived, Moved, Partitioned, PurgeCommit;
    var all, due := WithArrivals(t0.main, arrivals, rounds), Expired(t0.main, cutoff);
    MovedRowsStay(all, t0.archive, due, t1, now, purgeCutoff);
    PurgePartitions(all, t0.archive, due, Outlived(t0.archive, purgeCutoff), t1, now);
  }

  lemma EmptyCommit(t: Tables, at: Instant)
    ensures ArchiveCommit(t, map[], at) == t
  {
  }

  /** The database as the job's own statements change it. */
  class LogDatabase {
    var main: map<LogId, Log>
    var archive: map<LogId, Archived>

    constructor (t: Tables)
      ensures Model() == t
    {
      main, archive := t.main, t.archive;
    }

    ghost function Model(): Tables
      reads this
    {
      Tables(main, archive)
    }

    /** `_archive_one_batch`: `at` is when its transaction began. */
    method ArchiveOneBatch(cutoff: Instant, batch: nat, at: Instant) returns (n: nat)
      modifies this
      ensures var rows := ArchiveBatch(old(main), cutoff, batch);
              Model() == ArchiveCommit(old(Model()), rows, at) && n == |rows|
    {
      hide ArchiveBatch;
      var rows := ArchiveBatch(main, cutoff, batch);
      if rows == map[] {
        EmptyCommit(Model(), at);
        return 0;
      }
      archive := (map id | id in rows :: Archived(rows[id], at)) + archive;
      main := main - rows.Keys;
      n := |rows|;
    }

    /** `_purge_expired_archive_batch`. */
    method PurgeOneBatch(cutoff: Instant, batch: nat) returns (n: nat)
      modifies this
      ensures var ids := PurgeBatch(old(archive), cutoff, batch);
              Model() == PurgeCommit(old(Model()), ids) && n == |ids|
    {
      hide PurgeBatch;
      var ids := PurgeBatch(archive, cutoff, batch);
      if ids == {} {
        assert archive - ids == archive;
        return 0;
      }
      archive := archive - ids;
      n := |ids|;
    }

    /** The first loop of `archive_operation_logs`: other transactions commit `arrivals(k)` before round `k`,
        and `txStart(k)` is when the transaction of round `k` begins. */
    method ArchiveExpired(cutoff: Instant, batch: nat, now: Instant, arrivals: nat -> map<LogId, Log>,
                          txStart: nat -> Instant)
      returns (total: nat, rounds: nat)
      requires batch > 0 && main.Keys !! archive.Keys
      requires FreshArrivals(arrivals, Model(), cutoff) && forall k :: txStart(k) >= now
      modifies this
      ensures Moved(WithArrivals(old(main), arrivals, rounds), old(archive), Expired(old(main), cutoff), Model(), now)
      ensures total == |Expired(old(main), cutoff)|
    {
      hide Moved, Archiving, ArchiveBatch, ArchiveCommit, FreshArrivals, Expired, WithArrivals;
      ghost var t0 := Model();
      ghost var moved: set<LogId> := {};
      var k := 0;
      total := 0;
      ArchivingStarts(t0, arrivals, cutoff, now);
      while true
        invariant Archiving(t0, arrivals, k, moved, Model(), cutoff, now)
        invariant total == |moved| <= |Expired(t0.main, cutoff)|
        decreases |Expired(t0.main, cutoff)| - |moved|
      {
        Round(t0, arrivals, k, moved, Model(), cutoff, batch, txStart(k), now);
        main := main + arrivals(k);
        moved := moved + ArchiveBatch(main, cutoff, batch).Keys;
        var n := ArchiveOneBatch(cutoff, batch, txStart(k));
        k := k + 1;
        total := total + n;
        ArchivingBounds(t0, arrivals, k, moved, Model(), cutoff, now);
        if n == 0 { break; }
      }
      rounds := k;
      ArchivingBounds(t0, arrivals, k, moved, Model(), cutoff, now);
    }

    /** The second loop: rows whose `archived_at` is too old leave the archive, while logs keep arriving in the
        main table.  `t0` and `due` are the tables the job started from and what its first loop moved. */
    method PurgeOutlived(cutoff: Instant, batch: nat, arrivals: nat -> map<LogId, Log>, firstRound: nat,
                         ghost t0: Tables, ghost due: set<LogId>, ghost now: Instant, ghost arrivalCutoff: Instant)
      returns (purged: nat, ghost rounds: nat)
      requires batch > 0 && FreshArrivals(arrivals, t0, arrivalCutoff)
      requires Moved(WithArrivals(t0.main, arrivals, firstRound), t0.archive, due, Model(), now)
      modifies this
      ensures archive == old(archive) - Outlived(old(archive), cutoff)
      ensures purged == |Outlived(old(archive), cutoff)|
      ensures Moved(WithArrivals(t0.main, arrivals, rounds), t0.archive, due, Tables(main, old(archive)), now)
    {
      hide Outlived, PurgeBatch, Moved, WithArrivals, FreshArrivals;
      ghost var gone: set<LogId> := {};
      var k := firstRound;
      purged := 0;
      assert archive - gone == archive;
      while true
        invariant gone <= Outlived(old(archive), cutoff) && purged == |gone| <= |Outlived(old(archive), cutoff)|
        invariant archive == old(archive) - gone
        invariant Moved(WithArrivals(t0.main, arrivals, k), t0.archive, due, Tables(main, old(archive)), now)
        decreases |Outlived(old(archive), cutoff)| - |gone|
      {
        ArrivalRound(t0, arrivals, k, due, Tables(main, old(archive)), now, arrivalCutoff);
        main := main + arrivals(k);
        k := k + 1;
        PurgeRound(old(archive), gone, cutoff, batch);
        gone := gone + PurgeBatch(archive, cutoff, batch);
        var n := PurgeOneBatch(cutoff, batch);
        purged := purged + n;
        if n == 0 { break; }
      }
      rounds := k;
    }

    /** The two loops, once the settings are checked. */
    method RunLoops(cutoff: Instant, purgeCutoff: Instant, batch: nat, now: Instant, arrivals: nat -> map<LogId, Log>,
                    txStart: nat -> Instant)
      returns (totals: Totals, ghost rounds: nat)
      requires main.Keys !! archive.Keys && batch > 0 && purgeCutoff < now
      requires FreshArrivals(arrivals, Model(), cutoff)
      requires forall k :: txStart(k) >= now
      modifies this
      ensures OneShotPartition(old(Model()), arrivals, rounds, cutoff, purgeCutoff, now, Model(), totals)
    {
      hide Moved, OneShotPartition, WithArrivals, FreshArrivals, Expired, Outlived;
      var total, next := ArchiveExpired(cutoff, batch, now, arrivals, txStart);
      ghost var archived, due := archive, Expired(old(main), cutoff);
      var purged;
      purged, rounds := PurgeOutlived(purgeCutoff, batch, arrivals, next, old(Model()), due, now, cutoff);
      ghost var t1 := Tables(main, archived);
      assert Model() == PurgeCommit(t1, Outlived(archived, purgeCutoff));
      PurgeCompletesPartition(old(Model()), arrivals, rounds, cutoff, purgeCutoff, now, t1, total, purged);
      totals := Totals(total, purged);
    }

    /** `archive_operation_logs`, run sequentially.  Whatever the batch size, it equals the one-shot
        partition, its totals are exact, and it ends although new logs keep arriving before every batch of
        both loops. */
    method ArchiveOperationLogs(retainDays: int, batch: int, finalRetainDays: int, now: Instant,
                                arrivals: nat -> map<LogId, Log>, txStart: nat -> Instant)
      returns (r: Result<Totals, string>, ghost rounds: nat)
      requires main.Keys !! archive.Keys
      requires FreshArrivals(arrivals, Model(), now - 86400 * retainDays)
      requires forall k :: txStart(k) >= now
      modifies this
      ensures r.Success? <==> retainDays > 0 && batch > 0 && finalRetainDays > 0
      ensures r.Failure? ==> Model() == old(Model())
      ensures r.Success? ==>
                var cutoff, purgeCutoff := now - 86400 * retainDays, now - 86400 * finalRetainDays;
                && OneShotPartition(old(Model()), arrivals, rounds, cutoff, purgeCutoff, now, Model(), r.value)
                && MainByAge(WithArrivals(old(main), arrivals, rounds), cutoff, Model())
                && ArchiveByAge(old(Model()), cutoff, purgeCutoff, now, Model())
                && CountedByAge(old(Model()), cutoff, purgeCutoff, r.value)
    {
      hide OneShotPartition, MainByAge, ArchiveByAge, CountedByAge, WithArrivals, FreshArrivals;
      rounds := 0;
      if retainDays <= 0 { return Failure("retention_days must be positive"), 0; }
      if batch <= 0 { return Failure("batch_size must be positive"), 0; }
      if finalRetainDays <= 0 { return Failure("final_retention_days must be positive"), 0; }
      var cutoff, purgeCutoff := now - retainDays * DAY, now - finalRetainDays * DAY;
      var totals;
      totals, rounds := RunLoops(cutoff, purgeCutoff, batch, now, arrivals, txStart);
      OneShotIsByAge(old(Model()), arrivals, rounds, cutoff, purgeCutoff, now, Model(), totals);
      r := Success(totals);
    }
  }
}
