/**
 Archiving and purging under at-least-once delivery: any number of workers select and commit batches,
 interleaved, redelivered and crashing anywhere.  The select and the commit of a batch are separate
 steps of one transaction; `archived_at` is the start of that transaction.
 */
module LogProtocol {
  import opened Wrappers
  import opened LogTables

  /** Retention periods, and `maxOpen`, the longest an archiving transaction stays open. */
  datatype Config = Config(retain: nat, finalRetain: nat, maxOpen: nat)

  datatype Mover = Mover(rows: map<LogId, Log>, startedAt: Instant)

  /** `written`, `purged` and `enteredAt` only record what happened. */
  datatype State = State(
    clock: Instant,
    tables: Tables,
    movers: map<nat, Mover>,
    purgers: map<nat, set<LogId>>,
    written: map<LogId, Log>,
    purged: map<LogId, Archived>,
    enteredAt: map<LogId, Instant>)

  const INITIAL := State(0, Tables(map[], map[]), map[], map[], map[], map[], map[])

  datatype Step =
    | Tick(to: Instant)
    | Write(id: LogId, log: Log)
    | SelectExpired(worker: nat, now: Instant, batch: nat)
    | CommitArchive(worker: nat)
    | SelectOutlived(worker: nat, now: Instant, batch: nat)
    | CommitPurge(worker: nat)
    | Crash(worker: nat)

  /** A task reads `now` before its batches, so `now` is never ahead of the clock. */
  ghost predicate Enabled(s: State, step: Step, c: Config) {
    match step
    case Tick(to) => s.clock <= to
    case Write(id, log) => id !in s.written && log.createdAt <= s.clock
    case SelectExpired(w, now, _) => w !in s.movers && now <= s.clock
    case CommitArchive(w) => w in s.movers && s.clock <= s.movers[w].startedAt + c.maxOpen
    case SelectOutlived(w, now, _) => w !in s.purgers && now <= s.clock
    case CommitPurge(w) => w in s.purgers
    case Crash(_) => true
  }

  ghost function Apply(s: State, step: Step, c: Config): State
    requires Enabled(s, step, c)
  {
    match step
    case Tick(to) => s.(clock := to)
    case Write(id, log) =>
      s.(tables := s.tables.(main := s.tables.main[id := log]), written := s.written[id := log])
    case SelectExpired(w, now, batch) =>
      s.(movers := s.movers[w := Mover(ArchiveBatch(s.tables.main, now - c.retain, batch), s.clock)])
    case CommitArchive(w) =>
      var m := s.movers[w];
      s.(tables := ArchiveCommit(s.tables, m.rows, m.startedAt),
         movers := s.movers - {w},
         enteredAt := (map id | id in m.rows :: s.clock) + s.enteredAt)
    case SelectOutlived(w, now, batch) =>
      s.(purgers := s.purgers[w := PurgeBatch(s.tables.archive, now - c.finalRetain, batch)])
    case CommitPurge(w) =>
      var ids := s.purgers[w];
      s.(tables := PurgeCommit(s.tables, ids),
         purgers := s.purgers - {w},
         purged := s.purged + (map id | id in ids && id in s.tables.archive :: s.tables.archive[id]))
    case Crash(w) => s.(movers := s.movers - {w}, purgers := s.purgers - {w})
  }

  ghost predicate Legal(steps: seq<Step>, c: Config)
    decreases |steps|, 0
  {
    steps == [] ||
    var n := |steps| - 1;
    Legal(steps[..n], c) && Enabled(Run(steps[..n], c), steps[n], c)
  }

  ghost function Run(steps: seq<Step>, c: Config): State
    requires Legal(steps, c)
    decreases |steps|, 1
  {
    if steps == [] then INITIAL
    else var n := |steps| - 1; Apply(Run(steps[..n], c), steps[n], c)
  }

  /** The main table, the archive and the purged hold every written log exactly once, unchanged. */
  ghost predicate Books(t: Tables, purged: map<LogId, Archived>, written: map<LogId, Log>) {
    && t.main.Keys !! t.archive.Keys && t.main.Keys !! purged.Keys && t.archive.Keys !! purged.Keys
    && written.Keys == t.main.Keys + t.archive.Keys + purged.Keys
    && (forall id :: id in t.main ==> t.main[id] == written[id])
    && (forall id :: id in t.archive ==> t.archive[id].log == written[id])
    && (forall id :: id in purged ==> purged[id].log == written[id])
  }

  ghost predicate Conserved(s: State) { Books(s.tables, s.purged, s.written) }

  /** No archiving transaction spans the purge of its own rows. */
  ghost predicate Lossless(c: Config) { 2 * c.maxOpen <= c.finalRetain }

  ghost predicate MoverOk(s: State, m: Mover, c: Config) {
    && m.startedAt <= s.clock
    && m.rows.Keys <= s.written.Keys
    && (forall id :: id in m.rows ==> m.rows[id] == s.written[id] && m.rows[id].createdAt + c.retain < m.startedAt)
    && (forall id :: id in m.rows && id in s.tables.archive ==>
          m.startedAt <= s.tables.archive[id].archivedAt + c.maxOpen)
    && (forall id :: id in m.rows && id in s.purged ==> m.startedAt + c.maxOpen < s.clock)
  }

  ghost predicate PurgerOk(s: State, ids: set<LogId>, c: Config) {
    && ids <= s.tables.archive.Keys + s.purged.Keys
    && (forall id :: id in ids && id in s.tables.archive ==> s.tables.archive[id].archivedAt + c.finalRetain < s.clock)
  }

  ghost predicate MoversOk(s: State, c: Config) {
    forall w :: w in s.movers ==> MoverOk(s, s.movers[w], c)
  }

  ghost predicate PurgersOk(s: State, c: Config) {
    forall w :: w in s.purgers ==> PurgerOk(s, s.purgers[w], c)
  }

  /** `enteredAt` covers the archived and the purged, and lies within one open transaction of `archived_at`. */
  ghost predicate Stamped(archive: map<LogId, Archived>, purged: set<LogId>, enteredAt: map<LogId, Instant>,
                          clock: Instant, c: Config) {
    && enteredAt.Keys == archive.Keys + purged
    && (forall id :: id in archive ==>
          archive[id].archivedAt <= enteredAt[id] <= archive[id].archivedAt + c.maxOpen && enteredAt[id] <= clock)
  }

  ghost predicate StampsOk(s: State, c: Config) {
    Stamped(s.tables.archive, s.purged.Keys, s.enteredAt, s.clock, c)
  }

  ghost predicate Inv(s: State, c: Config) {
    Conserved(s) && MoversOk(s, c) && PurgersOk(s, c) && StampsOk(s, c)
  }

  /** What a committed batch leaves in the tables, row by row. */
  lemma {:induction false} CommitLookup(t: Tables, rows: map<LogId, Log>, at: Instant)
    ensures var t' := ArchiveCommit(t, rows, at);
            && t'.main.Keys == t.main.Keys - rows.Keys && t'.archive.Keys == t.archive.Keys + rows.Keys
            && (forall id :: id in t'.main ==> t'.main[id] == t.main[id])
            && (forall id :: id in t'.archive ==>
                  t'.archive[id] == if id in t.archive then t.archive[id] else Archived(rows[id], at))
  {
  }

  lemma {:induction false} CommitKeepsBooks(t: Tables, purged: map<LogId, Archived>, written: map<LogId, Log>,
                                            rows: map<LogId, Log>, at: Instant)
    requires Books(t, purged, written) && rows.Keys <= written.Keys && rows.Keys !! purged.Keys
    requires forall id :: id in rows ==> rows[id] == written[id]
    ensures Books(ArchiveCommit(t, rows, at), purged, written)
  {
    CommitLookup(t, rows, at);
    hide ArchiveCommit;
  }

  lemma {:induction false} PurgeKeepsBooks(t: Tables, purged: map<LogId, Archived>, written: map<LogId, Log>,
                                           ids: set<LogId>)
    requires Books(t, purged, written)
    ensures Books(PurgeCommit(t, ids), purged + (map id | id in ids && id in t.archive :: t.archive[id]), written)
  {
  }

  lemma {:induction false} StepConserves(s: State, step: Step, c: Config)
    requires Inv(s, c) && Enabled(s, step, c)
    ensures Conserved(Apply(s, step, c))
  {
    match step
    case Write(id, log) =>
    case CommitArchive(w) =>
      assert MoverOk(s, s.movers[w], c);
      hide Books, ArchiveCommit;
      CommitKeepsBooks(s.tables, s.purged, s.written, s.movers[w].rows, s.movers[w].startedAt);
    case CommitPurge(w) =>
      hide Books, PurgeCommit;
      PurgeKeepsBooks(s.tables, s.purged, s.written, s.purgers[w]);
    case _ =>
  }

  lemma {:induction false} StepKeepsMover(s: State, step: Step, w: nat, c: Config)
    requires Inv(s, c) && Lossless(c) && Enabled(s, step, c) && w in Apply(s, step, c).movers
    ensures MoverOk(Apply(s, step, c), Apply(s, step, c).movers[w], c)
  {
    if w in s.movers { assert MoverOk(s, s.movers[w], c); }
    match step
    case CommitArchive(v) => assert MoverOk(s, s.movers[v], c);
    case CommitPurge(v) => assert PurgerOk(s, s.purgers[v], c);
    case _ =>
  }

  lemma {:induction false} StepKeepsPurger(s: State, step: Step, w: nat, c: Config)
    requires Inv(s, c) && Enabled(s, step, c) && w in Apply(s, step, c).purgers
    ensures PurgerOk(Apply(s, step, c), Apply(s, step, c).purgers[w], c)
  {
    if w in s.purgers { assert PurgerOk(s, s.purgers[w], c); }
    match step
    case CommitArchive(v) => assert MoverOk(s, s.movers[v], c);
    case CommitPurge(v) => assert PurgerOk(s, s.purgers[v], c);
    case _ =>
  }

  lemma {:induction false} CommitKeepsStamps(t: Tables, purged: set<LogId>, enteredAt: map<LogId, Instant>,
                                             rows: map<LogId, Log>, at: Instant, clock: Instant, c: Config)
    requires Stamped(t.archive, purged, enteredAt, clock, c) && at <= clock <= at + c.maxOpen && rows.Keys !! purged
    ensures Stamped(ArchiveCommit(t, rows, at).archive, purged, (map id | id in rows :: clock) + enteredAt, clock, c)
  {
    CommitLookup(t, rows, at);
    hide ArchiveCommit;
  }

  lemma {:induction false} StepKeepsStamps(s: State, step: Step, c: Config)
    requires Inv(s, c) && Enabled(s, step, c)
    ensures StampsOk(Apply(s, step, c), c)
  {
    if step.CommitArchive? {
      var m := s.movers[step.worker];
      assert MoverOk(s, m, c);
      assert m.rows.Keys !! s.purged.Keys;
      hide ArchiveCommit, Stamped, Books, MoverOk;
      CommitKeepsStamps(s.tables, s.purged.Keys, s.enteredAt, m.rows, m.startedAt, s.clock, c);
    } else {
      hide PurgersOk, MoversOk, Books;
    }
  }

  lemma {:induction false} StepKeepsInv(s: State, step: Step, c: Config)
    requires Inv(s, c) && Lossless(c) && Enabled(s, step, c)
    ensures Inv(Apply(s, step, c), c)
  {
    hide Apply, Enabled, Conserved, MoverOk, PurgerOk, StampsOk;
    var s' := Apply(s, step, c);
    StepConserves(s, step, c);
    StepKeepsStamps(s, step, c);
    forall w | w in s'.movers ensures MoverOk(s', s'.movers[w], c) { StepKeepsMover(s, step, w, c); }
    forall w | w in s'.purgers ensures PurgerOk(s', s'.purgers[w], c) { StepKeepsPurger(s, step, w, c); }
  }

  lemma {:induction false} RunKeepsInv(steps: seq<Step>, c: Config)
    requires Legal(steps, c) && Lossless(c)
    ensures Inv(Run(steps, c), c)
    decreases |steps|
  {
    if steps == [] {
    } else {
      var n := |steps| - 1;
      RunKeepsInv(steps[..n], c);
      StepKeepsInv(Run(steps[..n], c), steps[n], c);
    }
  }

  // --------------------------------------------------------------------------------------
  // Main results
  // --------------------------------------------------------------------------------------

  /** Conservation over every run of crashes, redeliveries and overlapping workers. */
  lemma {:induction false} LogsAreConserved(steps: seq<Step>, c: Config)
    requires Legal(steps, c) && Lossless(c)
    ensures Conserved(Run(steps, c))
  {
    RunKeepsInv(steps, c);
  }

  /** The row is still there with its content and its first `archived_at`, or it has been purged. */
  ghost predicate SettledAs(s: State, id: LogId, row: Archived) {
    (id in s.tables.archive && s.tables.archive[id] == row) || id in s.purged
  }

  lemma {:induction false} StepKeepsSettled(s: State, step: Step, id: LogId, row: Archived, c: Config)
    requires Enabled(s, step, c) && SettledAs(s, id, row)
    ensures SettledAs(Apply(s, step, c), id, row)
  {
    hide ArchiveBatch, PurgeBatch;
  }

  /** Whatever the timing: inserting again never touches an archived row. */
  lemma {:induction false} ArchivedRowsNeverChange(steps: seq<Step>, more: seq<Step>, id: LogId, c: Config)
    requires Legal(steps, c) && Legal(steps + more, c)
    requires id in Run(steps, c).tables.archive
    ensures SettledAs(Run(steps + more, c), id, Run(steps, c).tables.archive[id])
    decreases |more|
  {
    if more == [] {
      assert steps + more == steps;
    } else {
      var n := |more| - 1;
      assert (steps + more)[..|steps| + n] == steps + more[..n];
      assert (steps + more)[|steps| + n] == more[n];
      ArchivedRowsNeverChange(steps, more[..n], id, c);
      hide Apply, Enabled, SettledAs;
      StepKeepsSettled(Run(steps + more[..n], c), more[n], id, Run(steps, c).tables.archive[id], c);
    }
  }

  // --------------------------------------------------------------------------------------
  // Retention
  // --------------------------------------------------------------------------------------

  /** Rows of the main table and of open archiving batches are as written, and a batch holds only rows that
      were older than `retain` when its transaction began.  No timing is needed for this. */
  ghost predicate BatchesAreOld(s: State, c: Config) {
    && (forall id :: id in s.tables.main ==> id in s.written && s.tables.main[id] == s.written[id])
    && (forall w :: w in s.movers ==> BatchIsOld(s, s.movers[w], c))
  }

  ghost predicate BatchIsOld(s: State, m: Mover, c: Config) {
    && m.startedAt <= s.clock
    && forall id :: id in m.rows ==>
         id in s.written && m.rows[id] == s.written[id] && m.rows[id].createdAt + c.retain < m.startedAt
  }

  lemma {:induction false} StepKeepsBatch(s: State, step: Step, w: nat, c: Config)
    requires BatchesAreOld(s, c) && Enabled(s, step, c) && w in Apply(s, step, c).movers
    ensures BatchIsOld(Apply(s, step, c), Apply(s, step, c).movers[w], c)
  {
    hide PurgeBatch, PurgeCommit, ArchiveCommit;
    if w in s.movers {
      assert BatchIsOld(s, s.movers[w], c);
    }
  }

  lemma {:induction false} StepKeepsBatches(s: State, step: Step, c: Config)
    requires BatchesAreOld(s, c) && Enabled(s, step, c)
    ensures BatchesAreOld(Apply(s, step, c), c)
  {
    var s' := Apply(s, step, c);
    assert forall id :: id in s'.tables.main ==> id in s'.written && s'.tables.main[id] == s'.written[id] by {
      hide BatchIsOld, ArchiveBatch, PurgeBatch;
    }
    hide Apply, Enabled, BatchIsOld;
    forall w | w in s'.movers ensures BatchIsOld(s', s'.movers[w], c) {
      StepKeepsBatch(s, step, w, c);
    }
  }

  lemma {:induction false} RunKeepsBatches(steps: seq<Step>, c: Config)
    requires Legal(steps, c)
    ensures BatchesAreOld(Run(steps, c), c)
    decreases |steps|
  {
    if steps == [] {
    } else {
      var n := |steps| - 1;
      RunKeepsBatches(steps[..n], c);
      hide BatchesAreOld, Enabled, Apply;
      StepKeepsBatches(Run(steps[..n], c), steps[n], c);
    }
  }

  /** No log leaves the main table before it is older than `retain`, in any run whatever its timing. */
  lemma {:induction false} NothingLeavesMainEarly(steps: seq<Step>, step: Step, id: LogId, c: Config)
    requires Legal(steps, c) && Enabled(Run(steps, c), step, c)
    requires id in Run(steps, c).tables.main && id !in Apply(Run(steps, c), step, c).tables.main
    ensures Run(steps, c).tables.main[id].createdAt + c.retain < Run(steps, c).clock
  {
    RunKeepsBatches(steps, c);
    var s := Run(steps, c);
    hide Run, Legal;
    if step.CommitArchive? {
      assert BatchIsOld(s, s.movers[step.worker], c);
    }
  }

  /** This step takes `id` out of the archive. */
  ghost predicate Leaves(s: State, step: Step, id: LogId, c: Config) {
    Enabled(s, step, c) && id in s.tables.archive && id !in Apply(s, step, c).tables.archive
  }

  /** Every row this step takes out has been archived for more than `finalRetain`. */
  ghost predicate StaysFromStamp(s: State, step: Step, c: Config) {
    forall id :: Leaves(s, step, id, c) ==> s.tables.archive[id].archivedAt + c.finalRetain < s.clock
  }

  /** The same, counted from the commit that first put the row there. */
  ghost predicate StaysFromCommit(s: State, step: Step, c: Config) {
    forall id :: Leaves(s, step, id, c) ==> id in s.enteredAt && s.enteredAt[id] + c.finalRetain < s.clock
  }

  /** If no archiving transaction spans the purge of its own rows, a row leaves the archive only more than
      `finalRetain` after its `archived_at`.  Counted from the commit that put it there, the stay is shorter
      by at most the time that transaction was open. */
  lemma {:induction false} RetentionIsHonoured(steps: seq<Step>, step: Step, id: LogId, c: Config)
    requires Lossless(c) && Legal(steps, c) && Leaves(Run(steps, c), step, id, c)
    ensures var s := Run(steps, c);
            && s.tables.archive[id].archivedAt + c.finalRetain < s.clock
            && id in s.enteredAt && s.enteredAt[id] + c.finalRetain < s.clock + c.maxOpen
  {
    RunKeepsInv(steps, c);
    var s := Run(steps, c);
    hide Run, Legal;
    match step
    case CommitPurge(w) => assert PurgerOk(s, s.purgers[w], c);
    case _ =>
  }

  lemma {:induction false} Extend(steps: seq<Step>, step: Step, c: Config)
    requires Legal(steps, c) && Enabled(Run(steps, c), step, c)
    ensures Legal(steps + [step], c) && Run(steps + [step], c) == Apply(Run(steps, c), step, c)
  {
    assert (steps + [step])[..|steps|] == steps;
  }

  lemma {:induction false} OnlyRowIsPicked(log: Log, row: Archived, cutoff: Instant)
    ensures log.createdAt < cutoff ==> ArchiveBatch(map[0 := log], cutoff, 1) == map[0 := log]
    ensures row.archivedAt < cutoff ==> PurgeBatch(map[0 := row], cutoff, 1) == {0}
  {
    if log.createdAt < cutoff {
      assert Expired(map[0 := log], cutoff) == {0};
    }
    if row.archivedAt < cutoff {
      assert Outlived(map[0 := row], cutoff) == {0};
    }
    assert Least({0}) == 0;
    assert Smallest({0}, 1) == {0};
  }

  /** One expired log, selected by worker 1 at `retain + 1`, which waits as long as it may. */
  lemma {:induction false} SelectedOnce(c: Config, log: Log) returns (steps: seq<Step>)
    requires log.createdAt == 0
    ensures Legal(steps, c)
    ensures var t0, batch := c.retain + 1, map[0 := log];
            Run(steps, c) == State(t0 + c.maxOpen, Tables(batch, map[]), map[1 := Mover(batch, t0)], map[], batch,
                                   map[], map[])
  {
    assert Legal([], c) && Run([], c) == INITIAL;
    hide Run, Legal;
    var t0 := c.retain + 1;
    OnlyRowIsPicked(log, Archived(log, t0), t0 - c.retain);
    hide ArchiveBatch, PurgeBatch;
    Extend([], Write(0, log), c);
    var s1 := [Write(0, log)];
    assert [] + s1 == s1;
    Extend(s1, Tick(t0), c);
    Extend(s1 + [Tick(t0)], SelectExpired(1, t0, 1), c);
    var s3 := s1 + [Tick(t0)] + [SelectExpired(1, t0, 1)];
    Extend(s3, Tick(t0 + c.maxOpen), c);
    steps := s3 + [Tick(t0 + c.maxOpen)];
  }

  /** If `other`, worker 2 selects the log as late as the first may still commit. */
  lemma {:induction false} SelectedTwice(c: Config, log: Log, other: bool) returns (steps: seq<Step>)
    requires log.createdAt == 0
    ensures Legal(steps, c)
    ensures var t0, batch := c.retain + 1, map[0 := log];
            var first := map[1 := Mover(batch, t0)];
            Run(steps, c) == State(t0 + c.maxOpen, Tables(batch, map[]),
                                   if other then first[2 := Mover(batch, t0 + c.maxOpen)] else first, map[], batch,
                                   map[], map[])
  {
    var t0 := c.retain + 1;
    steps := SelectedOnce(c, log);
    OnlyRowIsPicked(log, Archived(log, t0), t0 + c.maxOpen - c.retain);
    hide Run, Legal, ArchiveBatch, PurgeBatch;
    if other {
      Extend(steps, SelectExpired(2, t0 + c.maxOpen, 1), c);
      steps := steps + [SelectExpired(2, t0 + c.maxOpen, 1)];
    }
  }

  /** The first worker then commits, as late as allowed. */
  lemma {:induction false} LateArchiving(c: Config, log: Log, other: bool) returns (steps: seq<Step>)
    requires log.createdAt == 0
    ensures Legal(steps, c)
    ensures var t0 := c.retain + 1;
            var s := Run(steps, c);
            && s.clock == t0 + c.maxOpen
            && s.tables == Tables(map[], map[0 := Archived(log, t0)])
            && s.enteredAt == map[0 := t0 + c.maxOpen] && s.purged == map[] && s.purgers == map[]
            && (other ==> s.movers == map[2 := Mover(map[0 := log], t0 + c.maxOpen)])
  {
    var t0 := c.retain + 1;
    steps := SelectedTwice(c, log, other);
    hide Run, Legal;
    Extend(steps, CommitArchive(1), c);
    steps := steps + [CommitArchive(1)];
    assert Run(steps, c).tables == Tables(map[], map[0 := Archived(log, t0)]);
    assert Run(steps, c).enteredAt == map[0 := t0 + c.maxOpen];
  }

  /** Worker `w` selects the only archived row for purging. */
  lemma {:induction false} SelectOnlyRow(steps: seq<Step>, w: nat, to: Instant, row: Archived, c: Config)
    returns (all: seq<Step>)
    requires Legal(steps, c) && Run(steps, c).tables == Tables(map[], map[0 := row])
    requires Run(steps, c).clock <= to && w !in Run(steps, c).purgers && row.archivedAt + c.finalRetain < to
    ensures Legal(all, c)
    ensures Run(all, c) == Run(steps, c).(clock := to, purgers := Run(steps, c).purgers[w := {0}])
  {
    hide Run, Legal;
    OnlyRowIsPicked(row.log, row, to - c.finalRetain);
    hide PurgeBatch;
    all := steps;
    Extend(all, Tick(to), c);
    all := all + [Tick(to)];
    Extend(all, SelectOutlived(w, to, 1), c);
    all := all + [SelectOutlived(w, to, 1)];
  }

  lemma {:induction false} PurgeOnlyRow(steps: seq<Step>, w: nat, c: Config)
    requires Legal(steps, c) && Run(steps, c).tables.main == map[] && Run(steps, c).tables.archive.Keys == {0}
    requires w in Run(steps, c).purgers && Run(steps, c).purgers[w] == {0}
    ensures Legal(steps + [CommitPurge(w)], c)
    ensures var s, t := Run(steps, c), Run(steps + [CommitPurge(w)], c);
            && t.clock == s.clock && t.tables == Tables(map[], map[]) && 0 in t.purged
            && t.movers == s.movers && t.purgers == s.purgers - {w} && t.enteredAt == s.enteredAt
  {
    hide Run, Legal;
    Extend(steps, CommitPurge(w), c);
    assert Run(steps + [CommitPurge(w)], c).tables == Tables(map[], map[]);
  }

  /** An instant at which a log archived at `t0` has outlived its stay although the transactions begun by
      `t0 + maxOpen` may still be open, unless `Lossless` holds. */
  function Late(c: Config): Instant {
    var t0 := c.retain + 1;
    if c.maxOpen > c.finalRetain then t0 + c.maxOpen else t0 + c.finalRetain + 1
  }

  /** With longer transactions a log comes back after its purge: two workers select it, one archives it,
      it is purged, and the other one archives it again. */
  lemma {:induction false} PurgedLogComesBack(c: Config) returns (steps: seq<Step>)
    requires !Lossless(c)
    ensures Legal(steps, c) && !Conserved(Run(steps, c))
  {
    var log, t0 := Log(0, ""), c.retain + 1;
    var before := LateArchiving(c, log, true);
    hide Run, Legal;
    before := SelectOnlyRow(before, 3, Late(c), Archived(log, t0), c);
    PurgeOnlyRow(before, 3, c);
    steps := before + [CommitPurge(3)];
    Extend(steps, CommitArchive(2), c);
    steps := steps + [CommitArchive(2)];
    assert 0 in Run(steps, c).tables.archive && 0 in Run(steps, c).purged;
  }

  /** The exact threshold: no run ever loses or duplicates a log if and only if an archiving transaction
      stays open for at most half the final retention period. */
  lemma {:induction false} ConservationThresholdIsExact(c: Config)
    ensures (forall steps :: Legal(steps, c) ==> Conserved(Run(steps, c))) <==> Lossless(c)
  {
    if Lossless(c) {
      forall steps | Legal(steps, c) ensures Conserved(Run(steps, c)) {
        RunKeepsInv(steps, c);
      }
    } else {
      var steps := PurgedLogComesBack(c);
    }
  }

  /** Workers 3 and 4 select the archived log for purging and worker 3 commits, while the late archiving
      transaction of worker 2 is still open. */
  lemma {:induction false} PurgedBesideAnother(c: Config, log: Log) returns (steps: seq<Step>)
    requires !Lossless(c) && log.createdAt == 0
    ensures Legal(steps, c)
    ensures var s := Run(steps, c);
            && s.clock == Late(c) && s.tables == Tables(map[], map[])
            && s.movers == map[2 := Mover(map[0 := log], c.retain + 1 + c.maxOpen)] && s.purgers == map[4 := {0}]
  {
    steps := LateArchiving(c, log, true);
    hide Run, Legal;
    steps := SelectOnlyRow(steps, 3, Late(c), Archived(log, c.retain + 1), c);
    steps := SelectOnlyRow(steps, 4, Late(c), Archived(log, c.retain + 1), c);
    PurgeOnlyRow(steps, 3, c);
    steps := steps + [CommitPurge(3)];
  }

  /** With longer transactions a row can also leave the archive too early by its own `archived_at`: two workers
      select it for purging, one purges it, a late archiving transaction brings it back with its own stamp, and
      the other one purges it again. */
  lemma {:induction false} StampFallsShort(c: Config) returns (steps: seq<Step>, step: Step)
    requires !Lossless(c)
    ensures Legal(steps, c) && !StaysFromStamp(Run(steps, c), step, c)
  {
    steps := PurgedBesideAnother(c, Log(0, ""));
    hide Run, Legal;
    Extend(steps, CommitArchive(2), c);
    steps := steps + [CommitArchive(2)];
    step := CommitPurge(4);
    assert Run(steps, c).tables.archive == map[0 := Archived(Log(0, ""), c.retain + 1 + c.maxOpen)];
    assert Leaves(Run(steps, c), step, 0, c);
  }

  /** Counted from `archived_at`, the final retention is kept in every run if and only if an archiving
      transaction stays open for at most half of it. */
  lemma {:induction false} StayFromStampIsExact(c: Config)
    ensures (forall steps, step :: Legal(steps, c) ==> StaysFromStamp(Run(steps, c), step, c)) <==> Lossless(c)
  {
    if Lossless(c) {
      forall steps, step | Legal(steps, c) ensures StaysFromStamp(Run(steps, c), step, c) {
        forall id | Leaves(Run(steps, c), step, id, c)
          ensures Run(steps, c).tables.archive[id].archivedAt + c.finalRetain < Run(steps, c).clock
        {
          RetentionIsHonoured(steps, step, id, c);
        }
      }
    } else {
      var steps, step := StampFallsShort(c);
    }
  }

  /** `archived_at` is when the transaction began, so counted from the commit a stay can fall short as soon as
      a transaction may be open at all. */
  lemma {:induction false} StayFromCommitFallsShort(c: Config) returns (steps: seq<Step>, step: Step)
    requires c.maxOpen > 0
    ensures Legal(steps, c) && !StaysFromCommit(Run(steps, c), step, c)
  {
    var log, t0 := Log(0, ""), c.retain + 1;
    steps := LateArchiving(c, log, false);
    hide Run, Legal;
    steps := SelectOnlyRow(steps, 3, Late(c), Archived(log, t0), c);
    step := CommitPurge(3);
    assert Leaves(Run(steps, c), step, 0, c);
  }

  /** Counted from the commit, the final retention is kept in every run if and only if archiving transactions
      take no time. */
  lemma {:induction false} StayFromCommitIsExact(c: Config)
    ensures (forall steps, step :: Legal(steps, c) ==> StaysFromCommit(Run(steps, c), step, c)) <==> c.maxOpen == 0
  {
    if c.maxOpen == 0 {
      forall steps, step | Legal(steps, c) ensures StaysFromCommit(Run(steps, c), step, c) {
        forall id | Leaves(Run(steps, c), step, id, c)
          ensures id in Run(steps, c).enteredAt && Run(steps, c).enteredAt[id] + c.finalRetain < Run(steps, c).clock
        {
          RetentionIsHonoured(steps, step, id, c);
        }
      }
    } else {
      var steps, step := StayFromCommitFallsShort(c);
    }
  }

  /** A crash leaves the tables as they were, and the redelivered job selects afresh from them, with whatever
      clock reading and batch size. */
  lemma {:induction false} CrashedWorkIsSelectedAgain(steps: seq<Step>, w: nat, now: Instant, batch: nat, c: Config)
    requires Legal(steps, c) && now <= Run(steps, c).clock
    ensures var again := steps + [Crash(w)] + [SelectExpired(w, now, batch)];
            && Legal(again, c)
            && var s, t := Run(steps, c), Run(again, c);
            && t.tables == s.tables && t.purged == s.purged && w in t.movers
            && t.movers[w].rows == ArchiveBatch(s.tables.main, now - c.retain, batch)
  {
    Extend(steps, Crash(w), c);
    Extend(steps + [Crash(w)], SelectExpired(w, now, batch), c);
  }
}
