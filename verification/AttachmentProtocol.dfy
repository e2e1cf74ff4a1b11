/**
 Attachments live in two stores that share no transaction: files on disk and rows in the database.
 Uploads write the file and then the row, deletes remove the file and then the row, and the orphan
 collector takes a snapshot of the rows, then lists the files, then reads the clock, then deletes.

 Every atomic effect is one step; steps of any number of uploads, deletes, collectors and crashes
 interleave freely.
 */
module AttachmentProtocol {
  import opened Wrappers
  import opened StorageKeys

  type Key = string
  type Instant = nat

  /** `commitWithin`: an upload commits its row at most this long after creating its file.
      `scanWithin`: a collector reads the clock at most this long after its snapshot.
      `minAge`: the configured minimum age of an orphan. */
  datatype Config = Config(commitWithin: nat, scanWithin: nat, minAge: nat)

  /** One collector run: rows seen, when, the files listed so far with their mtimes, and `now`. */
  datatype Scan = Scan(snapshot: set<Key>, takenAt: Instant, listed: map<Key, Instant>, now: Option<Instant>)

  /** `born` records when each key's file was created; `torn` the rows whose file a delete has removed
      without having committed yet. */
  datatype State = State(
    clock: Instant,
    files: map<Key, Instant>,
    rows: set<Key>,
    uploads: set<Key>,
    born: map<Key, Instant>,
    torn: set<Key>,
    scans: map<nat, Scan>)

  const INITIAL := State(0, map[], {}, {}, map[], {}, map[])

  datatype Step =
    | Tick(to: Instant)
    | CreateFile(key: Key)
    | WriteChunk(key: Key)
    | AbortUpload(key: Key)
    | CrashUpload(key: Key)
    | CommitRow(key: Key)
    | RemoveFile(key: Key)
    | CommitDelete(key: Key)
    | CascadeDelete(keys: set<Key>)
    | Snapshot(id: nat)
    | ListFile(id: nat, key: Key)
    | ReadNow(id: nat)
    | Collect(id: nat, key: Key)
    | CrashScan(id: nat)

  /** The collector's decision for one listed file. */
  predicate ShouldCollect(key: Key, mtime: int, referenced: set<Key>, now: int, minAge: int) {
    key !in referenced && IsSafeKey(key) && now - mtime >= minAge
  }

  ghost predicate Enabled(s: State, step: Step, c: Config) {
    match step
    case Tick(to) => s.clock <= to
    case CreateFile(k) => k !in s.born && IsSafeKey(k)
    case WriteChunk(k) => k in s.uploads
    case AbortUpload(k) => k in s.uploads
    case CrashUpload(k) => k in s.uploads
    case CommitRow(k) => k in s.uploads && k in s.born && s.clock <= s.born[k] + c.commitWithin
    case RemoveFile(k) => k in s.born && k !in s.uploads  // the row was read earlier and may be gone
    case CommitDelete(k) => k in s.torn
    case CascadeDelete(ks) => ks <= s.rows
    case Snapshot(id) => id !in s.scans
    case ListFile(id, k) => id in s.scans && s.scans[id].now.None? && k in s.files
    case ReadNow(id) =>
      id in s.scans && s.scans[id].now.None? && s.clock <= s.scans[id].takenAt + c.scanWithin
    case Collect(id, k) =>
      && id in s.scans && s.scans[id].now.Some? && k in s.scans[id].listed
      && ShouldCollect(k, s.scans[id].listed[k], s.scans[id].snapshot, s.scans[id].now.value, c.minAge)
    case CrashScan(id) => id in s.scans
  }

  ghost function Apply(s: State, step: Step, c: Config): State
    requires Enabled(s, step, c)
  {
    match step
    case Tick(to) => s.(clock := to)
    case CreateFile(k) =>
      s.(files := s.files[k := s.clock], born := s.born[k := s.clock], uploads := s.uploads + {k})
    case WriteChunk(k) => if k in s.files then s.(files := s.files[k := s.clock]) else s
    case AbortUpload(k) => s.(files := s.files - {k}, uploads := s.uploads - {k})
    case CrashUpload(k) => s.(uploads := s.uploads - {k})
    case CommitRow(k) => s.(rows := s.rows + {k}, uploads := s.uploads - {k})
    case RemoveFile(k) =>
      s.(files := s.files - {k}, torn := if k in s.rows then s.torn + {k} else s.torn)
    case CommitDelete(k) => s.(rows := s.rows - {k}, torn := s.torn - {k})
    case CascadeDelete(ks) => s.(rows := s.rows - ks, torn := s.torn - ks)
    case Snapshot(id) => s.(scans := s.scans[id := Scan(s.rows, s.clock, map[], None)])
    case ListFile(id, k) =>
      var scan := s.scans[id];
      s.(scans := s.scans[id := scan.(listed := scan.listed[k := s.files[k]])])
    case ReadNow(id) => s.(scans := s.scans[id := s.scans[id].(now := Some(s.clock))])
    case Collect(_, k) => s.(files := s.files - {k})
    case CrashScan(id) => s.(scans := s.scans - {id})
  }

  ghost predicate Legal(steps: seq<Step>, c: Config)
    decreases |steps|, 0
  {
    steps == [] ||
    var n := |steps| - 1;
    Legal(steps[..n], c) && Enabled(Run(steps[..n], c), steps[n], c)
  }

  ghost function Run(steps: seq<Step>, c: Config): State
    requires Legal(steps, c)
    decreases |steps|, 1
  {
    if steps == [] then INITIAL
    else var n := |steps| - 1; Apply(Run(steps[..n], c), steps[n], c)
  }

  /** Performing `steps` in state `s` is enabled step by step and ends in `t`. */
  ghost predicate Reaches(s: State, steps: seq<Step>, t: State, c: Config)
    decreases |steps|
  {
    if steps == [] then s == t else Enabled(s, steps[0], c) && Reaches(Apply(s, steps[0], c), steps[1..], t, c)
  }

  /** What a run reaches from its last state is a longer run. */
  lemma {:induction false} ReachesExtendsRun(steps: seq<Step>, more: seq<Step>, t: State, c: Config)
    requires Legal(steps, c) && Reaches(Run(steps, c), more, t, c)
    ensures Legal(steps + more, c) && Run(steps + more, c) == t
    decreases |more|
  {
    if more == [] {
      assert steps + more == steps;
    } else {
      Extend(steps, more[0], c);
      ReachesExtendsRun(steps + [more[0]], more[1..], t, c);
      assert steps + more == steps + [more[0]] + more[1..];
    }
  }

  /** No committed row has lost its file, except through a delete of that very row. */
  ghost predicate RowsHaveFiles(s: State) {
    forall k :: k in s.rows ==> k in s.files || k in s.torn
  }

  ghost predicate Safe(c: Config) { c.commitWithin + c.scanWithin < c.minAge }

  /** The row of `k` can still be committed. */
  ghost predicate MayCommit(s: State, k: Key, c: Config) {
    k in s.uploads && k in s.born && s.clock <= s.born[k] + c.commitWithin
  }

  /** A scan's clock readings are in order, and listed files were no older than their creation. */
  ghost predicate ScanTimed(s: State, scan: Scan, c: Config) {
    && scan.takenAt <= s.clock
    && (forall k :: k in scan.listed ==> k in s.born && s.born[k] <= scan.listed[k])
    && (scan.now.Some? ==> scan.takenAt <= scan.now.value <= s.clock && scan.now.value <= scan.takenAt + c.scanWithin)
  }

  /** A row the snapshot missed was committed after it. */
  ghost predicate SnapshotMisses(s: State, scan: Scan, c: Config) {
    forall k :: k in s.rows && k !in scan.snapshot ==> k in s.born && scan.takenAt <= s.born[k] + c.commitWithin
  }

  ghost predicate ScansOk(s: State, c: Config) {
    forall id :: id in s.scans ==> ScanTimed(s, s.scans[id], c) && SnapshotMisses(s, s.scans[id], c)
  }

  ghost predicate BooksOk(s: State) {
    && (forall k :: k in s.files ==> k in s.born && s.born[k] <= s.files[k])
    && (forall k :: k in s.born ==> s.born[k] <= s.clock)
    && s.rows <= s.born.Keys && s.uploads <= s.born.Keys && s.torn <= s.rows
    && s.rows !! s.uploads
  }

  ghost predicate FilesOk(s: State, c: Config) {
    RowsHaveFiles(s) && forall k :: MayCommit(s, k, c) ==> k in s.files
  }

  ghost predicate Inv(s: State, c: Config) {
    BooksOk(s) && ScansOk(s, c) && FilesOk(s, c)
  }

  /** A file the collector takes is neither referenced nor still going to be. */
  lemma {:induction false} CollectedIsDead(s: State, id: nat, k: Key, c: Config)
    requires Inv(s, c) && Safe(c) && Enabled(s, Collect(id, k), c)
    ensures k in s.born && k !in s.rows && !MayCommit(s, k, c)
  {
    var scan := s.scans[id];
    assert ScanTimed(s, scan, c) && SnapshotMisses(s, scan, c);
    assert scan.now.value >= s.born[k] + c.minAge;
  }

  lemma {:induction false} StepKeepsScans(s: State, step: Step, id: nat, c: Config)
    requires BooksOk(s) && ScansOk(s, c) && Enabled(s, step, c) && id in Apply(s, step, c).scans
    ensures ScanTimed(Apply(s, step, c), Apply(s, step, c).scans[id], c)
  {
    hide ShouldCollect, SnapshotMisses;
    if id in s.scans {
      assert ScanTimed(s, s.scans[id], c);
    }
  }

  lemma {:induction false} StepKeepsSnapshots(s: State, step: Step, id: nat, c: Config)
    requires BooksOk(s) && ScansOk(s, c) && Enabled(s, step, c) && id in Apply(s, step, c).scans
    ensures SnapshotMisses(Apply(s, step, c), Apply(s, step, c).scans[id], c)
  {
    hide ShouldCollect;
    if id in s.scans {
      assert ScanTimed(s, s.scans[id], c) && SnapshotMisses(s, s.scans[id], c);
    }
  }

  lemma {:induction false} StepKeepsFiles(s: State, step: Step, c: Config)
    requires Inv(s, c) && Safe(c) && Enabled(s, step, c)
    ensures FilesOk(Apply(s, step, c), c)
  {
    hide ShouldCollect, ScansOk;
    if step.Collect? {
      CollectedIsDead(s, step.id, step.key, c);
    }
    var s' := Apply(s, step, c);
    forall k | MayCommit(s', k, c) ensures k in s'.files {
      if k in s.uploads { assert MayCommit(s, k, c); }
    }
  }

  lemma {:induction false} StepKeepsInv(s: State, step: Step, c: Config)
    requires Inv(s, c) && Safe(c) && Enabled(s, step, c)
    ensures Inv(Apply(s, step, c), c)
  {
    hide ShouldCollect, ScanTimed, SnapshotMisses;
    var s' := Apply(s, step, c);
    forall id | id in s'.scans ensures ScanTimed(s', s'.scans[id], c) && SnapshotMisses(s', s'.scans[id], c) {
      StepKeepsScans(s, step, id, c);
      StepKeepsSnapshots(s, step, id, c);
    }
    StepKeepsFiles(s, step, c);
  }

  lemma {:induction false} StepKeepsBooks(s: State, step: Step, c: Config)
    requires BooksOk(s) && Enabled(s, step, c)
    ensures BooksOk(Apply(s, step, c))
  {
    hide ShouldCollect, IsSafeKey;
  }

  /** The bookkeeping of files, rows and uploads holds in every run, whatever its timing. */
  lemma {:induction false} BooksAlwaysHold(steps: seq<Step>, c: Config)
    requires Legal(steps, c)
    ensures BooksOk(Run(steps, c))
    decreases |steps|
  {
    if steps == [] {
    } else {
      var n := |steps| - 1;
      BooksAlwaysHold(steps[..n], c);
      hide BooksOk, Enabled, Apply;
      StepKeepsBooks(Run(steps[..n], c), steps[n], c);
    }
  }

  lemma {:induction false} RunKeepsInv(steps: seq<Step>, c: Config)
    requires Legal(steps, c) && Safe(c)
    ensures Inv(Run(steps, c), c)
    decreases |steps|
  {
    if steps == [] {
    } else {
      var n := |steps| - 1;
      RunKeepsInv(steps[..n], c);
      StepKeepsInv(Run(steps[..n], c), steps[n], c);
    }
  }

  // --------------------------------------------------------------------------------------
  // Main results
  // --------------------------------------------------------------------------------------

  /** Crash consistency: in every run a committed row lacks its file only when a delete of that row
      removed the file and has not committed. */
  lemma {:induction false} CommittedRowsKeepTheirFiles(steps: seq<Step>, c: Config)
    requires Legal(steps, c) && Safe(c)
    ensures RowsHaveFiles(Run(steps, c))
  {
    RunKeepsInv(steps, c);
  }

  lemma {:induction false} Extend(steps: seq<Step>, step: Step, c: Config)
    requires Legal(steps, c) && Enabled(Run(steps, c), step, c)
    ensures Legal(steps + [step], c) && Run(steps + [step], c) == Apply(Run(steps, c), step, c)
  {
    assert (steps + [step])[..|steps|] == steps;
  }

  lemma {:induction false} DeadStep(s: State, step: Step, k: Key, c: Config)
    requires Enabled(s, step, c)
    requires k in s.born && k !in s.rows && !MayCommit(s, k, c)
    ensures var s' := Apply(s, step, c); k in s'.born && k !in s'.rows && !MayCommit(s', k, c)
  {
  }

  lemma {:induction false} DeadStaysDead(steps: seq<Step>, more: seq<Step>, k: Key, c: Config)
    requires Legal(steps, c) && Legal(steps + more, c)
    requires k in Run(steps, c).born && k !in Run(steps, c).rows && !MayCommit(Run(steps, c), k, c)
    ensures var s := Run(steps + more, c); k in s.born && k !in s.rows && !MayCommit(s, k, c)
    decreases |more|
  {
    hide Enabled, Apply, MayCommit;
    if more == [] {
      assert steps + more == steps;
    } else {
      var n := |more| - 1;
      assert (steps + more)[..|steps| + n] == steps + more[..n];
      assert (steps + more)[|steps| + n] == more[n];
      DeadStaysDead(steps, more[..n], k, c);
      DeadStep(Run(steps + more[..n], c), more[n], k, c);
    }
  }

  /** A collector never deletes a file whose row is committed or ever will be, however the run goes on. */
  lemma {:induction false} CollectorSparesLiveFiles(steps: seq<Step>, id: nat, k: Key, more: seq<Step>, c: Config)
    requires Safe(c) && Legal(steps, c)
    requires Legal(steps + [Collect(id, k)], c) && Legal(steps + [Collect(id, k)] + more, c)
    ensures k !in Run(steps, c).rows
    ensures k !in Run(steps + [Collect(id, k)] + more, c).rows
  {
    var collect := Collect(id, k);
    assert (steps + [collect])[..|steps|] == steps;
    RunKeepsInv(steps, c);
    CollectedIsDead(Run(steps, c), id, k, c);
    DeadStaysDead(steps + [collect], more, k, c);
  }

  lemma {:induction false} PlainKeyIsSafe()
    ensures IsSafeKey("a")
  {
    SplitConcat("a", "");
  }

  /** With any weaker timing a run exists that loses the file of a committed row: the row commits at the
      last moment, right after the snapshot, and the collector reads the clock as late as it may. */
  lemma {:induction false} LateCommitLosesFile(c: Config) returns (steps: seq<Step>)
    requires !Safe(c)
    ensures Legal(steps, c) && !RowsHaveFiles(Run(steps, c))
  {
    assert Legal([], c) && Run([], c) == INITIAL;
    hide Run, Legal, IsSafeKey;
    var k: Key := "a";
    PlainKeyIsSafe();
    steps := [];
    Extend(steps, CreateFile(k), c);
    steps := steps + [CreateFile(k)];
    Extend(steps, Tick(c.commitWithin), c);
    steps := steps + [Tick(c.commitWithin)];
    Extend(steps, Snapshot(0), c);
    steps := steps + [Snapshot(0)];
    Extend(steps, ListFile(0, k), c);
    steps := steps + [ListFile(0, k)];
    Extend(steps, CommitRow(k), c);
    steps := steps + [CommitRow(k)];
    Extend(steps, Tick(c.commitWithin + c.scanWithin), c);
    steps := steps + [Tick(c.commitWithin + c.scanWithin)];
    Extend(steps, ReadNow(0), c);
    steps := steps + [ReadNow(0)];
    Extend(steps, Collect(0, k), c);
    steps := steps + [Collect(0, k)];
  }

  /** The exact threshold: no run ever loses the file of a committed row if and only if commit latency
      and snapshot latency together stay below the minimum age. */
  lemma {:induction false} TimingThresholdIsExact(c: Config)
    ensures (forall steps :: Legal(steps, c) ==> RowsHaveFiles(Run(steps, c))) <==> Safe(c)
  {
    if Safe(c) {
      forall steps | Legal(steps, c) ensures RowsHaveFiles(Run(steps, c)) {
        RunKeepsInv(steps, c);
      }
    } else {
      var steps := LateCommitLosesFile(c);
    }
  }

  /** A delete that removed the file but did not commit can be retried, and the retry removes both. */
  lemma {:induction false} RetriedDeleteRemovesBoth(steps: seq<Step>, k: Key, c: Config)
    requires Legal(steps, c) && k in Run(steps, c).torn
    ensures var retry := [RemoveFile(k), CommitDelete(k)];
            && Legal(steps + retry, c)
            && var s := Run(steps + retry, c); k !in s.rows && k !in s.files && k !in s.torn
  {
    BooksAlwaysHold(steps, c);
    Extend(steps, RemoveFile(k), c);
    Extend(steps + [RemoveFile(k)], CommitDelete(k), c);
    assert steps + [RemoveFile(k)] + [CommitDelete(k)] == steps + [RemoveFile(k), CommitDelete(k)];
  }

  /** When the file of `k` was last written in this run, if it ever was. */
  ghost function LastWrite(steps: seq<Step>, k: Key, c: Config): Option<Instant>
    requires Legal(steps, c)
    decreases |steps|
  {
    if steps == [] then None
    else
      var p, step := steps[..|steps| - 1], steps[|steps| - 1];
      if step == CreateFile(k) || step == WriteChunk(k) then Some(Run(p, c).clock) else LastWrite(p, k, c)
  }

  /** A file's age counts from its last chunk, so a long upload stays young while it is being written. */
  lemma {:induction false} AgeCountsFromLastWrite(steps: seq<Step>, k: Key, c: Config)
    requires Legal(steps, c) && k in Run(steps, c).files
    ensures LastWrite(steps, k, c) == Some(Run(steps, c).files[k])
    decreases |steps|
  {
    if steps == [] {
    } else {
      var p, step := steps[..|steps| - 1], steps[|steps| - 1];
      if k in Run(p, c).files {
        AgeCountsFromLastWrite(p, k, c);
      }
      hide ShouldCollect;
    }
  }

  /** The steps of a collector that starts now, finds `k` and reads the clock at `now`. */
  function SweepFor(id: nat, k: Key, now: Instant): seq<Step> {
    [Tick(now), Snapshot(id), ListFile(id, k), ReadNow(id), Collect(id, k)]
  }

  /** What a crashed upload leaves is not lost for good: its file stays, and any collector that starts once it is
      old enough removes it. */
  lemma {:induction false} CrashedUploadIsCollected(steps: seq<Step>, k: Key, id: nat, now: Instant, c: Config)
    requires Legal(steps, c) && k in Run(steps, c).uploads && k in Run(steps, c).files && id !in Run(steps, c).scans
    requires Run(steps, c).clock <= now && Run(steps, c).files[k] + c.minAge <= now
    ensures var crashed := steps + [CrashUpload(k)];
            && Legal(crashed, c) && k in Run(crashed, c).files
            && Legal(crashed + SweepFor(id, k, now), c) && k !in Run(crashed + SweepFor(id, k, now), c).files
  {
    BooksAlwaysHold(steps, c);
    CreatedKeysAreSafe(steps, c);
    Extend(steps, CrashUpload(k), c);
    var s, crashed := Run(steps, c), steps + [CrashUpload(k)];
    UploadsHaveNoRows(s, k);
    hide Run, Legal, IsSafeKey, BooksOk, Reaches;
    var t := SweepCollects(Run(crashed, c), k, id, now, c);
    ReachesExtendsRun(crashed, SweepFor(id, k, now), t, c);
  }

  /** When rows vanish in a cascade their files stay behind, and any collector that starts once such a file is old
      enough removes it. */
  lemma {:induction false} CascadedFilesAreCollected(steps: seq<Step>, ks: set<Key>, k: Key, id: nat, now: Instant,
                                                     c: Config)
    requires Legal(steps, c) && ks <= Run(steps, c).rows && k in ks && k in Run(steps, c).files
    requires id !in Run(steps, c).scans
    requires Run(steps, c).clock <= now && Run(steps, c).files[k] + c.minAge <= now
    ensures var cut := steps + [CascadeDelete(ks)];
            && Legal(cut, c) && k in Run(cut, c).files && k !in Run(cut, c).rows
            && Legal(cut + SweepFor(id, k, now), c) && k !in Run(cut + SweepFor(id, k, now), c).files
  {
    BooksAlwaysHold(steps, c);
    CreatedKeysAreSafe(steps, c);
    Extend(steps, CascadeDelete(ks), c);
    var cut := steps + [CascadeDelete(ks)];
    hide Run, Legal, IsSafeKey, Reaches;
    var t := SweepCollects(Run(cut, c), k, id, now, c);
    ReachesExtendsRun(cut, SweepFor(id, k, now), t, c);
  }

  lemma {:induction false} SweepCollects(s: State, k: Key, id: nat, now: Instant, c: Config) returns (t: State)
    requires k in s.files && k !in s.rows && IsSafeKey(k) && id !in s.scans
    requires s.clock <= now && s.files[k] + c.minAge <= now
    ensures Reaches(s, SweepFor(id, k, now), t, c) && k !in t.files
  {
    hide IsSafeKey;
    var listed := s.(clock := now, scans := s.scans[id := Scan(s.rows, now, map[k := s.files[k]], None)]);
    t := ReadAndCollect(listed, k, id, c);
    hide Reaches, ShouldCollect;
    var started := s.(clock := now, scans := s.scans[id := Scan(s.rows, now, map[], None)]);
    assert Apply(started, ListFile(id, k), c) == listed;
    ReachesOneMore(started, ListFile(id, k), [ReadNow(id), Collect(id, k)], t, c);
    ReachesOneMore(s.(clock := now), Snapshot(id), [ListFile(id, k), ReadNow(id), Collect(id, k)], t, c);
    ReachesOneMore(s, Tick(now), [Snapshot(id), ListFile(id, k), ReadNow(id), Collect(id, k)], t, c);
  }

  /** A collector that has just listed an old enough orphan goes on to remove it. */
  lemma {:induction false} ReadAndCollect(s: State, k: Key, id: nat, c: Config) returns (t: State)
    requires id in s.scans && k in s.scans[id].listed && IsSafeKey(k) && k !in s.scans[id].snapshot
    requires s.scans[id].now.None? && s.scans[id].takenAt == s.clock && s.scans[id].listed[k] + c.minAge <= s.clock
    ensures Reaches(s, [ReadNow(id), Collect(id, k)], t, c) && k !in t.files
  {
    hide IsSafeKey;
    var read := Apply(s, ReadNow(id), c);
    t := Apply(read, Collect(id, k), c);
    assert [ReadNow(id), Collect(id, k)][1..] == [Collect(id, k)] && [Collect(id, k)][1..] == [];
    assert Reaches(read, [Collect(id, k)], t, c);
  }

  lemma {:induction false} ReachesOneMore(s: State, step: Step, rest: seq<Step>, t: State, c: Config)
    requires Enabled(s, step, c) && Reaches(Apply(s, step, c), rest, t, c)
    ensures Reaches(s, [step] + rest, t, c)
    ensures forall steps: seq<Step> :: steps == [step] + rest ==> Reaches(s, steps, t, c)
  {
    assert ([step] + rest)[1..] == rest;
  }

  lemma UploadsHaveNoRows(s: State, k: Key)
    requires BooksOk(s) && k in s.uploads
    ensures k !in s.rows
  {
  }

  lemma {:induction false} CreatedKeysAreSafe(steps: seq<Step>, c: Config)
    requires Legal(steps, c)
    ensures forall k :: k in Run(steps, c).born ==> IsSafeKey(k)
    decreases |steps|
  {
    hide IsSafeKey;
    if steps == [] {
    } else {
      CreatedKeysAreSafe(steps[..|steps| - 1], c);
    }
  }
}
