/**
 Delivery of one notification under at-least-once redelivery.  An attempt looks for the completion marker in
 Redis, commits a row, then sets the marker; it may end anywhere in between, Redis may fail at either call
 without stopping it, attempts may overlap, and the marker expires.  The machine below is everything the
 system does for one idempotency key.
 */
module Notifications {
  import opened Wrappers
  import Text

  type Instant = int

  const IDEMPOTENCY_TTL: int := 7 * 24 * 3600

  datatype Phase =
    | Checked     // passed the check, row not committed
    | Inserted    // row committed, marker not yet handled
    | Completed
    | Skipped
    | Ended       // failed or crashed

  /** `rows` counts the committed rows. The other counters record what the delivery bound is stated in:
      attempts that ended between commit and a landed mark, checks that failed open, marker expiries, and
      checks that passed while another attempt was under way. */
  datatype State = State(now: Instant, marker: Option<Instant>, attempts: seq<Phase>, rows: nat,
                         firstMark: Option<Instant>, lostMarks: nat, openChecks: nat, expiries: nat, overlaps: nat)

  datatype Step =
    | Tick(to: Instant)
    | Check(fails: bool)
    | Insert(attempt: nat, commits: bool)
    | Mark(attempt: nat, lands: bool)
    | Crash(attempt: nat)
    | Expire

  const INITIAL := State(0, None, [], 0, None, 0, 0, 0, 0)

  function Active(p: Phase): nat {
    if p.Checked? || p.Inserted? then 1 else 0
  }

  function Pending(p: Phase): nat {
    if p.Checked? then 1 else 0
  }

  function ActiveCount(attempts: seq<Phase>): nat {
    if attempts == [] then 0 else ActiveCount(attempts[..|attempts| - 1]) + Active(attempts[|attempts| - 1])
  }

  function PendingCount(attempts: seq<Phase>): nat {
    if attempts == [] then 0 else PendingCount(attempts[..|attempts| - 1]) + Pending(attempts[|attempts| - 1])
  }

  predicate InPhase(s: State, attempt: nat, phase: Phase) {
    attempt < |s.attempts| && s.attempts[attempt] == phase
  }

  predicate Enabled(s: State, step: Step) {
    match step
    case Tick(to) => s.now <= to
    case Check(_) => true
    case Insert(i, _) => InPhase(s, i, Checked)
    case Mark(i, _) => InPhase(s, i, Inserted)
    case Crash(i) => InPhase(s, i, Checked) || InPhase(s, i, Inserted)
    case Expire => s.marker.Some? && s.marker.value <= s.now
  }

  function Passed(s: State, fails: bool): State {
    s.(attempts := s.attempts + [Checked],
       openChecks := s.openChecks + (if fails then 1 else 0),
       overlaps := s.overlaps + (if !fails && ActiveCount(s.attempts) > 0 then 1 else 0))
  }

  /** `SET key 1 NX EX ttl`: an existing marker keeps its deadline. */
  function Marked(s: State): State {
    s.(marker := if s.marker.Some? then s.marker else Some(s.now + IDEMPOTENCY_TTL),
       firstMark := if s.firstMark.Some? then s.firstMark else Some(s.now))
  }

  function Apply(s: State, step: Step): State
    requires Enabled(s, step)
  {
    match step
    case Tick(to) => s.(now := to)
    case Check(fails) => if !fails && s.marker.Some? then s.(attempts := s.attempts + [Skipped]) else Passed(s, fails)
    case Insert(i, commits) =>
      if commits then s.(attempts := s.attempts[i := Inserted], rows := s.rows + 1)
      else s.(attempts := s.attempts[i := Ended])
    case Mark(i, lands) =>
      var t := s.(attempts := s.attempts[i := Completed]);
      if lands then Marked(t) else t.(lostMarks := s.lostMarks + 1)
    case Crash(i) =>
      s.(attempts := s.attempts[i := Ended], lostMarks := s.lostMarks + (if s.attempts[i].Inserted? then 1 else 0))
    case Expire => s.(marker := None, expiries := s.expiries + 1)
  }

  predicate Legal(s: State, steps: seq<Step>)
    decreases |steps|, 0
  {
    steps == [] || (Legal(s, steps[..|steps| - 1]) && Enabled(Run(s, steps[..|steps| - 1]), steps[|steps| - 1]))
  }

  function Run(s: State, steps: seq<Step>): State
    requires Legal(s, steps)
    decreases |steps|, 1
  {
    if steps == [] then s else Apply(Run(s, steps[..|steps| - 1]), steps[|steps| - 1])
  }

  // --------------------------------------------------------------------------------------
  // Counting attempts
  // --------------------------------------------------------------------------------------

  lemma {:induction false} CountsAfterAppend(attempts: seq<Phase>, p: Phase)
    ensures ActiveCount(attempts + [p]) == ActiveCount(attempts) + Active(p)
    ensures PendingCount(attempts + [p]) == PendingCount(attempts) + Pending(p)
  {
    assert (attempts + [p])[..|attempts|] == attempts;
  }

  lemma {:induction false} CountsAfterUpdate(attempts: seq<Phase>, i: nat, p: Phase)
    requires i < |attempts|
    ensures ActiveCount(attempts[i := p]) + Active(attempts[i]) == ActiveCount(attempts) + Active(p)
    ensures PendingCount(attempts[i := p]) + Pending(attempts[i]) == PendingCount(attempts) + Pending(p)
    decreases |attempts|
  {
    var n := |attempts| - 1;
    if i == n {
      assert attempts[i := p][..n] == attempts[..n];
    } else {
      CountsAfterUpdate(attempts[..n], i, p);
      assert attempts[i := p][..n] == attempts[..n][i := p];
    }
  }

  lemma {:induction false} PendingIsActive(attempts: seq<Phase>)
    ensures PendingCount(attempts) <= ActiveCount(attempts)
  {
    if attempts == [] {
    } else {
      PendingIsActive(attempts[..|attempts| - 1]);
    }
  }

  // --------------------------------------------------------------------------------------
  // The delivery bound
  // --------------------------------------------------------------------------------------

  function Charges(s: State): nat {
    s.lostMarks + s.openChecks + s.expiries + s.overlaps
  }

  function Covered(s: State): nat {
    if s.marker.Some? || ActiveCount(s.attempts) > 0 then 1 else 0
  }

  /** Every row, and every row still to come from a passed check, is paid for. */
  ghost predicate Bounded(s: State) {
    s.rows + PendingCount(s.attempts) <= Charges(s) + Covered(s)
  }

  predicate PastCheck(p: Phase) {
    p.Inserted? || p.Completed? || p.Skipped?
  }

  /** Markers and finished attempts witness a row. */
  ghost predicate Witnessed(s: State) {
    && (s.marker.Some? ==> s.rows >= 1)
    && (forall i :: 0 <= i < |s.attempts| && PastCheck(s.attempts[i]) ==> s.rows >= 1)
  }

  /** The marker lives its whole TTL. */
  ghost predicate Kept(s: State) {
    && (s.marker.Some? ==> s.firstMark.Some? && s.firstMark.value + IDEMPOTENCY_TTL <= s.marker.value)
    && (s.firstMark.Some? ==> s.firstMark.value <= s.now)
    && (s.expiries > 0 ==> s.firstMark.Some? && s.firstMark.value + IDEMPOTENCY_TTL <= s.now)
  }

  lemma {:induction false} StepKeepsBounded(s: State, step: Step)
    requires Bounded(s) && Enabled(s, step)
    ensures Bounded(Apply(s, step))
  {
    PendingIsActive(s.attempts);
    PendingIsActive(Apply(s, step).attempts);
    match step
    case Check(fails) =>
      CountsAfterAppend(s.attempts, Checked);
      CountsAfterAppend(s.attempts, Skipped);
    case Insert(i, commits) => CountsAfterUpdate(s.attempts, i, if commits then Inserted else Ended);
    case Mark(i, _) => CountsAfterUpdate(s.attempts, i, Completed);
    case Crash(i) => CountsAfterUpdate(s.attempts, i, Ended);
    case _ =>
  }

  lemma {:induction false} StepKeepsWitnesses(s: State, step: Step)
    requires Witnessed(s) && Kept(s) && Enabled(s, step)
    ensures Witnessed(Apply(s, step)) && Kept(Apply(s, step))
  {
    hide ActiveCount;
  }

  lemma {:induction false} RunKeepsAll(steps: seq<Step>)
    requires Legal(INITIAL, steps)
    ensures var s := Run(INITIAL, steps); Bounded(s) && Witnessed(s) && Kept(s)
    decreases |steps|
  {
    if steps == [] {
    } else {
      var p := steps[..|steps| - 1];
      RunKeepsAll(p);
      StepKeepsBounded(Run(INITIAL, p), steps[|steps| - 1]);
      StepKeepsWitnesses(Run(INITIAL, p), steps[|steps| - 1]);
      hide Bounded, Witnessed, Kept, Apply, Enabled;
    }
  }

  /** Over any schedule: at most one row, plus one per attempt that ended between its commit and a landed mark,
      per check that failed open, per marker expiry, and per check that passed beside an unfinished attempt. */
  lemma {:induction false} RowsWithinBound(steps: seq<Step>)
    requires Legal(INITIAL, steps)
    ensures var s := Run(INITIAL, steps); s.rows <= 1 + s.lostMarks + s.openChecks + s.expiries + s.overlaps
  {
    RunKeepsAll(steps);
  }

  ghost predicate Delivered(s: State) {
    exists i :: 0 <= i < |s.attempts| && (s.attempts[i].Completed? || s.attempts[i].Skipped?)
  }

  /** A completed or skipped attempt means the row exists, and exactly one row when nothing went wrong. */
  lemma {:induction false} DeliveredExactlyOnce(steps: seq<Step>)
    requires Legal(INITIAL, steps) && Delivered(Run(INITIAL, steps))
    ensures Run(INITIAL, steps).rows >= 1
    ensures Charges(Run(INITIAL, steps)) == 0 ==> Run(INITIAL, steps).rows == 1
  {
    RunKeepsAll(steps);
  }

  /** Attempts follow one another: every check happens when no attempt is under way. */
  ghost predicate Serial(steps: seq<Step>)
    requires Legal(INITIAL, steps)
    decreases |steps|
  {
    steps == [] ||
    var p, step := steps[..|steps| - 1], steps[|steps| - 1];
    Serial(p) && (step.Check? ==> ActiveCount(Run(INITIAL, p).attempts) == 0)
  }

  lemma {:induction false} SerialRunsPayNoOverlap(steps: seq<Step>)
    requires Legal(INITIAL, steps) && Serial(steps)
    ensures Run(INITIAL, steps).overlaps == 0
    decreases |steps|
  {
    if steps == [] {
    } else {
      SerialRunsPayNoOverlap(steps[..|steps| - 1]);
    }
  }

  /** Redeliveries that stop within seven days, 604800 seconds, of the first landed mark see no expiry. */
  lemma {:induction false} NoExpiryWithinTtl(steps: seq<Step>)
    requires Legal(INITIAL, steps)
    requires var s := Run(INITIAL, steps); s.firstMark.Some? ==> s.now < s.firstMark.value + 604800
    ensures Run(INITIAL, steps).expiries == 0
  {
    RunKeepsAll(steps);
  }

  // --------------------------------------------------------------------------------------
  // The bound is reached
  // --------------------------------------------------------------------------------------

  lemma {:induction false} Extend(steps: seq<Step>, step: Step) returns (longer: seq<Step>, t: State)
    requires Legal(INITIAL, steps) && Enabled(Run(INITIAL, steps), step)
    ensures longer == steps + [step] && Legal(INITIAL, longer)
    ensures t == Run(INITIAL, longer) == Apply(Run(INITIAL, steps), step)
  {
    longer := steps + [step];
    assert longer[..|steps|] == steps;
    t := Run(INITIAL, longer);
  }

  /** One attempt up to its committed row. */
  lemma {:induction false} PassAndInsert(steps: seq<Step>, fails: bool) returns (longer: seq<Step>, t: State)
    requires Legal(INITIAL, steps) && (fails || Run(INITIAL, steps).marker == None)
    ensures Legal(INITIAL, longer) && t == Run(INITIAL, longer)
    ensures var s := Run(INITIAL, steps);
            && t == Passed(s, fails).(attempts := s.attempts + [Inserted], rows := s.rows + 1)
            && ActiveCount(t.attempts) == ActiveCount(s.attempts) + 1
  {
    hide Legal, Run, ActiveCount;
    var s := Run(INITIAL, steps);
    var p, u := Extend(steps, Check(fails));
    longer, t := Extend(p, Insert(|s.attempts|, true));
    CountsAfterAppend(s.attempts, Inserted);
    assert t.attempts == s.attempts + [Inserted];
  }

  lemma {:induction false} CrashInserted(steps: seq<Step>, i: nat) returns (longer: seq<Step>, t: State)
    requires Legal(INITIAL, steps) && InPhase(Run(INITIAL, steps), i, Inserted)
    ensures Legal(INITIAL, longer) && t == Run(INITIAL, longer)
    ensures var s := Run(INITIAL, steps);
            && t.marker == s.marker && t.rows == s.rows && t.lostMarks == s.lostMarks + 1
            && t.expiries == s.expiries && t.openChecks == s.openChecks && t.overlaps == s.overlaps
            && ActiveCount(t.attempts) == ActiveCount(s.attempts) - 1
  {
    hide Legal, Run, ActiveCount;
    CountsAfterUpdate(Run(INITIAL, steps).attempts, i, Ended);
    longer, t := Extend(steps, Crash(i));
  }

  /** `a` attempts that crash after their commit. */
  lemma {:induction false} CrashedAttempts(a: nat) returns (steps: seq<Step>, s: State)
    ensures Legal(INITIAL, steps) && s == Run(INITIAL, steps) && s.marker == None && ActiveCount(s.attempts) == 0
    ensures s.rows == s.lostMarks == a && s.openChecks == s.expiries == s.overlaps == 0
    decreases a
  {
    if a == 0 {
      steps, s := [], INITIAL;
    } else {
      var p, u := CrashedAttempts(a - 1);
      hide Legal, Run, ActiveCount;
      p, s := PassAndInsert(p, false);
      steps, s := CrashInserted(p, |u.attempts|);
    }
  }

  lemma {:induction false} MarkAndExpire(steps: seq<Step>, i: nat) returns (longer: seq<Step>, t: State)
    requires Legal(INITIAL, steps) && InPhase(Run(INITIAL, steps), i, Inserted) && Run(INITIAL, steps).marker == None
    ensures Legal(INITIAL, longer) && t == Run(INITIAL, longer)
    ensures var s := Run(INITIAL, steps);
            && t.marker == None && t.rows == s.rows && t.expiries == s.expiries + 1
            && t.lostMarks == s.lostMarks && t.openChecks == s.openChecks && t.overlaps == s.overlaps
            && ActiveCount(t.attempts) == ActiveCount(s.attempts) - 1
  {
    hide Legal, Run, ActiveCount;
    CountsAfterUpdate(Run(INITIAL, steps).attempts, i, Completed);
    var p, u := Extend(steps, Mark(i, true));
    p, u := Extend(p, Tick(u.now + IDEMPOTENCY_TTL));
    longer, t := Extend(p, Expire);
  }

  /** Then `c` deliveries whose marker expires. */
  lemma {:induction false} ExpiredDeliveries(a: nat, c: nat) returns (steps: seq<Step>, s: State)
    ensures Legal(INITIAL, steps) && s == Run(INITIAL, steps) && s.marker == None && ActiveCount(s.attempts) == 0
    ensures s.rows == a + c && s.lostMarks == a && s.expiries == c && s.openChecks == s.overlaps == 0
    decreases c
  {
    if c == 0 {
      steps, s := CrashedAttempts(a);
    } else {
      var p, u := ExpiredDeliveries(a, c - 1);
      hide Legal, Run, ActiveCount;
      p, s := PassAndInsert(p, false);
      steps, s := MarkAndExpire(p, |u.attempts|);
    }
  }

  /** Then one attempt and `d` more beside it, none of them marked yet. */
  lemma {:induction false} OverlappingAttempts(a: nat, c: nat, d: nat) returns (steps: seq<Step>, s: State)
    ensures Legal(INITIAL, steps) && s == Run(INITIAL, steps) && s.marker == None && ActiveCount(s.attempts) > 0
    ensures s.rows == 1 + a + c + d && s.lostMarks == a && s.expiries == c && s.overlaps == d && s.openChecks == 0
    decreases d
  {
    if d == 0 {
      steps, s := ExpiredDeliveries(a, c);
    } else {
      steps, s := OverlappingAttempts(a, c, d - 1);
    }
    hide Legal, Run, ActiveCount;
    steps, s := PassAndInsert(steps, false);
  }

  /** The bound cannot be improved: whatever the four counts, some run has them and as many rows as allowed. */
  lemma {:induction false} BoundIsReached(a: nat, b: nat, c: nat, d: nat) returns (steps: seq<Step>, s: State)
    ensures Legal(INITIAL, steps) && s == Run(INITIAL, steps)
    ensures s.lostMarks == a && s.openChecks == b && s.expiries == c && s.overlaps == d && s.rows == 1 + a + b + c + d
    decreases b
  {
    if b == 0 {
      steps, s := OverlappingAttempts(a, c, d);
    } else {
      steps, s := BoundIsReached(a, b - 1, c, d);
      hide Legal, Run, ActiveCount;
      steps, s := PassAndInsert(steps, true);
    }
  }

  // --------------------------------------------------------------------------------------
  // The worker
  // --------------------------------------------------------------------------------------

  datatype Notification = Notification(user: int, ntype: string, title: string, content: Option<string>)

  datatype Fault = ValueError | DatabaseError

  datatype Outcome = Created(notificationId: nat) | AlreadyDone

  /** What goes wrong around one attempt: Redis at the check, the database before or after the commit, Redis
      at the mark. */
  datatype Faults = Faults(checkFails: bool, insertFails: bool, refreshFails: bool, markFails: bool)

  predicate Acceptable(user: int, ntype: string, title: string) {
    && user > 0
    && Text.Strip(ntype) != "" && |ntype| <= 50
    && Text.Strip(title) != "" && |title| <= 255
  }

  /** The steps one attempt takes. */
  function StepsOf(s: State, now: Instant, faults: Faults): seq<Step> {
    var check := [Tick(now), Check(faults.checkFails)];
    if !faults.checkFails && s.marker.Some? then check
    else if faults.insertFails then check + [Insert(|s.attempts|, false)]
    else if faults.refreshFails then check + [Insert(|s.attempts|, true), Crash(|s.attempts|)]
    else check + [Insert(|s.attempts|, true), Mark(|s.attempts|, !faults.markFails)]
  }

  predicate Skips(s: State, faults: Faults) {
    !faults.checkFails && s.marker.Some?
  }

  predicate Commits(s: State, faults: Faults) {
    !Skips(s, faults) && !faults.insertFails
  }

  /** What one attempt leaves behind. */
  lemma {:induction false} AttemptRuns(past: seq<Step>, now: Instant, faults: Faults)
    requires Legal(INITIAL, past) && Run(INITIAL, past).now <= now
    ensures var s := Run(INITIAL, past);
            var all := past + StepsOf(s, now, faults);
            && Legal(INITIAL, all) && var t := Run(INITIAL, all);
            && t.now == now && t.rows == s.rows + (if Commits(s, faults) then 1 else 0)
            && t.marker == (if s.marker.None? && Commits(s, faults) && !faults.refreshFails && !faults.markFails
                            then Some(now + 604800) else s.marker)
            && (Skips(s, faults) || (Commits(s, faults) && !faults.refreshFails) ==> Delivered(t))
  {
    hide Legal, Run, ActiveCount;
    var s := Run(INITIAL, past);
    var i := |s.attempts|;
    var p, t := Extend(past, Tick(now));
    p, t := Extend(p, Check(faults.checkFails));
    if !Skips(s, faults) {
      p, t := Extend(p, Insert(i, !faults.insertFails));
      if !faults.insertFails {
        if faults.refreshFails {
          p, t := Extend(p, Crash(i));
        } else {
          p, t := Extend(p, Mark(i, !faults.markFails));
          assert t.attempts[i].Completed?;
        }
      }
    } else {
      assert t.attempts[i].Skipped?;
    }
    assert p == past + StepsOf(s, now, faults);
  }

  ghost function AfterAttempt(past: seq<Step>, now: Instant, faults: Faults): seq<Step> {
    if Legal(INITIAL, past) then past + StepsOf(Run(INITIAL, past), now, faults) else past
  }

  function CountOf(origin: seq<string>, key: string): nat {
    if origin == [] then 0
    else CountOf(origin[..|origin| - 1], key) + (if origin[|origin| - 1] == key then 1 else 0)
  }

  lemma {:induction false} CountAfterAppend(origin: seq<string>, k: string, key: string)
    ensures CountOf(origin + [k], key) == CountOf(origin, key) + (if k == key then 1 else 0)
  {
    assert (origin + [k])[..|origin|] == origin;
  }

  /** The worker's two stores: completion markers (key to deadline) and notification rows. `origin` records the
      key each row was written for, `history` the machine steps taken for each key. */
  class NotificationWorker {
    var now: Instant
    var done: map<string, Instant>
    var rows: seq<Notification>
    ghost var origin: seq<string>
    ghost var history: map<string, seq<Step>>

    ghost function History(key: string): seq<Step>
      reads this
    {
      if key in history then history[key] else []
    }

    /** The deadline of the key's marker, if it is set. */
    ghost function Marker(key: string): Option<Instant>
      reads this
    {
      if key in done then Some(done[key]) else None
    }

    /** The machine of `key` agrees with both stores. */
    ghost predicate Follows(key: string)
      reads this
    {
      && Legal(INITIAL, History(key))
      && var s := Run(INITIAL, History(key));
      && s.marker == Marker(key)
      && s.rows == CountOf(origin, key)
      && s.now <= now
    }

    ghost predicate Valid()
      reads this
    {
      |origin| == |rows| && forall key :: Follows(key)
    }

    constructor (start: Instant)
      requires start >= 0
      ensures Valid() && now == start && done == map[] && rows == []
    {
      now, done, rows, origin, history := start, map[], [], [], map[];
    }

    method Advance(to: Instant)
      requires Valid() && now <= to
      modifies this`now
      ensures Valid() && now == to
    {
      now := to;
      assert forall key :: old(Follows(key)) ==> Follows(key);
    }

    /** Redis drops a marker once its deadline has passed. */
    method ExpireMarker(key: string)
      requires Valid() && key in done && done[key] <= now
      modifies this`done, this`history
      ensures Valid() && done == old(done) - {key}
    {
      assert Follows(key);
      ghost var past := History(key);
      ghost var p, t := Extend(past, Tick(now));
      p, t := Extend(p, Expire);
      history := history[key := p];
      done := done - {key};
      forall k ensures Follows(k) {
        assert old(Follows(k));
      }
    }

    /** Fails open: an error reads as "not done".  A positive answer is never wrong, the row is there, and it is
        the answer the machine's check gives. */
    method AlreadyDoneFor(key: string, redisFails: bool) returns (r: bool)
      requires Valid()
      ensures redisFails ==> !r
      ensures r ==> 1 <= CountOf(origin, key)
      ensures Follows(key) && (r <==> !redisFails && Run(INITIAL, History(key)).marker.Some?)
    {
      assert Follows(key);
      RunKeepsAll(History(key));
      if redisFails { return false; }
      return key in done;
    }

    /** One more row for this key and none for any other; the id finds it, and earlier ids keep their rows. */
    method InsertNotification(key: string, row: Notification) returns (id: nat)
      requires |origin| == |rows|
      modifies this`rows, this`origin
      ensures |origin| == |rows| && id < |rows| && rows[id] == row && rows[..id] == old(rows) && id == |rows| - 1
      ensures forall k :: CountOf(origin, k) == old(CountOf(origin, k)) + (if k == key then 1 else 0)
    {
      id := |rows|;
      forall k ensures CountOf(origin + [key], k) == CountOf(origin, k) + (if k == key then 1 else 0) {
        CountAfterAppend(origin, key, k);
      }
      rows := rows + [row];
      origin := origin + [key];
    }

    method MarkDone(key: string, redisFails: bool) returns (r: bool)
      modifies this`done
      ensures r == (!redisFails && key !in old(done))
      ensures forall k :: k != key ==> Marker(k) == old(Marker(k))
      ensures redisFails ==> Marker(key) == old(Marker(key))
      ensures !redisFails ==>
                forall s: State :: s.now == now && s.marker == old(Marker(key)) ==> Marker(key) == Marked(s).marker
      ensures done == if r then old(done)[key := now + 604800] else old(done)
    {
      if redisFails || key in done { return false; }
      done := done[key := now + IDEMPOTENCY_TTL];
      return true;
    }

    /** The rows of `key` stay within the bound of its history. */
    ghost predicate WithinBound(key: string)
      reads this
    {
      Follows(key) && CountOf(origin, key) <= 1 + Charges(Run(INITIAL, History(key)))
    }

    lemma {:induction false} BoundHolds()
      requires Valid()
      ensures forall key :: WithinBound(key)
    {
      forall key ensures WithinBound(key) {
        assert Follows(key);
        RowsWithinBound(History(key));
      }
    }

    /** One attempt with accepted arguments. A call that reports success, created or skipped, leaves a row for
        its key. */
    method Attempt(key: string, row: Notification, faults: Faults) returns (r: Result<Outcome, Fault>)
      requires Valid()
      modifies this`done, this`rows, this`origin, this`history
      ensures Valid()
      ensures History(key) == AfterAttempt(old(History(key)), now, faults)
      ensures forall k :: k != key ==> History(k) == old(History(k))
      ensures r == Success(AlreadyDone) <==> !faults.checkFails && key in old(done)
      ensures r.Success? && r.value.Created? ==> r.value.notificationId == |old(rows)| && rows == old(rows) + [row]
      ensures r == Success(AlreadyDone) || (r.Failure? && faults.insertFails) ==> rows == old(rows)
      ensures r.Failure? ==> r.error == DatabaseError && (!faults.insertFails ==> rows == old(rows) + [row])
      ensures r.Failure? <==> (faults.checkFails || key !in old(done)) && (faults.insertFails || faults.refreshFails)
      ensures r.Success? ==> 1 <= CountOf(origin, key)
    {
      hide Legal, Run, StepsOf, CountOf, Delivered, ActiveCount, Apply;
      assert Follows(key);
      ghost var past := History(key);
      AttemptRuns(past, now, faults);
      var found := AlreadyDoneFor(key, faults.checkFails);
      history := history[key := AfterAttempt(past, now, faults)];
      if found {
        r := Success(AlreadyDone);
      } else if faults.insertFails {
        r := Failure(DatabaseError);
      } else {
        var id := InsertNotification(key, row);
        if faults.refreshFails {
          r := Failure(DatabaseError);
        } else {
          var marked := MarkDone(key, faults.markFails);
          r := Success(Created(id));
        }
      }
      forall k ensures Follows(k) {
        assert old(Follows(k));
      }
      if r.Success? {
        assert Follows(key);
        assert History(key) == AfterAttempt(past, now, faults);
        DeliveredExactlyOnce(History(key));
      }
    }

    /** The Celery entry point: arguments are checked first and never retried; a call without a key gets one of its
        own. */
    method CreateNotification(user: int, ntype: string, title: string, content: Option<string>, key: Option<string>,
                              generated: string, faults: Faults) returns (r: Result<Outcome, Fault>)
      requires Valid() && generated != ""
      modifies this`done, this`rows, this`origin, this`history
      ensures Valid() && forall k :: WithinBound(k)
      ensures r == Failure(ValueError) <==> !Acceptable(user, ntype, title) || key == Some("")
      ensures Acceptable(user, ntype, title) <==>
                user > 0 && !Text.AllSpace(ntype) && |ntype| <= 50 && !Text.AllSpace(title) && |title| <= 255
      ensures r == Failure(ValueError) ==> done == old(done) && rows == old(rows) && history == old(history)
      ensures r.Success? && r.value.Created? ==>
                rows == old(rows) + [Notification(user, Text.Strip(ntype), Text.Strip(title), content)]
      ensures r.Success? && key.Some? ==> 1 <= CountOf(origin, key.value)
      ensures Acceptable(user, ntype, title) && key != Some("") ==>
                var skips := !faults.checkFails && (if key.Some? then key.value else generated) in old(done);
                && (r == Success(AlreadyDone) <==> skips)
                && (r == Failure(DatabaseError) <==> !skips && (faults.insertFails || faults.refreshFails))
    {
      Text.StripEmptyIffBlank(ntype);
      Text.StripEmptyIffBlank(title);
      hide Text.AllSpace, Text.Strip;
      BoundHolds();
      if user <= 0 { return Failure(ValueError); }
      if Text.Strip(ntype) == "" || |ntype| > 50 { return Failure(ValueError); }
      if Text.Strip(title) == "" || |title| > 255 { return Failure(ValueError); }
      var k := if key.Some? then key.value else generated;
      if k == "" { return Failure(ValueError); }
      hide Follows, CountOf;
      r := Attempt(k, Notification(user, Text.Strip(ntype), Text.Strip(title), content), faults);
      BoundHolds();
    }
  }
}
