/**
 The service for tasks and its audit log.  A transition handler reads its row, validates the move, and commits the
 new status together with one log entry; the row is not locked in between, so two handlers may overlap.  Whether
 the caller may see or manage a task is an input; task ids come from a sequence and are never reused.
 */
module TaskAudit {
  import opened Wrappers

  type TaskId = nat
  type HandlerId = nat

  datatype Status = TODO | IN_PROGRESS | REVIEW | DONE | CANCELLED

  datatype Priority = LOW | MEDIUM | HIGH | URGENT

  /** What a client may set; the status is not among it. */
  datatype Fields = Fields(title: string, description: Option<string>, priority: Priority, dueAt: Option<int>)

  datatype Task = Task(fields: Fields, status: Status)

  /** One field of a PATCH body: absent, an explicit null, or a value. */
  datatype Change<+T> = Unset | Null | To(value: T)

  datatype Patch = Patch(title: Change<string>, description: Change<string>, priority: Change<Priority>,
                         dueAt: Change<int>)
  {
    /** The columns for title and priority are NOT NULL, so writing a null there fails. */
    predicate Storable() {
      !title.Null? && !priority.Null?
    }

    /** Present fields have their new value, absent ones their old. */
    ghost predicate Applied(before: Fields, after: Fields) {
      && (if title.To? then after.title == title.value else after.title == before.title)
      && (if priority.To? then after.priority == priority.value else after.priority == before.priority)
      && (match description
          case Unset => after.description == before.description
          case Null => after.description == None
          case To(text) => after.description == Some(text))
      && (match dueAt
          case Unset => after.dueAt == before.dueAt
          case Null => after.dueAt == None
          case To(at) => after.dueAt == Some(at))
    }
  }

  datatype Entry = Entry(task: TaskId, user: nat, from: Status, to: Status)

  datatype Error = NotFound | Conflict | Forbidden | IntegrityError

  function Transitions(s: Status): set<Status> {
    match s
    case TODO => {IN_PROGRESS, CANCELLED}
    case IN_PROGRESS => {REVIEW, CANCELLED}
    case REVIEW => {DONE, CANCELLED}
    case DONE => {}
    case CANCELLED => {}
  }

  predicate CanTransition(current: Status, target: Status) {
    target in Transitions(current)
  }

  /** A transition handler between its read and its commit. */
  datatype Pending = Pending(task: TaskId, user: nat, from: Status, to: Status)

  datatype State = State(tasks: map<TaskId, Task>, logs: seq<Entry>, created: set<TaskId>,
                         pending: map<HandlerId, Pending>)

  const INITIAL := State(map[], [], {}, map[])

  datatype Step =
    | Create(visible: bool, id: TaskId, fields: Fields)
    | Edit(visible: bool, id: TaskId, fields: Fields)
    | Remove(visible: bool, manager: bool, id: TaskId)
    | Begin(handler: HandlerId, visible: bool, id: TaskId, user: nat, to: Status)
    | Commit(handler: HandlerId)
    | Abort(handler: HandlerId)

  predicate Enabled(s: State, step: Step) {
    match step
    case Create(_, id, _) => id !in s.created
    case Begin(h, _, _, _, _) => h !in s.pending
    case Commit(h) => h in s.pending
    case Abort(h) => h in s.pending
    case _ => true
  }

  /** The read and the checks of a transition. */
  function CheckTransition(tasks: map<TaskId, Task>, visible: bool, id: TaskId, to: Status): Result<Status, Error> {
    if id !in tasks || !visible then Failure(NotFound)
    else if CanTransition(tasks[id].status, to) then Success(tasks[id].status)
    else Failure(Conflict)
  }

  function Begun(s: State, h: HandlerId, visible: bool, id: TaskId, user: nat, to: Status): State {
    var checked := CheckTransition(s.tasks, visible, id, to);
    if checked.Success? then s.(pending := s.pending[h := Pending(id, user, checked.value, to)]) else s
  }

  /** Status and log entry in one transaction; nothing if the row has gone. */
  function Committed(s: State, h: HandlerId): State
    requires h in s.pending
  {
    var p := s.pending[h];
    var t := s.(pending := s.pending - {h});
    if p.task in s.tasks
    then t.(tasks := s.tasks[p.task := s.tasks[p.task].(status := p.to)],
            logs := s.logs + [Entry(p.task, p.user, p.from, p.to)])
    else t
  }

  function Apply(s: State, step: Step): State
    requires Enabled(s, step)
  {
    match step
    case Create(visible, id, fields) =>
      if visible then s.(tasks := s.tasks[id := Task(fields, TODO)], created := s.created + {id}) else s
    case Edit(visible, id, fields) =>
      if visible && id in s.tasks then s.(tasks := s.tasks[id := s.tasks[id].(fields := fields)]) else s
    case Remove(visible, manager, id) => if visible && manager then s.(tasks := s.tasks - {id}) else s
    case Begin(h, visible, id, user, to) => Begun(s, h, visible, id, user, to)
    case Commit(h) => Committed(s, h)
    case Abort(h) => s.(pending := s.pending - {h})
  }

  ghost predicate Legal(steps: seq<Step>)
    decreases |steps|, 0
  {
    steps == [] || (Legal(steps[..|steps| - 1]) && Enabled(Run(steps[..|steps| - 1]), steps[|steps| - 1]))
  }

  ghost function Run(steps: seq<Step>): State
    requires Legal(steps)
    decreases |steps|, 1
  {
    if steps == [] then INITIAL else Apply(Run(steps[..|steps| - 1]), steps[|steps| - 1])
  }

  // --------------------------------------------------------------------------------------
  // Replaying the log
  // --------------------------------------------------------------------------------------

  /** The entries of one task, in id order. */
  function LogsOf(logs: seq<Entry>, id: TaskId): seq<Entry> {
    if logs == [] then []
    else
      var front, last := LogsOf(logs[..|logs| - 1], id), logs[|logs| - 1];
      if last.task == id then front + [last] else front
  }

  /** The entries walk the transition graph from TODO to `status`, each starting where the one before ended. */
  predicate Replays(entries: seq<Entry>, status: Status) {
    if entries == [] then status == TODO
    else
      var last := entries[|entries| - 1];
      status == last.to && CanTransition(last.from, last.to) && Replays(entries[..|entries| - 1], last.from)
  }

  /** Where a replay of the entries ends. */
  function EndOf(entries: seq<Entry>): Status {
    if entries == [] then TODO else entries[|entries| - 1].to
  }

  /** The log of every task, deleted or not, replays, and for a stored task it ends in the stored status. */
  ghost predicate AuditedAt(s: State, id: TaskId) {
    && Replays(LogsOf(s.logs, id), EndOf(LogsOf(s.logs, id)))
    && (id in s.tasks ==> s.tasks[id].status == EndOf(LogsOf(s.logs, id)))
  }

  ghost predicate Audited(s: State) {
    forall id :: AuditedAt(s, id)
  }

  /** Tasks are created once, logs belong to created tasks, and a pending move was valid when read. */
  ghost predicate Sane(s: State) {
    && (forall id :: id in s.tasks ==> id in s.created)
    && (forall id :: id !in s.created ==> LogsOf(s.logs, id) == [])
    && (forall h :: h in s.pending ==>
          s.pending[h].task in s.created && CanTransition(s.pending[h].from, s.pending[h].to))
  }

  /** This commit writes over a status other than the one its handler read. */
  predicate Stale(s: State, step: Step) {
    step.Commit? && step.handler in s.pending && s.pending[step.handler].task in s.tasks
    && s.tasks[s.pending[step.handler].task].status != s.pending[step.handler].from
  }

  lemma {:induction false} LogsAfterAppend(logs: seq<Entry>, e: Entry, id: TaskId)
    ensures LogsOf(logs + [e], id) == if e.task == id then LogsOf(logs, id) + [e] else LogsOf(logs, id)
  {
    assert (logs + [e])[..|logs|] == logs;
  }

  lemma {:induction false} ReplaysAfterAppend(entries: seq<Entry>, e: Entry)
    ensures Replays(entries + [e], EndOf(entries + [e])) <==> Replays(entries, e.from) && CanTransition(e.from, e.to)
  {
    assert (entries + [e])[..|entries|] == entries;
  }

  lemma {:induction false} ReplayEnd(entries: seq<Entry>, status: Status)
    requires Replays(entries, status)
    ensures status == EndOf(entries)
  {
  }

  lemma {:induction false} StepKeepsSane(s: State, step: Step)
    requires Sane(s) && Enabled(s, step)
    ensures Sane(Apply(s, step))
  {
    if step.Commit? {
      var p := s.pending[step.handler];
      forall id ensures id !in s.created ==> LogsOf(Apply(s, step).logs, id) == [] {
        LogsAfterAppend(s.logs, Entry(p.task, p.user, p.from, p.to), id);
      }
    }
  }

  /** A commit keeps the log replayable exactly if it is not stale. */
  lemma {:induction false} CommitAudited(s: State, h: HandlerId)
    requires Sane(s) && Audited(s) && h in s.pending
    ensures Audited(Committed(s, h)) <==> !Stale(s, Commit(h))
  {
    var p := s.pending[h];
    var t := Committed(s, h);
    if p.task in s.tasks {
      var e := Entry(p.task, p.user, p.from, p.to);
      var entries := LogsOf(s.logs, p.task);
      LogsAfterAppend(s.logs, e, p.task);
      ReplaysAfterAppend(entries, e);
      assert AuditedAt(s, p.task);
      hide Replays, LogsOf;
      if s.tasks[p.task].status == p.from {
        forall id ensures AuditedAt(t, id) {
          assert AuditedAt(s, id);
          LogsAfterAppend(s.logs, e, id);
        }
      } else {
        assert !Replays(entries, p.from) by {
          if Replays(entries, p.from) { ReplayEnd(entries, p.from); }
        }
        assert !AuditedAt(t, p.task);
      }
    } else {
      forall id ensures AuditedAt(t, id) {
        assert AuditedAt(s, id);
      }
    }
  }

  lemma {:induction false} StepAudited(s: State, step: Step)
    requires Sane(s) && Audited(s) && Enabled(s, step)
    ensures Audited(Apply(s, step)) <==> !Stale(s, step)
  {
    if step.Commit? {
      CommitAudited(s, step.handler);
    } else {
      hide Replays, LogsOf;
      var t := Apply(s, step);
      forall id ensures AuditedAt(t, id) {
        assert AuditedAt(s, id);
        if step.Create? && id == step.id {
          assert Replays([], TODO) by { EmptyReplays(); }
        }
      }
    }
  }

  lemma EmptyReplays()
    ensures Replays([], TODO)
  {
  }

  lemma {:induction false} RunIsSane(steps: seq<Step>)
    requires Legal(steps)
    ensures Sane(Run(steps))
    decreases |steps|
  {
    if steps == [] {
    } else {
      var p := steps[..|steps| - 1];
      RunIsSane(p);
      StepKeepsSane(Run(p), steps[|steps| - 1]);
    }
  }

  ghost predicate AuditedThroughout(steps: seq<Step>)
    requires Legal(steps)
    decreases |steps|
  {
    Audited(Run(steps)) && (steps != [] ==> AuditedThroughout(steps[..|steps| - 1]))
  }

  ghost predicate NoStaleCommit(steps: seq<Step>)
    requires Legal(steps)
    decreases |steps|
  {
    steps != [] ==> NoStaleCommit(steps[..|steps| - 1]) && !Stale(Run(steps[..|steps| - 1]), steps[|steps| - 1])
  }

  // --------------------------------------------------------------------------------------
  // Main results
  // --------------------------------------------------------------------------------------

  /** Through a whole run every task's log replays to its status exactly if no handler commits over a status it
      did not read. */
  lemma {:induction false} AuditReplayIsExact(steps: seq<Step>)
    requires Legal(steps)
    ensures AuditedThroughout(steps) <==> NoStaleCommit(steps)
    decreases |steps|
  {
    if steps == [] {
      forall id ensures AuditedAt(INITIAL, id) {
        EmptyReplays();
      }
    } else {
      var p := steps[..|steps| - 1];
      AuditReplayIsExact(p);
      RunIsSane(p);
      if Audited(Run(p)) {
        StepAudited(Run(p), steps[|steps| - 1]);
      }
      hide Audited, Sane, Apply, Enabled, Stale;
    }
  }

  /** Handlers run one at a time: a transition starts only when no other is between its read and its commit. */
  ghost predicate OneAtATime(steps: seq<Step>)
    requires Legal(steps)
    decreases |steps|
  {
    steps != [] ==>
      var p, step := steps[..|steps| - 1], steps[|steps| - 1];
      OneAtATime(p) && (step.Begin? ==> Run(p).pending == map[])
  }

  /** The one pending move, if any, still starts from the stored status. */
  ghost predicate Current(s: State) {
    && (forall h, k :: h in s.pending && k in s.pending ==> h == k)
    && (forall h :: h in s.pending && s.pending[h].task in s.tasks ==>
          s.tasks[s.pending[h].task].status == s.pending[h].from)
  }

  lemma {:induction false} OneAtATimeIsCurrent(steps: seq<Step>)
    requires Legal(steps) && OneAtATime(steps)
    ensures Current(Run(steps)) && NoStaleCommit(steps)
    decreases |steps|
  {
    if steps == [] {
    } else {
      var p := steps[..|steps| - 1];
      OneAtATimeIsCurrent(p);
      RunIsSane(p);
    }
  }

  /** With atomic handlers: in every run, each task's entries form a path in the transition graph from TODO to
      the stored status, with at most three entries. */
  lemma {:induction false} AtomicHandlersKeepTheAudit(steps: seq<Step>, id: TaskId)
    requires Legal(steps) && OneAtATime(steps)
    ensures AuditedAt(Run(steps), id) && |LogsOf(Run(steps).logs, id)| <= 3
    ensures id in Run(steps).tasks ==> Replays(LogsOf(Run(steps).logs, id), Run(steps).tasks[id].status)
  {
    OneAtATimeIsCurrent(steps);
    FreshCommitsKeepLogsShort(steps, id);
  }

  /** The same for overlapping handlers, as long as none commits over a status it did not read. */
  lemma {:induction false} FreshCommitsKeepLogsShort(steps: seq<Step>, id: TaskId)
    requires Legal(steps) && NoStaleCommit(steps)
    ensures AuditedAt(Run(steps), id) && |LogsOf(Run(steps).logs, id)| <= 3
    ensures id in Run(steps).tasks ==> Replays(LogsOf(Run(steps).logs, id), Run(steps).tasks[id].status)
  {
    AuditReplayIsExact(steps);
    assert AuditedAt(Run(steps), id);
    PathLength(LogsOf(Run(steps).logs, id), EndOf(LogsOf(Run(steps).logs, id)));
  }

  function Rank(s: Status): nat {
    match s
    case TODO => 0
    case IN_PROGRESS => 1
    case REVIEW => 2
    case DONE => 3
    case CANCELLED => 3
  }

  /** The graph: one step forward along the chain, or cancelling from any status that is not terminal. */
  lemma TransitionsAreExact(a: Status, b: Status)
    ensures CanTransition(a, b) <==> if b.CANCELLED? then Rank(a) < 3 else Rank(b) == Rank(a) + 1
  {
  }

  /** A task that was not cancelled passed through every earlier status once. */
  lemma {:induction false} PathLength(entries: seq<Entry>, status: Status)
    requires Replays(entries, status)
    ensures |entries| <= Rank(status) && (!status.CANCELLED? ==> |entries| == Rank(status))
  {
    if entries == [] {
    } else {
      var last := entries[|entries| - 1];
      PathLength(entries[..|entries| - 1], last.from);
      hide CanTransition;
      TransitionsAreExact(last.from, last.to);
    }
  }

  /** A terminal status is final, and every replayable log determines the status it ends in. */
  lemma {:induction false} TerminalIsFinal(entries: seq<Entry>, e: Entry)
    requires Replays(entries, DONE) || Replays(entries, CANCELLED)
    ensures !exists status :: Replays(entries + [e], status)
  {
    assert (entries + [e])[..|entries|] == entries;
    if Replays(entries, e.from) {
      ReplayEnd(entries, e.from);
      if Replays(entries, DONE) { ReplayEnd(entries, DONE); } else { ReplayEnd(entries, CANCELLED); }
    }
  }

  /** A transition that is given up before its commit leaves no trace. */
  lemma {:induction false} AbortUndoesBegin(s: State, h: HandlerId, visible: bool, id: TaskId, user: nat, to: Status)
    requires h !in s.pending
    ensures var begun := Apply(s, Begin(h, visible, id, user, to));
            if h in begun.pending then Apply(begun, Abort(h)) == s else begun == s
  {
    var begun := Apply(s, Begin(h, visible, id, user, to));
    if h in begun.pending {
      assert begun.pending - {h} == s.pending;
    }
  }

  /** Two overlapping handlers: both read TODO, both commit, and the log forks. */
  lemma {:induction false} OverlappingHandlersForkTheLog(id: TaskId, fields: Fields, user: nat)
    ensures var steps := [Create(true, id, fields), Begin(0, true, id, user, IN_PROGRESS),
                          Begin(1, true, id, user, CANCELLED), Commit(0), Commit(1)];
            && Legal(steps)
            && LogsOf(Run(steps).logs, id) == [Entry(id, user, TODO, IN_PROGRESS), Entry(id, user, TODO, CANCELLED)]
            && !Audited(Run(steps))
  {
    hide Legal, Run, LogsOf, Replays;
    var first, second := Entry(id, user, TODO, IN_PROGRESS), Entry(id, user, TODO, CANCELLED);
    Nothing();
    var p, s := Extend([], Create(true, id, fields));
    p, s := Extend(p, Begin(0, true, id, user, IN_PROGRESS));
    p, s := Extend(p, Begin(1, true, id, user, CANCELLED));
    p, s := Extend(p, Commit(0));
    assert s.logs == [] + [first];
    LogsAfterAppend([], first, id);
    assert [] + [first] == [first] && [first] + [second] == [first, second];
    p, s := Extend(p, Commit(1));
    assert s.logs == [first] + [second];
    LogsAfterAppend([first], second, id);
    assert p == [Create(true, id, fields), Begin(0, true, id, user, IN_PROGRESS),
                 Begin(1, true, id, user, CANCELLED), Commit(0), Commit(1)];
    assert !AuditedAt(s, id) by {
      ReplaysAfterAppend([first], second);
      if Replays([first], TODO) { ReplayEnd([first], TODO); }
    }
  }

  lemma {:induction false} Nothing()
    ensures Legal([]) && Run([]) == INITIAL && forall id :: LogsOf([], id) == []
  {
  }

  lemma {:induction false} Extend(steps: seq<Step>, step: Step) returns (longer: seq<Step>, t: State)
    requires Legal(steps) && Enabled(Run(steps), step)
    ensures longer == steps + [step] && Legal(longer) && t == Run(longer) == Apply(Run(steps), step)
  {
    longer := steps + [step];
    assert longer[..|steps|] == steps;
    t := Run(longer);
  }

  /** The service over the two tables, one handler call at a time. */
  class TaskService {
    var tasks: map<TaskId, Task>
    var logs: seq<Entry>
    ghost var created: set<TaskId>

    ghost function Model(): State
      reads this
    {
      State(tasks, logs, created, map[])
    }

    /** Every task's log replays to its status. */
    ghost predicate Valid()
      reads this
    {
      Sane(Model()) && Audited(Model())
    }

    constructor ()
      ensures Valid() && tasks == map[] && logs == []
    {
      tasks, logs, created := map[], [], {};
      new;
      EmptyReplays();
    }

    method CreateTask(visible: bool, id: TaskId, fields: Fields) returns (r: Result<Task, Error>)
      requires Valid() && id !in created
      modifies this
      ensures Valid() && logs == old(logs)
      ensures r == if visible then Success(Task(fields, TODO)) else Failure(NotFound)
      ensures tasks == if visible then old(tasks)[id := Task(fields, TODO)] else old(tasks)
      ensures Model() == Apply(old(Model()), Create(visible, id, fields))
    {
      StepAudited(Model(), Create(visible, id, fields));
      StepKeepsSane(Model(), Create(visible, id, fields));
      if !visible { return Failure(NotFound); }
      hide Sane, Audited;
      tasks := tasks[id := Task(fields, TODO)];
      created := created + {id};
      return Success(tasks[id]);
    }

    /** PATCH: the fields present in the body are written one after the other; the status is not among them.
        A null where the table has NOT NULL fails on flush and leaves the row as it was. */
    method UpdateTask(visible: bool, id: TaskId, patch: Patch) returns (r: Result<Task, Error>)
      requires Valid()
      modifies this`tasks
      ensures Valid()
      ensures r == Failure(NotFound) <==> !visible || id !in old(tasks)
      ensures r == Failure(IntegrityError) <==> visible && id in old(tasks) && !patch.Storable()
      ensures r.Failure? ==> (r.error == NotFound || r.error == IntegrityError) && tasks == old(tasks)
      ensures r.Success? ==>
                && tasks == old(tasks)[id := r.value]
                && r.value.status == old(tasks)[id].status && patch.Applied(old(tasks)[id].fields, r.value.fields)
                && Model() == Apply(old(Model()), Edit(visible, id, r.value.fields))
    {
      if id !in tasks || !visible { return Failure(NotFound); }
      var fields := tasks[id].fields;
      if patch.title.To? { fields := fields.(title := patch.title.value); }
      if !patch.description.Unset? {
        fields := fields.(description := if patch.description.To? then Some(patch.description.value) else None);
      }
      if patch.priority.To? { fields := fields.(priority := patch.priority.value); }
      if !patch.dueAt.Unset? {
        fields := fields.(dueAt := if patch.dueAt.To? then Some(patch.dueAt.value) else None);
      }
      if patch.title.Null? || patch.priority.Null? { return Failure(IntegrityError); }
      var updated := tasks[id].(fields := fields);
      StepAudited(Model(), Edit(visible, id, fields));
      StepKeepsSane(Model(), Edit(visible, id, fields));
      hide Sane, Audited;
      tasks := tasks[id := updated];
      return Success(updated);
    }

    method DeleteTask(visible: bool, manager: bool, id: TaskId) returns (r: Result<(), Error>)
      requires Valid()
      modifies this`tasks
      ensures Valid()
      ensures r == if !visible || id !in old(tasks) then Failure(NotFound)
                   else if !manager then Failure(Forbidden)
                   else Success(())
      ensures tasks == if r.Success? then old(tasks) - {id} else old(tasks)
      ensures Model() == Apply(old(Model()), Remove(visible, manager, id))
    {
      if id !in tasks || !visible { return Failure(NotFound); }
      if !manager { return Failure(Forbidden); }
      StepAudited(Model(), Remove(visible, manager, id));
      StepKeepsSane(Model(), Remove(visible, manager, id));
      hide Sane, Audited;
      tasks := tasks - {id};
      return Success(());
    }

    /** Read, validate, write and log as one transaction. */
    method TransitionTask(visible: bool, id: TaskId, user: nat, to: Status) returns (r: Result<Task, Error>)
      requires Valid()
      modifies this`tasks, this`logs
      ensures Valid()
      ensures r == Failure(NotFound) <==> id !in old(tasks) || !visible
      ensures r == Failure(Conflict) <==>
                id in old(tasks) && visible
                && !(if to.CANCELLED? then Rank(old(tasks)[id].status) < 3
                     else Rank(to) == Rank(old(tasks)[id].status) + 1)
      ensures r.Failure? ==> (r.error == NotFound || r.error == Conflict) && tasks == old(tasks) && logs == old(logs)
      ensures r.Success? ==>
                && tasks == old(tasks)[id := Task(old(tasks)[id].fields, to)] && r.value == tasks[id]
                && logs == old(logs) + [Entry(id, user, old(tasks)[id].status, to)]
                && var pending := map[0 := Pending(id, user, old(tasks)[id].status, to)];
                Model() == Committed(old(Model()).(pending := pending), 0)
      ensures forall k :: |LogsOf(logs, k)| <= 3
    {
      var checked := CheckTransition(tasks, visible, id, to);
      if id in tasks {
        TransitionsAreExact(tasks[id].status, to);
      }
      if checked.Failure? {
        LogsAreShort();
        return Failure(checked.error);
      }
      ghost var begun := Begun(Model(), 0, visible, id, user, to);
      StepAudited(Model(), Begin(0, visible, id, user, to));
      StepKeepsSane(Model(), Begin(0, visible, id, user, to));
      StepAudited(begun, Commit(0));
      StepKeepsSane(begun, Commit(0));
      var before := tasks[id].status;
      tasks := tasks[id := tasks[id].(status := to)];
      logs := logs + [Entry(id, user, before, to)];
      assert Committed(begun, 0).pending == map[];
      assert Model() == Committed(begun, 0);
      hide Sane, Audited, Committed, Begun;
      LogsAreShort();
      return Success(tasks[id]);
    }

    lemma {:induction false} LogsAreShort()
      requires Valid()
      ensures forall k :: |LogsOf(logs, k)| <= 3
    {
      forall k ensures |LogsOf(logs, k)| <= 3 {
        assert AuditedAt(Model(), k);
        PathLength(LogsOf(logs, k), EndOf(LogsOf(logs, k)));
      }
    }
  }
}
