/**
 Tenant isolation of a request: the context variable that scopes ORM queries, the transaction settings that
 PostgreSQL row-level security reads, and the operations that keep the two in step or let them drift apart.

 One table stands for all tenant-scoped tables. Row ids come from a sequence and are never reused; unique
 constraints other than the id are not part of this model, and neither is the explicit scope bypass.
 */
module TenantScope {
  import opened Wrappers

  type Tenant = nat
  type RowId = nat

  datatype Row = Row(tenant: Tenant, content: string)

  type Table = map<RowId, Row>

  /** An open transaction: the two settings, the table to return to on rollback, and whether a statement failed. */
  datatype Tx = NoTx | Tx(guc: Option<Tenant>, bypass: bool, base: Table, failed: bool)

  /** `saved` holds the context values to restore, innermost last. */
  datatype Session = Session(table: Table, defaultTenant: Tenant, ctx: Option<Tenant>, saved: seq<Option<Tenant>>,
                             tx: Tx)

  datatype Op =
    | Query                                                          // ORM SELECT, before any further condition
    | Load(id: RowId)                                                // column or relationship load
    | Insert(id: RowId, owner: Option<Tenant>, content: string)
    | Update(id: RowId, to: Row)
    | Delete(id: RowId)
    | Commit
    | Rollback
    | Enter(tenant: Tenant)                                          // switch context, then rewrite the settings
    | Exit                                                           // restore the context only

  datatype Reply = Rows(rows: Table) | Found(row: Row) | Missing | Fine | Error

  datatype AuthError = Unauthorized | Forbidden

  datatype Outcome = Outcome(session: Session, reply: Reply)

  /** The row-level security policy, for visibility and for the check on written rows alike. */
  predicate Permits(tx: Tx, tenant: Tenant)
    requires tx.Tx?
  {
    tx.bypass || tx.guc == Some(tenant)
  }

  predicate OrmAllows(ctx: Option<Tenant>, tenant: Tenant) {
    ctx.None? || ctx == Some(tenant)
  }

  /** A statement outside a transaction begins one, with the settings of the context. */
  function Begin(s: Session): (t: Session)
    ensures t.tx.Tx?
  {
    if s.tx.Tx? then s
    else s.(tx := Tx(s.ctx, s.ctx.None?, s.table, false))
  }

  /** Rewrites the settings of the transaction under way to name the context's tenant. */
  function Enforce(s: Session): Session {
    if s.ctx.None? then s
    else var t := Begin(s); t.(tx := t.tx.(guc := s.ctx, bypass := false))
  }

  function Fail(s: Session): Outcome
    requires s.tx.Tx?
  {
    Outcome(s.(tx := s.tx.(failed := true)), Error)
  }

  function Visible(s: Session): Table
    requires s.tx.Tx?
  {
    map id | id in s.table && Permits(s.tx, s.table[id].tenant) && OrmAllows(s.ctx, s.table[id].tenant) :: s.table[id]
  }

  /** The tenant a new object is stamped with: its own, the context's, or the column default. */
  function StampedTenant(s: Session, owner: Option<Tenant>): Tenant {
    if owner.Some? then owner.value else if s.ctx.Some? then s.ctx.value else s.defaultTenant
  }

  predicate IsStatement(op: Op) {
    op.Query? || op.Load? || op.Insert? || op.Update? || op.Delete?
  }

  /** One statement inside an open, unfailed transaction. */
  function Execute(s: Session, op: Op): Outcome
    requires s.tx.Tx? && IsStatement(op)
  {
    match op
    case Query => Outcome(s, Rows(Visible(s)))
    case Load(id) =>
      Outcome(s, if id in s.table && Permits(s.tx, s.table[id].tenant) then Found(s.table[id]) else Missing)
    case Insert(id, owner, content) =>
      var row := Row(StampedTenant(s, owner), content);
      if Permits(s.tx, row.tenant) && id !in s.table then Outcome(s.(table := s.table[id := row]), Fine) else Fail(s)
    case Update(id, to) =>
      if id !in s.table || !Permits(s.tx, s.table[id].tenant) then Outcome(s, Missing)
      else if Permits(s.tx, to.tenant) then Outcome(s.(table := s.table[id := to]), Fine)
      else Fail(s)
    case Delete(id) =>
      if id !in s.table || !Permits(s.tx, s.table[id].tenant) then Outcome(s, Missing)
      else Outcome(s.(table := s.table - {id}), Fine)
  }

  function Perform(s: Session, op: Op): Outcome {
    match op
    case Commit =>
      if s.tx.Tx? && s.tx.failed then Outcome(s.(table := s.tx.base, tx := NoTx), Error)
      else Outcome(s.(tx := NoTx), Fine)
    case Rollback => Outcome(if s.tx.Tx? then s.(table := s.tx.base, tx := NoTx) else s, Fine)
    case Enter(tenant) =>
      if s.tx.Tx? && s.tx.failed then Outcome(s, Error)
      else Outcome(Enforce(s.(ctx := Some(tenant), saved := s.saved + [s.ctx])), Fine)
    case Exit =>
      if s.saved == [] then Outcome(s, Error)
      else Outcome(s.(ctx := s.saved[|s.saved| - 1], saved := s.saved[..|s.saved| - 1]), Fine)
    case _ =>
      var t := Begin(s);
      if t.tx.failed then Outcome(t, Error) else Execute(t, op)
  }

  /** What authentication leaves: the user's tenant in the context, and the lookup's transaction, which began
      with the bypass setting, rewritten to that tenant. */
  function Authenticated(s: Session, tenant: Tenant): Session {
    Enforce(Begin(s).(ctx := Some(tenant)))
  }

  /** A request that has not touched the database yet. */
  ghost predicate Idle(s: Session) {
    s.ctx == None && s.saved == [] && s.tx == NoTx
  }

  // --------------------------------------------------------------------------------------
  // Confinement and non-interference
  // --------------------------------------------------------------------------------------

  predicate Within(ctx: Option<Tenant>, scope: set<Tenant>) {
    ctx.Some? && ctx.value in scope
  }

  /** The request can only name tenants of `scope`. */
  ghost predicate Confined(s: Session, scope: set<Tenant>) {
    && Within(s.ctx, scope)
    && (forall i :: 0 <= i < |s.saved| ==> Within(s.saved[i], scope))
    && (s.tx.Tx? ==> !s.tx.bypass && Within(s.tx.guc, scope))
  }

  predicate StaysIn(op: Op, scope: set<Tenant>) {
    op.Enter? ==> op.tenant in scope
  }

  /** The tables hold the same rows of tenants in `scope`. */
  ghost predicate AgreeAt(a: Table, b: Table, scope: set<Tenant>, id: RowId) {
    && ((id in a && a[id].tenant in scope) <==> (id in b && b[id].tenant in scope))
    && (id in a && id in b && a[id].tenant in scope ==> a[id] == b[id])
  }

  ghost predicate Agree(a: Table, b: Table, scope: set<Tenant>) {
    forall id :: AgreeAt(a, b, scope, id)
  }

  /** The tables hold the same rows of tenants outside `scope`. */
  ghost predicate SameOutsideAt(a: Table, b: Table, scope: set<Tenant>, id: RowId) {
    && ((id in a && a[id].tenant !in scope) <==> (id in b && b[id].tenant !in scope))
    && (id in a && id in b && a[id].tenant !in scope ==> a[id] == b[id])
  }

  ghost predicate SameOutside(a: Table, b: Table, scope: set<Tenant>) {
    forall id :: SameOutsideAt(a, b, scope, id)
  }

  /** Two sessions a request confined to `scope` cannot tell apart. */
  ghost predicate Alike(s: Session, t: Session, scope: set<Tenant>) {
    && s.ctx == t.ctx && s.saved == t.saved && s.tx.Tx? == t.tx.Tx?
    && Agree(s.table, t.table, scope)
    && (s.tx.Tx? ==>
          && s.tx.guc == t.tx.guc && s.tx.bypass == t.tx.bypass && s.tx.failed == t.tx.failed
          && Agree(s.tx.base, t.tx.base, scope))
  }

  /** Nothing outside `scope` differs from `origin`, now or after a rollback. */
  ghost predicate Untouched(s: Session, origin: Table, scope: set<Tenant>) {
    SameOutside(origin, s.table, scope) && (s.tx.Tx? ==> SameOutside(origin, s.tx.base, scope))
  }

  predicate FreshId(s: Session, op: Op) {
    op.Insert? ==> op.id !in s.table
  }

  lemma {:induction false} StaysConfined(s: Session, op: Op, scope: set<Tenant>)
    requires Confined(s, scope) && StaysIn(op, scope)
    ensures Confined(Perform(s, op).session, scope)
  {
  }

  lemma {:induction false} StaysUntouched(s: Session, op: Op, origin: Table, scope: set<Tenant>)
    requires Confined(s, scope) && StaysIn(op, scope) && Untouched(s, origin, scope)
    ensures Untouched(Perform(s, op).session, origin, scope)
  {
    var t := Perform(s, op).session;
    if IsStatement(op) {
      forall id ensures SameOutsideAt(origin, t.table, scope, id) {
        assert SameOutsideAt(origin, s.table, scope, id);
      }
    }
  }

  lemma {:induction false} StaysAlike(s: Session, t: Session, op: Op, scope: set<Tenant>)
    requires Confined(s, scope) && Alike(s, t, scope) && StaysIn(op, scope) && FreshId(s, op) && FreshId(t, op)
    ensures Perform(s, op).reply == Perform(t, op).reply
    ensures Alike(Perform(s, op).session, Perform(t, op).session, scope)
  {
    if IsStatement(op) {
      StatementAlike(Begin(s), Begin(t), op, scope);
    }
  }

  lemma {:induction false} StatementAlike(s: Session, t: Session, op: Op, scope: set<Tenant>)
    requires s.tx.Tx? && t.tx.Tx? && IsStatement(op)
    requires Confined(s, scope) && Alike(s, t, scope) && FreshId(s, op) && FreshId(t, op)
    ensures Execute(s, op).reply == Execute(t, op).reply
    ensures Alike(Execute(s, op).session, Execute(t, op).session, scope)
  {
    if op.Query? {
      forall id ensures id in Visible(s) <==> id in Visible(t) {
        assert AgreeAt(s.table, t.table, scope, id);
      }
      assert Visible(s) == Visible(t) by {
        forall id | id in Visible(s) ensures Visible(s)[id] == Visible(t)[id] {
          assert AgreeAt(s.table, t.table, scope, id);
        }
      }
    } else {
      assert AgreeAt(s.table, t.table, scope, op.id);
      var a, b := Execute(s, op).session, Execute(t, op).session;
      forall id ensures AgreeAt(a.table, b.table, scope, id) {
        assert AgreeAt(s.table, t.table, scope, id);
      }
    }
  }

  /** A request handler: it chooses each operation from the replies it has seen so far. */
  type Handler = seq<Reply> -> Op

  datatype Played = Played(session: Session, replies: seq<Reply>)

  function Play(s: Session, h: Handler, n: nat): Played {
    if n == 0 then Played(s, [])
    else
      var p := Play(s, h, n - 1);
      var o := Perform(p.session, h(p.replies));
      Played(o.session, p.replies + [o.reply])
  }

  ghost predicate HandlerStaysIn(h: Handler, scope: set<Tenant>) {
    forall replies: seq<Reply> :: StaysIn(h(replies), scope)
  }

  predicate FreshIds(s: Session, h: Handler, n: nat) {
    n > 0 ==> FreshIds(s, h, n - 1) && FreshId(Play(s, h, n - 1).session, h(Play(s, h, n - 1).replies))
  }

  /** No request writes a row of a tenant outside its scope, whatever it does and however often it rolls back. */
  lemma {:induction false} NoOtherTenantsRowChanges(s: Session, tenant: Tenant, h: Handler, n: nat, scope: set<Tenant>)
    requires Idle(s) && tenant in scope && HandlerStaysIn(h, scope)
    ensures var t := Play(Authenticated(s, tenant), h, n).session; Confined(t, scope) && Untouched(t, s.table, scope)
    decreases n
  {
    if n == 0 {
    } else {
      NoOtherTenantsRowChanges(s, tenant, h, n - 1, scope);
      hide Confined, Untouched, Perform;
      var p := Play(Authenticated(s, tenant), h, n - 1);
      StaysConfined(p.session, h(p.replies), scope);
      StaysUntouched(p.session, h(p.replies), s.table, scope);
    }
  }

  lemma {:induction false} HandlerStep(h: Handler, scope: set<Tenant>, replies: seq<Reply>)
    requires HandlerStaysIn(h, scope)
    ensures StaysIn(h(replies), scope)
  {
  }

  lemma {:induction false} AuthenticatedAlike(s: Session, t: Session, tenant: Tenant, scope: set<Tenant>)
    requires Idle(s) && Idle(t) && Agree(s.table, t.table, scope)
    ensures Alike(Authenticated(s, tenant), Authenticated(t, tenant), scope)
  {
  }

  /** Non-interference: on two databases that agree on the rows of the tenants in scope, every handler gets the
      same replies, however many operations it performs and however it adapts to what it sees. */
  lemma {:induction false} NonInterference(s: Session, t: Session, tenant: Tenant, h: Handler, n: nat,
                                           scope: set<Tenant>)
    requires Idle(s) && Idle(t) && tenant in scope && HandlerStaysIn(h, scope) && Agree(s.table, t.table, scope)
    requires FreshIds(Authenticated(s, tenant), h, n) && FreshIds(Authenticated(t, tenant), h, n)
    ensures Play(Authenticated(s, tenant), h, n).replies == Play(Authenticated(t, tenant), h, n).replies
    ensures Alike(Play(Authenticated(s, tenant), h, n).session, Play(Authenticated(t, tenant), h, n).session, scope)
    decreases n
  {
    hide Confined, Untouched, Perform, Alike, FreshId, Agree, Authenticated, Idle, HandlerStaysIn;
    if n == 0 {
      AuthenticatedAlike(s, t, tenant, scope);
    } else {
      NonInterference(s, t, tenant, h, n - 1, scope);
      NoOtherTenantsRowChanges(s, tenant, h, n - 1, scope);
      var p, q := Play(Authenticated(s, tenant), h, n - 1), Play(Authenticated(t, tenant), h, n - 1);
      HandlerStep(h, scope, p.replies);
      StaysAlike(p.session, q.session, h(p.replies), scope);
    }
  }

  // --------------------------------------------------------------------------------------
  // Agreement of the two filters
  // --------------------------------------------------------------------------------------

  /** A request that has authenticated always has a tenant to return to. */
  ghost predicate Named(s: Session) {
    s.ctx.Some? && forall i :: 0 <= i < |s.saved| ==> s.saved[i].Some?
  }

  /** ORM filter and row-level security name the same tenant, now or when the next transaction begins. */
  predicate Aligned(s: Session) {
    s.tx.Tx? ==> !s.tx.bypass && s.tx.guc == s.ctx
  }

  /** What a caller can check before leaving a switched context: no transaction is open, or the context
      returned to is the one being left. */
  predicate SafeExit(s: Session, op: Op) {
    op.Exit? && s.saved != [] ==> s.tx.NoTx? || s.saved[|s.saved| - 1] == s.ctx
  }

  ghost predicate AlignedThroughout(s: Session, h: Handler, n: nat) {
    Aligned(Play(s, h, n).session) && (n > 0 ==> AlignedThroughout(s, h, n - 1))
  }

  ghost predicate SafeExits(s: Session, h: Handler, n: nat) {
    n > 0 ==> SafeExits(s, h, n - 1) && SafeExit(Play(s, h, n - 1).session, h(Play(s, h, n - 1).replies))
  }

  lemma {:induction false} StepAlignment(s: Session, op: Op)
    requires Named(s) && Aligned(s)
    ensures Named(Perform(s, op).session)
    ensures Aligned(Perform(s, op).session) <==> SafeExit(s, op)
  {
  }

  lemma {:induction false} StaysNamed(s: Session, op: Op)
    requires Named(s)
    ensures Named(Perform(s, op).session)
  {
  }

  lemma {:induction false} PlayStaysNamed(s: Session, h: Handler, n: nat)
    requires Named(s)
    ensures Named(Play(s, h, n).session)
  {
    if n == 0 {
    } else {
      PlayStaysNamed(s, h, n - 1);
      StaysNamed(Play(s, h, n - 1).session, h(Play(s, h, n - 1).replies));
      hide Perform, Named;
    }
  }

  /** Both filters name the same tenant in every state of a request exactly if each nested switch is left
      outside a transaction, or towards the same tenant. */
  lemma {:induction false} AlignmentIsExact(s: Session, h: Handler, n: nat)
    requires Named(s) && Aligned(s)
    ensures AlignedThroughout(s, h, n) <==> SafeExits(s, h, n)
    decreases n
  {
    if n == 0 {
    } else {
      AlignmentIsExact(s, h, n - 1);
      PlayStaysNamed(s, h, n - 1);
      var p := Play(s, h, n - 1);
      if Aligned(p.session) {
        StepAlignment(p.session, h(p.replies));
      }
      hide Perform, Named, Aligned, SafeExit;
    }
  }

  /** Without a tenant context, as at login, in registration's lookups and in background jobs, nothing is hidden:
      a query returns the whole table, a load finds every row, and every row can be written.  A new row without a
      tenant of its own goes to the default tenant. */
  lemma {:induction false} NoContextReachesEverything(s: Session, id: RowId, owner: Option<Tenant>, content: string,
                                                      to: Row)
    requires s.ctx == None && (s.tx.Tx? ==> s.tx.bypass && !s.tx.failed)
    ensures Perform(s, Query).reply == Rows(s.table)
    ensures Perform(s, Load(id)).reply == if id in s.table then Found(s.table[id]) else Missing
    ensures var i := Perform(s, Insert(id, owner, content));
            var row := Row(if owner.Some? then owner.value else s.defaultTenant, content);
            && i.reply == (if id in s.table then Error else Fine)
            && i.session.table == if id in s.table then s.table else s.table[id := row]
    ensures var u, d := Perform(s, Update(id, to)), Perform(s, Delete(id));
            && u.reply == d.reply == (if id in s.table then Fine else Missing)
            && u.session.table == (if id in s.table then s.table[id := to] else s.table)
            && d.session.table == (if id in s.table then s.table - {id} else s.table)
    ensures forall op :: IsStatement(op) ==>
              var t := Perform(s, op).session; t.ctx == None && t.tx.Tx? && t.tx.bypass && t.tx.guc == Begin(s).tx.guc
  {
    assert Visible(Begin(s)) == s.table;
  }

  /** Once a statement has failed, nothing more happens until the transaction ends, and ending it undoes all of it. */
  lemma {:induction false} FailedTransactionIsInert(s: Session, work: seq<Op>)
    requires s.tx.Tx? && s.tx.failed && forall op :: op in work ==> IsStatement(op)
    ensures PerformAll(s, work) == s
    ensures forall op :: IsStatement(op) || op.Enter? ==> Perform(s, op) == Outcome(s, Error)
    ensures Perform(s, Commit) == Outcome(s.(table := s.tx.base, tx := NoTx), Error)
    ensures Perform(s, Rollback) == Outcome(s.(table := s.tx.base, tx := NoTx), Fine)
  {
    if work == [] {
    } else {
      FailedTransactionIsInert(s, work[..|work| - 1]);
      assert IsStatement(work[|work| - 1]);
    }
  }

  /** In an aligned state a query returns exactly the rows of the context's tenant. */
  lemma {:induction false} AlignedQueryIsExact(s: Session)
    requires Named(s) && Aligned(s) && !(s.tx.Tx? && s.tx.failed)
    ensures Perform(s, Query).reply == Rows(map id | id in s.table && s.table[id].tenant == s.ctx.value :: s.table[id])
    ensures forall id :: Perform(s, Load(id)).reply ==
                           if id in s.table && s.table[id].tenant == s.ctx.value then Found(s.table[id]) else Missing
  {
    var t := Begin(s);
    assert Visible(t) == map id | id in s.table && s.table[id].tenant == s.ctx.value :: s.table[id];
  }

  /** In an aligned state an insert succeeds exactly for the context's own tenant, stated or left open, and the
      row carries it; an update or delete reaches exactly that tenant's rows and cannot move one away. */
  lemma {:induction false} AlignedWriteIsExact(s: Session, id: RowId, owner: Option<Tenant>, content: string, to: Row)
    requires Named(s) && Aligned(s) && !(s.tx.Tx? && s.tx.failed)
    ensures var i := Perform(s, Insert(id, owner, content));
            && (i.reply == Fine <==> (owner == None || owner == s.ctx) && id !in s.table)
            && i.session.table == if i.reply == Fine then s.table[id := Row(s.ctx.value, content)] else s.table
    ensures var own := id in s.table && s.table[id].tenant == s.ctx.value;
            var u, d := Perform(s, Update(id, to)), Perform(s, Delete(id));
            && (u.reply == Missing <==> !own) && (d.reply == Missing <==> !own)
            && (u.reply == Fine <==> own && to.tenant == s.ctx.value) && (d.reply == Fine <==> own)
            && u.session.table == (if u.reply == Fine then s.table[id := to] else s.table)
            && d.session.table == (if own then s.table - {id} else s.table)
  {
  }

  /** The drift: a switch to another tenant that is entered and left inside one transaction leaves row-level
      security on the other tenant, so the request's next query sees nothing and its next insert is refused. */
  lemma {:induction false} NestedSwitchLeavesFiltersApart(s: Session, tenant: Tenant, id: RowId, content: string)
    requires Named(s) && Aligned(s) && !(s.tx.Tx? && s.tx.failed) && s.ctx != Some(tenant)
    ensures var t := Perform(Perform(s, Enter(tenant)).session, Exit).session;
            && t.ctx == s.ctx && !Aligned(t)
            && Perform(t, Query).reply == Rows(map[])
            && Perform(t, Insert(id, None, content)).reply == Error
  {
    var t := Perform(Perform(s, Enter(tenant)).session, Exit).session;
    assert t.saved == s.saved;
    assert Visible(t) == map[];
  }

  function PerformAll(s: Session, ops: seq<Op>): Session {
    if ops == [] then s else Perform(PerformAll(s, ops[..|ops| - 1]), ops[|ops| - 1]).session
  }

  lemma {:induction false} WorkInSwitch(s: Session, tenant: Tenant, work: seq<Op>)
    requires Aligned(s) && s.ctx == Some(tenant) && s.tx.Tx?
    requires forall op :: op in work ==> IsStatement(op)
    ensures var t := PerformAll(s, work);
            && Aligned(t) && t.ctx == s.ctx && t.saved == s.saved && t.tx.Tx? && t.tx.base == s.tx.base
            && SameOutside(s.table, t.table, {tenant})
  {
    if work == [] {
    } else {
      var front, op := work[..|work| - 1], work[|work| - 1];
      WorkInSwitch(s, tenant, front);
      var m, t := PerformAll(s, front), PerformAll(s, work);
      assert IsStatement(op);
      forall id ensures SameOutsideAt(s.table, t.table, {tenant}, id) {
        assert SameOutsideAt(s.table, m.table, {tenant}, id);
      }
    }
  }

  /** Before each of these operations and after the last, both filters name `tenant`. */
  ghost predicate AlignedOn(s: Session, tenant: Tenant, ops: seq<Op>) {
    forall k :: 0 <= k <= |ops| ==> Aligned(PerformAll(s, ops[..k])) && PerformAll(s, ops[..k]).ctx == Some(tenant)
  }

  lemma {:induction false} WorkAligned(s: Session, tenant: Tenant, work: seq<Op>)
    requires Aligned(s) && s.ctx == Some(tenant) && s.tx.Tx?
    requires forall op :: op in work ==> IsStatement(op)
    ensures AlignedOn(s, tenant, work)
    ensures var t := PerformAll(s, work);
            && t.ctx == s.ctx && t.saved == s.saved && t.tx.Tx? && t.tx.base == s.tx.base
            && SameOutside(s.table, t.table, {tenant})
  {
    forall k | 0 <= k <= |work|
      ensures Aligned(PerformAll(s, work[..k])) && PerformAll(s, work[..k]).ctx == Some(tenant)
    {
      WorkInSwitch(s, tenant, work[..k]);
    }
    WorkInSwitch(s, tenant, work);
  }

  lemma {:induction false} TwoOps(s: Session, a: Op, b: Op)
    ensures PerformAll(s, [a, b]) == Perform(Perform(s, a).session, b).session
  {
    hide Perform;
    assert [a, b][..1] == [a] && [a][..0] == [];
    assert PerformAll(s, [a]) == Perform(s, a).session;
  }

  lemma {:induction false} SameOutsideItself(t: Table, scope: set<Tenant>)
    ensures SameOutside(t, t, scope)
  {
  }

  /** Seeding a tenant and committing at once, as tenant creation does: every statement in between runs with
      both filters on the new tenant, only its rows change, all of the work lasts or, if a statement failed, none
      of it, and the request continues aligned where it was. */
  lemma {:induction false} SeedThenCommit(s: Session, tenant: Tenant, work: seq<Op>)
    requires s.tx.Tx? ==> !s.tx.failed && s.tx.base == s.table
    requires forall op :: op in work ==> IsStatement(op)
    ensures var e := Perform(s, Enter(tenant)).session;
            && AlignedOn(e, tenant, work)
            && var t := PerformAll(PerformAll(e, work), [Exit, Commit]);
            && t.tx.NoTx? && t.ctx == s.ctx && t.saved == s.saved && SameOutside(s.table, t.table, {tenant})
            && t.table == if PerformAll(e, work).tx.Tx? && PerformAll(e, work).tx.failed then s.table
                          else PerformAll(e, work).table
  {
    var e := Perform(s, Enter(tenant)).session;
    WorkAligned(e, tenant, work);
    TwoOps(PerformAll(e, work), Exit, Commit);
    hide PerformAll, SameOutside;
  }

  /** Tenant creation as it runs: the new tenant's row is committed and refreshed, so that seeding enters its
      switch inside the transaction that the refresh opened under the caller's tenant. */
  lemma {:induction false} TenantCreationSeedsInOpenTransaction(s: Session, refreshed: RowId, tenant: Tenant,
                                                                work: seq<Op>)
    requires s.ctx.Some? && !(s.tx.Tx? && s.tx.failed)
    requires forall op :: op in work ==> IsStatement(op)
    ensures var c := PerformAll(s, [Commit, Load(refreshed)]);
            var e := Perform(c, Enter(tenant)).session;
            && c.tx == Tx(s.ctx, false, s.table, false) && c.table == s.table
            && AlignedOn(e, tenant, work)
            && var t := PerformAll(PerformAll(e, work), [Exit, Commit]);
            && Aligned(t) && t.tx.NoTx? && t.ctx == s.ctx && t.saved == s.saved
            && SameOutside(s.table, t.table, {tenant})
            && t.table == if PerformAll(e, work).tx.Tx? && PerformAll(e, work).tx.failed then s.table
                          else PerformAll(e, work).table
  {
    TwoOps(s, Commit, Load(refreshed));
    var c := PerformAll(s, [Commit, Load(refreshed)]);
    assert c == s.(tx := Tx(s.ctx, false, s.table, false));
    SeedThenCommit(c, tenant, work);
  }

  /** Registration runs before there is a user: its lookups use the bypass setting, then the default tenant is
      entered.  Every statement in between has both filters on that tenant and no other tenant's row changes;
      after the commit, or the rollback of a lost race, the context is reset without a transaction. */
  lemma {:induction false} RegistrationStaysInDefaultTenant(s: Session, tenant: Tenant, work: seq<Op>, end: Op)
    requires s.ctx == None && s.saved == [] && s.tx == Tx(None, true, s.table, false)
    requires forall op :: op in work ==> IsStatement(op)
    requires end.Commit? || end.Rollback?
    ensures var e := Perform(s, Enter(tenant)).session;
            && AlignedOn(e, tenant, work)
            && var t := PerformAll(PerformAll(e, work), [end, Exit]);
            && Idle(t) && SameOutside(s.table, t.table, {tenant}) && (end.Rollback? ==> t.table == s.table)
  {
    var e := Perform(s, Enter(tenant)).session;
    WorkAligned(e, tenant, work);
    TwoOps(PerformAll(e, work), end, Exit);
    SameOutsideItself(s.table, {tenant});
    hide PerformAll, SameOutside;
  }

  /** When the default role is missing, registration resets the context with the transaction still open.  No
      later statement reaches another tenant, and closing the session undoes everything. */
  lemma {:induction false} FailedRegistrationStaysConfined(s: Session, tenant: Tenant, work: seq<Op>, later: seq<Op>)
    requires s.ctx == None && s.saved == [] && s.tx == Tx(None, true, s.table, false)
    requires (forall op :: op in work ==> IsStatement(op)) && (forall op :: op in later ==> IsStatement(op))
    ensures var x := Perform(PerformAll(Perform(s, Enter(tenant)).session, work), Exit).session;
            && x.ctx == None && x.saved == [] && !Aligned(x)
            && SameOutside(s.table, PerformAll(x, later).table, {tenant})
            && var t := Perform(PerformAll(x, later), Rollback).session;
            && Idle(t) && t.table == s.table
  {
    var e := Perform(s, Enter(tenant)).session;
    WorkAligned(e, tenant, work);
    hide PerformAll, AlignedOn, SameOutside;
    LeavingOpen(PerformAll(e, work), tenant, s.table, later);
  }

  lemma {:induction false} LeavingOpen(w: Session, tenant: Tenant, base: Table, later: seq<Op>)
    requires w.ctx == Some(tenant) && w.saved == [None] && Aligned(w) && w.tx.Tx? && w.tx.base == base
    requires SameOutside(base, w.table, {tenant}) && forall op :: op in later ==> IsStatement(op)
    ensures var x := Perform(w, Exit).session;
            && x.ctx == None && x.saved == [] && !Aligned(x)
            && SameOutside(base, PerformAll(x, later).table, {tenant})
            && var t := Perform(PerformAll(x, later), Rollback).session;
            && Idle(t) && t.table == base
  {
    LaterWork(Perform(w, Exit).session, tenant, base, later);
    hide SameOutside, Execute, PerformAll;
  }

  /** Whatever the context, statements under a policy on one tenant leave the other tenants' rows alone. */
  lemma {:induction false} LaterWork(x: Session, tenant: Tenant, base: Table, later: seq<Op>)
    requires x.tx.Tx? && !x.tx.bypass && x.tx.guc == Some(tenant) && SameOutside(base, x.table, {tenant})
    requires forall op :: op in later ==> IsStatement(op)
    ensures var t := PerformAll(x, later);
            && t.ctx == x.ctx && t.saved == x.saved
            && t.tx.Tx? && !t.tx.bypass && t.tx.guc == Some(tenant) && t.tx.base == x.tx.base
            && SameOutside(base, t.table, {tenant})
  {
    if later == [] {
    } else {
      var front, op := later[..|later| - 1], later[|later| - 1];
      LaterWork(x, tenant, base, front);
      var m, t := PerformAll(x, front), PerformAll(x, later);
      assert IsStatement(op);
      PolicyConfines(m, tenant, op);
      forall id ensures SameOutsideAt(base, t.table, {tenant}, id) {
        assert SameOutsideAt(base, m.table, {tenant}, id) && SameOutsideAt(m.table, t.table, {tenant}, id);
      }
    }
  }

  /** With the policy on one tenant, no statement changes another tenant's rows, whatever the context says. */
  lemma {:induction false} PolicyConfines(s: Session, tenant: Tenant, op: Op)
    requires s.tx.Tx? && !s.tx.bypass && s.tx.guc == Some(tenant) && IsStatement(op)
    ensures SameOutside(s.table, Perform(s, op).session.table, {tenant})
  {
    var t := Perform(s, op).session;
    forall id ensures SameOutsideAt(s.table, t.table, {tenant}, id) {
    }
  }

  const ROLE_NAMES := ["admin", "member"]

  ghost predicate HasRole(table: Table, tenant: Tenant, name: string) {
    exists id :: id in table && table[id] == Row(tenant, name)
  }

  predicate Assigned(roleIds: map<string, RowId>, table: Table, tenant: Tenant, name: string) {
    name in roleIds && roleIds[name] in table && table[roleIds[name]] == Row(tenant, name)
  }

  ghost predicate RoleAdded(from: Table, to: Table, tenant: Tenant, id: RowId) {
    && (id in from ==> id in to && to[id] == from[id])
    && (id in to && id !in from ==>
          to[id].tenant == tenant && to[id].content in ["admin", "member"] && !HasRole(from, tenant, to[id].content))
  }

  /** `to` is `from` with default roles added that `tenant` did not have, each once. */
  ghost predicate OnlyRolesAdded(from: Table, to: Table, tenant: Tenant) {
    && (forall id :: RoleAdded(from, to, tenant, id))
    && (forall i, j :: i in to && j in to && i !in from && j !in from && to[i].content == to[j].content ==> i == j)
  }

  lemma {:induction false} RoleStep(from: Table, mid: Table, tenant: Tenant, name: string, newId: RowId)
    requires OnlyRolesAdded(from, mid, tenant) && newId !in mid
    requires name in ["admin", "member"] && !HasRole(mid, tenant, name)
    ensures OnlyRolesAdded(from, mid[newId := Row(tenant, name)], tenant)
  {
    var to := mid[newId := Row(tenant, name)];
    assert RoleAdded(from, mid, tenant, newId);
    assert !HasRole(from, tenant, name) by {
      forall id | id in from ensures from[id] != Row(tenant, name) {
        assert RoleAdded(from, mid, tenant, id);
      }
    }
    forall id ensures RoleAdded(from, to, tenant, id) {
      assert RoleAdded(from, mid, tenant, id);
    }
    forall i, j | i in to && j in to && i !in from && j !in from && to[i].content == to[j].content ensures i == j {
      assert RoleAdded(from, mid, tenant, i) && RoleAdded(from, mid, tenant, j);
    }
  }

  /** The database session of one request together with its context variable, changed in place. */
  class RequestSession {
    var table: Table
    const defaultTenant: Tenant
    var ctx: Option<Tenant>
    var saved: seq<Option<Tenant>>
    var tx: Tx

    constructor (table: Table, defaultTenant: Tenant)
      ensures Model() == Session(table, defaultTenant, None, [], NoTx) && Idle(Model())
    {
      this.table, this.defaultTenant, ctx, saved, tx := table, defaultTenant, None, [], NoTx;
    }

    ghost function Model(): Session
      reads this
    {
      Session(table, defaultTenant, ctx, saved, tx)
    }

    /** The `after_begin` event. */
    method BeginIfNeeded()
      modifies this`tx
      ensures Model() == Begin(old(Model()))
      ensures tx == if old(tx).Tx? then old(tx)
                    else if ctx.Some? then Tx(ctx, false, table, false)
                    else Tx(None, true, table, false)
    {
      if tx.NoTx? {
        if ctx.None? {
          tx := Tx(None, true, table, false);
        } else {
          tx := Tx(ctx, false, table, false);
        }
      }
    }

    method EnforceTenantGuc()
      modifies this`tx
      ensures Model() == Enforce(old(Model()))
    {
      if ctx.Some? {
        BeginIfNeeded();
        tx := tx.(guc := ctx, bypass := false);
      }
    }

    /** A row by its id, as row-level security lets it through. */
    method LoadRow(id: RowId) returns (r: Option<Row>)
      requires !(tx.Tx? && tx.failed)
      modifies this`tx
      ensures Outcome(Model(), if r.Some? then Found(r.value) else Missing) == Perform(old(Model()), Load(id))
    {
      BeginIfNeeded();
      if id !in table || !(tx.bypass || tx.guc == Some(table[id].tenant)) { return None; }
      return Some(table[id]);
    }

    /** The dependency every authenticated endpoint starts with: the user is looked up across tenants, an
        unknown user (401) or a disabled account (403) is refused before any context is set, and otherwise
        both filters are set to that user's tenant. */
    method GetCurrentUser(user: RowId, disabled: set<RowId>) returns (r: Result<Row, AuthError>)
      requires Idle(Model())
      modifies this
      ensures r == if user !in old(table) then Failure(Unauthorized)
                   else if user in disabled then Failure(Forbidden)
                   else Success(old(table)[user])
      ensures Perform(old(Model()), Load(user)).reply == if user in old(table) then Found(old(table)[user]) else Missing
      ensures r.Success? ==>
                && Model() == Authenticated(old(Model()), r.value.tenant) && Aligned(Model()) && Named(Model())
                && ctx == Some(r.value.tenant) && tx == Tx(ctx, false, old(table), false) && table == old(table)
      ensures r.Failure? ==> ctx == None && tx == Tx(None, true, old(table), false) && table == old(table)
    {
      var found := LoadRow(user);
      if found.None? { return Failure(Unauthorized); }
      if user in disabled { return Failure(Forbidden); }
      r := Success(found.value);
      ctx := Some(found.value.tenant);
      EnforceTenantGuc();
    }

    /** An ORM SELECT with the tenant condition added. */
    method Select() returns (rows: Table)
      requires !(tx.Tx? && tx.failed)
      modifies this`tx
      ensures Outcome(Model(), Rows(rows)) == Perform(old(Model()), Query)
    {
      BeginIfNeeded();
      rows := map id | && id in table
                       && (tx.bypass || tx.guc == Some(table[id].tenant))
                       && (ctx.None? || ctx == Some(table[id].tenant)) :: table[id];
      assert rows == Visible(Model());
    }

    /** Flushing one new object: stamped with the context's tenant unless it has one, then checked. */
    method Flush(id: RowId, owner: Option<Tenant>, content: string) returns (ok: bool)
      requires !(tx.Tx? && tx.failed)
      modifies this`table, this`tx
      ensures Outcome(Model(), if ok then Fine else Error) == Perform(old(Model()), Insert(id, owner, content))
    {
      BeginIfNeeded();
      var tenant := if owner.Some? then owner.value else if ctx.Some? then ctx.value else defaultTenant;
      ok := (tx.bypass || tx.guc == Some(tenant)) && id !in table;
      if ok {
        table := table[id := Row(tenant, content)];
      } else {
        tx := tx.(failed := true);
      }
    }

    method CommitTx()
      modifies this`table, this`tx
      ensures Model() == Perform(old(Model()), Commit).session
    {
      if tx.Tx? && tx.failed {
        table := tx.base;
      }
      tx := NoTx;
    }

    method RollbackTx()
      modifies this`table, this`tx
      ensures Model() == Perform(old(Model()), Rollback).session
    {
      if tx.Tx? {
        table, tx := tx.base, NoTx;
      }
    }

    /** One role of the seeding loop: looked up by name under the switched context, created if missing. */
    method EnsureRole(tenant: Tenant, name: string, newId: RowId) returns (id: RowId)
      requires ctx == Some(tenant) && tx.Tx? && !tx.failed && !tx.bypass && tx.guc == ctx && newId !in table
      modifies this`table, this`tx
      ensures tx == old(tx) && id in table && table[id] == Row(tenant, name)
      ensures table == if HasRole(old(table), tenant, name) then old(table) else old(table)[newId := Row(tenant, name)]
    {
      var rows := Select();
      if existing :| existing in rows && rows[existing].content == name {
        id := existing;
        assert table[id] == Row(tenant, name);
      } else {
        assert !HasRole(table, tenant, name) by {
          forall other | other in table ensures table[other] != Row(tenant, name) {
            assert table[other] == Row(tenant, name) ==> other in rows;
          }
        }
        var ok := Flush(newId, None, name);
        id := newId;
      }
    }

    /** Seeds a tenant's default roles inside a switched context; nothing is committed here. Running it again
        adds nothing, and only the context is restored. */
    method SeedTenantRbac(tenant: Tenant, newIds: seq<RowId>) returns (roleIds: map<string, RowId>)
      requires !(tx.Tx? && tx.failed) && |newIds| == |ROLE_NAMES|
      requires forall i, j :: 0 <= i < j < |newIds| ==> newIds[i] != newIds[j]
      requires forall i :: 0 <= i < |newIds| ==> newIds[i] !in table
      modifies this
      ensures ctx == old(ctx) && saved == old(saved)
      ensures tx.Tx? && !tx.failed && !tx.bypass && tx.guc == Some(tenant)
      ensures OnlyRolesAdded(old(table), table, tenant)
      ensures Assigned(roleIds, table, tenant, "admin") && Assigned(roleIds, table, tenant, "member")
      ensures HasRole(old(table), tenant, "admin") && HasRole(old(table), tenant, "member") ==> table == old(table)
    {
      saved, ctx := saved + [ctx], Some(tenant);
      EnforceTenantGuc();
      roleIds := map[];
      for i := 0 to |ROLE_NAMES|
        invariant ctx == Some(tenant) && saved == old(saved) + [old(ctx)]
        invariant tx.Tx? && !tx.failed && !tx.bypass && tx.guc == ctx
        invariant OnlyRolesAdded(old(table), table, tenant)
        invariant forall k :: i <= k < |newIds| ==> newIds[k] !in table
        invariant forall k :: 0 <= k < i ==> Assigned(roleIds, table, tenant, ROLE_NAMES[k])
        invariant table == old(table) || exists k :: 0 <= k < i && !HasRole(old(table), tenant, ROLE_NAMES[k])
      {
        ghost var before, ids := table, roleIds;
        var name := ROLE_NAMES[i];
        assert name in ROLE_NAMES;
        if !HasRole(table, tenant, name) {
          RoleStep(old(table), table, tenant, name, newIds[i]);
        }
        var id := EnsureRole(tenant, name, newIds[i]);
        roleIds := roleIds[name := id];
        forall k | 0 <= k < i ensures Assigned(roleIds, table, tenant, ROLE_NAMES[k]) {
          assert Assigned(ids, before, tenant, ROLE_NAMES[k]);
        }
      }
      assert ROLE_NAMES[0] == "admin" && ROLE_NAMES[1] == "member";
      ctx, saved := saved[|saved| - 1], saved[..|saved| - 1];
    }
  }
}
