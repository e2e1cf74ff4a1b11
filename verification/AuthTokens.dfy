/**
 The refresh-token table and the handlers that change it: login issues a token, refresh rotates it, logout
 revokes it.  Each handler call is one atomic step here; `AuthInterleaving` takes checks and writes apart.
 Tokens and jtis are opaque; a jti generated at random is assumed never to repeat.
 */
module AuthTokens {
  import opened Wrappers

  type Jti = string
  type UserId = nat
  type Instant = int

  datatype Row = Row(user: UserId, revoked: bool, expiresAt: Instant)

  /** What a presented refresh token decodes to: nothing if signature, kind or expiry is wrong; otherwise a
      subject, which may not be a number, and a jti, which may be missing. */
  datatype Claims = Claims(sub: Option<UserId>, jti: Option<Jti>)

  datatype AuthError = Unauthorized | Forbidden

  /** The table and the accounts (user -> active).  `root` and `redeemed` only record history: the login each
      token descends from, and the successful rotations in order. */
  datatype Server = Server(now: Instant, users: map<UserId, bool>, rows: map<Jti, Row>,
                           root: map<Jti, Jti>, redeemed: seq<Jti>)

  const INITIAL := Server(0, map[], map[], map[], [])

  function LoadUser(users: map<UserId, bool>, user: UserId): Result<UserId, AuthError> {
    if user !in users then Failure(Unauthorized)
    else if !users[user] then Failure(Forbidden)
    else Success(user)
  }

  /** What the checks of a rotation establish: the jti to redeem and the user it belongs to. */
  datatype Redeemable = Redeemable(jti: Jti, user: UserId)

  /** `rotate_tokens` up to its last check. */
  function CheckRotation(now: Instant, users: map<UserId, bool>, rows: map<Jti, Row>, token: Option<Claims>)
    : Result<Redeemable, AuthError>
  {
    if token.None? || token.value.sub.None? || token.value.jti.None? || token.value.jti.value == ""
    then Failure(Unauthorized)
    else
      var jti, user := token.value.jti.value, token.value.sub.value;
      if jti !in rows || rows[jti].revoked || rows[jti].user != user then Failure(Unauthorized)
      else if rows[jti].expiresAt <= now then Failure(Unauthorized)
      else
        var loaded := LoadUser(users, user);
        if loaded.Failure? then Failure(loaded.error) else Success(Redeemable(jti, user))
  }

  /** Registers a new token that descends from login `login`. */
  function Issue(s: Server, user: UserId, jti: Jti, login: Jti, expiresAt: Instant): Server {
    s.(rows := s.rows[jti := Row(user, false, expiresAt)], root := s.root[jti := login])
  }

  /** Idempotent; an unknown jti changes nothing. */
  function Revoke(rows: map<Jti, Row>, jti: Jti): map<Jti, Row> {
    if jti in rows then rows[jti := rows[jti].(revoked := true)] else rows
  }

  /** The login a token descends from. */
  function RootOf(root: map<Jti, Jti>, jti: Jti): Jti {
    if jti in root then root[jti] else jti
  }

  /** The writes of a rotation, which do not look at the row again. */
  function Redeem(s: Server, checked: Redeemable, newJti: Jti, expiresAt: Instant): Server {
    Issue(s.(rows := Revoke(s.rows, checked.jti), redeemed := s.redeemed + [checked.jti]),
          checked.user, newJti, RootOf(s.root, checked.jti), expiresAt)
  }

  function Rotate(s: Server, token: Option<Claims>, newJti: Jti, expiresAt: Instant): Server {
    var checked := CheckRotation(s.now, s.users, s.rows, token);
    if checked.Failure? then s else Redeem(s, checked.value, newJti, expiresAt)
  }

  /** What `logout_user` decides: silent for any token that is unusable anyway, refusal of another user's live
      token, or the jti to revoke. */
  function CheckLogout(rows: map<Jti, Row>, user: UserId, token: Option<Claims>): Result<Option<Jti>, AuthError> {
    if token.None? || token.value.jti.None? || token.value.jti.value == "" then Success(None)
    else
      var jti := token.value.jti.value;
      if jti !in rows || rows[jti].revoked then Success(None)
      else if rows[jti].user != user then Failure(Forbidden)
      else Success(Some(jti))
  }

  function Logout(s: Server, user: UserId, token: Option<Claims>): Server {
    var checked := CheckLogout(s.rows, user, token);
    if checked.Failure? || checked.value.None? then s
    else s.(rows := Revoke(s.rows, checked.value.value))
  }

  predicate Live(s: Server, jti: Jti) {
    jti in s.rows && !s.rows[jti].revoked
  }

  /** The token names a live row. */
  predicate Presented(s: Server, token: Option<Claims>) {
    token.Some? && token.value.jti.Some? && token.value.jti.value != "" && Live(s, token.value.jti.value)
  }

  /** A refresh is answered with a new token exactly when the presented one is registered, unrevoked, unexpired,
      its subject's own, and that account is active; it then trades exactly that token for exactly the new one
      in the same lineage. Otherwise nothing changes, and 403 is kept for a disabled account. */
  lemma {:induction false} RotationIsExact(s: Server, token: Option<Claims>, newJti: Jti, expiresAt: Instant)
    requires newJti !in s.rows
    ensures var r, t := CheckRotation(s.now, s.users, s.rows, token), Rotate(s, token, newJti, expiresAt);
            && (r.Success? <==>
                  && token.Some? && token.value.jti.Some? && token.value.jti.value != ""
                  && Live(s, token.value.jti.value) && s.now < s.rows[token.value.jti.value].expiresAt
                  && token.value.sub == Some(s.rows[token.value.jti.value].user)
                  && token.value.sub.value in s.users && s.users[token.value.sub.value])
            && (r.Success? ==>
                  && t.rows.Keys == s.rows.Keys + {newJti} && Live(t, newJti)
                  && (forall j :: j in s.rows ==> (Live(t, j) <==> Live(s, j) && j != token.value.jti.value))
                  && t.rows[newJti] == Row(token.value.sub.value, false, expiresAt)
                  && RootOf(t.root, newJti) == RootOf(s.root, token.value.jti.value)
                  && t.redeemed == s.redeemed + [token.value.jti.value])
            && (r.Failure? ==> t == s)
            && (r == Failure(Forbidden) <==>
                  && Presented(s, token) && s.now < s.rows[token.value.jti.value].expiresAt
                  && token.value.sub == Some(s.rows[token.value.jti.value].user)
                  && token.value.sub.value in s.users && !s.users[token.value.sub.value])
  {
  }

  /** Logging out revokes exactly the presented token, and only if it is live and the caller's own; another
      user's live token is refused, anything else is silently ignored. */
  lemma {:induction false} LogoutIsExact(s: Server, user: UserId, token: Option<Claims>)
    ensures var r, t := CheckLogout(s.rows, user, token), Logout(s, user, token);
            && (r == Failure(Forbidden) <==> Presented(s, token) && s.rows[token.value.jti.value].user != user)
            && (r.Failure? ==> r.error == Forbidden)
            && t.rows.Keys == s.rows.Keys
            && (forall j :: Live(t, j) <==>
                  Live(s, j) && !(Presented(s, token) && j == token.value.jti.value && s.rows[j].user == user))
  {
  }

  datatype Step =
    | Tick(to: Instant)
    | SetAccount(user: UserId, active: bool)
    | Login(user: UserId, jti: Jti, expiresAt: Instant)
    | Refresh(token: Option<Claims>, newJti: Jti, newExpiresAt: Instant)
    | SignOut(user: UserId, token: Option<Claims>)

  ghost predicate Enabled(s: Server, step: Step) {
    match step
    case Tick(to) => s.now <= to
    case Login(_, jti, _) => jti !in s.rows
    case Refresh(_, newJti, _) => newJti !in s.rows
    case _ => true
  }

  function Apply(s: Server, step: Step): Server {
    match step
    case Tick(to) => s.(now := to)
    case SetAccount(user, active) => s.(users := s.users[user := active])
    case Login(user, jti, expiresAt) => Issue(s, user, jti, jti, expiresAt)
    case Refresh(token, newJti, expiresAt) => Rotate(s, token, newJti, expiresAt)
    case SignOut(user, token) => Logout(s, user, token)
  }

  function Run(s: Server, steps: seq<Step>): Server
    decreases |steps|
  {
    if steps == [] then s else Apply(Run(s, steps[..|steps| - 1]), steps[|steps| - 1])
  }

  ghost predicate Legal(s: Server, steps: seq<Step>)
    decreases |steps|
  {
    steps == [] || (Legal(s, steps[..|steps| - 1]) && Enabled(Run(s, steps[..|steps| - 1]), steps[|steps| - 1]))
  }

  /** Of all tokens descending from one login, at most one is unrevoked. */
  ghost predicate OneLivePerLineage(s: Server) {
    forall a, b :: Live(s, a) && Live(s, b) && RootOf(s.root, a) == RootOf(s.root, b) ==> a == b
  }

  /** No jti was redeemed twice, and a redeemed jti is revoked. */
  ghost predicate RedeemedOnce(s: Server) {
    && (forall j :: j in s.redeemed ==> j in s.rows && !Live(s, j))
    && (forall i, k :: 0 <= i < k < |s.redeemed| ==> s.redeemed[i] != s.redeemed[k])
  }

  /** Every token descends from a login whose own token is registered. */
  ghost predicate RootedAt(s: Server, j: Jti) {
    (j in s.root <==> j in s.rows) && (j in s.root ==> s.root[j] in s.rows)
  }

  ghost predicate Rooted(s: Server) {
    forall j :: RootedAt(s, j)
  }

  ghost predicate Inv(s: Server) {
    Rooted(s) && OneLivePerLineage(s) && RedeemedOnce(s)
  }

  /** Rows persist, keep their user, expiry and lineage, and `revoked` never reverts. */
  ghost predicate RowKept(s: Server, t: Server, j: Jti)
    requires j in s.rows
  {
    && j in t.rows && t.rows[j].user == s.rows[j].user && t.rows[j].expiresAt == s.rows[j].expiresAt
    && RootOf(t.root, j) == RootOf(s.root, j) && (s.rows[j].revoked ==> t.rows[j].revoked)
  }

  ghost predicate Later(s: Server, t: Server) {
    forall j :: j in s.rows ==> RowKept(s, t, j)
  }

  /** The lineage of login `r` has no unrevoked token. */
  ghost predicate LineageDead(s: Server, r: Jti) {
    forall j :: Live(s, j) ==> RootOf(s.root, j) != r
  }

  lemma {:induction false} RevokeKeepsInv(s: Server, jti: Jti)
    requires Inv(s)
    ensures Inv(s.(rows := Revoke(s.rows, jti))) && Later(s, s.(rows := Revoke(s.rows, jti)))
  {
    var t := s.(rows := Revoke(s.rows, jti));
    assert forall j :: Live(t, j) ==> Live(s, j);
    forall j ensures RootedAt(t, j) {
      assert RootedAt(s, j);
    }
  }

  lemma {:induction false} IssueKeepsInv(s: Server, user: UserId, jti: Jti, login: Jti, expiresAt: Instant)
    requires Inv(s) && jti !in s.rows && (login in s.rows || login == jti)
    requires LineageDead(s, login)
    ensures Inv(Issue(s, user, jti, login, expiresAt)) && Later(s, Issue(s, user, jti, login, expiresAt))
  {
    var t := Issue(s, user, jti, login, expiresAt);
    forall j ensures RootedAt(t, j) {
      assert RootedAt(s, j);
    }
    forall a, b | Live(t, a) && Live(t, b) && RootOf(t.root, a) == RootOf(t.root, b) ensures a == b {
      if a != jti && b != jti {
        assert Live(s, a) && Live(s, b);
      } else if a == jti && b != jti {
        assert Live(s, b);
      } else if b == jti && a != jti {
        assert Live(s, a);
      }
    }
  }

  /** Redeeming a live token keeps the invariant. */
  lemma {:induction false} RedeemKeepsInv(s: Server, checked: Redeemable, newJti: Jti, expiresAt: Instant)
    requires Inv(s) && Live(s, checked.jti) && newJti !in s.rows
    ensures Inv(Redeem(s, checked, newJti, expiresAt)) && Later(s, Redeem(s, checked, newJti, expiresAt))
  {
    var jti, user := checked.jti, checked.user;
    RevokeKeepsInv(s, jti);
    var revoked := s.(rows := Revoke(s.rows, jti), redeemed := s.redeemed + [jti]);
    assert !Live(revoked, jti) && jti !in s.redeemed;
    assert Inv(revoked) by {
      assert Rooted(s.(rows := Revoke(s.rows, jti)));
      forall j ensures RootedAt(revoked, j) {
        assert RootedAt(s, j);
      }
      assert forall j :: Live(revoked, j) <==> Live(s.(rows := Revoke(s.rows, jti)), j);
    }
    assert RootedAt(s, jti);
    var login := RootOf(s.root, jti);
    forall j | Live(revoked, j) ensures RootOf(revoked.root, j) != login {
      assert Live(s, j);
    }
    IssueKeepsInv(revoked, user, newJti, login, expiresAt);
    hide Inv, Revoke;
    var t := Redeem(s, checked, newJti, expiresAt);
    forall j | j in s.rows ensures RowKept(s, t, j) {
      assert RowKept(revoked, t, j);
    }
  }

  lemma {:induction false} RotateKeepsInv(s: Server, token: Option<Claims>, newJti: Jti, expiresAt: Instant)
    requires Inv(s) && newJti !in s.rows
    ensures Inv(Rotate(s, token, newJti, expiresAt)) && Later(s, Rotate(s, token, newJti, expiresAt))
  {
    var checked := CheckRotation(s.now, s.users, s.rows, token);
    hide Inv, Redeem;
    if checked.Success? {
      assert Live(s, checked.value.jti);
      RedeemKeepsInv(s, checked.value, newJti, expiresAt);
    }
  }

  lemma {:induction false} StepKeepsInv(s: Server, step: Step)
    requires Inv(s) && Enabled(s, step)
    ensures Inv(Apply(s, step)) && Later(s, Apply(s, step))
  {
    match step
    case Refresh(token, newJti, expiresAt) => RotateKeepsInv(s, token, newJti, expiresAt); hide Rotate, Inv;
    case Login(user, jti, expiresAt) =>
      assert LineageDead(s, jti) by {
        forall j | Live(s, j) ensures RootOf(s.root, j) != jti {
          assert RootedAt(s, j);
        }
      }
      IssueKeepsInv(s, user, jti, jti, expiresAt);
      hide Issue, Inv;
    case SignOut(user, token) =>
      var checked := CheckLogout(s.rows, user, token);
      if checked.Success? && checked.value.Some? { RevokeKeepsInv(s, checked.value.value); }
      hide Revoke, Inv;
    case _ =>
      assert forall j :: Live(Apply(s, step), j) == Live(s, j);
      assert forall j :: RootedAt(s, j) ==> RootedAt(Apply(s, step), j);
  }

  lemma {:induction false} LaterTrans(s: Server, m: Server, t: Server)
    requires Later(s, m) && Later(m, t)
    ensures Later(s, t)
  {
    forall j | j in s.rows ensures RowKept(s, t, j) {
      assert RowKept(s, m, j) && RowKept(m, t, j);
    }
  }

  lemma {:induction false} RunKeepsInv(s: Server, steps: seq<Step>)
    requires Inv(s) && Legal(s, steps)
    ensures Inv(Run(s, steps)) && Later(s, Run(s, steps))
    decreases |steps|
  {
    if steps == [] {
    } else {
      var p := steps[..|steps| - 1];
      RunKeepsInv(s, p);
      hide Inv, Apply, Enabled;
      StepKeepsInv(Run(s, p), steps[|steps| - 1]);
      LaterTrans(s, Run(s, p), Run(s, steps));
    }
  }

  // --------------------------------------------------------------------------------------
  // Main results
  // --------------------------------------------------------------------------------------

  /** In every run, each login's lineage has at most one unrevoked token, and each jti is redeemed at most once. */
  lemma {:induction false} LineageHasOneLiveToken(steps: seq<Step>)
    requires Legal(INITIAL, steps)
    ensures OneLivePerLineage(Run(INITIAL, steps))
    ensures var r := Run(INITIAL, steps).redeemed; forall i, k :: 0 <= i < k < |r| ==> r[i] != r[k]
  {
    RunKeepsInv(INITIAL, steps);
  }

  /** `revoked` never reverts, however the run goes on. */
  lemma {:induction false} RevokedStaysRevoked(steps: seq<Step>, more: seq<Step>, jti: Jti)
    requires Legal(INITIAL, steps) && Legal(Run(INITIAL, steps), more)
    requires var s := Run(INITIAL, steps); jti in s.rows && s.rows[jti].revoked
    ensures var t := Run(Run(INITIAL, steps), more); jti in t.rows && t.rows[jti].revoked
  {
    RunKeepsInv(INITIAL, steps);
    RunKeepsInv(Run(INITIAL, steps), more);
  }

  /** This step hands out token `jti` to `user`, to expire at `expiresAt`. */
  ghost predicate HandsOut(s: Server, step: Step, user: UserId, jti: Jti, expiresAt: Instant) {
    || step == Login(user, jti, expiresAt)
    || (&& step.Refresh? && step.newJti == jti && step.newExpiresAt == expiresAt
        && CheckRotation(s.now, s.users, s.rows, step.token).Success? && step.token.value.sub == Some(user))
  }

  /** A token that is handed out can be redeemed at every instant before its expiry, in whatever way the run goes
      on, as long as the account is active and nobody has revoked it, and at none from its expiry on. */
  lemma {:induction false} RedeemableUntilExpiry(s: Server, step: Step, more: seq<Step>, user: UserId, jti: Jti,
                                                 expiresAt: Instant)
    requires Inv(s) && Enabled(s, step) && HandsOut(s, step, user, jti, expiresAt) && jti != ""
    requires Legal(Apply(s, step), more)
    ensures var t := Run(Apply(s, step), more);
            CheckRotation(t.now, t.users, t.rows, Some(Claims(Some(user), Some(jti)))).Success?
            <==> t.now < expiresAt && Live(t, jti) && user in t.users && t.users[user]
  {
    StepKeepsInv(s, step);
    var issued := Apply(s, step);
    assert issued.rows[jti] == Row(user, false, expiresAt);
    RunKeepsInv(issued, more);
    assert RowKept(issued, Run(issued, more), jti);
    hide Inv, Apply, Run, Legal;
  }

  /** Time and account alone can make a live token useless: after the clock has moved it can be redeemed exactly
      before its expiry, and after the account was switched exactly if it is on. */
  lemma {:induction false} ClockAndAccountDecide(s: Server, jti: Jti, to: Instant, active: bool)
    requires Live(s, jti) && jti != ""
    ensures var row := s.rows[jti];
            var token := Some(Claims(Some(row.user), Some(jti)));
            var later, switched := Apply(s, Tick(to)), Apply(s, SetAccount(row.user, active));
            && (CheckRotation(later.now, later.users, later.rows, token).Success?
                <==> to < row.expiresAt && row.user in s.users && s.users[row.user])
            && (CheckRotation(switched.now, switched.users, switched.rows, token).Success?
                <==> s.now < row.expiresAt && active)
            && (s.now < row.expiresAt && !active ==>
                  CheckRotation(switched.now, switched.users, switched.rows, token) == Failure(Forbidden))
  {
  }

  lemma {:induction false} DeadStep(s: Server, step: Step, r: Jti)
    requires Inv(s) && Enabled(s, step) && r in s.rows && LineageDead(s, r)
    ensures r in Apply(s, step).rows && LineageDead(Apply(s, step), r)
  {
    var t := Apply(s, step);
    StepKeepsInv(s, step);
    assert RowKept(s, t, r);
    forall j | Live(t, j) ensures RootOf(t.root, j) != r {
      if j in s.rows {
        assert RowKept(s, t, j) && Live(s, j);
      } else {
        NewToken(s, step, j);
      }
    }
  }

  /** A token that appears in a step starts its own lineage or continues that of a token live until then. */
  lemma {:induction false} NewToken(s: Server, step: Step, j: Jti)
    requires Enabled(s, step) && j !in s.rows && j in Apply(s, step).rows
    ensures RootOf(Apply(s, step).root, j) == j
            || exists k: Jti :: Live(s, k) && RootOf(s.root, k) == RootOf(Apply(s, step).root, j)
  {
    match step
    case Refresh(token, newJti, expiresAt) =>
      var checked := CheckRotation(s.now, s.users, s.rows, token);
      assert j == newJti && Live(s, checked.value.jti);
    case _ =>
  }

  /** A login session that was logged out, or whose token was lost in a rotation, is over for good: its
      lineage never gets an unrevoked token again. */
  lemma {:induction false} EndedLineageStaysDead(s: Server, more: seq<Step>, r: Jti)
    requires Inv(s) && Legal(s, more) && r in s.rows && LineageDead(s, r)
    ensures r in Run(s, more).rows && LineageDead(Run(s, more), r)
    decreases |more|
  {
    if more == [] {
    } else {
      var p := more[..|more| - 1];
      EndedLineageStaysDead(s, p, r);
      RunKeepsInv(s, p);
      hide Inv, Apply, Enabled, LineageDead;
      DeadStep(Run(s, p), more[|more| - 1], r);
    }
  }

  /** Logging out with the live token of a lineage ends that lineage. */
  lemma {:induction false} LogoutEndsLineage(s: Server, user: UserId, sub: Option<UserId>, jti: Jti)
    requires Inv(s) && Live(s, jti) && jti != "" && s.rows[jti].user == user
    ensures LineageDead(Logout(s, user, Some(Claims(sub, Some(jti)))), RootOf(s.root, jti))
  {
    var t := Logout(s, user, Some(Claims(sub, Some(jti))));
    forall j | Live(t, j) ensures RootOf(t.root, j) != RootOf(s.root, jti) {
      assert Live(s, j) && Live(s, jti);
    }
  }

  /** What atomic handlers rule out: two rotations that both checked the same live token before either
      wrote leave two live tokens in its lineage and redeem it twice. */
  lemma {:induction false} OverlappingRotationsForkTheLineage(s: Server, token: Option<Claims>, a: Jti, b: Jti,
                                                              expiresAt: Instant)
    requires Rooted(s) && CheckRotation(s.now, s.users, s.rows, token).Success?
    requires a !in s.rows && b !in s.rows && a != b
    ensures var checked := CheckRotation(s.now, s.users, s.rows, token).value;
            var t := Redeem(Redeem(s, checked, a, expiresAt), checked, b, expiresAt);
            !OneLivePerLineage(t) && !RedeemedOnce(t)
  {
    var checked := CheckRotation(s.now, s.users, s.rows, token).value;
    assert RootedAt(s, checked.jti);
    var m := Redeem(s, checked, a, expiresAt);
    var t := Redeem(m, checked, b, expiresAt);
    assert Live(t, a) && Live(t, b) && RootOf(t.root, a) == RootOf(t.root, b);
    assert t.redeemed == s.redeemed + [checked.jti, checked.jti];
    assert t.redeemed[|s.redeemed|] == t.redeemed[|s.redeemed| + 1];
  }

  /** The table as the handlers change it in place. */
  class AuthService {
    var now: Instant
    var users: map<UserId, bool>
    var rows: map<Jti, Row>
    ghost var root: map<Jti, Jti>
    ghost var redeemed: seq<Jti>

    constructor ()
      ensures Model() == INITIAL
    {
      now, users, rows, root, redeemed := 0, map[], map[], map[], [];
    }

    ghost function Model(): Server
      reads this
    {
      Server(now, users, rows, root, redeemed)
    }

    /** Registers a new token in the lineage of `login`.  It is the one more live token, every other row is as
        before, and in a lineage without a live token it keeps the lineage invariant. */
    method CreateRefreshToken(user: UserId, jti: Jti, expiresAt: Instant, ghost login: Jti)
      requires jti !in rows
      modifies this`rows, this`root
      ensures Model() == Issue(old(Model()), user, jti, login, expiresAt)
      ensures forall j :: Live(Model(), j) <==> Live(old(Model()), j) || j == jti
      ensures Inv(old(Model())) && (login in old(rows) || login == jti) && LineageDead(old(Model()), login) ==>
                Inv(Model()) && Later(old(Model()), Model())
    {
      ghost var before := Model();
      if Inv(before) && (login in before.rows || login == jti) && LineageDead(before, login) {
        IssueKeepsInv(before, user, jti, login, expiresAt);
      }
      rows := rows[jti := Row(user, false, expiresAt)];
      root := root[jti := login];
      hide Inv, Later;
    }

    /** Idempotent, and an unknown jti changes nothing: afterwards that one token is not live and every other is
        as before.  The lineage invariant is kept. */
    method RevokeRefreshToken(jti: Jti)
      modifies this`rows
      ensures rows == Revoke(old(rows), jti) && Revoke(rows, jti) == rows
      ensures rows.Keys == old(rows).Keys && forall j :: j in rows && j != jti ==> rows[j] == old(rows)[j]
      ensures forall j :: Live(Model(), j) <==> Live(old(Model()), j) && j != jti
      ensures Inv(old(Model())) ==> Inv(Model()) && Later(old(Model()), Model())
    {
      ghost var before := Model();
      if Inv(before) {
        RevokeKeepsInv(before, jti);
      }
      if jti in rows {
        rows := rows[jti := rows[jti].(revoked := true)];
      }
      assert rows == Revoke(before.rows, jti);
      assert Model() == before.(rows := Revoke(before.rows, jti));
      hide Inv, Later;
    }

    method IssueTokenPair(user: UserId, jti: Jti, expiresAt: Instant)
      requires jti !in rows
      modifies this
      ensures Model() == Apply(old(Model()), Login(user, jti, expiresAt))
      ensures rows == old(rows)[jti := Row(user, false, expiresAt)] && RootOf(root, jti) == jti && users == old(users)
    {
      CreateRefreshToken(user, jti, expiresAt, jti);
    }

    method RotateTokens(token: Option<Claims>, newJti: Jti, expiresAt: Instant) returns (r: Result<Jti, AuthError>)
      requires newJti !in rows
      modifies this
      ensures Model() == Apply(old(Model()), Refresh(token, newJti, expiresAt))
      ensures r == match CheckRotation(old(now), old(users), old(rows), token)
                   case Failure(e) => Failure(e)
                   case Success(_) => Success(newJti)
      ensures r.Success? <==>
                && token.Some? && token.value.jti.Some? && token.value.jti.value != ""
                && Live(old(Model()), token.value.jti.value) && now < old(rows)[token.value.jti.value].expiresAt
                && token.value.sub == Some(old(rows)[token.value.jti.value].user)
                && token.value.sub.value in users && users[token.value.sub.value]
      ensures r.Success? ==>
                && rows[newJti] == Row(token.value.sub.value, false, expiresAt)
                && (forall j :: Live(Model(), j) <==>
                      j == newJti || (Live(old(Model()), j) && j != token.value.jti.value))
                && redeemed == old(redeemed) + [token.value.jti.value]
      ensures r == Failure(Forbidden) <==>
                && Presented(old(Model()), token) && now < old(rows)[token.value.jti.value].expiresAt
                && token.value.sub == Some(old(rows)[token.value.jti.value].user)
                && token.value.sub.value in users && !users[token.value.sub.value]
      ensures r.Failure? ==> Model() == old(Model())
    {
      RotationIsExact(Model(), token, newJti, expiresAt);
      if token.None? || token.value.sub.None? { return Failure(Unauthorized); }
      if token.value.jti.None? || token.value.jti.value == "" { return Failure(Unauthorized); }
      var jti, user := token.value.jti.value, token.value.sub.value;
      if jti !in rows || rows[jti].revoked || rows[jti].user != user { return Failure(Unauthorized); }
      if rows[jti].expiresAt <= now { return Failure(Unauthorized); }
      var loaded := LoadUser(users, user);
      if loaded.Failure? { return Failure(loaded.error); }
      RevokeRefreshToken(jti);
      redeemed := redeemed + [jti];
      CreateRefreshToken(loaded.value, newJti, expiresAt, RootOf(root, jti));
      return Success(newJti);
    }

    method LogoutUser(user: UserId, token: Option<Claims>) returns (r: Result<(), AuthError>)
      modifies this
      ensures Model() == Apply(old(Model()), SignOut(user, token))
      ensures r == match CheckLogout(old(rows), user, token)
                   case Failure(e) => Failure(e)
                   case Success(_) => Success(())
      ensures r == Failure(Forbidden) <==>
                Presented(old(Model()), token) && old(rows)[token.value.jti.value].user != user
      ensures forall j :: Live(Model(), j) <==>
                Live(old(Model()), j)
                && !(Presented(old(Model()), token) && j == token.value.jti.value && old(rows)[j].user == user)
    {
      LogoutIsExact(Model(), user, token);
      if token.None? || token.value.jti.None? || token.value.jti.value == "" { return Success(()); }
      var jti := token.value.jti.value;
      if jti !in rows || rows[jti].revoked { return Success(()); }
      if rows[jti].user != user { return Failure(Forbidden); }
      RevokeRefreshToken(jti);
      return Success(());
    }
  }
}
