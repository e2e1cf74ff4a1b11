/**
 Rotation and logout as they really run: each reads and checks a token row, then writes, and no lock is held in
 between, so that handlers may overlap.  The writes do not look at the row again.
 */
module AuthInterleaving {
  import opened Wrappers
  import opened AuthTokens

  type HandlerId = nat

  /** A handler between its checks and its writes. */
  datatype Pending =
    | Rotation(checked: Redeemable)
    | SignOff(token: Jti)

  /** `ended` records the logins for which a logout has committed. */
  datatype State = State(server: Server, ended: set<Jti>, pending: map<HandlerId, Pending>)

  const INITIAL := State(AuthTokens.INITIAL, {}, map[])

  datatype Step =
    | Tick(to: Instant)
    | SetAccount(user: UserId, active: bool)
    | Login(user: UserId, jti: Jti, expiresAt: Instant)
    | BeginRotation(handler: HandlerId, token: Option<Claims>)
    | CommitRotation(handler: HandlerId, newJti: Jti, newExpiresAt: Instant)
    | BeginLogout(handler: HandlerId, user: UserId, token: Option<Claims>)
    | CommitLogout(handler: HandlerId)
    | Abort(handler: HandlerId)

  predicate Enabled(s: State, step: Step) {
    match step
    case Tick(to) => s.server.now <= to
    case SetAccount(_, _) => true
    case Login(_, jti, _) => jti !in s.server.rows
    case BeginRotation(h, _) => h !in s.pending
    case CommitRotation(h, newJti, _) => h in s.pending && s.pending[h].Rotation? && newJti !in s.server.rows
    case BeginLogout(h, _, _) => h !in s.pending
    case CommitLogout(h) => h in s.pending && s.pending[h].SignOff?
    case Abort(h) => h in s.pending
  }

  function Apply(s: State, step: Step): State
    requires Enabled(s, step)
  {
    match step
    case Tick(to) => s.(server := s.server.(now := to))
    case SetAccount(user, active) => s.(server := s.server.(users := s.server.users[user := active]))
    case Login(user, jti, expiresAt) => s.(server := Issue(s.server, user, jti, jti, expiresAt))
    case BeginRotation(h, token) =>
      var checked := CheckRotation(s.server.now, s.server.users, s.server.rows, token);
      if checked.Failure? then s else s.(pending := s.pending[h := Rotation(checked.value)])
    case CommitRotation(h, newJti, expiresAt) =>
      s.(server := Redeem(s.server, s.pending[h].checked, newJti, expiresAt), pending := s.pending - {h})
    case BeginLogout(h, user, token) =>
      var checked := CheckLogout(s.server.rows, user, token);
      if checked.Failure? || checked.value.None? then s else s.(pending := s.pending[h := SignOff(checked.value.value)])
    case CommitLogout(h) =>
      var jti := s.pending[h].token;
      State(s.server.(rows := Revoke(s.server.rows, jti)), s.ended + {RootOf(s.server.root, jti)}, s.pending - {h})
    case Abort(h) => s.(pending := s.pending - {h})
  }

  predicate Legal(steps: seq<Step>)
    decreases |steps|, 0
  {
    steps == [] || (Legal(steps[..|steps| - 1]) && Enabled(Run(steps[..|steps| - 1]), steps[|steps| - 1]))
  }

  function Run(steps: seq<Step>): State
    requires Legal(steps)
    decreases |steps|, 1
  {
    if steps == [] then INITIAL else Apply(Run(steps[..|steps| - 1]), steps[|steps| - 1])
  }

  // --------------------------------------------------------------------------------------
  // What is promised
  // --------------------------------------------------------------------------------------

  ghost predicate Distinct(redeemed: seq<Jti>) {
    forall i, k :: 0 <= i < k < |redeemed| ==> redeemed[i] != redeemed[k]
  }

  /** A login that was logged out has no live token left. */
  ghost predicate EndedAreDead(s: State) {
    forall r :: r in s.ended ==> LineageDead(s.server, r)
  }

  /** One live token per lineage, every token redeemed at most once, and logged-out logins over. */
  ghost predicate Promised(s: State) {
    OneLivePerLineage(s.server) && Distinct(s.server.redeemed) && EndedAreDead(s)
  }

  /** The token row was revoked between this handler's checks and its writes: by anyone if it rotates, by a
      rotation if it logs out (a second logout of the same login changes nothing any more). */
  predicate Overtaken(s: State, step: Step)
    requires Enabled(s, step)
  {
    match step
    case CommitRotation(h, _, _) => !Live(s.server, s.pending[h].checked.jti)
    case CommitLogout(h) => !Live(s.server, s.pending[h].token) && RootOf(s.server.root, s.pending[h].token) !in s.ended
    case _ => false
  }

  ghost predicate PromisedThroughout(steps: seq<Step>)
    requires Legal(steps)
    decreases |steps|
  {
    Promised(Run(steps)) && (steps != [] ==> PromisedThroughout(steps[..|steps| - 1]))
  }

  ghost predicate NeverOvertaken(steps: seq<Step>)
    requires Legal(steps)
    decreases |steps|
  {
    steps != [] ==> NeverOvertaken(steps[..|steps| - 1]) && !Overtaken(Run(steps[..|steps| - 1]), steps[|steps| - 1])
  }

  // --------------------------------------------------------------------------------------
  // The invariant
  // --------------------------------------------------------------------------------------

  ghost predicate HasLive(s: Server, login: Jti) {
    exists j :: Live(s, j) && RootOf(s.root, j) == login
  }

  /** A token that is not live was redeemed or its login logged out, and a login not logged out has a live token. */
  ghost predicate Accounted(s: State, j: Jti) {
    j in s.server.rows ==>
      && (!Live(s.server, j) ==> j in s.server.redeemed || RootOf(s.server.root, j) in s.ended)
      && (RootOf(s.server.root, j) !in s.ended ==> HasLive(s.server, RootOf(s.server.root, j)))
  }

  ghost predicate AllAccounted(s: State) {
    forall j :: Accounted(s, j)
  }

  function HeldToken(p: Pending): Jti {
    if p.Rotation? then p.checked.jti else p.token
  }

  /** A handler's token is registered. */
  ghost predicate Registered(s: State, p: Pending) {
    HeldToken(p) in s.server.rows
  }

  ghost predicate Sound(s: State) {
    && Inv(s.server) && EndedAreDead(s) && AllAccounted(s) && s.ended <= s.server.rows.Keys
    && (forall h :: h in s.pending ==> Registered(s, s.pending[h]))
  }

  lemma {:induction false} RotationCommit(s: State, h: HandlerId, newJti: Jti, expiresAt: Instant)
    requires Sound(s) && Enabled(s, CommitRotation(h, newJti, expiresAt)) && Live(s.server, s.pending[h].checked.jti)
    ensures Sound(Apply(s, CommitRotation(h, newJti, expiresAt)))
  {
    var t := Apply(s, CommitRotation(h, newJti, expiresAt));
    var jti := s.pending[h].checked.jti;
    RedeemKeepsInv(s.server, s.pending[h].checked, newJti, expiresAt);
    forall j ensures j in s.server.rows ==> RootOf(t.server.root, j) == RootOf(s.server.root, j) {
      assert RootedAt(s.server, j);
    }
    hide Inv, Later;
    assert Live(t.server, newJti) && RootOf(t.server.root, newJti) == RootOf(s.server.root, jti);
    assert forall j :: Live(t.server, j) <==> j == newJti || (Live(s.server, j) && j != jti);
    forall j ensures Accounted(t, j) {
      assert Accounted(s, j) && Accounted(s, jti);
      if j in s.server.rows && RootOf(s.server.root, j) !in s.ended {
        var k :| Live(s.server, k) && RootOf(s.server.root, k) == RootOf(s.server.root, j);
        assert Live(t.server, if k == jti then newJti else k);
      }
    }
  }

  lemma {:induction false} OvertakenRotation(s: State, h: HandlerId, newJti: Jti, expiresAt: Instant)
    requires Sound(s) && Enabled(s, CommitRotation(h, newJti, expiresAt)) && !Live(s.server, s.pending[h].checked.jti)
    ensures !Promised(Apply(s, CommitRotation(h, newJti, expiresAt)))
  {
    var t := Apply(s, CommitRotation(h, newJti, expiresAt));
    var jti := s.pending[h].checked.jti;
    assert Registered(s, s.pending[h]) && Accounted(s, jti);
    if jti in s.server.redeemed {
      var i :| 0 <= i < |s.server.redeemed| && s.server.redeemed[i] == jti;
      assert t.server.redeemed[i] == t.server.redeemed[|s.server.redeemed|];
    } else {
      assert Live(t.server, newJti) && RootOf(t.server.root, newJti) in t.ended;
    }
  }

  lemma {:induction false} LogoutCommit(s: State, h: HandlerId)
    requires Sound(s) && Enabled(s, CommitLogout(h)) && !Overtaken(s, CommitLogout(h))
    ensures Sound(Apply(s, CommitLogout(h)))
  {
    var t := Apply(s, CommitLogout(h));
    var jti := s.pending[h].token;
    assert Registered(s, s.pending[h]) && RootedAt(s.server, jti);
    RevokeKeepsInv(s.server, jti);
    forall j | Live(t.server, j) ensures RootOf(t.server.root, j) != RootOf(s.server.root, jti) {
      assert Live(s.server, j);
    }
    hide Inv, Later;
    forall j ensures Accounted(t, j) {
      assert Accounted(s, j);
      if j in t.server.rows && RootOf(t.server.root, j) !in t.ended {
        var k :| Live(s.server, k) && RootOf(s.server.root, k) == RootOf(s.server.root, j);
        assert Live(t.server, k);
      }
    }
  }

  lemma {:induction false} OvertakenLogout(s: State, h: HandlerId)
    requires Sound(s) && Enabled(s, CommitLogout(h)) && Overtaken(s, CommitLogout(h))
    ensures !Promised(Apply(s, CommitLogout(h)))
  {
    var t := Apply(s, CommitLogout(h));
    var jti := s.pending[h].token;
    assert Registered(s, s.pending[h]) && Accounted(s, jti);
    var k :| Live(s.server, k) && RootOf(s.server.root, k) == RootOf(s.server.root, jti);
    assert Live(t.server, k);
  }

  lemma {:induction false} LoginStep(s: State, user: UserId, jti: Jti, expiresAt: Instant)
    requires Sound(s) && jti !in s.server.rows
    ensures Sound(Apply(s, Step.Login(user, jti, expiresAt)))
  {
    var t := Apply(s, Step.Login(user, jti, expiresAt));
    forall j
      ensures j in s.server.rows ==>
                RootOf(t.server.root, j) == RootOf(s.server.root, j) && RootOf(s.server.root, j) != jti
    {
      assert RootedAt(s.server, j);
    }
    IssueKeepsInv(s.server, user, jti, jti, expiresAt);
    hide Inv, Later;
    assert Live(t.server, jti) && RootOf(t.server.root, jti) == jti;
    assert forall j :: Live(t.server, j) <==> j == jti || Live(s.server, j);
    forall j ensures Accounted(t, j) {
      assert Accounted(s, j);
      if j in s.server.rows && RootOf(s.server.root, j) !in s.ended {
        var k :| Live(s.server, k) && RootOf(s.server.root, k) == RootOf(s.server.root, j);
        assert Live(t.server, k);
      }
    }
  }

  /** Steps that write no token. */
  lemma {:induction false} OtherStep(s: State, step: Step)
    requires Sound(s) && Enabled(s, step) && !step.Login? && !step.CommitRotation? && !step.CommitLogout?
    ensures Sound(Apply(s, step))
  {
    var t := Apply(s, step);
    assert forall j :: Live(t.server, j) == Live(s.server, j);
    forall j ensures RootedAt(t.server, j) && Accounted(t, j) {
      assert RootedAt(s.server, j) && Accounted(s, j);
      if j in s.server.rows && RootOf(s.server.root, j) !in s.ended {
        var k :| Live(s.server, k) && RootOf(s.server.root, k) == RootOf(s.server.root, j);
        assert Live(t.server, k);
      }
    }
  }

  lemma {:induction false} StepIsExact(s: State, step: Step)
    requires Sound(s) && Enabled(s, step)
    ensures !Overtaken(s, step) ==> Sound(Apply(s, step))
    ensures Overtaken(s, step) ==> !Promised(Apply(s, step))
  {
    hide Sound, Promised, Apply, Live;
    match step
    case Login(user, jti, expiresAt) => LoginStep(s, user, jti, expiresAt);
    case CommitRotation(h, newJti, expiresAt) =>
      if Overtaken(s, step) {
        OvertakenRotation(s, h, newJti, expiresAt);
      } else {
        RotationCommit(s, h, newJti, expiresAt);
      }
    case CommitLogout(h) =>
      if Overtaken(s, step) {
        OvertakenLogout(s, h);
      } else {
        LogoutCommit(s, h);
      }
    case _ => OtherStep(s, step);
  }

  // --------------------------------------------------------------------------------------
  // Main results
  // --------------------------------------------------------------------------------------

  /** With overlapping handlers, every lineage has one live token, every token is redeemed at most once and every
      logged-out login is over throughout a run, exactly if no handler is overtaken between its checks and its
      writes. */
  lemma {:induction false} TokensAreSafeUnlessOvertaken(steps: seq<Step>)
    requires Legal(steps)
    ensures PromisedThroughout(steps) <==> NeverOvertaken(steps)
    ensures NeverOvertaken(steps) ==> Sound(Run(steps))
    decreases |steps|
  {
    if steps == [] {
      assert Sound(INITIAL) by {
        forall j ensures RootedAt(INITIAL.server, j) && Accounted(INITIAL, j) {
        }
      }
    } else {
      var p := steps[..|steps| - 1];
      TokensAreSafeUnlessOvertaken(p);
      if NeverOvertaken(p) {
        StepIsExact(Run(p), steps[|steps| - 1]);
        if Sound(Run(steps)) {
          SoundIsPromised(Run(steps));
        }
      }
      hide Sound, Promised, Apply, Enabled, Overtaken;
    }
  }

  lemma {:induction false} SoundIsPromised(s: State)
    requires Sound(s)
    ensures Promised(s)
  {
  }

  /** Handlers run one at a time: none begins while another is between its checks and its writes. */
  ghost predicate OneAtATime(steps: seq<Step>)
    requires Legal(steps)
    decreases |steps|
  {
    steps != [] ==>
      var p, step := steps[..|steps| - 1], steps[|steps| - 1];
      OneAtATime(p) && (step.BeginRotation? || step.BeginLogout? ==> Run(p).pending == map[])
  }

  /** Then the one pending handler still sees its token live. */
  ghost predicate Undisturbed(s: State) {
    && (forall h, k :: h in s.pending && k in s.pending ==> h == k)
    && (forall h :: h in s.pending ==> Live(s.server, HeldToken(s.pending[h])))
  }

  lemma {:induction false} OneAtATimeIsNeverOvertaken(steps: seq<Step>)
    requires Legal(steps) && OneAtATime(steps)
    ensures NeverOvertaken(steps) && Undisturbed(Run(steps))
    decreases |steps|
  {
    if steps == [] {
    } else {
      OneAtATimeIsNeverOvertaken(steps[..|steps| - 1]);
      hide Redeem, Revoke;
      UndisturbedStep(Run(steps[..|steps| - 1]), steps[|steps| - 1]);
    }
  }

  lemma {:induction false} UndisturbedStep(s: State, step: Step)
    requires Undisturbed(s) && Enabled(s, step) && (step.BeginRotation? || step.BeginLogout? ==> s.pending == map[])
    ensures Undisturbed(Apply(s, step))
  {
  }

  lemma {:induction false} Extend(steps: seq<Step>, step: Step) returns (longer: seq<Step>, t: State)
    requires Legal(steps) && Enabled(Run(steps), step)
    ensures longer == steps + [step] && Legal(longer) && t == Run(longer) == Apply(Run(steps), step)
  {
    longer := steps + [step];
    assert longer[..|steps|] == steps;
    t := Run(longer);
  }

  /** A logout overtaken by a rotation: both check the same live token, the rotation trades it, and the logout
      then succeeds without ending the session. */
  lemma {:induction false} OvertakenLogoutLeavesASession(user: UserId, a: Jti, b: Jti, expiresAt: Instant)
    returns (steps: seq<Step>)
    requires a != "" && a != b && expiresAt > 0
    ensures Legal(steps)
    ensures var s := Run(steps);
            a in s.ended && Live(s.server, b) && RootOf(s.server.root, b) == a && s.pending == map[]
  {
    var token := Some(Claims(Some(user), Some(a)));
    assert Legal([]) && Run([]) == INITIAL;
    hide Legal, Run;
    var p, s := Extend([], Step.SetAccount(user, true));
    p, s := Extend(p, Step.Login(user, a, expiresAt));
    p, s := Extend(p, BeginLogout(0, user, token));
    p, s := Extend(p, BeginRotation(1, token));
    p, s := Extend(p, CommitRotation(1, b, expiresAt));
    steps, s := Extend(p, CommitLogout(0));
  }

  /** A handler that is given up before its writes leaves no trace. */
  lemma {:induction false} AbortUndoesBegin(s: State, begin: Step)
    requires begin.BeginRotation? || begin.BeginLogout?
    requires Enabled(s, begin)
    ensures var begun := Apply(s, begin);
            if begin.handler in begun.pending then Apply(begun, Abort(begin.handler)) == s else begun == s
  {
    var begun := Apply(s, begin);
    if begin.handler in begun.pending {
      assert begun.pending - {begin.handler} == s.pending;
    }
  }
}
