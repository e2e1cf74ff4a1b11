/**
 The browser side of token renewal together with the server it talks to: requests answered in any order, one
 shared refresh at a time, and a replay of every request whose 401 triggered it.

 A refresh ("flight") is the promise kept in `refreshing`. It is settled only when its `finally` has run, and
 the requests waiting for it resume only after that. Which requests get a 401, and when replies arrive, is
 left open. A request the server handles after the client gave up on it is one of the `Elsewhere` steps.
 */
module ClientSession {
  import opened Wrappers
  import A = AuthTokens

  type RequestId = nat

  datatype Reply = Fine | Unauthorized | OtherError

  datatype Flight =
    | Posted(token: A.Claims)               // the refresh request is out
    | Answered(issued: Option<A.Claims>)    // the server decided: a new token, or an error
    | Resolved(ok: bool)                    // the reply was handled, `finally` is still to run
    | Settled(ok: bool)

  datatype Phase = Sent | Awaiting(flight: nat) | Done | Failed

  datatype Request = Request(authFree: bool, retried: bool, sends: nat, phase: Phase)

  /** The two entries of the token storage: `access` is the access token, known by the jti it was issued with,
      `stored` the one copy of the refresh token.  `clears` records how often the session was dropped. */
  datatype State = State(server: A.Server, access: Option<A.Jti>, stored: Option<A.Claims>, refreshing: Option<nat>,
                         flights: seq<Flight>, requests: map<RequestId, Request>, clears: nat)

  datatype Step =
    | Send(id: RequestId, authFree: bool)
    | Receive(id: RequestId, reply: Reply)
    | Serve(flight: nat, newJti: A.Jti, expiresAt: A.Instant)
    | Lose(flight: nat)
    | Deliver(flight: nat)
    | Finally(flight: nat)
    | Resume(id: RequestId)
    | Elsewhere(step: A.Step)

  ghost predicate InPhase(s: State, id: RequestId, phase: Phase) {
    id in s.requests && s.requests[id].phase == phase
  }

  ghost predicate Enabled(s: State, step: Step) {
    match step
    case Send(id, _) => id !in s.requests
    case Receive(id, _) => InPhase(s, id, Sent)
    case Serve(f, newJti, _) => f < |s.flights| && s.flights[f].Posted? && newJti != "" && newJti !in s.server.rows
    case Lose(f) => f < |s.flights| && (s.flights[f].Posted? || s.flights[f].Answered?)
    case Deliver(f) => f < |s.flights| && s.flights[f].Answered?
    case Finally(f) => f < |s.flights| && s.flights[f].Resolved?
    case Resume(id) =>
      id in s.requests && s.requests[id].phase.Awaiting?
      && s.requests[id].phase.flight < |s.flights| && s.flights[s.requests[id].phase.flight].Settled?
    case Elsewhere(other) => A.Enabled(s.server, other)
  }

  function WithPhase(s: State, id: RequestId, phase: Phase): State
    requires id in s.requests
  {
    s.(requests := s.requests[id := s.requests[id].(phase := phase)])
  }

  function Clear(s: State): State {
    s.(access := None, stored := None, clears := s.clears + 1)
  }

  /** `refreshing ??= requestNewAccessToken()`: without a stored token the new promise rejects at once. */
  function Join(s: State): (t: State)
    ensures t.refreshing.Some?
  {
    if s.refreshing.Some? then s
    else s.(refreshing := Some(|s.flights|),
            flights := s.flights + [if s.stored.Some? then Posted(s.stored.value) else Resolved(false)])
  }

  predicate ShouldRefresh(r: Request, reply: Reply) {
    reply.Unauthorized? && !r.retried && !r.authFree
  }

  /** The response interceptor. The replay runs inside the same `try` as the refresh, so whatever makes a
      replay fail is handled like a failed refresh. */
  function OnReply(s: State, id: RequestId, reply: Reply): State
    requires id in s.requests
  {
    var r := s.requests[id];
    if reply.Fine? then WithPhase(s, id, Done)
    else if ShouldRefresh(r, reply) then
      var joined := Join(s);
      joined.(requests := s.requests[id := r.(retried := true, phase := Awaiting(joined.refreshing.value))])
    else if r.retried then Clear(WithPhase(s, id, Failed))
    else WithPhase(s, id, Failed)
  }

  /** What the server answers to a refresh: the new token, or an error. */
  function Issued(server: A.Server, token: A.Claims, newJti: A.Jti): Option<A.Claims> {
    var checked := A.CheckRotation(server.now, server.users, server.rows, Some(token));
    if checked.Success? then Some(A.Claims(Some(checked.value.user), Some(newJti))) else None
  }

  function Handled(s: State, f: nat): State
    requires f < |s.flights| && s.flights[f].Answered?
  {
    var issued := s.flights[f].issued;
    s.(access := if issued.Some? then issued.value.jti else s.access,
       stored := if issued.Some? then issued else s.stored,
       flights := s.flights[f := Resolved(issued.Some?)])
  }

  function OnResume(s: State, id: RequestId): State
    requires id in s.requests && s.requests[id].phase.Awaiting? && s.requests[id].phase.flight < |s.flights|
    requires s.flights[s.requests[id].phase.flight].Settled?
  {
    var r := s.requests[id];
    if s.flights[r.phase.flight].ok then s.(requests := s.requests[id := r.(sends := r.sends + 1, phase := Sent)])
    else Clear(WithPhase(s, id, Failed))
  }

  function Apply(s: State, step: Step): State
    requires Enabled(s, step)
  {
    match step
    case Send(id, authFree) => s.(requests := s.requests[id := Request(authFree, false, 1, Sent)])
    case Receive(id, reply) => OnReply(s, id, reply)
    case Serve(f, newJti, expiresAt) =>
      var token := s.flights[f].token;
      s.(server := A.Apply(s.server, A.Refresh(Some(token), newJti, expiresAt)),
         flights := s.flights[f := Answered(Issued(s.server, token, newJti))])
    case Lose(f) => s.(flights := s.flights[f := Resolved(false)])
    case Deliver(f) => Handled(s, f)
    case Finally(f) => s.(refreshing := None, flights := s.flights[f := Settled(s.flights[f].ok)])
    case Resume(id) => OnResume(s, id)
    case Elsewhere(other) => s.(server := A.Apply(s.server, other))
  }

  ghost predicate Legal(s: State, steps: seq<Step>)
    decreases |steps|, 0
  {
    steps == [] || (Legal(s, steps[..|steps| - 1]) && Enabled(Run(s, steps[..|steps| - 1]), steps[|steps| - 1]))
  }

  ghost function Run(s: State, steps: seq<Step>): State
    requires Legal(s, steps)
    decreases |steps|, 1
  {
    if steps == [] then s else Apply(Run(s, steps[..|steps| - 1]), steps[|steps| - 1])
  }

  // --------------------------------------------------------------------------------------
  // Single flight and at most one replay
  // --------------------------------------------------------------------------------------

  /** At most one refresh is unsettled, and it is the one in `refreshing`. */
  ghost predicate SingleFlight(s: State) {
    && (s.refreshing.Some? ==> s.refreshing.value < |s.flights| && !s.flights[s.refreshing.value].Settled?)
    && (forall f :: 0 <= f < |s.flights| && !s.flights[f].Settled? ==> s.refreshing == Some(f))
  }

  /** A request is sent a second time only as its one replay, and an unauthenticated endpoint's never. */
  ghost predicate SentAtMostTwice(s: State, id: RequestId) {
    id in s.requests ==>
      var r := s.requests[id];
      && 1 <= r.sends <= 2 && (!r.retried || r.phase.Awaiting? ==> r.sends == 1)
      && (r.phase.Awaiting? ==> r.retried && r.phase.flight < |s.flights|)
      && (r.authFree ==> !r.retried)
  }

  ghost predicate AllSentAtMostTwice(s: State) {
    forall id :: SentAtMostTwice(s, id)
  }

  /** The server would accept this token as far as its registration goes. */
  predicate LiveToken(server: A.Server, c: A.Claims) {
    && c.sub.Some? && c.jti.Some? && c.jti.value != ""
    && A.Live(server, c.jti.value) && server.rows[c.jti.value].user == c.sub.value
  }

  /** Just signed in: a live token is stored, nothing is under way. */
  ghost predicate Start(s: State) {
    && s.refreshing == None && s.flights == [] && s.requests == map[] && s.clears == 0
    && s.stored.Some? && LiveToken(s.server, s.stored.value) && s.access == s.stored.value.jti
  }

  lemma {:induction false} StepKeepsSingleFlight(s: State, step: Step)
    requires SingleFlight(s) && Enabled(s, step)
    ensures SingleFlight(Apply(s, step))
  {
  }

  lemma {:induction false} StepKeepsSends(s: State, step: Step)
    requires AllSentAtMostTwice(s) && SingleFlight(s) && Enabled(s, step)
    ensures AllSentAtMostTwice(Apply(s, step))
  {
    var t := Apply(s, step);
    forall id ensures SentAtMostTwice(t, id) {
      assert SentAtMostTwice(s, id);
    }
  }

  /** In every run, whatever is lost, refused or logged out: one refresh at a time, each request sent at most twice. */
  lemma {:induction false} OneRefreshAtATime(s: State, steps: seq<Step>)
    requires Start(s) && Legal(s, steps)
    ensures SingleFlight(Run(s, steps)) && AllSentAtMostTwice(Run(s, steps))
    decreases |steps|
  {
    if steps == [] {
    } else {
      var p := steps[..|steps| - 1];
      OneRefreshAtATime(s, p);
      hide SingleFlight, AllSentAtMostTwice, Apply, Enabled;
      StepKeepsSingleFlight(Run(s, p), steps[|steps| - 1]);
      StepKeepsSends(Run(s, p), steps[|steps| - 1]);
    }
  }

  /** The two stored tokens were issued together, or both are gone. */
  ghost predicate OnePair(s: State) {
    s.access == if s.stored.Some? then s.stored.value.jti else None
  }

  /** In every run the storage holds one pair or nothing, never halves of two. */
  lemma {:induction false} TokensStayTogether(s: State, steps: seq<Step>)
    requires Start(s) && Legal(s, steps)
    ensures OnePair(Run(s, steps))
    decreases |steps|
  {
    if steps == [] {
    } else {
      TokensStayTogether(s, steps[..|steps| - 1]);
    }
  }

  /** A 401 on a first attempt, for an endpoint that takes a token. */
  ghost predicate Expired(s: State, step: Step) {
    && step.Receive? && step.reply.Unauthorized? && step.id in s.requests
    && !s.requests[step.id].retried && !s.requests[step.id].authFree
  }

  ghost predicate SomeExpired(s: State, steps: seq<Step>)
    requires Legal(s, steps)
    decreases |steps|
  {
    steps != [] && (SomeExpired(s, steps[..|steps| - 1]) || Expired(Run(s, steps[..|steps| - 1]), steps[|steps| - 1]))
  }

  /** Refreshes happen for such a 401 and for nothing else: a run has any exactly if it has one of those. */
  lemma {:induction false} RefreshOnlyAfter401(s: State, steps: seq<Step>)
    requires Start(s) && Legal(s, steps)
    ensures Run(s, steps).flights != [] <==> SomeExpired(s, steps)
    decreases |steps|
  {
    if steps == [] {
    } else {
      var p := steps[..|steps| - 1];
      RefreshOnlyAfter401(s, p);
      OneRefreshAtATime(s, p);
      hide AllSentAtMostTwice;
    }
  }

  /** This step is a replay that comes back with an error, of whatever kind. */
  ghost predicate ReplayFails(s: State, step: Step) {
    step.Receive? && !step.reply.Fine? && step.id in s.requests && s.requests[step.id].retried
  }

  // --------------------------------------------------------------------------------------
  // What every run does to requests and session
  // --------------------------------------------------------------------------------------

  /** The server answers a refresh with a token exactly if it registers the new one, for the same user. */
  lemma {:induction false} AnswerFollowsServer(server: A.Server, token: A.Claims, newJti: A.Jti, expiresAt: A.Instant)
    requires newJti !in server.rows
    ensures var issued := Issued(server, token, newJti);
            var after := A.Apply(server, A.Refresh(Some(token), newJti, expiresAt));
            && (issued.Some? <==> newJti in after.rows)
            && (issued.Some? ==> issued.value == A.Claims(token.sub, Some(newJti)))
  {
  }

  /** A new token arrived for this refresh: neither lost nor refused, and there was a token to post. */
  ghost predicate Granted(s: State, steps: seq<Step>, f: nat)
    requires Legal(s, steps)
    decreases |steps|
  {
    steps != [] &&
    var p, step := steps[..|steps| - 1], steps[|steps| - 1];
    || Granted(s, p, f)
    || (&& step == Deliver(f) && f < |Run(s, p).flights|
        && Run(s, p).flights[f].Answered? && Run(s, p).flights[f].issued.Some?)
  }

  /** The last step lets a request go on behind a refresh that brought nothing. */
  ghost predicate ResumesInVain(s: State, steps: seq<Step>)
    requires Legal(s, steps) && steps != []
  {
    var p, step := steps[..|steps| - 1], steps[|steps| - 1];
    step.Resume? && !Granted(s, p, Run(s, p).requests[step.id].phase.flight)
  }

  /** How many steps of the run are a failing replay or such a resume. */
  ghost function Drops(s: State, steps: seq<Step>): nat
    requires Legal(s, steps)
    decreases |steps|
  {
    if steps == [] then 0
    else
      var p, step := steps[..|steps| - 1], steps[|steps| - 1];
      Drops(s, p) + if ReplayFails(Run(s, p), step) || ResumesInVain(s, steps) then 1 else 0
  }

  /** A refresh counts as successful exactly if a new token arrived for it. */
  ghost predicate OutcomeKnown(s: State, steps: seq<Step>, f: nat)
    requires Legal(s, steps)
  {
    var flights := Run(s, steps).flights;
    if f < |flights| && (flights[f].Resolved? || flights[f].Settled?) then flights[f].ok <==> Granted(s, steps, f)
    else !Granted(s, steps, f)
  }

  lemma {:induction false} FlightSucceedsIffGranted(s: State, steps: seq<Step>, f: nat)
    requires Start(s) && Legal(s, steps)
    ensures OutcomeKnown(s, steps, f)
    decreases |steps|
  {
    if steps == [] {
    } else {
      FlightSucceedsIffGranted(s, steps[..|steps| - 1], f);
    }
  }

  /** In every run, not only benign ones, the session is dropped once for each failing replay and for each request
      that goes on behind a refresh that was lost, refused or had no token to post, and never otherwise. */
  lemma {:induction false} DroppedExactlyOnFailure(s: State, steps: seq<Step>)
    requires Start(s) && Legal(s, steps)
    ensures Run(s, steps).clears == Drops(s, steps)
    decreases |steps|
  {
    if steps == [] {
    } else {
      var p, step := steps[..|steps| - 1], steps[|steps| - 1];
      DroppedExactlyOnFailure(s, p);
      if step.Resume? {
        FlightSucceedsIffGranted(s, p, Run(s, p).requests[step.id].phase.flight);
      }
      hide Granted;
    }
  }

  /** Such a step leaves no token behind and its request has failed; no other step takes a stored token away. */
  lemma {:induction false} DroppingLeavesNothing(s: State, steps: seq<Step>)
    requires Start(s) && Legal(s, steps) && steps != []
    ensures var p, step := steps[..|steps| - 1], steps[|steps| - 1];
            var before, after := Run(s, p), Run(s, steps);
            if ReplayFails(before, step) || ResumesInVain(s, steps)
            then after.stored == None && after.access == None && after.requests[step.id].phase == Failed
            else before.stored.Some? ==> after.stored.Some?
  {
    var p, step := steps[..|steps| - 1], steps[|steps| - 1];
    if step.Resume? {
      FlightSucceedsIffGranted(s, p, Run(s, p).requests[step.id].phase.flight);
    }
    hide Granted;
  }

  /** What has happened to a request, read off the steps: it got its answer, was given up, or was replayed. */
  ghost predicate Answers(s: State, steps: seq<Step>, id: RequestId)
    requires Legal(s, steps)
    decreases |steps|
  {
    steps != [] && (Answers(s, steps[..|steps| - 1], id) || steps[|steps| - 1] == Receive(id, Fine))
  }

  ghost predicate SentAuthFree(s: State, steps: seq<Step>, id: RequestId)
    requires Legal(s, steps)
    decreases |steps|
  {
    steps != [] && (SentAuthFree(s, steps[..|steps| - 1], id) || steps[|steps| - 1] == Send(id, true))
  }

  ghost predicate GivenUp(s: State, steps: seq<Step>, id: RequestId)
    requires Legal(s, steps)
    decreases |steps|
  {
    steps != [] &&
    var p, step := steps[..|steps| - 1], steps[|steps| - 1];
    || GivenUp(s, p, id)
    || (step.Receive? && step.id == id && !step.reply.Fine? && !Expired(Run(s, p), step))
    || (step == Resume(id) && ResumesInVain(s, steps))
  }

  ghost function Replays(s: State, steps: seq<Step>, id: RequestId): nat
    requires Legal(s, steps)
    decreases |steps|
  {
    if steps == [] then 0
    else
      var replayed := steps[|steps| - 1] == Resume(id) && !ResumesInVain(s, steps);
      Replays(s, steps[..|steps| - 1], id) + if replayed then 1 else 0
  }

  ghost predicate HistoryOf(s: State, steps: seq<Step>, id: RequestId)
    requires Legal(s, steps)
  {
    var requests := Run(s, steps).requests;
    if id in requests then
      && (requests[id].phase == Done <==> Answers(s, steps, id))
      && (requests[id].phase == Failed <==> GivenUp(s, steps, id))
      && requests[id].sends == 1 + Replays(s, steps, id)
    else !Answers(s, steps, id) && !GivenUp(s, steps, id) && Replays(s, steps, id) == 0
  }

  /** In every run a request is done exactly if it got a good reply, has failed exactly if it got an error that no
      refresh can mend or waited in vain, and has been sent once and once more for each replay. */
  lemma {:induction false} RequestsFollowTheirReplies(s: State, steps: seq<Step>, id: RequestId)
    requires Start(s) && Legal(s, steps)
    ensures HistoryOf(s, steps, id)
    decreases |steps|
  {
    if steps == [] {
    } else {
      var p, step := steps[..|steps| - 1], steps[|steps| - 1];
      RequestsFollowTheirReplies(s, p, id);
      if step.Resume? {
        FlightSucceedsIffGranted(s, p, Run(s, p).requests[step.id].phase.flight);
      }
      hide Granted;
    }
  }

  /** A request to an endpoint that takes no token is known as one throughout. */
  lemma {:induction false} AuthFreeAsSent(s: State, steps: seq<Step>, id: RequestId)
    requires Start(s) && Legal(s, steps)
    ensures id in Run(s, steps).requests && Run(s, steps).requests[id].authFree <==> SentAuthFree(s, steps, id)
    decreases |steps|
  {
    if steps == [] {
    } else {
      AuthFreeAsSent(s, steps[..|steps| - 1], id);
    }
  }

  // --------------------------------------------------------------------------------------
  // Survival of the session
  // --------------------------------------------------------------------------------------

  /** The newest token issued to this client: stored, posted, or on its way back. */
  function Newest(s: State): Option<A.Claims> {
    if s.refreshing.None? || s.refreshing.value >= |s.flights| then s.stored
    else match s.flights[s.refreshing.value]
      case Posted(token) => Some(token)
      case Answered(issued) => issued
      case _ => s.stored
  }

  predicate Presents(step: A.Step, token: Option<A.Claims>) {
    (step.Refresh? || step.SignOut?) && step.token.Some? && token.Some? && step.token.value.jti == token.value.jti
  }

  predicate InGoodStanding(server: A.Server, c: A.Claims) {
    && (c.jti.Some? && c.jti.value in server.rows ==> server.now < server.rows[c.jti.value].expiresAt)
    && (c.sub.Some? ==> c.sub.value in server.users && server.users[c.sub.value])
  }

  /** The conditions under which the session should last: refresh replies arrive, the token has not expired and
      the account is active when a refresh is served, and nobody else presents this client's newest token (one
      tab, no logout). Replies to ordinary requests are not restricted. */
  ghost predicate Benign(s: State, step: Step) {
    match step
    case Lose(_) => false
    case Serve(f, _, _) =>
      f < |s.flights| && s.flights[f].Posted? && InGoodStanding(s.server, s.flights[f].token)
    case Elsewhere(other) => !Presents(other, Newest(s))
    case _ => true
  }

  ghost predicate AllBenign(s: State, steps: seq<Step>)
    requires Legal(s, steps)
    decreases |steps|
  {
    steps == [] || (AllBenign(s, steps[..|steps| - 1]) && Benign(Run(s, steps[..|steps| - 1]), steps[|steps| - 1]))
  }

  ghost predicate SomeReplayFails(s: State, steps: seq<Step>)
    requires Legal(s, steps)
    decreases |steps|
  {
    steps != [] && (SomeReplayFails(s, steps[..|steps| - 1])
                    || ReplayFails(Run(s, steps[..|steps| - 1]), steps[|steps| - 1]))
  }

  /** The newest token, if there is one, is live at the server, and every answered refresh was granted. */
  ghost predicate TokensLive(s: State) {
    && (Newest(s).Some? ==> LiveToken(s.server, Newest(s).value))
    && (forall f :: 0 <= f < |s.flights| && s.flights[f].Answered? ==> s.flights[f].issued.Some?)
  }

  /** The session is intact: never dropped, no refresh failed, and there is a newest token, live at the server. */
  ghost predicate Intact(s: State) {
    && s.clears == 0 && Newest(s).Some? && TokensLive(s)
    && (forall f :: 0 <= f < |s.flights| && (s.flights[f].Resolved? || s.flights[f].Settled?) ==> s.flights[f].ok)
  }

  lemma {:induction false} ServeSucceeds(server: A.Server, c: A.Claims, newJti: A.Jti, expiresAt: A.Instant)
    requires LiveToken(server, c) && InGoodStanding(server, c) && newJti != "" && newJti !in server.rows
    ensures var issued := Issued(server, c, newJti);
            issued.Some? && LiveToken(A.Apply(server, A.Refresh(Some(c), newJti, expiresAt)), issued.value)
  {
  }

  lemma {:induction false} OthersLeaveTokenLive(server: A.Server, c: A.Claims, other: A.Step)
    requires LiveToken(server, c) && A.Enabled(server, other) && !Presents(other, Some(c))
    ensures LiveToken(A.Apply(server, other), c)
  {
    if other.Refresh? {
      var checked := A.CheckRotation(server.now, server.users, server.rows, other.token);
      assert checked.Success? ==> checked.value.jti != c.jti.value;
    }
  }

  /** Dropping the session does not matter for this: a refresh still out carries a live token, and brings one. */
  lemma {:induction false} StepKeepsTokensLive(s: State, step: Step)
    requires TokensLive(s) && SingleFlight(s) && Enabled(s, step) && Benign(s, step)
    ensures TokensLive(Apply(s, step))
  {
    hide LiveToken, InGoodStanding, A.Apply, Issued, Presents;
    match step
    case Serve(f, newJti, expiresAt) =>
      assert s.refreshing == Some(f);
      ServeSucceeds(s.server, s.flights[f].token, newJti, expiresAt);
    case Elsewhere(other) =>
      if Newest(s).Some? {
        OthersLeaveTokenLive(s.server, Newest(s).value, other);
      }
    case _ =>
  }

  lemma {:induction false} RunKeepsTokensLive(s: State, steps: seq<Step>)
    requires Start(s) && Legal(s, steps) && AllBenign(s, steps)
    ensures TokensLive(Run(s, steps))
    decreases |steps|
  {
    if steps == [] {
    } else {
      var p := steps[..|steps| - 1];
      RunKeepsTokensLive(s, p);
      OneRefreshAtATime(s, p);
      hide SingleFlight, AllSentAtMostTwice, TokensLive, Apply, Enabled, Benign;
      StepKeepsTokensLive(Run(s, p), steps[|steps| - 1]);
    }
  }

  lemma {:induction false} StepKeepsIntact(s: State, step: Step)
    requires Intact(s) && SingleFlight(s) && Enabled(s, step) && Benign(s, step) && !ReplayFails(s, step)
    ensures Intact(Apply(s, step))
  {
    hide LiveToken, InGoodStanding, A.Apply, Issued, Presents;
    StepKeepsTokensLive(s, step);
    assert step.Serve? ==> s.refreshing == Some(step.flight);
  }

  lemma {:induction false} RunKeepsIntact(s: State, steps: seq<Step>)
    requires Start(s) && Legal(s, steps) && AllBenign(s, steps) && !SomeReplayFails(s, steps)
    ensures Intact(Run(s, steps))
    decreases |steps|
  {
    if steps == [] {
    } else {
      var p := steps[..|steps| - 1];
      RunKeepsIntact(s, p);
      OneRefreshAtATime(s, p);
      hide SingleFlight, AllSentAtMostTwice, Intact, Apply, Enabled, Benign, ReplayFails;
      StepKeepsIntact(Run(s, p), steps[|steps| - 1]);
    }
  }

  lemma {:induction false} FailedReplayClears(s: State, step: Step)
    requires Enabled(s, step)
    ensures Apply(s, step).clears >= s.clears
    ensures ReplayFails(s, step) ==> Apply(s, step).clears > s.clears && Apply(s, step).stored == None
  {
  }

  lemma {:induction false} FailedReplayStaysCounted(s: State, steps: seq<Step>)
    requires Legal(s, steps)
    ensures SomeReplayFails(s, steps) ==> Run(s, steps).clears > s.clears
    ensures Run(s, steps).clears >= s.clears
    decreases |steps|
  {
    if steps == [] {
    } else {
      var p := steps[..|steps| - 1];
      FailedReplayStaysCounted(s, p);
      FailedReplayClears(Run(s, p), steps[|steps| - 1]);
      hide Apply, Enabled, ReplayFails;
    }
  }

  /** For any number of requests and any interleaving of replies: the session is dropped at some point of a
      benign run exactly if one of its replays fails. */
  lemma {:induction false} SessionLastsUnlessAReplayFails(s: State, steps: seq<Step>)
    requires Start(s) && Legal(s, steps) && AllBenign(s, steps)
    ensures Run(s, steps).clears == 0 <==> !SomeReplayFails(s, steps)
  {
    hide Legal, Run, AllBenign, SomeReplayFails;
    FailedReplayStaysCounted(s, steps);
    if !SomeReplayFails(s, steps) {
      RunKeepsIntact(s, steps);
    }
  }

  /** In every benign run, whatever its replays do: a posted refresh never carries a revoked token, every answered
      refresh brought a new one, and once nothing is under way a stored token is live.  There is one as long as
      no replay has failed. */
  lemma {:induction false} RefreshNeverCarriesARevokedToken(s: State, steps: seq<Step>)
    requires Start(s) && Legal(s, steps) && AllBenign(s, steps)
    ensures var t := Run(s, steps);
            && (forall f :: 0 <= f < |t.flights| && t.flights[f].Posted? ==> LiveToken(t.server, t.flights[f].token))
            && (forall f :: 0 <= f < |t.flights| && t.flights[f].Answered? ==> t.flights[f].issued.Some?)
            && (t.refreshing == None && t.stored.Some? ==> LiveToken(t.server, t.stored.value))
            && (t.refreshing == None && !SomeReplayFails(s, steps) ==> t.stored.Some?)
  {
    hide Legal, Run, AllBenign, SomeReplayFails, LiveToken;
    RunKeepsTokensLive(s, steps);
    OneRefreshAtATime(s, steps);
    if !SomeReplayFails(s, steps) {
      RunKeepsIntact(s, steps);
    }
  }

  /** The run that shows what the shared `try` costs: the refresh succeeds, the replay then fails for a reason
      of its own, and the session is dropped although the server still holds a live token for it. */
  lemma {:induction false} FailingReplayDropsALiveSession(s: State, newJti: A.Jti, expiresAt: A.Instant, reply: Reply)
    requires Start(s) && InGoodStanding(s.server, s.stored.value) && newJti != "" && newJti !in s.server.rows
             && !reply.Fine?
    ensures var steps := [Send(0, false), Receive(0, Unauthorized), Serve(0, newJti, expiresAt), Deliver(0), Finally(0),
                          Resume(0), Receive(0, reply)];
            && Legal(s, steps) && AllBenign(s, steps)
            && Run(s, steps).stored == None && A.Live(Run(s, steps).server, newJti)
  {
    hide Legal, Run, AllBenign;
    ServeSucceeds(s.server, s.stored.value, newJti, expiresAt);
    Begin(s);
    var p1, s1 := Extend(s, [], Send(0, false));
    var p2, s2 := Extend(s, p1, Receive(0, Unauthorized));
    assert s2.flights == [Posted(s.stored.value)];
    var p3, s3 := Extend(s, p2, Serve(0, newJti, expiresAt));
    assert s3.flights == [Answered(Issued(s.server, s.stored.value, newJti))];
    var p4, s4 := Extend(s, p3, Deliver(0));
    var p5, s5 := Extend(s, p4, Finally(0));
    var p6, s6 := Extend(s, p5, Resume(0));
    var p7, s7 := Extend(s, p6, Receive(0, reply));
    assert p7 == [Send(0, false), Receive(0, Unauthorized), Serve(0, newJti, expiresAt), Deliver(0), Finally(0),
                  Resume(0), Receive(0, reply)];
  }

  lemma {:induction false} Begin(s: State)
    ensures Legal(s, []) && AllBenign(s, []) && Run(s, []) == s
  {
  }

  lemma {:induction false} Extend(s: State, steps: seq<Step>, step: Step) returns (longer: seq<Step>, t: State)
    requires Legal(s, steps) && AllBenign(s, steps) && Enabled(Run(s, steps), step) && Benign(Run(s, steps), step)
    ensures longer == steps + [step] && Legal(s, longer) && AllBenign(s, longer)
    ensures t == Run(s, longer) == Apply(Run(s, steps), step)
  {
    longer := steps + [step];
    assert longer[..|steps|] == steps;
    t := Run(s, longer);
  }

  /** The request module as its handlers change it in place: the token storage, `refreshing`, and the requests
      with their `_retried` flags. */
  class RequestModule {
    const service: A.AuthService
    var access: Option<A.Jti>
    var stored: Option<A.Claims>
    var refreshing: Option<nat>
    var flights: seq<Flight>
    var requests: map<RequestId, Request>
    ghost var clears: nat

    constructor (service: A.AuthService, token: A.Claims)
      ensures this.service == service && Model() == State(service.Model(), token.jti, Some(token), None, [], map[], 0)
    {
      this.service, access, stored, refreshing := service, token.jti, Some(token), None;
      flights, requests, clears := [], map[], 0;
    }

    ghost function Model(): State
      reads this, service
    {
      State(service.Model(), access, stored, refreshing, flights, requests, clears)
    }

    method SendRequest(id: RequestId, authFree: bool)
      requires Enabled(Model(), Send(id, authFree))
      modifies this
      ensures Model() == Apply(old(Model()), Send(id, authFree))
    {
      requests := requests[id := Request(authFree, false, 1, Sent)];
    }

    /** Posts the token stored at that moment; the reply comes later.  The new promise is the one unsettled
        refresh if there was none, and it carries a live token if the storage had one. */
    method RequestNewAccessToken() returns (flight: nat)
      requires refreshing == None
      modifies this`flights
      ensures Model().(refreshing := Some(flight)) == Join(old(Model()))
      ensures SingleFlight(old(Model())) ==> SingleFlight(Model().(refreshing := Some(flight)))
      ensures TokensLive(old(Model())) && stored.Some? ==>
                flight < |flights| && flights[flight].Posted? && LiveToken(service.Model(), flights[flight].token)
    {
      flight := |flights|;
      if stored.None? {
        flights := flights + [Resolved(false)];
      } else {
        flights := flights + [Posted(stored.value)];
      }
    }

    /** `tokenStorage.save`: the new pair replaces both entries, as handling a granted refresh says. */
    method SaveTokens(token: A.Claims)
      modifies this`access, this`stored
      ensures stored == Some(token) && OnePair(Model())
      ensures forall f: nat :: f < |flights| && flights[f] == Answered(Some(token)) ==>
                Model().(flights := flights[f := Resolved(true)]) == Handled(old(Model()), f)
    {
      access := token.jti;
      stored := Some(token);
    }

    /** `tokenStorage.clear`: both tokens go together. */
    method ClearSession()
      modifies this`access, this`stored, this`clears
      ensures Model() == Clear(old(Model())) && OnePair(Model()) && access == None
    {
      access := None;
      stored := None;
      clears := clears + 1;
    }

    method OnResponse(id: RequestId, reply: Reply)
      requires Enabled(Model(), Receive(id, reply))
      modifies this
      ensures Model() == Apply(old(Model()), Receive(id, reply))
    {
      var request := requests[id];
      if reply.Fine? {
        requests := requests[id := request.(phase := Done)];
      } else if reply.Unauthorized? && !request.retried && !request.authFree {
        if refreshing.None? {
          var flight := RequestNewAccessToken();
          refreshing := Some(flight);
        }
        requests := requests[id := request.(retried := true, phase := Awaiting(refreshing.value))];
      } else {
        requests := requests[id := request.(phase := Failed)];
        if request.retried {
          ClearSession();
        }
      }
    }

    /** The server's side of a posted refresh. */
    method ServeRefresh(flight: nat, newJti: A.Jti, expiresAt: A.Instant)
      requires Enabled(Model(), Serve(flight, newJti, expiresAt))
      modifies this, service
      ensures Model() == Apply(old(Model()), Serve(flight, newJti, expiresAt))
    {
      var token := flights[flight].token;
      var r := service.RotateTokens(Some(token), newJti, expiresAt);
      flights := flights[flight := Answered(if r.Success? then Some(A.Claims(token.sub, Some(r.value))) else None)];
    }

    method OnRefreshReply(flight: nat)
      requires Enabled(Model(), Deliver(flight))
      modifies this
      ensures Model() == Apply(old(Model()), Deliver(flight))
    {
      var issued := flights[flight].issued;
      if issued.Some? {
        SaveTokens(issued.value);
      }
      flights := flights[flight := Resolved(issued.Some?)];
    }

    method OnFinally(flight: nat)
      requires Enabled(Model(), Finally(flight))
      modifies this
      ensures Model() == Apply(old(Model()), Finally(flight))
    {
      refreshing := None;
      flights := flights[flight := Settled(flights[flight].ok)];
    }

    /** Behind the `await`: replay with the new token, or give the session up. */
    method AfterRefresh(id: RequestId)
      requires Enabled(Model(), Resume(id))
      modifies this
      ensures Model() == Apply(old(Model()), Resume(id))
    {
      var request := requests[id];
      if flights[request.phase.flight].ok {
        requests := requests[id := request.(sends := request.sends + 1, phase := Sent)];
      } else {
        requests := requests[id := request.(phase := Failed)];
        ClearSession();
      }
    }
  }
}
