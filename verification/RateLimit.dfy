/**
 The sliding-window rate limiter: the Lua script that Redis runs atomically over one
 sorted set, the wrapper that calls it, and the middleware that fails open around it.

 The script works on a set that is pruned lazily, that never records a rejected request and
 that Redis may drop once its time to live has passed.  The reference is the plain history
 of every admitted request, never pruned.
 */
module RateLimit {
  import opened Wrappers

  type Member = string

  const MS_PER_SECOND: nat := 1000

  datatype Config = Config(limit: nat, windowSeconds: nat) {
    /** Positive settings: the wrapper raises ValueError on anything else. */
    predicate Positive() { limit > 0 && windowSeconds > 0 }

    function WindowMs(): nat { windowSeconds * MS_PER_SECOND }
  }

  /** One limiter key in Redis: member -> score, and the instant its time to live ends. */
  datatype Store = Store(zset: map<Member, nat>, deadline: nat)

  datatype Verdict = Verdict(allowed: bool, current: nat, retryAfter: int)

  /** The members scored strictly after `from`. */
  function After(scores: map<Member, nat>, from: int): map<Member, nat> {
    map m | m in scores && scores[m] > from :: scores[m]
  }

  function OldestScore(zset: map<Member, nat>): (oldest: nat)
    requires zset != map[]
    ensures oldest in zset.Values && forall m :: m in zset ==> oldest <= zset[m]
  {
    assert zset.Values != {} by { var m :| m in zset; assert zset[m] in zset.Values; }
    var oldest := Least(zset.Values);
    assert forall m :: m in zset ==> zset[m] in zset.Values;
    oldest
  }

  /** Lua's `math.ceil(ms / 1000)`, for negative arguments too. */
  function CeilSeconds(ms: int): int { -((-ms) / MS_PER_SECOND) }

  /** The script: prune, count, then reject without recording or record and renew the expiry. */
  function Script(s: Store, now: nat, member: Member, c: Config): (Store, Verdict) {
    var pruned := After(s.zset, now - c.WindowMs());
    var current := |pruned|;
    if current >= c.limit then
      var retry := if pruned == map[] then 0 else CeilSeconds(OldestScore(pruned) + c.WindowMs() - now);
      (Store(pruned, s.deadline), Verdict(false, current, retry))
    else
      (Store(pruned[member := now], now + c.WindowMs()), Verdict(true, current + 1, 0))
  }

  /** The header the 429 response carries. */
  function RetryAfterHeader(v: Verdict): (h: int)
    ensures h >= 1 && (v.retryAfter >= 1 ==> h == v.retryAfter)
  {
    if v.retryAfter < 1 then 1 else v.retryAfter
  }

  /** The quota header of a forwarded response. */
  function RemainingHeader(v: Verdict, c: Config): nat {
    if c.limit > v.current then c.limit - v.current else 0
  }

  // --------------------------------------------------------------------------------------
  // Runs of one key
  // --------------------------------------------------------------------------------------

  /** What can happen to one key.  A `Call` runs the script; its reply may be lost (time-out
      after the script ran).  `Lost` is a check that failed before the script ran.  `Expire`
      is Redis dropping the key, which it does only at or after the deadline. */
  datatype Event =
    | Call(now: nat, member: Member, delivered: bool)
    | Lost(now: nat, member: Member)
    | Expire(now: nat)

  /** `admitted` is the unpruned history of requests the script admitted, `forwarded` the requests
      the middleware passed on, `failed` those whose check raised. */
  datatype State = State(store: Store, admitted: map<Member, nat>, forwarded: map<Member, nat>,
                         failed: map<Member, nat>)

  const INITIAL := State(Store(map[], 0), map[], map[], map[])

  function Next(s: State, e: Event, c: Config): State {
    match e
    case Call(now, m, delivered) =>
      var (store, v) := Script(s.store, now, m, c);
      State(store,
            if v.allowed then s.admitted[m := now] else s.admitted,
            if v.allowed || !delivered then s.forwarded[m := now] else s.forwarded,
            if delivered then s.failed else s.failed[m := now])
    case Lost(now, m) =>
      s.(forwarded := s.forwarded[m := now], failed := s.failed[m := now])
    case Expire(now) =>
      if now >= s.store.deadline then s.(store := Store(map[], s.store.deadline)) else s
  }

  function Run(es: seq<Event>, c: Config): State {
    if es == [] then INITIAL else Next(Run(es[..|es| - 1], c), es[|es| - 1], c)
  }

  /** The verdict the script gives at position `i` of a run. */
  function VerdictAt(es: seq<Event>, i: nat, c: Config): Verdict
    requires i < |es| && es[i].Call?
  {
    Script(Run(es[..i], c).store, es[i].now, es[i].member, c).1
  }

  function Clock(es: seq<Event>): nat { if es == [] then 0 else es[|es| - 1].now }

  function Used(es: seq<Event>): set<Member> {
    if es == [] then {} else
    var p, e := es[..|es| - 1], es[|es| - 1];
    if e.Expire? then Used(p) else Used(p) + {e.member}
  }

  /** The Redis clock never goes back and no two requests share a member. */
  ghost predicate WellFormed(es: seq<Event>) {
    es == [] ||
    var p, e := es[..|es| - 1], es[|es| - 1];
    WellFormed(p) && Clock(p) <= e.now && (!e.Expire? ==> e.member !in Used(p))
  }

  /** Admissions in the half-open interval [from, from + length). */
  function Within(history: map<Member, nat>, from: int, length: nat): set<Member> {
    set m | m in history && from <= history[m] < from + length
  }

  ghost predicate WindowSafe(history: map<Member, nat>, c: Config) {
    forall from: int :: |Within(history, from, c.WindowMs())| <= c.limit
  }

  /** The store refines the unpruned history at `clock`. */
  ghost predicate Refines(s: Store, history: map<Member, nat>, clock: nat, c: Config) {
    && (forall m :: m in s.zset ==> m in history && s.zset[m] == history[m])
    && (forall m :: m in s.zset ==> s.zset[m] + c.WindowMs() <= s.deadline)
    && (forall m :: m in history ==> history[m] <= clock)
    && (forall m :: m in history && history[m] > clock - c.WindowMs() ==> m in s.zset)
  }

  ghost predicate Inv(s: State, clock: nat, used: set<Member>, c: Config) {
    && Refines(s.store, s.admitted, clock, c)
    && WindowSafe(s.admitted, c)
    && s.admitted.Keys <= used && s.failed.Keys <= used
    && (forall m :: m in s.forwarded ==>
          || (m in s.admitted && s.admitted[m] == s.forwarded[m])
          || (m in s.failed && s.failed[m] == s.forwarded[m]))
  }

  lemma {:induction false} PrunedAlike(zset: map<Member, nat>, h: map<Member, nat>, from: int)
    requires forall m :: m in zset ==> m in h && zset[m] == h[m]
    requires forall m :: m in h && h[m] > from ==> m in zset
    ensures After(zset, from) == After(h, from)
  {
  }

  lemma {:induction false} AfterInsert(h: map<Member, nat>, from: int, m: Member, now: nat)
    requires m !in h
    ensures After(h[m := now], from) == if now > from then After(h, from)[m := now] else After(h, from)
    ensures m !in After(h, from)
  {
  }

  /** One script call on a refining store decides as the unpruned history does and leaves in the set
      exactly the admitted members of the last window. */
  lemma {:induction false} ScriptDecides(s: Store, h: map<Member, nat>, clock: nat, now: nat, m: Member, c: Config)
    requires Refines(s, h, clock, c) && clock <= now && m !in h && c.Positive()
    ensures var (s', v) := Script(s, now, m, c);
            var h' := if v.allowed then h[m := now] else h;
            && (v.allowed <==> |After(h, now - c.WindowMs())| < c.limit)
            && s'.zset == After(h', now - c.WindowMs())
            && v.current == |s'.zset|
  {
    PrunedAlike(s.zset, h, now - c.WindowMs());
    AfterInsert(h, now - c.WindowMs(), m, now);
  }

  lemma {:induction false} ScriptRefines(s: Store, h: map<Member, nat>, clock: nat, now: nat, m: Member, c: Config)
    requires Refines(s, h, clock, c) && clock <= now && m !in h
    ensures var (s', v) := Script(s, now, m, c);
            && (v.allowed ==> |After(h, now - c.WindowMs())| < c.limit)
            && Refines(s', if v.allowed then h[m := now] else h, now, c)
  {
    PrunedAlike(s.zset, h, now - c.WindowMs());
  }

  lemma {:induction false} ExpiryRefines(s: Store, h: map<Member, nat>, clock: nat, now: nat, c: Config)
    requires Refines(s, h, clock, c) && clock <= now && s.deadline <= now
    ensures Refines(Store(map[], s.deadline), h, now, c)
    ensures After(h, now - c.WindowMs()) == map[]
  {
  }

  lemma {:induction false} AdmissionKeepsWindow(h: map<Member, nat>, m: Member, now: nat, from: int, c: Config)
    requires |Within(h, from, c.WindowMs())| <= c.limit
    requires m !in h && forall x :: x in h ==> h[x] <= now
    requires |After(h, now - c.WindowMs())| < c.limit
    ensures |Within(h[m := now], from, c.WindowMs())| <= c.limit
  {
    var w := c.WindowMs();
    if from <= now < from + w {
      assert Within(h[m := now], from, w) == Within(h, from, w) + {m};
      SubsetSize(Within(h, from, w), After(h, now - w).Keys);
    } else {
      assert Within(h[m := now], from, w) == Within(h, from, w);
    }
  }

  /** Admitting a request that the history allows keeps every window within the limit. */
  lemma {:induction false} AdmissionKeepsWindows(h: map<Member, nat>, m: Member, now: nat, c: Config)
    requires WindowSafe(h, c) && m !in h
    requires forall x :: x in h ==> h[x] <= now
    requires |After(h, now - c.WindowMs())| < c.limit
    ensures WindowSafe(h[m := now], c)
  {
    var h', w := h[m := now], c.WindowMs();
    forall from: int ensures |Within(h', from, w)| <= c.limit {
      AdmissionKeepsWindow(h, m, now, from, c);
    }
  }

  lemma {:induction false} NextKeepsInv(s: State, clock: nat, used: set<Member>, e: Event, c: Config)
    requires Inv(s, clock, used, c) && clock <= e.now
    requires !e.Expire? ==> e.member !in used
    ensures Inv(Next(s, e, c), e.now, if e.Expire? then used else used + {e.member}, c)
  {
    match e
    case Call(now, m, _) =>
      ScriptRefines(s.store, s.admitted, clock, now, m, c);
      if Script(s.store, now, m, c).1.allowed {
        AdmissionKeepsWindows(s.admitted, m, now, c);
      }
    case Lost(_, _) =>
    case Expire(now) =>
      if now >= s.store.deadline {
        ExpiryRefines(s.store, s.admitted, clock, now, c);
      }
  }

  lemma {:induction false} RunKeepsInv(es: seq<Event>, c: Config)
    requires WellFormed(es)
    ensures Inv(Run(es, c), Clock(es), Used(es), c)
    decreases |es|
  {
    if es == [] {
      forall from: int ensures |Within(INITIAL.admitted, from, c.WindowMs())| <= c.limit {
        assert Within(INITIAL.admitted, from, c.WindowMs()) == {};
      }
    } else {
      var n := |es| - 1;
      RunKeepsInv(es[..n], c);
      NextKeepsInv(Run(es[..n], c), Clock(es[..n]), Used(es[..n]), es[n], c);
    }
  }

  lemma {:induction false} WellFormedPrefix(es: seq<Event>, n: nat)
    requires WellFormed(es) && n <= |es|
    ensures WellFormed(es[..n])
    ensures n < |es| ==> Clock(es[..n]) <= es[n].now <= Clock(es) && (!es[n].Expire? ==> es[n].member !in Used(es[..n]))
    decreases |es|
  {
    var k := |es| - 1;
    if n == |es| {
      assert es[..n] == es;
    } else if n < k {
      assert es[..k][..n] == es[..n];
      WellFormedPrefix(es[..k], n);
    }
  }

  /** What a call does, told by the unpruned history `h` alone. */
  ghost predicate Decided(h: map<Member, nat>, e: Event, v: Verdict, s': State, c: Config)
    requires e.Call?
  {
    var from := e.now - c.WindowMs();
    && WindowSafe(h, c) && e.member !in h && (forall m :: m in h ==> h[m] <= e.now)
    && (v.allowed <==> |After(h, from)| < c.limit)
    && s'.admitted == (if v.allowed then h[e.member := e.now] else h)
    && s'.store.zset == After(s'.admitted, from)
    && v.current == |s'.store.zset|
    && (!v.allowed ==>
          && After(h, from) != map[]
          && v.retryAfter == CeilSeconds(OldestScore(After(h, from)) + c.WindowMs() - e.now))
  }

  lemma {:induction false} NextDecides(s: State, clock: nat, used: set<Member>, e: Event, c: Config)
    requires Inv(s, clock, used, c) && c.Positive()
    requires e.Call? && clock <= e.now && e.member !in used
    ensures Decided(s.admitted, e, Script(s.store, e.now, e.member, c).1, Next(s, e, c), c)
  {
    ScriptDecides(s.store, s.admitted, clock, e.now, e.member, c);
  }

  lemma {:induction false} CallAfterRun(es: seq<Event>, e: Event, c: Config)
    requires WellFormed(es + [e]) && e.Call? && c.Positive()
    ensures Decided(Run(es, c).admitted, e, VerdictAt(es + [e], |es|, c), Run(es + [e], c), c)
  {
    assert (es + [e])[..|es|] == es;
    RunKeepsInv(es, c);
    NextDecides(Run(es, c), Clock(es), Used(es), e, c);
  }

  // --------------------------------------------------------------------------------------
  // Main results
  // --------------------------------------------------------------------------------------

  /** The members admitted less than a window before `now`. */
  function Recent(history: map<Member, nat>, now: nat, c: Config): set<Member> {
    set m | m in history && history[m] > now - 1000 * c.windowSeconds
  }

  /** In every run, each script call decides as the unpruned history would, records exactly the requests it
      admits, and leaves in the set exactly the admitted members of the last `windowSeconds` seconds.  The key
      lives on for as long after an admission, and a rejection does not prolong it. */
  lemma {:induction false} DecidesAsUnprunedHistory(es: seq<Event>, i: nat, c: Config)
    requires WellFormed(es) && i < |es| && es[i].Call? && c.Positive()
    ensures var before, after, now := Run(es[..i], c), Run(es[..i + 1], c), es[i].now;
            var v := VerdictAt(es, i, c);
            && (v.allowed <==> |Recent(before.admitted, now, c)| < c.limit)
            && after.admitted == (if v.allowed then before.admitted[es[i].member := now] else before.admitted)
            && after.store.zset.Keys == Recent(after.admitted, now, c)
            && (forall m :: m in after.store.zset ==> after.store.zset[m] == after.admitted[m])
            && v.current == |Recent(after.admitted, now, c)|
            && after.store.deadline == (if v.allowed then now + 1000 * c.windowSeconds else before.store.deadline)
  {
    var before, e := Run(es[..i], c), es[i];
    assert es[..i + 1] == es[..i] + [es[i]];
    WellFormedPrefix(es, i + 1);
    CallAfterRun(es[..i], es[i], c);
    assert es[..i + 1][..i] == es[..i];
    var after := Run(es[..i + 1], c);
    assert After(before.admitted, e.now - c.WindowMs()).Keys == Recent(before.admitted, e.now, c);
    assert After(after.admitted, e.now - c.WindowMs()).Keys == Recent(after.admitted, e.now, c);
  }

  /** No half-open interval of `windowSeconds` seconds ever holds more than `limit` admissions. */
  lemma {:induction false} EveryWindowWithinLimit(es: seq<Event>, from: int, c: Config)
    requires WellFormed(es)
    ensures |Within(Run(es, c).admitted, from, 1000 * c.windowSeconds)| <= c.limit
  {
    RunKeepsInv(es, c);
  }

  /** Requests passed on in any `windowSeconds` seconds exceed the limit by at most the checks that failed in
      them, whether or not the script of a failed check ran. */
  lemma {:induction false} FailOpenBound(es: seq<Event>, from: int, c: Config)
    requires WellFormed(es)
    ensures var s := Run(es, c);
            |Within(s.forwarded, from, 1000 * c.windowSeconds)|
            <= c.limit + |Within(s.failed, from, 1000 * c.windowSeconds)|
  {
    RunKeepsInv(es, c);
    assert c.WindowMs() == 1000 * c.windowSeconds;
    hide Refines, Run, Within;
    CoveredBy(Run(es, c).forwarded, Run(es, c).admitted, Run(es, c).failed, from, 1000 * c.windowSeconds);
  }

  lemma {:induction false} CoveredBy(all: map<Member, nat>, a: map<Member, nat>, b: map<Member, nat>, from: int,
                                     length: nat)
    requires forall m :: m in all ==> (m in a && a[m] == all[m]) || (m in b && b[m] == all[m])
    ensures |Within(all, from, length)| <= |Within(a, from, length)| + |Within(b, from, length)|
  {
    SubsetSize(Within(all, from, length), Within(a, from, length) + Within(b, from, length));
    UnionSize(Within(a, from, length), Within(b, from, length));
  }

  /** A check that raised, before or after the script ran. */
  predicate Failing(e: Event) {
    e.Lost? || (e.Call? && !e.delivered)
  }

  /** The failed checks of a run with their times, read off its events alone. */
  function FailedChecks(es: seq<Event>): map<Member, nat> {
    if es == [] then map[]
    else
      var before, e := FailedChecks(es[..|es| - 1]), es[|es| - 1];
      if Failing(e) then before[e.member := e.now] else before
  }

  lemma {:induction false} NextFailsAndForwards(s: State, e: Event, c: Config)
    requires s.forwarded.Keys == s.admitted.Keys + s.failed.Keys
    ensures var t := Next(s, e, c);
            && t.failed == (if Failing(e) then s.failed[e.member := e.now] else s.failed)
            && t.forwarded.Keys == t.admitted.Keys + t.failed.Keys
  {
  }

  /** What the counts of the bound are over: the failed checks of the run, and for the forwarded exactly the
      admitted and the failed. */
  lemma {:induction false} FailedAndForwardedAreExact(es: seq<Event>, c: Config)
    ensures Run(es, c).failed == FailedChecks(es)
    ensures Run(es, c).forwarded.Keys == Run(es, c).admitted.Keys + Run(es, c).failed.Keys
    decreases |es|
  {
    if es == [] {
    } else {
      FailedAndForwardedAreExact(es[..|es| - 1], c);
      NextFailsAndForwards(Run(es[..|es| - 1], c), es[|es| - 1], c);
      hide Next;
    }
  }

  /** A window that rejects at `now`. */
  ghost predicate Full(h: map<Member, nat>, now: nat, c: Config) {
    && WindowSafe(h, c) && c.Positive()
    && (forall m :: m in h ==> h[m] <= now)
    && |After(h, now - c.WindowMs())| >= c.limit
  }

  /** The instant the oldest admission of a full window leaves it. */
  ghost function FreesAt(h: map<Member, nat>, now: nat, c: Config): int
    requires Full(h, now, c)
  {
    OldestScore(After(h, now - c.WindowMs())) + c.WindowMs()
  }

  lemma {:induction false} FullUntilOldestLeaves(h: map<Member, nat>, now: nat, later: nat, c: Config)
    requires Full(h, now, c) && now <= later
    ensures |After(h, later - c.WindowMs())| < c.limit <==> later >= FreesAt(h, now, c)
    ensures now < FreesAt(h, now, c) <= now + c.WindowMs()
  {
    var w := c.WindowMs();
    var full, rest := After(h, now - w), After(h, later - w);
    assert Within(h, now - w + 1, w) == full.Keys;
    assert |full.Keys| == c.limit;
    var oldest := OldestScore(full);
    SubsetSize(rest.Keys, full.Keys);
    var m :| m in full && full[m] == oldest;
    if later < oldest + w {
      assert rest == full;
    } else {
      assert m !in rest;
    }
  }

  /** A full window admits again exactly when its oldest admission has left it. */
  lemma {:induction false} FullDecides(h: map<Member, nat>, now: nat, e: Event, v: Verdict, s': State, c: Config)
    requires Full(h, now, c) && e.Call? && now <= e.now && Decided(h, e, v, s', c)
    ensures v.allowed <==> e.now >= FreesAt(h, now, c)
    ensures now < FreesAt(h, now, c) <= now + c.WindowMs()
  {
    FullUntilOldestLeaves(h, now, e.now, c);
  }

  /** A full window frees exactly `windowSeconds` seconds after its oldest admission was made. */
  lemma {:induction false} FreesAfterOldestsWindow(h: map<Member, nat>, now: nat, c: Config) returns (oldest: Member)
    requires Full(h, now, c)
    ensures oldest in Recent(h, now, c) && forall m :: m in Recent(h, now, c) ==> h[oldest] <= h[m]
    ensures FreesAt(h, now, c) == h[oldest] + 1000 * c.windowSeconds
  {
    var full := After(h, now - c.WindowMs());
    var least := OldestScore(full);
    assert forall m :: m in full ==> least <= full[m];
    oldest :| oldest in full && full[oldest] == least;
    assert full.Keys == Recent(h, now, c) && full[oldest] == h[oldest];
    forall m | m in Recent(h, now, c) ensures h[oldest] <= h[m] {
      assert m in full && full[m] == h[m];
    }
  }

  lemma {:induction false} OtherEventsAdmitNothing(es: seq<Event>, e: Event, c: Config)
    requires !e.Call?
    ensures Run(es + [e], c).admitted == Run(es, c).admitted
  {
    assert (es + [e])[..|es|] == es;
  }

  /** While the window is full nothing is admitted, whatever calls and expiries happen. */
  lemma {:induction false} NothingAdmittedWhileFull(es: seq<Event>, now: nat, later: seq<Event>, c: Config)
    requires WellFormed(es + later) && Full(Run(es, c).admitted, now, c)
    requires forall e :: e in later ==> now <= e.now < FreesAt(Run(es, c).admitted, now, c)
    ensures Run(es + later, c).admitted == Run(es, c).admitted
    decreases |later|
  {
    if later == [] {
      assert es + later == es;
    } else {
      var n := |later| - 1;
      var p, e := es + later[..n], later[n];
      assert es + later == p + [e];
      assert (p + [e])[..|p|] == p;
      NothingAdmittedWhileFull(es, now, later[..n], c);
      if e.Call? {
        CallAfterRun(p, e, c);
        FullDecides(Run(es, c).admitted, now, e, VerdictAt(p + [e], |p|, c), Run(p + [e], c), c);
      } else {
        OtherEventsAdmitNothing(p, e, c);
      }
    }
  }

  /** The wait a rejecting script computes is the time until the window frees, in whole seconds. */
  lemma {:induction false} WaitOfRejection(h: map<Member, nat>, e: Event, v: Verdict, s': State, c: Config)
    requires c.Positive() && e.Call? && Decided(h, e, v, s', c) && !v.allowed
    ensures Full(h, e.now, c)
    ensures var wait := RetryAfterHeader(v);
            && 1 <= wait <= c.windowSeconds
            && 1000 * (wait - 1) < FreesAt(h, e.now, c) - e.now <= 1000 * wait
  {
    FullDecides(h, e.now, e, v, s', c);
    RetryArithmetic(FreesAt(h, e.now, c) - e.now, c.windowSeconds);
  }

  /** After a rejection at `now`, a retry decides by whether the window has freed, provided nothing
      was admitted in between; and nothing can be before it frees. */
  lemma {:induction false} RetryDecidesByFreeing(es: seq<Event>, now: nat, between: seq<Event>, retry: Event, c: Config)
    requires WellFormed(es + between + [retry]) && Full(Run(es, c).admitted, now, c)
    requires now <= Clock(es) && es != [] && retry.Call?
    ensures var h := Run(es, c).admitted;
            var before := es + between;
            var again := VerdictAt(before + [retry], |before|, c);
            && (retry.now < FreesAt(h, now, c) ==> !again.allowed)
            && (retry.now >= FreesAt(h, now, c) && Run(before, c).admitted == h ==> again.allowed)
  {
    var h, before := Run(es, c).admitted, es + between;
    assert (before + [retry])[..|before|] == before && before + [retry] == es + (between + [retry]);
    CallAfterRun(before, retry, c);
    EventInBetween(es, between + [retry], retry);
    if retry.now < FreesAt(h, now, c) {
      forall x | x in between ensures now <= x.now < FreesAt(h, now, c) {
        EventInBetween(es, between, x);
      }
      NothingAdmittedWhileFull(es, now, between, c);
    }
    if Run(before, c).admitted == h {
      FullDecides(h, now, retry, VerdictAt(before + [retry], |before|, c), Run(before + [retry], c), c);
    }
  }

  /** Retry-After is exact: between 1 and the window in seconds; a retry that many seconds later,
      with no admission in between, is admitted; no retry at or before one second less is. */
  lemma {:induction false} RetryAfterIsExact(es: seq<Event>, e: Event, between: seq<Event>, retry: Event, c: Config)
    requires c.Positive() && e.Call? && retry.Call?
    requires WellFormed(es + [e] + between + [retry])
    requires !VerdictAt(es + [e], |es|, c).allowed
    ensures var wait := RetryAfterHeader(VerdictAt(es + [e], |es|, c));
            var before := es + [e] + between;
            var again := VerdictAt(before + [retry], |before|, c);
            && 1 <= wait <= c.windowSeconds
            && (retry.now <= e.now + 1000 * (wait - 1) ==> !again.allowed)
            && (retry.now >= e.now + 1000 * wait && Run(before, c).admitted == Run(es, c).admitted
                ==> again.allowed)
  {
    var rejected := es + [e];
    var before := rejected + between;
    assert (before + [retry])[..|rejected|] == rejected;
    WellFormedPrefix(before + [retry], |rejected|);
    CallAfterRun(es, e, c);
    WaitOfRejection(Run(es, c).admitted, e, VerdictAt(rejected, |es|, c), Run(rejected, c), c);
    RetryDecidesByFreeing(rejected, e.now, between, retry, c);
  }

  lemma {:induction false} EventInBetween(es: seq<Event>, more: seq<Event>, x: Event)
    requires WellFormed(es + more) && x in more
    ensures Clock(es) <= x.now <= Clock(es + more)
  {
    var i :| 0 <= i < |more| && more[i] == x;
    var all := es + more;
    assert all[|es| + i] == x;
    WellFormedPrefix(all, |es| + i);
    var p := all[..|es| + i];
    assert p[..|es|] == es;
    WellFormedPrefix(p, |es|);
    if i == 0 { assert p == es; }
  }

  lemma RetryArithmetic(ms: int, windowSeconds: nat)
    requires 0 < ms <= windowSeconds * MS_PER_SECOND
    ensures var r := CeilSeconds(ms);
            && 1 <= r <= windowSeconds
            && (r - 1) * MS_PER_SECOND < ms <= r * MS_PER_SECOND
  {
  }

  lemma {:induction false} CountAfterCall(es: seq<Event>, e: Event, c: Config)
    requires c.Positive() && e.Call? && WellFormed(es + [e])
    ensures var from := e.now - c.WindowMs();
            var n := |After(Run(es, c).admitted, from)|;
            |After(Run(es + [e], c).admitted, from)| == if n < c.limit then n + 1 else n
  {
    hide Next, VerdictAt;
    CallAfterRun(es, e, c);
    AfterInsert(Run(es, c).admitted, e.now - c.WindowMs(), e.member, e.now);
  }

  lemma {:induction false} SameInstantCount(base: seq<Event>, now: nat, extra: seq<Event>, c: Config)
    requires c.Positive() && WellFormed(base + extra)
    requires forall e :: e in extra ==> e.Call? && e.now == now
    ensures var n := |After(Run(base, c).admitted, now - c.WindowMs())|;
            |After(Run(base + extra, c).admitted, now - c.WindowMs())|
            == if n >= c.limit then n else if n + |extra| <= c.limit then n + |extra| else c.limit
    decreases |extra|
  {
    hide Next, After, VerdictAt;
    if extra == [] {
      assert base + extra == base;
    } else {
      var k := |extra| - 1;
      var p, e := base + extra[..k], extra[k];
      assert base + extra == p + [e];
      assert (p + [e])[..|p|] == p;
      SameInstantCount(base, now, extra[..k], c);
      CountAfterCall(p, e, c);
    }
  }

  lemma {:induction false} AdmittedWhileQuotaLasts(base: seq<Event>, extra: seq<Event>, next: Event, c: Config)
    requires c.Positive() && next.Call? && WellFormed(base + extra + [next])
    requires forall e :: e in extra ==> e.Call? && e.now == next.now
    ensures var before := base + extra;
            VerdictAt(before + [next], |before|, c).allowed
            <==> |After(Run(base, c).admitted, next.now - c.WindowMs())| + |extra| < c.limit
  {
    hide Next, After;
    var before := base + extra;
    assert (before + [next])[..|before|] == before;
    SameInstantCount(base, next.now, extra, c);
    CallAfterRun(before, next, c);
  }

  lemma {:induction false} CurrentCountsTheWindow(es: seq<Event>, e: Event, c: Config)
    requires c.Positive() && e.Call? && WellFormed(es + [e])
    ensures VerdictAt(es + [e], |es|, c).current == |After(Run(es + [e], c).admitted, e.now - c.WindowMs())|
  {
    CallAfterRun(es, e, c);
  }

  /** The remaining quota advertised with an admitted request is exactly how many further requests
      the script would admit at that instant. */
  lemma {:induction false} RemainingQuotaIsExact(es: seq<Event>, e: Event, extra: seq<Event>, next: Event, c: Config)
    requires c.Positive() && e.Call? && VerdictAt(es + [e], |es|, c).allowed
    requires WellFormed(es + [e] + extra + [next])
    requires next.Call? && next.now == e.now
    requires forall x :: x in extra ==> x.Call? && x.now == e.now
    ensures var before := es + [e] + extra;
            VerdictAt(before + [next], |before|, c).allowed
            <==> |extra| < RemainingHeader(VerdictAt(es + [e], |es|, c), c)
  {
    hide Next, After, VerdictAt;
    var base := es + [e];
    assert WellFormed(base) by {
      assert (base + extra + [next])[..|base|] == base;
      WellFormedPrefix(base + extra + [next], |base|);
    }
    CurrentCountsTheWindow(es, e, c);
    AdmittedWhileQuotaLasts(base, extra, next, c);
  }

  // --------------------------------------------------------------------------------------
  // The code in its own form
  // --------------------------------------------------------------------------------------

  /** ZREMRANGEBYSCORE: drops the members scored in [min, max]. */
  function RemoveRangeByScore(zset: map<Member, nat>, min: int, max: int): (kept: map<Member, nat>)
    ensures min <= 0 ==> kept == After(zset, max)
  {
    map m | m in zset && !(min <= zset[m] <= max) :: zset[m]
  }

  datatype RateLimitResult = RateLimitResult(allowed: bool, current: nat, limit: nat, retryAfter: int)

  /** One rate-limit key as Redis keeps it. */
  class RateLimitKey {
    var zset: map<Member, nat>
    var deadline: nat

    constructor ()
      ensures Model() == INITIAL.store
    {
      zset, deadline := map[], 0;
    }

    ghost function Model(): Store
      reads this
    {
      Store(zset, deadline)
    }

    /** Redis reclaims the key, lazily or actively, once its time to live is over.  That is the expiry event of
        every run, and it loses nothing: a key that stood for a history at `clock` stands for it afterwards,
        and no admission of that history is still in the window. */
    method Reclaim(now: nat, ghost c: Config)
      requires deadline <= now
      modifies this
      ensures forall s: State :: s.store == old(Model()) ==> Model() == Next(s, Expire(now), c).store
      ensures forall history, clock: nat :: Refines(old(Model()), history, clock, c) && clock <= now ==>
                Refines(Model(), history, now, c) && After(history, now - c.WindowMs()) == map[]
    {
      forall history, clock: nat | Refines(Model(), history, clock, c) && clock <= now
        ensures Refines(Store(map[], deadline), history, now, c) && After(history, now - c.WindowMs()) == map[]
      {
        ExpiryRefines(Model(), history, clock, now, c);
      }
      zset := map[];
    }

    /** The Lua script, command by command. */
    method Eval(windowMs: nat, maxRequests: nat, member: Member, now: nat, ghost c: Config)
      returns (v: Verdict)
      requires windowMs == c.WindowMs() && maxRequests == c.limit
      modifies this
      ensures (Model(), v) == Script(old(Model()), now, member, c)
    {
      var windowStart := now - windowMs;
      zset := RemoveRangeByScore(zset, 0, windowStart);
      var current := |zset|;
      if current >= maxRequests {
        var retryAfter := 0;
        if zset != map[] {
          retryAfter := CeilSeconds(OldestScore(zset) + windowMs - now);
        }
        return Verdict(false, current, retryAfter);
      }
      zset := zset[member := now];
      deadline := now + windowMs;
      return Verdict(true, current + 1, 0);
    }

    /** `check_rate_limit`: refuses non-positive settings before touching Redis. */
    method Check(c: Config, member: Member, now: nat) returns (r: Result<RateLimitResult, string>)
      modifies this
      ensures r.Success? <==> c.limit > 0 && c.windowSeconds > 0
      ensures r.Failure? ==> Model() == old(Model())
      ensures r.Success? && r.value.allowed ==> r.value.retryAfter == 0
      ensures r.Success? ==>
                var (s', v) := Script(old(Model()), now, member, c);
                Model() == s' && r.value == RateLimitResult(v.allowed, v.current, c.limit, v.retryAfter)
    {
      if c.limit <= 0 { return Failure("limit must be positive"); }
      if c.windowSeconds <= 0 { return Failure("window_seconds must be positive"); }
      var raw := Eval(c.windowSeconds * 1000, c.limit, member, now, c);
      r := Success(RateLimitResult(raw.allowed, raw.current, c.limit, if !raw.allowed then raw.retryAfter else 0));
    }
  }

  /** How the call to Redis can fail: before the script ran, or after it ran with the reply lost. */
  datatype Fault = NoFault | BeforeScript | AfterScript

  datatype Response =
    | Forwarded
    | ForwardedWithQuota(limit: nat, remaining: nat)
    | TooManyRequests(retryAfter: int)

  function EventOf(fault: Fault, now: nat, member: Member): Event {
    if fault == BeforeScript then Lost(now, member) else Call(now, member, fault == NoFault)
  }

  class RateLimitMiddleware {
    const enabled: bool
    const c: Config

    constructor (enabled: bool, c: Config)
      ensures this.enabled == enabled && this.c == c
    {
      this.enabled, this.c := enabled, c;
    }

    /** `dispatch`: limited requests move the key as their event does in every run, and are answered 429
        exactly when that event does not forward them; bad settings fail open like any other error. */
    method Dispatch(isApiPath: bool, key: RateLimitKey, member: Member, now: nat, fault: Fault)
      returns (r: Response)
      modifies key
      ensures !enabled || !isApiPath || !c.Positive() ==> r == Forwarded && key.Model() == old(key.Model())
      ensures enabled && isApiPath && c.Positive() ==>
                forall s: State :: s.store == old(key.Model()) && member !in s.forwarded ==>
                  var s' := Next(s, EventOf(fault, now, member), c);
                  key.Model() == s'.store && (r.TooManyRequests? <==> member !in s'.forwarded)
      ensures r.TooManyRequests? ==> r.retryAfter == RetryAfterHeader(Script(old(key.Model()), now, member, c).1)
      ensures r.ForwardedWithQuota? ==>
                && r.limit == c.limit
                && r.remaining == RemainingHeader(Script(old(key.Model()), now, member, c).1, c)
      ensures enabled && isApiPath && c.Positive() ==> (r == Forwarded <==> fault != NoFault)
      ensures enabled && isApiPath && c.Positive() ==>
                key.Model() == if fault == BeforeScript then old(key.Model())
                               else Script(old(key.Model()), now, member, c).0
    {
      if !enabled || !isApiPath { return Forwarded; }
      if fault == BeforeScript { return Forwarded; }
      var result := key.Check(c, member, now);
      if result.Failure? || fault == AfterScript { return Forwarded; }
      if !result.value.allowed {
        return TooManyRequests(if result.value.retryAfter < 1 then 1 else result.value.retryAfter);
      }
      return ForwardedWithQuota(result.value.limit,
        if result.value.limit > result.value.current then result.value.limit - result.value.current else 0);
    }
  }
}
