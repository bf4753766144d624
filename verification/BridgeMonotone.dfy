/** Granting more never takes an effect away: the same events under larger permissions reach every
    effect that they reach under smaller ones. */
module BridgeMonotone {
  import opened Texts
  import CanonicalJson
  import opened SignedRequest
  import opened BridgePolicy
  import opened BridgeRuns

  /** A URL that passes the check for some hosts passes, unchanged, for more hosts. */
  ghost predicate EgressMonotone(egress: (Text, set<Text>) -> Option<Text>) {
    forall url, h, g :: h <= g && egress(url, h).Some? ==> egress(url, g) == egress(url, h)
  }

  /** The same event, but for pairing with larger permissions. */
  ghost predicate EventLeq(d: Event, e: Event) {
    if d.DoPair? then e.DoPair? && Leq(d.perms, e.perms) && e == d.(perms := e.perms)
    else e == d && (d.DoUrlChecked? ==> EgressMonotone(d.egress))
  }

  ghost predicate EventsLeq(ds: seq<Event>, es: seq<Event>) {
    |ds| == |es| && forall i | 0 <= i < |ds| :: EventLeq(ds[i], es[i])
  }

  predicate SessionLeq(x: Session, y: Session) {
    Leq(x.permissions, y.permissions) && y == x.(permissions := y.permissions)
  }

  ghost predicate Reached(s: State, q: nat, e: Effect) {
    Did(q, e) in s.trace
  }

  /** What is left of handler `q` is still ahead, or its effect has been reached already. */
  ghost predicate Ahead(deps: Deps, t: State, q: nat, plan: Plan) {
    || (q in t.waiting && t.waiting[q] == plan)
    || (q !in t.waiting && plan.Ask?
        && (deps.ledger ==> Reached(t, q, LedgerApprove(plan.actionType, plan.digestInput))))
  }

  /** `t` has reached every effect that `s` has, and has whatever `s` still needs. */
  ghost predicate Simulates(deps: Deps, s: State, t: State) {
    && t.pairings == s.pairings && t.nonces == s.nonces && t.accepted == s.accepted
    && t.sessions.Keys == s.sessions.Keys
    && (forall b | b in s.sessions :: SessionLeq(s.sessions[b], t.sessions[b]))
    && (forall q | q in s.waiting :: q < |s.accepted| && IsSuspension(s.waiting[q]) && Ahead(deps, t, q, s.waiting[q]))
    && (forall q | q in t.waiting :: q < |s.accepted|)
    && (forall q, e :: Reached(s, q, e) ==> Reached(t, q, e))
  }

  /** A larger permission set answers the same, or answers where the smaller one refused, or goes
      straight to the device where the smaller one asks a person. */
  predicate NoLess(deps: Deps, a: Plan, b: Plan) {
    || b == a || a.Refuse? || a.Fails?
    || (a.Ask? && b == AfterApproval(deps, a.actionType, a.digestInput))
  }

  lemma DecideMonotone(p: Permissions, r: Permissions, deps: Deps, projectId: Text, op: Operation,
                       payload: CanonicalJson.Json)
    requires Leq(p, r)
    ensures NoLess(deps, Decide(p, deps, projectId, op, payload), Decide(r, deps, projectId, op, payload))
  {
    HandlerMonotone(p, r, deps, projectId, op, payload);
  }

  lemma HandlerMonotone(p: Permissions, r: Permissions, deps: Deps, projectId: Text, op: Operation,
                        payload: CanonicalJson.Json)
    requires Leq(p, r)
    ensures NoLess(deps, HandlerPlan(p, deps, projectId, op, payload), HandlerPlan(r, deps, projectId, op, payload))
  {
    match op {
      case PerformApiRequest => ApiMonotone(p, r, deps, payload);
      case DeployWorkflow => DeployMonotone(p, r, deps, payload);
      case SimulateWorkflow => WorkflowsMonotone(p, r, deps, payload);
      case BuildWorkflow => WorkflowsMonotone(p, r, deps, payload);
      case WorkflowLifecycle => WorkflowsMonotone(p, r, deps, payload);
      case CreStatus =>
      case _ => LedgerMonotone(p, r, deps, projectId, op, payload);
    }
  }

  lemma ApiMonotone(p: Permissions, r: Permissions, deps: Deps, payload: CanonicalJson.Json)
    requires Leq(p, r)
    ensures NoLess(deps, ApiRequestPlan(p, payload), ApiRequestPlan(r, payload))
  {
  }

  lemma DeployMonotone(p: Permissions, r: Permissions, deps: Deps, payload: CanonicalJson.Json)
    requires Leq(p, r)
    ensures NoLess(deps, DeployPlan(p, deps, payload), DeployPlan(r, deps, payload))
  {
  }

  lemma WorkflowsMonotone(p: Permissions, r: Permissions, deps: Deps, payload: CanonicalJson.Json)
    requires Leq(p, r)
    ensures NoLess(deps, SimulatePlan(p, deps, payload), SimulatePlan(r, deps, payload))
    ensures NoLess(deps, BuildPlan(p, deps, payload), BuildPlan(r, deps, payload))
    ensures NoLess(deps, LifecyclePlan(p, deps, payload), LifecyclePlan(r, deps, payload))
  {
  }

  lemma LedgerMonotone(p: Permissions, r: Permissions, deps: Deps, projectId: Text, op: Operation,
                       payload: CanonicalJson.Json)
    requires Leq(p, r)
    ensures NoLess(deps, LedgerPlan(p, deps, projectId, op, payload), LedgerPlan(r, deps, projectId, op, payload))
  {
    assert NeedsHuman(r, payload) ==> NeedsHuman(p, payload);
    LedgerWithMonotone(p, r, deps, Read(payload, "actionType", []), NeedsHuman(p, payload), NeedsHuman(r, payload),
                       Read(payload, "policyReason", ABOVE_CEILING),
                       Prompt(projectId, op, [], Amount(payload), Destination(payload), []),
                       CanonicalJson.Stringify(payload));
  }

  lemma LedgerWithMonotone(p: Permissions, r: Permissions, deps: Deps, t: Option<Text>, needsP: bool, needsR: bool,
                           why: Option<Text>, prompt: Prompt, d: Text)
    requires Leq(p, r) && (needsR ==> needsP)
    ensures NoLess(deps, LedgerWith(p, deps, t, needsP, why, prompt, d), LedgerWith(r, deps, t, needsR, why, prompt, d))
  {
  }

  /** Carrying out a move of `s` in both states, where `t` moves the same way. */
  lemma SameMove(deps: Deps, s: State, t: State, q: nat, plan: Plan)
    requires Simulates(deps, s, t) && q < |s.accepted|
    ensures Simulates(deps, Follow(s, q, plan), Follow(t, q, plan))
  {
    TraceOfFollow(s, q, plan);
    TraceOfFollow(t, q, plan);
    var s', t' := Follow(s, q, plan), Follow(t, q, plan);
    forall k | k in s'.waiting
      ensures k < |s'.accepted| && IsSuspension(s'.waiting[k]) && Ahead(deps, t', k, s'.waiting[k]) {
      if k in s.waiting && !(k == q && IsSuspension(plan)) {
        assert Ahead(deps, t, k, s.waiting[k]);
      }
    }
  }

  lemma TraceOfFollow(s: State, q: nat, plan: Plan)
    ensures forall k, e :: Reached(Follow(s, q, plan), k, e) <==> Reached(s, k, e) || (k == q && plan == Act(e))
    ensures Follow(s, q, plan).waiting == if IsSuspension(plan) then s.waiting[q := plan] else s.waiting
  {
    forall k, e ensures Reached(Follow(s, q, plan), k, e) <==> Reached(s, k, e) || (k == q && plan == Act(e)) {
      if plan.Act? {
        assert Follow(s, q, plan).trace == s.trace + [Did(q, plan.effect)];
      }
    }
  }

  /** A further move of `t` alone. */
  lemma MoreMoves(deps: Deps, s: State, t: State, q: nat, plan: Plan)
    requires Simulates(deps, s, t) && q < |s.accepted| && q !in s.waiting
    ensures Simulates(deps, s, Follow(t, q, plan))
  {
    TraceOfFollow(t, q, plan);
    var t' := Follow(t, q, plan);
    forall k | k in s.waiting ensures Ahead(deps, t', k, s.waiting[k]) {
      assert Ahead(deps, t, k, s.waiting[k]);
    }
  }

  /** Handler `q` resumes, and something that is not an effect is written down. */
  function Wake(s: State, q: nat, notes: seq<Note>): State {
    Woken(s, q).(trace := s.trace + notes)
  }

  lemma TraceOfWake(s: State, q: nat, notes: seq<Note>)
    requires NoEffects(notes)
    ensures forall k, e :: Reached(Wake(s, q, notes), k, e) <==> Reached(s, k, e)
  {
  }

  lemma BothWake(deps: Deps, s: State, t: State, q: nat, m: seq<Note>, n: seq<Note>)
    requires Simulates(deps, s, t) && NoEffects(m) && NoEffects(n)
    ensures Simulates(deps, Wake(s, q, m), Wake(t, q, n))
  {
    TraceOfWake(s, q, m);
    TraceOfWake(t, q, n);
    var s', t' := Wake(s, q, m), Wake(t, q, n);
    forall k | k in s'.waiting ensures Ahead(deps, t', k, s'.waiting[k]) {
      assert Ahead(deps, t, k, s.waiting[k]);
    }
  }

  lemma LeftWake(deps: Deps, s: State, t: State, q: nat, m: seq<Note>)
    requires Simulates(deps, s, t) && NoEffects(m)
    ensures Simulates(deps, Wake(s, q, m), t)
  {
    TraceOfWake(s, q, m);
  }

  /** Handler `q` resumes in `t` alone. */
  lemma RightResumes(deps: Deps, s: State, t: State, q: nat, n: seq<Note>, plan: Plan)
    requires Simulates(deps, s, t) && NoEffects(n) && q in t.waiting && q !in s.waiting
    ensures Simulates(deps, s, Follow(Wake(t, q, n), q, plan))
  {
    BothWake(deps, s, t, q, [], n);
    assert Wake(s, q, []) == s by {
      assert s.trace + [] == s.trace && s.waiting - {q} == s.waiting;
    }
    MoreMoves(deps, s, Wake(t, q, n), q, plan);
  }

  /** Handler `q` resumes in both, with a move of `s` that is a refusal or the move of `t`. */
  lemma BothResume(deps: Deps, s: State, t: State, q: nat, m: seq<Note>, n: seq<Note>, a: Plan, b: Plan)
    requires Simulates(deps, s, t) && NoEffects(m) && NoEffects(n) && q in s.waiting
    requires a == b || a.Refuse?
    ensures Simulates(deps, Follow(Wake(s, q, m), q, a), Follow(Wake(t, q, n), q, b))
  {
    BothWake(deps, s, t, q, m, n);
    if a == b {
      SameMove(deps, Wake(s, q, m), Wake(t, q, n), q, a);
    } else {
      MoreMoves(deps, Wake(s, q, m), Wake(t, q, n), q, b);
    }
  }

  /** Handler `q` asks a person in `s` alone; `t` has reached the effect if it can be reached. */
  lemma LeftAnswered(env: Env, s: State, t: State, q: nat, yes: bool)
    requires Simulates(env.deps, s, t) && q in s.waiting && s.waiting[q].Ask? && q !in t.waiting
    ensures Simulates(env.deps, HumanAnswered(env, s, q, yes), t)
  {
    var w := s.waiting[q];
    assert Ahead(env.deps, t, q, w);
    var n := [Answered(q, yes)];
    LeftWake(env.deps, s, t, q, n);
    var plan := AfterHuman(env.deps, yes, w.actionType, w.digestInput);
    assert HumanAnswered(env, s, q, yes) == Follow(Wake(s, q, n), q, plan);
    TraceOfFollow(Wake(s, q, n), q, plan);
  }

  // ----- each event -----

  lemma HostsGrow(deps: Deps, s: State, t: State, q: nat)
    requires Simulates(deps, s, t)
    ensures HostsOf(s, q) <= HostsOf(t, q)
  {
  }

  lemma UrlSimulates(env: Env, s: State, t: State, q: nat, egress: (Text, set<Text>) -> Option<Text>)
    requires Simulates(env.deps, s, t) && EgressMonotone(egress)
    ensures Simulates(env.deps, Step(env, s, DoUrlChecked(q, egress)), Step(env, t, DoUrlChecked(q, egress)))
  {
    if q in s.waiting && s.waiting[q].CheckUrl? {
      assert Ahead(env.deps, t, q, s.waiting[q]);
      HostsGrow(env.deps, s, t, q);
      var w := s.waiting[q];
      var v, u := egress(w.url, HostsOf(s, q)), egress(w.url, HostsOf(t, q));
      assert v.Some? ==> u == v;
      BothResume(env.deps, s, t, q, [Checked(q, w.url, HostsOf(s, q), v)], [Checked(q, w.url, HostsOf(t, q), u)],
                 AfterUrl(env.deps, v, w.credentialRef, w.operationId),
                 AfterUrl(env.deps, u, w.credentialRef, w.operationId));
    } else if q in t.waiting && t.waiting[q].CheckUrl? {
      NotWaiting(env.deps, s, t, q);
      var w := t.waiting[q];
      var u := egress(w.url, HostsOf(t, q));
      RightResumes(env.deps, s, t, q, [Checked(q, w.url, HostsOf(t, q), u)],
                   AfterUrl(env.deps, u, w.credentialRef, w.operationId));
    }
  }

  lemma NotWaiting(deps: Deps, s: State, t: State, q: nat)
    requires Simulates(deps, s, t) && q in t.waiting
    ensures q in s.waiting ==> s.waiting[q] == t.waiting[q]
  {
    if q in s.waiting { assert Ahead(deps, t, q, s.waiting[q]); }
  }

  lemma HashSimulates(env: Env, s: State, t: State, q: nat, sha: Text)
    requires Simulates(env.deps, s, t)
    ensures Simulates(env.deps, HashFinished(s, q, sha), HashFinished(t, q, sha))
  {
    if q in s.waiting && s.waiting[q].ReadHash? {
      assert Ahead(env.deps, t, q, s.waiting[q]);
      var w := s.waiting[q];
      var plan := AfterHash(sha, w.workflow, w.wasmPath, w.registry, w.approved);
      BothResume(env.deps, s, t, q, [HashRead(q, w.wasmPath, sha)], [HashRead(q, w.wasmPath, sha)], plan, plan);
    } else if q in t.waiting && t.waiting[q].ReadHash? {
      NotWaiting(env.deps, s, t, q);
      var w := t.waiting[q];
      RightResumes(env.deps, s, t, q, [HashRead(q, w.wasmPath, sha)],
                   AfterHash(sha, w.workflow, w.wasmPath, w.registry, w.approved));
    }
  }

  lemma HumanSimulates(env: Env, s: State, t: State, q: nat, yes: bool)
    requires Simulates(env.deps, s, t)
    ensures Simulates(env.deps, HumanAnswered(env, s, q, yes), HumanAnswered(env, t, q, yes))
  {
    if q in s.waiting && s.waiting[q].Ask? {
      assert Ahead(env.deps, t, q, s.waiting[q]);
      if q in t.waiting {
        var w := s.waiting[q];
        var plan := AfterHuman(env.deps, yes, w.actionType, w.digestInput);
        BothResume(env.deps, s, t, q, [Answered(q, yes)], [Answered(q, yes)], plan, plan);
      } else {
        LeftAnswered(env, s, t, q, yes);
      }
    } else if q in t.waiting && t.waiting[q].Ask? {
      NotWaiting(env.deps, s, t, q);
      var w := t.waiting[q];
      RightResumes(env.deps, s, t, q, [Answered(q, yes)], AfterHuman(env.deps, yes, w.actionType, w.digestInput));
    }
  }

  lemma SameFailure(env: Env, s: State, t: State, now: int, m: Signed)
    requires Simulates(env.deps, s, t)
    ensures RequestFailure(env.crypto, s, now, m) == RequestFailure(env.crypto, t, now, m)
  {
  }

  lemma BothAccept(deps: Deps, s: State, t: State, a: Acceptance)
    requires Simulates(deps, s, t)
    ensures Simulates(deps, Accept(s, a), Accept(t, a))
  {
    var s', t' := Accept(s, a), Accept(t, a);
    forall q, e ensures Reached(s', q, e) <==> Reached(s, q, e) {}
    forall q, e ensures Reached(t', q, e) <==> Reached(t, q, e) {}
    forall k | k in s'.waiting ensures Ahead(deps, t', k, s'.waiting[k]) {
      assert Ahead(deps, t, k, s.waiting[k]);
    }
  }

  /** A person is asked in `s`, while `t` goes straight to the device. */
  lemma AskOnLeft(deps: Deps, s: State, t: State, q: nat, a: Plan)
    requires Simulates(deps, s, t) && q < |s.accepted| && q !in s.waiting && q !in t.waiting && a.Ask?
    ensures Simulates(deps, Follow(s, q, a), Follow(t, q, AfterApproval(deps, a.actionType, a.digestInput)))
  {
    var b := AfterApproval(deps, a.actionType, a.digestInput);
    MoreMoves(deps, s, t, q, b);
    TraceOfFollow(s, q, a);
    TraceOfFollow(t, q, b);
    var s', t' := Follow(s, q, a), Follow(t, q, b);
    forall k | k in s'.waiting
      ensures k < |s'.accepted| && IsSuspension(s'.waiting[k]) && Ahead(deps, t', k, s'.waiting[k]) {
      if k != q { assert Ahead(deps, t', k, s.waiting[k]); }
    }
  }

  lemma HandleSimulates(env: Env, s: State, t: State, now: int, m: Signed)
    requires Simulates(env.deps, s, t)
    ensures Simulates(env.deps, Handle(env, s, now, m), Handle(env, t, now, m))
  {
    SameFailure(env, s, t, now, m);
    if RequestFailure(env.crypto, s, now, m).None? {
      var x := AcceptanceOf(m);
      var q := |s.accepted|;
      var a, b := PlanOf(env.deps, s, x), PlanOf(env.deps, t, x);
      BothAccept(env.deps, s, t, x);
      var p, r := s.sessions[x.bridgeId], t.sessions[x.bridgeId];
      assert SessionLeq(p, r);
      DecideMonotone(p.permissions, r.permissions, env.deps, p.projectId, x.op, x.payload);
      if a == b {
        SameMove(env.deps, Accept(s, x), Accept(t, x), q, a);
      } else if a.Ask? {
        AskOnLeft(env.deps, Accept(s, x), Accept(t, x), q, a);
      } else {
        MoreMoves(env.deps, Accept(s, x), Accept(t, x), q, b);
      }
    }
  }

  lemma NotesKeepEffects(s: State, t: State, notes: seq<Note>)
    requires t.trace == s.trace + notes && NoEffects(notes)
    ensures forall q, f :: Reached(t, q, f) <==> Reached(s, q, f)
  {
  }

  lemma PairBoth(deps: Deps, s: State, t: State, code: Text, p: Permissions, r: Permissions, ttlMs: int,
                 b: Text, key: Bytes, now: int)
    requires Simulates(deps, s, t) && Leq(p, r)
    ensures var s', t' := Pair(s, code, p, ttlMs, b, key, now), Pair(t, code, r, ttlMs, b, key, now);
            SameBut(s', t')
  {
  }

  /** The parts of a simulation that pairing and revoking touch. */
  ghost predicate SameBut(s: State, t: State) {
    && t.pairings == s.pairings && t.nonces == s.nonces
    && t.sessions.Keys == s.sessions.Keys
    && (forall b | b in s.sessions :: SessionLeq(s.sessions[b], t.sessions[b]))
  }

  lemma RevokeBoth(deps: Deps, s: State, t: State, b: Text, now: int)
    requires Simulates(deps, s, t)
    ensures SameBut(Revoke(s, b, now), Revoke(t, b, now))
  {
  }

  lemma TouchedSimulates(deps: Deps, s: State, t: State, s': State, t': State, m: seq<Note>, n: seq<Note>)
    requires Simulates(deps, s, t) && SameBut(s', t') && NoEffects(m) && NoEffects(n)
    requires s'.trace == s.trace + m && t'.trace == t.trace + n
    requires s'.waiting == s.waiting && t'.waiting == t.waiting
    requires s'.accepted == s.accepted && t'.accepted == t.accepted
    ensures Simulates(deps, s', t')
  {
    NotesKeepEffects(s, s', m);
    NotesKeepEffects(t, t', n);
    forall k | k in s'.waiting ensures Ahead(deps, t', k, s'.waiting[k]) {
      assert Ahead(deps, t, k, s.waiting[k]);
    }
  }

  lemma PairingSimulates(env: Env, s: State, t: State, d: Event, e: Event)
    requires Simulates(env.deps, s, t) && EventLeq(d, e)
    requires d.DoCreateCode? || d.DoPair? || d.DoRevoke?
    ensures Simulates(env.deps, Step(env, s, d), Step(env, t, e))
  {
    var s', t' := Step(env, s, d), Step(env, t, e);
    match d {
      case DoPair(code, perms, ttlMs, b, key, now) =>
        PairBoth(env.deps, s, t, code, perms, e.perms, ttlMs, b, key, now);
      case DoRevoke(b, now) => RevokeBoth(env.deps, s, t, b, now);
      case _ =>
    }
    PairingShape(env, s, d);
    PairingShape(env, t, e);
    TouchedSimulates(env.deps, s, t, s', t', PairingNotes(s, d), PairingNotes(t, e));
  }

  lemma PairingShape(env: Env, s: State, e: Event)
    requires e.DoCreateCode? || e.DoPair? || e.DoRevoke?
    ensures var t := Step(env, s, e);
            t.trace == s.trace + PairingNotes(s, e) && t.waiting == s.waiting && t.accepted == s.accepted
  {
  }

  lemma StepSimulates(env: Env, s: State, t: State, d: Event, e: Event)
    requires Simulates(env.deps, s, t) && EventLeq(d, e)
    ensures Simulates(env.deps, Step(env, s, d), Step(env, t, e))
  {
    match d {
      case DoHandle(m, now) => HandleSimulates(env, s, t, now, m);
      case DoUrlChecked(q, egress) => UrlSimulates(env, s, t, q, egress);
      case DoHashFinished(q, sha) => HashSimulates(env, s, t, q, sha);
      case DoHumanAnswered(q, yes) => HumanSimulates(env, s, t, q, yes);
      case DoRejected(q) =>
        BothWake(env.deps, s, t, q, [], []);
        assert s.trace + [] == s.trace && t.trace + [] == t.trace;
      case _ => PairingSimulates(env, s, t, d, e);
    }
  }

  lemma {:induction false} RunSimulates(env: Env, ds: seq<Event>, es: seq<Event>)
    requires EventsLeq(ds, es)
    ensures Simulates(env.deps, Run(env, ds), Run(env, es))
  {
    if ds != [] {
      var n := |ds| - 1;
      RunSimulates(env, ds[..n], es[..n]);
      StepSimulates(env, Run(env, ds[..n]), Run(env, es[..n]), ds[n], es[n]);
    }
  }

  /** Bridge permissions are monotone over whole runs: with the same requests, answers and clock,
      every request's effect under some permissions is its effect under larger ones. */
  lemma PermissionsMonotone(env: Env, ds: seq<Event>, es: seq<Event>, q: nat, e: Effect)
    requires EventsLeq(ds, es)
    requires Did(q, e) in Run(env, ds).trace
    ensures Did(q, e) in Run(env, es).trace
    ensures Run(env, es).accepted == Run(env, ds).accepted
  {
    RunSimulates(env, ds, es);
    assert Reached(Run(env, ds), q, e);
  }
}
