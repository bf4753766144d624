/** Which accepted requests have their effect: exactly those that the session permits, that this machine can
    carry out, and that were answered as they need. */
module BridgeEffects {
  import opened Texts
  import opened CanonicalJson
  import opened SignedRequest
  import opened BridgePolicy
  import opened BridgeRuns

  predicate IsEffectOf(n: Note, q: nat) {
    n.Did? && n.q == q
  }

  predicate HasEffect(trace: seq<Note>, q: nat) {
    exists j :: 0 <= j < |trace| && IsEffectOf(trace[j], q)
  }

  /** The note is the answer on which a suspended handler goes ahead. */
  predicate LetsGo(deps: Deps, w: Plan, q: nat, n: Note) {
    match w
    case CheckUrl(_, _, _) => n.Checked? && n.q == q && n.verdict.Some? && deps.performApiCall
    case ReadHash(_, _, _, approved) => n.HashRead? && n.q == q && n.sha == approved
    case Ask(_, _, _) => n == Answered(q, true) && deps.ledger
    case _ => false
  }

  predicate HasGo(deps: Deps, w: Plan, q: nat, trace: seq<Note>) {
    exists j :: 0 <= j < |trace| && LetsGo(deps, w, q, trace[j])
  }

  /** What a handler observed, was answered, or did. */
  predicate Mentions(n: Note, q: nat) {
    (n.Checked? || n.HashRead? || n.Answered? || n.Did?) && n.q == q
  }

  /** Only accepted requests are mentioned. */
  ghost predicate MentionsKnown(s: State) {
    forall j, q: nat | 0 <= j < |s.trace| && Mentions(s.trace[j], q) :: q < |s.accepted|
  }

  ghost predicate EffectOk(env: Env, s: State, q: nat)
    requires q < |s.accepted|
  {
    && s.accepted[q].bridgeId in s.sessions
    && var plan := PlanOf(env.deps, s, s.accepted[q]);
       HasEffect(s.trace, q) <==> plan.Act? || HasGo(env.deps, plan, q, s.trace)
  }

  ghost predicate AllEffectsOk(env: Env, s: State) {
    MentionsKnown(s) && forall q: nat | q < |s.accepted| :: EffectOk(env, s, q)
  }

  // ----- one more note -----

  lemma EffectAdd(trace: seq<Note>, n: Note, q: nat)
    ensures HasEffect(trace + [n], q) <==> HasEffect(trace, q) || IsEffectOf(n, q)
  {
    var t := trace + [n];
    if j :| 0 <= j < |trace| && IsEffectOf(trace[j], q) { assert t[j] == trace[j]; }
    if j :| 0 <= j < |t| && IsEffectOf(t[j], q) {
      if j < |trace| { assert t[j] == trace[j]; }
    }
    assert t[|trace|] == n;
  }

  lemma GoAdd(deps: Deps, w: Plan, q: nat, trace: seq<Note>, n: Note)
    ensures HasGo(deps, w, q, trace + [n]) <==> HasGo(deps, w, q, trace) || LetsGo(deps, w, q, n)
  {
    var t := trace + [n];
    if j :| 0 <= j < |trace| && LetsGo(deps, w, q, trace[j]) { assert t[j] == trace[j]; }
    if j :| 0 <= j < |t| && LetsGo(deps, w, q, t[j]) {
      if j < |trace| { assert t[j] == trace[j]; }
    }
    assert t[|trace|] == n;
  }

  /** A later state of the same sessions takes the same decision. */
  lemma SamePlan(env: Env, s: State, t: State, q: nat)
    requires Later(s, t) && q < |s.accepted| && s.accepted[q].bridgeId in s.sessions
    ensures q < |t.accepted| && t.accepted[q] == s.accepted[q] && t.accepted[q].bridgeId in t.sessions
    ensures PlanOf(env.deps, t, t.accepted[q]) == PlanOf(env.deps, s, s.accepted[q])
  {
  }

  /** At most one note more, and not about `q`. */
  predicate Silent(notes: seq<Note>, q: nat) {
    |notes| <= 1 && (notes != [] ==> !Mentions(notes[0], q))
  }

  lemma KeepsOther(env: Env, s: State, t: State, notes: seq<Note>, q: nat)
    requires Later(s, t) && q < |s.accepted| && EffectOk(env, s, q)
    requires t.trace == s.trace + notes && Silent(notes, q)
    ensures q < |t.accepted| && EffectOk(env, t, q)
  {
    SamePlan(env, s, t, q);
    if notes == [] {
      assert t.trace == s.trace;
    } else {
      assert notes == [notes[0]];
      EffectAdd(s.trace, notes[0], q);
      GoAdd(env.deps, PlanOf(env.deps, s, s.accepted[q]), q, s.trace, notes[0]);
    }
  }

  lemma MentionAdd(s: State, t: State, notes: seq<Note>)
    requires MentionsKnown(s) && t.trace == s.trace + notes && |s.accepted| <= |t.accepted| && |notes| <= 1
    requires forall q: nat | notes != [] && Mentions(notes[0], q) :: q < |t.accepted|
    ensures MentionsKnown(t)
  {
    forall j, q: nat | 0 <= j < |t.trace| && Mentions(t.trace[j], q) ensures q < |t.accepted| {
      if j < |s.trace| { assert t.trace[j] == s.trace[j]; }
    }
  }

  /** A step that writes at most one note, about no handler. */
  lemma QuietKeeps(env: Env, s: State, t: State, notes: seq<Note>)
    requires AllEffectsOk(env, s) && Later(s, t) && t.accepted == s.accepted && t.trace == s.trace + notes
    requires forall q: nat :: Silent(notes, q)
    ensures AllEffectsOk(env, t)
  {
    assert Silent(notes, 0);
    forall q: nat ensures notes == [] || !Mentions(notes[0], q) {
      assert Silent(notes, q);
    }
    MentionAdd(s, t, notes);
    forall q: nat | q < |t.accepted| ensures EffectOk(env, t, q) {
      KeepsOther(env, s, t, notes, q);
    }
  }

  // ----- each step -----

  /** All handlers but `q` are as they must be, and nothing has been written of `q` since it was accepted, or
      since it has an answer on which it does not go ahead. */
  ghost predicate Undecided(env: Env, s: State, q: nat) {
    && MentionsKnown(s) && q < |s.accepted| && s.accepted[q].bridgeId in s.sessions && !HasEffect(s.trace, q)
    && forall k: nat | k < |s.accepted| && k != q :: EffectOk(env, s, k)
  }

  lemma FollowKeeps(env: Env, s: State, q: nat, plan: Plan)
    requires Undecided(env, s, q) && Later(s, Follow(s, q, plan))
    requires var w := PlanOf(env.deps, s, s.accepted[q]);
             plan.Act? <==> w.Act? || HasGo(env.deps, w, q, s.trace)
    ensures AllEffectsOk(env, Follow(s, q, plan))
  {
    var t := Follow(s, q, plan);
    var notes := if plan.Act? then [Did(q, plan.effect)] else [];
    assert t.trace == s.trace + notes;
    MentionAdd(s, t, notes);
    forall k: nat | k < |t.accepted| ensures EffectOk(env, t, k) {
      if k != q {
        KeepsOther(env, s, t, notes, k);
      } else {
        FollowSelf(env, s, q, plan);
      }
    }
  }

  lemma FollowSelf(env: Env, s: State, q: nat, plan: Plan)
    requires Undecided(env, s, q) && Later(s, Follow(s, q, plan))
    requires var w := PlanOf(env.deps, s, s.accepted[q]);
             plan.Act? <==> w.Act? || HasGo(env.deps, w, q, s.trace)
    ensures EffectOk(env, Follow(s, q, plan), q)
  {
    SamePlan(env, s, Follow(s, q, plan), q);
    if plan.Act? {
      EffectAdd(s.trace, Did(q, plan.effect), q);
      GoAdd(env.deps, PlanOf(env.deps, s, s.accepted[q]), q, s.trace, Did(q, plan.effect));
    }
  }

  lemma NothingOfNew(env: Env, s: State, w: Plan)
    requires MentionsKnown(s)
    ensures !HasEffect(s.trace, |s.accepted|) && !HasGo(env.deps, w, |s.accepted|, s.trace)
  {
    forall j | 0 <= j < |s.trace| ensures !Mentions(s.trace[j], |s.accepted|) {
    }
  }

  lemma AcceptUndecided(env: Env, s: State, a: Acceptance)
    requires Inv(env, s) && AllEffectsOk(env, s) && a.bridgeId in s.sessions && a.nonce !in s.nonces[a.bridgeId]
    ensures Undecided(env, Accept(s, a), |s.accepted|)
    ensures !HasGo(env.deps, PlanOf(env.deps, s, a), |s.accepted|, Accept(s, a).trace)
  {
    var t, q, n := Accept(s, a), |s.accepted|, Accepted(|s.accepted|);
    InvAccept(env, s, a);
    MentionAdd(s, t, [n]);
    NothingOfNew(env, s, PlanOf(env.deps, s, a));
    EffectAdd(s.trace, n, q);
    GoAdd(env.deps, PlanOf(env.deps, s, a), q, s.trace, n);
    forall k: nat | k < |t.accepted| && k != q ensures EffectOk(env, t, k) {
      KeepsOther(env, s, t, [n], k);
    }
  }

  lemma HandleKeeps(env: Env, s: State, now: int, m: Signed)
    requires Inv(env, s) && AllEffectsOk(env, s)
    ensures AllEffectsOk(env, Handle(env, s, now, m))
  {
    if RequestFailure(env.crypto, s, now, m).None? {
      var a := AcceptanceOf(m);
      var t, plan := Accept(s, a), PlanOf(env.deps, s, a);
      AcceptUndecided(env, s, a);
      InvAccept(env, s, a);
      assert t.accepted[|s.accepted|] == a;
      DecidedMove(env, t, |s.accepted|, plan);
      InvFollow(env, t, |s.accepted|, plan);
      FollowKeeps(env, t, |s.accepted|, plan);
    }
  }

  /** A suspended handler has done nothing and has no answer yet. */
  lemma WaitingHasNothing(env: Env, s: State, q: nat)
    requires Inv(env, s) && AllEffectsOk(env, s) && q in s.waiting
    ensures q < |s.accepted| && s.accepted[q].bridgeId in s.sessions
    ensures s.waiting[q] == PlanOf(env.deps, s, s.accepted[q])
    ensures !HasEffect(s.trace, q) && !HasGo(env.deps, s.waiting[q], q, s.trace)
  {
    assert WaitingOk(env, s, q);
    assert EffectOk(env, s, q);
  }

  lemma FollowLater(s: State, q: nat, plan: Plan)
    ensures Later(s, Follow(s, q, plan))
  {
  }

  lemma WakeKeeps(env: Env, s: State, q: nat, note: Note, plan: Plan)
    requires Inv(env, s) && AllEffectsOk(env, s) && q in s.waiting
    requires Mentions(note, q) && !note.Did? && (plan.Act? <==> LetsGo(env.deps, s.waiting[q], q, note))
    ensures AllEffectsOk(env, Follow(Woken(s, q).(trace := s.trace + [note]), q, plan))
  {
    var t := Woken(s, q).(trace := s.trace + [note]);
    WaitingHasNothing(env, s, q);
    InvNoted(env, s, q, [note]);
    MentionAdd(s, t, [note]);
    EffectAdd(s.trace, note, q);
    GoAdd(env.deps, s.waiting[q], q, s.trace, note);
    forall k: nat | k < |t.accepted| && k != q ensures EffectOk(env, t, k) {
      KeepsOther(env, s, t, [note], k);
    }
    FollowLater(t, q, plan);
    FollowKeeps(env, t, q, plan);
  }

  lemma UrlKeeps(env: Env, s: State, q: nat, verdict: Option<Text>)
    requires Inv(env, s) && AllEffectsOk(env, s)
    ensures AllEffectsOk(env, UrlChecked(env, s, q, verdict))
  {
    if q in s.waiting && s.waiting[q].CheckUrl? {
      var w, n := s.waiting[q], Checked(q, s.waiting[q].url, HostsOf(s, q), verdict);
      var plan := AfterUrl(env.deps, verdict, w.credentialRef, w.operationId);
      WakeKeeps(env, s, q, n, plan);
    }
  }

  lemma HashKeeps(env: Env, s: State, q: nat, sha: Text)
    requires Inv(env, s) && AllEffectsOk(env, s)
    ensures AllEffectsOk(env, HashFinished(s, q, sha))
  {
    if q in s.waiting && s.waiting[q].ReadHash? {
      var w, n := s.waiting[q], HashRead(q, s.waiting[q].wasmPath, sha);
      var plan := AfterHash(sha, w.workflow, w.wasmPath, w.registry, w.approved);
      WakeKeeps(env, s, q, n, plan);
    }
  }

  lemma HumanKeeps(env: Env, s: State, q: nat, yes: bool)
    requires Inv(env, s) && AllEffectsOk(env, s)
    ensures AllEffectsOk(env, HumanAnswered(env, s, q, yes))
  {
    if q in s.waiting && s.waiting[q].Ask? {
      var w, n := s.waiting[q], Answered(q, yes);
      var plan := AfterHuman(env.deps, yes, w.actionType, w.digestInput);
      WakeKeeps(env, s, q, n, plan);
    }
  }

  lemma PairingKeeps(env: Env, s: State, e: Event)
    requires Inv(env, s) && AllEffectsOk(env, s) && Fresh(s, e)
    requires e.DoCreateCode? || e.DoPair? || e.DoRevoke? || e.DoRejected?
    ensures AllEffectsOk(env, Step(env, s, e))
  {
    InvPairing(env, s, e);
    var t := Step(env, s, e);
    assert t.trace == s.trace + PairingNotes(s, e);
    QuietKeeps(env, s, t, PairingNotes(s, e));
  }

  lemma EffectsStep(env: Env, s: State, e: Event)
    requires Inv(env, s) && AllEffectsOk(env, s) && Fresh(s, e)
    ensures AllEffectsOk(env, Step(env, s, e))
  {
    match e {
      case DoHandle(m, now) => HandleKeeps(env, s, now, m);
      case DoUrlChecked(q, egress) =>
        UrlKeeps(env, s, q,
                 if q in s.waiting && s.waiting[q].CheckUrl? then egress(s.waiting[q].url, HostsOf(s, q)) else None);
      case DoHashFinished(q, sha) => HashKeeps(env, s, q, sha);
      case DoHumanAnswered(q, yes) => HumanKeeps(env, s, q, yes);
      case _ => PairingKeeps(env, s, e);
    }
  }

  lemma {:induction false} EffectsRun(env: Env, es: seq<Event>)
    requires FreshRun(env, es)
    ensures AllEffectsOk(env, Run(env, es))
  {
    if es != [] {
      EffectsRun(env, es[..|es| - 1]);
      InvRun(env, es[..|es| - 1]);
      EffectsStep(env, Run(env, es[..|es| - 1]), es[|es| - 1]);
    }
  }

  // ----- main result -----

  /** The answer that the handler of an operation waits for has come, where it waits for one. */
  predicate AnsweredAsNeeded(deps: Deps, p: Permissions, a: Acceptance, q: nat, trace: seq<Note>) {
    match a.op
    case PerformApiRequest =>
      deps.performApiCall
      && exists j :: 0 <= j < |trace| && trace[j].Checked? && trace[j].q == q && trace[j].verdict.Some?
    case DeployWorkflow =>
      exists j :: 0 <= j < |trace| && trace[j].HashRead? && trace[j].q == q
                  && Read(a.payload, "approvedWasmSha256", []) == Some(trace[j].sha)
    case ApproveContextLockAction => NeedsHuman(p, a.payload) ==> deps.ledger && Answered(q, true) in trace
    case PerformProtectedBrokerAction => NeedsHuman(p, a.payload) ==> deps.ledger && Answered(q, true) in trace
    case _ => true
  }

  /** Which plans go ahead at once, and what the others wait for. */
  lemma PlanShape(p: Permissions, deps: Deps, projectId: Text, op: Operation, payload: Json)
    requires GoesAhead(Decide(p, deps, projectId, op, payload))
    ensures var plan := Decide(p, deps, projectId, op, payload);
            match op
            case PerformApiRequest => plan.CheckUrl?
            case DeployWorkflow => plan.ReadHash? && Read(payload, "approvedWasmSha256", []) == Some(plan.approved)
            case ApproveContextLockAction => if NeedsHuman(p, payload) then plan.Ask? else plan.Act?
            case PerformProtectedBrokerAction => if NeedsHuman(p, payload) then plan.Ask? else plan.Act?
            case _ => plan.Act?
  {
  }

  lemma GoesOnAnswer(deps: Deps, p: Permissions, projectId: Text, a: Acceptance, q: nat, trace: seq<Note>)
    requires GoesAhead(Decide(p, deps, projectId, a.op, a.payload))
    ensures var plan := Decide(p, deps, projectId, a.op, a.payload);
            plan.Act? || HasGo(deps, plan, q, trace) <==> AnsweredAsNeeded(deps, p, a, q, trace)
  {
    PlanShape(p, deps, projectId, a.op, a.payload);
    var plan := Decide(p, deps, projectId, a.op, a.payload);
    if j :| 0 <= j < |trace| && LetsGo(deps, plan, q, trace[j]) {
      assert HasGo(deps, plan, q, trace);
    }
  }

  /** In every interleaving an accepted request has its effect exactly when its session permits the operation, the
      project and everything its payload names, this machine can carry it out, and the answer it needs has
      come: nothing else happens, and nothing permitted is dropped. */
  lemma EffectExactly(env: Env, es: seq<Event>, q: nat)
    requires FreshRun(env, es) && q < |Run(env, es).accepted|
    ensures var s := Run(env, es);
            var a := s.accepted[q];
            && a.bridgeId in s.sessions
            && var p := s.sessions[a.bridgeId].permissions;
               HasEffect(s.trace, q) <==>
                 && a.op in p.allowedOperations && s.sessions[a.bridgeId].projectId in p.allowedProjects
                 && PermitsNamed(p, env.deps, a.op, a.payload) && AnsweredAsNeeded(env.deps, p, a, q, s.trace)
  {
    EffectsRun(env, es);
    var s := Run(env, es);
    var a := s.accepted[q];
    assert EffectOk(env, s, q);
    var session := s.sessions[a.bridgeId];
    DecidesExactly(session.permissions, env.deps, session.projectId, a.op, a.payload);
    if GoesAhead(PlanOf(env.deps, s, a)) {
      GoesOnAnswer(env.deps, session.permissions, session.projectId, a, q, s.trace);
    }
  }
}
