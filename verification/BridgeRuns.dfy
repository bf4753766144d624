/** The bridge as a step system. A step is one stretch of synchronous code: a pairing call, a
    request up to its first `await`, or a handler from one `await` to the next, so a run is any
    interleaving. `trace` records what happened, in order. */
module BridgeRuns {
  import opened Texts
  import opened CanonicalJson
  import opened SignedRequest
  import opened BridgePolicy

  datatype Session = Session(
    bridgeId: Text, userId: Text, projectId: Text, key: Bytes,
    createdAtMs: int, expiresAtMs: int, revokedAtMs: Option<int>, permissions: Permissions)

  datatype PairingCode = PairingCode(
    code: Text, userId: Text, projectId: Text, expiresAtMs: int, usedAtMs: Option<int>)

  datatype Signed = Signed(request: Request, payload: Json, signature: Bytes)

  /** An authenticated request; its position in the list of all of them names it. */
  datatype Acceptance = Acceptance(bridgeId: Text, nonce: Text, op: Operation, payload: Json)

  datatype Note =
    | Created(code: Text, userId: Text, projectId: Text)
    | Paired(code: Text, bridgeId: Text)
    | Revoked(bridgeId: Text)
    | Accepted(q: nat)
    | Checked(q: nat, url: Text, hosts: set<Text>, verdict: Option<Text>)
    | HashRead(q: nat, path: Text, sha: Text)
    | Answered(q: nat, yes: bool)
    | Did(q: nat, effect: Effect)

  datatype Env = Env(crypto: Crypto, deps: Deps)

  datatype State = State(
    pairings: map<Text, PairingCode>,
    sessions: map<Text, Session>,
    nonces: map<Text, set<Text>>,
    accepted: seq<Acceptance>,
    waiting: map<nat, Plan>,
    trace: seq<Note>)

  const INIT := State(map[], map[], map[], [], map[], [])

  /** What a caller of `pair` or `handle` learns when the step returns. */
  datatype Reply =
    | Rejected(reason: Reason)
    | Crashed
    | Suspended
    | Performed(effect: Effect)

  // ----- pairing -----

  function CreateCode(s: State, code: Text, userId: Text, projectId: Text, ttlMs: int, now: int): State {
    s.(pairings := s.pairings[code := PairingCode(code, userId, projectId, now + ttlMs, None)],
       trace := s.trace + [Created(code, userId, projectId)])
  }

  function PairFailure(s: State, code: Text, now: int): Option<Reason> {
    if code !in s.pairings then Some(PairingUnknown)
    else if s.pairings[code].usedAtMs.Some? then Some(PairingUsed)
    else if now > s.pairings[code].expiresAtMs then Some(PairingExpired)
    else None
  }

  function NewSession(p: PairingCode, perms: Permissions, ttlMs: int, bridgeId: Text, key: Bytes, now: int): Session {
    Session(bridgeId, p.userId, p.projectId, key, now, now + ttlMs, None, perms)
  }

  function Pair(s: State, code: Text, perms: Permissions, ttlMs: int, bridgeId: Text, key: Bytes, now: int): State {
    if PairFailure(s, code, now).Some? then s else
      var p := s.pairings[code];
      s.(pairings := s.pairings[code := p.(usedAtMs := Some(now))],
         sessions := s.sessions[bridgeId := NewSession(p, perms, ttlMs, bridgeId, key, now)],
         nonces := s.nonces[bridgeId := {}],
         trace := s.trace + [Paired(code, bridgeId)])
  }

  function Revoke(s: State, bridgeId: Text, now: int): State {
    if bridgeId !in s.sessions then s else
      s.(sessions := s.sessions[bridgeId := s.sessions[bridgeId].(revokedAtMs := Some(now))],
         trace := s.trace + [Revoked(bridgeId)])
  }

  // ----- authentication -----

  predicate SchemaOk(r: Request) {
    && r.protocolVersion == Ascii("contextlock.bridge/v1")
    && |r.requestId| >= 8 && |r.bridgeId| >= 8 && |r.userId| >= 1 && |r.projectId| >= 1
    && |r.operationType| >= 1
    && |r.payloadHash| == 71 && Ascii("sha256:") <= r.payloadHash && IsSha256Hex(r.payloadHash[7..])
    && r.issuedAtMs > 0 && r.expiresAtMs > 0
    && |r.nonce| >= 16
  }

  /** The first check that fails, in the order in which they are made. */
  function AuthFailure(c: Crypto, s: State, now: int, m: Signed): Option<Reason> {
    var r := m.request;
    if !SchemaOk(r) then Some(BadSignature)
    else if r.bridgeId !in s.sessions then Some(WrongBridge)
    else
      var session := s.sessions[r.bridgeId];
      if session.revokedAtMs.Some? then Some(SessionRevoked)
      else if now > session.expiresAtMs then Some(NoSession)
      else if !VerifySignature(c, r, session.key, m.signature) then Some(BadSignature)
      else if r.userId != session.userId then Some(WrongUser)
      else if r.projectId != session.projectId then Some(WrongProject)
      else if now > r.expiresAtMs then Some(Expired)
      else if r.issuedAtMs > now + 30000 then Some(NotYetValid)
      else if PayloadHash(c, m.payload) != r.payloadHash then Some(PayloadMutated)
      else if r.bridgeId in s.nonces && r.nonce in s.nonces[r.bridgeId] then Some(Replay)
      else None
  }

  function RequestFailure(c: Crypto, s: State, now: int, m: Signed): Option<Reason> {
    if IsForbidden(m.request.operationType) then Some(OperationNotAvailable)
    else if OperationOf(m.request.operationType).None? then Some(UnknownOperation)
    else AuthFailure(c, s, now, m)
  }

  function AcceptanceOf(m: Signed): Acceptance
    requires OperationOf(m.request.operationType).Some?
  {
    Acceptance(m.request.bridgeId, m.request.nonce, OperationOf(m.request.operationType).value, m.payload)
  }

  /** The state once a request is accepted: its nonce is spent, whatever is decided next. */
  function Accept(s: State, a: Acceptance): State {
    var seen := if a.bridgeId in s.nonces then s.nonces[a.bridgeId] else {};
    s.(nonces := s.nonces[a.bridgeId := seen + {a.nonce}],
       accepted := s.accepted + [a],
       trace := s.trace + [Accepted(|s.accepted|)])
  }

  // ----- handlers -----

  function PlanOf(deps: Deps, s: State, a: Acceptance): Plan {
    if a.bridgeId !in s.sessions then Fails else
      var session := s.sessions[a.bridgeId];
      Decide(session.permissions, deps, session.projectId, a.op, a.payload)
  }

  predicate IsSuspension(plan: Plan) {
    plan.CheckUrl? || plan.ReadHash? || plan.Ask?
  }

  /** Carries out the next move of handler `q`. */
  function Follow(s: State, q: nat, plan: Plan): State {
    match plan
    case Refuse(_) => s
    case Fails => s
    case Act(e) => s.(trace := s.trace + [Did(q, e)])
    case _ => s.(waiting := s.waiting[q := plan])
  }

  function ReplyOf(plan: Plan): Reply {
    match plan
    case Refuse(reason) => Rejected(reason)
    case Fails => Crashed
    case Act(e) => Performed(e)
    case _ => Suspended
  }

  function Handle(env: Env, s: State, now: int, m: Signed): State {
    if RequestFailure(env.crypto, s, now, m).Some? then s else
      var a := AcceptanceOf(m);
      Follow(Accept(s, a), |s.accepted|, PlanOf(env.deps, s, a))
  }

  function Woken(s: State, q: nat): State {
    s.(waiting := s.waiting - {q})
  }

  /** The hosts that the URL check of handler `q` was given. */
  function HostsOf(s: State, q: nat): set<Text> {
    if q < |s.accepted| && s.accepted[q].bridgeId in s.sessions
    then s.sessions[s.accepted[q].bridgeId].permissions.allowedHosts else {}
  }

  function UrlChecked(env: Env, s: State, q: nat, verdict: Option<Text>): State {
    if q !in s.waiting || !s.waiting[q].CheckUrl? then s else
      var w := s.waiting[q];
      var t := Woken(s, q);
      Follow(t.(trace := t.trace + [Checked(q, w.url, HostsOf(s, q), verdict)]), q,
             AfterUrl(env.deps, verdict, w.credentialRef, w.operationId))
  }

  function HashFinished(s: State, q: nat, sha: Text): State {
    if q !in s.waiting || !s.waiting[q].ReadHash? then s else
      var w := s.waiting[q];
      var t := Woken(s, q);
      Follow(t.(trace := t.trace + [HashRead(q, w.wasmPath, sha)]), q,
             AfterHash(sha, w.workflow, w.wasmPath, w.registry, w.approved))
  }

  function HumanAnswered(env: Env, s: State, q: nat, yes: bool): State {
    if q !in s.waiting || !s.waiting[q].Ask? then s else
      var w := s.waiting[q];
      var t := Woken(s, q);
      Follow(t.(trace := t.trace + [Answered(q, yes)]), q, AfterHuman(env.deps, yes, w.actionType, w.digestInput))
  }

  // ----- runs -----

  datatype Event =
    | DoCreateCode(code: Text, userId: Text, projectId: Text, ttlMs: int, now: int)
    | DoPair(code: Text, perms: Permissions, ttlMs: int, bridgeId: Text, key: Bytes, now: int)
    | DoRevoke(bridgeId: Text, now: int)
    | DoHandle(signed: Signed, now: int)
    | DoUrlChecked(q: nat, egress: (Text, set<Text>) -> Option<Text>)
    | DoHashFinished(q: nat, sha: Text)
    | DoHumanAnswered(q: nat, yes: bool)
    | DoRejected(q: nat)

  function Step(env: Env, s: State, e: Event): State {
    match e
    case DoCreateCode(code, userId, projectId, ttlMs, now) => CreateCode(s, code, userId, projectId, ttlMs, now)
    case DoPair(code, perms, ttlMs, bridgeId, key, now) => Pair(s, code, perms, ttlMs, bridgeId, key, now)
    case DoRevoke(bridgeId, now) => Revoke(s, bridgeId, now)
    case DoHandle(m, now) => Handle(env, s, now, m)
    case DoUrlChecked(q, egress) =>
      UrlChecked(env, s, q, if q in s.waiting && s.waiting[q].CheckUrl? then egress(s.waiting[q].url, HostsOf(s, q))
                            else None)
    case DoHashFinished(q, sha) => HashFinished(s, q, sha)
    case DoHumanAnswered(q, yes) => HumanAnswered(env, s, q, yes)
    case DoRejected(q) => Woken(s, q)
  }

  function Run(env: Env, es: seq<Event>): State {
    if es == [] then INIT else Step(env, Run(env, es[..|es| - 1]), es[|es| - 1])
  }

  /** Pairing codes and bridge ids are drawn at random; a run draws each once. */
  predicate Fresh(s: State, e: Event) {
    && (e.DoCreateCode? ==> e.code !in s.pairings)
    && (e.DoPair? ==> e.bridgeId !in s.sessions)
  }

  predicate FreshRun(env: Env, es: seq<Event>) {
    es == [] || (FreshRun(env, es[..|es| - 1]) && Fresh(Run(env, es[..|es| - 1]), es[|es| - 1]))
  }

  // ----- accounting for effects -----

  ghost predicate Happened(trace: seq<Note>, lo: int, hi: int, n: Note) {
    exists k :: 0 <= k < |trace| && lo < k < hi && trace[k] == n
  }

  /** Effect `e` of request `q`, accepted at `i` and performed at `j`, is the one its payload names, and
      one that the session permits for that operation, after the observation or the answer it needs. */
  ghost predicate Justified(p: Permissions, a: Acceptance, q: nat, e: Effect, trace: seq<Note>, i: int, j: int) {
    && a.op in p.allowedOperations && Named(a.payload, e)
    && match e
       case ApiCall(url, c, o) =>
         && a.op == PerformApiRequest && c in p.allowedCredentialRefs && o in p.allowedApiOperationIds
         && exists asked :: Happened(trace, i, j, Checked(q, asked, p.allowedHosts, Some(url)))
                            && Read(a.payload, "url", []) == Some(asked)
       case RunWorkflow(w, _) => a.op == SimulateWorkflow && w in p.allowedCreWorkflows
       case ReadStatus => a.op == CreStatus
       case Build(w) => a.op == BuildWorkflow && w in p.allowedCreWorkflows
       case Deploy(w, path, registry) =>
         && a.op == DeployWorkflow && w in p.allowedCreWorkflows
         && !(Ascii("onchain:") <= registry)
         && exists sha :: Happened(trace, i, j, HashRead(q, path, sha))
                          && Read(a.payload, "approvedWasmSha256", []) == Some(sha) && IsSha256Hex(sha)
       case Lifecycle(w, action) =>
         a.op == WorkflowLifecycle && w in p.allowedCreWorkflows && IsLifecycleAction(action)
       case LedgerApprove(t, _) =>
         && (a.op == ApproveContextLockAction || a.op == PerformProtectedBrokerAction)
         && t in p.allowedLedgerActionTypes
         && (NeedsHuman(p, a.payload) ==> Happened(trace, i, j, Answered(q, true)))
  }

  /** The effect recorded at `j` belongs to one earlier accepted request, of a session that was live when it was
      accepted. */
  ghost predicate Accounted(env: Env, s: State, j: nat)
    requires j < |s.trace| && s.trace[j].Did?
  {
    var q := s.trace[j].q;
    && q < |s.accepted| && s.accepted[q].bridgeId in s.sessions
    && s.sessions[s.accepted[q].bridgeId].projectId in s.sessions[s.accepted[q].bridgeId].permissions.allowedProjects
    && exists i :: 0 <= i < j && s.trace[i] == Accepted(q)
         && Justified(s.sessions[s.accepted[q].bridgeId].permissions, s.accepted[q], q, s.trace[j].effect, s.trace,
                      i, j)
  }

  predicate NotDone(s: State, q: nat) {
    forall j | 0 <= j < |s.trace| && s.trace[j].Did? :: s.trace[j].q != q
  }

  ghost predicate WaitingOk(env: Env, s: State, q: nat)
    requires q in s.waiting
  {
    && q < |s.accepted| && s.accepted[q].bridgeId in s.sessions
    && s.waiting[q] == PlanOf(env.deps, s, s.accepted[q])
    && IsSuspension(s.waiting[q])
    && NotDone(s, q)
  }

  ghost predicate Keyed(s: State) {
    && s.sessions.Keys == s.nonces.Keys
    && forall q | 0 <= q < |s.accepted| ::
         s.accepted[q].bridgeId in s.nonces && s.accepted[q].nonce in s.nonces[s.accepted[q].bridgeId]
  }

  predicate DistinctRequests(acc: seq<Acceptance>) {
    forall q, r | 0 <= q < r < |acc| :: acc[q].bridgeId != acc[r].bridgeId || acc[q].nonce != acc[r].nonce
  }

  predicate AllNoted(s: State) {
    forall q: nat | q < |s.accepted| :: Accepted(q) in s.trace
  }

  ghost predicate AllWaitingOk(env: Env, s: State) {
    forall q | q in s.waiting :: WaitingOk(env, s, q)
  }

  ghost predicate AllAccounted(env: Env, s: State) {
    forall j | 0 <= j < |s.trace| && s.trace[j].Did? :: Accounted(env, s, j)
  }

  predicate OncePerRequest(trace: seq<Note>) {
    forall i, j | 0 <= i < j < |trace| && trace[i].Did? && trace[j].Did? :: trace[i].q != trace[j].q
  }

  /** Everything that every run keeps about requests and their effects. */
  ghost predicate Inv(env: Env, s: State) {
    && Keyed(s) && DistinctRequests(s.accepted) && AllNoted(s)
    && AllWaitingOk(env, s) && AllAccounted(env, s) && OncePerRequest(s.trace)
  }

  /** `t` is a later state: nothing recorded is lost, and a session keeps who it is for. */
  ghost predicate Later(s: State, t: State) {
    && s.accepted <= t.accepted
    && s.trace <= t.trace
    && (forall b | b in s.sessions ::
          && b in t.sessions
          && t.sessions[b].permissions == s.sessions[b].permissions
          && t.sessions[b].projectId == s.sessions[b].projectId
          && t.sessions[b].userId == s.sessions[b].userId
          && t.sessions[b].key == s.sessions[b].key)
    && (forall b | b in s.nonces :: b in t.nonces && s.nonces[b] <= t.nonces[b])
  }

  lemma AccountedLater(env: Env, s: State, t: State, j: nat)
    requires Later(s, t)
    requires j < |s.trace| && s.trace[j].Did? && Accounted(env, s, j)
    ensures Accounted(env, t, j)
  {
    var q := s.trace[j].q;
    var p, a := s.sessions[s.accepted[q].bridgeId].permissions, s.accepted[q];
    var i :| 0 <= i < j && s.trace[i] == Accepted(q) && Justified(p, a, q, s.trace[j].effect, s.trace, i, j);
    assert t.trace[i] == Accepted(q) && t.accepted[q] == a && t.trace[j] == s.trace[j];
    forall n | Happened(s.trace, i, j, n) ensures Happened(t.trace, i, j, n) {
      var k :| 0 <= k < |s.trace| && i < k < j && s.trace[k] == n;
      assert t.trace[k] == n;
    }
    assert Justified(p, a, q, t.trace[j].effect, t.trace, i, j);
  }

  predicate NoEffects(notes: seq<Note>) {
    forall k | 0 <= k < |notes| :: !notes[k].Did?
  }

  lemma OnceQuiet(trace: seq<Note>, notes: seq<Note>)
    requires OncePerRequest(trace) && NoEffects(notes)
    ensures OncePerRequest(trace + notes)
  {
  }

  lemma NotDoneQuiet(s: State, t: State, notes: seq<Note>, q: nat)
    requires t.trace == s.trace + notes && NoEffects(notes) && NotDone(s, q)
    ensures NotDone(t, q)
  {
  }

  lemma WaitingLater(env: Env, s: State, t: State, q: nat)
    requires Later(s, t) && q in s.waiting && WaitingOk(env, s, q)
    requires q in t.waiting && t.waiting[q] == s.waiting[q] && NotDone(t, q)
    ensures WaitingOk(env, t, q)
  {
  }

  /** A step that performs no effect keeps the invariant, given what it adds. */
  lemma InvQuiet(env: Env, s: State, t: State, notes: seq<Note>)
    requires Inv(env, s) && Later(s, t)
    requires t.trace == s.trace + notes && NoEffects(notes)
    requires t.accepted == s.accepted && t.sessions.Keys == t.nonces.Keys
    requires forall q | q in t.waiting :: q in s.waiting && t.waiting[q] == s.waiting[q]
    ensures Inv(env, t)
  {
    AllAccountedLater(env, s, t, notes);
    AcceptedLater(s, t);
    OnceQuiet(s.trace, notes);
    assert Keyed(t);
    forall q | q in t.waiting ensures WaitingOk(env, t, q) {
      NotDoneQuiet(s, t, notes, q);
      WaitingLater(env, s, t, q);
    }
  }

  lemma AcceptedLater(s: State, t: State)
    requires s.trace <= t.trace && AllNoted(s)
    ensures forall q: nat | q < |s.accepted| :: Accepted(q) in t.trace
  {
    forall q: nat | q < |s.accepted| ensures Accepted(q) in t.trace {
      assert Accepted(q) in s.trace;
      var i :| 0 <= i < |s.trace| && s.trace[i] == Accepted(q);
      assert t.trace[i] == Accepted(q);
    }
  }

  lemma AllAccountedLater(env: Env, s: State, t: State, notes: seq<Note>)
    requires Later(s, t) && AllAccounted(env, s)
    requires t.trace == s.trace + notes && NoEffects(notes)
    ensures AllAccounted(env, t) && forall q: nat | q >= |s.accepted| :: NotDone(t, q)
  {
    forall j | 0 <= j < |t.trace| && t.trace[j].Did? ensures Accounted(env, t, j) && t.trace[j].q < |s.accepted| {
      assert j < |s.trace| && t.trace[j] == s.trace[j] && Accounted(env, s, j);
      AccountedLater(env, s, t, j);
    }
  }

  lemma AcceptLater(s: State, a: Acceptance)
    requires Keyed(s) && a.bridgeId in s.sessions
    ensures Later(s, Accept(s, a)) && Keyed(Accept(s, a))
    ensures Accepted(|s.accepted|) in Accept(s, a).trace
  {
    var t := Accept(s, a);
    assert t.trace[|s.trace|] == Accepted(|s.accepted|);
    forall q | 0 <= q < |t.accepted|
      ensures t.accepted[q].bridgeId in t.nonces && t.accepted[q].nonce in t.nonces[t.accepted[q].bridgeId]
    {
      if q < |s.accepted| { assert t.accepted[q] == s.accepted[q]; }
    }
  }

  lemma AcceptDistinct(s: State, a: Acceptance)
    requires Keyed(s) && DistinctRequests(s.accepted)
    requires a.bridgeId in s.nonces && a.nonce !in s.nonces[a.bridgeId]
    ensures DistinctRequests(s.accepted + [a])
  {
    var acc := s.accepted + [a];
    forall q, r | 0 <= q < r < |acc| ensures acc[q].bridgeId != acc[r].bridgeId || acc[q].nonce != acc[r].nonce {
      assert acc[q] == s.accepted[q];
      if r < |s.accepted| { assert acc[r] == s.accepted[r]; }
    }
  }

  lemma InvAccept(env: Env, s: State, a: Acceptance)
    requires Inv(env, s)
    requires a.bridgeId in s.sessions && a.nonce !in s.nonces[a.bridgeId]
    ensures Inv(env, Accept(s, a)) && Later(s, Accept(s, a))
    ensures NotDone(Accept(s, a), |s.accepted|) && |s.accepted| !in Accept(s, a).waiting
  {
    var t, n := Accept(s, a), Accepted(|s.accepted|);
    AcceptLater(s, a);
    AcceptedLater(s, t);
    AllAccountedLater(env, s, t, [n]);
    AcceptDistinct(s, a);
    OnceQuiet(s.trace, [n]);
    forall q | q in t.waiting ensures WaitingOk(env, t, q) && q != |s.accepted| {
      assert WaitingOk(env, s, q);
      NotDoneQuiet(s, t, [n], q);
      WaitingLater(env, s, t, q);
    }
  }

  /** What a handler's next move must satisfy before it is carried out. */
  ghost predicate MoveOk(env: Env, s: State, q: nat, plan: Plan) {
    && q < |s.accepted| && s.accepted[q].bridgeId in s.sessions
    && q !in s.waiting && NotDone(s, q)
    && var session := s.sessions[s.accepted[q].bridgeId];
       && (IsSuspension(plan) ==> plan == PlanOf(env.deps, s, s.accepted[q]))
       && (plan.Act? ==>
             && session.projectId in session.permissions.allowedProjects
             && exists i :: 0 <= i < |s.trace| && s.trace[i] == Accepted(q)
                  && Justified(session.permissions, s.accepted[q], q, plan.effect, s.trace, i, |s.trace|))
  }

  lemma InvFollow(env: Env, s: State, q: nat, plan: Plan)
    requires Inv(env, s) && MoveOk(env, s, q, plan)
    ensures Inv(env, Follow(s, q, plan)) && Later(s, Follow(s, q, plan))
  {
    if plan.Act? {
      ActAccounted(env, s, q, plan.effect);
      InvAct(env, s, q, plan.effect);
    } else if IsSuspension(plan) {
      InvSuspend(env, s, q, plan);
    }
  }

  lemma InvSuspend(env: Env, s: State, q: nat, plan: Plan)
    requires Inv(env, s) && MoveOk(env, s, q, plan) && IsSuspension(plan)
    ensures Inv(env, Follow(s, q, plan))
  {
    var t := Follow(s, q, plan);
    assert t.trace == s.trace + [];
    AllAccountedLater(env, s, t, []);
    forall k | k in t.waiting ensures WaitingOk(env, t, k) {
      if k != q { WaitingLater(env, s, t, k); }
    }
  }

  /** The effect just performed is accounted for. */
  lemma ActAccounted(env: Env, s: State, q: nat, e: Effect)
    requires MoveOk(env, s, q, Act(e))
    ensures Accounted(env, Follow(s, q, Act(e)), |s.trace|)
  {
    var t := Follow(s, q, Act(e));
    var n := |s.trace|;
    var p, a := s.sessions[s.accepted[q].bridgeId].permissions, s.accepted[q];
    var i :| 0 <= i < n && s.trace[i] == Accepted(q) && Justified(p, a, q, e, s.trace, i, n);
    forall m | Happened(s.trace, i, n, m) ensures Happened(t.trace, i, n, m) {
      var k :| 0 <= k < |s.trace| && i < k < n && s.trace[k] == m;
      assert t.trace[k] == m;
    }
    assert t.trace[n] == Did(q, e) && t.trace[i] == Accepted(q);
    assert Justified(p, a, q, e, t.trace, i, n);
  }

  lemma OnceMore(s: State, q: nat, e: Effect)
    requires OncePerRequest(s.trace) && NotDone(s, q)
    ensures OncePerRequest(s.trace + [Did(q, e)])
  {
  }

  lemma AllAccountedMore(env: Env, s: State, t: State)
    requires Later(s, t) && AllAccounted(env, s) && |t.trace| == |s.trace| + 1
    requires t.trace[|s.trace|].Did? && Accounted(env, t, |s.trace|)
    ensures AllAccounted(env, t)
  {
    forall j | 0 <= j < |t.trace| && t.trace[j].Did? ensures Accounted(env, t, j) {
      if j < |s.trace| {
        assert t.trace[j] == s.trace[j];
        AccountedLater(env, s, t, j);
      }
    }
  }

  lemma ActLater(s: State, t: State, q: nat, e: Effect)
    requires Keyed(s) && AllNoted(s) && t == s.(trace := s.trace + [Did(q, e)])
    ensures Later(s, t) && Keyed(t) && AllNoted(t)
  {
    assert Later(s, t);
    AcceptedLater(s, t);
  }

  lemma InvAct(env: Env, s: State, q: nat, e: Effect)
    requires Inv(env, s) && q !in s.waiting && NotDone(s, q)
    requires Accounted(env, Follow(s, q, Act(e)), |s.trace|)
    ensures Inv(env, Follow(s, q, Act(e)))
  {
    var t := Follow(s, q, Act(e));
    ActLater(s, t, q, e);
    OnceMore(s, q, e);
    AllAccountedMore(env, s, t);
    AllWaitingMore(env, s, t, q, e);
  }

  lemma AllWaitingMore(env: Env, s: State, t: State, q: nat, e: Effect)
    requires Later(s, t) && AllWaitingOk(env, s)
    requires t.waiting == s.waiting && t.trace == s.trace + [Did(q, e)] && q !in s.waiting
    ensures AllWaitingOk(env, t)
  {
    forall k | k in t.waiting ensures WaitingOk(env, t, k) {
      assert WaitingOk(env, s, k) && NotDone(t, k);
      WaitingLater(env, s, t, k);
    }
  }

  // ----- each step -----

  /** A decision taken at once, or after no observation is needed. */
  lemma DecidedMove(env: Env, s: State, q: nat, plan: Plan)
    requires q < |s.accepted| && s.accepted[q].bridgeId in s.sessions
    requires Accepted(q) in s.trace
    requires q !in s.waiting && NotDone(s, q)
    requires plan == PlanOf(env.deps, s, s.accepted[q])
    ensures MoveOk(env, s, q, plan)
  {
    if plan.Act? {
      var session := s.sessions[s.accepted[q].bridgeId];
      var i :| 0 <= i < |s.trace| && s.trace[i] == Accepted(q);
      assert Justified(session.permissions, s.accepted[q], q, plan.effect, s.trace, i, |s.trace|);
    }
  }

  lemma InvHandle(env: Env, s: State, now: int, m: Signed)
    requires Inv(env, s)
    ensures Inv(env, Handle(env, s, now, m)) && Later(s, Handle(env, s, now, m))
  {
    if RequestFailure(env.crypto, s, now, m).None? {
      var a := AcceptanceOf(m);
      var t := Accept(s, a);
      InvAccept(env, s, a);
      assert t.accepted[|s.accepted|] == a;
      DecidedMove(env, t, |s.accepted|, PlanOf(env.deps, s, a));
      InvFollow(env, t, |s.accepted|, PlanOf(env.deps, s, a));
    }
  }

  /** The answer that lets a suspended handler act. */
  predicate LetsAct(p: Permissions, w: Plan, e: Effect, q: nat, note: Note) {
    match w
    case CheckUrl(u, c, o) =>
      e.ApiCall? && e.credentialRef == c && e.operationId == o && note == Checked(q, u, p.allowedHosts, Some(e.url))
    case ReadHash(w, path, registry, approved) => e == Deploy(w, path, registry) && note == HashRead(q, path, approved)
    case Ask(_, actionType, d) => e == LedgerApprove(actionType, d) && note == Answered(q, true)
    case _ => false
  }

  lemma ResumedJustified(p: Permissions, a: Acceptance, w: Plan, e: Effect, q: nat, trace: seq<Note>, note: Note,
                         i: nat)
    requires a.op in p.allowedOperations && Grounds(p, a.op, a.payload, w) && LetsAct(p, w, e, q, note)
    requires i < |trace|
    ensures Justified(p, a, q, e, trace + [note], i, |trace| + 1)
  {
    assert (trace + [note])[|trace|] == note;
    assert Happened(trace + [note], i, |trace| + 1, note);
  }

  /** The grounds on which handler `q` was suspended still hold when it resumes. */
  lemma ResumedMove(env: Env, s: State, t: State, q: nat, note: Note, plan: Plan)
    requires Inv(env, s) && q in s.waiting && q !in t.waiting && NotDone(t, q)
    requires t.accepted == s.accepted && t.sessions == s.sessions && t.trace == s.trace + [note]
    requires plan.Act? || plan.Refuse?
    requires plan.Act? && q < |s.accepted| && s.accepted[q].bridgeId in s.sessions ==>
               LetsAct(s.sessions[s.accepted[q].bridgeId].permissions, s.waiting[q], plan.effect, q, note)
    ensures MoveOk(env, t, q, plan)
  {
    assert WaitingOk(env, s, q);
    if plan.Act? {
      var a := s.accepted[q];
      var session := s.sessions[a.bridgeId];
      SuspensionGrounds(session.permissions, env.deps, session.projectId, a.op, a.payload);
      assert Accepted(q) in s.trace;
      var i :| 0 <= i < |s.trace| && s.trace[i] == Accepted(q);
      assert t.trace[i] == Accepted(q);
      ResumedJustified(session.permissions, a, s.waiting[q], plan.effect, q, s.trace, note, i);
    }
  }

  lemma InvNoted(env: Env, s: State, q: nat, notes: seq<Note>)
    requires Inv(env, s) && q in s.waiting && NoEffects(notes)
    ensures var t := Woken(s, q).(trace := s.trace + notes);
            Inv(env, t) && Later(s, t) && NotDone(t, q) && q !in t.waiting
  {
    var t := Woken(s, q).(trace := s.trace + notes);
    assert WaitingOk(env, s, q);
    NotDoneQuiet(s, t, notes, q);
    InvQuiet(env, s, t, notes);
  }

  lemma InvUrlChecked(env: Env, s: State, q: nat, verdict: Option<Text>)
    requires Inv(env, s)
    ensures Inv(env, UrlChecked(env, s, q, verdict)) && Later(s, UrlChecked(env, s, q, verdict))
  {
    if q in s.waiting && s.waiting[q].CheckUrl? {
      var w := s.waiting[q];
      var n := Checked(q, w.url, HostsOf(s, q), verdict);
      var t := Woken(s, q).(trace := s.trace + [n]);
      InvNoted(env, s, q, [n]);
      var plan := AfterUrl(env.deps, verdict, w.credentialRef, w.operationId);
      ResumedMove(env, s, t, q, n, plan);
      InvFollow(env, t, q, plan);
    }
  }

  lemma InvHashFinished(env: Env, s: State, q: nat, sha: Text)
    requires Inv(env, s)
    ensures Inv(env, HashFinished(s, q, sha)) && Later(s, HashFinished(s, q, sha))
  {
    if q in s.waiting && s.waiting[q].ReadHash? {
      var w := s.waiting[q];
      var t := Woken(s, q).(trace := s.trace + [HashRead(q, w.wasmPath, sha)]);
      InvNoted(env, s, q, [HashRead(q, w.wasmPath, sha)]);
      var plan := AfterHash(sha, w.workflow, w.wasmPath, w.registry, w.approved);
      ResumedMove(env, s, t, q, HashRead(q, w.wasmPath, sha), plan);
      InvFollow(env, t, q, plan);
    }
  }

  lemma InvHumanAnswered(env: Env, s: State, q: nat, yes: bool)
    requires Inv(env, s)
    ensures Inv(env, HumanAnswered(env, s, q, yes)) && Later(s, HumanAnswered(env, s, q, yes))
  {
    if q in s.waiting && s.waiting[q].Ask? {
      var w := s.waiting[q];
      var t := Woken(s, q).(trace := s.trace + [Answered(q, yes)]);
      InvNoted(env, s, q, [Answered(q, yes)]);
      var plan := AfterHuman(env.deps, yes, w.actionType, w.digestInput);
      ResumedMove(env, s, t, q, Answered(q, yes), plan);
      InvFollow(env, t, q, plan);
    }
  }

  /** What pairing, revoking and giving up write down. */
  function PairingNotes(s: State, e: Event): (notes: seq<Note>)
    ensures NoEffects(notes)
  {
    match e
    case DoCreateCode(code, userId, projectId, _, _) => [Created(code, userId, projectId)]
    case DoPair(code, _, _, bridgeId, _, now) => if PairFailure(s, code, now).Some? then []
                                                 else [Paired(code, bridgeId)]
    case DoRevoke(bridgeId, _) => if bridgeId in s.sessions then [Revoked(bridgeId)] else []
    case _ => []
  }

  lemma PairLater(s: State, code: Text, perms: Permissions, ttlMs: int, bridgeId: Text, key: Bytes, now: int)
    requires Keyed(s) && bridgeId !in s.sessions
    ensures var t := Pair(s, code, perms, ttlMs, bridgeId, key, now);
            Later(s, t) && t.sessions.Keys == t.nonces.Keys
  {
  }

  lemma RevokeLater(s: State, bridgeId: Text, now: int)
    requires Keyed(s)
    ensures Later(s, Revoke(s, bridgeId, now)) && Revoke(s, bridgeId, now).sessions.Keys == s.nonces.Keys
  {
  }

  /** Pairing, revoking and giving up perform no effect. */
  lemma InvPairing(env: Env, s: State, e: Event)
    requires Inv(env, s) && Fresh(s, e)
    requires e.DoCreateCode? || e.DoPair? || e.DoRevoke? || e.DoRejected?
    ensures Inv(env, Step(env, s, e)) && Later(s, Step(env, s, e))
  {
    match e {
      case DoPair(code, perms, ttlMs, bridgeId, key, now) => PairLater(s, code, perms, ttlMs, bridgeId, key, now);
      case DoRevoke(bridgeId, now) => RevokeLater(s, bridgeId, now);
      case _ =>
    }
    var t := Step(env, s, e);
    assert t.trace == s.trace + PairingNotes(s, e);
    InvQuiet(env, s, t, PairingNotes(s, e));
  }

  predicate IsAnswer(e: Event) {
    e.DoUrlChecked? || e.DoHashFinished? || e.DoHumanAnswered?
  }

  /** A suspended handler has its answer. */
  lemma InvAnswer(env: Env, s: State, e: Event)
    requires Inv(env, s) && IsAnswer(e)
    ensures Inv(env, Step(env, s, e)) && Later(s, Step(env, s, e))
  {
    match e {
      case DoUrlChecked(q, egress) =>
        InvUrlChecked(env, s, q,
                      if q in s.waiting && s.waiting[q].CheckUrl? then egress(s.waiting[q].url, HostsOf(s, q))
                      else None);
      case DoHashFinished(q, sha) => InvHashFinished(env, s, q, sha);
      case DoHumanAnswered(q, yes) => InvHumanAnswered(env, s, q, yes);
    }
  }

  /** One step keeps the invariant and loses nothing that was recorded. */
  lemma InvStep(env: Env, s: State, e: Event)
    requires Inv(env, s) && Fresh(s, e)
    ensures Inv(env, Step(env, s, e)) && Later(s, Step(env, s, e))
  {
    if IsAnswer(e) {
      InvAnswer(env, s, e);
    } else if e.DoHandle? {
      InvHandle(env, s, e.now, e.signed);
    } else {
      InvPairing(env, s, e);
    }
  }

  lemma {:induction false} InvRun(env: Env, es: seq<Event>)
    requires FreshRun(env, es)
    ensures Inv(env, Run(env, es))
  {
    if es != [] {
      InvRun(env, es[..|es| - 1]);
      InvStep(env, Run(env, es[..|es| - 1]), es[|es| - 1]);
    }
  }

  // ----- main results -----

  /** Over every interleaving: each effect belongs to an earlier accepted request of a session that
      permits it, no request causes its effect twice, and no two accepted requests share a bridge
      and a nonce. A deploy follows a hash observation equal to the approved hash, and a Ledger
      approval above the ceiling follows a human yes. */
  lemma EffectsAccounted(env: Env, es: seq<Event>)
    requires FreshRun(env, es)
    ensures var s := Run(env, es);
            AllAccounted(env, s) && OncePerRequest(s.trace) && DistinctRequests(s.accepted)
  {
    InvRun(env, es);
  }

  lemma {:induction false} FreshPrefix(env: Env, es: seq<Event>, k: nat)
    requires FreshRun(env, es) && k <= |es|
    ensures FreshRun(env, es[..k])
  {
    if k == |es| {
      assert es[..k] == es;
    } else {
      FreshPrefix(env, es[..|es| - 1], k);
      assert es[..|es| - 1][..k] == es[..k];
    }
  }

  /** Sessions and nonce sets have the same keys at every moment, and between any two moments
      nonce sets only grow, sessions keep their owner, key and permissions, and nothing recorded is lost. */
  lemma {:induction false} StateOnlyGrows(env: Env, es: seq<Event>, k: nat)
    requires FreshRun(env, es) && k <= |es|
    ensures Run(env, es).sessions.Keys == Run(env, es).nonces.Keys
    ensures Later(Run(env, es[..k]), Run(env, es))
  {
    InvRun(env, es);
    if k == |es| {
      assert es[..k] == es;
    } else {
      var init := es[..|es| - 1];
      StateOnlyGrows(env, init, k);
      assert init[..k] == es[..k];
      InvRun(env, init);
      InvStep(env, Run(env, init), es[|es| - 1]);
    }
  }

  /** A session paired with DENY_ALL produces no effect in any run. */
  lemma DenyAllDoesNothing(env: Env, es: seq<Event>, j: nat)
    requires FreshRun(env, es)
    requires j < |Run(env, es).trace| && Run(env, es).trace[j].Did?
    ensures var s := Run(env, es);
            var q := s.trace[j].q;
            q < |s.accepted| && s.accepted[q].bridgeId in s.sessions
            && s.sessions[s.accepted[q].bridgeId].permissions != DENY_ALL
  {
    InvRun(env, es);
    assert Accounted(env, Run(env, es), j);
  }

  lemma AcceptedIsSigned(c: Crypto, s: State, now: int, m: Signed)
    requires RequestFailure(c, s, now, m).None?
    ensures var r := m.request;
            r.bridgeId in s.sessions && VerifySignature(c, r, s.sessions[r.bridgeId].key, m.signature)
  {
  }

  lemma FollowKeeps(s: State, q: nat, plan: Plan)
    ensures Follow(s, q, plan).nonces == s.nonces && Follow(s, q, plan).sessions == s.sessions
  {
  }

  lemma AcceptedSpendsNonce(env: Env, s: State, now: int, m: Signed)
    requires RequestFailure(env.crypto, s, now, m).None?
    ensures var t, r := Handle(env, s, now, m), m.request;
            && t.sessions == s.sessions && r.bridgeId in t.nonces && r.nonce in t.nonces[r.bridgeId]
  {
    var a := AcceptanceOf(m);
    FollowKeeps(Accept(s, a), |s.accepted|, PlanOf(env.deps, s, a));
  }

  lemma SeenIsRefused(c: Crypto, s: State, now: int, m: Signed, n: Signed, key: Bytes)
    requires MacInjective(c) && VerifySignature(c, m.request, key, m.signature)
    requires n.signature == m.signature && n.request.bridgeId == m.request.bridgeId
    requires var b := m.request.bridgeId;
             b in s.sessions && s.sessions[b].key == key && b in s.nonces && m.request.nonce in s.nonces[b]
    ensures RequestFailure(c, s, now, n).Some?
  {
    if VerifySignature(c, n.request, key, n.signature) {
      OneSignatureOneRequest(c, key, m.signature, m.request, n.request);
    }
  }

  /** A captured message is worth nothing: over any run, once a signature has been accepted by a session,
      no message that carries it is accepted by that session again, whatever it claims. */
  lemma SignatureAcceptedOnce(env: Env, es: seq<Event>, i: nat, j: nat)
    requires FreshRun(env, es) && MacInjective(env.crypto)
    requires i < j < |es| && es[i].DoHandle? && es[j].DoHandle?
    requires es[i].signed.signature == es[j].signed.signature
    requires es[i].signed.request.bridgeId == es[j].signed.request.bridgeId
    requires RequestFailure(env.crypto, Run(env, es[..i]), es[i].now, es[i].signed).None?
    ensures RequestFailure(env.crypto, Run(env, es[..j]), es[j].now, es[j].signed).Some?
  {
    FreshPrefix(env, es, j);
    StateOnlyGrows(env, es[..j], i + 1);
    assert es[..j][..i + 1] == es[..i + 1] && es[..i + 1][..i] == es[..i];
    AcceptedIsSigned(env.crypto, Run(env, es[..i]), es[i].now, es[i].signed);
    AcceptedSpendsNonce(env, Run(env, es[..i]), es[i].now, es[i].signed);
    assert Run(env, es[..i + 1]) == Handle(env, Run(env, es[..i]), es[i].now, es[i].signed);
    var b := es[i].signed.request.bridgeId;
    SeenIsRefused(env.crypto, Run(env, es[..j]), es[j].now, es[i].signed, es[j].signed,
                  Run(env, es[..i]).sessions[b].key);
  }
}
