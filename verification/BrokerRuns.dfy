/** Issuing capabilities: one handler per request, suspended at three `await`s, interleaved with
    every other in any order. */
module BrokerRuns {
  import opened Texts
  import opened RequestStates

  datatype PublicPolicy = PublicPolicy(
    policyHash: Text,
    enabled: bool,
    allowedActionKinds: set<Text>,
    allowedTargets: set<Text>,
    maxValueHardCap: int,
    target: Text)

  datatype Transaction = Transaction(target: Text, value: int, calldata: Text, calldataHash: Text, intentHash: Text,
                                     amount: int)

  /** What the typed adapter makes of an action: `Fenced` when the chain refuses writes. */
  datatype Candidate = UnknownKind | BadParameters | Fenced | Built(tx: Transaction)

  datatype CreateInput = CreateInput(
    agentEnsName: Text, actionKind: Text, adapterParams: Text, policyId: Text, idempotencyKey: Text)

  datatype Identity = Identity(ensName: Text, agent: Text, agentIdentityHash: Text, source: Text)

  datatype Verdict = Allow | Deny | Escalate

  datatype Evaluation = Evaluation(
    authorizationId: Text,
    requestHash: Text,
    verdict: Verdict,
    reasonCode: Text,
    contextCommitment: Text,
    approvedUntil: nat,
    source: Text)

  datatype Capability = Capability(
    agentIdentityHash: Text,
    agent: Text,
    chainId: nat,
    executor: Text,
    target: Text,
    value: int,
    calldataHash: Text,
    intentHash: Text,
    policyHash: Text,
    authorizationId: Text,
    contextCommitment: Text,
    issuedAt: nat,
    expiresAt: nat,
    nonce: nat)

  /** The part of a capability that its request hash covers. */
  datatype Evaluated = Evaluated(
    agentIdentityHash: Text,
    agent: Text,
    chainId: nat,
    executor: Text,
    target: Text,
    value: int,
    calldataHash: Text,
    intentHash: Text,
    policyHash: Text)

  datatype EvaluationInput = EvaluationInput(
    requestId: Text,
    requestHash: Text,
    identity: Identity,
    policyHash: Text,
    target: Text,
    value: int,
    calldata: Text,
    calldataHash: Text,
    intentHash: Text,
    actionKind: Text,
    amount: int)

  datatype Config = Config(
    chainId: nat,
    executor: Text,
    capabilityTtlSeconds: nat,
    policies: map<Text, PublicPolicy>,
    adapter: (Text, Text, Text) -> Candidate,
    structHash: Evaluated -> Text,
    digest: Capability -> Text)

  datatype Denial = PolicyDisabled | ActionDenied | InvalidParameters | WriteFenced | TargetDenied | ValueExceedsCap

  datatype Status = Pending | StatusFailed | StatusDenied | StatusEscalated | StatusAllowed

  datatype RequestRow = RequestRow(key: Text, ensName: Text, policyHash: Text, actionKind: Text, tx: Transaction,
                                   status: Status, reason: Option<Text>, identity: Option<Identity>)

  datatype AuthRow = AuthRow(
    authorizationId: Text, requestId: Text, requestHash: Text, verdict: Verdict, reasonCode: Text,
    contextCommitment: Text,
    approvedUntil: nat, source: Text)

  datatype CapRow = CapRow(digest: Text, requestId: Text, nonce: nat, issuedAt: nat, expiresAt: nat)

  datatype AuditType =
    | RequestReceived | IdempotentReplay | EnsIdentityValidated | EnsIdentityFailed | EvaluationRequested
    | AuthorizationObserved(verdict: Verdict) | AuditDenied | EscalationCreated | CapabilityMinted

  datatype AuditEntry = AuditEntry(requestId: Text, what: AuditType)

  /** Where the one call that inserted a request has got to. */
  datatype Progress =
    | Resolving
    | IdentityFailed(code: Text)
    | Evaluating(identity: Identity)
    | EvaluationThrew(identity: Identity)
    | Refused(identity: Identity, evaluation: Evaluation)
    | Signing(identity: Identity, evaluation: Evaluation, cap: Capability)
    | SigningThrew(identity: Identity, evaluation: Evaluation, cap: Capability)
    | Minted(identity: Identity, evaluation: Evaluation, cap: Capability)

  datatype Draw = Draw(requestId: Text, nonce: nat)

  datatype State = State(
    requests: map<Text, RequestRow>,
    byKey: map<Text, Text>,
    auths: seq<AuthRow>,
    caps: seq<CapRow>,
    audits: seq<AuditEntry>,
    nonceCounter: nat,
    calls: map<Text, Progress>,
    draws: seq<Draw>)

  const INIT := State(map[], map[], [], [], [], 0, map[], [])

  datatype Authorization = Authorization(authorizationId: Text, approvedUntil: nat, source: Text)

  /** What a caller is told of a request; no reason reads as PENDING, and an empty source is left out. */
  datatype Record = Record(
    requestId: Text, status: Status, reason: Option<Text>, authorization: Option<Authorization>, identitySource: Text)

  datatype Reply =
    | Suspended
    | DeniedBeforeInsert(why: Denial)
    | Threw
    | Answer(record: Record)

  // ----- up to the first await -----

  function Vetted(cfg: Config, input: CreateInput): (r: (Option<Denial>, Candidate))
    ensures r.0.None? ==> r.1.Built? && input.policyId in cfg.policies
  {
    if input.policyId !in cfg.policies || !cfg.policies[input.policyId].enabled
      then (Some(PolicyDisabled), UnknownKind) else
      var policy := cfg.policies[input.policyId];
      if input.actionKind !in policy.allowedActionKinds then (Some(ActionDenied), UnknownKind) else
        var c := cfg.adapter(input.actionKind, input.adapterParams, policy.target);
        match c
        case UnknownKind => (Some(ActionDenied), c)
        case BadParameters => (Some(InvalidParameters), c)
        case Fenced => (Some(WriteFenced), c)
        case Built(tx) =>
          if tx.target !in policy.allowedTargets then (Some(TargetDenied), c)
          else if tx.value > policy.maxValueHardCap then (Some(ValueExceedsCap), c)
          else (None, c)
  }

  function Entries(id: Text, trail: seq<AuditType>): (r: seq<AuditEntry>)
    ensures |r| == |trail|
  {
    seq(|trail|, i requires 0 <= i < |trail| => AuditEntry(id, trail[i]))
  }

  /** One synchronous stretch of the handler of `id`: its row and its progress are replaced, and rows
      are appended to the tables. */
  function Put(s: State, id: Text, row: RequestRow, p: Progress, trail: seq<AuditType>,
               auths: seq<AuthRow>, caps: seq<CapRow>): State
  {
    s.(requests := s.requests[id := row], calls := s.calls[id := p],
       audits := s.audits + Entries(id, trail), auths := s.auths + auths, caps := s.caps + caps)
  }

  function Settled(row: RequestRow, status: Status, reason: Text): RequestRow {
    row.(status := status, reason := Some(reason))
  }

  function NewRow(cfg: Config, input: CreateInput): RequestRow
    requires Vetted(cfg, input).0.None?
  {
    RequestRow(input.idempotencyKey, input.agentEnsName, cfg.policies[input.policyId].policyHash, input.actionKind,
               Vetted(cfg, input).1.tx, Pending, None, None)
  }

  function Replay(s: State, id: Text): State {
    s.(audits := s.audits + [AuditEntry(id, IdempotentReplay)])
  }

  /** The lookup and the insertion are one step. */
  function Create(cfg: Config, s: State, input: CreateInput, id: Text): State {
    if input.idempotencyKey in s.byKey then Replay(s, s.byKey[input.idempotencyKey])
    else if Vetted(cfg, input).0.Some? then s
    else
      Put(s.(byKey := s.byKey[input.idempotencyKey := id]), id, NewRow(cfg, input),
          Resolving, [RequestReceived], [], [])
  }

  /** The first authorization row of a request. */
  function AuthorizationOf(auths: seq<AuthRow>, id: Text): Option<Authorization> {
    var rows := AuthsOf(auths, id);
    if rows == [] then None else Some(Authorization(rows[0].authorizationId, rows[0].approvedUntil, rows[0].source))
  }

  function AuthorizationIn(e: Evaluation): Authorization {
    Authorization(e.authorizationId, e.approvedUntil, e.source)
  }

  function SourceOf(row: RequestRow): Text {
    if row.identity.Some? then row.identity.value.source else []
  }

  function RecordOf(s: State, id: Text): Record
    requires id in s.requests
  {
    Record(id, s.requests[id].status, s.requests[id].reason, AuthorizationOf(s.auths, id), SourceOf(s.requests[id]))
  }

  function CreateReply(cfg: Config, s: State, input: CreateInput): Reply {
    if input.idempotencyKey in s.byKey then
      var id := s.byKey[input.idempotencyKey];
      if id in s.requests then Answer(RecordOf(s, id)) else Threw
    else match Vetted(cfg, input).0
         case Some(why) => DeniedBeforeInsert(why)
         case None => Suspended
  }

  // ----- after each await -----

  datatype Resolution = Resolved(identity: Identity) | NotResolved(code: Text)

  function AfterResolve(s: State, id: Text, r: Resolution): State {
    if id !in s.calls || id !in s.requests || !s.calls[id].Resolving? then s else
      var row := s.requests[id];
      match r
      case NotResolved(code) =>
        Put(s, id, Settled(row, StatusFailed, code), IdentityFailed(code), [EnsIdentityFailed], [], [])
      case Resolved(identity) =>
        Put(s, id, row.(identity := Some(identity)),
            Evaluating(identity), [EnsIdentityValidated, EvaluationRequested], [], [])
  }

  function EvaluatedOf(cfg: Config, row: RequestRow, identity: Identity): Evaluated {
    Evaluated(identity.agentIdentityHash, identity.agent, cfg.chainId, cfg.executor, row.tx.target, row.tx.value,
              row.tx.calldataHash, row.tx.intentHash, row.policyHash)
  }

  /** What the evaluator is asked about a request. */
  function AskedOf(cfg: Config, id: Text, row: RequestRow, identity: Identity): EvaluationInput {
    EvaluationInput(id, cfg.structHash(EvaluatedOf(cfg, row, identity)), identity, row.policyHash, row.tx.target,
                    row.tx.value, row.tx.calldata, row.tx.calldataHash, row.tx.intentHash, row.actionKind,
                    row.tx.amount)
  }

  predicate HasAuth(auths: seq<AuthRow>, authorizationId: Text) {
    exists i :: 0 <= i < |auths| && auths[i].authorizationId == authorizationId
  }

  predicate HasDigest(caps: seq<CapRow>, digest: Text) {
    exists i :: 0 <= i < |caps| && caps[i].digest == digest
  }

  function CapabilityOf(cfg: Config, row: RequestRow, identity: Identity, e: Evaluation, issuedAt: nat,
                        nonce: nat): Capability {
    Capability(identity.agentIdentityHash, identity.agent, cfg.chainId, cfg.executor, row.tx.target, row.tx.value,
               row.tx.calldataHash, row.tx.intentHash, row.policyHash, e.authorizationId, e.contextCommitment,
               issuedAt, issuedAt + cfg.capabilityTtlSeconds, nonce)
  }

  /** The request hash of a capability: what it was issued for, not which one it is. */
  function RequestHash(cfg: Config, cap: Capability): Text {
    cfg.structHash(Evaluated(cap.agentIdentityHash, cap.agent, cap.chainId, cap.executor, cap.target, cap.value,
                             cap.calldataHash, cap.intentHash, cap.policyHash))
  }

  function NextNonce(s: State, now: nat): nat {
    now * 1000 + s.nonceCounter + 1
  }

  function Draws(s: State, id: Text, now: nat): State {
    s.(nonceCounter := s.nonceCounter + 1, draws := s.draws + [Draw(id, NextNonce(s, now))])
  }

  function AuthRowOf(id: Text, e: Evaluation): AuthRow {
    AuthRow(e.authorizationId, id, e.requestHash, e.verdict, e.reasonCode, e.contextCommitment, e.approvedUntil,
            e.source)
  }

  /** `None` when the evaluator throws; a used authorization id makes the insertion throw. */
  function AfterEvaluate(cfg: Config, s: State, id: Text, r: Option<Evaluation>, now: nat): State {
    if id !in s.calls || id !in s.requests || !s.calls[id].Evaluating? then s else
      var identity, row := s.calls[id].identity, s.requests[id];
      if r.None? || HasAuth(s.auths, r.value.authorizationId)
        then Put(s, id, row, EvaluationThrew(identity), [], [], []) else
        var e := r.value;
        match e.verdict
        case Deny =>
          Put(s, id, Settled(row, StatusDenied, e.reasonCode), Refused(identity, e),
              [AuthorizationObserved(Deny), AuditDenied], [AuthRowOf(id, e)], [])
        case Escalate =>
          Put(s, id, Settled(row, StatusEscalated, e.reasonCode), Refused(identity, e),
              [AuthorizationObserved(Escalate), EscalationCreated], [AuthRowOf(id, e)], [])
        case Allow =>
          var cap := CapabilityOf(cfg, row, identity, e, now / 1000, NextNonce(s, now));
          Put(Draws(s, id, now), id, row,
              Signing(identity, e, cap), [AuthorizationObserved(Allow)], [AuthRowOf(id, e)], [])
  }

  function CapRowOf(cfg: Config, id: Text, cap: Capability): CapRow {
    CapRow(cfg.digest(cap), id, cap.nonce, cap.issuedAt, cap.expiresAt)
  }

  /** `ok` is false when the signer throws; a used digest makes the insertion throw. */
  function AfterSign(cfg: Config, s: State, id: Text, ok: bool): State {
    if id !in s.calls || id !in s.requests || !s.calls[id].Signing? then s else
      var c, row := s.calls[id], s.requests[id];
      if !ok || HasDigest(s.caps, cfg.digest(c.cap))
      then Put(s, id, row, SigningThrew(c.identity, c.evaluation, c.cap), [], [], [])
      else Put(s, id, Settled(row, StatusAllowed, c.evaluation.reasonCode), Minted(c.identity, c.evaluation, c.cap),
               [CapabilityMinted], [], [CapRowOf(cfg, id, c.cap)])
  }

  // ----- runs -----

  datatype Event =
    | DoCreate(input: CreateInput, id: Text)
    | DoResolve(id: Text, resolution: Resolution)
    | DoEvaluate(id: Text, evaluation: Option<Evaluation>, now: nat)
    | DoSign(id: Text, ok: bool)

  function Step(cfg: Config, s: State, e: Event): State {
    match e
    case DoCreate(input, id) => Create(cfg, s, input, id)
    case DoResolve(id, r) => AfterResolve(s, id, r)
    case DoEvaluate(id, r, now) => AfterEvaluate(cfg, s, id, r, now)
    case DoSign(id, ok) => AfterSign(cfg, s, id, ok)
  }

  function Run(cfg: Config, es: seq<Event>): State {
    if es == [] then INIT else Step(cfg, Run(cfg, es[..|es| - 1]), es[|es| - 1])
  }

  /** Request ids are drawn at random and assumed new. */
  predicate Fresh(s: State, e: Event) {
    e.DoCreate? ==> e.id !in s.requests
  }

  predicate FreshRun(cfg: Config, es: seq<Event>) {
    es != [] ==> FreshRun(cfg, es[..|es| - 1]) && Fresh(Run(cfg, es[..|es| - 1]), es[|es| - 1])
  }

  // ----- one request at a time -----

  /** What is audited about a request, replays apart. */
  function AuditsOf(audits: seq<AuditEntry>, id: Text): seq<AuditType> {
    if audits == [] then [] else
      var a := audits[|audits| - 1];
      AuditsOf(audits[..|audits| - 1], id) + (if a.requestId == id && a.what != IdempotentReplay then [a.what] else [])
  }

  function AuthsOf(auths: seq<AuthRow>, id: Text): seq<AuthRow> {
    if auths == [] then [] else
      var a := auths[|auths| - 1];
      AuthsOf(auths[..|auths| - 1], id) + (if a.requestId == id then [a] else [])
  }

  function CapsOf(caps: seq<CapRow>, id: Text): seq<CapRow> {
    if caps == [] then [] else
      var c := caps[|caps| - 1];
      CapsOf(caps[..|caps| - 1], id) + (if c.requestId == id then [c] else [])
  }

  function StatusAt(p: Progress): Status {
    match p
    case IdentityFailed(_) => StatusFailed
    case Refused(_, e) => if e.verdict == Deny then StatusDenied else StatusEscalated
    case Minted(_, _, _) => StatusAllowed
    case _ => Pending
  }

  function ReasonAt(p: Progress): Option<Text> {
    match p
    case IdentityFailed(code) => Some(code)
    case Refused(_, e) => Some(e.reasonCode)
    case Minted(_, e, _) => Some(e.reasonCode)
    case _ => None
  }

  function IdentityAt(p: Progress): Option<Identity> {
    match p
    case Resolving => None
    case IdentityFailed(_) => None
    case _ => Some(p.identity)
  }

  /** The audit trail, in order, of a request whose call has got so far. */
  function TrailAt(p: Progress): seq<AuditType> {
    var asked := [RequestReceived, EnsIdentityValidated, EvaluationRequested];
    match p
    case Resolving => [RequestReceived]
    case IdentityFailed(_) => [RequestReceived, EnsIdentityFailed]
    case Evaluating(_) => asked
    case EvaluationThrew(_) => asked
    case Refused(_, e) =>
      asked + [AuthorizationObserved(e.verdict)] + [if e.verdict == Deny then AuditDenied else EscalationCreated]
    case Signing(_, e, _) => asked + [AuthorizationObserved(e.verdict)]
    case SigningThrew(_, e, _) => asked + [AuthorizationObserved(e.verdict)]
    case Minted(_, e, _) => asked + [AuthorizationObserved(e.verdict)] + [CapabilityMinted]
  }

  function AuthsAt(id: Text, p: Progress): seq<AuthRow> {
    match p
    case Refused(_, e) => [AuthRowOf(id, e)]
    case Signing(_, e, _) => [AuthRowOf(id, e)]
    case SigningThrew(_, e, _) => [AuthRowOf(id, e)]
    case Minted(_, e, _) => [AuthRowOf(id, e)]
    case _ => []
  }

  function CapsAt(cfg: Config, id: Text, p: Progress): seq<CapRow> {
    if p.Minted? then [CapRowOf(cfg, id, p.cap)] else []
  }

  predicate HasCap(p: Progress) {
    p.Signing? || p.SigningThrew? || p.Minted?
  }

  /** Verdicts, and the capability made of them, are those of this request. */
  predicate ProgressOk(cfg: Config, row: RequestRow, p: Progress) {
    && (p.Refused? ==> p.evaluation.verdict != Allow)
    && (HasCap(p) ==>
          && p.evaluation.verdict == Allow
          && p.cap == CapabilityOf(cfg, row, p.identity, p.evaluation, p.cap.issuedAt, p.cap.nonce))
  }

  /** All that the tables hold about one request. */
  datatype View = View(row: RequestRow, progress: Progress, trail: seq<AuditType>, auths: seq<AuthRow>,
                       caps: seq<CapRow>)

  function ViewOf(s: State, id: Text): View
    requires id in s.requests && id in s.calls
  {
    View(s.requests[id], s.calls[id], AuditsOf(s.audits, id), AuthsOf(s.auths, id), CapsOf(s.caps, id))
  }

  predicate ViewOk(cfg: Config, id: Text, v: View) {
    && v.row.status == StatusAt(v.progress) && v.row.reason == ReasonAt(v.progress)
    && v.row.identity == IdentityAt(v.progress) && v.trail == TrailAt(v.progress)
    && v.auths == AuthsAt(id, v.progress) && v.caps == CapsAt(cfg, id, v.progress)
    && ProgressOk(cfg, v.row, v.progress)
  }

  predicate RequestOk(cfg: Config, s: State, id: Text) {
    id in s.requests && id in s.calls && ViewOk(cfg, id, ViewOf(s, id))
  }

  ghost predicate AllOk(cfg: Config, s: State) {
    && s.requests.Keys == s.calls.Keys
    && forall id | id in s.requests :: RequestOk(cfg, s, id)
  }

  /** One request per idempotency key. */
  ghost predicate KeysOk(s: State) {
    && (forall k | k in s.byKey :: s.byKey[k] in s.requests && s.requests[s.byKey[k]].key == k)
    && (forall id | id in s.requests :: s.requests[id].key in s.byKey && s.byKey[s.requests[id].key] == id)
  }

  /** Every row belongs to a request that exists. */
  predicate Owned(s: State) {
    && (forall i | 0 <= i < |s.audits| :: s.audits[i].requestId in s.requests)
    && (forall i | 0 <= i < |s.auths| :: s.auths[i].requestId in s.requests)
    && (forall i | 0 <= i < |s.caps| :: s.caps[i].requestId in s.requests)
  }

  predicate DistinctAuths(auths: seq<AuthRow>) {
    forall i, j | 0 <= i < j < |auths| :: auths[i].authorizationId != auths[j].authorizationId
  }

  ghost predicate Inv(cfg: Config, s: State) {
    KeysOk(s) && Owned(s) && DistinctAuths(s.auths) && AllOk(cfg, s)
  }

  // ----- every step keeps it -----

  lemma AuditsAdd(audits: seq<AuditEntry>, a: AuditEntry, k: Text)
    ensures AuditsOf(audits + [a], k)
         == AuditsOf(audits, k) + (if a.requestId == k && a.what != IdempotentReplay then [a.what] else [])
  {
    assert (audits + [a])[..|audits|] == audits;
  }

  lemma EntriesLast(id: Text, trail: seq<AuditType>)
    requires trail != []
    ensures var n := |trail| - 1; Entries(id, trail) == Entries(id, trail[..n]) + [AuditEntry(id, trail[n])]
    ensures trail == trail[..|trail| - 1] + [trail[|trail| - 1]]
  {
  }

  lemma {:induction false} AuditsAppend(audits: seq<AuditEntry>, id: Text, trail: seq<AuditType>, k: Text)
    requires IdempotentReplay !in trail
    ensures AuditsOf(audits + Entries(id, trail), k) == AuditsOf(audits, k) + (if k == id then trail else [])
  {
    if trail == [] {
      assert audits + Entries(id, trail) == audits;
    } else {
      var n := |trail| - 1;
      AuditsAppend(audits, id, trail[..n], k);
      AuditsAdd(audits + Entries(id, trail[..n]), AuditEntry(id, trail[n]), k);
      EntriesLast(id, trail);
      Assoc(audits, Entries(id, trail[..n]), [AuditEntry(id, trail[n])]);
      Assoc(AuditsOf(audits, k), trail[..n], [trail[n]]);
    }
  }

  lemma AuthsAdd(auths: seq<AuthRow>, a: AuthRow, k: Text)
    ensures AuthsOf(auths + [a], k) == AuthsOf(auths, k) + (if a.requestId == k then [a] else [])
  {
    assert (auths + [a])[..|auths|] == auths;
  }

  lemma {:induction false} AuthsAppend(auths: seq<AuthRow>, more: seq<AuthRow>, id: Text, k: Text)
    requires forall i | 0 <= i < |more| :: more[i].requestId == id
    ensures AuthsOf(auths + more, k) == AuthsOf(auths, k) + (if k == id then more else [])
  {
    if more == [] {
      assert auths + more == auths;
    } else {
      var n := |more| - 1;
      AuthsAppend(auths, more[..n], id, k);
      AuthsAdd(auths + more[..n], more[n], k);
      assert more == more[..n] + [more[n]];
      Assoc(auths, more[..n], [more[n]]);
      Assoc(AuthsOf(auths, k), more[..n], [more[n]]);
    }
  }

  lemma CapsAdd(caps: seq<CapRow>, c: CapRow, k: Text)
    ensures CapsOf(caps + [c], k) == CapsOf(caps, k) + (if c.requestId == k then [c] else [])
  {
    assert (caps + [c])[..|caps|] == caps;
  }

  lemma {:induction false} CapsAppend(caps: seq<CapRow>, more: seq<CapRow>, id: Text, k: Text)
    requires forall i | 0 <= i < |more| :: more[i].requestId == id
    ensures CapsOf(caps + more, k) == CapsOf(caps, k) + (if k == id then more else [])
  {
    if more == [] {
      assert caps + more == caps;
    } else {
      var n := |more| - 1;
      CapsAppend(caps, more[..n], id, k);
      CapsAdd(caps + more[..n], more[n], k);
      assert more == more[..n] + [more[n]];
      Assoc(caps, more[..n], [more[n]]);
      Assoc(CapsOf(caps, k), more[..n], [more[n]]);
    }
  }

  lemma {:induction false} NoAudits(audits: seq<AuditEntry>, id: Text)
    requires forall i | 0 <= i < |audits| :: audits[i].requestId != id
    ensures AuditsOf(audits, id) == []
  {
    if audits != [] { NoAudits(audits[..|audits| - 1], id); }
  }

  lemma {:induction false} NoAuths(auths: seq<AuthRow>, id: Text)
    requires forall i | 0 <= i < |auths| :: auths[i].requestId != id
    ensures AuthsOf(auths, id) == []
  {
    if auths != [] { NoAuths(auths[..|auths| - 1], id); }
  }

  lemma {:induction false} NoCaps(caps: seq<CapRow>, id: Text)
    requires forall i | 0 <= i < |caps| :: caps[i].requestId != id
    ensures CapsOf(caps, id) == []
  {
    if caps != [] { NoCaps(caps[..|caps| - 1], id); }
  }

  predicate RowsOf(id: Text, trail: seq<AuditType>, auths: seq<AuthRow>, caps: seq<CapRow>) {
    && IdempotentReplay !in trail
    && (forall i | 0 <= i < |auths| :: auths[i].requestId == id)
    && (forall i | 0 <= i < |caps| :: caps[i].requestId == id)
  }

  predicate SameTables(s: State, t: State, k: Text) {
    AuditsOf(t.audits, k) == AuditsOf(s.audits, k) && AuthsOf(t.auths, k) == AuthsOf(s.auths, k)
    && CapsOf(t.caps, k) == CapsOf(s.caps, k)
  }

  /** A stretch of one handler leaves what the tables say of every other request. */
  lemma PutTables(s: State, id: Text, row: RequestRow, p: Progress, trail: seq<AuditType>,
                  auths: seq<AuthRow>, caps: seq<CapRow>, k: Text)
    requires RowsOf(id, trail, auths, caps)
    ensures var t := Put(s, id, row, p, trail, auths, caps);
            && (k != id ==> SameTables(s, t, k))
            && AuditsOf(t.audits, id) == AuditsOf(s.audits, id) + trail
            && AuthsOf(t.auths, id) == AuthsOf(s.auths, id) + auths
            && CapsOf(t.caps, id) == CapsOf(s.caps, id) + caps
  {
    AuditsAppend(s.audits, id, trail, k);
    AuthsAppend(s.auths, auths, id, k);
    CapsAppend(s.caps, caps, id, k);
    AuditsAppend(s.audits, id, trail, id);
    AuthsAppend(s.auths, auths, id, id);
    CapsAppend(s.caps, caps, id, id);
  }

  lemma PutOwned(s: State, id: Text, row: RequestRow, p: Progress, trail: seq<AuditType>,
                 auths: seq<AuthRow>, caps: seq<CapRow>)
    requires RowsOf(id, trail, auths, caps) && Owned(s)
    ensures Owned(Put(s, id, row, p, trail, auths, caps))
  {
  }

  /** What a stretch must leave for its own request. */
  predicate PutOk(cfg: Config, s: State, id: Text, row: RequestRow, p: Progress, trail: seq<AuditType>,
                  auths: seq<AuthRow>, caps: seq<CapRow>)
  {
    && RowsOf(id, trail, auths, caps)
    && ViewOk(cfg, id, View(row, p, AuditsOf(s.audits, id) + trail, AuthsOf(s.auths, id) + auths,
                            CapsOf(s.caps, id) + caps))
  }

  lemma PutOther(cfg: Config, s: State, id: Text, row: RequestRow, p: Progress, trail: seq<AuditType>,
                 auths: seq<AuthRow>, caps: seq<CapRow>, k: Text)
    requires RequestOk(cfg, s, k) && RowsOf(id, trail, auths, caps) && k != id
    ensures RequestOk(cfg, Put(s, id, row, p, trail, auths, caps), k)
  {
    PutTables(s, id, row, p, trail, auths, caps, k);
    assert ViewOf(Put(s, id, row, p, trail, auths, caps), k) == ViewOf(s, k);
  }

  lemma PutSelf(cfg: Config, s: State, id: Text, row: RequestRow, p: Progress, trail: seq<AuditType>,
                auths: seq<AuthRow>, caps: seq<CapRow>)
    requires PutOk(cfg, s, id, row, p, trail, auths, caps)
    ensures RequestOk(cfg, Put(s, id, row, p, trail, auths, caps), id)
  {
    PutTables(s, id, row, p, trail, auths, caps, id);
    assert ViewOf(Put(s, id, row, p, trail, auths, caps), id)
        == View(row, p, AuditsOf(s.audits, id) + trail, AuthsOf(s.auths, id) + auths, CapsOf(s.caps, id) + caps);
  }

  lemma PutAllOk(cfg: Config, s: State, id: Text, row: RequestRow, p: Progress, trail: seq<AuditType>,
                 auths: seq<AuthRow>, caps: seq<CapRow>)
    requires AllOk(cfg, s) && PutOk(cfg, s, id, row, p, trail, auths, caps)
    ensures AllOk(cfg, Put(s, id, row, p, trail, auths, caps))
  {
    var t := Put(s, id, row, p, trail, auths, caps);
    PutSelf(cfg, s, id, row, p, trail, auths, caps);
    forall k | k in t.requests ensures RequestOk(cfg, t, k) {
      if k != id {
        assert RequestOk(cfg, s, k);
        PutOther(cfg, s, id, row, p, trail, auths, caps, k);
      }
    }
  }

  lemma PutKeys(s: State, id: Text, row: RequestRow, p: Progress, trail: seq<AuditType>,
                auths: seq<AuthRow>, caps: seq<CapRow>)
    requires KeysOk(s) && id in s.requests && row.key == s.requests[id].key
    ensures KeysOk(Put(s, id, row, p, trail, auths, caps))
  {
  }

  /** How a stretch moves one request on: what it appends is what its new progress has more. */
  predicate Advance(cfg: Config, id: Text, was: Progress, row: RequestRow, p: Progress, trail: seq<AuditType>,
                    auths: seq<AuthRow>, caps: seq<CapRow>)
  {
    && RowsOf(id, trail, auths, caps) && ProgressOk(cfg, row, p)
    && row.status == StatusAt(p) && row.reason == ReasonAt(p) && row.identity == IdentityAt(p)
    && TrailAt(p) == TrailAt(was) + trail
    && AuthsAt(id, p) == AuthsAt(id, was) + auths
    && CapsAt(cfg, id, p) == CapsAt(cfg, id, was) + caps
  }

  predicate NewAuths(before: seq<AuthRow>, auths: seq<AuthRow>) {
    auths == [] || (|auths| == 1 && !HasAuth(before, auths[0].authorizationId))
  }

  lemma OneNewAuth(before: seq<AuthRow>, id: Text, e: Evaluation)
    requires !HasAuth(before, e.authorizationId)
    ensures NewAuths(before, [AuthRowOf(id, e)])
  {
  }

  lemma DistinctAuthsMore(before: seq<AuthRow>, auths: seq<AuthRow>)
    requires DistinctAuths(before) && NewAuths(before, auths)
    ensures DistinctAuths(before + auths)
  {
    if auths == [] { assert before + auths == before; }
  }

  lemma AdvanceOk(cfg: Config, s: State, id: Text, row: RequestRow, p: Progress, trail: seq<AuditType>,
                  auths: seq<AuthRow>, caps: seq<CapRow>)
    requires RequestOk(cfg, s, id) && Advance(cfg, id, s.calls[id], row, p, trail, auths, caps)
    ensures PutOk(cfg, s, id, row, p, trail, auths, caps)
  {
  }

  /** Stretches of handlers that already have a row. */
  lemma PutInv(cfg: Config, s: State, id: Text, row: RequestRow, p: Progress, trail: seq<AuditType>,
               auths: seq<AuthRow>, caps: seq<CapRow>)
    requires Inv(cfg, s) && id in s.requests && row.key == s.requests[id].key && RequestOk(cfg, s, id)
    requires Advance(cfg, id, s.calls[id], row, p, trail, auths, caps) && NewAuths(s.auths, auths)
    ensures Inv(cfg, Put(s, id, row, p, trail, auths, caps))
  {
    AdvanceOk(cfg, s, id, row, p, trail, auths, caps);
    DistinctAuthsMore(s.auths, auths);
    PutOwned(s, id, row, p, trail, auths, caps);
    PutKeys(s, id, row, p, trail, auths, caps);
    PutAllOk(cfg, s, id, row, p, trail, auths, caps);
  }

  lemma SameViews(cfg: Config, s: State, t: State)
    requires AllOk(cfg, s) && t.requests == s.requests && t.calls == s.calls
    requires forall k: Text :: SameTables(s, t, k)
    ensures AllOk(cfg, t)
  {
    forall k | k in t.requests ensures RequestOk(cfg, t, k) {
      assert RequestOk(cfg, s, k) && SameTables(s, t, k);
      assert ViewOf(t, k) == ViewOf(s, k);
    }
  }

  // --- a new request, or a replay ---

  lemma ReplayAllOk(cfg: Config, s: State, id: Text)
    requires AllOk(cfg, s)
    ensures AllOk(cfg, Replay(s, id))
  {
    forall k: Text ensures SameTables(s, Replay(s, id), k) {
      AuditsAdd(s.audits, AuditEntry(id, IdempotentReplay), k);
    }
    SameViews(cfg, s, Replay(s, id));
  }

  lemma ReplayInv(cfg: Config, s: State, id: Text)
    requires Inv(cfg, s) && id in s.requests
    ensures Inv(cfg, Replay(s, id))
  {
    ReplayAllOk(cfg, s, id);
    ReplayOwned(s, id);
    ReplayKeys(s, id);
  }

  lemma ReplayOwned(s: State, id: Text)
    requires Owned(s) && id in s.requests
    ensures Owned(Replay(s, id))
  {
  }

  lemma ReplayKeys(s: State, id: Text)
    requires KeysOk(s) && DistinctAuths(s.auths)
    ensures KeysOk(Replay(s, id)) && DistinctAuths(Replay(s, id).auths)
  {
  }

  lemma NewKeys(s: State, id: Text, row: RequestRow)
    requires KeysOk(s) && id !in s.requests && row.key !in s.byKey
    ensures KeysOk(Put(s.(byKey := s.byKey[row.key := id]), id, row, Resolving, [RequestReceived], [], []))
  {
  }

  lemma NewOk(cfg: Config, s: State, id: Text, row: RequestRow)
    requires Owned(s) && id !in s.requests && row.status == Pending && row.reason.None? && row.identity.None?
    ensures PutOk(cfg, s, id, row, Resolving, [RequestReceived], [], [])
  {
    NoAudits(s.audits, id);
    NoAuths(s.auths, id);
    NoCaps(s.caps, id);
  }

  lemma InvNew(cfg: Config, s: State, id: Text, row: RequestRow)
    requires Inv(cfg, s) && id !in s.requests && row.key !in s.byKey && row.status == Pending && row.reason.None?
    requires row.identity.None?
    ensures Inv(cfg, Put(s.(byKey := s.byKey[row.key := id]), id, row, Resolving, [RequestReceived], [], []))
  {
    var t := s.(byKey := s.byKey[row.key := id]);
    forall k: Text ensures SameTables(s, t, k) {
    }
    SameViews(cfg, s, t);
    NewOk(cfg, t, id, row);
    NewKeys(s, id, row);
    DistinctAuthsMore(t.auths, []);
    PutOwned(t, id, row, Resolving, [RequestReceived], [], []);
    PutAllOk(cfg, t, id, row, Resolving, [RequestReceived], [], []);
  }

  lemma InvCreate(cfg: Config, s: State, input: CreateInput, id: Text)
    requires Inv(cfg, s) && id !in s.requests
    ensures Inv(cfg, Create(cfg, s, input, id))
  {
    if input.idempotencyKey in s.byKey {
      assert s.byKey[input.idempotencyKey] in s.requests;
      ReplayInv(cfg, s, s.byKey[input.idempotencyKey]);
    } else if Vetted(cfg, input).0.None? {
      InvNew(cfg, s, id, NewRow(cfg, input));
    }
  }

  // --- after each await ---

  lemma ResolveAdvances(cfg: Config, id: Text, row: RequestRow, code: Text, identity: Identity)
    requires row.identity.None?
    ensures Advance(cfg, id, Resolving, Settled(row, StatusFailed, code),
                    IdentityFailed(code), [EnsIdentityFailed], [], [])
    ensures row.status == Pending && row.reason.None? ==>
              Advance(cfg, id, Resolving, row.(identity := Some(identity)), Evaluating(identity),
                      [EnsIdentityValidated, EvaluationRequested], [], [])
  {
  }

  lemma InvResolve(cfg: Config, s: State, id: Text, r: Resolution)
    requires Inv(cfg, s)
    ensures Inv(cfg, AfterResolve(s, id, r))
  {
    if id in s.calls && s.calls[id].Resolving? {
      assert RequestOk(cfg, s, id);
      var row := s.requests[id];
      match r {
        case NotResolved(code) =>
          ResolveAdvances(cfg, id, row, code, Identity([], [], [], []));
          PutInv(cfg, s, id, Settled(row, StatusFailed, code), IdentityFailed(code), [EnsIdentityFailed], [], []);
        case Resolved(identity) =>
          ResolveAdvances(cfg, id, row, [], identity);
          PutInv(cfg, s, id, row.(identity := Some(identity)), Evaluating(identity),
                 [EnsIdentityValidated, EvaluationRequested], [], []);
      }
    }
  }

  /** A call that throws leaves its rows behind as they are. */
  lemma ThrowAdvances(cfg: Config, id: Text, row: RequestRow, was: Progress)
    requires row.status == Pending && row.reason.None? && row.identity == IdentityAt(was) && ProgressOk(cfg, row, was)
    ensures was.Evaluating? ==> Advance(cfg, id, was, row, EvaluationThrew(was.identity), [], [], [])
    ensures was.Signing? ==> Advance(cfg, id, was, row, SigningThrew(was.identity, was.evaluation, was.cap), [], [], [])
  {
    assert TrailAt(was) + [] == TrailAt(was) && AuthsAt(id, was) + [] == AuthsAt(id, was);
  }

  lemma InvDraws(cfg: Config, s: State, id: Text, now: nat)
    requires Inv(cfg, s)
    ensures Inv(cfg, Draws(s, id, now))
  {
    forall k: Text ensures SameTables(s, Draws(s, id, now), k) {
    }
    SameViews(cfg, s, Draws(s, id, now));
  }

  lemma RefusalAdvances(cfg: Config, id: Text, row: RequestRow, identity: Identity, e: Evaluation)
    requires e.verdict != Allow && row.identity == Some(identity)
    ensures var status := if e.verdict == Deny then StatusDenied else StatusEscalated;
            var last := if e.verdict == Deny then AuditDenied else EscalationCreated;
            Advance(cfg, id, Evaluating(identity), Settled(row, status, e.reasonCode), Refused(identity, e),
                    [AuthorizationObserved(e.verdict), last], [AuthRowOf(id, e)], [])
  {
    var last := if e.verdict == Deny then AuditDenied else EscalationCreated;
    assert TrailAt(Refused(identity, e)) == TrailAt(Evaluating(identity)) + [AuthorizationObserved(e.verdict), last];
  }

  lemma AllowAdvances(cfg: Config, id: Text, row: RequestRow, identity: Identity, e: Evaluation, issuedAt: nat,
                      nonce: nat)
    requires e.verdict == Allow && row.status == Pending && row.reason.None? && row.identity == Some(identity)
    ensures Advance(cfg, id, Evaluating(identity), row,
                    Signing(identity, e, CapabilityOf(cfg, row, identity, e, issuedAt, nonce)),
                    [AuthorizationObserved(Allow)], [AuthRowOf(id, e)], [])
  {
  }

  lemma InvRefused(cfg: Config, s: State, id: Text, e: Evaluation)
    requires Inv(cfg, s) && id in s.calls && s.calls[id].Evaluating? && RequestOk(cfg, s, id)
    requires !HasAuth(s.auths, e.authorizationId) && e.verdict != Allow
    ensures var status := if e.verdict == Deny then StatusDenied else StatusEscalated;
            var last := if e.verdict == Deny then AuditDenied else EscalationCreated;
            Inv(cfg, Put(s, id, Settled(s.requests[id], status, e.reasonCode), Refused(s.calls[id].identity, e),
                         [AuthorizationObserved(e.verdict), last], [AuthRowOf(id, e)], []))
  {
    var status := if e.verdict == Deny then StatusDenied else StatusEscalated;
    var last := if e.verdict == Deny then AuditDenied else EscalationCreated;
    var row, p := Settled(s.requests[id], status, e.reasonCode), Refused(s.calls[id].identity, e);
    RefusalAdvances(cfg, id, s.requests[id], s.calls[id].identity, e);
    OneNewAuth(s.auths, id, e);
    PutInv(cfg, s, id, row, p, [AuthorizationObserved(e.verdict), last], [AuthRowOf(id, e)], []);
  }

  lemma InvAllowed(cfg: Config, s: State, id: Text, e: Evaluation, issuedAt: nat, nonce: nat)
    requires Inv(cfg, s) && id in s.calls && s.calls[id].Evaluating? && RequestOk(cfg, s, id)
    requires !HasAuth(s.auths, e.authorizationId) && e.verdict == Allow
    ensures var p := Signing(s.calls[id].identity, e,
                             CapabilityOf(cfg, s.requests[id], s.calls[id].identity, e, issuedAt, nonce));
            Inv(cfg, Put(s, id, s.requests[id], p, [AuthorizationObserved(Allow)], [AuthRowOf(id, e)], []))
  {
    var p := Signing(s.calls[id].identity, e,
                     CapabilityOf(cfg, s.requests[id], s.calls[id].identity, e, issuedAt, nonce));
    AllowAdvances(cfg, id, s.requests[id], s.calls[id].identity, e, issuedAt, nonce);
    OneNewAuth(s.auths, id, e);
    PutInv(cfg, s, id, s.requests[id], p, [AuthorizationObserved(Allow)], [AuthRowOf(id, e)], []);
  }

  lemma InvThrown(cfg: Config, s: State, id: Text)
    requires Inv(cfg, s) && id in s.calls && RequestOk(cfg, s, id) && (s.calls[id].Evaluating? || s.calls[id].Signing?)
    ensures var was := s.calls[id];
            var p := if was.Evaluating? then EvaluationThrew(was.identity)
                     else SigningThrew(was.identity, was.evaluation, was.cap);
            Inv(cfg, Put(s, id, s.requests[id], p, [], [], []))
  {
    var was := s.calls[id];
    var p := if was.Evaluating? then EvaluationThrew(was.identity)
             else SigningThrew(was.identity, was.evaluation, was.cap);
    ThrowAdvances(cfg, id, s.requests[id], was);
    PutInv(cfg, s, id, s.requests[id], p, [], [], []);
  }

  lemma InvEvaluate(cfg: Config, s: State, id: Text, r: Option<Evaluation>, now: nat)
    requires Inv(cfg, s)
    ensures Inv(cfg, AfterEvaluate(cfg, s, id, r, now))
  {
    if id in s.calls && s.calls[id].Evaluating? {
      assert RequestOk(cfg, s, id);
      if r.None? || HasAuth(s.auths, r.value.authorizationId) {
        InvThrown(cfg, s, id);
      } else if r.value.verdict == Allow {
        InvDraws(cfg, s, id, now);
        assert RequestOk(cfg, Draws(s, id, now), id);
        InvAllowed(cfg, Draws(s, id, now), id, r.value, now / 1000, NextNonce(s, now));
      } else {
        InvRefused(cfg, s, id, r.value);
      }
    }
  }

  lemma MintAdvances(cfg: Config, id: Text, row: RequestRow, c: Progress)
    requires c.Signing? && ProgressOk(cfg, row, c) && row.identity == IdentityAt(c)
    ensures Advance(cfg, id, c, Settled(row, StatusAllowed, c.evaluation.reasonCode),
                    Minted(c.identity, c.evaluation, c.cap),
                    [CapabilityMinted], [], [CapRowOf(cfg, id, c.cap)])
  {
  }

  lemma InvMinted(cfg: Config, s: State, id: Text)
    requires Inv(cfg, s) && id in s.calls && s.calls[id].Signing? && RequestOk(cfg, s, id)
    ensures var c := s.calls[id];
            Inv(cfg, Put(s, id, Settled(s.requests[id], StatusAllowed, c.evaluation.reasonCode),
                         Minted(c.identity, c.evaluation, c.cap), [CapabilityMinted], [], [CapRowOf(cfg, id, c.cap)]))
  {
    var c := s.calls[id];
    MintAdvances(cfg, id, s.requests[id], c);
    PutInv(cfg, s, id, Settled(s.requests[id], StatusAllowed, c.evaluation.reasonCode),
           Minted(c.identity, c.evaluation, c.cap),
           [CapabilityMinted], [], [CapRowOf(cfg, id, c.cap)]);
  }

  lemma InvSign(cfg: Config, s: State, id: Text, ok: bool)
    requires Inv(cfg, s)
    ensures Inv(cfg, AfterSign(cfg, s, id, ok))
  {
    if id in s.calls && s.calls[id].Signing? {
      assert RequestOk(cfg, s, id);
      if !ok || HasDigest(s.caps, cfg.digest(s.calls[id].cap)) {
        InvThrown(cfg, s, id);
      } else {
        InvMinted(cfg, s, id);
      }
    }
  }

  lemma InvStep(cfg: Config, s: State, e: Event)
    requires Inv(cfg, s) && Fresh(s, e)
    ensures Inv(cfg, Step(cfg, s, e))
  {
    match e {
      case DoCreate(input, id) => InvCreate(cfg, s, input, id);
      case DoResolve(id, r) => InvResolve(cfg, s, id, r);
      case DoEvaluate(id, r, now) => InvEvaluate(cfg, s, id, r, now);
      case DoSign(id, ok) => InvSign(cfg, s, id, ok);
    }
  }

  lemma {:induction false} InvRun(cfg: Config, es: seq<Event>)
    requires FreshRun(cfg, es)
    ensures Inv(cfg, Run(cfg, es))
  {
    if es != [] {
      InvRun(cfg, es[..|es| - 1]);
      InvStep(cfg, Run(cfg, es[..|es| - 1]), es[|es| - 1]);
    }
  }

  // ----- refinement of the declared states -----

  /** The state that an audit entry witnesses; an authorization that does not allow witnesses none. */
  function Witnesses(a: AuditType): seq<RequestState> {
    match a
    case RequestReceived => [Received]
    case IdempotentReplay => []
    case EnsIdentityValidated => [IdentityValidated]
    case EnsIdentityFailed => [Failed]
    case EvaluationRequested => [PolicyEvaluating]
    case AuthorizationObserved(v) => if v == Allow then [Authorized] else []
    case AuditDenied => [Denied]
    case EscalationCreated => [EscalationRequired]
    case CapabilityMinted => [CapabilityIssued]
  }

  /** The states a request has been seen in. */
  function Path(trail: seq<AuditType>): seq<RequestState> {
    if trail == [] then [] else Witnesses(trail[0]) + Path(trail[1..])
  }

  lemma {:induction false} PathConcat(a: seq<AuditType>, b: seq<AuditType>)
    ensures Path(a + b) == Path(a) + Path(b)
  {
    if a == [] {
      assert a + b == b;
    } else {
      assert (a + b)[1..] == a[1..] + b;
      PathConcat(a[1..], b);
    }
  }

  const ASKED := [RequestReceived, EnsIdentityValidated, EvaluationRequested]
  const ASKED_PATH := [Received, IdentityValidated, PolicyEvaluating]

  function PathAt(p: Progress): seq<RequestState> {
    match p
    case Resolving => [Received]
    case IdentityFailed(_) => [Received, Failed]
    case Evaluating(_) => ASKED_PATH
    case EvaluationThrew(_) => ASKED_PATH
    case Refused(_, e) => ASKED_PATH + [if e.verdict == Deny then Denied else EscalationRequired]
    case Signing(_, _, _) => ASKED_PATH + [Authorized]
    case SigningThrew(_, _, _) => ASKED_PATH + [Authorized]
    case Minted(_, _, _) => ASKED_PATH + [Authorized, CapabilityIssued]
  }

  lemma PathOne(a: AuditType)
    ensures Path([a]) == Witnesses(a)
  {
    assert Witnesses(a) + [] == Witnesses(a);
  }

  lemma PathTwo(a: AuditType, b: AuditType)
    ensures Path([a] + [b]) == Witnesses(a) + Witnesses(b)
  {
    PathConcat([a], [b]);
    PathOne(a);
    PathOne(b);
  }

  lemma PathAsked()
    ensures Path(ASKED) == ASKED_PATH
  {
    PathTwo(EnsIdentityValidated, EvaluationRequested);
    PathOne(RequestReceived);
    assert ASKED == [RequestReceived] + ([EnsIdentityValidated] + [EvaluationRequested]);
    PathConcat([RequestReceived], [EnsIdentityValidated] + [EvaluationRequested]);
  }

  lemma PathOfTrail(cfg: Config, row: RequestRow, p: Progress)
    requires ProgressOk(cfg, row, p)
    ensures Path(TrailAt(p)) == PathAt(p)
  {
    PathAsked();
    PathOne(RequestReceived);
    if p.IdentityFailed? {
      PathTwo(RequestReceived, EnsIdentityFailed);
      assert TrailAt(p) == [RequestReceived] + [EnsIdentityFailed];
    } else if p.Refused? || HasCap(p) {
      PathOfVerdict(p);
    }
  }

  lemma PathOfVerdict(p: Progress)
    requires (p.Refused? && p.evaluation.verdict != Allow) || (HasCap(p) && p.evaluation.verdict == Allow)
    ensures Path(TrailAt(p)) == PathAt(p)
  {
    PathAsked();
    var seen := AuthorizationObserved(p.evaluation.verdict);
    PathOne(seen);
    PathConcat(ASKED, [seen]);
    if p.Refused? || p.Minted? {
      var last := if p.Minted? then CapabilityMinted else if p.evaluation.verdict == Deny then AuditDenied
                  else EscalationCreated;
      PathTwo(seen, last);
      PathConcat(ASKED, [seen] + [last]);
      assert TrailAt(p) == ASKED + ([seen] + [last]);
    }
  }

  lemma PathAtOk(p: Progress)
    ensures IsPath(PathAt(p)) && PathAt(p)[0] == Received
    ensures var path := PathAt(p); StatusAt(p) == StatusOf(path[|path| - 1])
    ensures p.Minted? ==> forall st | st in PathAt(p) :: !IsRefusal(st)
    ensures (exists st :: st in PathAt(p) && IsRefusal(st)) ==> !HasCap(p)
    ensures !p.Minted? ==> forall st | st in PathAt(p) :: !MayExecute(st)
  {
  }

  /** The status column says the last state that was witnessed. */
  function StatusOf(s: RequestState): Status {
    match s
    case Failed => StatusFailed
    case Denied => StatusDenied
    case EscalationRequired => StatusEscalated
    case CapabilityIssued => StatusAllowed
    case _ => Pending
  }

  /** What a run leaves of one request, as far as its progress tells. */
  lemma RequestIs(cfg: Config, es: seq<Event>, id: Text)
    requires FreshRun(cfg, es) && id in Run(cfg, es).requests
    ensures var s := Run(cfg, es);
            && id in s.calls && s.requests[id].status == StatusAt(s.calls[id])
            && s.requests[id].reason == ReasonAt(s.calls[id])
            && s.requests[id].identity == IdentityAt(s.calls[id])
            && AuditsOf(s.audits, id) == TrailAt(s.calls[id]) && Path(AuditsOf(s.audits, id)) == PathAt(s.calls[id])
            && CapsOf(s.caps, id) == CapsAt(cfg, id, s.calls[id]) && AuthsOf(s.auths, id) == AuthsAt(id, s.calls[id])
            && ProgressOk(cfg, s.requests[id], s.calls[id])
  {
    InvRun(cfg, es);
    var s := Run(cfg, es);
    assert RequestOk(cfg, s, id);
    PathOfTrail(cfg, s.requests[id], s.calls[id]);
  }

  /** Refinement: in every interleaving the states seen of a request form a run of the declared
      transitions from RECEIVED, and its status column is that of the last of them. */
  lemma RequestsRefineStates(cfg: Config, es: seq<Event>, id: Text)
    requires FreshRun(cfg, es) && id in Run(cfg, es).requests
    ensures var s := Run(cfg, es);
            var path := Path(AuditsOf(s.audits, id));
            IsPath(path) && path != [] && path[0] == Received && s.requests[id].status == StatusOf(path[|path| - 1])
  {
    RequestIs(cfg, es, id);
    PathAtOk(Run(cfg, es).calls[id]);
  }

  lemma {:induction false} CapIsOwned(caps: seq<CapRow>, i: nat)
    requires i < |caps|
    ensures caps[i] in CapsOf(caps, caps[i].requestId)
  {
    if i < |caps| - 1 { CapIsOwned(caps[..|caps| - 1], i); }
  }

  lemma {:induction false} AuthIsKept(auths: seq<AuthRow>, id: Text, a: AuthRow)
    requires a in AuthsOf(auths, id)
    ensures a in auths && a.requestId == id
  {
    var n := |auths| - 1;
    if a in AuthsOf(auths[..n], id) { AuthIsKept(auths[..n], id, a); }
  }

  lemma CapabilityOfRequest(cfg: Config, es: seq<Event>, i: nat) returns (id: Text)
    requires FreshRun(cfg, es) && i < |Run(cfg, es).caps|
    ensures var s := Run(cfg, es);
            && id == s.caps[i].requestId && id in s.requests && id in s.calls && s.calls[id].Minted?
            && s.caps[i] == CapRowOf(cfg, id, s.calls[id].cap)
  {
    InvRun(cfg, es);
    var s := Run(cfg, es);
    id := s.caps[i].requestId;
    CapIsOwned(s.caps, i);
    RequestIs(cfg, es, id);
  }

  /** A capability row exists only for a request that has an ALLOW authorization of its own, and its
      audit trail is exactly: received, identity validated, evaluation requested, authorization
      observed, minted. No refused request ever had one. */
  lemma CapabilityNeedsAllow(cfg: Config, es: seq<Event>, i: nat)
    requires FreshRun(cfg, es) && i < |Run(cfg, es).caps|
    ensures var s := Run(cfg, es);
            var id := s.caps[i].requestId;
            && id in s.requests && s.requests[id].status == StatusAllowed
            && (exists a :: a in s.auths && a.requestId == id && a.verdict == Allow)
            && AuditsOf(s.audits, id) == ASKED + [AuthorizationObserved(Allow)] + [CapabilityMinted]
            && (forall st | st in Path(AuditsOf(s.audits, id)) :: !IsRefusal(st))
  {
    var id := CapabilityOfRequest(cfg, es, i);
    var s := Run(cfg, es);
    RequestIs(cfg, es, id);
    PathAtOk(s.calls[id]);
    var a := AuthRowOf(id, s.calls[id].evaluation);
    assert a in AuthsOf(s.auths, id);
    AuthIsKept(s.auths, id, a);
  }

  /** A request seen refused has no capability, and is never seen executable. */
  lemma RefusedHasNoCapability(cfg: Config, es: seq<Event>, id: Text)
    requires FreshRun(cfg, es) && id in Run(cfg, es).requests
    requires exists st :: st in Path(AuditsOf(Run(cfg, es).audits, id)) && IsRefusal(st)
    ensures CapsOf(Run(cfg, es).caps, id) == []
    ensures forall st | st in Path(AuditsOf(Run(cfg, es).audits, id)) :: !MayExecute(st)
  {
    RequestIs(cfg, es, id);
    PathAtOk(Run(cfg, es).calls[id]);
  }
}
