/** What the bridge decides about one authenticated request: refuse, suspend, or act. */
module BridgePolicy {
  import opened Texts
  import opened CanonicalJson
  import opened CanonicalMeaning
  import opened SignedRequest

  datatype Permissions = Permissions(
    allowedProjects: set<Text>,
    allowedOperations: set<Operation>,
    allowedCredentialRefs: set<Text>,
    allowedHosts: set<Text>,
    allowedApiOperationIds: set<Text>,
    allowedCreWorkflows: set<Text>,
    allowedLedgerActionTypes: set<Text>,
    humanApprovalAboveUsdCents: real)

  const DENY_ALL := Permissions({}, {}, {}, {}, {}, {}, {}, 0.0)

  /** Componentwise: every list contains the other's, and the autonomous ceiling is no lower. */
  predicate Leq(a: Permissions, b: Permissions) {
    && a.allowedProjects <= b.allowedProjects
    && a.allowedOperations <= b.allowedOperations
    && a.allowedCredentialRefs <= b.allowedCredentialRefs
    && a.allowedHosts <= b.allowedHosts
    && a.allowedApiOperationIds <= b.allowedApiOperationIds
    && a.allowedCreWorkflows <= b.allowedCreWorkflows
    && a.allowedLedgerActionTypes <= b.allowedLedgerActionTypes
    && a.humanApprovalAboveUsdCents <= b.humanApprovalAboveUsdCents
  }

  /** Which of the bridge's optional dependencies are present. */
  datatype Deps = Deps(
    performApiCall: bool, runCreWorkflow: bool, creDeploy: bool, ledger: bool, askHuman: bool)

  datatype Reason =
    | UnknownOperation | OperationNotAvailable | NotPermitted | BadSignature | PayloadMutated | Replay
    | Expired | NotYetValid | WrongProject | WrongBridge | WrongUser | NoSession | SessionRevoked
    | PairingUsed | PairingExpired | PairingUnknown | CredentialNotAllowed | HostNotAllowed
    | ApprovalRequired | HardwareUnavailable

  datatype Effect =
    | ApiCall(url: Text, credentialRef: Text, operationId: Text)
    | RunWorkflow(workflow: Text, args: Json)
    | ReadStatus
    | Build(workflow: Text)
    | Deploy(workflow: Text, wasmPath: Text, registry: Text)
    | Lifecycle(workflow: Text, action: Text)
    | LedgerApprove(actionType: Text, digestInput: Text)

  /** What a person is shown before approving. */
  datatype Prompt = Prompt(
    projectId: Text, op: Operation, what: Text, amount: Number, destination: Option<Text>, policyReason: Text)

  /** What a handler does next. `Fails` is a thrown TypeError. */
  datatype Plan =
    | Refuse(reason: Reason)
    | Fails
    | CheckUrl(url: Text, credentialRef: Text, operationId: Text)
    | ReadHash(workflow: Text, wasmPath: Text, registry: Text, approved: Text)
    | Ask(prompt: Prompt, actionType: Text, digestInput: Text)
    | Act(effect: Effect)

  // ----- reading the payload -----

  predicate HasKey(fs: seq<Entry>, key: Text) {
    exists i :: 0 <= i < |fs| && fs[i].key == key
  }

  function Lookup(fs: seq<Entry>, key: Text): Json {
    if fs == [] then Undefined else if fs[0].key == key then fs[0].val else Lookup(fs[1..], key)
  }

  function Get(payload: Json, name: Text): Json {
    if payload.Obj? then Lookup(payload.fields, name) else Undefined
  }

  predicate IsNullish(v: Json) {
    v.Undefined? || v.Null?
  }

  /** `String(v)`, where None is a TypeError. An object whose own `toString` shadows the inherited
      one has nothing callable to convert it. */
  function StringOf(v: Json): Option<Text> {
    match v
    case Undefined => Some(Ascii("undefined"))
    case Null => Some(Ascii("null"))
    case Bool(b) => Some(if b then Ascii("true") else Ascii("false"))
    case Num(n) => Some(NumText(n))
    case Str(s) => Some(s)
    case Arr(items) => JoinText(items, true)
    case Obj(fs) => if HasKey(fs, Ascii("toString")) then None else Some(Ascii("[object Object]"))
  }

  /** `Array.prototype.join`: null and undefined members contribute nothing. */
  function JoinText(items: seq<Json>, first: bool): Option<Text> {
    if items == [] then Some([]) else
      var head := if IsNullish(items[0]) then Some([]) else StringOf(items[0]);
      var tail := JoinText(items[1..], false);
      if head.None? || tail.None? then None else Some(Separator(first) + head.value + tail.value)
  }

  /** `String(payload[name] ?? fallback)`. */
  function Read(payload: Json, name: string, fallback: Text): Option<Text>
  {
    var v := Get(payload, Ascii(name));
    if IsNullish(v) then Some(fallback) else StringOf(v)
  }

  // ----- numbers as amounts -----

  function Pow10(k: nat): real {
    if k == 0 then 1.0 else 10.0 * Pow10(k - 1)
  }

  function DigitsValue(d: seq<Digit>): real {
    if d == [] then 0.0 else 10.0 * DigitsValue(d[..|d| - 1]) + d[|d| - 1] as real
  }

  lemma {:induction false} Pow10Positive(k: nat)
    ensures Pow10(k) > 0.0
  {
    if k > 0 { Pow10Positive(k - 1); }
  }

  function AmountOf(n: Number): real {
    var e := n.point - |n.digits|;
    var m := if e >= 0 then DigitsValue(n.digits) * Pow10(e)
             else (Pow10Positive(-e); DigitsValue(n.digits) / Pow10(-e));
    if n.neg then -m else m
  }

  // ----- the handlers, up to their first suspension -----

  function ApiRequestPlan(p: Permissions, payload: Json): Plan {
    ApiRequestWith(p, Read(payload, "credentialRef", []), Read(payload, "operationId", []), Read(payload, "url", []))
  }

  function ApiRequestWith(p: Permissions, c: Option<Text>, o: Option<Text>, u: Option<Text>): Plan {
    if c.None? || o.None? || u.None? then Fails
    else if c.value !in p.allowedCredentialRefs then Refuse(CredentialNotAllowed)
    else if o.value !in p.allowedApiOperationIds then Refuse(NotPermitted)
    else CheckUrl(u.value, c.value, o.value)
  }

  /** `payload.args ?? {}`. */
  function Args(payload: Json): Json {
    var args := Get(payload, Ascii("args"));
    if IsNullish(args) then Obj([]) else args
  }

  function SimulatePlan(p: Permissions, deps: Deps, payload: Json): Plan {
    SimulateWith(p, deps, Read(payload, "workflow", []), Args(payload))
  }

  function SimulateWith(p: Permissions, deps: Deps, w: Option<Text>, args: Json): Plan {
    if w.None? then Fails
    else if w.value !in p.allowedCreWorkflows then Refuse(NotPermitted)
    else if !deps.runCreWorkflow then Refuse(OperationNotAvailable)
    else Act(RunWorkflow(w.value, args))
  }

  function StatusPlan(deps: Deps): Plan {
    if !deps.creDeploy then Refuse(OperationNotAvailable) else Act(ReadStatus)
  }

  function BuildPlan(p: Permissions, deps: Deps, payload: Json): Plan {
    var w := Read(payload, "workflow", []);
    if w.None? then Fails
    else if w.value !in p.allowedCreWorkflows then Refuse(NotPermitted)
    else if !deps.creDeploy then Refuse(OperationNotAvailable)
    else Act(Build(w.value))
  }

  predicate IsSha256Hex(t: Text) {
    |t| == 64 && forall i | 0 <= i < 64 :: IsDigit(t[i]) || 97 <= t[i] <= 102
  }

  function DeployPlan(p: Permissions, deps: Deps, payload: Json): Plan {
    DeployWith(p, deps, Read(payload, "workflow", []), Read(payload, "wasmPath", []),
               Read(payload, "registry", []), Read(payload, "approvedWasmSha256", []))
  }

  function DeployWith(p: Permissions, deps: Deps, w: Option<Text>, f: Option<Text>, r: Option<Text>,
                      a: Option<Text>): Plan {
    if w.None? || f.None? || r.None? || a.None? then Fails
    else if w.value !in p.allowedCreWorkflows then Refuse(NotPermitted)
    else if Ascii("onchain:") <= r.value then Refuse(NotPermitted)
    else if !IsSha256Hex(a.value) then Refuse(NotPermitted)
    else if !deps.creDeploy then Refuse(OperationNotAvailable)
    else ReadHash(w.value, f.value, r.value, a.value)
  }

  predicate IsLifecycleAction(t: Text) {
    t == Ascii("get") || t == Ascii("pause") || t == Ascii("activate") || t == Ascii("list")
  }

  function LifecyclePlan(p: Permissions, deps: Deps, payload: Json): Plan {
    LifecycleWith(p, deps, Read(payload, "workflow", []), Read(payload, "action", []))
  }

  function LifecycleWith(p: Permissions, deps: Deps, w: Option<Text>, a: Option<Text>): Plan {
    if w.None? || a.None? then Fails
    else if w.value !in p.allowedCreWorkflows then Refuse(NotPermitted)
    else if !IsLifecycleAction(a.value) then Refuse(UnknownOperation)
    else if !deps.creDeploy then Refuse(OperationNotAvailable)
    else Act(Lifecycle(w.value, a.value))
  }

  const ABOVE_CEILING := Ascii("above the bridge's autonomous ceiling")

  /** The amount, or zero where the payload states none. */
  function Amount(payload: Json): Number {
    var amount := Get(payload, Ascii("amountUsdCents"));
    if amount.Num? then amount.num else Number(false, [], 0)
  }

  /** A stated Ledger amount above the ceiling needs a person. */
  predicate NeedsHuman(p: Permissions, payload: Json) {
    Get(payload, Ascii("amountUsdCents")).Num? && AmountOf(Amount(payload)) > p.humanApprovalAboveUsdCents
  }

  function Destination(payload: Json): Option<Text> {
    var d := Get(payload, Ascii("destination"));
    if d.Str? then Some(d.text) else None
  }

  function LedgerPlan(p: Permissions, deps: Deps, projectId: Text, op: Operation, payload: Json): Plan {
    LedgerWith(p, deps, Read(payload, "actionType", []), NeedsHuman(p, payload),
               Read(payload, "policyReason", ABOVE_CEILING),
               Prompt(projectId, op, [], Amount(payload), Destination(payload), []), Stringify(payload))
  }

  /** `prompt` is complete but for the action and the reason, which are read in their turn. */
  function LedgerWith(p: Permissions, deps: Deps, t: Option<Text>, needsHuman: bool, why: Option<Text>,
                      prompt: Prompt, digestInput: Text): Plan {
    if t.None? then Fails
    else if t.value !in p.allowedLedgerActionTypes then Refuse(NotPermitted)
    else if !needsHuman then AfterApproval(deps, t.value, digestInput)
    else if !deps.askHuman then Refuse(ApprovalRequired)
    else if why.None? then Fails
    else Ask(prompt.(what := t.value, policyReason := why.value), t.value, digestInput)
  }

  /** The handler of each operation. */
  function HandlerPlan(p: Permissions, deps: Deps, projectId: Text, op: Operation, payload: Json): Plan {
    match op
    case PerformApiRequest => ApiRequestPlan(p, payload)
    case SimulateWorkflow => SimulatePlan(p, deps, payload)
    case CreStatus => StatusPlan(deps)
    case BuildWorkflow => BuildPlan(p, deps, payload)
    case DeployWorkflow => DeployPlan(p, deps, payload)
    case WorkflowLifecycle => LifecyclePlan(p, deps, payload)
    case ApproveContextLockAction => LedgerPlan(p, deps, projectId, op, payload)
    case PerformProtectedBrokerAction => LedgerPlan(p, deps, projectId, op, payload)
  }

  function Decide(p: Permissions, deps: Deps, projectId: Text, op: Operation, payload: Json): Plan {
    if op !in p.allowedOperations then Refuse(NotPermitted)
    else if projectId !in p.allowedProjects then Refuse(WrongProject)
    else HandlerPlan(p, deps, projectId, op, payload)
  }

  // ----- the handlers, after a suspension -----

  /** The URL check answered with the URL to call, or refused. */
  function AfterUrl(deps: Deps, verdict: Option<Text>, credentialRef: Text, operationId: Text): Plan {
    if verdict.None? then Refuse(HostNotAllowed)
    else if !deps.performApiCall then Refuse(OperationNotAvailable)
    else Act(ApiCall(verdict.value, credentialRef, operationId))
  }

  function AfterHash(actual: Text, workflow: Text, wasmPath: Text, registry: Text, approved: Text): Plan {
    if actual != approved then Refuse(NotPermitted) else Act(Deploy(workflow, wasmPath, registry))
  }

  function AfterHuman(deps: Deps, approved: bool, actionType: Text, digestInput: Text): Plan {
    if !approved then Refuse(ApprovalRequired) else AfterApproval(deps, actionType, digestInput)
  }

  function AfterApproval(deps: Deps, actionType: Text, digestInput: Text): Plan {
    if !deps.ledger then Refuse(HardwareUnavailable) else Act(LedgerApprove(actionType, digestInput))
  }

  /** The effect is the one that the payload names. */
  predicate Named(payload: Json, e: Effect) {
    match e
    case ApiCall(_, c, o) =>
      Read(payload, "credentialRef", []) == Some(c) && Read(payload, "operationId", []) == Some(o)
    case RunWorkflow(w, args) => Read(payload, "workflow", []) == Some(w) && args == Args(payload)
    case ReadStatus => true
    case Build(w) => Read(payload, "workflow", []) == Some(w)
    case Deploy(w, path, registry) =>
      && Read(payload, "workflow", []) == Some(w) && Read(payload, "wasmPath", []) == Some(path)
      && Read(payload, "registry", []) == Some(registry)
    case Lifecycle(w, action) => Read(payload, "workflow", []) == Some(w) && Read(payload, "action", []) == Some(action)
    case LedgerApprove(t, digestInput) =>
      Read(payload, "actionType", []) == Some(t) && digestInput == Stringify(payload)
  }

  /** What a suspended handler has already established. */
  ghost predicate Grounds(p: Permissions, op: Operation, payload: Json, plan: Plan) {
    match plan
    case CheckUrl(u, c, o) =>
      && op == PerformApiRequest && c in p.allowedCredentialRefs && o in p.allowedApiOperationIds
      && Read(payload, "url", []) == Some(u) && Named(payload, ApiCall(u, c, o))
    case ReadHash(w, path, registry, approved) =>
      && op == DeployWorkflow && w in p.allowedCreWorkflows && !(Ascii("onchain:") <= registry)
      && Read(payload, "approvedWasmSha256", []) == Some(approved) && IsSha256Hex(approved)
      && Named(payload, Deploy(w, path, registry))
    case Ask(_, t, d) =>
      && (op == ApproveContextLockAction || op == PerformProtectedBrokerAction) && t in p.allowedLedgerActionTypes
      && Named(payload, LedgerApprove(t, d))
    case _ => false
  }

  lemma ApiGrounds(p: Permissions, payload: Json)
    ensures var plan := ApiRequestPlan(p, payload);
            plan.CheckUrl? || plan.ReadHash? || plan.Ask? ==> Grounds(p, PerformApiRequest, payload, plan)
  {
  }

  lemma DeployGrounds(p: Permissions, deps: Deps, payload: Json)
    ensures var plan := DeployPlan(p, deps, payload);
            plan.CheckUrl? || plan.ReadHash? || plan.Ask? ==> Grounds(p, DeployWorkflow, payload, plan)
  {
  }

  lemma LedgerGrounds(p: Permissions, deps: Deps, projectId: Text, op: Operation, payload: Json)
    requires op == ApproveContextLockAction || op == PerformProtectedBrokerAction
    ensures var plan := LedgerPlan(p, deps, projectId, op, payload);
            plan.CheckUrl? || plan.ReadHash? || plan.Ask? ==> Grounds(p, op, payload, plan)
  {
  }

  lemma SuspensionGrounds(p: Permissions, deps: Deps, projectId: Text, op: Operation, payload: Json)
    ensures var plan := Decide(p, deps, projectId, op, payload);
            plan.CheckUrl? || plan.ReadHash? || plan.Ask? ==>
              op in p.allowedOperations && projectId in p.allowedProjects && Grounds(p, op, payload, plan)
  {
    match op {
      case PerformApiRequest => ApiGrounds(p, payload);
      case DeployWorkflow => DeployGrounds(p, deps, payload);
      case ApproveContextLockAction => LedgerGrounds(p, deps, projectId, op, payload);
      case PerformProtectedBrokerAction => LedgerGrounds(p, deps, projectId, op, payload);
      case _ =>
    }
  }

  predicate NamesOne(payload: Json, name: string, allowed: set<Text>) {
    var t := Read(payload, name, []);
    t.Some? && t.value in allowed
  }

  predicate AskableOrDone(p: Permissions, deps: Deps, payload: Json) {
    if NeedsHuman(p, payload) then deps.askHuman && Read(payload, "policyReason", ABOVE_CEILING).Some? else deps.ledger
  }

  /** The lists permit what the payload names, and this machine can do it. */
  predicate PermitsNamed(p: Permissions, deps: Deps, op: Operation, payload: Json) {
    match op
    case PerformApiRequest =>
      && NamesOne(payload, "credentialRef", p.allowedCredentialRefs)
      && NamesOne(payload, "operationId", p.allowedApiOperationIds) && Read(payload, "url", []).Some?
    case SimulateWorkflow => NamesOne(payload, "workflow", p.allowedCreWorkflows) && deps.runCreWorkflow
    case CreStatus => deps.creDeploy
    case BuildWorkflow => NamesOne(payload, "workflow", p.allowedCreWorkflows) && deps.creDeploy
    case DeployWorkflow =>
      && NamesOne(payload, "workflow", p.allowedCreWorkflows) && deps.creDeploy && Read(payload, "wasmPath", []).Some?
      && var registry, approved := Read(payload, "registry", []), Read(payload, "approvedWasmSha256", []);
         registry.Some? && !(Ascii("onchain:") <= registry.value) && approved.Some? && IsSha256Hex(approved.value)
    case WorkflowLifecycle =>
      && NamesOne(payload, "workflow", p.allowedCreWorkflows) && deps.creDeploy
      && var action := Read(payload, "action", []);
         action.Some? && IsLifecycleAction(action.value)
    case ApproveContextLockAction =>
      NamesOne(payload, "actionType", p.allowedLedgerActionTypes) && AskableOrDone(p, deps, payload)
    case PerformProtectedBrokerAction =>
      NamesOne(payload, "actionType", p.allowedLedgerActionTypes) && AskableOrDone(p, deps, payload)
  }

  /** A plan that goes ahead: it acts as the payload names, or waits for an answer first. */
  predicate GoesAhead(plan: Plan) {
    !plan.Refuse? && !plan.Fails?
  }

  predicate ActsAsNamed(plan: Plan, payload: Json) {
    plan.Act? ==> Named(payload, plan.effect)
  }

  lemma ApiExact(p: Permissions, deps: Deps, payload: Json)
    ensures GoesAhead(ApiRequestPlan(p, payload)) <==> PermitsNamed(p, deps, PerformApiRequest, payload)
    ensures ActsAsNamed(ApiRequestPlan(p, payload), payload)
  {
  }

  lemma WorkflowsExact(p: Permissions, deps: Deps, payload: Json)
    ensures GoesAhead(SimulatePlan(p, deps, payload)) <==> PermitsNamed(p, deps, SimulateWorkflow, payload)
    ensures ActsAsNamed(SimulatePlan(p, deps, payload), payload)
    ensures GoesAhead(BuildPlan(p, deps, payload)) <==> PermitsNamed(p, deps, BuildWorkflow, payload)
    ensures ActsAsNamed(BuildPlan(p, deps, payload), payload)
  {
  }

  lemma LifecycleExact(p: Permissions, deps: Deps, payload: Json)
    ensures GoesAhead(LifecyclePlan(p, deps, payload)) <==> PermitsNamed(p, deps, WorkflowLifecycle, payload)
    ensures ActsAsNamed(LifecyclePlan(p, deps, payload), payload)
  {
  }

  lemma DeployExact(p: Permissions, deps: Deps, payload: Json)
    ensures GoesAhead(DeployPlan(p, deps, payload)) <==> PermitsNamed(p, deps, DeployWorkflow, payload)
    ensures ActsAsNamed(DeployPlan(p, deps, payload), payload)
  {
  }

  lemma LedgerExact(p: Permissions, deps: Deps, projectId: Text, op: Operation, payload: Json)
    requires op == ApproveContextLockAction || op == PerformProtectedBrokerAction
    ensures GoesAhead(LedgerPlan(p, deps, projectId, op, payload)) <==> PermitsNamed(p, deps, op, payload)
    ensures ActsAsNamed(LedgerPlan(p, deps, projectId, op, payload), payload)
  {
  }

  /** A handler goes ahead exactly with what the session permits and this machine can do, and then it
      does nothing but what the payload names. */
  lemma DecidesExactly(p: Permissions, deps: Deps, projectId: Text, op: Operation, payload: Json)
    ensures var plan := Decide(p, deps, projectId, op, payload);
            && (GoesAhead(plan) <==>
                op in p.allowedOperations && projectId in p.allowedProjects && PermitsNamed(p, deps, op, payload))
            && ActsAsNamed(plan, payload)
  {
    match op {
      case PerformApiRequest => ApiExact(p, deps, payload);
      case SimulateWorkflow => WorkflowsExact(p, deps, payload);
      case CreStatus =>
      case BuildWorkflow => WorkflowsExact(p, deps, payload);
      case DeployWorkflow => DeployExact(p, deps, payload);
      case WorkflowLifecycle => LifecycleExact(p, deps, payload);
      case _ => LedgerExact(p, deps, projectId, op, payload);
    }
  }

  // ----- payloads that mean the same are treated the same -----

  lemma {:induction false} LookupAt(fs: seq<Entry>, i: nat)
    requires DistinctKeys(fs) && i < |fs|
    ensures Lookup(fs, fs[i].key) == fs[i].val
  {
    if i > 0 {
      LookupAt(fs[1..], i - 1);
    }
  }

  lemma {:induction false} LookupMissing(fs: seq<Entry>, key: Text)
    requires !HasKey(fs, key)
    ensures Lookup(fs, key) == Undefined
  {
    if fs != [] {
      assert fs[0].key != key;
      forall i | 0 <= i < |fs[1..]| ensures fs[1..][i].key != key {
        assert fs[1..][i] == fs[i + 1];
      }
      LookupMissing(fs[1..], key);
    }
  }

  lemma HasKeyAmong(fs: seq<Entry>, ws: seq<Entry>, r: seq<Entry>, key: Text)
    requires |ws| == |fs| && forall i | 0 <= i < |fs| :: ws[i].key == fs[i].key
    requires forall e :: e in r <==> e in ws
    ensures HasKey(r, key) <==> HasKey(fs, key)
  {
    if i :| 0 <= i < |fs| && fs[i].key == key {
      assert ws[i] in r;
      var j :| 0 <= j < |r| && r[j] == ws[i];
    }
    if j :| 0 <= j < |r| && r[j].key == key {
      assert r[j] in ws;
      var i :| 0 <= i < |fs| && ws[i] == r[j];
      assert fs[i].key == key;
    }
  }

  lemma HasKeyOfWalk(fs: seq<Entry>, key: Text)
    requires DistinctKeys(fs)
    ensures HasKey(Walk(Obj(fs)).fields, key) <==> HasKey(fs, key)
  {
    WalkedFields(fs);
    HasKeyAmong(fs, WalkFields(fs), Walk(Obj(fs)).fields, key);
  }

  lemma LookupOfWalk(fs: seq<Entry>, i: nat)
    requires DistinctKeys(fs) && i < |fs|
    ensures Lookup(Walk(Obj(fs)).fields, fs[i].key) == Walk(fs[i].val)
  {
    var r := Walk(Obj(fs)).fields;
    WalkedFields(fs);
    assert WalkFields(fs)[i] in r;
    var j :| 0 <= j < |r| && r[j] == WalkFields(fs)[i];
    LookupAt(r, j);
  }

  /** Reading a property of the walked payload is walking the property. */
  lemma GetOfWalk(payload: Json, name: Text)
    requires Valid(payload)
    ensures IsNullish(Get(payload, name)) <==> IsNullish(Get(Walk(payload), name))
    ensures !IsNullish(Get(payload, name)) ==> Get(Walk(payload), name) == Walk(Get(payload, name))
    ensures Valid(Get(payload, name))
  {
    if payload.Obj? {
      var fs := payload.fields;
      if i :| 0 <= i < |fs| && fs[i].key == name {
        LookupAt(fs, i);
        LookupOfWalk(fs, i);
      } else {
        assert !HasKey(fs, name);
        HasKeyOfWalk(fs, name);
        LookupMissing(fs, name);
        LookupMissing(Walk(payload).fields, name);
      }
    }
  }

  lemma {:induction false} StringOfWalk(v: Json)
    requires Valid(v) && !IsNullish(v)
    ensures StringOf(Walk(v)) == StringOf(v)
    decreases v, 1
  {
    match v {
      case Arr(items) => JoinOfWalk(items, true);
      case Obj(fs) => HasKeyOfWalk(fs, Ascii("toString"));
      case _ =>
    }
  }

  lemma {:induction false} JoinOfWalk(items: seq<Json>, first: bool)
    requires forall i | 0 <= i < |items| :: Valid(items[i])
    ensures JoinText(WalkItems(items), first) == JoinText(items, first)
    decreases items, 0
  {
    if items != [] {
      if !IsNullish(items[0]) {
        StringOfWalk(items[0]);
      }
      JoinOfWalk(items[1..], false);
      assert WalkItems(items)[1..] == WalkItems(items[1..]);
    }
  }

  lemma ReadOfWalk(payload: Json, name: string, fallback: Text)
    requires Valid(payload)
    ensures Read(Walk(payload), name, fallback) == Read(payload, name, fallback)
  {
    var v := Get(payload, Ascii(name));
    GetOfWalk(payload, Ascii(name));
    if !IsNullish(v) {
      StringOfWalk(v);
    }
  }

  /** A plan with the argument object in normal form, and without the Ledger digest, which is
      taken over the plain rather than the canonical serialization. */
  function Erase(plan: Plan): Plan {
    match plan
    case Act(RunWorkflow(w, args)) => Act(RunWorkflow(w, Walk(args)))
    case Act(LedgerApprove(t, _)) => Act(LedgerApprove(t, []))
    case Ask(p, t, _) => Ask(p, t, [])
    case _ => plan
  }

  lemma ApiRequestOfWalk(p: Permissions, payload: Json)
    requires Valid(payload)
    ensures ApiRequestPlan(p, Walk(payload)) == ApiRequestPlan(p, payload)
  {
    ReadOfWalk(payload, "credentialRef", []);
    ReadOfWalk(payload, "operationId", []);
    ReadOfWalk(payload, "url", []);
  }

  lemma ArgsOfWalk(payload: Json)
    requires Valid(payload)
    ensures Walk(Args(Walk(payload))) == Walk(Args(payload))
  {
    GetOfWalk(payload, Ascii("args"));
    WalkTwice(Get(payload, Ascii("args")));
  }

  lemma SimulateOfWalk(p: Permissions, deps: Deps, payload: Json)
    requires Valid(payload)
    ensures Erase(SimulatePlan(p, deps, Walk(payload))) == Erase(SimulatePlan(p, deps, payload))
  {
    ReadOfWalk(payload, "workflow", []);
    ArgsOfWalk(payload);
    SimulateErased(p, deps, Read(payload, "workflow", []), Args(Walk(payload)), Args(payload));
  }

  lemma SimulateErased(p: Permissions, deps: Deps, w: Option<Text>, x: Json, y: Json)
    requires Walk(x) == Walk(y)
    ensures Erase(SimulateWith(p, deps, w, x)) == Erase(SimulateWith(p, deps, w, y))
  {
  }

  lemma BuildOfWalk(p: Permissions, deps: Deps, payload: Json)
    requires Valid(payload)
    ensures BuildPlan(p, deps, Walk(payload)) == BuildPlan(p, deps, payload)
  {
    ReadOfWalk(payload, "workflow", []);
  }

  lemma DeployOfWalk(p: Permissions, deps: Deps, payload: Json)
    requires Valid(payload)
    ensures DeployPlan(p, deps, Walk(payload)) == DeployPlan(p, deps, payload)
  {
    ReadOfWalk(payload, "workflow", []);
    ReadOfWalk(payload, "wasmPath", []);
    ReadOfWalk(payload, "registry", []);
    ReadOfWalk(payload, "approvedWasmSha256", []);
  }

  lemma LifecycleOfWalk(p: Permissions, deps: Deps, payload: Json)
    requires Valid(payload)
    ensures LifecyclePlan(p, deps, Walk(payload)) == LifecyclePlan(p, deps, payload)
  {
    ReadOfWalk(payload, "workflow", []);
    ReadOfWalk(payload, "action", []);
  }

  lemma PromptOfWalk(p: Permissions, payload: Json)
    requires Valid(payload)
    ensures NeedsHuman(p, Walk(payload)) == NeedsHuman(p, payload)
    ensures Amount(Walk(payload)) == Amount(payload)
    ensures Destination(Walk(payload)) == Destination(payload)
  {
    GetOfWalk(payload, Ascii("amountUsdCents"));
    GetOfWalk(payload, Ascii("destination"));
  }

  lemma LedgerOfWalk(p: Permissions, deps: Deps, projectId: Text, op: Operation, payload: Json)
    requires Valid(payload)
    ensures Erase(LedgerPlan(p, deps, projectId, op, Walk(payload)))
            == Erase(LedgerPlan(p, deps, projectId, op, payload))
  {
    PromptOfWalk(p, payload);
    ReadOfWalk(payload, "actionType", []);
    ReadOfWalk(payload, "policyReason", ABOVE_CEILING);
    LedgerErased(p, deps, Read(payload, "actionType", []), NeedsHuman(p, payload),
                 Read(payload, "policyReason", ABOVE_CEILING),
                 Prompt(projectId, op, [], Amount(payload), Destination(payload), []),
                 Stringify(Walk(payload)), Stringify(payload));
  }

  lemma LedgerErased(p: Permissions, deps: Deps, t: Option<Text>, needsHuman: bool, why: Option<Text>,
                     prompt: Prompt, x: Text, y: Text)
    ensures Erase(LedgerWith(p, deps, t, needsHuman, why, prompt, x))
            == Erase(LedgerWith(p, deps, t, needsHuman, why, prompt, y))
  {
  }

  lemma DecideOfWalk(p: Permissions, deps: Deps, projectId: Text, op: Operation, payload: Json)
    requires Valid(payload)
    ensures Erase(Decide(p, deps, projectId, op, Walk(payload))) == Erase(Decide(p, deps, projectId, op, payload))
  {
    match op {
      case PerformApiRequest => ApiRequestOfWalk(p, payload);
      case SimulateWorkflow => SimulateOfWalk(p, deps, payload);
      case CreStatus =>
      case BuildWorkflow => BuildOfWalk(p, deps, payload);
      case DeployWorkflow => DeployOfWalk(p, deps, payload);
      case WorkflowLifecycle => LifecycleOfWalk(p, deps, payload);
      case _ => LedgerOfWalk(p, deps, projectId, op, payload);
    }
  }

  /** With an injective payload hash, two payloads accepted under one signed request take the same
      decision, suspend for the same question and request the same effect. */
  lemma SignedRequestFixesDecision(c: Crypto, p: Permissions, deps: Deps, projectId: Text, op: Operation,
                                   x: Json, y: Json)
    requires ShaInjective(c) && Valid(x) && Valid(y)
    requires PayloadHash(c, x) == PayloadHash(c, y)
    ensures Erase(Decide(p, deps, projectId, op, x)) == Erase(Decide(p, deps, projectId, op, y))
  {
    PayloadHashExact(c, x, y);
    WalkOfMeaning(x, y);
    DecideOfWalk(p, deps, projectId, op, x);
    DecideOfWalk(p, deps, projectId, op, y);
  }
}
