/** The bridge's request envelope: what is hashed, what is signed, and what that fixes. */
module SignedRequest {
  import opened Texts
  import opened CanonicalJson
  import opened CanonicalMeaning

  /** The ten fields of a request. */
  datatype Request = Request(
    protocolVersion: Text,
    requestId: Text,
    bridgeId: Text,
    userId: Text,
    projectId: Text,
    operationType: Text,
    payloadHash: Text,
    issuedAtMs: int,
    expiresAtMs: int,
    nonce: Text)

  /** HMAC (section 2 of RFC 2104) and SHA-256 are parameters. A signature is the bytes it decodes to. */
  datatype Crypto = Crypto(mac: (Bytes, Bytes) -> Bytes, sha: Bytes -> Text)

  ghost predicate MacInjective(c: Crypto) {
    forall k, a, b :: c.mac(k, a) == c.mac(k, b) ==> a == b
  }

  ghost predicate ShaInjective(c: Crypto) {
    forall a, b :: c.sha(a) == c.sha(b) ==> a == b
  }

  // ----- integers as numbers -----

  function NumOfInt(i: int): Number {
    if i == 0 then Number(false, [], 0) else
      var d := ToDigits(Dec(if i < 0 then -i else i));
      Number(i < 0, StripTrail(d), |d|)
  }

  lemma {:induction false} DecLeads(n: nat)
    requires n > 0
    ensures Dec(n)[0] != 48
  {
    if n >= 10 {
      DecLeads(n / 10);
    }
  }

  lemma {:induction false} StripTrailPads(d: seq<Digit>)
    ensures |StripTrail(d)| <= |d| && d == StripTrail(d) + Zeros(|d| - |StripTrail(d)|)
    ensures StripTrail(d) == [] || StripTrail(d)[|StripTrail(d)| - 1] != 0
  {
    if d != [] && d[|d| - 1] == 0 {
      StripTrailPads(d[..|d| - 1]);
    }
  }

  lemma NumOfIntValid(i: int)
    ensures ValidNumber(NumOfInt(i))
  {
    if i != 0 {
      var n := if i < 0 then -i else i;
      var d := ToDigits(Dec(n));
      DecLeads(n);
      StripTrailPads(d);
      assert d[0] != 0;
      assert StripTrail(d) != [];
    }
  }

  lemma NumOfIntInjective(i: int, j: int)
    requires NumOfInt(i) == NumOfInt(j)
    ensures i == j
  {
    NumOfIntValid(i);
    NumOfIntValid(j);
    if i != 0 && j != 0 {
      var m, n := if i < 0 then -i else i, if j < 0 then -j else j;
      StripTrailPads(ToDigits(Dec(m)));
      StripTrailPads(ToDigits(Dec(n)));
      assert ToDigits(Dec(m)) == ToDigits(Dec(n));
      forall k | 0 <= k < |Dec(m)| ensures Dec(m)[k] == Dec(n)[k] {
        assert ToDigits(Dec(m))[k] == ToDigits(Dec(n))[k];
      }
      assert Dec(m) == Dec(n);
      DecValueOfDec(m);
      DecValueOfDec(n);
    }
  }

  // ----- signing -----

  /** The names of the signed fields, in the order they are written. */
  const SIGNED_NAMES: seq<string> := [
    "protocolVersion", "requestId", "bridgeId", "userId", "projectId", "operationType", "payloadHash", "issuedAtMs",
    "expiresAtMs", "nonce"]

  function SignedValues(r: Request): (values: seq<Json>)
    ensures |values| == |SIGNED_NAMES|
  {
    [Str(r.protocolVersion), Str(r.requestId), Str(r.bridgeId), Str(r.userId), Str(r.projectId), Str(r.operationType),
     Str(r.payloadHash), Num(NumOfInt(r.issuedAtMs)), Num(NumOfInt(r.expiresAtMs)), Str(r.nonce)]
  }

  function SigningObject(r: Request): Json {
    var values := SignedValues(r);
    Obj(seq(|SIGNED_NAMES|, k requires 0 <= k < |SIGNED_NAMES| => Entry(Ascii(SIGNED_NAMES[k]), values[k])))
  }

  function SigningInput(r: Request): Text {
    Canonical(SigningObject(r))
  }

  function Sign(c: Crypto, r: Request, key: Bytes): Bytes {
    c.mac(key, Utf8(SigningInput(r)))
  }

  predicate VerifySignature(c: Crypto, r: Request, key: Bytes, signature: Bytes) {
    signature == Sign(c, r, key)
  }

  function PayloadHash(c: Crypto, payload: Json): Text {
    Ascii("sha256:") + c.sha(Utf8(Canonical(payload)))
  }

  lemma NamesDiffer(i: nat, j: nat)
    requires i < j < |SIGNED_NAMES|
    ensures Ascii(SIGNED_NAMES[i]) != Ascii(SIGNED_NAMES[j])
  {
    var lengths := [15, 9, 8, 6, 9, 13, 11, 10, 11, 5];
    assert |SIGNED_NAMES[i]| == lengths[i] && |SIGNED_NAMES[j]| == lengths[j];
    assert Ascii(SIGNED_NAMES[1])[0] == 114 && Ascii(SIGNED_NAMES[4])[0] == 112;
    assert Ascii(SIGNED_NAMES[6])[0] == 112 && Ascii(SIGNED_NAMES[8])[0] == 101;
  }

  lemma SignedValuesValid(r: Request, k: nat)
    requires k < |SIGNED_NAMES|
    ensures Valid(SignedValues(r)[k])
  {
    NumOfIntValid(r.issuedAtMs);
    NumOfIntValid(r.expiresAtMs);
  }

  lemma SigningObjectValid(r: Request)
    ensures Valid(SigningObject(r))
  {
    var fs := SigningObject(r).fields;
    forall i, j | 0 <= i < j < |fs| ensures fs[i].key != fs[j].key {
      NamesDiffer(i, j);
    }
    forall k | 0 <= k < |fs| ensures Valid(fs[k].val) {
      SignedValuesValid(r, k);
    }
  }

  /** Equally named properties of objects that mean the same have values that mean the same. */
  lemma SameFieldSameMeaning(fs: seq<Entry>, gs: seq<Entry>, k: nat)
    requires DistinctKeys(fs) && DistinctKeys(gs) && FieldMeanings(fs) == FieldMeanings(gs)
    requires k < |fs| && k < |gs| && fs[k].key == gs[k].key
    ensures MeaningOf(fs[k].val) == MeaningOf(gs[k].val)
  {
    FieldMeaningsAt(fs);
    FieldMeaningsAt(gs);
  }

  ghost function MeaningAt(r: Request, k: nat): Meaning
    requires k < |SIGNED_NAMES|
  {
    MeaningOf(SignedValues(r)[k])
  }

  lemma SigningFields(r: Request, s: Request, k: nat)
    requires k < |SIGNED_NAMES|
    requires MeaningOf(SigningObject(r)) == MeaningOf(SigningObject(s))
    ensures MeaningAt(r, k) == MeaningAt(s, k)
  {
    SigningObjectValid(r);
    SigningObjectValid(s);
    SameFieldSameMeaning(SigningObject(r).fields, SigningObject(s).fields, k);
  }

  lemma SignedMeanings(r: Request)
    ensures MeaningAt(r, 0) == StrM(r.protocolVersion) && MeaningAt(r, 1) == StrM(r.requestId)
    ensures MeaningAt(r, 2) == StrM(r.bridgeId) && MeaningAt(r, 3) == StrM(r.userId)
            && MeaningAt(r, 4) == StrM(r.projectId)
    ensures MeaningAt(r, 5) == StrM(r.operationType) && MeaningAt(r, 6) == StrM(r.payloadHash)
    ensures MeaningAt(r, 7) == NumM(NumOfInt(r.issuedAtMs)) && MeaningAt(r, 8) == NumM(NumOfInt(r.expiresAtMs))
    ensures MeaningAt(r, 9) == StrM(r.nonce)
  {
  }

  lemma SigningObjectInjective(r: Request, s: Request)
    requires MeaningOf(SigningObject(r)) == MeaningOf(SigningObject(s))
    ensures r == s
  {
    SigningFields(r, s, 0);
    SigningFields(r, s, 1);
    SigningFields(r, s, 2);
    SigningFields(r, s, 3);
    SigningFields(r, s, 4);
    SigningFields(r, s, 5);
    SigningFields(r, s, 6);
    SigningFields(r, s, 7);
    SigningFields(r, s, 8);
    SigningFields(r, s, 9);
    SignedMeanings(r);
    SignedMeanings(s);
    NumOfIntInjective(r.issuedAtMs, s.issuedAtMs);
    NumOfIntInjective(r.expiresAtMs, s.expiresAtMs);
  }

  /** The signing input determines every field of the request. */
  lemma SigningInputFixesFields(r: Request, s: Request)
    ensures SigningInput(r) == SigningInput(s) <==> r == s
  {
    SigningObjectValid(r);
    SigningObjectValid(s);
    CanonicalExact(SigningObject(r), SigningObject(s));
    if SigningInput(r) == SigningInput(s) { SigningObjectInjective(r, s); }
  }

  /** Under one key, a signature that verifies for a request verifies for no other. */
  lemma OneSignatureOneRequest(c: Crypto, key: Bytes, signature: Bytes, r: Request, s: Request)
    requires MacInjective(c) && VerifySignature(c, r, key, signature)
    ensures VerifySignature(c, s, key, signature) <==> s == r
  {
    SigningObjectValid(r);
    SigningObjectValid(s);
    HashInputExact(SigningObject(r), SigningObject(s));
    if VerifySignature(c, s, key, signature) { SigningObjectInjective(r, s); }
  }

  lemma PrefixCancels(p: Text, a: Text, b: Text)
    ensures p + a == p + b <==> a == b
  {
    assert (p + a)[|p|..] == a && (p + b)[|p|..] == b;
  }

  lemma HashOfBytes(c: Crypto, a: Bytes, b: Bytes)
    requires ShaInjective(c)
    ensures Ascii("sha256:") + c.sha(a) == Ascii("sha256:") + c.sha(b) <==> a == b
  {
    PrefixCancels(Ascii("sha256:"), c.sha(a), c.sha(b));
  }

  /** Two payloads have one hash exactly when they mean the same. */
  lemma PayloadHashExact(c: Crypto, p: Json, q: Json)
    requires ShaInjective(c) && Valid(p) && Valid(q)
    ensures PayloadHash(c, p) == PayloadHash(c, q) <==> MeaningOf(p) == MeaningOf(q)
  {
    HashInputExact(p, q);
    HashOfBytes(c, Utf8(Canonical(p)), Utf8(Canonical(q)));
  }

  // ----- the operation vocabularies -----

  datatype Operation =
    | SimulateWorkflow
    | CreStatus
    | BuildWorkflow
    | DeployWorkflow
    | WorkflowLifecycle
    | ApproveContextLockAction
    | PerformProtectedBrokerAction
    | PerformApiRequest

  function OperationName(op: Operation): Text {
    match op
    case SimulateWorkflow => Ascii("cre.simulateWorkflow")
    case CreStatus => Ascii("cre.status")
    case BuildWorkflow => Ascii("cre.buildWorkflow")
    case DeployWorkflow => Ascii("cre.deployWorkflow")
    case WorkflowLifecycle => Ascii("cre.workflowLifecycle")
    case ApproveContextLockAction => Ascii("ledger.approveContextLockAction")
    case PerformProtectedBrokerAction => Ascii("ledger.performProtectedBrokerAction")
    case PerformApiRequest => Ascii("credential.performApiRequest")
  }

  function OperationOf(t: Text): (r: Option<Operation>)
    ensures r.Some? ==> OperationName(r.value) == t
  {
    if t == OperationName(SimulateWorkflow) then Some(SimulateWorkflow)
    else if t == OperationName(CreStatus) then Some(CreStatus)
    else if t == OperationName(BuildWorkflow) then Some(BuildWorkflow)
    else if t == OperationName(DeployWorkflow) then Some(DeployWorkflow)
    else if t == OperationName(WorkflowLifecycle) then Some(WorkflowLifecycle)
    else if t == OperationName(ApproveContextLockAction) then Some(ApproveContextLockAction)
    else if t == OperationName(PerformProtectedBrokerAction) then Some(PerformProtectedBrokerAction)
    else if t == OperationName(PerformApiRequest) then Some(PerformApiRequest)
    else None
  }

  /** Names of operations that deliberately do not exist. */
  const FORBIDDEN_OPERATIONS: seq<string> := [
    "getSecret", "credential.get", "credential.reveal", "runShell", "shell.exec", "readEnv", "env.read",
    "dumpCRESession", "cre.exportSession", "getLedgerSeed", "ledger.exportSeed", "ledger.getPin", "fs.read",
    "cre.runCommand", "cre.getApiKey", "cre.readConfig", "wallet.getPrivateKey", "wallet.exportKeystore",
    "docker.runCommand", "docker.socket"
  ]

  predicate Spells(t: Text, s: string) {
    |t| == |s| && forall i | 0 <= i < |t| :: t[i] == s[i] as int
  }

  predicate IsForbidden(t: Text) {
    exists i :: 0 <= i < |FORBIDDEN_OPERATIONS| && Spells(t, FORBIDDEN_OPERATIONS[i])
  }

  lemma OperationOfName(op: Operation)
    ensures OperationOf(OperationName(op)) == Some(op)
  {
    assert OperationOf(OperationName(op)).Some?;
    var n := OperationName(op);
    match op {
      case SimulateWorkflow => assert |n| == 20;
      case CreStatus => assert |n| == 10;
      case BuildWorkflow => assert |n| == 17;
      case DeployWorkflow => assert |n| == 18;
      case WorkflowLifecycle => assert |n| == 21;
      case ApproveContextLockAction => assert |n| == 31;
      case PerformProtectedBrokerAction => assert |n| == 35;
      case PerformApiRequest => assert |n| == 28;
    }
  }

  /** The two vocabularies do not overlap. */
  lemma VocabulariesDisjoint(op: Operation)
    ensures !IsForbidden(OperationName(op))
  {
    var n := OperationName(op);
    assert n[0] == 'c' as int || n[0] == 'l' as int;
    match op {
      case SimulateWorkflow => assert |n| == 20;
      case CreStatus => assert |n| == 10;
      case BuildWorkflow => assert |n| == 17 && n[4] == 'b' as int;
      case DeployWorkflow => assert |n| == 18;
      case WorkflowLifecycle => assert |n| == 21 && n[1] == 'r' as int;
      case ApproveContextLockAction => assert |n| == 31;
      case PerformProtectedBrokerAction => assert |n| == 35;
      case PerformApiRequest => assert |n| == 28;
    }
  }
}
