/** The broker: tables updated in place, each method one step of the runs in `BrokerRuns`. */
module Broker {
  import opened Texts
  import opened BrokerRuns

  lemma OneEntry(id: Text, a: AuditType)
    ensures Entries(id, [a]) == [AuditEntry(id, a)]
  {
  }

  lemma TwoEntries(id: Text, a: AuditType, b: AuditType)
    ensures Entries(id, [a, b]) == [AuditEntry(id, a)] + [AuditEntry(id, b)]
  {
  }

  lemma NothingAdded<T>(xs: seq<T>)
    ensures xs + [] == xs
  {
  }

  /** The first row of a request is the first of its rows. */
  lemma {:induction false} FirstAuth(auths: seq<AuthRow>, i: nat, id: Text)
    requires i < |auths| && auths[i].requestId == id && AuthsOf(auths[..i], id) == []
    ensures AuthsOf(auths, id) != [] && AuthsOf(auths, id)[0] == auths[i]
    decreases |auths|
  {
    var n := |auths| - 1;
    var rest := AuthsOf(auths[..n], id);
    assert AuthsOf(auths, id) == rest + (if auths[n].requestId == id then [auths[n]] else []);
    if i < n {
      assert auths[..n][..i] == auths[..i];
      FirstAuth(auths[..n], i, id);
    } else {
      assert rest == [];
    }
  }

  /** What the caller gets once the evaluator has answered, if the call is over then. */
  function ReplyAfter(s: State, id: Text): Reply
    requires id in s.calls && id in s.requests
  {
    if s.calls[id].EvaluationThrew? then Threw else if s.calls[id].Refused? then Answer(RecordOf(s, id)) else Suspended
  }

  lemma IsRequest(cfg: Config, s: State, id: Text)
    requires Inv(cfg, s) && id in s.calls
    ensures id in s.requests
  {
  }

  /** What is told of a request while it is being signed. */
  lemma SigningRecord(cfg: Config, s: State, id: Text)
    requires RequestOk(cfg, s, id) && s.calls[id].Signing?
    ensures AuthorizationOf(s.auths, id) == Some(AuthorizationIn(s.calls[id].evaluation))
    ensures SourceOf(s.requests[id]) == s.calls[id].identity.source
  {
  }

  class Broker {
    const cfg: Config
    var requests: map<Text, RequestRow>
    /** The unique index over idempotency keys. */
    var byKey: map<Text, Text>
    var auths: seq<AuthRow>
    var caps: seq<CapRow>
    var audits: seq<AuditEntry>
    var nonceCounter: nat
    /** Where the call of each request stands. */
    var calls: map<Text, Progress>
    ghost var draws: seq<Draw>

    ghost function Snapshot(): State
      reads this
    {
      State(requests, byKey, auths, caps, audits, nonceCounter, calls, draws)
    }

    ghost predicate Valid()
      reads this
    {
      Inv(cfg, Snapshot())
    }

    constructor (cfg: Config)
      ensures Valid() && this.cfg == cfg && Snapshot() == INIT
    {
      this.cfg := cfg;
      requests, byKey, calls := map[], map[], map[];
      auths, caps, audits := [], [], [];
      nonceCounter := 0;
      draws := [];
    }

    method Audit(id: Text, what: AuditType)
      modifies this`audits
      ensures audits == old(audits) + [AuditEntry(id, what)]
    {
      audits := audits + [AuditEntry(id, what)];
    }

    method SetStatus(id: Text, status: Status, reason: Text)
      requires id in requests
      modifies this`requests
      ensures requests == old(requests)[id := Settled(old(requests)[id], status, reason)]
    {
      requests := requests[id := requests[id].(status := status, reason := Some(reason))];
    }

    /** Strictly above every nonce drawn before, while the clock does not go back. */
    method DrawNonce(id: Text, now: nat) returns (nonce: nat)
      modifies this`nonceCounter, this`draws
      ensures nonce == NextNonce(old(Snapshot()), now) && Snapshot() == Draws(old(Snapshot()), id, now)
    {
      nonceCounter := nonceCounter + 1;
      nonce := now * 1000 + nonceCounter;
      draws := draws + [Draw(id, nonce)];
    }

    /** The first authorization row of a request. */
    method FindAuthorization(id: Text) returns (r: Option<Authorization>)
      ensures r == AuthorizationOf(auths, id)
    {
      var i := 0;
      while i < |auths|
        invariant i <= |auths| && AuthsOf(auths[..i], id) == []
      {
        assert auths[..i + 1][..i] == auths[..i];
        if auths[i].requestId == id {
          FirstAuth(auths, i, id);
          return Some(Authorization(auths[i].authorizationId, auths[i].approvedUntil, auths[i].source));
        }
        i := i + 1;
      }
      assert auths[..i] == auths;
      return None;
    }

    /** All that is told of a request. */
    method GetRequest(id: Text) returns (r: Option<Record>)
      ensures r.Some? <==> id in requests
      ensures r.Some? ==> r.value == RecordOf(Snapshot(), id)
    {
      if id !in requests { return None; }
      var row := requests[id];
      var authorization := FindAuthorization(id);
      return Some(Record(id, row.status, row.reason, authorization, SourceOf(row)));
    }

    /** Checks made before anything is inserted, in order. */
    method Vet(input: CreateInput) returns (why: Option<Denial>, tx: Option<Transaction>)
      ensures why == Vetted(cfg, input).0
      ensures why.None? ==> tx == Some(Vetted(cfg, input).1.tx)
    {
      if input.policyId !in cfg.policies { return Some(PolicyDisabled), None; }
      var policy := cfg.policies[input.policyId];
      if !policy.enabled { return Some(PolicyDisabled), None; }
      if input.actionKind !in policy.allowedActionKinds { return Some(ActionDenied), None; }
      match cfg.adapter(input.actionKind, input.adapterParams, policy.target) {
        case UnknownKind => return Some(ActionDenied), None;
        case BadParameters => return Some(InvalidParameters), None;
        case Fenced => return Some(WriteFenced), None;
        case Built(built) =>
          if built.target !in policy.allowedTargets { return Some(TargetDenied), None; }
          if built.value > policy.maxValueHardCap { return Some(ValueExceedsCap), None; }
          return None, Some(built);
      }
    }

    /** A second call under a key. */
    method Replayed(key: Text) returns (r: Record)
      requires key in byKey && byKey[key] in requests
      modifies this`audits
      ensures Snapshot() == Replay(old(Snapshot()), byKey[key]) && r == RecordOf(Snapshot(), byKey[key])
    {
      var existing := byKey[key];
      Audit(existing, IdempotentReplay);
      var authorization := FindAuthorization(existing);
      r := Record(existing, requests[existing].status, requests[existing].reason, authorization,
                  SourceOf(requests[existing]));
    }

    /** Up to the identity lookup. The key is looked up and the row inserted without an `await` between. */
    method Receive(input: CreateInput, id: Text) returns (reply: Reply)
      requires input.idempotencyKey in byKey ==> byKey[input.idempotencyKey] in requests
      modifies this`requests, this`byKey, this`audits, this`calls
      ensures Snapshot() == Create(cfg, old(Snapshot()), input, id)
      ensures reply == CreateReply(cfg, old(Snapshot()), input)
    {
      if input.idempotencyKey in byKey {
        var record := Replayed(input.idempotencyKey);
        return Answer(record);
      }
      var why, tx := Vet(input);
      if why.Some? { return DeniedBeforeInsert(why.value); }
      Insert(input, id, tx.value);
      return Suspended;
    }

    /** `id` is the one just drawn. */
    method CreateRequest(input: CreateInput, id: Text) returns (reply: Reply)
      requires Valid() && id !in requests
      modifies this`requests, this`byKey, this`audits, this`calls
      ensures Valid() && Snapshot() == Create(cfg, old(Snapshot()), input, id)
      ensures reply == CreateReply(cfg, old(Snapshot()), input)
    {
      InvCreate(cfg, Snapshot(), input, id);
      assert KeysOk(Snapshot());
      reply := Receive(input, id);
    }

    method Insert(input: CreateInput, id: Text, tx: Transaction)
      requires Vetted(cfg, input).0.None? && tx == Vetted(cfg, input).1.tx && input.idempotencyKey !in byKey
      modifies this`requests, this`byKey, this`audits, this`calls
      ensures Snapshot() == Create(cfg, old(Snapshot()), input, id)
    {
      var policy := cfg.policies[input.policyId];
      requests := requests[id :=
                           RequestRow(input.idempotencyKey, input.agentEnsName, policy.policyHash, input.actionKind,
                                            tx, Pending, None, None)];
      byKey := byKey[input.idempotencyKey := id];
      Audit(id, RequestReceived);
      calls := calls[id := Resolving];
      OneEntry(id, RequestReceived);
      NothingAdded(auths);
      NothingAdded(caps);
    }

    method FailIdentity(id: Text, code: Text)
      requires id in calls && id in requests && calls[id].Resolving?
      modifies this`requests, this`audits, this`calls
      ensures Snapshot() == AfterResolve(old(Snapshot()), id, NotResolved(code))
    {
      Audit(id, EnsIdentityFailed);
      SetStatus(id, StatusFailed, code);
      calls := calls[id := IdentityFailed(code)];
      OneEntry(id, EnsIdentityFailed);
      NothingAdded(auths);
      NothingAdded(caps);
    }

    method AskEvaluator(id: Text, identity: Identity) returns (asked: EvaluationInput)
      requires id in calls && id in requests && calls[id].Resolving?
      modifies this`requests, this`audits, this`calls
      ensures Snapshot() == AfterResolve(old(Snapshot()), id, Resolved(identity))
      ensures asked == AskedOf(cfg, id, old(requests)[id], identity)
    {
      Audit(id, EnsIdentityValidated);
      Audit(id, EvaluationRequested);
      requests := requests[id := requests[id].(identity := Some(identity))];
      calls := calls[id := Evaluating(identity)];
      TwoEntries(id, EnsIdentityValidated, EvaluationRequested);
      Assoc(old(audits), [AuditEntry(id, EnsIdentityValidated)], [AuditEntry(id, EvaluationRequested)]);
      NothingAdded(auths);
      NothingAdded(caps);
      asked := AskedOf(cfg, id, requests[id], identity);
    }

    /** The identity lookup has answered; the call goes on to the evaluator or throws. */
    method IdentityAnswered(id: Text, r: Resolution) returns (asked: Option<EvaluationInput>)
      requires Valid() && id in calls && calls[id].Resolving?
      modifies this`requests, this`audits, this`calls
      ensures Valid() && Snapshot() == AfterResolve(old(Snapshot()), id, r)
      ensures id in old(requests)
      ensures asked == if r.Resolved? then Some(AskedOf(cfg, id, old(requests)[id], r.identity)) else None
    {
      InvResolve(cfg, Snapshot(), id, r);
      assert AllOk(cfg, Snapshot());
      match r {
        case NotResolved(code) =>
          FailIdentity(id, code);
          return None;
        case Resolved(identity) =>
          var input := AskEvaluator(id, identity);
          return Some(input);
      }
    }

    /** A refusal is recorded and reported; nothing is minted. */
    method Refuse(id: Text, e: Evaluation)
      requires id in calls && id in requests && calls[id].Evaluating?
      requires !HasAuth(auths, e.authorizationId) && e.verdict != Allow
      modifies this`requests, this`auths, this`audits, this`calls
      ensures Snapshot() == AfterEvaluate(cfg, old(Snapshot()), id, Some(e), 0)
    {
      var status := if e.verdict == Deny then StatusDenied else StatusEscalated;
      var last := if e.verdict == Deny then AuditDenied else EscalationCreated;
      auths := auths + [AuthRow(e.authorizationId, id, e.requestHash, e.verdict, e.reasonCode, e.contextCommitment,
                                e.approvedUntil, e.source)];
      Audit(id, AuthorizationObserved(e.verdict));
      Audit(id, last);
      SetStatus(id, status, e.reasonCode);
      calls := calls[id := Refused(calls[id].identity, e)];
      TwoEntries(id, AuthorizationObserved(e.verdict), last);
      Assoc(old(audits), [AuditEntry(id, AuthorizationObserved(e.verdict))], [AuditEntry(id, last)]);
      NothingAdded(caps);
    }

    /** The capability is made of what was evaluated, and sent to be signed. */
    method Prepare(id: Text, e: Evaluation, now: nat) returns (cap: Capability)
      requires id in calls && id in requests && calls[id].Evaluating?
      requires !HasAuth(auths, e.authorizationId) && e.verdict == Allow
      modifies this`requests, this`auths, this`audits, this`calls, this`nonceCounter, this`draws
      ensures Snapshot() == AfterEvaluate(cfg, old(Snapshot()), id, Some(e), now)
      ensures cap == CapabilityOf(cfg, old(requests)[id], old(calls)[id].identity, e, now / 1000,
                                  NextNonce(old(Snapshot()), now))
    {
      var identity, row := calls[id].identity, requests[id];
      auths := auths + [AuthRow(e.authorizationId, id, e.requestHash, e.verdict, e.reasonCode, e.contextCommitment,
                                e.approvedUntil, e.source)];
      Audit(id, AuthorizationObserved(Allow));
      var issuedAt := now / 1000;
      var nonce := DrawNonce(id, now);
      cap := Capability(identity.agentIdentityHash, identity.agent, cfg.chainId, cfg.executor, row.tx.target,
                        row.tx.value,
                        row.tx.calldataHash, row.tx.intentHash, row.policyHash, e.authorizationId, e.contextCommitment,
                        issuedAt, issuedAt + cfg.capabilityTtlSeconds, nonce);
      requests := requests[id := row];
      calls := calls[id := Signing(identity, e, cap)];
      OneEntry(id, AuthorizationObserved(Allow));
      NothingAdded(caps);
    }

    /** What the evaluator's answer leads to. */
    method Conclude(id: Text, r: Option<Evaluation>, now: nat) returns (reply: Reply)
      requires id in calls && id in requests && calls[id].Evaluating?
      modifies this`requests, this`auths, this`audits, this`calls, this`nonceCounter, this`draws
      ensures Snapshot() == AfterEvaluate(cfg, old(Snapshot()), id, r, now)
      ensures reply == ReplyAfter(Snapshot(), id)
    {
      if r.None? || HasAuth(auths, r.value.authorizationId) {
        Throw(id, EvaluationThrew(calls[id].identity));
        return Threw;
      }
      if r.value.verdict != Allow {
        Refuse(id, r.value);
        var record := GetRequest(id);
        return Answer(record.value);
      }
      var _ := Prepare(id, r.value, now);
      return Suspended;
    }

    /** The evaluator has answered, or thrown. */
    method EvaluationAnswered(id: Text, r: Option<Evaluation>, now: nat) returns (reply: Reply)
      requires Valid() && id in calls && calls[id].Evaluating?
      modifies this`requests, this`auths, this`audits, this`calls, this`nonceCounter, this`draws
      ensures Valid() && Snapshot() == AfterEvaluate(cfg, old(Snapshot()), id, r, now)
      ensures id in requests && id in calls
      ensures reply == ReplyAfter(Snapshot(), id)
    {
      IsRequest(cfg, Snapshot(), id);
      reply := Conclude(id, r, now);
      InvEvaluate(cfg, old(Snapshot()), id, r, now);
    }

    /** The call is over and leaves its rows as they are. */
    method Throw(id: Text, p: Progress)
      requires id in requests
      modifies this`requests, this`calls
      ensures Snapshot() == Put(old(Snapshot()), id, old(requests)[id], p, [], [], [])
    {
      requests := requests[id := requests[id]];
      calls := calls[id := p];
      NothingAdded(auths);
      NothingAdded(caps);
      NothingAdded(audits);
      assert Entries(id, []) == [];
    }

    method Mint(id: Text)
      requires id in calls && id in requests && calls[id].Signing? && !HasDigest(caps, cfg.digest(calls[id].cap))
      modifies this`requests, this`caps, this`audits, this`calls
      ensures Snapshot() == AfterSign(cfg, old(Snapshot()), id, true)
    {
      var c := calls[id];
      caps := caps + [CapRow(cfg.digest(c.cap), id, c.cap.nonce, c.cap.issuedAt, c.cap.expiresAt)];
      Audit(id, CapabilityMinted);
      SetStatus(id, StatusAllowed, c.evaluation.reasonCode);
      calls := calls[id := Minted(c.identity, c.evaluation, c.cap)];
      OneEntry(id, CapabilityMinted);
      NothingAdded(auths);
    }

    method Sign(id: Text, ok: bool) returns (reply: Reply)
      requires id in calls && id in requests && calls[id].Signing?
      requires AuthorizationOf(auths, id) == Some(AuthorizationIn(calls[id].evaluation))
      requires SourceOf(requests[id]) == calls[id].identity.source
      modifies this`requests, this`caps, this`audits, this`calls
      ensures Snapshot() == AfterSign(cfg, old(Snapshot()), id, ok)
      ensures reply == if calls[id].Minted? then Answer(RecordOf(Snapshot(), id)) else Threw
    {
      var c := calls[id];
      if !ok || HasDigest(caps, cfg.digest(c.cap)) {
        Throw(id, SigningThrew(c.identity, c.evaluation, c.cap));
        return Threw;
      }
      Mint(id);
      return Answer(Record(id, StatusAllowed, Some(c.evaluation.reasonCode), Some(AuthorizationIn(c.evaluation)),
                           c.identity.source));
    }

    /** The signature has been made, or the signer threw. */
    method SignatureAnswered(id: Text, ok: bool) returns (reply: Reply)
      requires Valid() && id in calls && calls[id].Signing?
      modifies this`requests, this`caps, this`audits, this`calls
      ensures Valid() && Snapshot() == AfterSign(cfg, old(Snapshot()), id, ok)
      ensures id in requests
      ensures reply == if calls[id].Minted? then Answer(RecordOf(Snapshot(), id)) else Threw
    {
      InvSign(cfg, Snapshot(), id, ok);
      assert RequestOk(cfg, Snapshot(), id);
      SigningRecord(cfg, Snapshot(), id);
      reply := Sign(id, ok);
    }
  }
}
