/** What idempotent issuance promises over whole runs: one request and at most one capability per
    key, replays that only report, and nonces that never repeat. */
module BrokerIssuance {
  import opened Texts
  import opened BrokerRuns

  // ----- one request per key -----

  lemma KeyOwner(cfg: Config, es: seq<Event>, a: Text)
    requires FreshRun(cfg, es) && a in Run(cfg, es).requests
    ensures var s := Run(cfg, es); s.requests[a].key in s.byKey && s.byKey[s.requests[a].key] == a
  {
    InvRun(cfg, es);
  }

  /** In every interleaving a key has at most one request, and a request at most one capability. */
  lemma OncePerKey(cfg: Config, es: seq<Event>, a: Text, b: Text)
    requires FreshRun(cfg, es) && a in Run(cfg, es).requests && b in Run(cfg, es).requests
    ensures var s := Run(cfg, es);
            && (s.requests[a].key == s.requests[b].key ==> a == b)
            && |CapsOf(s.caps, a)| <= 1 && |AuthsOf(s.auths, a)| <= 1
            && (|CapsOf(s.caps, a)| == 1 <==> s.requests[a].status == StatusAllowed)
  {
    KeyOwner(cfg, es, a);
    KeyOwner(cfg, es, b);
    RequestIs(cfg, es, a);
  }

  lemma {:induction false} CapsCount(caps: seq<CapRow>, i: nat, j: nat)
    requires i < j < |caps| && caps[i].requestId == caps[j].requestId
    ensures |CapsOf(caps, caps[i].requestId)| >= 2
  {
    var n := |caps| - 1;
    if j < n {
      CapsCount(caps[..n], i, j);
    } else {
      CapIsOwned(caps[..n], i);
    }
  }

  /** Two capability rows are never for the same key. */
  lemma OneCapabilityPerKey(cfg: Config, es: seq<Event>, i: nat, j: nat)
    requires FreshRun(cfg, es) && i < j < |Run(cfg, es).caps|
    ensures var s := Run(cfg, es);
            && s.caps[i].requestId in s.requests && s.caps[j].requestId in s.requests
            && s.requests[s.caps[i].requestId].key != s.requests[s.caps[j].requestId].key
  {
    var s := Run(cfg, es);
    var a := CapabilityOfRequest(cfg, es, i);
    var b := CapabilityOfRequest(cfg, es, j);
    OncePerKey(cfg, es, a, b);
    if a == b { CapsCount(s.caps, i, j); }
  }

  // ----- what a finished request keeps -----

  predicate Finished(p: Progress) {
    p.IdentityFailed? || p.EvaluationThrew? || p.Refused? || p.SigningThrew? || p.Minted?
  }

  /** Nothing recorded is lost, a key keeps its request, and a finished request does not move. */
  ghost predicate Later(s: State, t: State) {
    && s.audits <= t.audits && s.auths <= t.auths && s.caps <= t.caps && s.draws <= t.draws
    && (forall k | k in s.byKey :: k in t.byKey && t.byKey[k] == s.byKey[k])
    && (forall id | id in s.requests :: KeepsRequest(s, t, id))
  }

  /** What a request asks for. */
  predicate SameAsked(row: RequestRow, after: RequestRow) {
    && after.key == row.key && after.ensName == row.ensName && after.policyHash == row.policyHash
    && after.actionKind == row.actionKind && after.tx == row.tx
  }

  predicate KeepsProgress(p: Progress, q: Progress) {
    && (Finished(p) ==> q == p) && (IdentityAt(p).Some? ==> IdentityAt(q) == IdentityAt(p))
    && (HasCap(p) ==> HasCap(q) && q.cap == p.cap && q.evaluation == p.evaluation)
  }

  ghost predicate KeepsRequest(s: State, t: State, id: Text)
    requires id in s.requests
  {
    && id in t.requests && SameAsked(s.requests[id], t.requests[id])
    && (id in s.calls ==> id in t.calls && KeepsProgress(s.calls[id], t.calls[id]))
    && (id in s.calls && Finished(s.calls[id]) ==> t.requests[id] == s.requests[id])
  }

  lemma LaterPut(s: State, id: Text, row: RequestRow, p: Progress, trail: seq<AuditType>, auths: seq<AuthRow>,
                 caps: seq<CapRow>)
    requires id in s.requests ==> SameAsked(s.requests[id], row)
    requires id in s.requests && id in s.calls ==> !Finished(s.calls[id]) && KeepsProgress(s.calls[id], p)
    ensures Later(s, Put(s, id, row, p, trail, auths, caps))
  {
    var t := Put(s, id, row, p, trail, auths, caps);
    forall k | k in s.requests ensures KeepsRequest(s, t, k) {
    }
  }

  lemma LaterTrans(s: State, t: State, u: State)
    requires Later(s, t) && Later(t, u)
    ensures Later(s, u)
  {
    forall id | id in s.requests ensures KeepsRequest(s, u, id) {
      assert KeepsRequest(s, t, id) && KeepsRequest(t, u, id);
    }
  }

  lemma LaterCreate(cfg: Config, s: State, input: CreateInput, id: Text)
    requires id !in s.requests
    ensures Later(s, Create(cfg, s, input, id))
  {
    if input.idempotencyKey in s.byKey {
      forall k | k in s.requests ensures KeepsRequest(s, Replay(s, s.byKey[input.idempotencyKey]), k) {
      }
    } else if Vetted(cfg, input).0.None? {
      var t := s.(byKey := s.byKey[input.idempotencyKey := id]);
      LaterPut(t, id, NewRow(cfg, input), Resolving, [RequestReceived], [], []);
      forall k | k in s.requests ensures KeepsRequest(s, t, k) {
      }
      LaterTrans(s, t, Create(cfg, s, input, id));
    } else {
      forall k | k in s.requests ensures KeepsRequest(s, s, k) {
      }
    }
  }

  lemma LaterSelf(s: State)
    ensures Later(s, s)
  {
    forall k | k in s.requests ensures KeepsRequest(s, s, k) {
    }
  }

  lemma LaterResolve(s: State, id: Text, r: Resolution)
    ensures Later(s, AfterResolve(s, id, r))
  {
    LaterSelf(s);
    if id in s.calls && id in s.requests && s.calls[id].Resolving? {
      match r {
        case NotResolved(code) =>
          LaterPut(s, id, Settled(s.requests[id], StatusFailed, code),
                   IdentityFailed(code), [EnsIdentityFailed], [], []);
        case Resolved(identity) =>
          LaterPut(s, id, s.requests[id].(identity := Some(identity)), Evaluating(identity),
                   [EnsIdentityValidated, EvaluationRequested], [], []);
      }
    }
  }

  lemma LaterDraws(s: State, id: Text, now: nat)
    ensures Later(s, Draws(s, id, now))
  {
    forall k | k in s.requests ensures KeepsRequest(s, Draws(s, id, now), k) {
    }
  }

  lemma LaterEvaluate(cfg: Config, s: State, id: Text, r: Option<Evaluation>, now: nat)
    ensures Later(s, AfterEvaluate(cfg, s, id, r, now))
  {
    LaterSelf(s);
    if id in s.calls && id in s.requests && s.calls[id].Evaluating? {
      var identity, row := s.calls[id].identity, s.requests[id];
      if r.None? || HasAuth(s.auths, r.value.authorizationId) {
        LaterPut(s, id, row, EvaluationThrew(identity), [], [], []);
      } else {
        LaterVerdict(cfg, s, id, r.value, now);
      }
    }
  }

  lemma LaterVerdict(cfg: Config, s: State, id: Text, e: Evaluation, now: nat)
    requires id in s.calls && id in s.requests && s.calls[id].Evaluating? && !HasAuth(s.auths, e.authorizationId)
    ensures Later(s, AfterEvaluate(cfg, s, id, Some(e), now))
  {
    var identity, row := s.calls[id].identity, s.requests[id];
    match e.verdict {
      case Deny =>
        LaterPut(s, id, Settled(row, StatusDenied, e.reasonCode), Refused(identity, e),
                 [AuthorizationObserved(Deny), AuditDenied], [AuthRowOf(id, e)], []);
      case Escalate =>
        LaterPut(s, id, Settled(row, StatusEscalated, e.reasonCode), Refused(identity, e),
                 [AuthorizationObserved(Escalate), EscalationCreated], [AuthRowOf(id, e)], []);
      case Allow =>
        var cap := CapabilityOf(cfg, row, identity, e, now / 1000, NextNonce(s, now));
        LaterDraws(s, id, now);
        LaterPut(Draws(s, id, now), id, row,
                 Signing(identity, e, cap), [AuthorizationObserved(Allow)], [AuthRowOf(id, e)], []);
        LaterTrans(s, Draws(s, id, now), AfterEvaluate(cfg, s, id, Some(e), now));
    }
  }

  lemma LaterSign(cfg: Config, s: State, id: Text, ok: bool)
    ensures Later(s, AfterSign(cfg, s, id, ok))
  {
    LaterSelf(s);
    if id in s.calls && id in s.requests && s.calls[id].Signing? {
      var c := s.calls[id];
      if !ok || HasDigest(s.caps, cfg.digest(c.cap)) {
        LaterPut(s, id, s.requests[id], SigningThrew(c.identity, c.evaluation, c.cap), [], [], []);
      } else {
        LaterPut(s, id, Settled(s.requests[id], StatusAllowed, c.evaluation.reasonCode),
                 Minted(c.identity, c.evaluation, c.cap), [CapabilityMinted], [], [CapRowOf(cfg, id, c.cap)]);
      }
    }
  }

  lemma LaterStep(cfg: Config, s: State, e: Event)
    requires Fresh(s, e)
    ensures Later(s, Step(cfg, s, e))
  {
    match e {
      case DoCreate(input, id) => LaterCreate(cfg, s, input, id);
      case DoResolve(id, r) => LaterResolve(s, id, r);
      case DoEvaluate(id, r, now) => LaterEvaluate(cfg, s, id, r, now);
      case DoSign(id, ok) => LaterSign(cfg, s, id, ok);
    }
  }

  lemma {:induction false} LaterRun(cfg: Config, es: seq<Event>, k: nat)
    requires FreshRun(cfg, es) && k <= |es|
    ensures FreshRun(cfg, es[..k]) && Later(Run(cfg, es[..k]), Run(cfg, es))
  {
    if k == |es| {
      assert es[..k] == es;
      LaterSelf(Run(cfg, es));
    } else {
      var n := |es| - 1;
      LaterRun(cfg, es[..n], k);
      assert es[..n][..k] == es[..k];
      LaterStep(cfg, Run(cfg, es[..n]), es[n]);
      LaterTrans(Run(cfg, es[..k]), Run(cfg, es[..n]), Run(cfg, es));
    }
  }

  // ----- replays -----

  /** A second call under a key never mints: it inserts one audit entry and reports. */
  lemma ReplayOnlyReports(cfg: Config, es: seq<Event>, input: CreateInput, id: Text)
    requires FreshRun(cfg, es) && input.idempotencyKey in Run(cfg, es).byKey
    ensures var s := Run(cfg, es);
            var t := Create(cfg, s, input, id);
            && t == s.(audits := t.audits) && |t.audits| == |s.audits| + 1
            && s.byKey[input.idempotencyKey] in s.requests
            && CreateReply(cfg, s, input) == Answer(RecordOf(s, s.byKey[input.idempotencyKey]))
            && (forall k: Text :: AuditsOf(t.audits, k) == AuditsOf(s.audits, k))
  {
    InvRun(cfg, es);
    var s := Run(cfg, es);
    forall k: Text ensures AuditsOf(Create(cfg, s, input, id).audits, k) == AuditsOf(s.audits, k) {
      AuditsAdd(s.audits, AuditEntry(s.byKey[input.idempotencyKey], IdempotentReplay), k);
    }
  }

  /** Once the first call under a key has finished, every later call under it, whatever else it asks,
      gets the status and the reason that the first one ended with. */
  lemma ReplaysAgree(cfg: Config, es: seq<Event>, k: nat, id: Text, input: CreateInput)
    requires FreshRun(cfg, es) && k <= |es|
    requires id in Run(cfg, es[..k]).requests && id in Run(cfg, es[..k]).calls
    requires Finished(Run(cfg, es[..k]).calls[id]) && input.idempotencyKey == Run(cfg, es[..k]).requests[id].key
    ensures CreateReply(cfg, Run(cfg, es), input) == Answer(RecordOf(Run(cfg, es[..k]), id))
  {
    FinishedKept(cfg, es, k, id);
    RequestIs(cfg, es[..k], id);
    RequestIs(cfg, es, id);
  }

  lemma FinishedKept(cfg: Config, es: seq<Event>, k: nat, id: Text)
    requires FreshRun(cfg, es) && k <= |es|
    requires id in Run(cfg, es[..k]).requests && id in Run(cfg, es[..k]).calls && Finished(Run(cfg, es[..k]).calls[id])
    ensures FreshRun(cfg, es[..k])
    ensures var s, t := Run(cfg, es[..k]), Run(cfg, es);
            && id in t.requests && t.requests[id] == s.requests[id] && id in t.calls && t.calls[id] == s.calls[id]
            && s.requests[id].key in t.byKey && t.byKey[s.requests[id].key] == id
  {
    LaterRun(cfg, es, k);
    assert KeepsRequest(Run(cfg, es[..k]), Run(cfg, es), id);
    KeyOwner(cfg, es[..k], id);
  }

  /** What the first call itself returns, or why it throws. */
  function FirstReply(s: State, id: Text): Reply
    requires id in s.requests && id in s.calls
  {
    match s.calls[id]
    case IdentityFailed(_) => Threw
    case EvaluationThrew(_) => Threw
    case SigningThrew(_, _, _) => Threw
    case Refused(_, _) => Answer(RecordOf(s, id))
    case Minted(identity, e, _) =>
      Answer(Record(id, StatusAllowed, Some(e.reasonCode), Some(AuthorizationIn(e)), identity.source))
    case _ => Suspended
  }

  /** What a replay reports of a call that has finished. */
  function Reported(p: Progress, id: Text): Record {
    Record(id, StatusAt(p), ReasonAt(p), if HasCap(p) || p.Refused? then Some(AuthorizationIn(p.evaluation)) else None,
           if IdentityAt(p).Some? then p.identity.source else [])
  }

  /** So a call that returned is repeated exactly; one that threw is reported as FAILED when its
      identity failed, and as still PENDING otherwise. */
  lemma ReplayOfFirst(cfg: Config, es: seq<Event>, k: nat, id: Text, input: CreateInput)
    requires FreshRun(cfg, es) && k <= |es|
    requires id in Run(cfg, es[..k]).requests && id in Run(cfg, es[..k]).calls
    requires Finished(Run(cfg, es[..k]).calls[id]) && input.idempotencyKey == Run(cfg, es[..k]).requests[id].key
    ensures var first, p := FirstReply(Run(cfg, es[..k]), id), Run(cfg, es[..k]).calls[id];
            var again := CreateReply(cfg, Run(cfg, es), input);
            && again == Answer(Reported(p, id))
            && (first.Answer? ==> again == first)
            && (first.Threw? ==> Reported(p, id).status == if p.IdentityFailed? then StatusFailed else Pending)
  {
    ReplaysAgree(cfg, es, k, id, input);
    LaterRun(cfg, es, k);
    RequestIs(cfg, es[..k], id);
  }

  // ----- nonces -----

  /** The readings of the clock do not go back. */
  predicate Clock(es: seq<Event>) {
    forall i, j | 0 <= i <= j < |es| && es[i].DoEvaluate? && es[j].DoEvaluate? :: es[i].now <= es[j].now
  }

  function LastReading(es: seq<Event>): nat {
    if es == [] then 0
    else if es[|es| - 1].DoEvaluate? then es[|es| - 1].now
    else LastReading(es[..|es| - 1])
  }

  lemma {:induction false} LastReadingIsLast(es: seq<Event>, now: nat)
    requires forall i | 0 <= i < |es| && es[i].DoEvaluate? :: es[i].now <= now
    ensures LastReading(es) <= now
  {
    if es != [] && !es[|es| - 1].DoEvaluate? {
      LastReadingIsLast(es[..|es| - 1], now);
    }
  }

  predicate Increasing(draws: seq<Draw>) {
    forall i, j | 0 <= i < j < |draws| :: draws[i].nonce < draws[j].nonce
  }

  predicate DrawnFor(draws: seq<Draw>, calls: map<Text, Progress>, i: nat)
    requires i < |draws|
  {
    var id := draws[i].requestId;
    id in calls && HasCap(calls[id]) && calls[id].cap.nonce == draws[i].nonce
  }

  ghost predicate CapDrawn(draws: seq<Draw>, calls: map<Text, Progress>, id: Text)
    requires id in calls
  {
    HasCap(calls[id]) ==> exists i :: 0 <= i < |draws| && draws[i] == Draw(id, calls[id].cap.nonce)
  }

  /** Nonces rise in the order they are drawn, and each capability has one of its own. */
  ghost predicate NoncesOk(s: State, last: nat) {
    && Increasing(s.draws)
    && (forall i | 0 <= i < |s.draws| :: s.draws[i].nonce <= last * 1000 + s.nonceCounter)
    && (forall i | 0 <= i < |s.draws| :: DrawnFor(s.draws, s.calls, i))
    && (forall id | id in s.calls :: CapDrawn(s.draws, s.calls, id))
  }

  lemma NoncesPut(s: State, last: nat, id: Text, row: RequestRow, p: Progress, trail: seq<AuditType>,
                  auths: seq<AuthRow>, caps: seq<CapRow>)
    requires NoncesOk(s, last)
    requires HasCap(p) ==> id in s.calls && HasCap(s.calls[id])
    requires id in s.calls && HasCap(s.calls[id]) ==> HasCap(p) && p.cap == s.calls[id].cap
    ensures NoncesOk(Put(s, id, row, p, trail, auths, caps), last)
  {
    var t := Put(s, id, row, p, trail, auths, caps);
    forall i | 0 <= i < |s.draws| ensures DrawnFor(t.draws, t.calls, i) {
      assert DrawnFor(s.draws, s.calls, i);
    }
    forall k | k in t.calls ensures CapDrawn(t.draws, t.calls, k) {
      if k in s.calls { assert CapDrawn(s.draws, s.calls, k); }
    }
  }

  /** A draw for a request that had none. */
  lemma NoncesDraw(s: State, last: nat, now: nat, id: Text, row: RequestRow, p: Progress, trail: seq<AuditType>,
                   auths: seq<AuthRow>, caps: seq<CapRow>)
    requires NoncesOk(s, last) && last <= now
    requires id in s.calls && !HasCap(s.calls[id]) && HasCap(p) && p.cap.nonce == NextNonce(s, now)
    ensures NoncesOk(Put(Draws(s, id, now), id, row, p, trail, auths, caps), now)
  {
    var t := Put(Draws(s, id, now), id, row, p, trail, auths, caps);
    var n := |s.draws|;
    forall i | 0 <= i <= n ensures DrawnFor(t.draws, t.calls, i) {
      if i < n { assert DrawnFor(s.draws, s.calls, i); }
    }
    forall k | k in t.calls ensures CapDrawn(t.draws, t.calls, k) {
      if k != id && HasCap(t.calls[k]) {
        assert CapDrawn(s.draws, s.calls, k);
        var i :| 0 <= i < n && s.draws[i] == Draw(k, s.calls[k].cap.nonce);
        assert t.draws[i] == Draw(k, t.calls[k].cap.nonce);
      } else if k == id {
        assert t.draws[n] == Draw(id, p.cap.nonce);
      }
    }
  }

  lemma NoncesEvaluate(cfg: Config, s: State, last: nat, id: Text, r: Option<Evaluation>, now: nat)
    requires NoncesOk(s, last) && last <= now
    ensures NoncesOk(AfterEvaluate(cfg, s, id, r, now), now)
  {
    if id in s.calls && id in s.requests && s.calls[id].Evaluating? {
      var identity, row := s.calls[id].identity, s.requests[id];
      if r.None? || HasAuth(s.auths, r.value.authorizationId) {
        NoncesPut(s, now, id, row, EvaluationThrew(identity), [], [], []);
      } else {
        var e := r.value;
        match e.verdict {
          case Deny =>
            NoncesPut(s, now, id, Settled(row, StatusDenied, e.reasonCode), Refused(identity, e),
                      [AuthorizationObserved(Deny), AuditDenied], [AuthRowOf(id, e)], []);
          case Escalate =>
            NoncesPut(s, now, id, Settled(row, StatusEscalated, e.reasonCode), Refused(identity, e),
                      [AuthorizationObserved(Escalate), EscalationCreated], [AuthRowOf(id, e)], []);
          case Allow =>
            var cap := CapabilityOf(cfg, row, identity, e, now / 1000, NextNonce(s, now));
            NoncesDraw(s, last, now, id, row, Signing(identity, e, cap),
                       [AuthorizationObserved(Allow)], [AuthRowOf(id, e)], []);
        }
      }
    }
  }

  lemma NoncesSign(cfg: Config, s: State, last: nat, id: Text, ok: bool)
    requires NoncesOk(s, last)
    ensures NoncesOk(AfterSign(cfg, s, id, ok), last)
  {
    if id in s.calls && id in s.requests && s.calls[id].Signing? {
      var c := s.calls[id];
      if !ok || HasDigest(s.caps, cfg.digest(c.cap)) {
        NoncesPut(s, last, id, s.requests[id], SigningThrew(c.identity, c.evaluation, c.cap), [], [], []);
      } else {
        NoncesPut(s, last, id, Settled(s.requests[id], StatusAllowed, c.evaluation.reasonCode),
                  Minted(c.identity, c.evaluation, c.cap), [CapabilityMinted], [], [CapRowOf(cfg, id, c.cap)]);
      }
    }
  }

  lemma NoncesCreate(cfg: Config, s: State, last: nat, input: CreateInput, id: Text)
    requires NoncesOk(s, last) && id !in s.calls
    ensures NoncesOk(Create(cfg, s, input, id), last)
  {
    if input.idempotencyKey !in s.byKey && Vetted(cfg, input).0.None? {
      var t := s.(byKey := s.byKey[input.idempotencyKey := id]);
      NoncesPut(t, last, id, NewRow(cfg, input), Resolving, [RequestReceived], [], []);
    }
  }

  lemma NoncesResolve(s: State, last: nat, id: Text, r: Resolution)
    requires NoncesOk(s, last)
    ensures NoncesOk(AfterResolve(s, id, r), last)
  {
    if id in s.calls && id in s.requests && s.calls[id].Resolving? {
      match r {
        case NotResolved(code) =>
          NoncesPut(s, last, id, Settled(s.requests[id], StatusFailed, code),
                    IdentityFailed(code), [EnsIdentityFailed], [], []);
        case Resolved(identity) =>
          NoncesPut(s, last, id, s.requests[id].(identity := Some(identity)), Evaluating(identity),
                    [EnsIdentityValidated, EvaluationRequested], [], []);
      }
    }
  }

  lemma NoncesStep(cfg: Config, s: State, last: nat, e: Event)
    requires NoncesOk(s, last) && s.requests.Keys == s.calls.Keys && Fresh(s, e)
    requires e.DoEvaluate? ==> last <= e.now
    ensures NoncesOk(Step(cfg, s, e), if e.DoEvaluate? then e.now else last)
  {
    match e {
      case DoCreate(input, id) => NoncesCreate(cfg, s, last, input, id);
      case DoResolve(id, r) => NoncesResolve(s, last, id, r);
      case DoEvaluate(id, r, now) => NoncesEvaluate(cfg, s, last, id, r, now);
      case DoSign(id, ok) => NoncesSign(cfg, s, last, id, ok);
    }
  }

  /** With a clock that does not go back, nonces strictly increase in the order they are drawn. */
  lemma {:induction false} NoncesIncrease(cfg: Config, es: seq<Event>)
    requires FreshRun(cfg, es) && Clock(es)
    ensures NoncesOk(Run(cfg, es), LastReading(es))
  {
    if es != [] {
      var n := |es| - 1;
      NoncesIncrease(cfg, es[..n]);
      InvRun(cfg, es[..n]);
      if es[n].DoEvaluate? {
        LastReadingIsLast(es[..n], es[n].now);
      }
      NoncesStep(cfg, Run(cfg, es[..n]), LastReading(es[..n]), es[n]);
    }
  }

  lemma SameNonceSameRequest(s: State, last: nat, a: Text, b: Text)
    requires NoncesOk(s, last) && a in s.calls && b in s.calls && HasCap(s.calls[a]) && HasCap(s.calls[b])
    requires s.calls[a].cap.nonce == s.calls[b].cap.nonce
    ensures a == b
  {
    assert CapDrawn(s.draws, s.calls, a) && CapDrawn(s.draws, s.calls, b);
    var i :| 0 <= i < |s.draws| && s.draws[i] == Draw(a, s.calls[a].cap.nonce);
    var j :| 0 <= j < |s.draws| && s.draws[j] == Draw(b, s.calls[b].cap.nonce);
  }

  /** No two minted capabilities share a nonce, nor an authorization. */
  lemma MintedAreDistinct(cfg: Config, es: seq<Event>, i: nat, j: nat)
    requires FreshRun(cfg, es) && Clock(es) && i < j < |Run(cfg, es).caps|
    ensures var s := Run(cfg, es);
            && s.caps[i].nonce != s.caps[j].nonce
            && s.caps[i].requestId in s.calls && s.caps[j].requestId in s.calls
            && var a, b := s.calls[s.caps[i].requestId], s.calls[s.caps[j].requestId];
               a.Minted? && b.Minted? && a.cap.authorizationId != b.cap.authorizationId
  {
    var s := Run(cfg, es);
    var a := CapabilityOfRequest(cfg, es, i);
    var b := CapabilityOfRequest(cfg, es, j);
    OneCapabilityPerKey(cfg, es, i, j);
    NoncesIncrease(cfg, es);
    if s.calls[a].cap.nonce == s.calls[b].cap.nonce {
      SameNonceSameRequest(s, LastReading(es), a, b);
    }
    DistinctAuthorizations(cfg, es, a, b);
  }

  lemma DistinctAuthorizations(cfg: Config, es: seq<Event>, a: Text, b: Text)
    requires FreshRun(cfg, es) && a in Run(cfg, es).requests && b in Run(cfg, es).requests && a != b
    requires a in Run(cfg, es).calls && b in Run(cfg, es).calls
    requires Run(cfg, es).calls[a].Minted? && Run(cfg, es).calls[b].Minted?
    ensures Run(cfg, es).calls[a].cap.authorizationId != Run(cfg, es).calls[b].cap.authorizationId
  {
    var s := Run(cfg, es);
    RequestIs(cfg, es, a);
    RequestIs(cfg, es, b);
    InvRun(cfg, es);
    var x, y := AuthRowOf(a, s.calls[a].evaluation), AuthRowOf(b, s.calls[b].evaluation);
    assert x in AuthsOf(s.auths, a) && y in AuthsOf(s.auths, b);
    AuthIsKept(s.auths, a, x);
    AuthIsKept(s.auths, b, y);
  }

  ghost predicate DigestInjective(cfg: Config) {
    forall a, b :: cfg.digest(a) == cfg.digest(b) ==> a == b
  }

  /** So with an injective digest the insertion of a signed capability never conflicts: a call waiting
      for its signature mints as soon as it has one. */
  lemma SignatureAlwaysMints(cfg: Config, es: seq<Event>, id: Text)
    requires FreshRun(cfg, es) && Clock(es) && DigestInjective(cfg)
    requires id in Run(cfg, es).calls && Run(cfg, es).calls[id].Signing?
    ensures !HasDigest(Run(cfg, es).caps, cfg.digest(Run(cfg, es).calls[id].cap))
    ensures var t := AfterSign(cfg, Run(cfg, es), id, true); id in t.requests && t.requests[id].status == StatusAllowed
  {
    var s := Run(cfg, es);
    InvRun(cfg, es);
    assert id in s.requests;
    if HasDigest(s.caps, cfg.digest(s.calls[id].cap)) {
      var i :| 0 <= i < |s.caps| && s.caps[i].digest == cfg.digest(s.calls[id].cap);
      var b := CapabilityOfRequest(cfg, es, i);
      assert cfg.digest(s.calls[b].cap) == cfg.digest(s.calls[id].cap);
      NoncesIncrease(cfg, es);
      SameNonceSameRequest(s, LastReading(es), id, b);
    }
  }
}
