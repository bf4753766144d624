/** What a capability goes back to, over whole runs: the question the evaluator was asked, the draw of its
    nonce, and the signature that inserted it. */
module BrokerMinting {
  import opened Texts
  import opened BrokerRuns
  import opened BrokerIssuance

  /** The event at `p` answers the evaluation of `id` with an ALLOW, upon which its nonce is drawn. */
  predicate DrawsAt(cfg: Config, es: seq<Event>, p: nat, id: Text)
    requires p < |es|
  {
    var s := Run(cfg, es[..p]);
    && es[p].DoEvaluate? && es[p].id == id && es[p].evaluation.Some? && es[p].evaluation.value.verdict == Allow
    && id in s.calls && id in s.requests && s.calls[id].Evaluating?
    && !HasAuth(s.auths, es[p].evaluation.value.authorizationId)
  }

  /** The event at `q` is the signature of the capability of `id`, upon which its row is inserted. */
  predicate MintsAt(cfg: Config, es: seq<Event>, q: nat, id: Text)
    requires q < |es|
  {
    var s := Run(cfg, es[..q]);
    && es[q] == DoSign(id, true) && id in s.calls && id in s.requests && s.calls[id].Signing?
    && !HasDigest(s.caps, cfg.digest(s.calls[id].cap))
  }

  lemma NextRun(cfg: Config, es: seq<Event>, p: nat)
    requires p < |es|
    ensures Run(cfg, es[..p + 1]) == Step(cfg, Run(cfg, es[..p]), es[p])
  {
    assert es[..p + 1][..p] == es[..p];
  }

  lemma PrefixOfPrefix(es: seq<Event>, k: nat, p: nat)
    requires p <= k <= |es|
    ensures es[..k][..p] == es[..p]
  {
  }

  // ----- the draw of a nonce -----

  function Drawn(cfg: Config, es: seq<Event>, p: nat, id: Text): Capability
    requires p < |es| && DrawsAt(cfg, es, p, id)
  {
    var s, now := Run(cfg, es[..p]), es[p].now;
    CapabilityOf(cfg, s.requests[id], s.calls[id].identity, es[p].evaluation.value, now / 1000, NextNonce(s, now))
  }

  lemma DrawNow(cfg: Config, es: seq<Event>, p: nat, id: Text)
    requires p < |es| && DrawsAt(cfg, es, p, id)
    ensures var s, t := Run(cfg, es[..p]), Run(cfg, es[..p + 1]);
            && id in t.calls && id in t.requests
            && t.calls[id] == Signing(s.calls[id].identity, es[p].evaluation.value, Drawn(cfg, es, p, id))
            && t.draws == s.draws + [Draw(id, Drawn(cfg, es, p, id).nonce)]
  {
    NextRun(cfg, es, p);
  }

  /** What was drawn stays: the capability, and its place among the draws. */
  lemma DrawKept(cfg: Config, es: seq<Event>, p: nat, id: Text)
    requires FreshRun(cfg, es) && p < |es| && DrawsAt(cfg, es, p, id)
    ensures var t := Run(cfg, es);
            && id in t.calls && HasCap(t.calls[id]) && t.calls[id].cap == Drawn(cfg, es, p, id)
            && t.calls[id].evaluation == es[p].evaluation.value
            && |Run(cfg, es[..p]).draws| < |t.draws|
            && t.draws[|Run(cfg, es[..p]).draws|] == Draw(id, t.calls[id].cap.nonce)
  {
    DrawNow(cfg, es, p, id);
    LaterRun(cfg, es, p + 1);
    assert KeepsRequest(Run(cfg, es[..p + 1]), Run(cfg, es), id);
  }

  lemma StepDraws(cfg: Config, s: State, e: Event, id: Text)
    requires id in Step(cfg, s, e).calls && HasCap(Step(cfg, s, e).calls[id])
    requires !(id in s.calls && HasCap(s.calls[id]))
    ensures e.DoEvaluate? && e.id == id && e.evaluation.Some? && e.evaluation.value.verdict == Allow
    ensures id in s.calls && id in s.requests && s.calls[id].Evaluating?
            && !HasAuth(s.auths, e.evaluation.value.authorizationId)
  {
  }

  /** Each capability has a draw. */
  lemma {:induction false} DrawOf(cfg: Config, es: seq<Event>, id: Text) returns (p: nat)
    requires FreshRun(cfg, es) && id in Run(cfg, es).calls && HasCap(Run(cfg, es).calls[id])
    ensures p < |es| && DrawsAt(cfg, es, p, id)
  {
    var n := |es| - 1;
    var s := Run(cfg, es[..n]);
    if id in s.calls && HasCap(s.calls[id]) {
      p := DrawOf(cfg, es[..n], id);
      PrefixOfPrefix(es, n, p);
    } else {
      p := n;
      StepDraws(cfg, s, es[n], id);
    }
  }

  // ----- what was minted is what was evaluated -----

  /** A capability says what the evaluator was asked and what it answered, field by field, and its request
      hash is the one that was asked about. */
  predicate Agrees(cfg: Config, cap: Capability, asked: EvaluationInput, answer: Evaluation) {
    && cap.agentIdentityHash == asked.identity.agentIdentityHash && cap.agent == asked.identity.agent
    && cap.chainId == cfg.chainId && cap.executor == cfg.executor
    && cap.target == asked.target && cap.value == asked.value && cap.calldataHash == asked.calldataHash
    && cap.intentHash == asked.intentHash && cap.policyHash == asked.policyHash
    && RequestHash(cfg, cap) == asked.requestHash
    && cap.authorizationId == answer.authorizationId && cap.contextCommitment == answer.contextCommitment
  }

  /** At `k` the evaluator has been asked about a request; later a capability exists for it. Then in between the
      evaluator answered ALLOW, and the capability is of exactly what was asked at `k`, and of that answer. */
  lemma MintedIsEvaluated(cfg: Config, es: seq<Event>, k: nat, id: Text) returns (p: nat)
    requires FreshRun(cfg, es) && k <= |es|
    requires id in Run(cfg, es[..k]).calls && Run(cfg, es[..k]).calls[id].Evaluating?
    requires id in Run(cfg, es).calls && HasCap(Run(cfg, es).calls[id])
    ensures k <= p < |es| && DrawsAt(cfg, es, p, id) && id in Run(cfg, es[..k]).requests
    ensures var s := Run(cfg, es[..k]);
            Agrees(cfg, Run(cfg, es).calls[id].cap, AskedOf(cfg, id, s.requests[id], s.calls[id].identity),
                   es[p].evaluation.value)
  {
    p := DrawOf(cfg, es, id);
    LaterRun(cfg, es, k);
    CalledIsRequest(cfg, es[..k], id);
    DrawIsLater(cfg, es, k, p, id);
    DrawKept(cfg, es, p, id);
    AskedKept(cfg, es, k, p, id);
    DrawnAgrees(cfg, es, p, id);
  }

  lemma CalledIsRequest(cfg: Config, es: seq<Event>, id: Text)
    requires FreshRun(cfg, es) && id in Run(cfg, es).calls
    ensures id in Run(cfg, es).requests
  {
    InvRun(cfg, es);
  }

  lemma DrawIsLater(cfg: Config, es: seq<Event>, k: nat, p: nat, id: Text)
    requires k <= |es| && FreshRun(cfg, es[..k]) && p < |es| && DrawsAt(cfg, es, p, id)
    requires id in Run(cfg, es[..k]).calls && Run(cfg, es[..k]).calls[id].Evaluating?
    ensures k <= p
  {
    if p < k {
      PrefixOfPrefix(es, k, p);
      DrawKept(cfg, es[..k], p, id);
      assert false;
    }
  }

  lemma DrawnAgrees(cfg: Config, es: seq<Event>, p: nat, id: Text)
    requires p < |es| && DrawsAt(cfg, es, p, id)
    ensures var s := Run(cfg, es[..p]);
            Agrees(cfg, Drawn(cfg, es, p, id), AskedOf(cfg, id, s.requests[id], s.calls[id].identity),
                   es[p].evaluation.value)
  {
  }

  /** While the evaluator has not answered, the request stays what it was asked about. */
  lemma AskedKept(cfg: Config, es: seq<Event>, k: nat, p: nat, id: Text)
    requires FreshRun(cfg, es) && k <= p < |es| && DrawsAt(cfg, es, p, id)
    requires var s := Run(cfg, es[..k]); id in s.calls && id in s.requests && s.calls[id].Evaluating?
    ensures var s, t := Run(cfg, es[..k]), Run(cfg, es[..p]);
            AskedOf(cfg, id, t.requests[id], t.calls[id].identity)
              == AskedOf(cfg, id, s.requests[id], s.calls[id].identity)
  {
    LaterRun(cfg, es, p);
    LaterRun(cfg, es[..p], k);
    PrefixOfPrefix(es, p, k);
    assert KeepsRequest(Run(cfg, es[..k]), Run(cfg, es[..p]), id);
  }

  // ----- the order of the rows -----

  lemma MintNow(cfg: Config, es: seq<Event>, q: nat, id: Text)
    requires q < |es| && MintsAt(cfg, es, q, id)
    ensures var s, t := Run(cfg, es[..q]), Run(cfg, es[..q + 1]);
            && t.caps == s.caps + [CapRowOf(cfg, id, s.calls[id].cap)]
            && id in t.calls && t.calls[id].Minted? && t.calls[id].cap == s.calls[id].cap
  {
    NextRun(cfg, es, q);
  }

  /** The row of a signed capability stays where it was inserted. */
  lemma MintKept(cfg: Config, es: seq<Event>, q: nat, id: Text)
    requires FreshRun(cfg, es) && q < |es| && MintsAt(cfg, es, q, id)
    ensures var i, t := |Run(cfg, es[..q]).caps|, Run(cfg, es);
            && i < |t.caps| && id in t.calls && t.calls[id].Minted? && t.caps[i] == CapRowOf(cfg, id, t.calls[id].cap)
  {
    MintNow(cfg, es, q, id);
    LaterRun(cfg, es, q + 1);
    CalledIsRequest(cfg, es[..q + 1], id);
    assert KeepsRequest(Run(cfg, es[..q + 1]), Run(cfg, es), id);
  }

  lemma StepMints(cfg: Config, s: State, e: Event)
    requires Fresh(s, e)
    ensures var t := Step(cfg, s, e);
            || t.caps == s.caps
            || (e.DoSign? && e.ok && e.id in s.calls && e.id in s.requests && s.calls[e.id].Signing?
                && !HasDigest(s.caps, cfg.digest(s.calls[e.id].cap))
                && t.caps == s.caps + [CapRowOf(cfg, e.id, s.calls[e.id].cap)])
  {
    assert s.caps + [] == s.caps;
  }

  /** Each row has a signature, and the rows are in the order of the signatures. */
  lemma {:induction false} MintOf(cfg: Config, es: seq<Event>, i: nat) returns (q: nat)
    requires FreshRun(cfg, es) && i < |Run(cfg, es).caps|
    ensures q < |es| && MintsAt(cfg, es, q, Run(cfg, es).caps[i].requestId) && |Run(cfg, es[..q]).caps| == i
  {
    var n := |es| - 1;
    var s := Run(cfg, es[..n]);
    StepMints(cfg, s, es[n]);
    if i < |s.caps| {
      q := MintOf(cfg, es[..n], i);
      PrefixOfPrefix(es, n, q);
    } else {
      q := n;
    }
  }

  lemma {:induction false} CountsGrow(cfg: Config, es: seq<Event>, p: nat, q: nat)
    requires FreshRun(cfg, es) && p <= q <= |es|
    ensures |Run(cfg, es[..p]).caps| <= |Run(cfg, es[..q]).caps|
            && |Run(cfg, es[..p]).draws| <= |Run(cfg, es[..q]).draws|
  {
    LaterRun(cfg, es, q);
    LaterRun(cfg, es[..q], p);
    PrefixOfPrefix(es, q, p);
  }

  /** Two draws: the earlier one has the smaller nonce. */
  lemma EarlierDraw(cfg: Config, es: seq<Event>, p: nat, q: nat, a: Text, b: Text)
    requires FreshRun(cfg, es) && Clock(es) && p < q < |es| && DrawsAt(cfg, es, p, a) && DrawsAt(cfg, es, q, b)
    ensures var t := Run(cfg, es); {a, b} <= t.calls.Keys && HasCap(t.calls[a]) && HasCap(t.calls[b])
    ensures Run(cfg, es).calls[a].cap.nonce < Run(cfg, es).calls[b].cap.nonce
  {
    DrawKept(cfg, es, p, a);
    DrawKept(cfg, es, q, b);
    DrawNow(cfg, es, p, a);
    CountsGrow(cfg, es, p + 1, q);
    NoncesIncrease(cfg, es);
  }

  /** Two signatures: the earlier one has the earlier row. */
  lemma EarlierRow(cfg: Config, es: seq<Event>, p: nat, q: nat, a: Text, b: Text)
    requires FreshRun(cfg, es) && p < q < |es| && MintsAt(cfg, es, p, a) && MintsAt(cfg, es, q, b)
    ensures |Run(cfg, es[..p]).caps| < |Run(cfg, es[..q]).caps|
  {
    MintNow(cfg, es, p, a);
    CountsGrow(cfg, es, p + 1, q);
  }

  /** Of two rows, the first was signed first; it has the smaller nonce exactly if it was also drawn first. */
  lemma RowOrder(cfg: Config, es: seq<Event>, i: nat, j: nat) returns (p: nat, q: nat, m: nat, n: nat)
    requires FreshRun(cfg, es) && Clock(es) && i < j < |Run(cfg, es).caps|
    ensures p < |es| && q < |es| && m < n < |es|
    ensures var a, b := Run(cfg, es).caps[i].requestId, Run(cfg, es).caps[j].requestId;
            && DrawsAt(cfg, es, p, a) && DrawsAt(cfg, es, q, b) && MintsAt(cfg, es, m, a) && MintsAt(cfg, es, n, b)
    ensures Run(cfg, es).caps[i].nonce < Run(cfg, es).caps[j].nonce <==> p < q
  {
    var t := Run(cfg, es);
    var a, b := t.caps[i].requestId, t.caps[j].requestId;
    m := MintOf(cfg, es, i);
    n := MintOf(cfg, es, j);
    MintKept(cfg, es, m, a);
    MintKept(cfg, es, n, b);
    if n <= m { CountsGrow(cfg, es, n, m); }
    p := DrawOf(cfg, es, a);
    q := DrawOf(cfg, es, b);
    if p < q {
      EarlierDraw(cfg, es, p, q, a, b);
    } else if q < p {
      EarlierDraw(cfg, es, q, p, b, a);
    }
  }

  predicate InNonceOrder(caps: seq<CapRow>) {
    forall i, j | 0 <= i < j < |caps| :: caps[i].nonce < caps[j].nonce
  }

  /** The nonce of `a` was drawn first, and the capability of `b` was signed first. */
  predicate Overtakes(cfg: Config, es: seq<Event>, a: Text, b: Text, p: nat, q: nat, m: nat, n: nat)
    requires p < |es| && q < |es| && m < |es| && n < |es|
  {
    p < q && n < m && DrawsAt(cfg, es, p, a) && DrawsAt(cfg, es, q, b) && MintsAt(cfg, es, m, a)
    && MintsAt(cfg, es, n, b)
  }

  ghost predicate SignedAsDrawn(cfg: Config, es: seq<Event>) {
    forall a: Text, b: Text, p: nat, q: nat, m: nat, n: nat | p < |es| && q < |es| && m < |es| && n < |es| ::
      !Overtakes(cfg, es, a, b, p, q, m, n)
  }

  lemma OvertakenRow(cfg: Config, es: seq<Event>, a: Text, b: Text, p: nat, q: nat, m: nat, n: nat)
    requires FreshRun(cfg, es) && Clock(es) && p < |es| && q < |es| && m < |es| && n < |es|
    requires Overtakes(cfg, es, a, b, p, q, m, n)
    ensures !InNonceOrder(Run(cfg, es).caps)
  {
    EarlierDraw(cfg, es, p, q, a, b);
    EarlierRow(cfg, es, n, m, b, a);
    MintKept(cfg, es, m, a);
    MintKept(cfg, es, n, b);
    assert Run(cfg, es).caps[|Run(cfg, es[..n]).caps|].nonce > Run(cfg, es).caps[|Run(cfg, es[..m]).caps|].nonce;
  }

  /** With a clock that does not go back, the capability rows are in the order of their nonces exactly when the
      signatures are answered in the order of the draws. */
  lemma RowsInNonceOrderExactly(cfg: Config, es: seq<Event>)
    requires FreshRun(cfg, es) && Clock(es)
    ensures InNonceOrder(Run(cfg, es).caps) <==> SignedAsDrawn(cfg, es)
  {
    if InNonceOrder(Run(cfg, es).caps) {
      forall a: Text, b: Text, p: nat, q: nat, m: nat, n: nat | p < |es| && q < |es| && m < |es| && n < |es|
        ensures !Overtakes(cfg, es, a, b, p, q, m, n)
      {
        if Overtakes(cfg, es, a, b, p, q, m, n) { OvertakenRow(cfg, es, a, b, p, q, m, n); }
      }
    }
    if SignedAsDrawn(cfg, es) {
      forall i, j | 0 <= i < j < |Run(cfg, es).caps| ensures Run(cfg, es).caps[i].nonce < Run(cfg, es).caps[j].nonce {
        DrawnInOrder(cfg, es, i, j);
      }
    }
  }

  lemma DrawnInOrder(cfg: Config, es: seq<Event>, i: nat, j: nat)
    requires FreshRun(cfg, es) && Clock(es) && SignedAsDrawn(cfg, es) && i < j < |Run(cfg, es).caps|
    ensures Run(cfg, es).caps[i].nonce < Run(cfg, es).caps[j].nonce
  {
    var p, q, m, n := RowOrder(cfg, es, i, j);
    var a, b := Run(cfg, es).caps[i].requestId, Run(cfg, es).caps[j].requestId;
    assert !Overtakes(cfg, es, b, a, q, p, n, m);
    MintedAreDistinct(cfg, es, i, j);
    if p == q { DrawKept(cfg, es, p, a); }
  }

  // ----- a run whose rows are out of order -----

  /** A run of fresh requests with a clock that stands still. */
  ghost predicate Reaches(cfg: Config, es: seq<Event>, s: State) {
    FreshRun(cfg, es) && Run(cfg, es) == s && forall i | 0 <= i < |es| && es[i].DoEvaluate? :: es[i].now == 0
  }

  lemma Extend(cfg: Config, es: seq<Event>, s: State, e: Event)
    requires Reaches(cfg, es, s) && Fresh(s, e) && (e.DoEvaluate? ==> e.now == 0)
    ensures Reaches(cfg, es + [e], Step(cfg, s, e))
  {
    assert (es + [e])[..|es|] == es;
  }

  predicate CallIs(s: State, id: Text, p: Progress) {
    id in s.calls && id in s.requests && s.calls[id] == p
  }

  /** Two requests are asked about. */
  lemma TwoAsked(cfg: Config, x: CreateInput, y: CreateInput, a: Text, b: Text, identity: Identity)
    returns (es: seq<Event>, s: State)
    requires Vetted(cfg, x).0.None? && Vetted(cfg, y).0.None? && x.idempotencyKey != y.idempotencyKey && a != b
    ensures Reaches(cfg, es, s) && CallIs(s, a, Evaluating(identity)) && CallIs(s, b, Evaluating(identity))
    ensures s.auths == [] && s.caps == []
  {
    es, s := [], INIT;
    Extend(cfg, es, s, DoCreate(x, a));
    es, s := es + [DoCreate(x, a)], Step(cfg, s, DoCreate(x, a));
    assert CallIs(s, a, Resolving) && s.byKey == map[x.idempotencyKey := a] && s.requests.Keys == {a};
    Extend(cfg, es, s, DoCreate(y, b));
    es, s := es + [DoCreate(y, b)], Step(cfg, s, DoCreate(y, b));
    assert CallIs(s, a, Resolving) && CallIs(s, b, Resolving) && s.auths == [] && s.caps == [];
    Extend(cfg, es, s, DoResolve(a, Resolved(identity)));
    es, s := es + [DoResolve(a, Resolved(identity))], Step(cfg, s, DoResolve(a, Resolved(identity)));
    assert CallIs(s, a, Evaluating(identity)) && CallIs(s, b, Resolving) && s.auths == [] && s.caps == [];
    Extend(cfg, es, s, DoResolve(b, Resolved(identity)));
    es, s := es + [DoResolve(b, Resolved(identity))], Step(cfg, s, DoResolve(b, Resolved(identity)));
  }

  /** The first nonce is drawn for `a`, the second for `b`. */
  lemma TwoDrawn(cfg: Config, es: seq<Event>, s: State, a: Text, b: Text, identity: Identity, e: Evaluation,
                 f: Evaluation)
    returns (es': seq<Event>, s': State)
    requires Reaches(cfg, es, s) && CallIs(s, a, Evaluating(identity)) && CallIs(s, b, Evaluating(identity)) && a != b
    requires s.auths == [] && s.caps == []
    requires e.verdict == Allow && f.verdict == Allow && e.authorizationId != f.authorizationId
    ensures Reaches(cfg, es', s') && a in s'.calls && b in s'.calls && s'.calls[a].Signing? && s'.calls[b].Signing?
    ensures s'.calls[a].cap.nonce < s'.calls[b].cap.nonce && s'.caps == []
  {
    Extend(cfg, es, s, DoEvaluate(a, Some(e), 0));
    es', s' := es + [DoEvaluate(a, Some(e), 0)], Step(cfg, s, DoEvaluate(a, Some(e), 0));
    assert a in s'.calls && s'.calls[a].Signing? && CallIs(s', b, Evaluating(identity)) && s'.caps == [];
    assert s'.auths == [AuthRowOf(a, e)] && !HasAuth(s'.auths, f.authorizationId);
    Extend(cfg, es', s', DoEvaluate(b, Some(f), 0));
    es', s' := es' + [DoEvaluate(b, Some(f), 0)], Step(cfg, s', DoEvaluate(b, Some(f), 0));
  }

  /** With an injective digest, any two requests that pass the checks have a run in which the second nonce is
      inserted first. */
  lemma OutOfOrder(cfg: Config, x: CreateInput, y: CreateInput, a: Text, b: Text, identity: Identity, e: Evaluation,
                   f: Evaluation)
    returns (es: seq<Event>)
    requires Vetted(cfg, x).0.None? && Vetted(cfg, y).0.None? && x.idempotencyKey != y.idempotencyKey && a != b
    requires e.verdict == Allow && f.verdict == Allow && e.authorizationId != f.authorizationId && DigestInjective(cfg)
    ensures FreshRun(cfg, es) && Clock(es)
    ensures var caps := Run(cfg, es).caps;
            |caps| == 2 && caps[0].requestId == b && caps[1].requestId == a && caps[0].nonce > caps[1].nonce
  {
    var s;
    es, s := TwoAsked(cfg, x, y, a, b, identity);
    es, s := TwoDrawn(cfg, es, s, a, b, identity, e, f);
    SignatureAlwaysMints(cfg, es, b);
    Extend(cfg, es, s, DoSign(b, true));
    es, s := es + [DoSign(b, true)], Step(cfg, s, DoSign(b, true));
    SignatureAlwaysMints(cfg, es, a);
    Extend(cfg, es, s, DoSign(a, true));
    es := es + [DoSign(a, true)];
  }
}
