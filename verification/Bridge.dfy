/** The bridge daemon: maps updated in place, each method one step of the runs in `BridgeRuns`. */
module Bridge {
  import opened Texts
  import opened SignedRequest
  import opened BridgePolicy
  import opened BridgeRuns

  /** The answer to a request, up to the first `await` of its handler. */
  function HandleReply(env: Env, s: State, now: int, m: Signed): Reply {
    match RequestFailure(env.crypto, s, now, m)
    case Some(reason) => Rejected(reason)
    case None => ReplyOf(PlanOf(env.deps, s, AcceptanceOf(m)))
  }

  /** What a request that passes every check is known to satisfy. */
  lemma AuthOk(c: Crypto, s: State, now: int, m: Signed)
    requires Keyed(s) && AuthFailure(c, s, now, m).None?
    ensures var r := m.request;
            && r.bridgeId in s.sessions && r.bridgeId in s.nonces && r.nonce !in s.nonces[r.bridgeId]
            && s.sessions[r.bridgeId].revokedAtMs.None?
  {
  }

  class LocalBridge {
    const env: Env
    var pairings: map<Text, PairingCode>
    var sessions: map<Text, Session>
    var nonces: map<Text, set<Text>>
    /** Handlers suspended at an `await`, by the number of their request. */
    var waiting: map<nat, Plan>
    var requests: nat
    ghost var accepted: seq<Acceptance>
    ghost var trace: seq<Note>

    ghost function Snapshot(): State
      reads this
    {
      State(pairings, sessions, nonces, accepted, waiting, trace)
    }

    ghost predicate Valid()
      reads this
    {
      Inv(env, Snapshot()) && requests == |accepted|
    }

    constructor (env: Env)
      ensures Valid() && this.env == env && Snapshot() == INIT
    {
      this.env := env;
      pairings, sessions, nonces, waiting, requests := map[], map[], map[], map[], 0;
      accepted, trace := [], [];
    }

    /** `code` is the one just drawn. */
    method CreatePairingCode(userId: Text, projectId: Text, ttlMs: int, code: Text, now: int) returns (p: PairingCode)
      requires Valid() && code !in pairings
      modifies this
      ensures Valid() && Snapshot() == CreateCode(old(Snapshot()), code, userId, projectId, ttlMs, now)
      ensures p == PairingCode(code, userId, projectId, now + ttlMs, None) && pairings[code] == p
    {
      InvStep(env, Snapshot(), DoCreateCode(code, userId, projectId, ttlMs, now));
      p := PairingCode(code, userId, projectId, now + ttlMs, None);
      pairings := pairings[code := p];
      trace := trace + [Created(code, userId, projectId)];
    }

    /** `bridgeId` and `key` are the ones just drawn. A code that was used or has expired opens nothing. */
    method OpenSession(code: Text, permissions: Permissions, sessionTtlMs: int, bridgeId: Text, key: Bytes, now: int)
      returns (failure: Option<Reason>, session: Option<Session>)
      requires Valid() && bridgeId !in sessions
      modifies this
      ensures Valid() && Snapshot() == Pair(old(Snapshot()), code, permissions, sessionTtlMs, bridgeId, key, now)
      ensures failure == PairFailure(old(Snapshot()), code, now)
      ensures failure.None? ==>
                && session.Some? && bridgeId in sessions && session.value == sessions[bridgeId]
                && session.value.userId == old(pairings)[code].userId
                && session.value.projectId == old(pairings)[code].projectId
                && nonces[bridgeId] == {} && pairings[code].usedAtMs == Some(now)
      ensures failure.Some? ==> session.None?
    {
      InvStep(env, Snapshot(), DoPair(code, permissions, sessionTtlMs, bridgeId, key, now));
      if code !in pairings { return Some(PairingUnknown), None; }
      var p := pairings[code];
      if p.usedAtMs.Some? { return Some(PairingUsed), None; }
      if now > p.expiresAtMs { return Some(PairingExpired), None; }
      pairings := pairings[code := p.(usedAtMs := Some(now))];
      var s := Session(bridgeId, p.userId, p.projectId, key, now, now + sessionTtlMs, None, permissions);
      sessions := sessions[bridgeId := s];
      nonces := nonces[bridgeId := {}];
      trace := trace + [Paired(code, bridgeId)];
      return None, Some(s);
    }

    method RevokeSession(bridgeId: Text, now: int)
      requires Valid()
      modifies this
      ensures Valid() && Snapshot() == Revoke(old(Snapshot()), bridgeId, now)
      ensures bridgeId in sessions ==> sessions[bridgeId].revokedAtMs == Some(now)
    {
      InvStep(env, Snapshot(), DoRevoke(bridgeId, now));
      if bridgeId in sessions {
        sessions := sessions[bridgeId := sessions[bridgeId].(revokedAtMs := Some(now))];
        trace := trace + [Revoked(bridgeId)];
      }
    }

    /** Every check, in order; the first that fails is the answer. */
    method Check(m: Signed, now: int) returns (failure: Option<Reason>)
      requires sessions.Keys == nonces.Keys
      ensures failure == AuthFailure(env.crypto, Snapshot(), now, m)
    {
      var r := m.request;
      if !SchemaOk(r) { return Some(BadSignature); }
      if r.bridgeId !in sessions { return Some(WrongBridge); }
      var session := sessions[r.bridgeId];
      if session.revokedAtMs.Some? { return Some(SessionRevoked); }
      if now > session.expiresAtMs { return Some(NoSession); }
      if !VerifySignature(env.crypto, r, session.key, m.signature) { return Some(BadSignature); }
      if r.userId != session.userId { return Some(WrongUser); }
      if r.projectId != session.projectId { return Some(WrongProject); }
      if now > r.expiresAtMs { return Some(Expired); }
      if r.issuedAtMs > now + 30000 { return Some(NotYetValid); }
      if PayloadHash(env.crypto, m.payload) != r.payloadHash { return Some(PayloadMutated); }
      if r.nonce in nonces[r.bridgeId] { return Some(Replay); }
      return None;
    }

    /** Spends the nonce of a request that passed every check. */
    method Spend(a: Acceptance)
      requires a.bridgeId in nonces
      modifies this
      ensures Snapshot() == Accept(old(Snapshot()), a) && requests == old(requests) + 1
    {
      nonces := nonces[a.bridgeId := nonces[a.bridgeId] + {a.nonce}];
      requests := requests + 1;
      accepted, trace := accepted + [a], trace + [Accepted(|accepted|)];
    }

    /** A refusal changes nothing; an acceptance spends the nonce. */
    method Authenticate(m: Signed, now: int) returns (failure: Option<Reason>)
      requires Keyed(Snapshot()) && OperationOf(m.request.operationType).Some?
      modifies this
      ensures failure == AuthFailure(env.crypto, old(Snapshot()), now, m)
      ensures failure.Some? ==> Snapshot() == old(Snapshot()) && requests == old(requests)
      ensures failure.None? ==>
                && Snapshot() == Accept(old(Snapshot()), AcceptanceOf(m)) && requests == old(requests) + 1
                && m.request.bridgeId in old(sessions) && old(sessions)[m.request.bridgeId].revokedAtMs.None?
                && m.request.nonce !in old(nonces)[m.request.bridgeId]
    {
      failure := Check(m, now);
      if failure.None? {
        AuthOk(env.crypto, Snapshot(), now, m);
        Spend(AcceptanceOf(m));
      }
    }

    /** Carries out one move of handler `q`. */
    method Move(q: nat, plan: Plan) returns (reply: Reply)
      modifies this`waiting, this`trace
      ensures Snapshot() == Follow(old(Snapshot()), q, plan) && reply == ReplyOf(plan)
    {
      match plan {
        case Refuse(reason) => return Rejected(reason);
        case Fails => return Crashed;
        case Act(e) =>
          trace := trace + [Did(q, e)];
          return Performed(e);
        case _ =>
          waiting := waiting[q := plan];
          return Suspended;
      }
    }

    /** Hands an accepted request to the handler of its operation. */
    method Dispatch(q: nat, a: Acceptance) returns (reply: Reply)
      requires a.bridgeId in sessions
      modifies this`waiting, this`trace
      ensures Snapshot() == Follow(old(Snapshot()), q, PlanOf(env.deps, old(Snapshot()), a))
      ensures reply == ReplyOf(PlanOf(env.deps, old(Snapshot()), a))
    {
      var session := sessions[a.bridgeId];
      reply := Move(q, Decide(session.permissions, env.deps, session.projectId, a.op, a.payload));
    }

    /** A request, up to the first `await` of its handler. */
    method Receive(m: Signed, now: int) returns (reply: Reply)
      requires Keyed(Snapshot()) && requests == |accepted|
      modifies this
      ensures Snapshot() == Handle(env, old(Snapshot()), now, m) && requests == |accepted|
      ensures reply == HandleReply(env, old(Snapshot()), now, m)
    {
      if IsForbidden(m.request.operationType) { return Rejected(OperationNotAvailable); }
      if OperationOf(m.request.operationType).None? { return Rejected(UnknownOperation); }
      var q := requests;
      var failure := Authenticate(m, now);
      if failure.Some? { return Rejected(failure.value); }
      reply := Dispatch(q, AcceptanceOf(m));
    }

    /** Whatever the request, the bookkeeping of every run is kept. */
    method HandleRequest(m: Signed, now: int) returns (reply: Reply)
      requires Valid()
      modifies this
      ensures Valid() && Snapshot() == Handle(env, old(Snapshot()), now, m)
      ensures reply == HandleReply(env, old(Snapshot()), now, m)
    {
      InvHandle(env, Snapshot(), now, m);
      reply := Receive(m, now);
    }

    /** The URL check of handler `q` has answered. */
    method UrlAnswered(q: nat, verdict: Option<Text>) returns (reply: Reply)
      requires Valid() && q in waiting && waiting[q].CheckUrl?
      modifies this
      ensures Valid() && Snapshot() == UrlChecked(env, old(Snapshot()), q, verdict)
      ensures reply == ReplyOf(AfterUrl(env.deps, verdict, old(waiting)[q].credentialRef, old(waiting)[q].operationId))
    {
      InvUrlChecked(env, Snapshot(), q, verdict);
      var w := waiting[q];
      ghost var hosts := HostsOf(Snapshot(), q);
      waiting := waiting - {q};
      trace := trace + [Checked(q, w.url, hosts, verdict)];
      reply := Move(q, AfterUrl(env.deps, verdict, w.credentialRef, w.operationId));
    }

    /** The file of handler `q` hashes to `sha`. */
    method HashAnswered(q: nat, sha: Text) returns (reply: Reply)
      requires Valid() && q in waiting && waiting[q].ReadHash?
      modifies this
      ensures Valid() && Snapshot() == HashFinished(old(Snapshot()), q, sha)
      ensures reply.Performed? <==> sha == old(waiting)[q].approved
    {
      InvHashFinished(env, Snapshot(), q, sha);
      var w := waiting[q];
      waiting := waiting - {q};
      trace := trace + [HashRead(q, w.wasmPath, sha)];
      reply := Move(q, AfterHash(sha, w.workflow, w.wasmPath, w.registry, w.approved));
    }

    /** The person asked by handler `q` has answered. */
    method PersonAnswered(q: nat, yes: bool) returns (reply: Reply)
      requires Valid() && q in waiting && waiting[q].Ask?
      modifies this
      ensures Valid() && Snapshot() == HumanAnswered(env, old(Snapshot()), q, yes)
      ensures reply.Performed? <==> yes && env.deps.ledger
    {
      InvHumanAnswered(env, Snapshot(), q, yes);
      var w := waiting[q];
      waiting := waiting - {q};
      trace := trace + [Answered(q, yes)];
      reply := Move(q, AfterHuman(env.deps, yes, w.actionType, w.digestInput));
    }
  }
}
