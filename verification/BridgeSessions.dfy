/** Where sessions come from and when they stop being served, over every run of the bridge. */
module BridgeSessions {
  import opened Texts
  import opened SignedRequest
  import opened BridgePolicy
  import opened BridgeRuns

  /** Session `b` was opened by pairing `code`, which was created for its own user and project. */
  ghost predicate OpenedBy(trace: seq<Note>, b: Text, session: Session) {
    exists i, j :: 0 <= i < j < |trace| && trace[i].Created? && trace[j] == Paired(trace[i].code, b)
                   && trace[i].userId == session.userId && trace[i].projectId == session.projectId
  }

  ghost predicate CreatedFor(trace: seq<Note>, p: PairingCode, code: Text) {
    exists i :: 0 <= i < |trace| && trace[i] == Created(code, p.userId, p.projectId)
  }

  predicate NeverPaired(trace: seq<Note>, code: Text) {
    forall j | 0 <= j < |trace| && trace[j].Paired? :: trace[j].code != code
  }

  ghost predicate CodesOk(s: State) {
    && (forall code | code in s.pairings ::
          && CreatedFor(s.trace, s.pairings[code], code)
          && (s.pairings[code].usedAtMs.None? ==> NeverPaired(s.trace, code)))
    && (forall i | 0 <= i < |s.trace| && (s.trace[i].Created? || s.trace[i].Paired?) :: s.trace[i].code in s.pairings)
  }

  predicate OnePairingPerCode(trace: seq<Note>) {
    forall i, j | 0 <= i < j < |trace| && trace[i].Paired? && trace[j].Paired? :: trace[i].code != trace[j].code
  }

  ghost predicate SessionsOk(s: State) {
    forall b | b in s.sessions :: OpenedBy(s.trace, b, s.sessions[b])
  }

  /** After session `b` is revoked no request of it is accepted. */
  ghost predicate RevokedOk(s: State) {
    && (forall i | 0 <= i < |s.trace| && s.trace[i].Revoked? ::
          s.trace[i].bridgeId in s.sessions && s.sessions[s.trace[i].bridgeId].revokedAtMs.Some?)
    && (forall j | 0 <= j < |s.trace| && s.trace[j].Accepted? :: s.trace[j].q < |s.accepted|)
    && (forall i, j | 0 <= i < j < |s.trace| && s.trace[i].Revoked? && s.trace[j].Accepted? ::
          s.accepted[s.trace[j].q].bridgeId != s.trace[i].bridgeId)
  }

  ghost predicate SessionInv(s: State) {
    CodesOk(s) && OnePairingPerCode(s.trace) && SessionsOk(s) && RevokedOk(s)
  }

  // ----- steps of handlers -----

  predicate IsHandlerNote(n: Note) {
    !n.Created? && !n.Paired? && !n.Revoked?
  }

  /** What a request or a resumed handler may do to the state, as far as sessions are concerned. */
  ghost predicate HandlerStep(s: State, t: State) {
    && t.pairings == s.pairings && t.sessions == s.sessions
    && s.accepted <= t.accepted && s.trace <= t.trace
    && (forall k | |s.trace| <= k < |t.trace| ::
          && IsHandlerNote(t.trace[k])
          && (t.trace[k].Accepted? ==>
                && t.trace[k].q < |t.accepted|
                && var b := t.accepted[t.trace[k].q].bridgeId;
                   b in s.sessions && s.sessions[b].revokedAtMs.None?))
  }

  lemma FollowStep(s: State, t: State, q: nat, plan: Plan)
    requires HandlerStep(s, t)
    ensures HandlerStep(s, Follow(t, q, plan))
  {
  }

  lemma AcceptStep(c: Crypto, s: State, now: int, m: Signed)
    requires RequestFailure(c, s, now, m).None?
    ensures HandlerStep(s, Accept(s, AcceptanceOf(m)))
  {
    var t := Accept(s, AcceptanceOf(m));
    assert t.trace[|s.trace|] == Accepted(|s.accepted|);
  }

  lemma HandleStep(env: Env, s: State, now: int, m: Signed)
    ensures HandlerStep(s, Handle(env, s, now, m))
  {
    if RequestFailure(env.crypto, s, now, m).None? {
      var a := AcceptanceOf(m);
      AcceptStep(env.crypto, s, now, m);
      FollowStep(s, Accept(s, a), |s.accepted|, PlanOf(env.deps, s, a));
    }
  }

  /** Resuming a handler only moves it on, after at most one observation. */
  lemma ResumeStep(s: State, q: nat, notes: seq<Note>, plan: Plan)
    requires forall k | 0 <= k < |notes| :: IsHandlerNote(notes[k]) && !notes[k].Accepted?
    ensures HandlerStep(s, Follow(Woken(s, q).(trace := s.trace + notes), q, plan))
  {
    FollowStep(s, Woken(s, q).(trace := s.trace + notes), q, plan);
  }

  lemma EventStep(env: Env, s: State, e: Event)
    requires e.DoHandle? || e.DoUrlChecked? || e.DoHashFinished? || e.DoHumanAnswered? || e.DoRejected?
    ensures HandlerStep(s, Step(env, s, e))
  {
    match e {
      case DoHandle(m, now) => HandleStep(env, s, now, m);
      case DoUrlChecked(q, egress) =>
        if q in s.waiting && s.waiting[q].CheckUrl? {
          var w := s.waiting[q];
          var v := egress(w.url, HostsOf(s, q));
          ResumeStep(s, q, [Checked(q, w.url, HostsOf(s, q), v)],
                     AfterUrl(env.deps, v, w.credentialRef, w.operationId));
        }
      case DoHashFinished(q, sha) =>
        if q in s.waiting && s.waiting[q].ReadHash? {
          var w := s.waiting[q];
          ResumeStep(s, q, [HashRead(q, w.wasmPath, sha)],
                     AfterHash(sha, w.workflow, w.wasmPath, w.registry, w.approved));
        }
      case DoHumanAnswered(q, yes) =>
        if q in s.waiting && s.waiting[q].Ask? {
          var w := s.waiting[q];
          ResumeStep(s, q, [Answered(q, yes)], AfterHuman(env.deps, yes, w.actionType, w.digestInput));
        }
      case _ =>
    }
  }

  lemma CodesHandler(s: State, t: State)
    requires CodesOk(s) && HandlerStep(s, t)
    ensures CodesOk(t)
  {
    forall code | code in t.pairings
      ensures CreatedFor(t.trace, t.pairings[code], code)
      ensures t.pairings[code].usedAtMs.None? ==> NeverPaired(t.trace, code)
    {
      CreatedLater(s.trace, t.trace, s.pairings[code], code);
      if t.pairings[code].usedAtMs.None? {
        forall j | 0 <= j < |t.trace| && t.trace[j].Paired? ensures t.trace[j].code != code {
          assert t.trace[j] == s.trace[j];
        }
      }
    }
    forall i | 0 <= i < |t.trace| && (t.trace[i].Created? || t.trace[i].Paired?) ensures t.trace[i].code in t.pairings {
      assert t.trace[i] == s.trace[i];
    }
  }

  lemma CreatedLater(a: seq<Note>, b: seq<Note>, p: PairingCode, code: Text)
    requires a <= b && CreatedFor(a, p, code)
    ensures CreatedFor(b, p, code)
  {
    var i :| 0 <= i < |a| && a[i] == Created(code, p.userId, p.projectId);
    assert b[i] == a[i];
  }

  lemma OpenedLater(a: seq<Note>, c: seq<Note>, b: Text, x: Session, y: Session)
    requires a <= c && OpenedBy(a, b, x) && y.userId == x.userId && y.projectId == x.projectId
    ensures OpenedBy(c, b, y)
  {
    var i, j :| 0 <= i < j < |a| && a[i].Created? && a[j] == Paired(a[i].code, b)
                && a[i].userId == x.userId && a[i].projectId == x.projectId;
    assert c[i] == a[i] && c[j] == a[j];
  }

  lemma RevokedHandler(s: State, t: State)
    requires RevokedOk(s) && HandlerStep(s, t)
    ensures RevokedOk(t)
  {
    forall i | 0 <= i < |t.trace| && t.trace[i].Revoked? ensures i < |s.trace| && t.trace[i] == s.trace[i] {}
    forall j | 0 <= j < |t.trace| && t.trace[j].Accepted? ensures t.trace[j].q < |t.accepted| {
      if j < |s.trace| { assert t.trace[j] == s.trace[j]; }
    }
    forall i, j | 0 <= i < j < |t.trace| && t.trace[i].Revoked? && t.trace[j].Accepted?
      ensures t.accepted[t.trace[j].q].bridgeId != t.trace[i].bridgeId
    {
      assert t.trace[i] == s.trace[i];
      if j < |s.trace| {
        assert t.trace[j] == s.trace[j] && t.accepted[t.trace[j].q] == s.accepted[t.trace[j].q];
      }
    }
  }

  lemma SessionInvHandler(s: State, t: State)
    requires SessionInv(s) && HandlerStep(s, t)
    ensures SessionInv(t)
  {
    CodesHandler(s, t);
    RevokedHandler(s, t);
    forall b | b in t.sessions ensures OpenedBy(t.trace, b, t.sessions[b]) {
      OpenedLater(s.trace, t.trace, b, s.sessions[b], t.sessions[b]);
    }
    forall i, j | 0 <= i < j < |t.trace| && t.trace[i].Paired? && t.trace[j].Paired?
      ensures t.trace[i].code != t.trace[j].code
    {
      assert t.trace[i] == s.trace[i] && t.trace[j] == s.trace[j];
    }
  }

  // ----- steps of pairing -----

  lemma CreateCodes(s: State, code: Text, userId: Text, projectId: Text, ttlMs: int, now: int)
    requires CodesOk(s) && code !in s.pairings
    ensures CodesOk(CreateCode(s, code, userId, projectId, ttlMs, now))
  {
    var t := CreateCode(s, code, userId, projectId, ttlMs, now);
    assert t.trace[|s.trace|] == Created(code, userId, projectId);
    forall c | c in t.pairings
      ensures CreatedFor(t.trace, t.pairings[c], c)
      ensures t.pairings[c].usedAtMs.None? ==> NeverPaired(t.trace, c)
    {
      if c != code { CreatedLater(s.trace, t.trace, s.pairings[c], c); }
    }
  }

  lemma OnceLater(trace: seq<Note>, n: Note)
    requires OnePairingPerCode(trace) && (n.Paired? ==> NeverPaired(trace, n.code))
    ensures OnePairingPerCode(trace + [n])
  {
  }

  /** Every session but possibly `b` was open before, for the same user and project. */
  lemma SessionsLater(s: State, t: State, b: Text)
    requires SessionsOk(s) && s.trace <= t.trace
    requires b in t.sessions ==> OpenedBy(t.trace, b, t.sessions[b])
    requires forall x | x in t.sessions && x != b ::
               x in s.sessions && t.sessions[x].userId == s.sessions[x].userId
               && t.sessions[x].projectId == s.sessions[x].projectId
    ensures SessionsOk(t)
  {
    forall x | x in t.sessions ensures OpenedBy(t.trace, x, t.sessions[x]) {
      if x != b { OpenedLater(s.trace, t.trace, x, s.sessions[x], t.sessions[x]); }
    }
  }

  lemma CreateSessions(s: State, code: Text, userId: Text, projectId: Text, ttlMs: int, now: int)
    requires SessionsOk(s)
    ensures SessionsOk(CreateCode(s, code, userId, projectId, ttlMs, now))
  {
    var t := CreateCode(s, code, userId, projectId, ttlMs, now);
    forall b | b in t.sessions ensures OpenedBy(t.trace, b, t.sessions[b]) {
      OpenedLater(s.trace, t.trace, b, s.sessions[b], t.sessions[b]);
    }
  }

  /** A note that is neither a revocation nor an acceptance. */
  lemma RevokedLater(s: State, t: State, n: Note)
    requires RevokedOk(s) && !n.Revoked? && !n.Accepted?
    requires t.accepted == s.accepted && t.trace == s.trace + [n]
    requires forall x | x in s.sessions :: x in t.sessions && t.sessions[x] == s.sessions[x]
    ensures RevokedOk(t)
  {
  }

  lemma SessionInvCreate(s: State, code: Text, userId: Text, projectId: Text, ttlMs: int, now: int)
    requires SessionInv(s) && code !in s.pairings
    ensures SessionInv(CreateCode(s, code, userId, projectId, ttlMs, now))
  {
    var n := Created(code, userId, projectId);
    CreateCodes(s, code, userId, projectId, ttlMs, now);
    CreateSessions(s, code, userId, projectId, ttlMs, now);
    OnceLater(s.trace, n);
    RevokedLater(s, CreateCode(s, code, userId, projectId, ttlMs, now), n);
  }

  lemma PairCodes(s: State, code: Text, perms: Permissions, ttlMs: int, b: Text, key: Bytes, now: int)
    requires CodesOk(s) && PairFailure(s, code, now).None?
    ensures CodesOk(Pair(s, code, perms, ttlMs, b, key, now)) && NeverPaired(s.trace, code)
  {
    var t := Pair(s, code, perms, ttlMs, b, key, now);
    forall c | c in t.pairings
      ensures CreatedFor(t.trace, t.pairings[c], c)
      ensures t.pairings[c].usedAtMs.None? ==> NeverPaired(t.trace, c)
    {
      CreatedLater(s.trace, t.trace, s.pairings[c], c);
    }
  }

  lemma NewlyOpened(s: State, code: Text, b: Text, x: Session)
    requires CodesOk(s) && code in s.pairings
    requires x.userId == s.pairings[code].userId && x.projectId == s.pairings[code].projectId
    ensures OpenedBy(s.trace + [Paired(code, b)], b, x)
  {
    var t := s.trace + [Paired(code, b)];
    var i :| 0 <= i < |s.trace| && s.trace[i] == Created(code, s.pairings[code].userId, s.pairings[code].projectId);
    assert t[i] == s.trace[i] && t[|s.trace|] == Paired(code, b);
  }

  lemma PairSessions(s: State, code: Text, perms: Permissions, ttlMs: int, b: Text, key: Bytes, now: int)
    requires SessionsOk(s) && CodesOk(s) && PairFailure(s, code, now).None?
    ensures SessionsOk(Pair(s, code, perms, ttlMs, b, key, now))
  {
    var t := Pair(s, code, perms, ttlMs, b, key, now);
    NewlyOpened(s, code, b, t.sessions[b]);
    SessionsLater(s, t, b);
  }

  lemma SessionInvPair(s: State, code: Text, perms: Permissions, ttlMs: int, b: Text, key: Bytes, now: int)
    requires SessionInv(s) && b !in s.sessions && PairFailure(s, code, now).None?
    ensures SessionInv(Pair(s, code, perms, ttlMs, b, key, now))
  {
    PairCodes(s, code, perms, ttlMs, b, key, now);
    PairSessions(s, code, perms, ttlMs, b, key, now);
    OnceLater(s.trace, Paired(code, b));
    RevokedLater(s, Pair(s, code, perms, ttlMs, b, key, now), Paired(code, b));
  }

  lemma RevokeCodes(s: State, b: Text, now: int)
    requires CodesOk(s) && b in s.sessions
    ensures CodesOk(Revoke(s, b, now))
  {
    var t := Revoke(s, b, now);
    forall c | c in t.pairings ensures CreatedFor(t.trace, t.pairings[c], c) {
      CreatedLater(s.trace, t.trace, s.pairings[c], c);
    }
  }

  lemma RevokeSessions(s: State, b: Text, now: int)
    requires SessionsOk(s) && b in s.sessions
    ensures SessionsOk(Revoke(s, b, now))
  {
    var t := Revoke(s, b, now);
    OpenedLater(s.trace, t.trace, b, s.sessions[b], t.sessions[b]);
    SessionsLater(s, t, b);
  }

  lemma RevokeRevoked(s: State, b: Text, now: int)
    requires RevokedOk(s) && b in s.sessions
    ensures RevokedOk(Revoke(s, b, now))
  {
  }

  lemma SessionInvRevoke(s: State, b: Text, now: int)
    requires SessionInv(s) && b in s.sessions
    ensures SessionInv(Revoke(s, b, now))
  {
    RevokeCodes(s, b, now);
    RevokeSessions(s, b, now);
    RevokeRevoked(s, b, now);
    OnceLater(s.trace, Revoked(b));
  }

  lemma SessionInvStep(env: Env, s: State, e: Event)
    requires SessionInv(s) && Fresh(s, e)
    ensures SessionInv(Step(env, s, e))
  {
    match e {
      case DoCreateCode(code, userId, projectId, ttlMs, now) =>
        SessionInvCreate(s, code, userId, projectId, ttlMs, now);
      case DoPair(code, perms, ttlMs, b, key, now) =>
        if PairFailure(s, code, now).None? { SessionInvPair(s, code, perms, ttlMs, b, key, now); }
      case DoRevoke(b, now) =>
        if b in s.sessions { SessionInvRevoke(s, b, now); }
      case _ =>
        EventStep(env, s, e);
        SessionInvHandler(s, Step(env, s, e));
    }
  }

  lemma {:induction false} SessionInvRun(env: Env, es: seq<Event>)
    requires FreshRun(env, es)
    ensures SessionInv(Run(env, es))
  {
    if es != [] {
      SessionInvRun(env, es[..|es| - 1]);
      SessionInvStep(env, Run(env, es[..|es| - 1]), es[|es| - 1]);
    }
  }

  /** Over every interleaving: a pairing code opens at most one session, every session is for the
      user and project its code was created for, and once a session is revoked none of its
      requests is accepted. */
  lemma SessionsAccounted(env: Env, es: seq<Event>)
    requires FreshRun(env, es)
    ensures var s := Run(env, es);
            && OnePairingPerCode(s.trace)
            && (forall b | b in s.sessions :: OpenedBy(s.trace, b, s.sessions[b]))
            && (forall i, j | 0 <= i < j < |s.trace| && s.trace[i].Revoked? && s.trace[j].Accepted? ::
                  s.trace[j].q < |s.accepted| && s.accepted[s.trace[j].q].bridgeId != s.trace[i].bridgeId)
  {
    SessionInvRun(env, es);
  }
}
