/** The declared life of a capability request: which state may follow which. */
module RequestStates {

  datatype RequestState =
    | Received | IdentityValidated | PolicyEvaluating
    | Denied | EscalationRequired | Authorized
    | CapabilityIssued | Submitted
    | Executed | Reverted | Expired | Failed

  function Transitions(from: RequestState): seq<RequestState> {
    match from
    case Received => [IdentityValidated, Denied, Failed]
    case IdentityValidated => [PolicyEvaluating, Denied, Failed]
    case PolicyEvaluating => [Authorized, EscalationRequired, Denied, Failed]
    case Authorized => [CapabilityIssued, Expired, Failed]
    case EscalationRequired => [Expired, Failed]
    case CapabilityIssued => [Submitted, Expired]
    case Submitted => [Executed, Reverted]
    case _ => []
  }

  predicate CanTransition(from: RequestState, to: RequestState) {
    to in Transitions(from)
  }

  predicate IsTerminal(s: RequestState) {
    |Transitions(s)| == 0
  }

  predicate MayExecute(s: RequestState) {
    s == CapabilityIssued || s == Submitted
  }

  /** A sequence of states in which each may follow the one before. */
  predicate IsPath(path: seq<RequestState>) {
    forall i | 0 < i < |path| :: CanTransition(path[i - 1], path[i])
  }

  predicate IsRefusal(s: RequestState) {
    s == Denied || s == EscalationRequired
  }

  /** Where a refused request may still go. */
  predicate Unauthorized(s: RequestState) {
    IsRefusal(s) || s == Expired || s == Failed
  }

  lemma {:induction false} RefusedStays(path: seq<RequestState>, i: nat, j: nat)
    requires IsPath(path) && i <= j < |path| && IsRefusal(path[i])
    ensures Unauthorized(path[j])
    decreases j
  {
    if i < j {
      RefusedStays(path, i, j - 1);
      assert CanTransition(path[j - 1], path[j]);
    }
  }

  /** On no path does a state from which a capability may be executed come after a refusal. */
  lemma RefusedNeverExecutes(path: seq<RequestState>, i: nat, j: nat)
    requires IsPath(path) && i <= j < |path| && IsRefusal(path[i])
    ensures !MayExecute(path[j])
  {
    RefusedStays(path, i, j);
  }

  /** Towards any executable state every path passes through AUTHORIZED. */
  lemma {:induction false} ExecutesOnlyAuthorized(path: seq<RequestState>, j: nat) returns (i: nat)
    requires IsPath(path) && j < |path| && MayExecute(path[j]) && !MayExecute(path[0])
    ensures i < j && path[i] == Authorized
  {
    assert j > 0 && CanTransition(path[j - 1], path[j]);
    if path[j - 1] == Authorized {
      i := j - 1;
    } else {
      i := ExecutesOnlyAuthorized(path, j - 1);
    }
  }

  /** Paths end: rank falls along every transition, so no state is visited twice. */
  function Rank(s: RequestState): nat {
    match s
    case Received => 6
    case IdentityValidated => 5
    case PolicyEvaluating => 4
    case Authorized => 3
    case EscalationRequired => 2
    case CapabilityIssued => 2
    case Submitted => 1
    case _ => 0
  }

  lemma {:induction false} PathsFall(path: seq<RequestState>, i: nat, j: nat)
    requires IsPath(path) && i < j < |path|
    ensures Rank(path[j]) + (j - i) <= Rank(path[i])
    decreases j
  {
    assert CanTransition(path[j - 1], path[j]);
    if i < j - 1 {
      PathsFall(path, i, j - 1);
    }
  }

  /** A terminal state has no way on; every other has one, and its rank says so. */
  lemma TerminalExact(s: RequestState)
    ensures IsTerminal(s) <==> forall t: RequestState :: !IsPath([s, t])
    ensures IsTerminal(s) <==> Rank(s) == 0
  {
    forall t: RequestState ensures IsPath([s, t]) <==> CanTransition(s, t) {
      if IsPath([s, t]) { assert CanTransition([s, t][0], [s, t][1]); }
    }
    if !IsTerminal(s) {
      assert CanTransition(s, Transitions(s)[0]);
    }
  }
}
