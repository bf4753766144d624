/** Model spend: reserved before a call, settled or released after it, with calls in flight
    interleaved in any way. */
module Quota {
  import opened Texts

  datatype Dim = ModelRequests | InputTokens | OutputTokens

  datatype Amount = Amount(requests: nat, input: nat, output: nat) {
    function Of(d: Dim): nat {
      match d
      case ModelRequests => requests
      case InputTokens => input
      case OutputTokens => output
    }
  }

  datatype Policy = Policy(modelRequestsPerBuild: nat, inputTokensPerBuild: nat, outputTokensPerBuild: nat,
                           reservedOutputTokensPerRequest: nat)

  function Limit(policy: Policy, d: Dim): nat {
    match d
    case ModelRequests => policy.modelRequestsPerBuild
    case InputTokens => policy.inputTokensPerBuild
    case OutputTokens => policy.outputTokensPerBuild
  }

  datatype ReservationState = Held | Settled | Released

  datatype Reservation = Reservation(buildId: Text, amount: Amount, state: ReservationState)

  datatype Usage = Usage(buildId: Text, amount: Amount)

  datatype Ledger = Ledger(reservations: seq<Reservation>, usage: seq<Usage>)

  datatype ReserveResult = Reserved(id: nat) | QuotaExceeded(kind: Dim, used: nat, limit: nat)

  // ----- totals -----

  /** What a reservation row adds to the totals of `build`. */
  function Holds(r: Reservation, build: Text, d: Dim): nat {
    if r.buildId == build && r.state == Held then r.amount.Of(d) else 0
  }

  function HeldTotal(rows: seq<Reservation>, build: Text, d: Dim): nat {
    if rows == [] then 0 else HeldTotal(rows[..|rows| - 1], build, d) + Holds(rows[|rows| - 1], build, d)
  }

  function Used(u: Usage, build: Text, d: Dim): nat {
    if u.buildId == build then u.amount.Of(d) else 0
  }

  function UsedTotal(rows: seq<Usage>, build: Text, d: Dim): nat {
    if rows == [] then 0 else UsedTotal(rows[..|rows| - 1], build, d) + Used(rows[|rows| - 1], build, d)
  }

  /** Settled usage plus anything currently held. */
  function Total(l: Ledger, build: Text, d: Dim): nat {
    UsedTotal(l.usage, build, d) + HeldTotal(l.reservations, build, d)
  }

  /** What reservation `id` still holds for `build`. */
  function StillHeld(l: Ledger, id: nat, build: Text, d: Dim): nat {
    if id < |l.reservations| then Holds(l.reservations[id], build, d) else 0
  }

  function Requested(policy: Policy, estimatedInput: nat): Amount {
    Amount(1, estimatedInput, policy.reservedOutputTokensPerRequest)
  }

  predicate Fits(policy: Policy, l: Ledger, build: Text, a: Amount, d: Dim) {
    Total(l, build, d) + a.Of(d) <= Limit(policy, d)
  }

  predicate Affordable(policy: Policy, l: Ledger, build: Text, a: Amount) {
    forall d: Dim :: Fits(policy, l, build, a, d)
  }

  function Exceeded(policy: Policy, l: Ledger, build: Text, d: Dim): ReserveResult {
    QuotaExceeded(d, Total(l, build, d), Limit(policy, d))
  }

  // ----- the three operations -----

  datatype Op =
    | DoReserve(build: Text, estimatedInput: nat)
    | DoSettle(id: nat, build: Text, usage: Amount)
    | DoRelease(id: nat)

  function WithState(rows: seq<Reservation>, id: nat, state: ReservationState): seq<Reservation> {
    if id < |rows| then rows[id := rows[id].(state := state)] else rows
  }

  function After(policy: Policy, l: Ledger, op: Op): Ledger {
    match op
    case DoReserve(build, estimate) =>
      var a := Requested(policy, estimate);
      if Affordable(policy, l, build, a) then l.(reservations := l.reservations + [Reservation(build, a, Held)]) else l
    case DoSettle(id, build, usage) =>
      Ledger(WithState(l.reservations, id, Settled), l.usage + [Usage(build, usage)])
    case DoRelease(id) => l.(reservations := WithState(l.reservations, id, Released))
  }

  class QuotaManager {
    const policy: Policy
    var reservations: seq<Reservation>
    var usage: seq<Usage>

    function Snapshot(): Ledger
      reads this
    {
      Ledger(reservations, usage)
    }

    constructor (policy: Policy)
      ensures this.policy == policy && Snapshot() == Ledger([], [])
    {
      this.policy := policy;
      reservations, usage := [], [];
    }

    /** Reads the totals and inserts the row in one transaction, or refuses, naming the first limit
        that would be passed. */
    method Reserve(build: Text, estimatedInput: nat) returns (r: ReserveResult)
      modifies this
      ensures Snapshot() == After(policy, old(Snapshot()), DoReserve(build, estimatedInput))
      ensures r.Reserved? <==> Affordable(policy, old(Snapshot()), build, Requested(policy, estimatedInput))
      ensures r.Reserved? ==>
                && r.id == |old(reservations)| < |reservations|
                && reservations[r.id] == Reservation(build, Requested(policy, estimatedInput), Held)
                && forall d: Dim :: Total(Snapshot(), build, d) <= Limit(policy, d)
      ensures r.QuotaExceeded? ==>
                && Snapshot() == old(Snapshot()) && r == Exceeded(policy, Snapshot(), build, r.kind)
                && !Fits(policy, Snapshot(), build, Requested(policy, estimatedInput), r.kind)
    {
      var l := Snapshot();
      var a := Requested(policy, estimatedInput);
      if !Fits(policy, l, build, a, ModelRequests) { return Exceeded(policy, l, build, ModelRequests); }
      if !Fits(policy, l, build, a, InputTokens) { return Exceeded(policy, l, build, InputTokens); }
      if !Fits(policy, l, build, a, OutputTokens) { return Exceeded(policy, l, build, OutputTokens); }
      assert forall d: Dim :: Fits(policy, l, build, a, d) by {
        forall d: Dim ensures Fits(policy, l, build, a, d) {
          match d { case ModelRequests => case InputTokens => case OutputTokens => }
        }
      }
      var row := Reservation(build, a, Held);
      reservations := reservations + [row];
      forall d: Dim ensures Total(Snapshot(), build, d) <= Limit(policy, d) {
        assert Fits(policy, l, build, a, d);
        TotalAfter(policy, l, DoReserve(build, estimatedInput), build, d);
      }
      return Reserved(|reservations| - 1);
    }

    /** Replaces what the reservation still holds by what the call used. */
    method Settle(id: nat, build: Text, amount: Amount)
      modifies this
      ensures Snapshot() == After(policy, old(Snapshot()), DoSettle(id, build, amount))
      ensures forall d: Dim :: Total(Snapshot(), build, d)
                               == Total(old(Snapshot()), build, d) - StillHeld(old(Snapshot()), id, build, d)
                                 + amount.Of(d)
    {
      forall d: Dim ensures Total(After(policy, Snapshot(), DoSettle(id, build, amount)), build, d)
                               == Total(Snapshot(), build, d) - StillHeld(Snapshot(), id, build, d) + amount.Of(d)
      {
        TotalAfter(policy, Snapshot(), DoSettle(id, build, amount), build, d);
      }
      if id < |reservations| {
        reservations := reservations[id := reservations[id].(state := Settled)];
      }
      usage := usage + [Usage(build, amount)];
    }

    method Release(id: nat)
      modifies this`reservations
      ensures Snapshot() == After(policy, old(Snapshot()), DoRelease(id))
    {
      if id < |reservations| {
        reservations := reservations[id := reservations[id].(state := Released)];
      }
    }
  }

  // ----- what one operation does to a total -----

  lemma {:induction false} HeldTotalUpdate(rows: seq<Reservation>, id: nat, r: Reservation, build: Text, d: Dim)
    requires id < |rows|
    ensures HeldTotal(rows[id := r], build, d)
         == HeldTotal(rows, build, d) - Holds(rows[id], build, d) + Holds(r, build, d)
  {
    var n := |rows| - 1;
    if id < n {
      HeldTotalUpdate(rows[..n], id, r, build, d);
      assert rows[id := r][..n] == rows[..n][id := r];
    } else {
      assert rows[id := r][..n] == rows[..n];
    }
  }

  lemma HeldTotalAdd(rows: seq<Reservation>, r: Reservation, build: Text, d: Dim)
    ensures HeldTotal(rows + [r], build, d) == HeldTotal(rows, build, d) + Holds(r, build, d)
  {
    assert (rows + [r])[..|rows|] == rows;
  }

  lemma UsedTotalAdd(rows: seq<Usage>, u: Usage, build: Text, d: Dim)
    ensures UsedTotal(rows + [u], build, d) == UsedTotal(rows, build, d) + Used(u, build, d)
  {
    assert (rows + [u])[..|rows|] == rows;
  }

  lemma HeldTotalLetGo(rows: seq<Reservation>, id: nat, state: ReservationState, build: Text, d: Dim)
    requires state != Held
    ensures HeldTotal(WithState(rows, id, state), build, d)
         == HeldTotal(rows, build, d) - (if id < |rows| then Holds(rows[id], build, d) else 0)
  {
    if id < |rows| {
      HeldTotalUpdate(rows, id, rows[id].(state := state), build, d);
    }
  }

  /** How far each operation moves each total of each build, whatever rows it names. */
  lemma TotalAfter(policy: Policy, l: Ledger, op: Op, build: Text, d: Dim)
    ensures Total(After(policy, l, op), build, d) ==
            match op
            case DoReserve(b, estimate) =>
              Total(l, build, d)
              + (if b == build && Affordable(policy, l, b, Requested(policy, estimate))
                 then Requested(policy, estimate).Of(d) else 0)
            case DoSettle(id, b, usage) =>
              Total(l, build, d) - StillHeld(l, id, build, d) + (if b == build then usage.Of(d) else 0)
            case DoRelease(id) => Total(l, build, d) - StillHeld(l, id, build, d)
  {
    match op {
      case DoReserve(b, estimate) =>
        HeldTotalAdd(l.reservations, Reservation(b, Requested(policy, estimate), Held), build, d);
      case DoSettle(id, b, usage) =>
        HeldTotalLetGo(l.reservations, id, Settled, build, d);
        UsedTotalAdd(l.usage, Usage(b, usage), build, d);
      case DoRelease(id) => HeldTotalLetGo(l.reservations, id, Released, build, d);
    }
  }

  // ----- runs: any operations, by any callers, in any order -----

  function Run(policy: Policy, ops: seq<Op>): Ledger {
    if ops == [] then Ledger([], []) else After(policy, Run(policy, ops[..|ops| - 1]), ops[|ops| - 1])
  }

  /** By how much a settlement exceeds what its reservation still held for the build. */
  function Overrun(l: Ledger, op: Op, build: Text, d: Dim): nat {
    match op
    case DoSettle(id, b, usage) =>
      if b == build && usage.Of(d) > StillHeld(l, id, build, d) then usage.Of(d) - StillHeld(l, id, build, d) else 0
    case _ => 0
  }

  predicate Grants(policy: Policy, l: Ledger, op: Op, build: Text) {
    op.DoReserve? && op.build == build && Affordable(policy, l, build, Requested(policy, op.estimatedInput))
  }

  /** The overruns of the build since a reservation was last granted to it. */
  function OverrunsSinceReserve(policy: Policy, ops: seq<Op>, build: Text, d: Dim): nat {
    if ops == [] then 0 else
      var before := Run(policy, ops[..|ops| - 1]);
      var op := ops[|ops| - 1];
      if Grants(policy, before, op, build) then 0
      else OverrunsSinceReserve(policy, ops[..|ops| - 1], build, d) + Overrun(before, op, build, d)
  }

  /** In any interleaving, settled plus held stays within the limit plus the overruns since the last
      reservation that was granted. */
  lemma {:induction false} TotalsBounded(policy: Policy, ops: seq<Op>, build: Text, d: Dim)
    ensures Total(Run(policy, ops), build, d) <= Limit(policy, d) + OverrunsSinceReserve(policy, ops, build, d)
  {
    if ops != [] {
      var init, op := ops[..|ops| - 1], ops[|ops| - 1];
      TotalsBounded(policy, init, build, d);
      TotalAfter(policy, Run(policy, init), op, build, d);
      if Grants(policy, Run(policy, init), op, build) {
        assert Fits(policy, Run(policy, init), build, Requested(policy, op.estimatedInput), d);
      }
    }
  }

  /** The bound is met: each overrun adds itself in full. */
  lemma OverrunIsFelt(policy: Policy, l: Ledger, id: nat, build: Text, usage: Amount, d: Dim)
    requires usage.Of(d) >= StillHeld(l, id, build, d)
    ensures Total(After(policy, l, DoSettle(id, build, usage)), build, d)
         == Total(l, build, d) + Overrun(l, DoSettle(id, build, usage), build, d)
  {
    TotalAfter(policy, l, DoSettle(id, build, usage), build, d);
  }

  /** A settlement used no more than was still held for it. */
  predicate WithinReservation(l: Ledger, op: Op, build: Text, d: Dim) {
    Overrun(l, op, build, d) == 0
  }

  predicate AllWithin(policy: Policy, ops: seq<Op>, build: Text, d: Dim) {
    forall k | 0 <= k < |ops| :: WithinReservation(Run(policy, ops[..k]), ops[k], build, d)
  }

  lemma {:induction false} NoOverruns(policy: Policy, ops: seq<Op>, build: Text, d: Dim)
    requires AllWithin(policy, ops, build, d)
    ensures OverrunsSinceReserve(policy, ops, build, d) == 0
  {
    if ops != [] {
      var n := |ops| - 1;
      forall k | 0 <= k < n ensures WithinReservation(Run(policy, ops[..n][..k]), ops[..n][k], build, d) {
        assert ops[..n][..k] == ops[..k];
        assert WithinReservation(Run(policy, ops[..k]), ops[k], build, d);
      }
      NoOverruns(policy, ops[..n], build, d);
      assert WithinReservation(Run(policy, ops[..n]), ops[n], build, d);
    }
  }

  /** While every settlement stays within its reservation, no total ever passes its limit. */
  lemma NeverExceeds(policy: Policy, ops: seq<Op>, build: Text, d: Dim)
    requires AllWithin(policy, ops, build, d)
    ensures Total(Run(policy, ops), build, d) <= Limit(policy, d)
  {
    NoOverruns(policy, ops, build, d);
    TotalsBounded(policy, ops, build, d);
  }

  // ----- as `callModel` uses it -----

  /** A caller holds the id it was given until it settles or releases it, once, for its own build. */
  predicate OwnUse(l: Ledger, op: Op) {
    match op
    case DoReserve(_, _) => true
    case DoSettle(id, b, _) =>
      id < |l.reservations| && l.reservations[id].state == Held && l.reservations[id].buildId == b
    case DoRelease(id) => id < |l.reservations|
  }

  predicate AsCallModel(policy: Policy, ops: seq<Op>) {
    forall k | 0 <= k < |ops| :: OwnUse(Run(policy, ops[..k]), ops[k])
  }

  /** Then a settlement is measured against the whole reservation it was granted. */
  lemma OverrunOfOwnUse(policy: Policy, ops: seq<Op>, k: nat, d: Dim)
    requires AsCallModel(policy, ops) && k < |ops| && ops[k].DoSettle?
    ensures var l := Run(policy, ops[..k]);
            && ops[k].id < |l.reservations|
            && Overrun(l, ops[k], ops[k].build, d) ==
               var actual, reserved := ops[k].usage.Of(d), l.reservations[ops[k].id].amount.Of(d);
               if actual > reserved then actual - reserved else 0
  {
    assert OwnUse(Run(policy, ops[..k]), ops[k]);
  }

  predicate SettlesWithin(policy: Policy, ops: seq<Op>, k: nat, d: Dim)
    requires k < |ops|
  {
    var l := Run(policy, ops[..k]);
    ops[k].DoSettle? && ops[k].id < |l.reservations| ==> ops[k].usage.Of(d) <= l.reservations[ops[k].id].amount.Of(d)
  }

  /** For `callModel`: if no call ever uses more than it reserved, no limit is ever passed. */
  lemma CallModelNeverExceeds(policy: Policy, ops: seq<Op>, build: Text, d: Dim)
    requires AsCallModel(policy, ops)
    requires forall k | 0 <= k < |ops| :: SettlesWithin(policy, ops, k, d)
    ensures Total(Run(policy, ops), build, d) <= Limit(policy, d)
  {
    forall k | 0 <= k < |ops| ensures WithinReservation(Run(policy, ops[..k]), ops[k], build, d) {
      if ops[k].DoSettle? {
        assert SettlesWithin(policy, ops, k, d);
        OverrunOfOwnUse(policy, ops, k, d);
      }
    }
    NeverExceeds(policy, ops, build, d);
  }

  lemma {:induction false} RequestsHoldOne(policy: Policy, ops: seq<Op>, i: nat)
    requires i < |Run(policy, ops).reservations|
    ensures Run(policy, ops).reservations[i].amount.requests == 1
  {
    if ops != [] {
      var init := ops[..|ops| - 1];
      if i < |Run(policy, init).reservations| {
        RequestsHoldOne(policy, init, i);
      }
    }
  }

  /** A row reserves exactly one request, so a build never passes its number of model requests while
      each call reports at most one. */
  lemma RequestsNeverExceed(policy: Policy, ops: seq<Op>, build: Text)
    requires AsCallModel(policy, ops)
    requires forall k | 0 <= k < |ops| :: ops[k].DoSettle? ==> ops[k].usage.requests <= 1
    ensures Total(Run(policy, ops), build, ModelRequests) <= policy.modelRequestsPerBuild
  {
    forall k | 0 <= k < |ops| ensures SettlesWithin(policy, ops, k, ModelRequests) {
      if ops[k].DoSettle? && ops[k].id < |Run(policy, ops[..k]).reservations| {
        RequestsHoldOne(policy, ops[..k], ops[k].id);
      }
    }
    CallModelNeverExceeds(policy, ops, build, ModelRequests);
  }
}
