/** The life of one build among the others: its handler ends, an abandonment survives or not, and the
    design that is completed is the approved one or not. */
module BuildLife {
  import opened Texts
  import opened BuildRuns

  // ----- a handler ends -----

  /** Resumptions from the first compilation to the end, with so many repairs left. */
  function Attempts(files: nat, repairs: nat): (n: nat)
    ensures n >= 5
  {
    if repairs == 0 then 5 else Attempts(files, repairs - 1) + files + 2
  }

  function RepairsLeft(policy: Policy, row: BuildRow): nat {
    if row.repairCycles < policy.autoRepairLoops then policy.autoRepairLoops - row.repairCycles else 0
  }

  /** At most how often the handler resumes before it is over. */
  function Remaining(policy: Policy, row: BuildRow, f: Frame): nat {
    var n := |f.blueprint.design.files|;
    var left := Attempts(n, RepairsLeft(policy, row));
    match f.at
    case Creating => n + left + 2
    case Writing(i) => (if i < n then n - i else 0) + left + 1
    case Linking => left + 1
    case Compiling => left
    case Testing => left - 1
    case Rewriting(i) => (if i < n then n - i else 0) + left
    case GettingFixtures => 3
    case Reviewing(_) => 2
    case Destroying(_) => 1
  }

  lemma MoveAdvances(policy: Policy, id: Text, row: BuildRow, f: Frame, a: Answer, paths: set<Text>, prior: nat)
    requires row.repairCycles <= policy.autoRepairLoops
    requires f.at.Writing? ==> f.at.i < |f.blueprint.design.files|
    requires f.at.Rewriting? ==> f.at.i < |f.blueprint.design.files|
    ensures var m := MoveOf(policy, id, row, f, a, paths, prior);
            m.next.Some? ==> Remaining(policy, m.row, m.next.value) < Remaining(policy, row, f)
  {
    var n := |f.blueprint.design.files|;
    match f.at {
      case Compiling => SuiteAdvances(policy, row, f, false, [Compiled(id, f, false)]);
      case Testing =>
        SuiteAdvances(policy, row, f, a.exitCode == 0, [Tested(id, f, a.passed, a.exitCode == 0)]);
      case _ =>
    }
  }

  lemma SuiteAdvances(policy: Policy, row: BuildRow, f: Frame, ok: bool, tests: seq<TestRow>)
    requires row.repairCycles <= policy.autoRepairLoops
    ensures var m := AfterSuite(policy, row, f, ok, tests);
            m.next.Some? && Remaining(policy, m.row, m.next.value) + 1
                            < Attempts(|f.blueprint.design.files|, RepairsLeft(policy, row))
  {
  }

  predicate RowAndCall(t: State, id: Text, revision: nat, row: BuildRow, f: Frame) {
    id in t.builds && t.builds[id] == row && (id, revision) in t.calls && t.calls[(id, revision)] == f
  }

  predicate IsHandled(s: State, id: Text, revision: nat) {
    id in s.builds && (id, revision) in s.calls
  }

  lemma PutElsewhere(s: State, k: Text, g: Frame, m: Move, id: Text, revision: nat)
    requires k != id
    ensures var t := Put(s, k, g, m);
            && (id in t.builds <==> id in s.builds) && (id in s.builds ==> t.builds[id] == s.builds[id])
            && SameCall(s, t, (id, revision))
  {
  }

  /** A stretch of a handler of another build. */
  lemma ResumeElsewhere(policy: Policy, s: State, k: Text, r: nat, a: Answer, id: Text, revision: nat)
    requires k != id
    ensures var t := Resume(policy, s, k, r, a);
            && (id in t.builds <==> id in s.builds) && (id in s.builds ==> t.builds[id] == s.builds[id])
            && SameCall(s, t, (id, revision))
  {
    if k in s.builds && (k, r) in s.calls {
      PutElsewhere(s, k, s.calls[(k, r)], MoveAt(policy, s, k, r, a), id, revision);
    }
  }

  /** What a call of the design stages, an approval or an abandonment makes of the row of its build. */
  function OwnRow(e: Event, row: BuildRow): BuildRow {
    match e
    case DoDesignStage(_, stage) => row.(stage := stage)
    case DoDesignLimited(_, upstream) =>
      row.(status := if upstream then BuildPausedUpstreamLimit else BuildLimitReached)
    case DoDesignSaved(_, _) => row.(stage := SecurityReview)
    case DoDesignDone(_, buildable) =>
      if buildable then row.(stage := AtApproval, status := AwaitingApproval)
      else row.(stage := SecurityReview, status := BuildNeedsUserReview)
    case DoApprove(_, criticals, acknowledged) =>
      if row.stage == AtApproval && criticals <= acknowledged then row.(approved := true) else row
    case DoAbandon(_) => if row.status != Completed && row.status != Abandoned then row.(status := Abandoned) else row
    case _ => row
  }

  /** What an event that is neither a resumption nor a start makes of the row of a build. */
  function RowAfter(e: Event, id: Text, row: BuildRow): BuildRow {
    if e.DoRestart? || e.id != id then row else OwnRow(e, row)
  }

  lemma OwnDesign(policy: Policy, s: State, e: Event)
    requires Proper(s, e) && OfDesign(e) && e.id in s.builds
    ensures var t := Step(policy, s, e); e.id in t.builds && t.builds[e.id] == OwnRow(e, s.builds[e.id])
  {
  }

  lemma OtherDesign(policy: Policy, s: State, e: Event, id: Text)
    requires OfDesign(e) && e.id != id && id in s.builds
    ensures var t := Step(policy, s, e); id in t.builds && t.builds[id] == s.builds[id]
  {
  }

  lemma DesignCalls(policy: Policy, s: State, e: Event)
    requires OfDesign(e)
    ensures Step(policy, s, e).calls == s.calls
  {
  }

  lemma DesignOutside(policy: Policy, s: State, e: Event, id: Text, revision: nat)
    requires IsHandled(s, id, revision) && Proper(s, e) && OfDesign(e)
    ensures RowAndCall(Step(policy, s, e), id, revision, RowAfter(e, id, s.builds[id]), s.calls[(id, revision)])
  {
    if e.id == id {
      OwnDesign(policy, s, e);
    } else {
      OtherDesign(policy, s, e, id);
    }
    DesignCalls(policy, s, e);
  }

  predicate Starts(e: Event, id: Text) {
    e.DoStart? && e.id == id
  }

  /** Nothing else that happens touches a handler, but a restart. */
  lemma Outside(policy: Policy, s: State, e: Event, id: Text, revision: nat)
    requires IsHandled(s, id, revision) && Proper(s, e) && !e.DoResume? && !e.DoRestart? && !Starts(e, id)
    ensures RowAndCall(Step(policy, s, e), id, revision, RowAfter(e, id, s.builds[id]), s.calls[(id, revision)])
  {
    if OfDesign(e) { DesignOutside(policy, s, e, id, revision); }
  }

  predicate Resumes(e: Event, id: Text, revision: nat) {
    e.DoResume? && e.id == id && e.revision == revision
  }

  lemma {:induction false} AttemptsGrow(files: nat, few: nat, many: nat)
    requires few <= many
    ensures Attempts(files, few) <= Attempts(files, many)
  {
    if few < many { AttemptsGrow(files, few, many - 1); }
  }

  /** A row that others have touched has at least as many repairs behind it. */
  lemma RemainingFalls(policy: Policy, row: BuildRow, after: BuildRow, f: Frame)
    requires row.repairCycles <= after.repairCycles
    ensures Remaining(policy, after, f) <= Remaining(policy, row, f)
  {
    AttemptsGrow(|f.blueprint.design.files|, RepairsLeft(policy, after), RepairsLeft(policy, row));
  }

  /** Each resumption brings the end of the handler nearer. */
  lemma ResumeAdvances(policy: Policy, s: State, id: Text, revision: nat, a: Answer)
    requires BuildOk(policy, s, id) && (id, revision) in s.calls
    ensures var t := Resume(policy, s, id, revision, a);
            && id in t.builds
            && ((id, revision) in t.calls ==>
                  Remaining(policy, t.builds[id], t.calls[(id, revision)])
                  < Remaining(policy, s.builds[id], s.calls[(id, revision)]))
  {
    assert CallOk(policy, s, id, revision);
    MoveAdvances(policy, id, s.builds[id], s.calls[(id, revision)], a, PathsOf(s, id, revision),
                 |PassIds(s.simulations, id)|);
  }

  lemma MoveRepairs(policy: Policy, id: Text, row: BuildRow, f: Frame, a: Answer, paths: set<Text>, prior: nat)
    ensures row.repairCycles <= MoveOf(policy, id, row, f, a, paths, prior).row.repairCycles
  {
  }

  /** A stretch of another handler of the same build. */
  lemma OtherHandler(policy: Policy, s: State, id: Text, r: nat, a: Answer, revision: nat)
    requires BuildOk(policy, s, id) && (id, revision) in s.calls && r != revision
    ensures var t := Resume(policy, s, id, r, a);
            && id in t.builds && s.builds[id].repairCycles <= t.builds[id].repairCycles
            && SameCall(s, t, (id, revision))
  {
    if (id, r) in s.calls {
      assert CallOk(policy, s, id, r);
      MoveRepairs(policy, id, s.builds[id], s.calls[(id, r)], a, PathsOf(s, id, r), |PassIds(s.simulations, id)|);
    }
  }

  lemma StartBeside(policy: Policy, s: State, id: Text, revision: nat)
    requires BuildOk(policy, s, id) && (id, revision) in s.calls
    ensures var t := Start(s, id);
            && id in t.builds && s.builds[id].repairCycles <= t.builds[id].repairCycles
            && SameCall(s, t, (id, revision))
  {
    assert CallOk(policy, s, id, revision);
  }

  lemma AdvanceStep(policy: Policy, s: State, e: Event, id: Text, revision: nat)
    requires BuildOk(policy, s, id) && (id, revision) in s.calls && Proper(s, e)
    requires (id, revision) in Step(policy, s, e).calls
    ensures var t := Step(policy, s, e);
            && id in t.builds
            && (if Resumes(e, id, revision) then 1 else 0) + Remaining(policy, t.builds[id], t.calls[(id, revision)])
               <= Remaining(policy, s.builds[id], s.calls[(id, revision)])
  {
    var t := Step(policy, s, e);
    if Resumes(e, id, revision) {
      ResumeAdvances(policy, s, id, revision, e.answer);
    } else if !e.DoRestart? {
      if e.DoResume? && e.id == id {
        OtherHandler(policy, s, id, e.revision, e.answer, revision);
      } else if e.DoResume? {
        ResumeElsewhere(policy, s, e.id, e.revision, e.answer, id, revision);
      } else if Starts(e, id) {
        StartBeside(policy, s, id, revision);
      } else {
        Outside(policy, s, e, id, revision);
      }
      RemainingFalls(policy, s.builds[id], t.builds[id], s.calls[(id, revision)]);
    }
  }

  function ResumesOf(es: seq<Event>, id: Text, revision: nat): nat {
    if es == [] then 0
    else ResumesOf(es[..|es| - 1], id, revision) + (if Resumes(es[|es| - 1], id, revision) then 1 else 0)
  }

  predicate CallLasts(es: seq<Event>, ss: seq<State>, i: nat, j: nat, id: Text, revision: nat)
    requires |ss| == |es| + 1 && i <= j <= |es|
  {
    forall q | i <= q <= j :: (id, revision) in ss[q].calls
  }

  /** The repair loop ends, and with it the handler: between two moments of one run it has resumed at
      most as often as what remained has fallen, whatever else happens in between. */
  lemma {:induction false} HandlerEnds(policy: Policy, es: seq<Event>, ss: seq<State>, i: nat, j: nat, id: Text,
                                       revision: nat)
    requires IsRun(policy, es, ss) && i <= j <= |es| && CallLasts(es, ss, i, j, id, revision)
    ensures ResumesOf(es[i..j], id, revision)
            + RemainingAt(policy, ss[j], id, revision) <= RemainingAt(policy, ss[i], id, revision)
    decreases j - i
  {
    if i == j {
      assert es[i..j] == [];
    } else {
      var q := j - 1;
      HandlerEnds(policy, es, ss, i, q, id, revision);
      assert es[i..j][..|es[i..j]| - 1] == es[i..q] && es[i..j][|es[i..j]| - 1] == es[q];
      AdvanceAt(policy, es, ss, q, id, revision);
    }
  }

  function RemainingAt(policy: Policy, s: State, id: Text, revision: nat): nat {
    if IsHandled(s, id, revision) then Remaining(policy, s.builds[id], s.calls[(id, revision)]) else 0
  }

  lemma AdvanceAt(policy: Policy, es: seq<Event>, ss: seq<State>, q: nat, id: Text, revision: nat)
    requires IsRun(policy, es, ss) && q < |es| && (id, revision) in ss[q].calls && (id, revision) in ss[q + 1].calls
    ensures (if Resumes(es[q], id, revision) then 1 else 0) + RemainingAt(policy, ss[q + 1], id, revision)
         <= RemainingAt(policy, ss[q], id, revision)
  {
    CallInRun(policy, es, ss, q, id, revision);
    assert NextAt(policy, es, ss, q);
    AdvanceStep(policy, ss[q], es[q], id, revision);
  }

  // ----- how much of a pass is recorded -----

  function RecordedOf(policy: Policy, prior: nat, planned: nat): nat {
    if prior > policy.maxMandatoryPassesPerBuild then 0
    else if prior == policy.maxMandatoryPassesPerBuild && planned > 1 then 1
    else planned
  }

  /** While time does not run out: with earlier passes below the ceiling all scenarios are recorded; at
      the ceiling only the first; beyond it none. */
  lemma PassRecords(policy: Policy, prior: nat, planned: nat, inTime: nat -> bool)
    requires forall i: nat | i < planned :: inTime(i)
    ensures var recorded := StopAt(policy, prior, planned, inTime, 0);
            && recorded == RecordedOf(policy, prior, planned)
            && (recorded == planned <==>
                planned == 0 || prior < policy.maxMandatoryPassesPerBuild
                || (prior == policy.maxMandatoryPassesPerBuild && planned == 1))
  {
    var recorded := StopAt(policy, prior, planned, inTime, 0);
    if recorded > 1 { assert Admits(policy, prior, 1); }
    if recorded > 0 { assert Admits(policy, prior, 0); }
  }

  // ----- abandonment while a build runs -----

  /** Nothing but this handler writes the status of the build. */
  predicate Quiet(e: Event, id: Text, revision: nat) {
    match e
    case DoAbandon(k) => k != id
    case DoDesignLimited(k, _) => k != id
    case DoDesignDone(k, _) => k != id
    case DoStart(k) => k != id
    case DoResume(k, r, _) => k == id ==> r == revision
    case DoRestart => false
    case _ => true
  }

  /** The reviewer's call is refused by the quota, or limited upstream, and writes a status. */
  predicate HitsLimit(policy: Policy, f: Frame, a: Answer) {
    var d := f.blueprint.design;
    match f.at
    case GettingFixtures =>
      !a.threw && d.fault != AtScenarios && d.fault != AtScore && |d.planned| <= policy.maxMandatorySimulationsPerPass
      && a.overQuota
    case Reviewing(_) => a.upstream
    case _ => false
  }

  predicate HitsStep(policy: Policy, s: State, e: Event, id: Text, revision: nat) {
    Resumes(e, id, revision) && (id, revision) in s.calls && HitsLimit(policy, s.calls[(id, revision)], e.answer)
  }

  predicate LimitBetween(policy: Policy, es: seq<Event>, ss: seq<State>, k: nat, m: nat, id: Text, revision: nat)
    requires |ss| == |es| + 1 && m <= |es|
  {
    exists j :: k < j < m && HitsStep(policy, ss[j], es[j], id, revision)
  }

  /** What the status of an abandoned build is while its handler goes on. */
  predicate Tracked(ending: bool, limited: bool, row: BuildRow, f: Frame) {
    if ending then f.at.Destroying? && row.status == Abandoned
    else if f.at.Destroying? && f.at.outcome.Returned? then row.status != Abandoned
    else if limited then row.status == BuildLimitReached || row.status == BuildPausedUpstreamLimit
    else row.status == Abandoned
  }

  lemma QuietKeeps(policy: Policy, s: State, e: Event, id: Text, revision: nat)
    requires IsHandled(s, id, revision) && Proper(s, e) && Quiet(e, id, revision) && !Resumes(e, id, revision)
    ensures var t := Step(policy, s, e);
            IsHandled(t, id, revision) && SameCall(s, t, (id, revision)) && t.builds[id].status == s.builds[id].status
  {
    if e.DoResume? {
      ResumeElsewhere(policy, s, e.id, e.revision, e.answer, id, revision);
    } else {
      Outside(policy, s, e, id, revision);
    }
  }

  lemma TrackedMove(policy: Policy, id: Text, ending: bool, limited: bool, row: BuildRow, f: Frame, a: Answer,
                    paths: set<Text>, prior: nat)
    requires Tracked(ending, limited, row, f)
    ensures var m := MoveOf(policy, id, row, f, a, paths, prior);
            m.next.Some? ==> Tracked(ending, limited || HitsLimit(policy, f, a), m.row, m.next.value)
  {
    if f.at.GettingFixtures? || f.at.Reviewing? {
      TrackedReview(policy, id, ending, limited, row, f, a, paths, prior);
    }
  }

  lemma TrackedReview(policy: Policy, id: Text, ending: bool, limited: bool, row: BuildRow, f: Frame, a: Answer,
                      paths: set<Text>, prior: nat)
    requires Tracked(ending, limited, row, f) && (f.at.GettingFixtures? || f.at.Reviewing?)
    ensures var m := MoveOf(policy, id, row, f, a, paths, prior);
            m.next.Some? && Tracked(ending, limited || HitsLimit(policy, f, a), m.row, m.next.value)
  {
  }

  lemma TrackedEnd(policy: Policy, id: Text, ending: bool, limited: bool, row: BuildRow, f: Frame, a: Answer,
                   paths: set<Text>, prior: nat)
    requires Tracked(ending, limited, row, f)
    ensures var m := MoveOf(policy, id, row, f, a, paths, prior);
            m.next.None? ==> (m.row.status == Abandoned <==>
                              f.at.Destroying? && (ending || (f.at.outcome.Threw? && !limited)))
  {
  }

  ghost predicate TrackedAt(s: State, id: Text, revision: nat, ending: bool, limited: bool) {
    IsHandled(s, id, revision) && Tracked(ending, limited, s.builds[id], s.calls[(id, revision)])
  }

  lemma TrackedResume(policy: Policy, s: State, id: Text, revision: nat, a: Answer, ending: bool, limited: bool)
    requires BuildOk(policy, s, id) && TrackedAt(s, id, revision, ending, limited)
    ensures var t := Resume(policy, s, id, revision, a);
            (id, revision) in t.calls ==>
              TrackedAt(t, id, revision, ending, limited || HitsLimit(policy, s.calls[(id, revision)], a))
  {
    assert CallOk(policy, s, id, revision);
    TrackedMove(policy, id, ending, limited, s.builds[id], s.calls[(id, revision)], a, PathsOf(s, id, revision),
                |PassIds(s.simulations, id)|);
  }

  lemma TrackedStep(policy: Policy, s: State, e: Event, id: Text, revision: nat, ending: bool, limited: bool)
    requires BuildOk(policy, s, id) && TrackedAt(s, id, revision, ending, limited)
    requires Proper(s, e) && Quiet(e, id, revision) && (id, revision) in Step(policy, s, e).calls
    ensures TrackedAt(Step(policy, s, e), id, revision, ending, limited || HitsStep(policy, s, e, id, revision))
  {
    if Resumes(e, id, revision) {
      TrackedResume(policy, s, id, revision, e.answer, ending, limited);
    } else {
      QuietKeeps(policy, s, e, id, revision);
    }
  }

  /** The build is handled from `k` on, and nobody else writes its status after `k`. */
  predicate LeftAlone(es: seq<Event>, ss: seq<State>, k: nat, m: nat, id: Text, revision: nat)
    requires |ss| == |es| + 1 && m <= |es|
  {
    forall j | k < j < m :: Quiet(es[j], id, revision) && (id, revision) in ss[j + 1].calls
  }

  /** A handled build is abandoned at `k`. */
  predicate AbandonedAt(es: seq<Event>, ss: seq<State>, k: nat, id: Text, revision: nat)
    requires |ss| == |es| + 1 && k < |es|
  {
    es[k] == DoAbandon(id) && CanAbandon(ss[k], id) && (id, revision) in ss[k].calls
  }

  lemma {:induction false} AbandonmentTracked(policy: Policy, es: seq<Event>, ss: seq<State>, k: nat, m: nat,
                                              id: Text, revision: nat)
    requires IsRun(policy, es, ss) && k < m <= |es| && AbandonedAt(es, ss, k, id, revision)
    requires LeftAlone(es, ss, k, m, id, revision)
    ensures TrackedAt(ss[m], id, revision, ss[k].calls[(id, revision)].at.Destroying?,
                      LimitBetween(policy, es, ss, k, m, id, revision))
    decreases m
  {
    var q := m - 1;
    assert NextAt(policy, es, ss, q);
    if q > k {
      var ending := ss[k].calls[(id, revision)].at.Destroying?;
      AbandonmentTracked(policy, es, ss, k, q, id, revision);
      LimitGrows(policy, es, ss, k, q, id, revision);
      CallInRun(policy, es, ss, q, id, revision);
      TrackedStep(policy, ss[q], es[q], id, revision, ending, LimitBetween(policy, es, ss, k, q, id, revision));
    }
  }

  lemma LimitGrows(policy: Policy, es: seq<Event>, ss: seq<State>, k: nat, q: nat, id: Text, revision: nat)
    requires |ss| == |es| + 1 && k < q < |es|
    ensures LimitBetween(policy, es, ss, k, q + 1, id, revision) <==>
            LimitBetween(policy, es, ss, k, q, id, revision) || HitsStep(policy, ss[q], es[q], id, revision)
  {
    if LimitBetween(policy, es, ss, k, q, id, revision) {
      var j :| k < j < q && HitsStep(policy, ss[j], es[j], id, revision);
      assert k < j < q + 1;
    }
  }

  /** An abandonment that is accepted while a build runs survives exactly when it arrives while the sandbox
      is being destroyed, or when the handler then throws without its reviewer having hit a limit. When
      the handler returns, or its sandbox could not be created, its own status stands. */
  lemma AbandonmentSurvives(policy: Policy, es: seq<Event>, ss: seq<State>, k: nat, m: nat, id: Text, revision: nat)
    requires IsRun(policy, es, ss) && k < m < |es| && AbandonedAt(es, ss, k, id, revision)
    requires LeftAlone(es, ss, k, m, id, revision)
    requires Resumes(es[m], id, revision) && (id, revision) !in ss[m + 1].calls
    ensures (id, revision) in ss[m].calls && id in ss[m + 1].builds
    ensures var was, last := ss[k].calls[(id, revision)].at, ss[m].calls[(id, revision)].at;
            ss[m + 1].builds[id].status == Abandoned <==>
              last.Destroying?
              && (was.Destroying? || (last.outcome.Threw? && !LimitBetween(policy, es, ss, k, m, id, revision)))
  {
    AbandonmentTracked(policy, es, ss, k, m, id, revision);
    assert NextAt(policy, es, ss, m);
    CallInRun(policy, es, ss, m, id, revision);
    var s := ss[m];
    TrackedEnd(policy, id, ss[k].calls[(id, revision)].at.Destroying?, LimitBetween(policy, es, ss, k, m, id, revision),
               s.builds[id], s.calls[(id, revision)], es[m].answer, PathsOf(s, id, revision),
               |PassIds(s.simulations, id)|);
  }

  // --- one run in which it is lost, and one in which it survives ---

  const ID: Text := [98]
  const SMALL := Policy(3, 60, 10, 40, 20, 1800000)

  function OneScenario(fault: Fault): Design {
    Design([], true, [SimulationResult([], true)], false, fault)
  }

  /** Everything that is called out to succeeds. */
  function Fine(): Answer {
    Answer(false, 0, 1, 0, (i: nat) => 0, false, false)
  }

  /** A run that ends with the handler of `ID` waiting, with nothing simulated before its pass. */
  ghost predicate Waits(es: seq<Event>, ss: seq<State>, row: BuildRow, f: Frame) {
    IsRun(SMALL, es, ss) && Waiting(ss[|es|], row, f)
  }

  predicate Waiting(s: State, row: BuildRow, f: Frame) {
    && RowAndCall(s, ID, 1, row, f) && f.revision == 1 && ID in s.blueprints
    && (!f.at.Reviewing? && !f.at.Destroying? ==> s.simulations == [])
  }

  lemma Extend(es: seq<Event>, ss: seq<State>, e: Event) returns (es': seq<Event>, ss': seq<State>)
    requires IsRun(SMALL, es, ss) && Proper(ss[|es|], e)
    ensures es' == es + [e] && ss' == ss + [Step(SMALL, ss[|es|], e)] && IsRun(SMALL, es', ss')
  {
    es', ss' := es + [e], ss + [Step(SMALL, ss[|es|], e)];
    forall q ensures NextAt(SMALL, es', ss', q) {
      assert NextAt(SMALL, es, ss, q);
    }
  }

  /** A build is created, designed and approved. */
  lemma ApprovedEarly(design: Design) returns (es: seq<Event>, ss: seq<State>)
    ensures |es| == 4 && IsRun(SMALL, es, ss)
    ensures ss[4] == INIT.(builds := ss[4].builds, blueprints := ss[4].blueprints, saves := 1)
    ensures ID in ss[4].builds && ss[4].builds[ID] == BuildRow(AtApproval, AwaitingApproval, 0, 0, true)
    ensures ID in ss[4].blueprints && ss[4].blueprints[ID] == Blueprint(1, 0, design)
    ensures es[3] == DoApprove(ID, {}, {}) && CanApprove(ss[3], ID, {}, {}) && ss[3].blueprints == ss[4].blueprints
  {
    es, ss := [], [INIT];
    es, ss := Extend(es, ss, DoCreate(ID, None, true));
    es, ss := Extend(es, ss, DoDesignSaved(ID, design));
    es, ss := Extend(es, ss, DoDesignDone(ID, true));
    es, ss := Extend(es, ss, DoApprove(ID, {}, {}));
  }

  /** It is started, and abandoned. */
  lemma AbandonedEarly(design: Design) returns (es: seq<Event>, ss: seq<State>)
    ensures |es| == 6 && es[5] == DoAbandon(ID)
    ensures Waits(es, ss, BuildRow(Stage.Build, Abandoned, 1, 0, true), Frame(1, Blueprint(1, 0, design), 0, Creating))
    ensures CanAbandon(ss[5], ID) && (ID, 1) in ss[5].calls
  {
    es, ss := ApprovedEarly(design);
    es, ss := Extend(es, ss, DoStart(ID));
    es, ss := Extend(es, ss, DoAbandon(ID));
  }

  function MoveFrom(row: BuildRow, f: Frame): Move {
    MoveOf(SMALL, ID, row, f, Fine(), {}, 0)
  }

  lemma FineResume(s: State, row: BuildRow, f: Frame)
    requires Waiting(s, row, f) && f.blueprint.design.files == []
    ensures Resume(SMALL, s, ID, 1, Fine()) == Put(s, ID, f, MoveFrom(row, f))
  {
    assert MoveOf(SMALL, ID, row, f, Fine(), PathsOf(s, ID, f.revision), |PassIds(s.simulations, ID)|)
      == MoveFrom(row, f);
  }

  lemma FinePut(s: State, row: BuildRow, f: Frame)
    requires Waiting(s, row, f) && f.blueprint.design.files == []
    ensures var m, t := MoveFrom(row, f), Put(s, ID, f, MoveFrom(row, f));
            && ID in t.builds && t.builds[ID] == m.row
            && if m.next.Some? then Waiting(t, m.row, m.next.value) else (ID, 1) !in t.calls
  {
  }

  /** One call out is answered. */
  lemma Answered(es: seq<Event>, ss: seq<State>, row: BuildRow, f: Frame) returns (es': seq<Event>, ss': seq<State>)
    requires Waits(es, ss, row, f) && f.blueprint.design.files == []
    ensures |es'| == |es| + 1 && |ss'| == |ss| + 1 && es' == es + [DoResume(ID, 1, Fine())] && ss <= ss'
    ensures IsRun(SMALL, es', ss') && ID in ss'[|es'|].builds && ss'[|es'|].builds[ID] == MoveFrom(row, f).row
    ensures ss'[|es'|] == Put(ss[|es|], ID, f, MoveFrom(row, f))
    ensures var m := MoveFrom(row, f);
            if m.next.Some? then Waits(es', ss', m.row, m.next.value) else (ID, 1) !in ss'[|es'|].calls
  {
    var s := ss[|es|];
    FineResume(s, row, f);
    FinePut(s, row, f);
    es', ss' := Extend(es, ss, DoResume(ID, 1, Fine()));
  }

  /** Rendering throws: the abandonment stands. */
  lemma AbandonmentKept() returns (es: seq<Event>, ss: seq<State>)
    ensures |es| == 8 && IsRun(SMALL, es, ss)
    ensures AbandonedAt(es, ss, 5, ID, 1)
    ensures (ID, 1) !in ss[8].calls && ID in ss[8].builds && ss[8].builds[ID].status == Abandoned
  {
    es, ss := AbandonedEarly(OneScenario(AtRender));
    var row, f := ss[6].builds[ID], ss[6].calls[(ID, 1)];
    es, ss := Answered(es, ss, row, f);
    es, ss := Answered(es, ss, row, f.(at := Destroying(Threw)));
  }

  /** The suite compiles and passes. */
  lemma SuiteSucceeds(es: seq<Event>, ss: seq<State>, row: BuildRow, f: Frame)
    returns (es': seq<Event>, ss': seq<State>)
    requires Waits(es, ss, row, f) && f.at == Linking && f.blueprint.design == OneScenario(Nowhere)
    ensures |es'| == |es| + 3 && es <= es' && ss <= ss'
    ensures Waits(es', ss', row.(stage := Simulate), f.(at := GettingFixtures))
  {
    es', ss' := Answered(es, ss, row, f);
    es', ss' := Answered(es', ss', row.(stage := Test), f.(at := Compiling));
    es', ss' := Answered(es', ss', row.(stage := Test), f.(at := Testing));
  }

  lemma PassSucceeds(row: BuildRow, f: Frame)
    requires f.at == GettingFixtures && f.blueprint.design == OneScenario(Nowhere) && f.startedAt == 0
    ensures MoveFrom(row, f).row == row.(stage := FinalVerify) && MoveFrom(row, f).next == Some(f.(at := Reviewing(1)))
  {
    assert StopAt(SMALL, 0, 1, InTime(SMALL, f.startedAt, Fine().clock), 1) == 1;
  }

  lemma GateSucceeds(es: seq<Event>, ss: seq<State>, row: BuildRow, f: Frame) returns (es': seq<Event>, ss': seq<State>)
    requires Waits(es, ss, row, f) && f.at == GettingFixtures && f.blueprint.design == OneScenario(Nowhere)
    requires f.startedAt == 0
    ensures |es'| == |es| + 3 && es <= es' && ss <= ss' && IsRun(SMALL, es', ss')
    ensures (ID, 1) !in ss'[|es'|].calls && ID in ss'[|es'|].builds
    ensures ss'[|es'|].builds[ID].status == Completed && ss'[|es'|].builds[ID].buildRevision == row.buildRevision
  {
    PassSucceeds(row, f);
    es', ss' := Answered(es, ss, row, f);
    es', ss' := Answered(es', ss', row.(stage := FinalVerify), f.(at := Reviewing(1)));
    es', ss' := Answered(es', ss', row.(stage := ExportReady, status := Completed),
                         f.(at := Destroying(Returned(true))));
  }

  /** From its start to its end. */
  lemma Succeeds(es: seq<Event>, ss: seq<State>, row: BuildRow, f: Frame) returns (es': seq<Event>, ss': seq<State>)
    requires Waits(es, ss, row, f) && f.at == Creating && f.blueprint.design == OneScenario(Nowhere) && f.startedAt == 0
    ensures |es'| == |es| + 7 && es <= es' && ss <= ss' && IsRun(SMALL, es', ss')
    ensures (ID, 1) !in ss'[|es'|].calls && ID in ss'[|es'|].builds
    ensures ss'[|es'|].builds[ID].status == Completed && ss'[|es'|].builds[ID].buildRevision == row.buildRevision
  {
    es', ss' := Answered(es, ss, row, f);
    es', ss' := SuiteSucceeds(es', ss', row, f.(at := Linking));
    es', ss' := GateSucceeds(es', ss', row.(stage := Simulate), f.(at := GettingFixtures));
  }

  /** Everything succeeds: a build that was abandoned ends COMPLETED. */
  lemma AbandonmentLost() returns (es: seq<Event>, ss: seq<State>)
    ensures |es| == 13 && IsRun(SMALL, es, ss)
    ensures AbandonedAt(es, ss, 5, ID, 1)
    ensures (ID, 1) !in ss[13].calls && ID in ss[13].builds && ss[13].builds[ID].status == Completed
  {
    es, ss := AbandonedEarly(OneScenario(Nowhere));
    es, ss := Succeeds(es, ss, ss[6].builds[ID], ss[6].calls[(ID, 1)]);
  }

  // --- two handlers of one build ---

  /** A run in which the handler of revision 1 waits for its reviewer. */
  lemma UpToReview() returns (es: seq<Event>, ss: seq<State>, row: BuildRow, f: Frame)
    ensures Waits(es, ss, row, f) && f.at == Reviewing(1) && f.blueprint.design == OneScenario(Nowhere)
    ensures row.approved && row.buildRevision == 1
  {
    es, ss := ApprovedEarly(OneScenario(Nowhere));
    es, ss := Extend(es, ss, DoStart(ID));
    row, f := BuildRow(Stage.Build, Running, 1, 0, true), Frame(1, Blueprint(1, 0, OneScenario(Nowhere)), 0, Creating);
    es, ss := Answered(es, ss, row, f);
    es, ss := SuiteSucceeds(es, ss, row, f.(at := Linking));
    row, f := row.(stage := Simulate), f.(at := GettingFixtures);
    PassSucceeds(row, f);
    es, ss := Answered(es, ss, row, f);
    row, f := row.(stage := FinalVerify), f.(at := Reviewing(1));
  }

  /** A second `runBuild` is made meanwhile. */
  lemma StartAgain(es: seq<Event>, ss: seq<State>, row: BuildRow, f: Frame)
    returns (es': seq<Event>, ss': seq<State>, after: BuildRow)
    requires Waits(es, ss, row, f) && row.approved && row.buildRevision == 1 && f.at == Reviewing(1)
    ensures Waits(es', ss', after, f) && after.buildRevision == 2 && (ID, 2) in ss'[|es'|].built
    ensures EvidenceOf(ss'[|es'|], ID, 2) == Evidence({}, [], [])
  {
    InvRun(SMALL, es, ss, |es|);
    NothingOf(ss[|es|], ID, 2);
    es', ss' := Extend(es, ss, DoStart(ID));
    after := row.(buildRevision := 2, status := Running, stage := Stage.Build);
  }

  /** A second `runBuild` before the first has ended: the first completes the build under the revision of the
      second, which has earned nothing. */
  lemma SecondBuildMisleads() returns (es: seq<Event>, ss: seq<State>)
    ensures IsRun(SMALL, es, ss) && ID in ss[|es|].builds && (ID, 2) in ss[|es|].built
    ensures ss[|es|].builds[ID].status == Completed && ss[|es|].builds[ID].buildRevision == 2
    ensures !Earned(SMALL, ss[|es|].built[(ID, 2)].design, ID, 2, EvidenceOf(ss[|es|], ID, 2))
  {
    var row, f;
    es, ss, row, f := UpToReview();
    es, ss, row := StartAgain(es, ss, row, f);
    PutEvidence(ss[|es|], ID, f, MoveFrom(row, f), ID, 2);
    es, ss := Answered(es, ss, row, f);
  }

  // ----- which revision a COMPLETED row names -----

  /** The handler of the revision has come to return ok. */
  ghost predicate HasReturnedOk(ss: seq<State>, q: nat, id: Text, r: nat)
    requires q < |ss|
  {
    exists p :: 0 <= p <= q && ReturnedOk(ss[p], id, r)
  }

  lemma CompletionResume(policy: Policy, s: State, k: Text, r: nat, a: Answer, id: Text)
    requires Inv(policy, s)
    ensures var t := Resume(policy, s, k, r, a);
            || SameCompletion(s, t, id)
            || (id in t.completedAt && ReturnedOk(t, id, t.completedAt[id])
                && (id in s.completedAt ==> s.completedAt[id] < t.completedAt[id]))
  {
    if (k, r) in s.calls && k in s.builds {
      assert BuildOk(policy, s, k) && CallOk(policy, s, k, r);
    }
  }

  lemma CompletionStep(policy: Policy, s: State, e: Event, id: Text)
    requires Inv(policy, s)
    ensures var t := Step(policy, s, e);
            || SameCompletion(s, t, id)
            || (id in t.completedAt && ReturnedOk(t, id, t.completedAt[id])
                && (id in s.completedAt ==> s.completedAt[id] < t.completedAt[id]))
  {
    if e.DoResume? {
      CompletionResume(policy, s, e.id, e.revision, e.answer, id);
    } else {
      CompletionOutside(policy, s, e);
    }
  }

  lemma CompletionOutside(policy: Policy, s: State, e: Event)
    requires !e.DoResume?
    ensures Step(policy, s, e).completedAt == s.completedAt
  {
  }

  /** What is kept of completions: the latest revision that has come to return ok. */
  lemma {:induction false} LatestOk(policy: Policy, es: seq<Event>, ss: seq<State>, q: nat, id: Text)
    requires IsRun(policy, es, ss) && q <= |es|
    ensures id in ss[q].completedAt ==> HasReturnedOk(ss, q, id, ss[q].completedAt[id])
    ensures forall r: nat | HasReturnedOk(ss, q, id, r) :: id in ss[q].completedAt && r <= ss[q].completedAt[id]
    decreases q
  {
    forall r: nat | ReturnedOk(ss[q], id, r) ensures id in ss[q].completedAt && r <= ss[q].completedAt[id] {
      CallInRun(policy, es, ss, q, id, r);
    }
    if q > 0 {
      LatestOk(policy, es, ss, q - 1, id);
      InvRun(policy, es, ss, q - 1);
      assert NextAt(policy, es, ss, q - 1);
      CompletionStep(policy, ss[q - 1], es[q - 1], id);
      OkGrows(ss, q, id);
    }
  }

  lemma OkGrows(ss: seq<State>, q: nat, id: Text)
    requires 0 < q < |ss|
    ensures forall r: nat ::
              HasReturnedOk(ss, q, id, r) <==> HasReturnedOk(ss, q - 1, id, r) || ReturnedOk(ss[q], id, r)
  {
    forall r: nat ensures HasReturnedOk(ss, q, id, r) <==> HasReturnedOk(ss, q - 1, id, r) || ReturnedOk(ss[q], id, r) {
      if HasReturnedOk(ss, q - 1, id, r) {
        var p :| 0 <= p <= q - 1 && ReturnedOk(ss[p], id, r);
        assert 0 <= p <= q;
      }
    }
  }

  /** Let `r` be the latest revision of a completed build whose handler came to return ok, and `j` its start. The
      handler of the revision that the row names has come to return ok, and so earned the status, exactly when
      no start of the build was accepted after `j`. */
  lemma RowRevisionExactly(policy: Policy, es: seq<Event>, ss: seq<State>, q: nat, id: Text) returns (j: nat, r: nat)
    requires IsRun(policy, es, ss) && q <= |es| && id in ss[q].builds && ss[q].builds[id].status == Completed
    ensures j < q && StartsRevision(es, ss, j, id, r)
    ensures HasReturnedOk(ss, q, id, r) && forall k: nat | HasReturnedOk(ss, q, id, k) :: k <= r
    ensures HasReturnedOk(ss, q, id, ss[q].builds[id].buildRevision) <==> !StartedBetween(es, ss, j + 1, q, id)
  {
    j := CompletedIsEarned(policy, es, ss, q, id);
    r := ss[q].completedAt[id];
    LatestOk(policy, es, ss, q, id);
  }

  // --- the last start found no handler ---

  /** Only the last revision has a handler, and it is the one that completes the build. */
  ghost predicate Sole(s: State, id: Text, revision: nat) {
    && RevisionOf(s, id) == revision && (forall r: nat | (id, r) in s.calls :: r == revision)
    && (id in s.builds && s.builds[id].status == Completed ==> id in s.completedAt && s.completedAt[id] == revision)
  }

  /** Nothing but a handler makes a build COMPLETED. */
  lemma OutsideStatus(policy: Policy, s: State, e: Event, id: Text)
    requires Proper(s, e) && !e.DoResume? && !Accepts(s, e, id)
    ensures var t := Step(policy, s, e);
            && (id in t.builds && t.builds[id].status == Completed
                ==> id in s.builds && s.builds[id].status == Completed)
            && (forall r: nat | (id, r) in t.calls :: (id, r) in s.calls)
  {
  }

  lemma SoleResume(policy: Policy, s: State, id: Text, revision: nat, r: nat, a: Answer)
    requires Inv(policy, s) && Sole(s, id, revision)
    ensures Sole(Resume(policy, s, id, r, a), id, revision)
  {
    ResumeRevision(policy, s, id, r, a, id);
    if (id, r) in s.calls && id in s.builds {
      assert BuildOk(policy, s, id) && CallOk(policy, s, id, r);
      MoveKeeps(policy, id, s.builds[id], s.calls[(id, r)], EvidenceOf(s, id, r), a, |PassIds(s.simulations, id)|);
    }
  }

  lemma SoleElsewhere(policy: Policy, s: State, id: Text, revision: nat, k: Text, r: nat, a: Answer)
    requires Inv(policy, s) && Sole(s, id, revision) && k != id
    ensures Sole(Resume(policy, s, k, r, a), id, revision)
  {
    ResumeRevision(policy, s, k, r, a, id);
    forall n: nat ensures SameCall(s, Resume(policy, s, k, r, a), (id, n)) {
      ResumeElsewhere(policy, s, k, r, a, id, n);
    }
    ResumeElsewhere(policy, s, k, r, a, id, 0);
  }

  lemma SoleStep(policy: Policy, s: State, e: Event, id: Text, revision: nat)
    requires Inv(policy, s) && Proper(s, e) && Sole(s, id, revision) && !Accepts(s, e, id)
    ensures Sole(Step(policy, s, e), id, revision)
  {
    if e.DoResume? && e.id == id {
      SoleResume(policy, s, id, revision, e.revision, e.answer);
    } else if e.DoResume? {
      SoleElsewhere(policy, s, id, revision, e.id, e.revision, e.answer);
    } else {
      StepRevision(policy, s, e, id);
      OutsideStatus(policy, s, e, id);
      CompletionOutside(policy, s, e);
    }
  }

  predicate NoHandler(s: State, id: Text) {
    forall k | k in s.calls :: k.0 != id
  }

  lemma SoleAtStart(policy: Policy, s: State, id: Text)
    requires Known(s) && StartReplyOf(s, id).Started? && NoHandler(s, id)
    ensures Sole(Start(s, id), id, s.builds[id].buildRevision + 1)
  {
    forall r: nat ensures (id, r) !in s.calls {
      assert (id, r).0 == id;
    }
  }

  lemma {:induction false} SoleSince(policy: Policy, es: seq<Event>, ss: seq<State>, i: nat, q: nat, id: Text, r: nat)
    requires IsRun(policy, es, ss) && i < q <= |es| && StartsRevision(es, ss, i, id, r)
    requires NoHandler(ss[i], id) && !StartedBetween(es, ss, i + 1, q, id)
    ensures Sole(ss[q], id, r)
    decreases q
  {
    InvRun(policy, es, ss, q - 1);
    assert NextAt(policy, es, ss, q - 1);
    if q == i + 1 {
      SoleAtStart(policy, ss[i], id);
    } else {
      StartedGrows(es, ss, i + 1, q - 1, id);
      SoleSince(policy, es, ss, i, q - 1, id, r);
      SoleStep(policy, ss[q - 1], es[q - 1], id, r);
    }
  }

  /** So it is while the last start of the build found no handler of it, whatever overlapped before. */
  lemma AloneNamesItsRevision(policy: Policy, es: seq<Event>, ss: seq<State>, i: nat, q: nat, id: Text)
    requires IsRun(policy, es, ss) && i < q <= |es| && id in ss[q].builds && ss[q].builds[id].status == Completed
    requires StartsRevision(es, ss, i, id, ss[q].builds[id].buildRevision) && NoHandler(ss[i], id)
    ensures HasReturnedOk(ss, q, id, ss[q].builds[id].buildRevision)
  {
    RevisionAfter(policy, es, ss, i, q, id, ss[q].builds[id].buildRevision);
    SoleSince(policy, es, ss, i, q, id, ss[q].builds[id].buildRevision);
    LatestOk(policy, es, ss, q, id);
  }

  // ----- a build that returned ok -----

  /** No call of the design stages about the build, no other handler of it, no restart. An abandonment may
      come: it is refused. */
  predicate NoRedesign(e: Event, id: Text, revision: nat) {
    match e
    case DoDesignLimited(k, _) => k != id
    case DoDesignDone(k, _) => k != id
    case DoStart(k) => k != id
    case DoResume(k, r, _) => k == id ==> r == revision
    case DoRestart => false
    case _ => true
  }

  predicate ReturnedOk(s: State, id: Text, revision: nat) {
    (id, revision) in s.calls && s.calls[(id, revision)].at == Destroying(Returned(true))
  }

  lemma CompletedKept(policy: Policy, s: State, e: Event, id: Text, revision: nat)
    requires BuildOk(policy, s, id) && s.builds[id].status == Completed && Proper(s, e) && NoRedesign(e, id, revision)
    requires ReturnedOk(s, id, revision)
    ensures var t := Step(policy, s, e);
            && id in t.builds && t.builds[id].status == Completed
            && ((id, revision) in t.calls ==> ReturnedOk(t, id, revision))
  {
    if Resumes(e, id, revision) {
      assert CallOk(policy, s, id, revision);
    } else if e.DoResume? {
      ResumeElsewhere(policy, s, e.id, e.revision, e.answer, id, revision);
    } else {
      Outside(policy, s, e, id, revision);
    }
  }

  /** A handler that comes to return ok has just completed its build, which is then ready for export. */
  lemma OkCompletes(policy: Policy, s: State, id: Text, revision: nat, a: Answer)
    requires BuildOk(policy, s, id) && (id, revision) in s.calls && !s.calls[(id, revision)].at.Destroying?
    requires ReturnedOk(Resume(policy, s, id, revision, a), id, revision)
    ensures var t := Resume(policy, s, id, revision, a);
            id in t.builds && t.builds[id].status == Completed && t.builds[id].stage == ExportReady
  {
    assert CallOk(policy, s, id, revision);
    OkMove(policy, id, s.builds[id], s.calls[(id, revision)], a, PathsOf(s, id, revision),
           |PassIds(s.simulations, id)|);
  }

  lemma OkMove(policy: Policy, id: Text, row: BuildRow, f: Frame, a: Answer, paths: set<Text>, prior: nat)
    requires !f.at.Destroying?
    ensures var m := MoveOf(policy, id, row, f, a, paths, prior);
            m.next.Some? && m.next.value.at == Destroying(Returned(true)) ==>
              m.row.status == Completed && m.row.stage == ExportReady
  {
  }

  /** So it is COMPLETED when its sandbox is gone, whoever tried to abandon it meanwhile. */
  lemma {:induction false} OkStaysCompleted(policy: Policy, es: seq<Event>, ss: seq<State>, k: nat, m: nat, id: Text,
                                            revision: nat)
    requires IsRun(policy, es, ss) && k <= m < |es|
    requires id in ss[k].builds && ss[k].builds[id].status == Completed && ReturnedOk(ss[k], id, revision)
    requires forall j | k <= j <= m :: NoRedesign(es[j], id, revision) && (id, revision) in ss[j].calls
    ensures id in ss[m + 1].builds && ss[m + 1].builds[id].status == Completed
    ensures (id, revision) in ss[m + 1].calls ==> ReturnedOk(ss[m + 1], id, revision)
    decreases m
  {
    if m > k {
      OkStaysCompleted(policy, es, ss, k, m - 1, id, revision);
    }
    CompletedNext(policy, es, ss, m, id, revision);
  }

  lemma CompletedNext(policy: Policy, es: seq<Event>, ss: seq<State>, m: nat, id: Text, revision: nat)
    requires IsRun(policy, es, ss) && m < |es| && NoRedesign(es[m], id, revision)
    requires id in ss[m].builds && ss[m].builds[id].status == Completed && ReturnedOk(ss[m], id, revision)
    ensures id in ss[m + 1].builds && ss[m + 1].builds[id].status == Completed
    ensures (id, revision) in ss[m + 1].calls ==> ReturnedOk(ss[m + 1], id, revision)
  {
    CallInRun(policy, es, ss, m, id, revision);
    assert NextAt(policy, es, ss, m);
    CompletedKept(policy, ss[m], es[m], id, revision);
  }

  lemma OkInRun(policy: Policy, es: seq<Event>, ss: seq<State>, k: nat, id: Text, revision: nat)
    requires IsRun(policy, es, ss) && k < |es| && Resumes(es[k], id, revision)
    requires (id, revision) in ss[k].calls && !ss[k].calls[(id, revision)].at.Destroying?
    requires ReturnedOk(ss[k + 1], id, revision)
    ensures id in ss[k + 1].builds
    ensures ss[k + 1].builds[id].status == Completed && ss[k + 1].builds[id].stage == ExportReady
  {
    CallInRun(policy, es, ss, k, id, revision);
    assert NextAt(policy, es, ss, k);
    OkCompletes(policy, ss[k], id, revision, es[k].answer);
  }

  /** A handler that comes to return ok makes its build COMPLETED, ready for export, and COMPLETED it is when the
      handler is over. */
  lemma OkEndsCompleted(policy: Policy, es: seq<Event>, ss: seq<State>, k: nat, m: nat, id: Text, revision: nat)
    requires IsRun(policy, es, ss) && k <= m < |es| && Resumes(es[k], id, revision)
    requires (id, revision) in ss[k].calls && !ss[k].calls[(id, revision)].at.Destroying?
    requires ReturnedOk(ss[k + 1], id, revision)
    requires forall j | k < j <= m :: NoRedesign(es[j], id, revision) && (id, revision) in ss[j].calls
    ensures id in ss[k + 1].builds && ss[k + 1].builds[id].stage == ExportReady
    ensures id in ss[m + 1].builds && ss[m + 1].builds[id].status == Completed
    ensures (id, revision) in ss[m + 1].calls ==> ReturnedOk(ss[m + 1], id, revision)
  {
    OkInRun(policy, es, ss, k, id, revision);
    if k < m {
      OkStaysCompleted(policy, es, ss, k + 1, m, id, revision);
    }
  }

  // ----- the completed Blueprint and the approved one -----

  /** The event saves a new current Blueprint. */
  predicate SavesCurrent(s: State, e: Event, id: Text) {
    match e
    case DoEdit(k, _) => k == id && id in s.blueprints
    case DoDesignSaved(k, _) => k == id && id in s.builds && (id in s.blueprints ==> s.blueprints[id].revision <= 1)
    case _ => false
  }

  ghost predicate SavedBetween(es: seq<Event>, ss: seq<State>, i: nat, j: nat, id: Text)
    requires |ss| == |es| + 1 && j <= |es|
  {
    exists q :: i <= q < j && SavesCurrent(ss[q], es[q], id)
  }

  predicate SerialsOk(s: State) {
    forall k | k in s.blueprints :: s.blueprints[k].serial < s.saves
  }

  lemma SaveIs(s: State, id: Text, revision: nat, design: Design, k: Text)
    requires SerialsOk(s)
    ensures var t := Save(s, id, revision, design);
            && SerialsOk(t) && t.saves == s.saves + 1
            && (k == id && (id in s.blueprints ==> s.blueprints[id].revision <= revision) ==>
                  id in t.blueprints && t.blueprints[id].serial == s.saves)
            && (k != id || (id in s.blueprints && s.blueprints[id].revision > revision) ==>
                  (k in s.blueprints ==> k in t.blueprints && t.blueprints[k] == s.blueprints[k]))
  {
  }

  lemma EditSaves(policy: Policy, s: State, e: Event, id: Text)
    requires SerialsOk(s) && e.DoEdit?
    ensures var t := Step(policy, s, e);
            && SerialsOk(t) && s.saves <= t.saves
            && (SavesCurrent(s, e, id) ==> id in t.blueprints && t.blueprints[id].serial >= s.saves)
            && (!SavesCurrent(s, e, id) && id in s.blueprints
                ==> id in t.blueprints && t.blueprints[id] == s.blueprints[id])
  {
    if e.id in s.blueprints { SaveIs(s, e.id, s.blueprints[e.id].revision + 1, e.design, id); }
  }

  lemma SaveStep(policy: Policy, s: State, e: Event, id: Text)
    requires SerialsOk(s)
    ensures var t := Step(policy, s, e);
            && SerialsOk(t) && s.saves <= t.saves
            && (SavesCurrent(s, e, id) ==> id in t.blueprints && t.blueprints[id].serial >= s.saves)
            && (!SavesCurrent(s, e, id) && id in s.blueprints
                ==> id in t.blueprints && t.blueprints[id] == s.blueprints[id])
  {
    if e.DoEdit? {
      EditSaves(policy, s, e, id);
    } else if e.DoDesignSaved? {
      if e.id in s.builds { SaveIs(s, e.id, 1, e.design, id); }
    } else {
      NotSaving(policy, s, e);
    }
  }

  lemma NotSaving(policy: Policy, s: State, e: Event)
    requires !e.DoEdit? && !e.DoDesignSaved?
    ensures var t := Step(policy, s, e); t.blueprints == s.blueprints && t.saves == s.saves
  {
    if e.DoResume? { ResumeSaves(policy, s, e.id, e.revision, e.answer); }
  }

  lemma ResumeSaves(policy: Policy, s: State, k: Text, r: nat, a: Answer)
    ensures var t := Resume(policy, s, k, r, a);
            t.blueprints == s.blueprints && t.saves == s.saves && t.built == s.built
  {
  }

  lemma {:induction false} SerialsRun(policy: Policy, es: seq<Event>, ss: seq<State>, q: nat)
    requires IsRun(policy, es, ss) && q <= |es|
    ensures SerialsOk(ss[q])
  {
    if q > 0 {
      SerialsRun(policy, es, ss, q - 1);
      assert NextAt(policy, es, ss, q - 1);
      SaveStep(policy, ss[q - 1], es[q - 1], []);
    }
  }

  lemma {:induction false} CurrentKept(policy: Policy, es: seq<Event>, ss: seq<State>, i: nat, j: nat, id: Text)
    requires IsRun(policy, es, ss) && i <= j <= |es| && id in ss[i].blueprints
    ensures var s, t := ss[i], ss[j];
            && id in t.blueprints && s.saves <= t.saves
            && (SavedBetween(es, ss, i, j, id) ==> t.blueprints[id].serial >= s.saves)
            && (!SavedBetween(es, ss, i, j, id) ==> t.blueprints[id] == s.blueprints[id])
    decreases j
  {
    if i < j {
      var q := j - 1;
      CurrentKept(policy, es, ss, i, q, id);
      SerialsRun(policy, es, ss, q);
      assert NextAt(policy, es, ss, q);
      SaveStep(policy, ss[q], es[q], id);
      SavedGrows(es, ss, i, q, id);
    }
  }

  lemma SavedGrows(es: seq<Event>, ss: seq<State>, i: nat, q: nat, id: Text)
    requires |ss| == |es| + 1 && i <= q < |es|
    ensures SavedBetween(es, ss, i, q + 1, id) <==>
            SavedBetween(es, ss, i, q, id) || SavesCurrent(ss[q], es[q], id)
  {
    if SavedBetween(es, ss, i, q, id) {
      var p :| i <= p < q && SavesCurrent(ss[p], es[p], id);
      assert i <= p < q + 1;
    }
  }

  lemma BuiltKept(policy: Policy, s: State, e: Event, k: (Text, nat))
    requires Known(s) && k in s.built
    ensures k in Step(policy, s, e).built && Step(policy, s, e).built[k] == s.built[k]
  {
    match e {
      case DoResume(id, r, a) => ResumeSaves(policy, s, id, r, a);
      case _ =>
    }
  }

  lemma BuiltNext(policy: Policy, es: seq<Event>, ss: seq<State>, q: nat, k: (Text, nat))
    requires IsRun(policy, es, ss) && q < |es| && k in ss[q].built
    ensures k in ss[q + 1].built && ss[q + 1].built[k] == ss[q].built[k]
  {
    InvRun(policy, es, ss, q);
    assert NextAt(policy, es, ss, q);
    BuiltKept(policy, ss[q], es[q], k);
  }

  lemma {:induction false} BuiltLasts(policy: Policy, es: seq<Event>, ss: seq<State>, j: nat, m: nat, k: (Text, nat))
    requires IsRun(policy, es, ss) && j <= m <= |es| && k in ss[j].built
    ensures k in ss[m].built && ss[m].built[k] == ss[j].built[k]
    decreases m
  {
    if j < m {
      BuiltLasts(policy, es, ss, j, m - 1, k);
      BuiltNext(policy, es, ss, m - 1, k);
    }
  }

  lemma StartBuilds(policy: Policy, es: seq<Event>, ss: seq<State>, j: nat, id: Text)
    requires IsRun(policy, es, ss) && j < |es| && es[j] == DoStart(id) && StartReplyOf(ss[j], id).Started?
    ensures var s, t := ss[j], ss[j + 1];
            var k := (id, s.builds[id].buildRevision + 1);
            k in t.built && t.built[k] == s.blueprints[id]
  {
    assert NextAt(policy, es, ss, j);
  }

  /** The saved Blueprint that a start builds, and a completed build is of, is what was current at an earlier moment
      exactly when nothing saved a new current Blueprint between that moment and the start. */
  lemma CompletedBlueprintWasCurrent(policy: Policy, es: seq<Event>, ss: seq<State>, i: nat, j: nat, m: nat, id: Text)
    requires IsRun(policy, es, ss) && i <= j < m <= |es| && id in ss[i].blueprints
    requires CompletedFrom(es, ss, j, m, id)
    ensures var k := (id, ss[m].completedAt[id]);
            k in ss[m].built && (ss[m].built[k] == ss[i].blueprints[id] <==> !SavedBetween(es, ss, i, j, id))
  {
    CurrentKept(policy, es, ss, i, j, id);
    SerialsRun(policy, es, ss, i);
    StartBuilds(policy, es, ss, j, id);
    BuiltLasts(policy, es, ss, j + 1, m, (id, ss[m].completedAt[id]));
  }

  /** At `m` the build is completed, by the revision that the event at `j` started. */
  predicate CompletedFrom(es: seq<Event>, ss: seq<State>, j: nat, m: nat, id: Text)
    requires |ss| == |es| + 1 && j < m <= |es|
  {
    && id in ss[m].builds && ss[m].builds[id].status == Completed
    && id in ss[m].completedAt && StartsRevision(es, ss, j, id, ss[m].completedAt[id])
  }

  /** An edit leaves the approval in place. The saved Blueprint of a completed build is the one that its person
      approved exactly when nothing saved a new current one between the approval and the start. */
  lemma CompletedBlueprintIsApproved(policy: Policy, es: seq<Event>, ss: seq<State>, i: nat, j: nat, m: nat, id: Text)
    requires IsRun(policy, es, ss) && i < j < m <= |es| && id in ss[i].blueprints
    requires es[i].DoApprove? && es[i].id == id && CanApprove(ss[i], id, es[i].criticals, es[i].acknowledged)
    requires CompletedFrom(es, ss, j, m, id)
    ensures id in ss[i + 1].builds && ss[i + 1].builds[id].approved
    ensures var k := (id, ss[m].completedAt[id]);
            && k in ss[m].built && Earned(policy, ss[m].built[k].design, id, k.1, EvidenceOf(ss[m], id, k.1))
            && (ss[m].built[k] == ss[i].blueprints[id] <==> !SavedBetween(es, ss, i, j, id))
  {
    assert NextAt(policy, es, ss, i);
    CompletedBlueprintWasCurrent(policy, es, ss, i, j, m, id);
    var _ := CompletedIsEarned(policy, es, ss, m, id);
  }

  /** A Blueprint is approved, another is saved over it, and the build is started. */
  lemma EditedAndStarted() returns (es: seq<Event>, ss: seq<State>)
    ensures |es| == 6 && es[3] == DoApprove(ID, {}, {}) && es[5] == DoStart(ID)
    ensures Waits(es, ss, BuildRow(Stage.Build, Running, 1, 0, true),
                  Frame(1, Blueprint(2, 1, OneScenario(Nowhere)), 0, Creating))
    ensures CanApprove(ss[3], ID, {}, {}) && ID in ss[3].blueprints
            && ss[3].blueprints[ID].design == OneScenario(AtRender)
    ensures StartsRevision(es, ss, 5, ID, 1) && SavedBetween(es, ss, 3, 5, ID)
    ensures ID in ss[5].blueprints && ss[5].blueprints[ID].design == OneScenario(Nowhere)
  {
    es, ss := ApprovedEarly(OneScenario(AtRender));
    es, ss := Extend(es, ss, DoEdit(ID, OneScenario(Nowhere)));
    es, ss := Extend(es, ss, DoStart(ID));
    assert SavesCurrent(ss[4], es[4], ID);
  }

  /** A run in which one Blueprint is approved and the build is completed of another. */
  lemma UnapprovedIsCompleted() returns (es: seq<Event>, ss: seq<State>)
    ensures IsRun(SMALL, es, ss) && |es| == 13 && es[3] == DoApprove(ID, {}, {}) && CanApprove(ss[3], ID, {}, {})
    ensures ID in ss[3].blueprints && ss[3].blueprints[ID].design == OneScenario(AtRender)
    ensures CompletedFrom(es, ss, 5, 13, ID) && SavedBetween(es, ss, 3, 5, ID)
    ensures var k := (ID, ss[13].completedAt[ID]);
            k in ss[13].built && ss[13].built[k].design == OneScenario(Nowhere)
  {
    es, ss := EditedAndStarted();
    var before, was := es, ss;
    es, ss := Succeeds(es, ss, was[6].builds[ID], was[6].calls[(ID, 1)]);
    CompletedAtOne(es, ss);
    SavedEarlier(before, was, es, ss);
    StartBuilds(SMALL, es, ss, 5, ID);
    BuiltLasts(SMALL, es, ss, 6, 13, (ID, 1));
  }

  lemma CompletedAtOne(es: seq<Event>, ss: seq<State>)
    requires IsRun(SMALL, es, ss) && ID in ss[|es|].builds
    requires ss[|es|].builds[ID].status == Completed && ss[|es|].builds[ID].buildRevision == 1
    ensures ID in ss[|es|].completedAt && ss[|es|].completedAt[ID] == 1
  {
    BuildInRun(SMALL, es, ss, |es|, ID);
  }

  lemma SavedEarlier(es: seq<Event>, ss: seq<State>, es': seq<Event>, ss': seq<State>)
    requires |ss| == |es| + 1 && |ss'| == |es'| + 1 && |es| == 6 && es <= es' && ss <= ss'
    requires SavedBetween(es, ss, 3, 5, ID)
    ensures SavedBetween(es', ss', 3, 5, ID)
  {
    var q :| 3 <= q < 5 && SavesCurrent(ss[q], es[q], ID);
    assert SavesCurrent(ss'[q], es'[q], ID);
  }
}
