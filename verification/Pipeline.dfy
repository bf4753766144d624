/** The build pipeline of the Studio as a class: its methods are the stretches between `await`s, and each is
    proved equal to one step of the run system. */
module Pipeline {
  import opened Texts
  import opened BuildRuns
  import opened BuildLife

  // ----- what the simulation loops add -----

  predicate CanSimulate(policy: Policy, rows: seq<SimulationRow>, id: Text, cls: SimulationClass) {
    if cls == UserRequested
    then UserCount(rows, id) < policy.userRequestedSimulationsPerBuild
    else |PassIds(rows, id)| <= policy.maxMandatoryPassesPerBuild
  }

  lemma PassIdsAdd(rows: seq<SimulationRow>, r: SimulationRow, id: Text)
    ensures PassIds(rows + [r], id)
            == PassIds(rows, id) + (if r.build == id && r.cls != UserRequested then {r.passId} else {})
    ensures UserCount(rows + [r], id)
            == UserCount(rows, id) + (if r.build == id && r.cls == UserRequested then 1 else 0)
  {
    assert (rows + [r])[..|rows|] == rows;
  }

  /** A pass id of a revision that has no pass yet. */
  lemma {:induction false} FreshPass(builds: map<Text, BuildRow>, rows: seq<SimulationRow>, id: Text, revision: nat,
                                     at: int)
    requires forall i | 0 <= i < |rows| :: RowKnown(builds, rows[i])
    requires PassOf(rows, id, revision) == []
    ensures PassId(false, revision, at) !in PassIds(rows, id)
  {
    if rows != [] {
      var n := |rows| - 1;
      assert !InPassOf(rows[n], id, revision);
      FreshPass(builds, rows[..n], id, revision, at);
    }
  }

  /** A new pass has recorded its first `k` scenarios. */
  predicate InPass(was: seq<SimulationRow>, now: seq<SimulationRow>, id: Text, passId: PassId,
                   planned: seq<SimulationResult>, k: nat)
  {
    && k <= |planned| && passId !in PassIds(was, id)
    && now == was + Rows(id, passId.revision, passId, planned[..k])
    && PassIds(now, id) == PassIds(was, id) + (if k == 0 then {} else {passId})
  }

  lemma BeforePass(rows: seq<SimulationRow>, id: Text, passId: PassId, planned: seq<SimulationResult>)
    requires passId !in PassIds(rows, id)
    ensures InPass(rows, rows, id, passId, planned, 0)
  {
    assert Rows(id, passId.revision, passId, planned[..0]) == [];
    assert rows + [] == rows;
  }

  lemma CountInPass(policy: Policy, was: seq<SimulationRow>, now: seq<SimulationRow>, id: Text, passId: PassId,
                    planned: seq<SimulationResult>, k: nat)
    requires InPass(was, now, id, passId, planned, k)
    ensures CanSimulate(policy, now, id, MandatorySecurity) <==> Admits(policy, |PassIds(was, id)|, k)
  {
    assert |PassIds(was, id) + {passId}| == |PassIds(was, id)| + 1;
    assert PassIds(was, id) + {} == PassIds(was, id);
  }

  lemma OneMoreInPass(was: seq<SimulationRow>, now: seq<SimulationRow>, id: Text, passId: PassId,
                      planned: seq<SimulationResult>, k: nat)
    requires InPass(was, now, id, passId, planned, k) && k < |planned|
    ensures var row := SimulationRow(id, MandatorySecurity, passId, passId.revision, planned[k]);
            InPass(was, now + [row], id, passId, planned, k + 1)
  {
    var row := SimulationRow(id, MandatorySecurity, passId, passId.revision, planned[k]);
    PassIdsAdd(now, row, id);
    assert Rows(id, passId.revision, passId, planned[..k + 1])
      == Rows(id, passId.revision, passId, planned[..k]) + [row];
    Assoc(was, Rows(id, passId.revision, passId, planned[..k]), [row]);
  }

  function Declared(wanted: seq<Text>, declared: seq<Text>): seq<Text> {
    if wanted == [] then [] else (if wanted[0] in declared then [wanted[0]] else []) + Declared(wanted[1..], declared)
  }

  function Simulated(scenarios: seq<Text>, simulate: Text -> bool): seq<SimulationResult> {
    seq(|scenarios|, i requires 0 <= i < |scenarios| => SimulationResult(scenarios[i], simulate(scenarios[i])))
  }

  /** The first `k` scenarios asked for have been recorded for the user. */
  predicate InUserRun(was: seq<SimulationRow>, now: seq<SimulationRow>, id: Text, passId: PassId,
                      results: seq<SimulationResult>, k: nat)
  {
    && k <= |results| && now == was + UserRows(id, passId.revision, passId.at, results[..k])
    && UserCount(now, id) == UserCount(was, id) + k
  }

  lemma UserRowsAdd(id: Text, passId: PassId, results: seq<SimulationResult>, k: nat)
    requires k < |results| && passId.byUser
    ensures UserRows(id, passId.revision, passId.at, results[..k + 1])
         == UserRows(id, passId.revision, passId.at, results[..k])
            + [SimulationRow(id, UserRequested, passId, passId.revision, results[k])]
  {
    var more := UserRows(id, passId.revision, passId.at, results[..k + 1]);
    var rows := UserRows(id, passId.revision, passId.at, results[..k]);
    assert |more| == k + 1 && |rows| == k;
    forall i | 0 <= i < k ensures more[i] == rows[i] {
      assert results[..k + 1][i] == results[..k][i];
    }
  }

  lemma OneMoreUserRow(was: seq<SimulationRow>, now: seq<SimulationRow>, id: Text, passId: PassId,
                       results: seq<SimulationResult>, k: nat)
    requires InUserRun(was, now, id, passId, results, k) && k < |results| && passId.byUser
    ensures var row := SimulationRow(id, UserRequested, passId, passId.revision, results[k]);
            InUserRun(was, now + [row], id, passId, results, k + 1)
  {
    var row := SimulationRow(id, UserRequested, passId, passId.revision, results[k]);
    PassIdsAdd(now, row, id);
    UserRowsAdd(id, passId, results, k);
    Assoc(was, UserRows(id, passId.revision, passId.at, results[..k]), [row]);
  }

  lemma RenderingAddsNothing(policy: Policy, row: BuildRow, f: Frame, now: int, paths: set<Text>)
    ensures var m := Rendering(policy, row, f, now, paths);
            m.next.Some? && m.tests == [] && m.sims == [] && m.file.None? && !Completes(f, m)
  {
  }

  lemma NextWriteSame(policy: Policy, row: BuildRow, f: Frame, i: nat, now: int, paths: set<Text>, file: Text)
    ensures var m := NextWrite(policy, row, f, i, now, paths, None);
            && NextWrite(policy, row, f, i, now, paths, Some(file)) == m.(file := Some(file))
            && m.next.Some? && m.tests == [] && m.sims == [] && !Completes(f, m)
  {
  }

  // ----- one build among everything else -----

  /** The handler of the last revision, while nothing else decides the build: COMPLETED exactly if it
      returned ok. */
  predicate Decided(s: State, id: Text, revision: nat) {
    && IsHandled(s, id, revision) && s.builds[id].buildRevision == revision
    && (s.builds[id].status == Completed <==> ReturnedOk(s, id, revision))
    && (ReturnedOk(s, id, revision) ==> id in s.completedAt && s.completedAt[id] == revision)
  }

  lemma Decide(policy: Policy, s: State, id: Text)
    requires Inv(policy, s)
    ensures StartReplyOf(s, id).Started? ==> Decided(Start(s, id), id, s.builds[id].buildRevision + 1)
  {
  }

  lemma BesideKeeps(policy: Policy, s: State, e: Event, id: Text, revision: nat)
    requires Decided(s, id, revision) && Proper(s, e) && NoRedesign(e, id, revision) && !Resumes(e, id, revision)
    ensures var t := Step(policy, s, e);
            Decided(t, id, revision) && RemainingAt(policy, t, id, revision) == RemainingAt(policy, s, id, revision)
  {
    if e.DoResume? {
      ResumeElsewhere(policy, s, e.id, e.revision, e.answer, id, revision);
    } else {
      Outside(policy, s, e, id, revision);
    }
    if ReturnedOk(s, id, revision) { CompletionBeside(policy, s, e, id, revision); }
  }

  lemma CompletionBeside(policy: Policy, s: State, e: Event, id: Text, revision: nat)
    requires NoRedesign(e, id, revision) && !Resumes(e, id, revision) && id in s.completedAt
    ensures var t := Step(policy, s, e); id in t.completedAt && t.completedAt[id] == s.completedAt[id]
  {
  }

  lemma ResumeDecides(policy: Policy, s: State, id: Text, revision: nat, a: Answer)
    requires BuildOk(policy, s, id) && Decided(s, id, revision)
    ensures var t := Resume(policy, s, id, revision, a);
            if (id, revision) in t.calls then Decided(t, id, revision)
            else Over(t, id, revision, LastReply(s.calls[(id, revision)]))
  {
    assert CallOk(policy, s, id, revision);
    var f, e := s.calls[(id, revision)], EvidenceOf(s, id, revision);
    MoveKeeps(policy, id, s.builds[id], f, e, a, |PassIds(s.simulations, id)|);
  }

  /** What the caller of `runBuild` gets when its handler ends at `f`. */
  function LastReply(f: Frame): RunReply {
    if f.at.Destroying? then Ended(f.at.outcome) else NoSandbox
  }

  /** The handler is over. */
  predicate Over(s: State, id: Text, revision: nat, r: RunReply) {
    && id in s.builds && s.builds[id].buildRevision == revision && (id, revision) !in s.calls
    && (s.builds[id].status == Completed <==> r == Ended(Returned(true)))
    && (r == Ended(Returned(true)) ==> id in s.completedAt && s.completedAt[id] == revision)
  }

  /** What the end of a handler leaves. */
  predicate Closed(policy: Policy, s: State, id: Text, revision: nat, r: RunReply) {
    && id in s.builds && s.builds[id].buildRevision == revision && (id, revision) !in s.calls
    && s.builds[id].status != Running
    && (s.builds[id].status == Completed <==> r == Ended(Returned(true)))
    && (r == Ended(Returned(true)) ==>
          && s.builds[id].approved && (id, revision) in s.built
          && Earned(policy, s.built[(id, revision)].design, id, revision, EvidenceOf(s, id, revision)))
  }

  lemma OverCloses(policy: Policy, s: State, id: Text, revision: nat, r: RunReply)
    requires BuildOk(policy, s, id) && Over(s, id, revision, r) && revision > 0
    ensures Closed(policy, s, id, revision, r)
  {
  }

  /** One resumption of a handler that decides its build. */
  predicate Through(policy: Policy, s: State, t: State, id: Text, revision: nat, r: RunReply) {
    if (id, revision) in t.calls
    then Decided(t, id, revision) && RemainingAt(policy, t, id, revision) < RemainingAt(policy, s, id, revision)
    else Over(t, id, revision, r)
  }

  lemma GoesThrough(policy: Policy, s: State, id: Text, revision: nat, a: Answer)
    requires Inv(policy, s) && Decided(s, id, revision)
    ensures Through(policy, s, Resume(policy, s, id, revision, a), id, revision, LastReply(s.calls[(id, revision)]))
  {
    assert BuildOk(policy, s, id);
    ResumeDecides(policy, s, id, revision, a);
    ResumeAdvances(policy, s, id, revision, a);
  }

  datatype RunReply = Refused(why: StartReply) | NoSandbox | Ended(outcome: Outcome)

  // ----- the class -----

  class StudioPipeline {
    const policy: Policy
    var builds: map<Text, BuildRow>
    var byKey: map<Text, Text>
    var blueprints: map<Text, Blueprint>
    var saves: nat
    var artifacts: map<(Text, nat), set<Text>>
    var tests: seq<TestRow>
    var simulations: seq<SimulationRow>
    var sandboxes: set<Text>
    var calls: map<(Text, nat), Frame>
    ghost var built: map<(Text, nat), Blueprint>
    ghost var completedAt: map<Text, nat>

    ghost function Now(): State
      reads this
    {
      State(builds, byKey, blueprints, saves, artifacts, tests, simulations, sandboxes, calls, built, completedAt)
    }

    ghost predicate Valid()
      reads this
    {
      Inv(policy, Now())
    }

    constructor (policy: Policy)
      ensures Valid() && this.policy == policy && Now() == INIT
    {
      this.policy := policy;
      builds, byKey, blueprints, saves := map[], map[], map[], 0;
      artifacts, tests, simulations := map[], [], [];
      sandboxes, calls := {}, map[];
      built, completedAt := map[], map[];
      new;
      forall id: Text ensures BoundedFor(policy, simulations, id) {
      }
    }

    // ----- rows -----

    method SetStage(id: Text, stage: Stage)
      requires id in builds
      modifies this`builds
      ensures builds == old(builds)[id := old(builds)[id].(stage := stage)]
    {
      builds := builds[id := builds[id].(stage := stage)];
    }

    method SetStatus(id: Text, status: Status)
      requires id in builds
      modifies this`builds
      ensures builds == old(builds)[id := old(builds)[id].(status := status)]
    {
      builds := builds[id := builds[id].(status := status)];
    }

    method SaveBlueprint(id: Text, revision: nat, design: Design)
      modifies this`blueprints, this`saves
      ensures Now() == Save(old(Now()), id, revision, design)
    {
      if id !in blueprints || blueprints[id].revision <= revision {
        blueprints := blueprints[id := Blueprint(revision, saves, design)];
      }
      saves := saves + 1;
    }

    // ----- creation, design, approval, abandonment -----

    method InsertBuild(id: Text, key: Option<Text>)
      modifies this`builds, this`byKey
      ensures Now() == Insert(old(Now()), id, key)
    {
      builds := builds[id := BuildRow(Intake, Running, 0, 0, false)];
      if key.Some? { byKey := byKey[key.value := id]; }
    }

    /** `id` is the one just drawn; `affordable` says that the build quotas allow one more. */
    method CreateBuild(id: Text, key: Option<Text>, affordable: bool) returns (r: CreateReply)
      requires Valid() && id !in builds
      modifies this
      ensures Valid() && Now() == Create(old(Now()), id, key, affordable)
      ensures r == CreateReplyOf(old(Now()), id, key, affordable)
      ensures r.Existing? || r.Created? ==> r.id in builds
    {
      InvCreate(policy, Now(), id, key, affordable);
      if key.Some? && key.value != [] && key.value in byKey { return Existing(byKey[key.value]); }
      if !affordable { return OverQuota; }
      if key.Some? && key.value in byKey { return KeyTaken; }
      InsertBuild(id, key);
      return Created(id);
    }

    method EnterStage(id: Text, stage: Stage)
      requires Valid() && (stage == Requirements || stage == BlueprintStage)
      modifies this
      ensures Valid() && Now() == DesignStage(old(Now()), id, stage)
    {
      InvStep(policy, Now(), DoDesignStage(id, stage));
      if id in builds { SetStage(id, stage); }
    }

    /** A model call was refused by the quota, or limited upstream. */
    method PauseDesign(id: Text, upstream: bool)
      requires Valid()
      modifies this
      ensures Valid() && Now() == DesignLimited(old(Now()), id, upstream)
    {
      InvStep(policy, Now(), DoDesignLimited(id, upstream));
      if id in builds { SetStatus(id, if upstream then BuildPausedUpstreamLimit else BuildLimitReached); }
    }

    method SaveDesign(id: Text, design: Design)
      requires Valid()
      modifies this
      ensures Valid() && Now() == DesignSaved(old(Now()), id, design)
    {
      InvStep(policy, Now(), DoDesignSaved(id, design));
      if id in builds {
        SaveBlueprint(id, 1, design);
        SetStage(id, SecurityReview);
      }
    }

    method MarkDesigned(id: Text, buildable: bool)
      requires id in builds
      modifies this`builds
      ensures Now() == DesignDone(old(Now()), id, buildable)
    {
      if !buildable {
        SetStatus(id, BuildNeedsUserReview);
        SetStage(id, SecurityReview);
      } else {
        SetStage(id, AtApproval);
        SetStatus(id, AwaitingApproval);
      }
      assert builds == DesignDone(old(Now()), id, buildable).builds;
    }

    method FinishDesign(id: Text, buildable: bool)
      requires Valid()
      modifies this
      ensures Valid() && Now() == DesignDone(old(Now()), id, buildable)
    {
      InvStep(policy, Now(), DoDesignDone(id, buildable));
      if id in builds { MarkDesigned(id, buildable); }
    }

    method EditBlueprint(id: Text, design: Design) returns (found: bool)
      requires Valid()
      modifies this
      ensures Valid() && Now() == Edit(old(Now()), id, design) && (found <==> id in old(blueprints))
    {
      InvEdit(policy, Now(), id, design);
      found := SaveEdit(id, design);
    }

    method SaveEdit(id: Text, design: Design) returns (found: bool)
      modifies this`blueprints, this`saves
      ensures Now() == Edit(old(Now()), id, design) && (found <==> id in old(blueprints))
    {
      if id !in blueprints { return false; }
      SaveBlueprint(id, blueprints[id].revision + 1, design);
      return true;
    }

    /** Approval unlocks code generation: only at the approval stage, and only once every CRITICAL that
        the model raised has been acknowledged by its code. */
    method Approve(id: Text, modelCriticals: set<Text>, acknowledged: set<Text>) returns (granted: bool)
      requires Valid()
      modifies this
      ensures Valid() && Now() == BuildRuns.Approve(old(Now()), id, modelCriticals, acknowledged)
      ensures granted <==> id in old(builds) && old(builds)[id].stage == AtApproval && modelCriticals <= acknowledged
      ensures builds == if granted then old(builds)[id := old(builds)[id].(approved := true)] else old(builds)
    {
      InvStep(policy, Now(), DoApprove(id, modelCriticals, acknowledged));
      if id !in builds || builds[id].stage != AtApproval { return false; }
      if !(modelCriticals <= acknowledged) { return false; }
      builds := builds[id := builds[id].(approved := true)];
      return true;
    }

    method Abandon(id: Text) returns (done: bool)
      requires Valid()
      modifies this
      ensures Valid() && Now() == BuildRuns.Abandon(old(Now()), id)
      ensures done <==> id in old(builds) && old(builds)[id].status != Completed && old(builds)[id].status != Abandoned
      ensures builds == if done then old(builds)[id := old(builds)[id].(status := Abandoned)] else old(builds)
    {
      InvStep(policy, Now(), DoAbandon(id));
      if id !in builds || builds[id].status == Completed || builds[id].status == Abandoned { return false; }
      SetStatus(id, Abandoned);
      return true;
    }

    /** What was RUNNING has no worker any more. */
    method ReconcileOrphanedBuilds() returns (orphaned: set<Text>)
      modifies this`builds
      ensures orphaned == set id | id in old(builds) && old(builds)[id].status == Running
      ensures builds == map id | id in old(builds) :: Orphaned(old(builds)[id])
    {
      orphaned := set id | id in builds && builds[id].status == Running;
      var todo := orphaned;
      while todo != {}
        invariant todo <= orphaned && builds.Keys == old(builds).Keys
        invariant forall id | id in builds ::
                    builds[id] == if id in orphaned - todo then old(builds)[id].(status := Abandoned)
                                  else old(builds)[id]
        decreases todo
      {
        var id :| id in todo;
        builds := builds[id := builds[id].(status := Abandoned)];
        todo := todo - {id};
      }
    }

    /** The process starts again over the same tables. */
    method Restart() returns (orphaned: set<Text>)
      requires Valid()
      modifies this
      ensures Valid() && Now() == BuildRuns.Restart(old(Now()))
      ensures orphaned == set id | id in old(builds) && old(builds)[id].status == Running
    {
      InvRestart(policy, Now());
      sandboxes, calls := {}, map[];
      orphaned := ReconcileOrphanedBuilds();
    }

    // ----- a build -----

    method BeginBuild(id: Text)
      requires id in builds && builds[id].approved && id in blueprints
      modifies this
      ensures Now() == Start(old(Now()), id)
    {
      ghost var s := Now();
      var revision := builds[id].buildRevision + 1;
      builds := builds[id := builds[id].(buildRevision := revision, status := Running)];
      SetStage(id, Stage.Build);
      calls := calls[(id, revision) := Frame(revision, blueprints[id], 0, Creating)];
      built := Start(s, id).built;
      assert builds == Start(s, id).builds;
    }

    method StartBuild(id: Text) returns (r: StartReply)
      requires Valid()
      modifies this
      ensures Valid() && Now() == Start(old(Now()), id) && r == StartReplyOf(old(Now()), id)
    {
      InvStep(policy, Now(), DoStart(id));
      if id !in builds { return NoSuchBuild; }
      if !builds[id].approved { return NotApproved; }
      if id !in blueprints { return NoBlueprint; }
      BeginBuild(id);
      return Started;
    }

    /** A handler of `id` that waits at its own revision. */
    ghost predicate Waits(id: Text, revision: nat)
      reads this
    {
      id in builds && (id, revision) in calls && calls[(id, revision)].revision == revision
    }

    lemma Handled(id: Text, revision: nat)
      requires Valid() && (id, revision) in calls
      ensures Waits(id, revision) && BuildOk(policy, Now(), id) && CallOk(policy, Now(), id, revision)
    {
      assert id == (id, revision).0;
      assert BuildOk(policy, Now(), id);
    }

    method WaitAt(id: Text, revision: nat, at: Point)
      requires (id, revision) in calls
      modifies this`calls
      ensures calls == old(calls)[(id, revision) := old(calls)[(id, revision)].(at := at)]
    {
      calls := calls[(id, revision) := calls[(id, revision)].(at := at)];
    }

    /** The state that carrying out a move of a handler leaves, when it adds no rows. */
    ghost predicate Carries(s: State, id: Text, f: Frame, m: Move)
      reads this
    {
      m.next.Some? && Now() == s.(builds := s.builds[id := m.row], calls := s.calls[(id, f.revision) := m.next.value],
                                  completedAt := if Completes(f, m) then Latest(s.completedAt, id, f.revision)
                                                 else s.completedAt)
    }

    /** The catch clause: an error that nothing classified. */
    method Caught(id: Text, revision: nat)
      requires Waits(id, revision)
      modifies this`builds, this`calls
      ensures Carries(old(Now()), id, old(calls)[(id, revision)],
                      Thrown(old(builds)[id], old(calls)[(id, revision)], [], [], None))
    {
      if builds[id].status == Running { SetStatus(id, Failed); }
      WaitAt(id, revision, Destroying(Threw));
      assert builds == old(builds)[id := builds[id]];
    }

    /** The ways a build returns. */
    method Finish(id: Text, revision: nat, ok: bool)
      requires Waits(id, revision) && !calls[(id, revision)].at.Destroying?
      modifies this`builds, this`calls, this`completedAt
      ensures Carries(old(Now()), id, old(calls)[(id, revision)],
                      BuildRuns.Ended(old(builds)[id], old(calls)[(id, revision)], ok, [], []))
    {
      if ok {
        SetStage(id, ExportReady);
        SetStatus(id, Completed);
        completedAt := Latest(completedAt, id, revision);
      } else {
        SetStatus(id, BuildNeedsUserReview);
      }
      WaitAt(id, revision, Destroying(Returned(ok)));
      assert builds == old(builds)[id := builds[id]];
    }

    // --- what each answer leads to ---

    /** The next file, or what comes after the last. */
    method WriteNext(id: Text, revision: nat, i: nat, now: int)
      requires Waits(id, revision)
      modifies this`builds, this`calls
      ensures Carries(old(Now()), id, old(calls)[(id, revision)],
                      NextWrite(policy, old(builds)[id], old(calls)[(id, revision)], i, now,
                                PathsOf(old(Now()), id, revision), None))
    {
      var f := calls[(id, revision)];
      var written := if (id, revision) in artifacts then artifacts[(id, revision)] else {};
      if i >= |f.blueprint.design.files| {
        WaitAt(id, revision, Linking);
      } else if |written| >= policy.generatedFiles || now - f.startedAt > policy.sandboxWallClockMs {
        Caught(id, revision);
      } else {
        WaitAt(id, revision, Writing(i));
      }
      assert builds == old(builds)[id := builds[id]];
    }

    method Render(id: Text, revision: nat, now: int)
      requires Waits(id, revision)
      modifies this`builds, this`calls
      ensures Carries(old(Now()), id, old(calls)[(id, revision)],
                      Rendering(policy, old(builds)[id], old(calls)[(id, revision)], now,
                                PathsOf(old(Now()), id, revision)))
    {
      if calls[(id, revision)].blueprint.design.fault == AtRender {
        Caught(id, revision);
      } else {
        WriteNext(id, revision, 0, now);
      }
    }

    method SandboxAnswered(id: Text, revision: nat, a: Answer)
      requires Waits(id, revision) && calls[(id, revision)].at.Creating?
      modifies this
      ensures Now() == Put(old(Now()), id, old(calls)[(id, revision)],
                           AfterCreate(policy, old(builds)[id], old(calls)[(id, revision)], a,
                                       PathsOf(old(Now()), id, revision)))
    {
      var f := calls[(id, revision)];
      if a.threw {
        SetStatus(id, Failed);
        calls := calls - {(id, revision)};
      } else {
        sandboxes := sandboxes + {id};
        calls := calls[(id, revision) := f.(startedAt := a.now)];
        RenderingAddsNothing(policy, builds[id], calls[(id, revision)], a.now, PathsOf(Now(), id, revision));
        Render(id, revision, a.now);
      }
      assert tests == old(tests) + [] && simulations == old(simulations) + [];
    }

    method RecordFile(id: Text, revision: nat, path: Text)
      modifies this`artifacts
      ensures artifacts == old(artifacts)[(id, revision) := PathsOf(old(Now()), id, revision) + {path}]
      ensures PathsOf(Now(), id, revision) == PathsOf(old(Now()), id, revision) + {path}
    {
      var written := if (id, revision) in artifacts then artifacts[(id, revision)] else {};
      artifacts := artifacts[(id, revision) := written + {path}];
    }

    method FileWritten(id: Text, revision: nat, a: Answer)
      requires Waits(id, revision) && calls[(id, revision)].at.Writing?
      requires calls[(id, revision)].at.i < |calls[(id, revision)].blueprint.design.files|
      modifies this
      ensures Now() == Put(old(Now()), id, old(calls)[(id, revision)],
                           AfterWrite(policy, old(builds)[id], old(calls)[(id, revision)],
                                      old(calls)[(id, revision)].at.i, a,
                                      PathsOf(old(Now()), id, revision)))
    {
      var f := calls[(id, revision)];
      if a.threw {
        Caught(id, revision);
      } else {
        NextWriteSame(policy, builds[id], f, f.at.i + 1, a.now,
                      PathsOf(Now(), id, revision) + {f.blueprint.design.files[f.at.i]},
                      f.blueprint.design.files[f.at.i]);
        RecordFile(id, revision, f.blueprint.design.files[f.at.i]);
        WriteNext(id, revision, f.at.i + 1, a.now);
      }
      assert tests == old(tests) + [] && simulations == old(simulations) + [];
    }

    method LinkAnswered(id: Text, revision: nat, a: Answer)
      requires Waits(id, revision) && calls[(id, revision)].at.Linking?
      modifies this
      ensures Now() == Put(old(Now()), id, old(calls)[(id, revision)],
                           AfterLink(old(builds)[id], old(calls)[(id, revision)], a))
    {
      var design := calls[(id, revision)].blueprint.design;
      if a.threw || design.fault == AtValidation {
        Caught(id, revision);
      } else if !design.artifactsMatch {
        Finish(id, revision, false);
      } else {
        SetStage(id, Test);
        WaitAt(id, revision, Compiling);
      }
      assert tests == old(tests) + [] && simulations == old(simulations) + [];
    }

    /** The next file to write again, or the suite. */
    method RewriteNext(id: Text, revision: nat, i: nat)
      requires Waits(id, revision)
      modifies this`calls
      ensures calls == old(calls)[(id, revision) :=
                         NextRewrite(builds[id], old(calls)[(id, revision)], i, []).next.value]
    {
      if i >= |calls[(id, revision)].blueprint.design.files| {
        WaitAt(id, revision, Compiling);
      } else {
        WaitAt(id, revision, Rewriting(i));
      }
    }

    /** The suite has run. A failure is repaired while the build has repairs left. */
    method SuiteRan(id: Text, revision: nat, ok: bool)
      requires Waits(id, revision) && !calls[(id, revision)].at.Destroying?
      modifies this`builds, this`calls, this`completedAt
      ensures Carries(old(Now()), id, old(calls)[(id, revision)],
                      AfterSuite(policy, old(builds)[id], old(calls)[(id, revision)], ok, []))
    {
      if ok {
        SetStage(id, Simulate);
        WaitAt(id, revision, GettingFixtures);
      } else if builds[id].repairCycles >= policy.autoRepairLoops {
        Finish(id, revision, false);
      } else {
        builds := builds[id := builds[id].(repairCycles := builds[id].repairCycles + 1)];
        SetStage(id, Repair);
        RewriteNext(id, revision, 0);
      }
      assert builds == old(builds)[id := builds[id]];
    }

    method CompileAnswered(id: Text, revision: nat, a: Answer)
      requires Waits(id, revision) && calls[(id, revision)].at.Compiling?
      modifies this
      ensures Now() == Put(old(Now()), id, old(calls)[(id, revision)],
                           AfterCompile(policy, id, old(builds)[id], old(calls)[(id, revision)], a))
    {
      if a.threw {
        Caught(id, revision);
        assert tests == old(tests) + [];
      } else if a.exitCode != 0 {
        tests := tests + [TestRow(id, revision, Typecheck, 0, 1)];
        SuiteRan(id, revision, false);
      } else {
        tests := tests + [TestRow(id, revision, Typecheck, 1, 0)];
        WaitAt(id, revision, Testing);
      }
      assert simulations == old(simulations) + [];
    }

    method TestsAnswered(id: Text, revision: nat, a: Answer)
      requires Waits(id, revision) && calls[(id, revision)].at.Testing?
      modifies this
      ensures Now() == Put(old(Now()), id, old(calls)[(id, revision)],
                           AfterTests(policy, id, old(builds)[id], old(calls)[(id, revision)], a))
    {
      if a.threw {
        Caught(id, revision);
        assert tests == old(tests) + [];
      } else {
        var ok := a.exitCode == 0;
        tests := tests + [TestRow(id, revision, GeneratedTests, a.passed, if ok then 0 else 1)];
        SuiteRan(id, revision, ok);
      }
      assert simulations == old(simulations) + [];
    }

    method FileRewritten(id: Text, revision: nat, a: Answer)
      requires Waits(id, revision) && calls[(id, revision)].at.Rewriting?
      modifies this
      ensures Now() == Put(old(Now()), id, old(calls)[(id, revision)],
                           AfterRewrite(old(builds)[id], old(calls)[(id, revision)], old(calls)[(id, revision)].at.i,
                                        a))
    {
      if a.threw {
        Caught(id, revision);
      } else {
        RewriteNext(id, revision, calls[(id, revision)].at.i + 1);
        assert builds == old(builds)[id := builds[id]];
      }
      assert tests == old(tests) + [] && simulations == old(simulations) + [];
    }

    /** The mandatory pass: scenarios are recorded in order until a ceiling or the clock stops it. */
    method RunPass(id: Text, revision: nat, planned: seq<SimulationResult>, startedAt: int, a: Answer)
      returns (recorded: nat, truncated: nat)
      requires PassId(false, revision, a.now) !in PassIds(simulations, id)
      modifies this`simulations
      ensures recorded == StopAt(policy, |PassIds(old(simulations), id)|, |planned|,
                                 InTime(policy, startedAt, a.clock), 0)
      ensures truncated == |planned| - recorded
      ensures simulations == old(simulations) + Rows(id, revision, PassId(false, revision, a.now), planned[..recorded])
    {
      var passId := PassId(false, revision, a.now);
      ghost var prior, inTime := |PassIds(simulations, id)|, InTime(policy, startedAt, a.clock);
      BeforePass(simulations, id, passId, planned);
      truncated := 0;
      recorded := 0;
      while recorded < |planned|
        invariant recorded <= |planned| && truncated == 0
        invariant InPass(old(simulations), simulations, id, passId, planned, recorded)
        invariant StopAt(policy, prior, |planned|, inTime, 0) == StopAt(policy, prior, |planned|, inTime, recorded)
      {
        CountInPass(policy, old(simulations), simulations, id, passId, planned, recorded);
        if !CanSimulate(policy, simulations, id, MandatorySecurity) {
          truncated := |planned| - recorded;
          break;
        }
        if a.clock(recorded) - startedAt > policy.sandboxWallClockMs {
          truncated := |planned| - recorded;
          break;
        }
        OneMoreInPass(old(simulations), simulations, id, passId, planned, recorded);
        simulations := simulations + [SimulationRow(id, MandatorySecurity, passId, revision, planned[recorded])];
        recorded := recorded + 1;
      }
    }

    /** The final gate, once the pass has recorded so many scenarios. The reviewer is not asked. */
    method FinalGate(id: Text, revision: nat, recorded: nat, truncated: nat)
      requires Waits(id, revision) && !calls[(id, revision)].at.Destroying?
      requires recorded + truncated == |calls[(id, revision)].blueprint.design.planned|
      modifies this`builds, this`calls, this`completedAt
      ensures Carries(old(Now()), id, old(calls)[(id, revision)],
                      Gate(old(builds)[id], old(calls)[(id, revision)], recorded, []))
    {
      var design := calls[(id, revision)].blueprint.design;
      var sims := design.planned[..recorded];
      assert recorded == |design.planned| ==> sims == design.planned;
      if design.fault == AtHonesty {
        Caught(id, revision);
      } else if design.dishonest {
        Finish(id, revision, false);
      } else if !(|sims| > 0 && AllPassed(sims)) || truncated > 0 {
        Finish(id, revision, false);
      } else {
        Finish(id, revision, true);
      }
    }

    method FixturesAnswered(id: Text, revision: nat, a: Answer)
      requires Waits(id, revision) && calls[(id, revision)].at.GettingFixtures?
      requires PassId(false, revision, a.now) !in PassIds(simulations, id)
      modifies this
      ensures Now() == Put(old(Now()), id, old(calls)[(id, revision)],
                           AfterFixtures(policy, id, old(builds)[id], old(calls)[(id, revision)], a,
                                         |PassIds(old(simulations), id)|))
    {
      var f := calls[(id, revision)];
      var d := f.blueprint.design;
      if a.threw || d.fault == AtScenarios || |d.planned| > policy.maxMandatorySimulationsPerPass {
        Caught(id, revision);
        assert simulations == old(simulations) + [];
      } else {
        SimulateAndVerify(id, revision, a);
      }
      assert tests == old(tests) + [];
    }

    method SimulateAndVerify(id: Text, revision: nat, a: Answer)
      requires Waits(id, revision) && calls[(id, revision)].at.GettingFixtures?
      requires PassId(false, revision, a.now) !in PassIds(simulations, id)
      modifies this`builds, this`calls, this`simulations, this`completedAt
      ensures Now() == Put(old(Now()), id, old(calls)[(id, revision)],
                           PassMove(policy, id, old(builds)[id], old(calls)[(id, revision)], a,
                                    |PassIds(old(simulations), id)|))
    {
      var f := calls[(id, revision)];
      var recorded, truncated := RunPass(id, revision, f.blueprint.design.planned, f.startedAt, a);
      Verify(id, revision, recorded, truncated, a.overQuota);
      assert tests == old(tests) + [];
    }

    /** From the end of the pass to the reviewer, or to the gate when the quota refuses the reviewer. */
    method Verify(id: Text, revision: nat, recorded: nat, truncated: nat, overQuota: bool)
      requires Waits(id, revision) && calls[(id, revision)].at.GettingFixtures?
      requires recorded + truncated == |calls[(id, revision)].blueprint.design.planned|
      modifies this`builds, this`calls, this`completedAt
      ensures Carries(old(Now()), id, old(calls)[(id, revision)],
                      Verifying(old(builds)[id], old(calls)[(id, revision)], recorded, overQuota, []))
    {
      SetStage(id, FinalVerify);
      if calls[(id, revision)].blueprint.design.fault == AtScore {
        Caught(id, revision);
      } else if overQuota {
        SetStatus(id, BuildLimitReached);
        FinalGate(id, revision, recorded, truncated);
      } else {
        WaitAt(id, revision, Reviewing(recorded));
      }
      assert builds == old(builds)[id := builds[id]];
    }

    method ReviewerAnswered(id: Text, revision: nat, a: Answer)
      requires Waits(id, revision) && calls[(id, revision)].at.Reviewing?
      requires calls[(id, revision)].at.recorded <= |calls[(id, revision)].blueprint.design.planned|
      modifies this
      ensures Now() == Put(old(Now()), id, old(calls)[(id, revision)],
                           AfterReview(old(builds)[id], old(calls)[(id, revision)],
                                       old(calls)[(id, revision)].at.recorded, a))
    {
      var recorded := calls[(id, revision)].at.recorded;
      if a.upstream { SetStatus(id, BuildPausedUpstreamLimit); }
      FinalGate(id, revision, recorded, |calls[(id, revision)].blueprint.design.planned| - recorded);
      assert builds == old(builds)[id := builds[id]];
      assert tests == old(tests) + [] && simulations == old(simulations) + [];
    }

    /** The handler is over, and the pipeline holds no sandbox of this build. */
    method SandboxDestroyed(id: Text, revision: nat)
      requires Waits(id, revision) && calls[(id, revision)].at.Destroying?
      modifies this
      ensures Now() == Put(old(Now()), id, old(calls)[(id, revision)], Move(old(builds)[id], None, [], [], None))
    {
      sandboxes := sandboxes - {id};
      calls := calls - {(id, revision)};
      assert builds == old(builds)[id := builds[id]];
      assert tests == old(tests) + [] && simulations == old(simulations) + [];
    }

    /** A call out of one handler is answered, and the handler runs to its next `await`. */
    method Answered(id: Text, revision: nat, a: Answer)
      requires Waits(id, revision) && CallOk(policy, Now(), id, revision) && Known(Now())
      modifies this
      ensures Now() == Resume(policy, old(Now()), id, revision, a)
    {
      match calls[(id, revision)].at {
        case Creating => SandboxAnswered(id, revision, a);
        case Writing(i) => FileWritten(id, revision, a);
        case Linking => LinkAnswered(id, revision, a);
        case Compiling => CompileAnswered(id, revision, a);
        case Testing => TestsAnswered(id, revision, a);
        case Rewriting(i) => FileRewritten(id, revision, a);
        case GettingFixtures =>
          FreshPass(builds, simulations, id, revision, a.now);
          FixturesAnswered(id, revision, a);
        case Reviewing(k) => ReviewerAnswered(id, revision, a);
        case Destroying(_) => SandboxDestroyed(id, revision);
      }
    }

    method ResumeBuild(id: Text, revision: nat, a: Answer)
      requires Valid() && (id, revision) in calls
      modifies this
      ensures Valid() && Now() == Resume(policy, old(Now()), id, revision, a)
    {
      Handled(id, revision);
      InvResume(policy, Now(), id, revision, a);
      Answered(id, revision, a);
    }

    // ----- simulations a user asks for -----

    /** Records scenarios for the user until the allowance is used up. */
    method RecordForUser(id: Text, revision: nat, at: int, results: seq<SimulationResult>) returns (recorded: nat)
      requires UserCount(simulations, id) <= policy.userRequestedSimulationsPerBuild
      modifies this`simulations
      ensures recorded == Fitting(policy, old(simulations), id, |results|)
      ensures simulations == old(simulations) + UserRows(id, revision, at, results[..recorded])
    {
      var passId := PassId(true, revision, at);
      recorded := 0;
      assert simulations == simulations + UserRows(id, revision, at, results[..0]);
      while recorded < |results|
        invariant InUserRun(old(simulations), simulations, id, passId, results, recorded)
        invariant UserCount(simulations, id) <= policy.userRequestedSimulationsPerBuild
      {
        if !CanSimulate(policy, simulations, id, UserRequested) { break; }
        PassIdsAdd(simulations, SimulationRow(id, UserRequested, passId, revision, results[recorded]), id);
        OneMoreUserRow(old(simulations), simulations, id, passId, results, recorded);
        simulations := simulations + [SimulationRow(id, UserRequested, passId, revision, results[recorded])];
        recorded := recorded + 1;
      }
    }

    /** Scenarios re-run on request: charged to the user, and never part of a mandatory pass. The revision and
        the declared scenarios were read before the fixtures were awaited. */
    method RunUserSimulations(id: Text, revision: nat, at: int, wanted: seq<Text>, declared: seq<Text>,
                              simulate: Text -> bool)
      returns (recorded: nat)
      requires Valid() && id in builds && revision <= builds[id].buildRevision
      modifies this
      ensures Valid()
      ensures var toRun := Declared(if wanted == [] then declared else wanted, declared);
              && Now() == UserSimulations(policy, old(Now()), id, revision, at, Simulated(toRun, simulate))
              && recorded == Fitting(policy, old(simulations), id, |toRun|)
              && forall b: Text :: PassIds(simulations, b) == PassIds(old(simulations), b)
    {
      var results := Simulated(Declared(if wanted == [] then declared else wanted, declared), simulate);
      InvUser(policy, Now(), id, revision, at, results);
      assert BoundedFor(policy, simulations, id);
      recorded := RecordForUser(id, revision, at, results);
      forall b: Text ensures PassIds(simulations, b) == PassIds(old(simulations), b) {
        UserCountAppend(old(simulations), UserRows(id, revision, at, results[..recorded]), id, b);
      }
    }

    // ----- all together -----

    /** Any call that the server takes, or an answer to one of its own. */
    method Serve(e: Event)
      requires Valid() && ProperFor(builds, e)
      modifies this
      ensures Valid() && Now() == Step(policy, old(Now()), e)
    {
      InvStep(policy, Now(), e);
      match e {
        case DoCreate(id, key, affordable) => var _ := CreateBuild(id, key, affordable);
        case DoDesignStage(id, stage) => EnterStage(id, stage);
        case DoDesignLimited(id, upstream) => PauseDesign(id, upstream);
        case DoDesignSaved(id, design) => SaveDesign(id, design);
        case DoDesignDone(id, buildable) => FinishDesign(id, buildable);
        case DoEdit(id, design) => var _ := EditBlueprint(id, design);
        case DoApprove(id, criticals, acknowledged) => var _ := Approve(id, criticals, acknowledged);
        case DoAbandon(id) => var _ := Abandon(id);
        case DoStart(id) => var _ := StartBuild(id);
        case DoResume(id, revision, a) => if (id, revision) in calls { ResumeBuild(id, revision, a); }
        case DoUserSimulations(id, revision, at, results) => if id in builds { RecordAsked(id, revision, at, results); }
        case DoRestart => var _ := Restart();
      }
    }

    method RecordAsked(id: Text, revision: nat, at: int, results: seq<SimulationResult>)
      requires Valid() && id in builds && revision <= builds[id].buildRevision
      modifies this
      ensures Valid() && Now() == UserSimulations(policy, old(Now()), id, revision, at, results)
    {
      InvUser(policy, Now(), id, revision, at, results);
      assert BoundedFor(policy, simulations, id);
      var _ := RecordForUser(id, revision, at, results);
    }

    /** Whether `e` may happen now, and leaves the handler of `revision` the only one of `id` to decide it. */
    predicate Comes(e: Event, id: Text, revision: nat)
      reads this
    {
      ProperFor(builds, e) && NoRedesign(e, id, revision) && !Resumes(e, id, revision)
    }

    ghost predicate Decides(id: Text, revision: nat)
      reads this
    {
      Decided(Now(), id, revision)
    }

    /** Other calls come in while a handler waits. */
    method Meanwhile(id: Text, revision: nat, es: seq<Event>)
      requires Valid() && Decides(id, revision)
      modifies this
      ensures Valid() && Decides(id, revision)
      ensures RemainingAt(policy, Now(), id, revision) == RemainingAt(policy, old(Now()), id, revision)
    {
      for i := 0 to |es|
        invariant Valid() && Decides(id, revision)
        invariant RemainingAt(policy, Now(), id, revision) == RemainingAt(policy, old(Now()), id, revision)
      {
        if Comes(es[i], id, revision) {
          BesideKeeps(policy, Now(), es[i], id, revision);
          Serve(es[i]);
        }
      }
    }

    /** One `await` of a handler, and what follows it. */
    method GoThrough(id: Text, revision: nat, a: Answer, others: seq<Event>) returns (r: RunReply)
      requires Valid() && Decides(id, revision)
      modifies this
      ensures Valid() && !r.Refused?
      ensures Through(policy, old(Now()), Now(), id, revision, r)
    {
      Meanwhile(id, revision, others);
      r := LastReply(calls[(id, revision)]);
      GoesThrough(policy, Now(), id, revision, a);
      ResumeBuild(id, revision, a);
    }

    method RunToEnd(id: Text, revision: nat, answers: nat -> Answer, others: nat -> seq<Event>) returns (r: RunReply)
      requires Valid() && Decides(id, revision) && revision > 0
      modifies this
      ensures Valid() && !r.Refused? && Closed(policy, Now(), id, revision, r)
    {
      var n := 0;
      r := NoSandbox;
      while (id, revision) in calls
        invariant Valid() && !r.Refused?
        invariant if (id, revision) in calls then Decides(id, revision) else Over(Now(), id, revision, r)
        decreases if (id, revision) in calls then RemainingAt(policy, Now(), id, revision) + 1 else 0
      {
        r := GoThrough(id, revision, answers(n), others(n));
        n := n + 1;
      }
      assert BuildOk(policy, Now(), id);
      OverCloses(policy, Now(), id, revision, r);
    }

    /** `runBuild` from its call to its end: `answers` are those of its own calls out, and `others` what else
        comes in at each of its `await`s. It ends; the build is then not RUNNING, and COMPLETED exactly if ok
        is returned, which it is only when earned. */
    method RunBuild(id: Text, answers: nat -> Answer, others: nat -> seq<Event>) returns (r: RunReply)
      requires Valid()
      modifies this
      ensures Valid()
      ensures r.Refused? <==> !StartReplyOf(old(Now()), id).Started?
      ensures r.Refused? ==> r.why == StartReplyOf(old(Now()), id) && Now() == old(Now())
      ensures !r.Refused? ==> id in old(builds) && Closed(policy, Now(), id, old(builds)[id].buildRevision + 1, r)
    {
      Decide(policy, Now(), id);
      var reply := StartBuild(id);
      if !reply.Started? { return Refused(reply); }
      r := RunToEnd(id, builds[id].buildRevision, answers, others);
    }
  }
}
