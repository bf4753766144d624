/** The build pipeline of the Studio as a step system: any number of builds, each handler suspended at
    its `await`s, interleaved in any order with design, edits, approvals, abandonments, simulations a
    user asks for, and restarts of the process. */
module BuildRuns {
  import opened Texts

  datatype Stage =
    | Intake | Requirements | BlueprintStage | SecurityReview | AtApproval | Build | Test | Simulate | Repair
    | FinalVerify | ExportReady

  datatype Status =
    | Running | AwaitingApproval | Completed | Failed | Paused | BuildLimitReached | BuildNeedsUserReview
    | BuildPausedUpstreamLimit | Abandoned

  datatype BuildRow = BuildRow(stage: Stage, status: Status, buildRevision: nat, repairCycles: nat, approved: bool)

  datatype Suite = Typecheck | GeneratedTests

  datatype TestRow = TestRow(build: Text, revision: nat, suite: Suite, passed: nat, failed: nat)

  datatype SimulationClass = MandatorySecurity | AdapterRegression | UserRequested

  /** `pass-<revision>-<time>` or `user-<revision>-<time>`. */
  datatype PassId = PassId(byUser: bool, revision: nat, at: int)

  datatype SimulationResult = SimulationResult(scenarioId: Text, passed: bool)

  datatype SimulationRow = SimulationRow(
    build: Text, cls: SimulationClass, passId: PassId, revision: nat, result: SimulationResult)

  datatype Policy = Policy(
    autoRepairLoops: nat,
    generatedFiles: nat,
    maxMandatoryPassesPerBuild: nat,
    maxMandatorySimulationsPerPass: nat,
    userRequestedSimulationsPerBuild: nat,
    sandboxWallClockMs: int)

  /** Where deterministic code throws on a design, if it does. */
  datatype Fault = Nowhere | AtRender | AtValidation | AtScenarios | AtScore | AtHonesty

  /** What deterministic code makes of a Blueprint. */
  datatype Design = Design(
    files: seq<Text>, artifactsMatch: bool, planned: seq<SimulationResult>, dishonest: bool, fault: Fault)

  /** A saved Blueprint; `serial` numbers the saves. */
  datatype Blueprint = Blueprint(revision: nat, serial: nat, design: Design)

  datatype Outcome = Returned(ok: bool) | Threw

  /** The `await` at which the handler of a build is suspended. */
  datatype Point =
    | Creating
    | Writing(i: nat)
    | Linking
    | Compiling
    | Testing
    | Rewriting(i: nat)
    | GettingFixtures
    | Reviewing(recorded: nat)
    | Destroying(outcome: Outcome)

  datatype Frame = Frame(revision: nat, blueprint: Blueprint, startedAt: int, at: Point)

  /** What a call out of the process answers. `now` is the clock when the handler resumes, `clock` its
      readings in the simulation loop; `overQuota` refuses the reviewer's reservation and `upstream`
      is the reviewer's rate limit. */
  datatype Answer = Answer(
    threw: bool, exitCode: int, passed: nat, now: int, clock: nat -> int, overQuota: bool, upstream: bool)

  /** The tables, the sandboxes the pipeline holds, and its handlers by build and revision. The last two
      are kept for the proofs: what each revision was built of, and the latest revision of a build whose
      handler came to return ok. */
  datatype State = State(
    builds: map<Text, BuildRow>,
    byKey: map<Text, Text>,
    blueprints: map<Text, Blueprint>,
    saves: nat,
    artifacts: map<(Text, nat), set<Text>>,
    tests: seq<TestRow>,
    simulations: seq<SimulationRow>,
    sandboxes: set<Text>,
    calls: map<(Text, nat), Frame>,
    built: map<(Text, nat), Blueprint>,
    completedAt: map<Text, nat>)

  const INIT := State(map[], map[], map[], 0, map[], [], [], {}, map[], map[], map[])

  // ----- what the tables say of one build -----

  function TestsOf(tests: seq<TestRow>, id: Text, revision: nat): seq<TestRow> {
    if tests == [] then [] else
      var r := tests[|tests| - 1];
      TestsOf(tests[..|tests| - 1], id, revision) + (if r.build == id && r.revision == revision then [r] else [])
  }

  predicate InPassOf(r: SimulationRow, id: Text, revision: nat) {
    r.build == id && r.revision == revision && r.cls == MandatorySecurity
  }

  function PassOf(rows: seq<SimulationRow>, id: Text, revision: nat): seq<SimulationRow> {
    if rows == [] then [] else
      var r := rows[|rows| - 1];
      PassOf(rows[..|rows| - 1], id, revision) + (if InPassOf(r, id, revision) then [r] else [])
  }

  /** Distinct passes of a build that are not the user's own. */
  function PassIds(rows: seq<SimulationRow>, id: Text): set<PassId> {
    if rows == [] then {} else
      var r := rows[|rows| - 1];
      PassIds(rows[..|rows| - 1], id) + (if r.build == id && r.cls != UserRequested then {r.passId} else {})
  }

  function UserCount(rows: seq<SimulationRow>, id: Text): nat {
    if rows == [] then 0 else
      var r := rows[|rows| - 1];
      UserCount(rows[..|rows| - 1], id) + (if r.build == id && r.cls == UserRequested then 1 else 0)
  }

  function PathsOf(s: State, id: Text, revision: nat): set<Text> {
    if (id, revision) in s.artifacts then s.artifacts[(id, revision)] else {}
  }

  predicate AllPassed(rs: seq<SimulationResult>) {
    forall i | 0 <= i < |rs| :: rs[i].passed
  }

  /** The last two test rows of the revision are a clean compile and a clean run. */
  predicate SuitePassed(tests: seq<TestRow>, id: Text, revision: nat) {
    && |tests| >= 2
    && tests[|tests| - 2] == TestRow(id, revision, Typecheck, 1, 0)
    && tests[|tests| - 1] == TestRow(id, revision, GeneratedTests, tests[|tests| - 1].passed, 0)
  }

  /** One pass, in order, each scenario once. */
  predicate PassRows(rows: seq<SimulationRow>, id: Text, revision: nat, results: seq<SimulationResult>) {
    && |rows| == |results|
    && forall i | 0 <= i < |rows| ::
         rows[i] == SimulationRow(id, MandatorySecurity, rows[0].passId, revision, results[i])
  }

  /** What the tables hold about one revision of one build: the paths written, its test rows, and the
      rows of its mandatory pass. */
  datatype Evidence = Evidence(paths: set<Text>, tests: seq<TestRow>, pass: seq<SimulationRow>)

  function EvidenceOf(s: State, id: Text, revision: nat): Evidence {
    Evidence(PathsOf(s, id, revision), TestsOf(s.tests, id, revision), PassOf(s.simulations, id, revision))
  }

  predicate WrittenTo(files: seq<Text>, i: nat, paths: set<Text>) {
    forall j | 0 <= j < i && j < |files| :: files[j] in paths
  }

  predicate Written(files: seq<Text>, paths: set<Text>) {
    WrittenTo(files, |files|, paths)
  }

  /** All that COMPLETED stands for. */
  predicate Earned(policy: Policy, d: Design, id: Text, revision: nat, e: Evidence) {
    && Written(d.files, e.paths) && d.artifactsMatch && SuitePassed(e.tests, id, revision)
    && 0 < |d.planned| <= policy.maxMandatorySimulationsPerPass && AllPassed(d.planned) && !d.dishonest
    && PassRows(e.pass, id, revision, d.planned)
  }

  // ----- the mandatory pass -----

  /** With `prior` earlier passes. The check counts the pass it belongs to from its second scenario on. */
  predicate Admits(policy: Policy, prior: nat, i: nat) {
    prior + (if i > 0 then 1 else 0) <= policy.maxMandatoryPassesPerBuild
  }

  /** How many of `planned` scenarios are recorded, from the i-th on. */
  function StopAt(policy: Policy, prior: nat, planned: nat, inTime: nat -> bool, i: nat): (k: nat)
    requires i <= planned
    ensures i <= k <= planned
    ensures forall j: nat | i <= j < k :: Admits(policy, prior, j) && inTime(j)
    ensures k < planned ==> !(Admits(policy, prior, k) && inTime(k))
    decreases planned - i
  {
    if i < planned && Admits(policy, prior, i) && inTime(i) then StopAt(policy, prior, planned, inTime, i + 1) else i
  }

  function InTime(policy: Policy, startedAt: int, clock: nat -> int): nat -> bool {
    (i: nat) => clock(i) - startedAt <= policy.sandboxWallClockMs
  }

  function Rows(id: Text, revision: nat, passId: PassId, results: seq<SimulationResult>): (rows: seq<SimulationRow>)
    ensures PassRows(rows, id, revision, results)
    ensures forall i | 0 <= i < |rows| :: rows[i] == SimulationRow(id, MandatorySecurity, passId, revision, results[i])
  {
    seq(|results|, i requires 0 <= i < |results| => SimulationRow(id, MandatorySecurity, passId, revision, results[i]))
  }

  // ----- one stretch of a handler -----

  /** What a stretch leaves: the row, where the handler waits next, and what it inserted. */
  datatype Move = Move(row: BuildRow, next: Option<Frame>, tests: seq<TestRow>, sims: seq<SimulationRow>,
                       file: Option<Text>)

  /** An error that nothing classified fails the build, unless it has another status already. */
  function Thrown(row: BuildRow, f: Frame, tests: seq<TestRow>, sims: seq<SimulationRow>, file: Option<Text>): Move {
    Move(if row.status == Running then row.(status := Failed) else row,
         Some(f.(at := Destroying(Threw))), tests, sims, file)
  }

  function Ended(row: BuildRow, f: Frame, ok: bool, tests: seq<TestRow>, sims: seq<SimulationRow>): Move {
    Move(if ok then row.(stage := ExportReady, status := Completed) else row.(status := BuildNeedsUserReview),
         Some(f.(at := Destroying(Returned(ok)))), tests, sims, None)
  }

  function GoOn(row: BuildRow, f: Frame, at: Point): Move {
    Move(row, Some(f.(at := at)), [], [], None)
  }

  function NextWrite(policy: Policy, row: BuildRow, f: Frame, i: nat, now: int, paths: set<Text>,
                     file: Option<Text>): Move {
    if i >= |f.blueprint.design.files| then Move(row, Some(f.(at := Linking)), [], [], file)
    else if |paths| >= policy.generatedFiles || now - f.startedAt > policy.sandboxWallClockMs
      then Thrown(row, f, [], [], file)
    else Move(row, Some(f.(at := Writing(i))), [], [], file)
  }

  function NextRewrite(row: BuildRow, f: Frame, i: nat, tests: seq<TestRow>): Move {
    Move(row, Some(f.(at := if i >= |f.blueprint.design.files| then Compiling else Rewriting(i))), tests, [], None)
  }

  /** The suite has run: on to the simulations, to a repair, or to a person. */
  function AfterSuite(policy: Policy, row: BuildRow, f: Frame, ok: bool, tests: seq<TestRow>): Move {
    if ok then Move(row.(stage := Simulate), Some(f.(at := GettingFixtures)), tests, [], None)
    else if row.repairCycles >= policy.autoRepairLoops then Ended(row, f, false, tests, [])
    else NextRewrite(row.(repairCycles := row.repairCycles + 1, stage := Repair), f, 0, tests)
  }

  /** The final gate, whatever the reviewer said. */
  function Gate(row: BuildRow, f: Frame, recorded: nat, sims: seq<SimulationRow>): Move {
    var d := f.blueprint.design;
    if d.fault == AtHonesty then Thrown(row, f, [], sims, None)
    else Ended(row, f, !d.dishonest && 0 < recorded == |d.planned| && AllPassed(d.planned), [], sims)
  }

  /** The mandatory pass, up to the reviewer. */
  function PassMove(policy: Policy, id: Text, row: BuildRow, f: Frame, a: Answer, prior: nat): Move {
    var d := f.blueprint.design;
    var k := StopAt(policy, prior, |d.planned|, InTime(policy, f.startedAt, a.clock), 0);
    var sims := Rows(id, f.revision, PassId(false, f.revision, a.now), d.planned[..k]);
    Verifying(row, f, k, a.overQuota, sims)
  }

  function Verifying(row: BuildRow, f: Frame, recorded: nat, overQuota: bool, sims: seq<SimulationRow>): Move {
    var now := row.(stage := FinalVerify);
    if f.blueprint.design.fault == AtScore then Thrown(now, f, [], sims, None)
    else if overQuota then Gate(now.(status := BuildLimitReached), f, recorded, sims)
    else Move(now, Some(f.(at := Reviewing(recorded))), [], sims, None)
  }

  function Compiled(id: Text, f: Frame, ok: bool): TestRow {
    TestRow(id, f.revision, Typecheck, if ok then 1 else 0, if ok then 0 else 1)
  }

  function Tested(id: Text, f: Frame, passed: nat, ok: bool): TestRow {
    TestRow(id, f.revision, GeneratedTests, passed, if ok then 0 else 1)
  }

  function AfterCreate(policy: Policy, row: BuildRow, f: Frame, a: Answer, paths: set<Text>): Move {
    if a.threw then Move(row.(status := Failed), None, [], [], None)
    else Rendering(policy, row, f.(startedAt := a.now), a.now, paths)
  }

  function Rendering(policy: Policy, row: BuildRow, f: Frame, now: int, paths: set<Text>): Move {
    if f.blueprint.design.fault == AtRender then Thrown(row, f, [], [], None)
    else NextWrite(policy, row, f, 0, now, paths, None)
  }

  function AfterWrite(policy: Policy, row: BuildRow, f: Frame, i: nat, a: Answer, paths: set<Text>): Move {
    var files := f.blueprint.design.files;
    if a.threw || i >= |files| then Thrown(row, f, [], [], None)
    else NextWrite(policy, row, f, i + 1, a.now, paths + {files[i]}, Some(files[i]))
  }

  function AfterLink(row: BuildRow, f: Frame, a: Answer): Move {
    var d := f.blueprint.design;
    if a.threw || d.fault == AtValidation then Thrown(row, f, [], [], None)
    else if !d.artifactsMatch then Ended(row, f, false, [], [])
    else GoOn(row.(stage := Test), f, Compiling)
  }

  function AfterCompile(policy: Policy, id: Text, row: BuildRow, f: Frame, a: Answer): Move {
    if a.threw then Thrown(row, f, [], [], None)
    else if a.exitCode != 0 then AfterSuite(policy, row, f, false, [Compiled(id, f, false)])
    else Move(row, Some(f.(at := Testing)), [Compiled(id, f, true)], [], None)
  }

  function AfterTests(policy: Policy, id: Text, row: BuildRow, f: Frame, a: Answer): Move {
    if a.threw then Thrown(row, f, [], [], None)
    else AfterSuite(policy, row, f, a.exitCode == 0, [Tested(id, f, a.passed, a.exitCode == 0)])
  }

  function AfterRewrite(row: BuildRow, f: Frame, i: nat, a: Answer): Move {
    if a.threw then Thrown(row, f, [], [], None) else NextRewrite(row, f, i + 1, [])
  }

  function AfterFixtures(policy: Policy, id: Text, row: BuildRow, f: Frame, a: Answer, prior: nat): Move {
    var d := f.blueprint.design;
    if a.threw || d.fault == AtScenarios || |d.planned| > policy.maxMandatorySimulationsPerPass
    then Thrown(row, f, [], [], None)
    else PassMove(policy, id, row, f, a, prior)
  }

  function AfterReview(row: BuildRow, f: Frame, recorded: nat, a: Answer): Move {
    Gate(if a.upstream then row.(status := BuildPausedUpstreamLimit) else row, f, recorded, [])
  }

  /** From one `await` to the next. */
  function MoveOf(policy: Policy, id: Text, row: BuildRow, f: Frame, a: Answer, paths: set<Text>, prior: nat): Move {
    match f.at
    case Creating => AfterCreate(policy, row, f, a, paths)
    case Writing(i) => AfterWrite(policy, row, f, i, a, paths)
    case Linking => AfterLink(row, f, a)
    case Compiling => AfterCompile(policy, id, row, f, a)
    case Testing => AfterTests(policy, id, row, f, a)
    case Rewriting(i) => AfterRewrite(row, f, i, a)
    case GettingFixtures => AfterFixtures(policy, id, row, f, a, prior)
    case Reviewing(recorded) => AfterReview(row, f, recorded, a)
    case Destroying(_) => Move(row, None, [], [], None)
  }

  // ----- steps -----

  predicate Completes(f: Frame, m: Move) {
    !f.at.Destroying? && m.next.Some? && m.next.value.at == Destroying(Returned(true))
  }

  function Latest(completedAt: map<Text, nat>, id: Text, revision: nat): map<Text, nat> {
    if id in completedAt && completedAt[id] >= revision then completedAt else completedAt[id := revision]
  }

  /** Carries out one stretch of a handler of `id`. The sandboxes are kept by build. */
  function Put(s: State, id: Text, f: Frame, m: Move): State {
    var k := (id, f.revision);
    s.(builds := s.builds[id := m.row],
       artifacts := if m.file.Some? then s.artifacts[k := PathsOf(s, id, f.revision) + {m.file.value}] else s.artifacts,
       tests := s.tests + m.tests,
       simulations := s.simulations + m.sims,
       sandboxes := if f.at.Creating? then (if m.next.Some? then s.sandboxes + {id} else s.sandboxes)
                    else if m.next.Some? then s.sandboxes else s.sandboxes - {id},
       calls := if m.next.Some? then s.calls[k := m.next.value] else s.calls - {k},
       completedAt := if Completes(f, m) then Latest(s.completedAt, id, f.revision) else s.completedAt)
  }

  function MoveAt(policy: Policy, s: State, id: Text, revision: nat, a: Answer): Move
    requires id in s.builds && (id, revision) in s.calls
  {
    MoveOf(policy, id, s.builds[id], s.calls[(id, revision)], a, PathsOf(s, id, revision), |PassIds(s.simulations, id)|)
  }

  function Resume(policy: Policy, s: State, id: Text, revision: nat, a: Answer): State {
    if (id, revision) !in s.calls || id !in s.builds then s
    else Put(s, id, s.calls[(id, revision)], MoveAt(policy, s, id, revision, a))
  }

  datatype StartReply = NoSuchBuild | NotApproved | NoBlueprint | Started

  function StartReplyOf(s: State, id: Text): StartReply {
    if id !in s.builds then NoSuchBuild
    else if !s.builds[id].approved then NotApproved
    else if id !in s.blueprints then NoBlueprint
    else Started
  }

  /** `runBuild`, up to the creation of its sandbox. Nothing stops a second one of the same build. */
  function Start(s: State, id: Text): State {
    if !StartReplyOf(s, id).Started? then s else
      var row, revision := s.builds[id], s.builds[id].buildRevision + 1;
      s.(builds := s.builds[id := row.(buildRevision := revision, status := Running, stage := Build)],
         built := s.built[(id, revision) := s.blueprints[id]],
         calls := s.calls[(id, revision) := Frame(revision, s.blueprints[id], 0, Creating)])
  }

  datatype CreateReply = Existing(id: Text) | OverQuota | KeyTaken | Created(id: Text)

  /** An idempotency key that was used gives the build it was used for. The empty key is not looked up, but its
      index is unique all the same: a second insertion under it throws. */
  function CreateReplyOf(s: State, id: Text, key: Option<Text>, affordable: bool): CreateReply {
    var used := key.Some? && key.value in s.byKey;
    if used && key.value != [] then Existing(s.byKey[key.value])
    else if !affordable then OverQuota
    else if used then KeyTaken
    else Created(id)
  }

  function Create(s: State, id: Text, key: Option<Text>, affordable: bool): State {
    if CreateReplyOf(s, id, key, affordable).Created? then Insert(s, id, key) else s
  }

  function Insert(s: State, id: Text, key: Option<Text>): State {
    s.(builds := s.builds[id := BuildRow(Intake, Running, 0, 0, false)],
       byKey := if key.Some? then s.byKey[key.value := id] else s.byKey)
  }

  function WithRow(s: State, id: Text, row: BuildRow): State {
    s.(builds := s.builds[id := row])
  }

  /** The current Blueprint is the one of the highest revision; a redesign saves revision 1 again. */
  function Save(s: State, id: Text, revision: nat, design: Design): State {
    s.(saves := s.saves + 1,
       blueprints := if id in s.blueprints && s.blueprints[id].revision > revision then s.blueprints
                     else s.blueprints[id := Blueprint(revision, s.saves, design)])
  }

  /** The design stages save what they assembled, and wait for its review. */
  function DesignSaved(s: State, id: Text, design: Design): State {
    if id !in s.builds then s else WithRow(Save(s, id, 1, design), id, s.builds[id].(stage := SecurityReview))
  }

  /** The end of the design stages: a person is asked only for a buildable Blueprint. */
  function DesignDone(s: State, id: Text, buildable: bool): State {
    if id !in s.builds then s else
      var row := s.builds[id];
      WithRow(s, id,
              if buildable then row.(stage := AtApproval, status := AwaitingApproval)
              else row.(stage := SecurityReview, status := BuildNeedsUserReview))
  }

  /** A model call of the design stages that was refused, by the quota or upstream. */
  function DesignLimited(s: State, id: Text, upstream: bool): State {
    if id !in s.builds then s
    else WithRow(s, id, s.builds[id].(status := if upstream then BuildPausedUpstreamLimit else BuildLimitReached))
  }

  function DesignStage(s: State, id: Text, stage: Stage): State {
    if id !in s.builds then s else WithRow(s, id, s.builds[id].(stage := stage))
  }

  /** An edit adds a revision, and leaves the approval as it is. */
  function Edit(s: State, id: Text, design: Design): State {
    if id !in s.blueprints then s else Save(s, id, s.blueprints[id].revision + 1, design)
  }

  predicate CanApprove(s: State, id: Text, criticals: set<Text>, acknowledged: set<Text>) {
    id in s.builds && s.builds[id].stage == AtApproval && criticals <= acknowledged
  }

  function Approve(s: State, id: Text, criticals: set<Text>, acknowledged: set<Text>): State {
    if !CanApprove(s, id, criticals, acknowledged) then s else WithRow(s, id, s.builds[id].(approved := true))
  }

  predicate CanAbandon(s: State, id: Text) {
    id in s.builds && s.builds[id].status != Completed && s.builds[id].status != Abandoned
  }

  function Abandon(s: State, id: Text): State {
    if !CanAbandon(s, id) then s else WithRow(s, id, s.builds[id].(status := Abandoned))
  }

  function UserRows(id: Text, revision: nat, at: int, results: seq<SimulationResult>): (rows: seq<SimulationRow>)
    ensures |rows| == |results|
    ensures forall i | 0 <= i < |rows| ::
              rows[i] == SimulationRow(id, UserRequested, PassId(true, revision, at), revision, results[i])
  {
    seq(|results|, i requires 0 <= i < |results| =>
          SimulationRow(id, UserRequested, PassId(true, revision, at), revision, results[i]))
  }

  /** How many more scenarios a user may ask for. */
  function Room(policy: Policy, rows: seq<SimulationRow>, id: Text): nat {
    if UserCount(rows, id) < policy.userRequestedSimulationsPerBuild
    then policy.userRequestedSimulationsPerBuild - UserCount(rows, id) else 0
  }

  function Fitting(policy: Policy, rows: seq<SimulationRow>, id: Text, n: nat): (k: nat)
    ensures k <= n
  {
    if Room(policy, rows, id) < n then Room(policy, rows, id) else n
  }

  /** The synchronous part of `runUserSimulations`: what is asked is recorded while the allowance lasts. */
  function UserSimulations(policy: Policy, s: State, id: Text, revision: nat, at: int,
                           results: seq<SimulationResult>): State {
    if id !in s.builds then s
    else s.(simulations := s.simulations
                           + UserRows(id, revision, at, results[..Fitting(policy, s.simulations, id, |results|)]))
  }

  function Orphaned(row: BuildRow): BuildRow {
    if row.status == Running then row.(status := Abandoned) else row
  }

  /** The process restarts: handlers and sandboxes are gone, and what was RUNNING is released. */
  function Restart(s: State): State {
    s.(builds := map id | id in s.builds :: Orphaned(s.builds[id]), sandboxes := {}, calls := map[])
  }

  // ----- runs -----

  datatype Event =
    | DoCreate(id: Text, key: Option<Text>, affordable: bool)
    | DoDesignStage(id: Text, stage: Stage)
    | DoDesignLimited(id: Text, upstream: bool)
    | DoDesignSaved(id: Text, design: Design)
    | DoDesignDone(id: Text, buildable: bool)
    | DoEdit(id: Text, design: Design)
    | DoApprove(id: Text, criticals: set<Text>, acknowledged: set<Text>)
    | DoAbandon(id: Text)
    | DoStart(id: Text)
    | DoResume(id: Text, revision: nat, answer: Answer)
    | DoUserSimulations(id: Text, revision: nat, at: int, results: seq<SimulationResult>)
    | DoRestart

  function Step(policy: Policy, s: State, e: Event): State {
    match e
    case DoCreate(id, key, affordable) => Create(s, id, key, affordable)
    case DoDesignStage(id, stage) => DesignStage(s, id, stage)
    case DoDesignLimited(id, upstream) => DesignLimited(s, id, upstream)
    case DoDesignSaved(id, design) => DesignSaved(s, id, design)
    case DoDesignDone(id, buildable) => DesignDone(s, id, buildable)
    case DoEdit(id, design) => Edit(s, id, design)
    case DoApprove(id, criticals, acknowledged) => Approve(s, id, criticals, acknowledged)
    case DoAbandon(id) => Abandon(s, id)
    case DoStart(id) => Start(s, id)
    case DoResume(id, revision, a) => Resume(policy, s, id, revision, a)
    case DoUserSimulations(id, revision, at, results) => UserSimulations(policy, s, id, revision, at, results)
    case DoRestart => Restart(s)
  }

  /** Build ids are drawn at random and new; simulations a user asks for name a revision the build has had;
      the first stages of the design set only their own stages. */
  predicate ProperFor(builds: map<Text, BuildRow>, e: Event) {
    match e
    case DoCreate(id, _, _) => id !in builds
    case DoUserSimulations(id, revision, _, _) => id in builds ==> revision <= builds[id].buildRevision
    case DoDesignStage(_, stage) => stage == Requirements || stage == BlueprintStage
    case _ => true
  }

  predicate Proper(s: State, e: Event) {
    ProperFor(s.builds, e)
  }

  predicate NextAt(policy: Policy, es: seq<Event>, ss: seq<State>, q: int) {
    0 <= q < |es| && |ss| == |es| + 1 ==> Proper(ss[q], es[q]) && ss[q + 1] == Step(policy, ss[q], es[q])
  }

  /** A run: the events, and the state before the first and after each of them. */
  ghost predicate IsRun(policy: Policy, es: seq<Event>, ss: seq<State>) {
    |ss| == |es| + 1 && ss[0] == INIT && forall q :: NextAt(policy, es, ss, q)
  }

  // ----- what every run keeps -----

  /** Every file is written, the artifacts match, and no pass has begun. */
  predicate Prepared(d: Design, e: Evidence) {
    Written(d.files, e.paths) && d.artifactsMatch && e.pass == []
  }

  /** What holds while the handler of a build waits at a point. */
  predicate PointOk(policy: Policy, id: Text, at: Point, d: Design, revision: nat, e: Evidence) {
    match at
    case Creating => e.pass == [] && e.paths == {}
    case Writing(i) =>
      i < |d.files| && |e.paths| < policy.generatedFiles && WrittenTo(d.files, i, e.paths) && e.pass == []
    case Linking => Written(d.files, e.paths) && e.pass == []
    case Compiling => Prepared(d, e)
    case Rewriting(i) => Prepared(d, e) && i < |d.files|
    case Testing =>
      Prepared(d, e) && e.tests != [] && e.tests[|e.tests| - 1] == TestRow(id, revision, Typecheck, 1, 0)
    case GettingFixtures => Prepared(d, e) && SuitePassed(e.tests, id, revision)
    case Reviewing(k) =>
      && Written(d.files, e.paths) && d.artifactsMatch && SuitePassed(e.tests, id, revision)
      && k <= |d.planned| <= policy.maxMandatorySimulationsPerPass
      && PassRows(e.pass, id, revision, d.planned[..k])
    case Destroying(outcome) => outcome.Returned? ==> (outcome.ok <==> Earned(policy, d, id, revision, e))
  }

  /** A build with a handler was approved; the handler builds what it read when it was started. */
  predicate CallOk(policy: Policy, s: State, id: Text, revision: nat)
    requires id in s.builds && (id, revision) in s.calls
  {
    var f := s.calls[(id, revision)];
    && s.builds[id].approved && 0 < revision <= s.builds[id].buildRevision && f.revision == revision
    && (id, revision) in s.built && s.built[(id, revision)] == f.blueprint
    && PointOk(policy, id, f.at, f.blueprint.design, revision, EvidenceOf(s, id, revision))
    && (f.at == Destroying(Returned(true)) ==> id in s.completedAt && revision <= s.completedAt[id])
  }

  /** The latest revision that returned ok has earned it, and its handler does nothing any more. */
  predicate DoneOk(policy: Policy, s: State, id: Text)
    requires id in s.builds && id in s.completedAt
  {
    && s.builds[id].approved && 0 < s.completedAt[id] <= s.builds[id].buildRevision
    && var k := (id, s.completedAt[id]);
       && k in s.built && Earned(policy, s.built[k].design, id, k.1, EvidenceOf(s, id, k.1))
       && (k in s.calls ==> s.calls[k].at == Destroying(Returned(true)))
  }

  predicate PastCreating(s: State, id: Text, r: nat) {
    (id, r) in s.calls && !s.calls[(id, r)].at.Creating?
  }

  /** A sandbox is held only while some handler of the build is past its creation. */
  ghost predicate SandboxOk(s: State, id: Text) {
    id in s.sandboxes ==> exists r: nat :: PastCreating(s, id, r)
  }

  /** Somebody works on what is RUNNING. */
  predicate RunningOk(s: State, id: Text)
    requires id in s.builds
  {
    var k := (id, s.builds[id].buildRevision);
    s.builds[id].status == Running ==> k.1 == 0 || (k in s.calls && !s.calls[k].at.Destroying?)
  }

  ghost predicate RowOk(policy: Policy, s: State, id: Text)
    requires id in s.builds
  {
    && s.builds[id].repairCycles <= policy.autoRepairLoops && RunningOk(s, id)
    && (s.builds[id].status == Completed ==> id in s.completedAt)
    && (id in s.completedAt ==> DoneOk(policy, s, id))
    && SandboxOk(s, id)
  }

  ghost predicate CallsOk(policy: Policy, s: State, id: Text)
    requires id in s.builds
  {
    forall r: nat | (id, r) in s.calls :: CallOk(policy, s, id, r)
  }

  ghost predicate BuildOk(policy: Policy, s: State, id: Text) {
    id in s.builds && RowOk(policy, s, id) && CallsOk(policy, s, id)
  }

  ghost predicate AllOk(policy: Policy, s: State) {
    forall id | id in s.builds :: BuildOk(policy, s, id)
  }

  /** Rows, handlers, sandboxes and keys belong to builds, and to revisions they have had. */
  ghost predicate Known(s: State) {
    && (forall i | 0 <= i < |s.tests| ::
          s.tests[i].build in s.builds && s.tests[i].revision <= s.builds[s.tests[i].build].buildRevision)
    && (forall i | 0 <= i < |s.simulations| :: RowKnown(s.builds, s.simulations[i]))
    && s.sandboxes <= s.builds.Keys && s.completedAt.Keys <= s.builds.Keys
    && (forall k | k in s.byKey :: s.byKey[k] in s.builds)
    && KeysKnown(s.builds, s.calls.Keys) && KeysKnown(s.builds, s.built.Keys) && KeysKnown(s.builds, s.artifacts.Keys)
  }

  predicate KeysKnown(builds: map<Text, BuildRow>, keys: set<(Text, nat)>) {
    forall k | k in keys :: k.0 in builds && k.1 <= builds[k.0].buildRevision
  }

  predicate RowKnown(builds: map<Text, BuildRow>, r: SimulationRow) {
    && r.build in builds && r.revision <= builds[r.build].buildRevision
    && r.cls != AdapterRegression && r.passId == PassId(r.cls == UserRequested, r.revision, r.passId.at)
  }

  predicate BoundedFor(policy: Policy, rows: seq<SimulationRow>, id: Text) {
    && |PassIds(rows, id)| <= policy.maxMandatoryPassesPerBuild + 1
    && UserCount(rows, id) <= policy.userRequestedSimulationsPerBuild
  }

  /** One mandatory pass more than the ceiling, because a pass is counted once it has a row. */
  ghost predicate Bounded(policy: Policy, s: State) {
    && (forall id: Text :: BoundedFor(policy, s.simulations, id))
    && (forall k | k in s.artifacts :: |s.artifacts[k]| <= policy.generatedFiles)
  }

  ghost predicate Inv(policy: Policy, s: State) {
    Known(s) && Bounded(policy, s) && AllOk(policy, s)
  }

  // ----- one stretch keeps what its build must satisfy -----

  predicate RowsOf(id: Text, revision: nat, tests: seq<TestRow>, sims: seq<SimulationRow>) {
    && (forall i | 0 <= i < |tests| :: tests[i].build == id && tests[i].revision == revision)
    && (forall i | 0 <= i < |sims| ::
          InPassOf(sims[i], id, revision) && sims[i].passId == PassId(false, revision, sims[i].passId.at))
  }

  function Added(e: Evidence, m: Move): Evidence {
    Evidence(if m.file.Some? then e.paths + {m.file.value} else e.paths, e.tests + m.tests, e.pass + m.sims)
  }

  /** What becomes of a status. */
  predicate StatusOk(row: BuildRow, f: Frame, m: Move) {
    if f.at.Destroying? then m == Move(row, None, [], [], None)
    else
      && (m.row.status == Running ==> row.status == Running && m.next.Some? && !m.next.value.at.Destroying?)
      && (m.row.status == Completed ==> row.status == Completed || Completes(f, m))
      && (Completes(f, m) ==> m.row.status == Completed)
      && (m.next.Some? ==> !m.next.value.at.Creating?) && (m.next.None? ==> f.at.Creating?)
  }

  /** What every move must be: it changes only its own build and revision, and leaves the handler at a
      point where what must hold there holds. */
  predicate MoveOk(policy: Policy, id: Text, row: BuildRow, f: Frame, e: Evidence, m: Move) {
    && m.row.buildRevision == row.buildRevision && m.row.approved == row.approved
    && m.row.repairCycles <= policy.autoRepairLoops && StatusOk(row, f, m)
    && RowsOf(id, f.revision, m.tests, m.sims) && (m.file.Some? ==> |e.paths| < policy.generatedFiles)
    && (m.next.Some? ==>
          var g := m.next.value;
          && g.revision == f.revision && g.blueprint == f.blueprint
          && PointOk(policy, id, g.at, f.blueprint.design, f.revision, Added(e, m)))
  }

  /** A row that the stretch has changed so far. */
  predicate RowSoFar(policy: Policy, row: BuildRow, now: BuildRow) {
    && now.buildRevision == row.buildRevision && now.approved == row.approved
    && now.repairCycles <= policy.autoRepairLoops
    && (now.status == Running || now.status == Completed ==> now.status == row.status)
  }

  lemma ThrownOk(policy: Policy, id: Text, row: BuildRow, f: Frame, e: Evidence, now: BuildRow, g: Frame,
                 tests: seq<TestRow>, sims: seq<SimulationRow>, file: Option<Text>)
    requires !f.at.Destroying? && g == f.(startedAt := g.startedAt) && RowSoFar(policy, row, now)
    requires RowsOf(id, f.revision, tests, sims) && (file.Some? ==> |e.paths| < policy.generatedFiles)
    ensures MoveOk(policy, id, row, f, e, Thrown(now, g, tests, sims, file))
  {
  }

  lemma EndedOk(policy: Policy, id: Text, row: BuildRow, f: Frame, e: Evidence, now: BuildRow, ok: bool,
                tests: seq<TestRow>, sims: seq<SimulationRow>)
    requires !f.at.Destroying? && RowSoFar(policy, row, now) && RowsOf(id, f.revision, tests, sims)
    requires ok <==> Earned(policy, f.blueprint.design, id, f.revision,
                            Evidence(e.paths, e.tests + tests, e.pass + sims))
    ensures MoveOk(policy, id, row, f, e, Ended(now, f, ok, tests, sims))
  {
  }

  /** Waiting again. */
  lemma WaitsOk(policy: Policy, id: Text, row: BuildRow, f: Frame, e: Evidence, m: Move)
    requires !f.at.Destroying? && RowSoFar(policy, row, m.row) && RowsOf(id, f.revision, m.tests, m.sims)
    requires m.next.Some? && !m.next.value.at.Creating? && !m.next.value.at.Destroying?
    requires m.next.value.revision == f.revision && m.next.value.blueprint == f.blueprint
    requires m.file.Some? ==> |e.paths| < policy.generatedFiles
    requires PointOk(policy, id, m.next.value.at, f.blueprint.design, f.revision, Added(e, m))
    ensures MoveOk(policy, id, row, f, e, m)
  {
  }

  /** With no row added. */
  lemma SameRows(e: Evidence, m: Move)
    ensures m.tests == [] ==> Added(e, m).tests == e.tests
    ensures m.sims == [] ==> Added(e, m).pass == e.pass
  {
    assert e.tests + [] == e.tests && e.pass + [] == e.pass;
  }

  lemma NextWriteOk(policy: Policy, id: Text, row: BuildRow, f: Frame, e: Evidence, g: Frame, i: nat, now: int,
                    file: Option<Text>)
    requires !f.at.Destroying? && g == f.(startedAt := g.startedAt) && RowSoFar(policy, row, row) && e.pass == []
    requires file.Some? ==> |e.paths| < policy.generatedFiles
    requires var paths := if file.Some? then e.paths + {file.value} else e.paths;
             WrittenTo(f.blueprint.design.files, i, paths)
    ensures var paths := if file.Some? then e.paths + {file.value} else e.paths;
            MoveOk(policy, id, row, f, e, NextWrite(policy, row, g, i, now, paths, file))
  {
    var paths := if file.Some? then e.paths + {file.value} else e.paths;
    var m := NextWrite(policy, row, g, i, now, paths, file);
    if m.next.value.at.Destroying? {
      ThrownOk(policy, id, row, f, e, row, g, [], [], file);
    } else {
      SameRows(e, m);
      WaitsOk(policy, id, row, f, e, m);
    }
  }

  lemma AfterSuiteOk(policy: Policy, id: Text, row: BuildRow, f: Frame, e: Evidence, ok: bool, tests: seq<TestRow>)
    requires !f.at.Destroying? && RowSoFar(policy, row, row)
    requires Prepared(f.blueprint.design, e) && RowsOf(id, f.revision, tests, [])
    requires ok <==> SuitePassed(e.tests + tests, id, f.revision)
    ensures MoveOk(policy, id, row, f, e, AfterSuite(policy, row, f, ok, tests))
  {
    var m := AfterSuite(policy, row, f, ok, tests);
    if m.next.value.at.Destroying? {
      EndedOk(policy, id, row, f, e, row, false, tests, []);
    } else {
      SameRows(e, m);
      WaitsOk(policy, id, row, f, e, m);
    }
  }

  lemma RowsAreWhole(id: Text, revision: nat, rows: seq<SimulationRow>, planned: seq<SimulationResult>, k: nat)
    requires k <= |planned| && PassRows(rows, id, revision, planned[..k])
    ensures PassRows(rows, id, revision, planned) <==> k == |planned|
    ensures k == |planned| ==> planned[..k] == planned
  {
  }

  lemma GateOk(policy: Policy, id: Text, row: BuildRow, f: Frame, e: Evidence, now: BuildRow, k: nat,
               sims: seq<SimulationRow>)
    requires !f.at.Destroying? && RowSoFar(policy, row, now) && RowsOf(id, f.revision, [], sims)
    requires var d := f.blueprint.design;
             && Written(d.files, e.paths) && d.artifactsMatch && SuitePassed(e.tests, id, f.revision)
             && k <= |d.planned| <= policy.maxMandatorySimulationsPerPass
             && PassRows(e.pass + sims, id, f.revision, d.planned[..k])
    ensures MoveOk(policy, id, row, f, e, Gate(now, f, k, sims))
  {
    var d := f.blueprint.design;
    if d.fault == AtHonesty {
      ThrownOk(policy, id, row, f, e, now, f, [], sims, None);
    } else {
      RowsAreWhole(id, f.revision, e.pass + sims, d.planned, k);
      assert e.tests + [] == e.tests;
      EndedOk(policy, id, row, f, e, now, !d.dishonest && 0 < k == |d.planned| && AllPassed(d.planned), [], sims);
    }
  }

  lemma PassMoveOk(policy: Policy, id: Text, row: BuildRow, f: Frame, e: Evidence, a: Answer, prior: nat)
    requires f.at == GettingFixtures && RowSoFar(policy, row, row)
    requires PointOk(policy, id, f.at, f.blueprint.design, f.revision, e)
    requires |f.blueprint.design.planned| <= policy.maxMandatorySimulationsPerPass
    ensures MoveOk(policy, id, row, f, e, PassMove(policy, id, row, f, a, prior))
  {
    var d := f.blueprint.design;
    var k := StopAt(policy, prior, |d.planned|, InTime(policy, f.startedAt, a.clock), 0);
    var sims := Rows(id, f.revision, PassId(false, f.revision, a.now), d.planned[..k]);
    var now := row.(stage := FinalVerify);
    assert e.pass + sims == sims && e.tests + [] == e.tests;
    if d.fault == AtScore {
      ThrownOk(policy, id, row, f, e, now, f, [], sims, None);
    } else if a.overQuota {
      GateOk(policy, id, row, f, e, now.(status := BuildLimitReached), k, sims);
    } else {
      WaitsOk(policy, id, row, f, e, PassMove(policy, id, row, f, a, prior));
    }
  }

  /** Whatever a call out answers, the stretch that follows keeps its build as it must be. */
  lemma MoveKeeps(policy: Policy, id: Text, row: BuildRow, f: Frame, e: Evidence, a: Answer, prior: nat)
    requires row.repairCycles <= policy.autoRepairLoops && PointOk(policy, id, f.at, f.blueprint.design, f.revision, e)
    ensures MoveOk(policy, id, row, f, e, MoveOf(policy, id, row, f, a, e.paths, prior))
  {
    match f.at {
      case Creating => CreatingOk(policy, id, row, f, e, a);
      case Writing(i) => WritingOk(policy, id, row, f, e, a);
      case Linking => LinkingOk(policy, id, row, f, e, a);
      case Compiling => CompilingOk(policy, id, row, f, e, a);
      case Testing => TestingOk(policy, id, row, f, e, a);
      case Rewriting(i) => RewritingOk(policy, id, row, f, e, a);
      case GettingFixtures => FixturesOk(policy, id, row, f, e, a, prior);
      case Reviewing(k) => ReviewingOk(policy, id, row, f, e, a);
      case Destroying(_) =>
    }
  }

  lemma CreatingOk(policy: Policy, id: Text, row: BuildRow, f: Frame, e: Evidence, a: Answer)
    requires row.repairCycles <= policy.autoRepairLoops && PointOk(policy, id, f.at, f.blueprint.design, f.revision, e)
    requires f.at.Creating?
    ensures MoveOk(policy, id, row, f, e, MoveOf(policy, id, row, f, a, e.paths, 0))
  {
    var g := f.(startedAt := a.now);
    if a.threw {
    } else if f.blueprint.design.fault == AtRender {
      ThrownOk(policy, id, row, f, e, row, g, [], [], None);
    } else {
      NextWriteOk(policy, id, row, f, e, g, 0, a.now, None);
    }
  }

  lemma WritingOk(policy: Policy, id: Text, row: BuildRow, f: Frame, e: Evidence, a: Answer)
    requires row.repairCycles <= policy.autoRepairLoops && PointOk(policy, id, f.at, f.blueprint.design, f.revision, e)
    requires f.at.Writing?
    ensures MoveOk(policy, id, row, f, e, MoveOf(policy, id, row, f, a, e.paths, 0))
  {
    if a.threw {
      ThrownOk(policy, id, row, f, e, row, f, [], [], None);
    } else {
      NextWriteOk(policy, id, row, f, e, f, f.at.i + 1, a.now, Some(f.blueprint.design.files[f.at.i]));
    }
  }

  lemma LinkingOk(policy: Policy, id: Text, row: BuildRow, f: Frame, e: Evidence, a: Answer)
    requires row.repairCycles <= policy.autoRepairLoops && PointOk(policy, id, f.at, f.blueprint.design, f.revision, e)
    requires f.at.Linking?
    ensures MoveOk(policy, id, row, f, e, MoveOf(policy, id, row, f, a, e.paths, 0))
  {
    var d := f.blueprint.design;
    if a.threw || d.fault == AtValidation {
      ThrownOk(policy, id, row, f, e, row, f, [], [], None);
    } else if !d.artifactsMatch {
      EndedOk(policy, id, row, f, e, row, false, [], []);
    } else {
      var m := GoOn(row.(stage := Test), f, Compiling);
      SameRows(e, m);
      WaitsOk(policy, id, row, f, e, m);
    }
  }

  lemma LastOfAppend<T>(xs: seq<T>, x: T)
    ensures (xs + [x])[|xs|] == x && |xs + [x]| == |xs| + 1
    ensures xs != [] ==> (xs + [x])[|xs| - 1] == xs[|xs| - 1]
  {
  }

  lemma CompilingOk(policy: Policy, id: Text, row: BuildRow, f: Frame, e: Evidence, a: Answer)
    requires row.repairCycles <= policy.autoRepairLoops && PointOk(policy, id, f.at, f.blueprint.design, f.revision, e)
    requires f.at.Compiling?
    ensures MoveOk(policy, id, row, f, e, MoveOf(policy, id, row, f, a, e.paths, 0))
  {
    var r := Compiled(id, f, a.exitCode == 0);
    LastOfAppend(e.tests, r);
    if a.threw {
      ThrownOk(policy, id, row, f, e, row, f, [], [], None);
    } else if a.exitCode != 0 {
      AfterSuiteOk(policy, id, row, f, e, false, [r]);
    } else {
      var m := Move(row, Some(f.(at := Testing)), [r], [], None);
      SameRows(e, m);
      WaitsOk(policy, id, row, f, e, m);
    }
  }

  lemma TestingOk(policy: Policy, id: Text, row: BuildRow, f: Frame, e: Evidence, a: Answer)
    requires row.repairCycles <= policy.autoRepairLoops && PointOk(policy, id, f.at, f.blueprint.design, f.revision, e)
    requires f.at.Testing?
    ensures MoveOk(policy, id, row, f, e, MoveOf(policy, id, row, f, a, e.paths, 0))
  {
    var r := Tested(id, f, a.passed, a.exitCode == 0);
    LastOfAppend(e.tests, r);
    if a.threw {
      ThrownOk(policy, id, row, f, e, row, f, [], [], None);
    } else {
      AfterSuiteOk(policy, id, row, f, e, a.exitCode == 0, [r]);
    }
  }

  lemma RewritingOk(policy: Policy, id: Text, row: BuildRow, f: Frame, e: Evidence, a: Answer)
    requires row.repairCycles <= policy.autoRepairLoops && PointOk(policy, id, f.at, f.blueprint.design, f.revision, e)
    requires f.at.Rewriting?
    ensures MoveOk(policy, id, row, f, e, MoveOf(policy, id, row, f, a, e.paths, 0))
  {
    if a.threw {
      ThrownOk(policy, id, row, f, e, row, f, [], [], None);
    } else {
      var m := NextRewrite(row, f, f.at.i + 1, []);
      SameRows(e, m);
      WaitsOk(policy, id, row, f, e, m);
    }
  }

  lemma FixturesOk(policy: Policy, id: Text, row: BuildRow, f: Frame, e: Evidence, a: Answer, prior: nat)
    requires row.repairCycles <= policy.autoRepairLoops && PointOk(policy, id, f.at, f.blueprint.design, f.revision, e)
    requires f.at.GettingFixtures?
    ensures MoveOk(policy, id, row, f, e, MoveOf(policy, id, row, f, a, e.paths, prior))
  {
    var d := f.blueprint.design;
    if a.threw || d.fault == AtScenarios || |d.planned| > policy.maxMandatorySimulationsPerPass {
      ThrownOk(policy, id, row, f, e, row, f, [], [], None);
    } else {
      PassMoveOk(policy, id, row, f, e, a, prior);
    }
  }

  lemma ReviewingOk(policy: Policy, id: Text, row: BuildRow, f: Frame, e: Evidence, a: Answer)
    requires row.repairCycles <= policy.autoRepairLoops && PointOk(policy, id, f.at, f.blueprint.design, f.revision, e)
    requires f.at.Reviewing?
    ensures MoveOk(policy, id, row, f, e, MoveOf(policy, id, row, f, a, e.paths, 0))
  {
    assert e.pass + [] == e.pass;
    var now := if a.upstream then row.(status := BuildPausedUpstreamLimit) else row;
    GateOk(policy, id, row, f, e, now, f.at.recorded, []);
  }

  // ----- every step keeps every build as it must be -----

  lemma Snoc<T>(xs: seq<T>, more: seq<T>)
    requires more != []
    ensures var n := |more| - 1; xs + more == (xs + more[..n]) + [more[n]] && more == more[..n] + [more[n]]
  {
  }

  lemma TestsAdd(tests: seq<TestRow>, r: TestRow, k: Text, revision: nat)
    ensures TestsOf(tests + [r], k, revision)
         == TestsOf(tests, k, revision) + (if r.build == k && r.revision == revision then [r] else [])
  {
    assert (tests + [r])[..|tests|] == tests;
  }

  lemma {:induction false} TestsAppend(tests: seq<TestRow>, more: seq<TestRow>, id: Text, revision: nat, k: Text,
                                       r: nat)
    requires forall i | 0 <= i < |more| :: more[i].build == id && more[i].revision == revision
    ensures TestsOf(tests + more, k, r) == TestsOf(tests, k, r) + (if k == id && r == revision then more else [])
  {
    if more == [] {
      assert tests + more == tests;
    } else {
      var n := |more| - 1;
      TestsAppend(tests, more[..n], id, revision, k, r);
      Snoc(tests, more);
      TestsAdd(tests + more[..n], more[n], k, r);
      Assoc(TestsOf(tests, k, r), more[..n], [more[n]]);
    }
  }

  lemma PassAdd(rows: seq<SimulationRow>, row: SimulationRow, k: Text, revision: nat)
    ensures PassOf(rows + [row], k, revision)
         == PassOf(rows, k, revision) + (if InPassOf(row, k, revision) then [row] else [])
  {
    assert (rows + [row])[..|rows|] == rows;
  }

  lemma {:induction false} PassAppend(rows: seq<SimulationRow>, more: seq<SimulationRow>, id: Text, revision: nat,
                                      k: Text, r: nat)
    requires forall i | 0 <= i < |more| :: InPassOf(more[i], id, revision)
    ensures PassOf(rows + more, k, r) == PassOf(rows, k, r) + (if k == id && r == revision then more else [])
  {
    if more == [] {
      assert rows + more == rows;
    } else {
      var n := |more| - 1;
      PassAppend(rows, more[..n], id, revision, k, r);
      Snoc(rows, more);
      PassAdd(rows + more[..n], more[n], k, r);
      Assoc(PassOf(rows, k, r), more[..n], [more[n]]);
    }
  }

  lemma {:induction false} PassSkipsUsers(rows: seq<SimulationRow>, more: seq<SimulationRow>, k: Text, r: nat)
    requires forall i | 0 <= i < |more| :: more[i].cls == UserRequested
    ensures PassOf(rows + more, k, r) == PassOf(rows, k, r)
  {
    if more == [] {
      assert rows + more == rows;
    } else {
      var n := |more| - 1;
      PassSkipsUsers(rows, more[..n], k, r);
      assert (rows + more)[..|rows + more| - 1] == rows + more[..n];
    }
  }

  lemma {:induction false} NoTests(tests: seq<TestRow>, id: Text, revision: nat)
    requires forall i | 0 <= i < |tests| && tests[i].build == id :: tests[i].revision < revision
    ensures TestsOf(tests, id, revision) == []
  {
    if tests != [] { NoTests(tests[..|tests| - 1], id, revision); }
  }

  lemma {:induction false} NoPass(rows: seq<SimulationRow>, id: Text, revision: nat)
    requires forall i | 0 <= i < |rows| && rows[i].build == id :: rows[i].revision < revision
    ensures PassOf(rows, id, revision) == []
  {
    if rows != [] { NoPass(rows[..|rows| - 1], id, revision); }
  }

  lemma PutTests(tests: seq<TestRow>, more: seq<TestRow>, id: Text, revision: nat, k: Text, r: nat)
    requires forall i | 0 <= i < |more| :: more[i].build == id && more[i].revision == revision
    ensures TestsOf(tests + more, k, r)
         == if k == id && r == revision then TestsOf(tests, k, r) + more else TestsOf(tests, k, r)
  {
    TestsAppend(tests, more, id, revision, k, r);
    assert TestsOf(tests, k, r) + [] == TestsOf(tests, k, r);
  }

  lemma PutPass(rows: seq<SimulationRow>, more: seq<SimulationRow>, id: Text, revision: nat, k: Text, r: nat)
    requires forall i | 0 <= i < |more| :: InPassOf(more[i], id, revision)
    ensures PassOf(rows + more, k, r) == if k == id && r == revision then PassOf(rows, k, r) + more
                                         else PassOf(rows, k, r)
  {
    PassAppend(rows, more, id, revision, k, r);
    assert PassOf(rows, k, r) + [] == PassOf(rows, k, r);
  }

  lemma PutPaths(s: State, id: Text, f: Frame, m: Move, k: Text, r: nat)
    ensures PathsOf(Put(s, id, f, m), k, r)
         == if k == id && r == f.revision && m.file.Some? then PathsOf(s, k, r) + {m.file.value} else PathsOf(s, k, r)
  {
  }

  lemma PutEvidence(s: State, id: Text, f: Frame, m: Move, k: Text, r: nat)
    requires RowsOf(id, f.revision, m.tests, m.sims)
    ensures EvidenceOf(Put(s, id, f, m), k, r)
         == if k == id && r == f.revision then Added(EvidenceOf(s, k, r), m) else EvidenceOf(s, k, r)
  {
    var t := Put(s, id, f, m);
    PutTests(s.tests, m.tests, id, f.revision, k, r);
    PutPass(s.simulations, m.sims, id, f.revision, k, r);
    PutPaths(s, id, f, m, k, r);
    assert t.tests == s.tests + m.tests && t.simulations == s.simulations + m.sims;
  }

  /** All that the state holds about a build is as it was. */
  ghost predicate Same(s: State, t: State, id: Text) {
    && id in s.builds && id in t.builds && t.builds[id] == s.builds[id] && SameCalls(s, t, id) && SameEvidence(s, t, id)
    && (id in t.sandboxes <==> id in s.sandboxes) && SameCompletion(s, t, id)
  }

  predicate SameCompletion(s: State, t: State, id: Text) {
    (id in s.completedAt <==> id in t.completedAt)
    && (id in s.completedAt ==> t.completedAt[id] == s.completedAt[id])
  }

  predicate SameCall(s: State, t: State, k: (Text, nat)) {
    (k in t.calls <==> k in s.calls) && (k in s.calls ==> t.calls[k] == s.calls[k])
  }

  ghost predicate SameCalls(s: State, t: State, id: Text) {
    forall r: nat :: SameCall(s, t, (id, r))
  }

  predicate SameAt(s: State, t: State, id: Text, r: nat) {
    EvidenceOf(t, id, r) == EvidenceOf(s, id, r)
    && ((id, r) in s.built ==> (id, r) in t.built && t.built[(id, r)] == s.built[(id, r)])
  }

  ghost predicate SameEvidence(s: State, t: State, id: Text) {
    forall r: nat :: SameAt(s, t, id, r)
  }

  lemma SameDone(policy: Policy, s: State, t: State, id: Text)
    requires id in s.builds && id in t.builds && id in s.completedAt && DoneOk(policy, s, id)
    requires t.builds[id].approved && s.builds[id].buildRevision <= t.builds[id].buildRevision
    requires id in t.completedAt && t.completedAt[id] == s.completedAt[id]
    requires SameAt(s, t, id, s.completedAt[id])
    requires var k := (id, s.completedAt[id]);
             k in t.calls ==> k in s.calls && t.calls[k] == s.calls[k]
    ensures DoneOk(policy, t, id)
  {
  }

  lemma SameCallOk(policy: Policy, s: State, t: State, id: Text, r: nat)
    requires id in s.builds && id in t.builds && (id, r) in s.calls && (id, r) in t.calls && CallOk(policy, s, id, r)
    requires t.builds[id].approved && s.builds[id].buildRevision <= t.builds[id].buildRevision
    requires t.calls[(id, r)] == s.calls[(id, r)] && SameAt(s, t, id, r)
    requires id in s.completedAt ==> id in t.completedAt && s.completedAt[id] <= t.completedAt[id]
    ensures CallOk(policy, t, id, r)
  {
  }

  lemma SameCallsOk(policy: Policy, s: State, t: State, id: Text)
    requires id in s.builds && id in t.builds && CallsOk(policy, s, id) && SameCalls(s, t, id) && SameEvidence(s, t, id)
    requires (s.builds[id].approved ==> t.builds[id].approved)
             && s.builds[id].buildRevision <= t.builds[id].buildRevision
    requires SameCompletion(s, t, id)
    ensures CallsOk(policy, t, id)
  {
    forall r: nat | (id, r) in t.calls ensures CallOk(policy, t, id, r) {
      assert SameCall(s, t, (id, r)) && SameAt(s, t, id, r);
      SameCallOk(policy, s, t, id, r);
    }
  }

  lemma SameRow(policy: Policy, s: State, t: State, id: Text)
    requires Same(s, t, id) && RowOk(policy, s, id)
    ensures RowOk(policy, t, id)
  {
    var k := (id, s.builds[id].buildRevision);
    assert SameCall(s, t, k);
    if id in s.completedAt {
      assert SameCall(s, t, (id, s.completedAt[id])) && SameAt(s, t, id, s.completedAt[id]);
      SameDone(policy, s, t, id);
    }
    SameSandbox(s, t, id);
  }

  lemma SameSandbox(s: State, t: State, id: Text)
    requires SandboxOk(s, id) && SameCalls(s, t, id) && (id in t.sandboxes ==> id in s.sandboxes)
    ensures SandboxOk(t, id)
  {
    if id in t.sandboxes {
      var r: nat :| PastCreating(s, id, r);
      assert SameCall(s, t, (id, r)) && PastCreating(t, id, r);
    }
  }

  lemma SameBuild(policy: Policy, s: State, t: State, id: Text)
    requires Same(s, t, id) && BuildOk(policy, s, id)
    ensures BuildOk(policy, t, id)
  {
    SameRow(policy, s, t, id);
    SameCallsOk(policy, s, t, id);
  }

  lemma PutOther(policy: Policy, s: State, id: Text, f: Frame, m: Move, k: Text)
    requires BuildOk(policy, s, k) && k != id && RowsOf(id, f.revision, m.tests, m.sims)
    ensures BuildOk(policy, Put(s, id, f, m), k)
  {
    var t := Put(s, id, f, m);
    forall r: nat ensures SameAt(s, t, k, r) && SameCall(s, t, (k, r)) {
      PutEvidence(s, id, f, m, k, r);
    }
    assert Same(s, t, k);
    SameBuild(policy, s, t, k);
  }

  /** A handler of `id` at its own revision. */
  predicate HasFrame(s: State, id: Text, f: Frame) {
    id in s.builds && (id, f.revision) in s.calls && s.calls[(id, f.revision)] == f
  }

  lemma PutCalls(policy: Policy, s: State, id: Text, f: Frame, m: Move)
    requires BuildOk(policy, s, id) && HasFrame(s, id, f)
    requires MoveOk(policy, id, s.builds[id], f, EvidenceOf(s, id, f.revision), m)
    ensures CallsOk(policy, Put(s, id, f, m), id)
  {
    var t := Put(s, id, f, m);
    assert CallOk(policy, s, id, f.revision);
    forall r: nat | (id, r) in t.calls ensures CallOk(policy, t, id, r) {
      PutEvidence(s, id, f, m, id, r);
      if r != f.revision {
        assert CallOk(policy, s, id, r);
        SameCallOk(policy, s, t, id, r);
      }
    }
  }

  lemma PutCompletes(policy: Policy, s: State, id: Text, f: Frame, m: Move)
    requires HasFrame(s, id, f) && CallOk(policy, s, id, f.revision) && Completes(f, m)
    requires id in s.completedAt ==> s.completedAt[id] < f.revision
    requires MoveOk(policy, id, s.builds[id], f, EvidenceOf(s, id, f.revision), m)
    ensures DoneOk(policy, Put(s, id, f, m), id)
  {
    PutEvidence(s, id, f, m, id, f.revision);
    assert EvidenceOf(Put(s, id, f, m), id, f.revision) == Added(EvidenceOf(s, id, f.revision), m);
  }

  lemma PutStaysDone(policy: Policy, s: State, id: Text, f: Frame, m: Move)
    requires HasFrame(s, id, f) && id in s.completedAt && DoneOk(policy, s, id) && StatusOk(s.builds[id], f, m)
    requires Completes(f, m) ==> f.revision <= s.completedAt[id]
    requires m.row.buildRevision == s.builds[id].buildRevision && m.row.approved == s.builds[id].approved
    requires RowsOf(id, f.revision, m.tests, m.sims)
    ensures DoneOk(policy, Put(s, id, f, m), id)
  {
    var t, r := Put(s, id, f, m), s.completedAt[id];
    PutEvidence(s, id, f, m, id, r);
    if r == f.revision { SameRows(EvidenceOf(s, id, r), m); }
    assert EvidenceOf(t, id, r) == EvidenceOf(s, id, r);
    SameDone(policy, s, t, id);
  }

  lemma PutDone(policy: Policy, s: State, id: Text, f: Frame, m: Move)
    requires BuildOk(policy, s, id) && HasFrame(s, id, f)
    requires MoveOk(policy, id, s.builds[id], f, EvidenceOf(s, id, f.revision), m)
    requires id in Put(s, id, f, m).completedAt
    ensures DoneOk(policy, Put(s, id, f, m), id)
  {
    if Completes(f, m) && (id in s.completedAt ==> s.completedAt[id] < f.revision) {
      assert CallOk(policy, s, id, f.revision);
      PutCompletes(policy, s, id, f, m);
    } else {
      PutStaysDone(policy, s, id, f, m);
    }
  }

  lemma PutSandbox(s: State, id: Text, f: Frame, m: Move)
    requires HasFrame(s, id, f) && SandboxOk(s, id) && StatusOk(s.builds[id], f, m)
    requires m.next.Some? ==> m.next.value.revision == f.revision
    ensures SandboxOk(Put(s, id, f, m), id)
  {
    var t := Put(s, id, f, m);
    if id in t.sandboxes {
      if m.next.Some? {
        assert PastCreating(t, id, f.revision);
      } else {
        var r: nat :| PastCreating(s, id, r);
        assert PastCreating(t, id, r);
      }
    }
  }

  lemma PutSelf(policy: Policy, s: State, id: Text, f: Frame, m: Move)
    requires BuildOk(policy, s, id) && HasFrame(s, id, f)
    requires MoveOk(policy, id, s.builds[id], f, EvidenceOf(s, id, f.revision), m)
    ensures BuildOk(policy, Put(s, id, f, m), id)
  {
    PutCalls(policy, s, id, f, m);
    if id in Put(s, id, f, m).completedAt { PutDone(policy, s, id, f, m); }
    PutSandbox(s, id, f, m);
    PutRunning(s, id, f, m);
  }

  lemma PutRunning(s: State, id: Text, f: Frame, m: Move)
    requires HasFrame(s, id, f) && RunningOk(s, id)
    requires StatusOk(s.builds[id], f, m) && m.row.buildRevision == s.builds[id].buildRevision
    ensures RunningOk(Put(s, id, f, m), id)
  {
  }

  lemma PutAllOk(policy: Policy, s: State, id: Text, f: Frame, m: Move)
    requires AllOk(policy, s) && HasFrame(s, id, f)
    requires MoveOk(policy, id, s.builds[id], f, EvidenceOf(s, id, f.revision), m)
    ensures AllOk(policy, Put(s, id, f, m))
  {
    var t := Put(s, id, f, m);
    assert BuildOk(policy, s, id);
    PutSelf(policy, s, id, f, m);
    forall k | k in t.builds ensures BuildOk(policy, t, k) {
      if k != id {
        assert BuildOk(policy, s, k);
        PutOther(policy, s, id, f, m, k);
      }
    }
  }

  lemma PutKnown(s: State, id: Text, f: Frame, m: Move)
    requires Known(s) && HasFrame(s, id, f) && m.row.buildRevision == s.builds[id].buildRevision
    requires RowsOf(id, f.revision, m.tests, m.sims) && (m.next.Some? ==> m.next.value.revision == f.revision)
    ensures Known(Put(s, id, f, m))
  {
  }

  /** What a stretch adds to the simulations is one pass that was admitted. */
  predicate SimsFit(policy: Policy, id: Text, prior: nat, sims: seq<SimulationRow>) {
    sims == [] ||
    (prior <= policy.maxMandatoryPassesPerBuild
     && forall i | 0 <= i < |sims| ::
          sims[i].build == id && sims[i].cls == MandatorySecurity && sims[i].passId == sims[0].passId)
  }

  lemma PassMoveFits(policy: Policy, id: Text, row: BuildRow, f: Frame, a: Answer, prior: nat)
    ensures SimsFit(policy, id, prior, PassMove(policy, id, row, f, a, prior).sims)
  {
    var d := f.blueprint.design;
    var k := StopAt(policy, prior, |d.planned|, InTime(policy, f.startedAt, a.clock), 0);
    var sims := Rows(id, f.revision, PassId(false, f.revision, a.now), d.planned[..k]);
    assert PassMove(policy, id, row, f, a, prior).sims == sims;
    if k > 0 { assert Admits(policy, prior, 0); }
  }

  lemma MoveSimsFit(policy: Policy, id: Text, row: BuildRow, f: Frame, a: Answer, paths: set<Text>, prior: nat)
    ensures SimsFit(policy, id, prior, MoveOf(policy, id, row, f, a, paths, prior).sims)
  {
    if f.at.GettingFixtures? { PassMoveFits(policy, id, row, f, a, prior); }
  }

  lemma {:induction false} PassIdsAppend(rows: seq<SimulationRow>, more: seq<SimulationRow>, id: Text, p: PassId,
                                         k: Text)
    requires forall i | 0 <= i < |more| ::
               more[i].build == id && more[i].cls == MandatorySecurity && more[i].passId == p
    ensures PassIds(rows + more, k) == PassIds(rows, k) + (if k == id && more != [] then {p} else {})
    ensures UserCount(rows + more, k) == UserCount(rows, k)
  {
    if more == [] {
      assert rows + more == rows;
    } else {
      var n := |more| - 1;
      PassIdsAppend(rows, more[..n], id, p, k);
      assert (rows + more)[..|rows + more| - 1] == rows + more[..n];
    }
  }

  lemma OneMorePass(ids: set<PassId>, p: PassId)
    ensures |ids + {p}| <= |ids| + 1
  {
    if p in ids { assert ids + {p} == ids; } else { assert ids + {p} - {p} == ids; }
  }

  lemma PutBoundedSims(policy: Policy, rows: seq<SimulationRow>, id: Text, sims: seq<SimulationRow>, k: Text)
    requires BoundedFor(policy, rows, k) && SimsFit(policy, id, |PassIds(rows, id)|, sims)
    ensures BoundedFor(policy, rows + sims, k)
  {
    if sims == [] {
      assert rows + sims == rows;
    } else {
      PassIdsAppend(rows, sims, id, sims[0].passId, k);
      OneMorePass(PassIds(rows, k), sims[0].passId);
    }
  }

  lemma PutBounded(policy: Policy, s: State, id: Text, f: Frame, m: Move)
    requires Bounded(policy, s) && SimsFit(policy, id, |PassIds(s.simulations, id)|, m.sims)
    requires m.file.Some? ==> |PathsOf(s, id, f.revision)| < policy.generatedFiles
    ensures Bounded(policy, Put(s, id, f, m))
  {
    forall k: Text ensures BoundedFor(policy, s.simulations + m.sims, k) {
      assert BoundedFor(policy, s.simulations, k);
      PutBoundedSims(policy, s.simulations, id, m.sims, k);
    }
  }

  lemma InvResume(policy: Policy, s: State, id: Text, revision: nat, a: Answer)
    requires Inv(policy, s)
    ensures Inv(policy, Resume(policy, s, id, revision, a))
  {
    if (id, revision) in s.calls {
      assert BuildOk(policy, s, id);
      assert CallOk(policy, s, id, revision);
      var f, e, prior := s.calls[(id, revision)], EvidenceOf(s, id, revision), |PassIds(s.simulations, id)|;
      var m := MoveAt(policy, s, id, revision, a);
      MoveKeeps(policy, id, s.builds[id], f, e, a, prior);
      MoveSimsFit(policy, id, s.builds[id], f, a, e.paths, prior);
      PutAllOk(policy, s, id, f, m);
      PutKnown(s, id, f, m);
      PutBounded(policy, s, id, f, m);
    }
  }

  // --- the events of other calls ---

  /** A row whose status was left in a state that no handler leaves it in. */
  predicate RowTouched(row: BuildRow, after: BuildRow) {
    && after.buildRevision == row.buildRevision && after.repairCycles == row.repairCycles
    && (row.approved ==> after.approved)
    && (after.status == row.status || (after.status != Completed && after.status != Running))
  }

  lemma TouchedOk(policy: Policy, s: State, t: State, id: Text)
    requires BuildOk(policy, s, id) && id in t.builds && RowTouched(s.builds[id], t.builds[id])
    requires t == s.(builds := s.builds[id := t.builds[id]], blueprints := t.blueprints, saves := t.saves)
    ensures BuildOk(policy, t, id)
  {
    forall r: nat ensures SameAt(s, t, id, r) && SameCall(s, t, (id, r)) {
    }
    SameCallsOk(policy, s, t, id);
    SameSandbox(s, t, id);
    if id in t.completedAt { SameDone(policy, s, t, id); }
  }

  /** Builds that only grow leave every row where it belongs. */
  lemma KnownLater(s: State, t: State)
    requires Known(s)
    requires forall k | k in s.builds :: k in t.builds && s.builds[k].buildRevision <= t.builds[k].buildRevision
    requires t.tests == s.tests && t.simulations == s.simulations && t.artifacts == s.artifacts && t.built == s.built
    requires t.calls.Keys <= s.calls.Keys && t.sandboxes <= s.sandboxes && t.completedAt == s.completedAt
    requires forall k | k in t.byKey :: t.byKey[k] in t.builds
    ensures Known(t)
  {
  }

  lemma SameOther(policy: Policy, s: State, t: State, k: Text)
    requires BuildOk(policy, s, k) && k in t.builds && t.builds[k] == s.builds[k]
    requires t == s.(builds := t.builds, byKey := t.byKey, blueprints := t.blueprints, saves := t.saves)
    ensures BuildOk(policy, t, k)
  {
    forall r: nat ensures SameAt(s, t, k, r) && SameCall(s, t, (k, r)) {
    }
    SameBuild(policy, s, t, k);
  }

  lemma InvTouched(policy: Policy, s: State, t: State, id: Text)
    requires Inv(policy, s) && id in s.builds && id in t.builds && RowTouched(s.builds[id], t.builds[id])
    requires t == s.(builds := s.builds[id := t.builds[id]], blueprints := t.blueprints, saves := t.saves)
    ensures Inv(policy, t)
  {
    forall k | k in t.builds ensures BuildOk(policy, t, k) {
      assert BuildOk(policy, s, k);
      if k == id {
        TouchedOk(policy, s, t, id);
      } else {
        SameOther(policy, s, t, k);
      }
    }
    KnownLater(s, t);
  }

  lemma InvSaved(policy: Policy, s: State, t: State)
    requires Inv(policy, s) && t == s.(blueprints := t.blueprints, saves := t.saves)
    ensures Inv(policy, t)
  {
    forall k | k in t.builds ensures BuildOk(policy, t, k) {
      assert BuildOk(policy, s, k);
      SameOther(policy, s, t, k);
    }
  }

  lemma NothingOf(s: State, id: Text, revision: nat)
    requires Known(s) && (id in s.builds ==> s.builds[id].buildRevision < revision)
    ensures EvidenceOf(s, id, revision) == Evidence({}, [], [])
    ensures (id, revision) !in s.built && (id, revision) !in s.calls
  {
    NoTests(s.tests, id, revision);
    NoPass(s.simulations, id, revision);
  }

  lemma InsertOk(policy: Policy, s: State, id: Text, key: Option<Text>)
    requires Known(s) && id !in s.builds
    ensures BuildOk(policy, Insert(s, id, key), id)
  {
  }

  lemma InvInsert(policy: Policy, s: State, id: Text, key: Option<Text>)
    requires Inv(policy, s) && id !in s.builds
    ensures Inv(policy, Insert(s, id, key))
  {
    var t := Insert(s, id, key);
    InsertOk(policy, s, id, key);
    forall k | k in t.builds ensures BuildOk(policy, t, k) {
      if k != id {
        assert BuildOk(policy, s, k);
        SameOther(policy, s, t, k);
      }
    }
    KnownLater(s, t);
  }

  lemma InvCreate(policy: Policy, s: State, id: Text, key: Option<Text>, affordable: bool)
    requires Inv(policy, s) && id !in s.builds
    ensures Inv(policy, Create(s, id, key, affordable))
  {
    if CreateReplyOf(s, id, key, affordable).Created? { InvInsert(policy, s, id, key); }
  }

  lemma StartSame(s: State, id: Text, k: Text, r: nat)
    requires Known(s) && StartReplyOf(s, id).Started? && (k != id || r != s.builds[id].buildRevision + 1)
    ensures SameAt(s, Start(s, id), k, r) && SameCall(s, Start(s, id), (k, r))
  {
  }

  lemma StartRow(policy: Policy, s: State, id: Text)
    requires Known(s) && BuildOk(policy, s, id) && StartReplyOf(s, id).Started?
    ensures RowOk(policy, Start(s, id), id)
  {
    var t := Start(s, id);
    if id in s.completedAt {
      StartSame(s, id, id, s.completedAt[id]);
      SameDone(policy, s, t, id);
    }
    if id in t.sandboxes {
      var r: nat :| PastCreating(s, id, r);
      StartSame(s, id, id, r);
      assert PastCreating(t, id, r);
    }
  }

  lemma StartedOk(policy: Policy, s: State, id: Text)
    requires Known(s) && BuildOk(policy, s, id) && StartReplyOf(s, id).Started?
    ensures BuildOk(policy, Start(s, id), id)
  {
    var t, revision := Start(s, id), s.builds[id].buildRevision + 1;
    NothingOf(s, id, revision);
    StartRow(policy, s, id);
    forall r: nat | (id, r) in t.calls ensures CallOk(policy, t, id, r) {
      if r == revision {
        assert EvidenceOf(t, id, r) == Evidence({}, [], []);
      } else {
        StartSame(s, id, id, r);
        assert CallOk(policy, s, id, r);
        SameCallOk(policy, s, t, id, r);
      }
    }
  }

  lemma StartOther(policy: Policy, s: State, id: Text, k: Text)
    requires Known(s) && BuildOk(policy, s, k) && StartReplyOf(s, id).Started? && k != id
    ensures BuildOk(policy, Start(s, id), k)
  {
    forall r: nat ensures SameAt(s, Start(s, id), k, r) && SameCall(s, Start(s, id), (k, r)) {
      StartSame(s, id, k, r);
    }
    SameBuild(policy, s, Start(s, id), k);
  }

  lemma StartKnown(s: State, id: Text)
    requires Known(s)
    ensures Known(Start(s, id))
  {
  }

  lemma InvStart(policy: Policy, s: State, id: Text)
    requires Inv(policy, s)
    ensures Inv(policy, Start(s, id))
  {
    if StartReplyOf(s, id).Started? {
      StartKnown(s, id);
      var t := Start(s, id);
      forall k | k in t.builds ensures BuildOk(policy, t, k) {
        assert BuildOk(policy, s, k);
        if k == id {
          StartedOk(policy, s, id);
        } else {
          StartOther(policy, s, id, k);
        }
      }
    }
  }

  lemma {:induction false} UserCountAppend(rows: seq<SimulationRow>, more: seq<SimulationRow>, id: Text, k: Text)
    requires forall i | 0 <= i < |more| :: more[i].build == id && more[i].cls == UserRequested
    ensures UserCount(rows + more, k) == UserCount(rows, k) + (if k == id then |more| else 0)
    ensures PassIds(rows + more, k) == PassIds(rows, k)
  {
    if more == [] {
      assert rows + more == rows;
    } else {
      var n := |more| - 1;
      UserCountAppend(rows, more[..n], id, k);
      assert (rows + more)[..|rows + more| - 1] == rows + more[..n];
      assert PassIds(rows + more[..n], k) + {} == PassIds(rows + more[..n], k);
    }
  }

  lemma UserAllOk(policy: Policy, s: State, more: seq<SimulationRow>)
    requires AllOk(policy, s) && forall i | 0 <= i < |more| :: more[i].cls == UserRequested
    ensures AllOk(policy, s.(simulations := s.simulations + more))
  {
    var t := s.(simulations := s.simulations + more);
    forall k | k in t.builds ensures BuildOk(policy, t, k) {
      assert BuildOk(policy, s, k);
      forall r: nat ensures SameAt(s, t, k, r) && SameCall(s, t, (k, r)) {
        PassSkipsUsers(s.simulations, more, k, r);
      }
      SameBuild(policy, s, t, k);
    }
  }

  lemma InvUser(policy: Policy, s: State, id: Text, revision: nat, at: int, results: seq<SimulationResult>)
    requires Inv(policy, s) && (id in s.builds ==> revision <= s.builds[id].buildRevision)
    ensures Inv(policy, UserSimulations(policy, s, id, revision, at, results))
  {
    if id in s.builds {
      var t := UserSimulations(policy, s, id, revision, at, results);
      var more := UserRows(id, revision, at, results[..Fitting(policy, s.simulations, id, |results|)]);
      UserAllOk(policy, s, more);
      forall k: Text ensures BoundedFor(policy, t.simulations, k) {
        assert BoundedFor(policy, s.simulations, k);
        UserCountAppend(s.simulations, more, id, k);
      }
    }
  }

  lemma OrphanedOk(policy: Policy, s: State, id: Text)
    requires BuildOk(policy, s, id)
    ensures BuildOk(policy, Restart(s), id)
  {
    var t := Restart(s);
    if id in s.completedAt {
      assert SameAt(s, t, id, s.completedAt[id]);
      SameDone(policy, s, t, id);
    }
  }

  lemma InvRestart(policy: Policy, s: State)
    requires Inv(policy, s)
    ensures Inv(policy, Restart(s))
  {
    forall k | k in Restart(s).builds ensures BuildOk(policy, Restart(s), k) {
      assert BuildOk(policy, s, k);
      OrphanedOk(policy, s, k);
    }
    KnownLater(s, Restart(s));
  }

  lemma InvEdit(policy: Policy, s: State, id: Text, design: Design)
    requires Inv(policy, s)
    ensures Inv(policy, Edit(s, id, design))
  {
    if id in s.blueprints { InvSaved(policy, s, Edit(s, id, design)); }
  }

  /** Creation, design, edits and approval. */
  predicate OfDesign(e: Event) {
    e.DoCreate? || e.DoDesignStage? || e.DoDesignLimited? || e.DoDesignSaved? || e.DoDesignDone? || e.DoEdit?
      || e.DoApprove?
  }

  lemma InvDesign(policy: Policy, s: State, e: Event)
    requires Inv(policy, s) && Proper(s, e) && OfDesign(e)
    ensures Inv(policy, Step(policy, s, e))
  {
    match e {
      case DoCreate(id, key, affordable) => InvCreate(policy, s, id, key, affordable);
      case DoDesignStage(id, stage) => if id in s.builds { InvTouched(policy, s, DesignStage(s, id, stage), id); }
      case DoDesignLimited(id, upstream) =>
        if id in s.builds { InvTouched(policy, s, DesignLimited(s, id, upstream), id); }
      case DoDesignSaved(id, design) => if id in s.builds { InvTouched(policy, s, DesignSaved(s, id, design), id); }
      case DoDesignDone(id, buildable) => if id in s.builds { InvTouched(policy, s, DesignDone(s, id, buildable), id); }
      case DoEdit(id, design) => InvEdit(policy, s, id, design);
      case DoApprove(id, c, a) => if CanApprove(s, id, c, a) { InvTouched(policy, s, Approve(s, id, c, a), id); }
    }
  }

  lemma InvStep(policy: Policy, s: State, e: Event)
    requires Inv(policy, s) && Proper(s, e)
    ensures Inv(policy, Step(policy, s, e))
  {
    match e {
      case DoAbandon(id) => if CanAbandon(s, id) { InvTouched(policy, s, Abandon(s, id), id); }
      case DoStart(id) => InvStart(policy, s, id);
      case DoResume(id, revision, a) => InvResume(policy, s, id, revision, a);
      case DoUserSimulations(id, revision, at, results) => InvUser(policy, s, id, revision, at, results);
      case DoRestart => InvRestart(policy, s);
      case _ => InvDesign(policy, s, e);
    }
  }

  lemma {:induction false} InvRun(policy: Policy, es: seq<Event>, ss: seq<State>, q: nat)
    requires IsRun(policy, es, ss) && q <= |es|
    ensures Inv(policy, ss[q])
  {
    if q == 0 {
      forall id: Text ensures BoundedFor(policy, INIT.simulations, id) {
      }
    } else {
      InvRun(policy, es, ss, q - 1);
      assert NextAt(policy, es, ss, q - 1);
      InvStep(policy, ss[q - 1], es[q - 1]);
    }
  }

  lemma BuildInRun(policy: Policy, es: seq<Event>, ss: seq<State>, q: nat, id: Text)
    requires IsRun(policy, es, ss) && q <= |es| && id in ss[q].builds
    ensures BuildOk(policy, ss[q], id)
  {
    InvRun(policy, es, ss, q);
  }

  lemma CallInRun(policy: Policy, es: seq<Event>, ss: seq<State>, q: nat, id: Text, revision: nat)
    requires IsRun(policy, es, ss) && q <= |es| && (id, revision) in ss[q].calls
    ensures id in ss[q].builds && BuildOk(policy, ss[q], id) && CallOk(policy, ss[q], id, revision)
  {
    InvRun(policy, es, ss, q);
    assert BuildOk(policy, ss[q], id);
  }

  // ----- revisions and their starts -----

  /** The event starts a build. */
  predicate Accepts(s: State, e: Event, id: Text) {
    e == DoStart(id) && StartReplyOf(s, id).Started?
  }

  predicate StartsRevision(es: seq<Event>, ss: seq<State>, j: nat, id: Text, r: nat)
    requires |ss| == |es| + 1 && j < |es|
  {
    Accepts(ss[j], es[j], id) && ss[j].builds[id].buildRevision + 1 == r
  }

  ghost predicate StartedBetween(es: seq<Event>, ss: seq<State>, i: nat, q: nat, id: Text)
    requires |ss| == |es| + 1 && q <= |es|
  {
    exists k :: i <= k < q && Accepts(ss[k], es[k], id)
  }

  function RevisionOf(s: State, id: Text): nat {
    if id in s.builds then s.builds[id].buildRevision else 0
  }

  lemma ResumeRevision(policy: Policy, s: State, k: Text, r: nat, a: Answer, id: Text)
    requires Inv(policy, s)
    ensures RevisionOf(Resume(policy, s, k, r, a), id) == RevisionOf(s, id)
  {
    if (k, r) in s.calls && k in s.builds {
      assert BuildOk(policy, s, k) && CallOk(policy, s, k, r);
      MoveKeeps(policy, k, s.builds[k], s.calls[(k, r)], EvidenceOf(s, k, r), a, |PassIds(s.simulations, k)|);
    }
  }

  lemma DesignRevision(policy: Policy, s: State, e: Event, id: Text)
    requires Proper(s, e) && OfDesign(e)
    ensures RevisionOf(Step(policy, s, e), id) == RevisionOf(s, id)
  {
  }

  lemma OtherRevision(policy: Policy, s: State, e: Event, id: Text)
    requires e.DoAbandon? || e.DoUserSimulations? || e.DoRestart?
    ensures RevisionOf(Step(policy, s, e), id) == RevisionOf(s, id)
  {
  }

  lemma StartRevision(s: State, k: Text, id: Text)
    ensures RevisionOf(Start(s, k), id)
         == RevisionOf(s, id) + (if k == id && StartReplyOf(s, id).Started? then 1 else 0)
  {
  }

  lemma StepRevision(policy: Policy, s: State, e: Event, id: Text)
    requires Inv(policy, s) && Proper(s, e)
    ensures RevisionOf(Step(policy, s, e), id) == RevisionOf(s, id) + (if Accepts(s, e, id) then 1 else 0)
  {
    if e.DoResume? {
      ResumeRevision(policy, s, e.id, e.revision, e.answer, id);
    } else if OfDesign(e) {
      DesignRevision(policy, s, e, id);
    } else if e.DoStart? {
      StartRevision(s, e.id, id);
    } else {
      OtherRevision(policy, s, e, id);
    }
  }

  /** Each revision that a build has had was started once. */
  lemma {:induction false} StartOf(policy: Policy, es: seq<Event>, ss: seq<State>, q: nat, id: Text, r: nat)
    returns (j: nat)
    requires IsRun(policy, es, ss) && q <= |es| && 0 < r <= RevisionOf(ss[q], id)
    ensures j < q && StartsRevision(es, ss, j, id, r)
    decreases q
  {
    assert q > 0;
    InvRun(policy, es, ss, q - 1);
    assert NextAt(policy, es, ss, q - 1);
    StepRevision(policy, ss[q - 1], es[q - 1], id);
    if r <= RevisionOf(ss[q - 1], id) {
      j := StartOf(policy, es, ss, q - 1, id, r);
    } else {
      j := q - 1;
    }
  }

  /** The revision of the row is the one started at `j` exactly while no later start has been accepted. */
  lemma {:induction false} RevisionAfter(policy: Policy, es: seq<Event>, ss: seq<State>, j: nat, q: nat, id: Text,
                                         r: nat)
    requires IsRun(policy, es, ss) && j < q <= |es| && StartsRevision(es, ss, j, id, r)
    ensures r <= RevisionOf(ss[q], id)
    ensures r == RevisionOf(ss[q], id) <==> !StartedBetween(es, ss, j + 1, q, id)
    decreases q
  {
    InvRun(policy, es, ss, q - 1);
    assert NextAt(policy, es, ss, q - 1);
    StepRevision(policy, ss[q - 1], es[q - 1], id);
    if j + 1 < q {
      RevisionAfter(policy, es, ss, j, q - 1, id, r);
      StartedGrows(es, ss, j + 1, q - 1, id);
    }
  }

  lemma StartedGrows(es: seq<Event>, ss: seq<State>, i: nat, q: nat, id: Text)
    requires |ss| == |es| + 1 && i <= q < |es|
    ensures StartedBetween(es, ss, i, q + 1, id) <==> StartedBetween(es, ss, i, q, id) || Accepts(ss[q], es[q], id)
  {
    if StartedBetween(es, ss, i, q, id) {
      var k :| i <= k < q && Accepts(ss[k], es[k], id);
      assert i <= k < q + 1;
    }
  }

  // ----- main results -----

  /** COMPLETED is earned. At every moment of every interleaving of every number of builds, a completed
      build was approved, and some revision of it has all its files written and matching its Blueprint, a
      last suite that passed, and a mandatory pass that recorded every planned scenario once, in order, all
      passed, with no honesty flag. That revision was started at `j`, and it is the revision of the row exactly
      when no later start of the build was accepted. */
  lemma CompletedIsEarned(policy: Policy, es: seq<Event>, ss: seq<State>, q: nat, id: Text) returns (j: nat)
    requires IsRun(policy, es, ss) && q <= |es| && id in ss[q].builds && ss[q].builds[id].status == Completed
    ensures id in ss[q].completedAt && ss[q].builds[id].approved
    ensures var s, r := ss[q], ss[q].completedAt[id];
            && (id, r) in s.built && Earned(policy, s.built[(id, r)].design, id, r, EvidenceOf(s, id, r))
            && r <= s.builds[id].buildRevision
            && j < q && StartsRevision(es, ss, j, id, r)
            && (r == s.builds[id].buildRevision <==> !StartedBetween(es, ss, j + 1, q, id))
  {
    BuildInRun(policy, es, ss, q, id);
    j := StartOf(policy, es, ss, q, id, ss[q].completedAt[id]);
    RevisionAfter(policy, es, ss, j, q, id, ss[q].completedAt[id]);
  }

  /** A handler that returns says ok exactly when its revision has earned it, whatever else goes on. */
  lemma ReturnsOkExactly(policy: Policy, es: seq<Event>, ss: seq<State>, q: nat, id: Text, revision: nat)
    requires IsRun(policy, es, ss) && q <= |es| && (id, revision) in ss[q].calls
    requires var at := ss[q].calls[(id, revision)].at; at.Destroying? && at.outcome.Returned?
    ensures var f := ss[q].calls[(id, revision)];
            f.at.outcome.ok <==> Earned(policy, f.blueprint.design, id, revision, EvidenceOf(ss[q], id, revision))
  {
    CallInRun(policy, es, ss, q, id, revision);
  }

  /** The slot is released: a build whose current revision has no handler any more is not RUNNING unless it
      was never built; a build without handlers holds no sandbox; and over its whole life a build is repaired at
      most `autoRepairLoops` times. */
  lemma SlotReleased(policy: Policy, es: seq<Event>, ss: seq<State>, q: nat, id: Text)
    requires IsRun(policy, es, ss) && q <= |es| && id in ss[q].builds
    ensures var s, row := ss[q], ss[q].builds[id];
            && ((id, row.buildRevision) !in s.calls && row.status == Running ==> row.buildRevision == 0)
            && (id in s.sandboxes ==> exists r: nat :: PastCreating(s, id, r))
            && row.repairCycles <= policy.autoRepairLoops
  {
    BuildInRun(policy, es, ss, q, id);
  }

  /** No revision holds more files than the ceiling, no build has more than one mandatory pass beyond
      its ceiling, and no user is charged more scenarios than the allowance. */
  lemma CeilingsHold(policy: Policy, es: seq<Event>, ss: seq<State>, q: nat, id: Text, revision: nat)
    requires IsRun(policy, es, ss) && q <= |es|
    ensures |PathsOf(ss[q], id, revision)| <= policy.generatedFiles
    ensures |PassIds(ss[q].simulations, id)| <= policy.maxMandatoryPassesPerBuild + 1
    ensures UserCount(ss[q].simulations, id) <= policy.userRequestedSimulationsPerBuild
  {
    InvRun(policy, es, ss, q);
    assert BoundedFor(policy, ss[q].simulations, id);
  }
}
