/** Missions can be finished: from every open reachable state some continuation completes. */
module MissionCompletion {
  import opened Prelude
  import opened PlanDag
  import opened CoreBudget
  import opened ActiveResults
  import opened StageRuntime
  import opened CorePlanner
  import opened CoreGuarantees
  import opened MissionRuns

  // ---- Which gates can be passed at all ----

  const MAX_OBSERVATIONS := 32

  /** The gate asks for no more actions than a record holds, and some final text survives redaction. */
  ghost predicate Passable(gate: Gate, redact: string -> string) {
    gate.minSuccessfulActions <= MAX_OBSERVATIONS && FinalPossible(gate, redact)
  }

  ghost predicate FinalPossible(gate: Gate, redact: string -> string) {
    gate.requireFinal ==> exists text :: !Blank(redact(text))
  }

  function Expected(digest: string): Option<string> {
    if digest == "" then None else Some(digest)
  }

  /** A governed read that shows everything the gate expects of the file. */
  function GoodRead(gate: Gate): Observation {
    Observation("r", "file_read", "p", RanSuccess, true, NoCategory, "e", SampleDigest(),
                Signals(Expected(gate.expectedSha), Expected(gate.expectedPathSha), gate.expectedSize))
  }

  function GoodReads(gate: Gate, n: nat): seq<Observation> {
    seq(n, _ => GoodRead(gate))
  }

  function GoodReport(text: string): StageResult {
    StageResult(true, Completed, text, "", 0, [], "", [], None)
  }

  lemma {:induction false} GoodReadsCount(gate: Gate, n: nat)
    ensures CountSuccess(GoodReads(gate, n)) == n
  {
    if n > 0 {
      GoodReadsCount(gate, n - 1);
      assert GoodReads(gate, n)[1..] == GoodReads(gate, n - 1);
    }
  }

  /** Enough good reads and a final text take a stage through its gate. */
  lemma GoodRunPasses(bound: Bound, gate: Gate, redact: string -> string, text: string, n: nat)
    requires bound.Valid() && gate.Valid() && gate.minSuccessfulActions <= n && 1 <= n <= MAX_OBSERVATIONS
    requires gate.requireFinal ==> !Blank(redact(text))
    ensures GoodReport(text).Valid() && ValidObservations(GoodReads(gate, n))
    ensures var r := Finished(bound, gate, GoodReads(gate, n), GoodReport(text), true, None, None, redact);
            r.Ok? && r.value.success && r.value.active.Some?
  {
    hide Finished, GateFailures, Blank, Links, CountSuccess, CountExecuted, GatePasses, IsDigest;
    var (obs, reported) := (GoodReads(gate, n), GoodReport(text));
    assert obs[0] in obs && obs[0] == GoodRead(gate);
    GoodReadsCount(gate, n);
    assert ArtifactSeen(gate, obs[0]);
    GatePassesMeans(gate, Governed(reported, obs, redact), obs);
    assert Accepted(gate, obs, reported, true, redact);
    FinishRaisesIff(bound, gate, obs, reported, true, None, None, redact);
    FinishCoherent(bound, gate, obs, reported, true, None, None, redact);
  }

  ghost predicate CanSucceed(bound: Bound, gate: Gate, redact: string -> string) {
    exists obs, reported: StageResult, attempts, escalation ::
      Succeeds(bound, gate, redact, obs, reported, attempts, escalation)
  }

  ghost predicate Succeeds(bound: Bound, gate: Gate, redact: string -> string, obs: seq<Observation>,
                           reported: StageResult, attempts: Option<int>, escalation: Option<EscalationKind>) {
    && ValidObservations(obs) && reported.Valid()
    && var r := Finished(bound, gate, obs, reported, true, attempts, escalation, redact);
       r.Ok? && r.value.success
  }

  lemma {:induction false} SuccessesBounded(obs: seq<Observation>)
    ensures CountSuccess(obs) <= |obs|
    decreases |obs|
  {
    if obs != [] {
      SuccessesBounded(obs[1..]);
    }
  }

  /** A gate can be passed exactly when it asks for at most 32 actions, the most a record holds,
      although it may be declared with up to 100, and when a final text can survive redaction. */
  lemma PassableIff(bound: Bound, gate: Gate, redact: string -> string)
    requires bound.Valid() && gate.Valid()
    ensures CanSucceed(bound, gate, redact) <==> Passable(gate, redact)
  {
    hide Finished, Blank, ValidObservations, GateFailures, IsDigest;
    forall obs, reported: StageResult, attempts, escalation
      | Succeeds(bound, gate, redact, obs, reported, attempts, escalation)
      ensures Passable(gate, redact)
    {
      SuccessMeansPassable(bound, gate, redact, obs, reported, attempts, escalation);
    }
    if Passable(gate, redact) {
      var text := if gate.requireFinal then var t :| !Blank(redact(t)); t else "";
      var n := if gate.minSuccessfulActions == 0 then 1 else gate.minSuccessfulActions;
      GoodRunPasses(bound, gate, redact, text, n);
      assert Succeeds(bound, gate, redact, GoodReads(gate, n), GoodReport(text), None, None);
    }
  }

  lemma SuccessMeansPassable(bound: Bound, gate: Gate, redact: string -> string, obs: seq<Observation>,
                             reported: StageResult, attempts: Option<int>, escalation: Option<EscalationKind>)
    requires bound.Valid() && gate.Valid() && Succeeds(bound, gate, redact, obs, reported, attempts, escalation)
    ensures Passable(gate, redact)
  {
    hide Finished, Blank, ValidObservations, GateFailures, IsDigest, GatePasses, AnyProtected, CountSuccess,
         CountExecuted;
    FinishCoherent(bound, gate, obs, reported, true, attempts, escalation, redact);
    FinishRaisesIff(bound, gate, obs, reported, true, attempts, escalation, redact);
    GatePassesMeans(gate, Governed(reported, obs, redact), obs);
    SuccessesBounded(obs);
  }

  // ---- What is left to do, and to pay ----

  function AgentsLeft(stages: seq<Stage>, plan: Plan): nat
    decreases |stages|
  {
    if stages == [] then 0
    else AgentsLeft(stages[1..], plan) + if IsLeft(stages[0], plan) then 1 else 0
  }

  function StepsLeft(stages: seq<Stage>, plan: Plan): int
    decreases |stages|
  {
    if stages == [] then 0
    else StepsLeft(stages[1..], plan) + if IsLeft(stages[0], plan) then stages[0].maxSteps else 0
  }

  predicate IsLeft(stage: Stage, plan: Plan) {
    stage.execution.Agent? && stage.id in plan.nodes && !plan.nodes[stage.id].status.Success?
  }

  /** By how many agent stages and steps `done` has less left than `plan`. */
  predicate Less(stages: seq<Stage>, plan: Plan, done: Plan, agents: nat, steps: int) {
    && AgentsLeft(stages, plan) == AgentsLeft(stages, done) + agents
    && StepsLeft(stages, plan) == StepsLeft(stages, done) + steps
  }

  /** Finishing one stage takes it, and nothing else, off what is left. */
  lemma {:induction false} FinishedOneLess(stages: seq<Stage>, plan: Plan, done: Plan, id: string)
    requires forall i, j | 0 <= i < j < |stages| :: stages[i].id != stages[j].id
    requires id in plan.nodes && !plan.nodes[id].status.Success? && done == plan.WithStatus(id, Success)
    ensures (forall s | s in stages :: s.id != id) ==> Less(stages, plan, done, 0, 0)
    ensures forall s | s in stages && s.id == id ::
              if s.execution.Agent? then Less(stages, plan, done, 1, s.maxSteps) else Less(stages, plan, done, 0, 0)
    decreases |stages|
  {
    if stages != [] {
      FinishedOneLess(stages[1..], plan, done, id);
      assert forall s :: s in stages <==> s == stages[0] || s in stages[1..];
      if stages[0].id == id {
        forall s | s in stages[1..] ensures s.id != id {
          var j :| 0 <= j < |stages[1..]| && stages[1..][j] == s;
          assert stages[j + 1] == s;
        }
      }
    }
  }

  lemma {:induction false} LeftCounts(stages: seq<Stage>, plan: Plan, s: Stage)
    requires s in stages && IsLeft(s, plan) && forall x | x in stages :: 1 <= x.maxSteps
    ensures AgentsLeft(stages, plan) >= 1 && StepsLeft(stages, plan) >= s.maxSteps
    decreases |stages|
  {
    StepsLeftNat(stages[1..], plan);
    if stages[0] != s {
      LeftCounts(stages[1..], plan, s);
    }
  }

  lemma {:induction false} StepsLeftNat(stages: seq<Stage>, plan: Plan)
    requires forall x | x in stages :: 1 <= x.maxSteps
    ensures StepsLeft(stages, plan) >= 0
    decreases |stages|
  {
    if stages != [] {
      StepsLeftNat(stages[1..], plan);
    }
  }

  /** The budget, if there is one, covers every agent stage that is left. */
  predicate Affords(w: World, s: TaskState) {
    s.budget.Some? ==>
      var b := s.budget.value;
      && b.dispatches + AgentsLeft(w.spec.stages, s.plan) <= b.limits.maxDispatches
      && b.steps + StepsLeft(w.spec.stages, s.plan) <= b.limits.maxSteps
  }

  /** Each agent stage has a gate that its own steps suffice to pass. */
  ghost predicate AllPassable(w: World) {
    forall s | s in w.spec.stages && s.execution.Agent? ::
      s.gate.Valid() && s.gate.minSuccessfulActions <= s.maxSteps && FinalPossible(s.gate, w.redact)
  }

  /** A selected mission under investigation with nothing open, in flight or failed. */
  ghost predicate Open(w: World, s: TaskState)
    requires PlanOf(w.spec, s.plan)
  {
    && Selected(s, w.spec) && s.stop.None? && s.status.Investigating? && s.conditions == [] && Quiet(s, w.spec)
  }

  // ---- Runs from a mission that is under way ----

  lemma {:induction false} RunOn(w: World, m: Mission, events: seq<Event>, more: seq<Event>)
    requires Run(w, m, events).Some? && Run(w, Run(w, m, events).value, more).Some?
    ensures Run(w, m, events + more) == Run(w, Run(w, m, events).value, more)
    decreases |more|
  {
    hide Step;
    if more == [] {
      assert events + more == events;
    } else {
      var n := |more| - 1;
      RunOn(w, m, events, more[..n]);
      assert (events + more)[..|events + more| - 1] == events + more[..n];
    }
  }

  lemma OneStep(w: World, m: Mission, e: Event)
    requires w.spec.Valid() && PlanOf(w.spec, m.state.plan) && Step(w, m, e).Some?
    ensures Run(w, m, [e]) == Step(w, m, e)
  {
    hide Step;
    assert [e][..0] == [] && Run(w, m, []) == Some(m);
  }

  // ---- One stage more ----

  /** `t` is `s` with the stage finished: nothing else of the mission's standing changed. */
  ghost predicate Advanced(s: TaskState, t: TaskState, id: string) {
    && id in s.plan.nodes
    && t == s.(plan := s.plan.WithStatus(id, Success), active := t.active, budget := t.budget, revision := t.revision)
  }

  lemma StillOpen(w: World, s: TaskState, t: TaskState, id: string)
    requires PlanOf(w.spec, s.plan) && Open(w, s) && Advanced(s, t, id) && AllCompletedBound(t, w.spec)
    ensures PlanOf(w.spec, t.plan) && Open(w, t)
  {
    hide AllCompletedBound, StageOf;
  }

  /** What the front of an open mission is, and what is decided about it. */
  lemma FrontDecided(w: World, s: TaskState)
    requires w.spec.Valid() && s.Valid() && PlanOf(w.spec, s.plan) && NothingSkipped(s.plan)
    requires s.plan.Closed() && !Cyclic(s.plan) && Open(w, s) && Affords(w, s) && Unfinished(s.plan)
    ensures var front := Front(s.plan, w.spec.stages);
            && front.Some? && front.value in w.spec.stages && Candidate(s.plan, front.value.id)
            && StageOf(w.spec, front.value.id) == front.value
            && (front.value.execution.Agent? ==> s.plan.nodes[front.value.id].status.Pending?)
            && Decided(s, w.spec, w.hash) == Ok(Advance(s, w.spec, front.value, w.hash))
            && var d := Advance(s, w.spec, front.value, w.hash);
            && d.stageId == front.value.id
            && d.outcome == (if front.value.execution.Human? then AwaitApproval else Delegate)
            && (front.value.execution.Agent? ==> d.maxSteps == front.value.maxSteps)
  {
    hide Front, Cyclic, Selected, IsDigest, IsIdentifier, ReviewOf, AgentsLeft, StepsLeft, DependenciesDone;
    QuietMissionHasFront(s, w.spec);
    FrontIsLeast(s.plan, w.spec.stages);
    var front := Front(s.plan, w.spec.stages).value;
    StageIsUnique(w.spec, front);
    OpenIsJudgedOn(w, s);
    if front.execution.Agent? && s.budget.Some? {
      LeftCounts(w.spec.stages, s.plan, front);
    }
  }

  lemma OpenIsJudgedOn(w: World, s: TaskState)
    requires w.spec.Valid() && PlanOf(w.spec, s.plan) && Open(w, s) && Unfinished(s.plan)
    requires Front(s.plan, w.spec.stages).Some?
    ensures var front := Front(s.plan, w.spec.stages).value;
            && front in w.spec.stages && front.id in s.plan.nodes && 1 <= front.maxSteps <= MAX_STAGE_STEPS
            && Judge(s, w.spec, w.hash) == Advance(s, w.spec, front, w.hash)
  {
    hide Selected, IsDigest, IsIdentifier, ReviewOf, Advance, AllCompletedBound, StageOf, Front;
    FrontIsLeast(s.plan, w.spec.stages);
  }

  lemma DispatchStep(w: World, n: Mission) returns (m: Mission)
    requires w.spec.Valid() && n.state.Valid() && PlanOf(w.spec, n.state.plan) && NothingSkipped(n.state.plan)
    requires n.state.plan.Closed() && !Cyclic(n.state.plan) && Open(w, n.state) && Affords(w, n.state)
        && Unfinished(n.state.plan)
    requires Front(n.state.plan, w.spec.stages).Some? && Front(n.state.plan, w.spec.stages).value.execution.Agent?
    ensures Step(w, n, Dispatch) == Some(m)
    ensures var front := Front(n.state.plan, w.spec.stages).value;
            && m.state == n.state.(pending := front.id, budget := m.state.budget, revision := m.state.revision)
            && (m.state.budget.Some? <==> n.state.budget.Some?)
            && (m.state.budget.Some? ==>
                  && m.state.budget.value.limits == n.state.budget.value.limits
                  && m.state.budget.value.dispatches == n.state.budget.value.dispatches + 1
                  && m.state.budget.value.steps == n.state.budget.value.steps + front.maxSteps)
  {
    hide Front, Cyclic, Decided, Advance, IsDigest, IsIdentifier, AgentsLeft, StepsLeft, Open, Candidate, StageOf;
    FrontDecided(w, n.state);
    var front := Front(n.state.plan, w.spec.stages).value;
    LeftCounts(w.spec.stages, n.state.plan, front) by { FrontIsLeft(w, n.state.plan, front); }
    if n.state.budget.Some? {
      ReserveIffNoStopReason(n.state.budget.value, front.maxSteps);
    }
    m := Step(w, n, Dispatch).value;
  }

  lemma FrontIsLeft(w: World, plan: Plan, front: Stage)
    requires w.spec.Valid() && front in w.spec.stages && Candidate(plan, front.id) && front.execution.Agent?
    ensures IsLeft(front, plan)
  {}

  lemma StagePasses(bound: Bound, stage: Stage, redact: string -> string)
    returns (obs: seq<Observation>, reported: StageResult)
    requires bound.Valid() && stage.gate.Valid() && 1 <= stage.maxSteps <= MAX_STAGE_STEPS
    requires stage.gate.minSuccessfulActions <= stage.maxSteps && FinalPossible(stage.gate, redact)
    ensures reported.Valid() && |obs| <= stage.maxSteps
    ensures var r := Finished(bound, stage.gate, obs, reported, true, None, None, redact);
            && r.Ok? && r.value.active.Some? && r.value.active.value.outcome.Completed?
  {
    hide Finished, Blank, GoodReads, IsDigest;
    var gate := stage.gate;
    var text := if gate.requireFinal then var t :| !Blank(redact(t)); t else "";
    var k := if gate.minSuccessfulActions == 0 then 1 else gate.minSuccessfulActions;
    obs, reported := GoodReads(gate, k), GoodReport(text);
    GoodRunPasses(bound, gate, redact, text, k);
    FinishCoherent(bound, gate, obs, reported, true, None, None, redact);
    GoodReadsLength(gate, k);
  }

  lemma GoodReadsLength(gate: Gate, n: nat)
    ensures |GoodReads(gate, n)| == n
  {}

  lemma BoundIsValid(w: World, s: TaskState)
    requires w.spec.Valid() && s.Valid() && s.pending != "" && s.pending in s.plan.nodes
    ensures BoundTo(w, s).Valid()
  {
    hide IsDigest, IsIdentifier;
  }

  lemma ConcludeStep(w: World, m: Mission, stage: Stage) returns (e: Event, n: Mission)
    requires w.spec.Valid() && m.state.Valid() && PlanOf(w.spec, m.state.plan) && AllPassable(w)
    requires stage in w.spec.stages && stage.execution.Agent? && StageOf(w.spec, stage.id) == stage
    requires m.state.pending == stage.id && stage.id in m.state.plan.nodes
        && m.state.plan.nodes[stage.id].status.Running?
    requires stage.id != "" && 1 <= stage.maxSteps <= MAX_STAGE_STEPS
    ensures Step(w, m, e) == Some(n)
    ensures n.state == m.state.(
              plan := m.state.plan.WithStatus(stage.id, Success), active := n.state.active, pending := "",
              status := Investigating, revision := n.state.revision)
  {
    hide Finished, StageOf, Decided, FinalPossible, BoundTo, ActiveNodeResult.Valid, StageResult.Valid, Gate.Valid,
         Bound.Valid, Spec.Valid, TaskState.Valid, PlanOf;
    BoundIsValid(w, m.state);
    var obs, reported := StagePasses(BoundTo(w, m.state), stage, w.redact);
    e := Conclude(obs, reported, true, None, None);
    n := Step(w, m, e).value;
  }

  /** What stays true of a mission from stage to stage. */
  ghost predicate Underway(w: World, start: Plan, n: Mission) {
    && Inv(w, start, n) && w.spec.Valid() && n.state.Valid() && PlanOf(w.spec, n.state.plan)
    && start.Closed() && !Cyclic(start) && AllPassable(w) && Open(w, n.state) && Affords(w, n.state)
  }

  lemma UnderwayFacts(w: World, start: Plan, n: Mission)
    requires Underway(w, start, n)
    ensures w.spec.Valid() && n.state.Valid() && PlanOf(w.spec, n.state.plan) && NothingSkipped(n.state.plan)
    ensures n.state.plan.Closed() && !Cyclic(n.state.plan) && Open(w, n.state) && Affords(w, n.state)
    ensures "" !in n.state.plan.nodes
  {
    hide Cyclic, IsDigest, IsIdentifier, Open, Affords, AllPassable;
    InvBasics(w, start, n);
    SameShapeSameCycles(start, n.state.plan);
    NoEmptyIds(w.spec, n.state.plan);
  }

  /** One more step taken after a run. */
  lemma Take(w: World, start: Plan, n: Mission, taken: seq<Event>, m: Mission, e: Event)
    requires Run(w, n, taken) == Some(m) && Inv(w, start, m)
    requires w.spec.Valid() && PlanOf(w.spec, m.state.plan) && Step(w, m, e).Some?
    ensures var t := Step(w, m, e).value;
            && Run(w, n, taken + [e]) == Some(t) && Inv(w, start, t)
            && t.state.Valid() && PlanOf(w.spec, t.state.plan)
  {
    hide Run, Inv, Step, IsDigest, IsIdentifier;
    StepKeeps(w, start, m, e);
    InvBasics(w, start, Step(w, m, e).value);
    OneStep(w, m, e);
    RunOn(w, n, taken, [e]);
  }

  lemma BeginStep(w: World, m: Mission, id: string) returns (n: Mission)
    requires w.spec.Valid() && PlanOf(w.spec, m.state.plan)
    requires m.state.pending == id && id in m.state.plan.nodes && m.state.plan.nodes[id].status.Pending?
    ensures Step(w, m, Begin) == Some(n)
    ensures n.state == m.state.(plan := m.state.plan.WithStatus(id, Running), revision := n.state.revision)
  {
    hide Decided, IsDigest, IsIdentifier;
    n := Step(w, m, Begin).value;
  }

  /** Dispatch, begin and conclude the agent stage at the front. */
  lemma AgentCycle(w: World, start: Plan, n: Mission, stage: Stage) returns (more: seq<Event>, t: Mission)
    requires Underway(w, start, n) && Unfinished(n.state.plan)
    requires Front(n.state.plan, w.spec.stages) == Some(stage) && stage.execution.Agent?
    ensures Run(w, n, more) == Some(t) && Inv(w, start, t)
    ensures Advanced(n.state, t.state, stage.id)
    ensures t.state.budget.Some? <==> n.state.budget.Some?
    ensures t.state.budget.Some? ==>
              && t.state.budget.value.limits == n.state.budget.value.limits
              && t.state.budget.value.dispatches == n.state.budget.value.dispatches + 1
              && t.state.budget.value.steps == n.state.budget.value.steps + stage.maxSteps
  {
    hide Front, Cyclic, Decided, Advance, IsDigest, IsIdentifier, Inv, Affords, Finished, StageOf, DependenciesDone,
         AllPassable, Step, Run, Unfinished, Selected, AllCompletedBound;
    UnderwayFacts(w, start, n);
    FrontDecided(w, n.state);
    NoEvents(w, n);
    var m1 := DispatchStep(w, n);
    Take(w, start, n, [], n, Dispatch);
    var m2 := BeginStep(w, m1, stage.id);
    Take(w, start, n, [] + [Dispatch], m1, Begin);
    StageBounds(w.spec, stage);
    var e: Event;
    e, t := ConcludeStep(w, m2, stage);
    Take(w, start, n, [] + [Dispatch] + [Begin], m2, e);
    more := [] + [Dispatch] + [Begin] + [e];
    MarkedTwice(n.state.plan, stage.id);
  }

  lemma StageBounds(spec: Spec, stage: Stage)
    requires spec.Valid() && stage in spec.stages
    ensures 1 <= stage.maxSteps <= MAX_STAGE_STEPS
  {
    hide IsDigest, IsIdentifier;
  }

  lemma MarkedTwice(plan: Plan, id: string)
    requires id in plan.nodes
    ensures plan.WithStatus(id, Running).WithStatus(id, Success) == plan.WithStatus(id, Success)
    ensures plan.WithStatus(id, NeedsReview).WithStatus(id, Success) == plan.WithStatus(id, Success)
  {
    assert plan.WithStatus(id, Running).WithStatus(id, Success).nodes == plan.WithStatus(id, Success).nodes;
    assert plan.WithStatus(id, NeedsReview).WithStatus(id, Success).nodes == plan.WithStatus(id, Success).nodes;
  }

  lemma OpenGateStep(w: World, n: Mission, stage: Stage) returns (m: Mission)
    requires w.spec.Valid() && PlanOf(w.spec, n.state.plan) && stage.id in n.state.plan.nodes
    requires Decided(n.state, w.spec, w.hash).Ok?
    requires var d := Decided(n.state, w.spec, w.hash).value; d.outcome.AwaitApproval? && d.stageId == stage.id
    ensures Step(w, n, OpenGate) == Some(m)
    ensures m.state == n.state.(plan := n.state.plan.WithStatus(stage.id, NeedsReview), status := TaskBlocked,
                                revision := m.state.revision)
  {
    hide Decided, IsDigest, IsIdentifier;
    m := Step(w, n, OpenGate).value;
  }

  lemma ApproveStep(w: World, m: Mission, stage: Stage) returns (n: Mission)
    requires w.spec.Valid() && PlanOf(w.spec, m.state.plan) && stage.id in m.state.plan.nodes
    requires StageOf(w.spec, stage.id) == stage && stage.execution.Human?
    requires m.state.plan.nodes[stage.id].status.NeedsReview? && DependenciesDone(m.state.plan, stage.id)
    ensures Step(w, m, Approve(stage.id)) == Some(n)
    ensures n.state == m.state.(plan := m.state.plan.WithStatus(stage.id, Success), status := Investigating,
                                revision := n.state.revision)
  {
    hide Decided, IsDigest, IsIdentifier, StageOf, DependenciesDone;
    n := Step(w, m, Approve(stage.id)).value;
  }

  /** Open the human gate at the front, unless it is open already, and approve it. */
  lemma HumanCycle(w: World, start: Plan, n: Mission, stage: Stage) returns (more: seq<Event>, t: Mission)
    requires Underway(w, start, n) && Unfinished(n.state.plan)
    requires Front(n.state.plan, w.spec.stages) == Some(stage) && stage.execution.Human?
    ensures Run(w, n, more) == Some(t) && Inv(w, start, t)
    ensures Advanced(n.state, t.state, stage.id) && t.state.budget == n.state.budget
  {
    hide Front, Cyclic, Decided, Advance, IsDigest, IsIdentifier, Inv, Affords, Finished, StageOf, DependenciesDone,
         AllPassable, Step, Run, Unfinished, Selected, AllCompletedBound;
    UnderwayFacts(w, start, n);
    FrontDecided(w, n.state);
    NoEvents(w, n);
    MarkedTwice(n.state.plan, stage.id);
    var m := n;
    more := [];
    if n.state.plan.nodes[stage.id].status.Pending? {
      m := OpenGateStep(w, n, stage);
      Take(w, start, n, more, n, OpenGate);
      more := more + [OpenGate];
      StillReady(n.state.plan, stage.id);
    }
    t := ApproveStep(w, m, stage);
    Take(w, start, n, more, m, Approve(stage.id));
    more := more + [Approve(stage.id)];
  }

  lemma StillReady(plan: Plan, id: string)
    requires Candidate(plan, id)
    ensures DependenciesDone(plan.WithStatus(id, NeedsReview), id)
  {
    var marked := plan.WithStatus(id, NeedsReview);
    forall d | d in marked.nodes[id].dependsOn ensures d in marked.nodes && marked.nodes[d].status.Success? {
      assert d != id;
    }
  }

  lemma StillAffords(w: World, s: TaskState, t: TaskState, stage: Stage)
    requires w.spec.Valid() && stage in w.spec.stages && Advanced(s, t, stage.id) && Affords(w, s)
    requires !s.plan.nodes[stage.id].status.Success?
    requires t.budget.Some? <==> s.budget.Some?
    requires t.budget.Some? ==>
               && t.budget.value.limits == s.budget.value.limits
               && t.budget.value.dispatches == s.budget.value.dispatches + (if stage.execution.Agent? then 1 else 0)
               && t.budget.value.steps == s.budget.value.steps + (if stage.execution.Agent? then stage.maxSteps else 0)
    ensures Affords(w, t)
  {
    hide IsDigest, IsIdentifier;
    FinishedOneLess(w.spec.stages, s.plan, t.plan, stage.id);
  }

  function OpenIds(plan: Plan): set<string> {
    set id | id in plan.nodes && !plan.nodes[id].status.Success?
  }

  /** From an open mission the stages at the front can be finished one after the other. */
  lemma {:induction false} FinishAll(w: World, start: Plan, n: Mission) returns (more: seq<Event>)
    requires Underway(w, start, n)
    ensures Run(w, n, more).Some?
    ensures var s := Run(w, n, more).value.state;
            && PlanOf(w.spec, s.plan) && w.spec.Valid()
            && Decided(s, w.spec, w.hash).Ok? && Decided(s, w.spec, w.hash).value.outcome.MissionComplete?
    decreases |OpenIds(n.state.plan)|
  {
    hide Front, Cyclic, Decided, IsDigest, IsIdentifier, Inv, Open, Affords, AllPassable, Run, DependenciesDone;
    UnderwayFacts(w, start, n);
    if !Unfinished(n.state.plan) {
      more := [];
      assert Run(w, n, []) == Some(n) by { NoEvents(w, n); }
      DoneIsComplete(w, n.state);
    } else {
      FrontDecided(w, n.state);
      var stage := Front(n.state.plan, w.spec.stages).value;
      var first, t;
      if stage.execution.Agent? {
        first, t := AgentCycle(w, start, n, stage);
      } else {
        first, t := HumanCycle(w, start, n, stage);
      }
      StillUnderway(w, start, n, t, stage);
      var rest := FinishAll(w, start, t);
      RunOn(w, n, first, rest);
      more := first + rest;
    }
  }

  lemma NoEvents(w: World, n: Mission)
    ensures Run(w, n, []) == Some(n)
  {}

  lemma StillUnderway(w: World, start: Plan, n: Mission, t: Mission, stage: Stage)
    requires Underway(w, start, n) && Inv(w, start, t) && Advanced(n.state, t.state, stage.id)
    requires stage in w.spec.stages && Candidate(n.state.plan, stage.id)
    requires t.state.budget.Some? <==> n.state.budget.Some?
    requires t.state.budget.Some? ==>
               && t.state.budget.value.limits == n.state.budget.value.limits
               && t.state.budget.value.dispatches == n.state.budget.value.dispatches
                 + (if stage.execution.Agent? then 1 else 0)
               && t.state.budget.value.steps == n.state.budget.value.steps
                 + (if stage.execution.Agent? then stage.maxSteps else 0)
    ensures Underway(w, start, t)
    ensures |OpenIds(t.state.plan)| < |OpenIds(n.state.plan)|
  {
    hide Cyclic, IsDigest, IsIdentifier, Inv, Open, Affords, AllPassable, DependenciesDone, AllCompletedBound,
         SameShape, NothingSkipped;
    InvBasics(w, start, t);
    StillOpen(w, n.state, t.state, stage.id);
    StillAffords(w, n.state, t.state, stage);
    OneFewerOpen(n.state.plan, stage.id);
  }

  lemma OneFewerOpen(plan: Plan, id: string)
    requires id in OpenIds(plan)
    ensures |OpenIds(plan.WithStatus(id, Success))| < |OpenIds(plan)|
  {
    assert OpenIds(plan.WithStatus(id, Success)) == OpenIds(plan) - {id};
  }

  lemma DoneIsComplete(w: World, s: TaskState)
    requires w.spec.Valid() && s.Valid() && PlanOf(w.spec, s.plan) && s.plan.Closed() && !Cyclic(s.plan)
    requires Open(w, s) && !Unfinished(s.plan)
    ensures Decided(s, w.spec, w.hash).Ok? && Decided(s, w.spec, w.hash).value.outcome.MissionComplete?
  {
    hide Cyclic, Selected, IsDigest, IsIdentifier, ReviewOf, Advance, AllCompletedBound, StageOf, Front;
    assert w.spec.stages[0].id in StageIds(w.spec.stages);
  }

  /** Every reachable mission that is open can still be completed: on an acyclic plan, with gates
      that can be passed and a budget that covers the agent stages left, some continuation of the
      run ends in the decision that the mission is complete. */
  lemma OpenMissionsCanComplete(w: World, m: Mission, events: seq<Event>) returns (more: seq<Event>)
    requires Initial(w, m) && Run(w, m, events).Some?
    requires m.state.plan.Closed() && !Cyclic(m.state.plan) && AllPassable(w)
    requires PlanOf(w.spec, Run(w, m, events).value.state.plan)
    requires Open(w, Run(w, m, events).value.state) && Affords(w, Run(w, m, events).value.state)
    ensures Run(w, m, events + more).Some?
    ensures var s := Run(w, m, events + more).value.state;
            && w.spec.Valid() && PlanOf(w.spec, s.plan)
            && Decided(s, w.spec, w.hash).Ok? && Decided(s, w.spec, w.hash).value.outcome.MissionComplete?
  {
    hide Run, Inv, Initial, Open, Affords, AllPassable, Decided, Cyclic, IsDigest, IsIdentifier;
    RunKeepsInv(w, m, events);
    var n := Run(w, m, events).value;
    InvBasics(w, m.state.plan, n);
    more := FinishAll(w, m.state.plan, n);
    RunOn(w, m, events, more);
  }

  /** In particular a new mission can: selected, with a budget for all its agent stages. */
  lemma NewMissionsCanComplete(w: World, m: Mission) returns (events: seq<Event>)
    requires Initial(w, m) && m.state.plan.Closed() && !Cyclic(m.state.plan) && AllPassable(w)
    requires Selected(m.state, w.spec) && m.state.stop.None? && m.state.status.Investigating?
    requires m.state.questions == [] && m.state.conditions == []
    requires m.state.budget.Some? ==>
               && AgentsLeft(w.spec.stages, m.state.plan) <= m.state.budget.value.limits.maxDispatches
               && StepsLeft(w.spec.stages, m.state.plan) <= m.state.budget.value.limits.maxSteps
    ensures Run(w, m, events).Some?
    ensures var s := Run(w, m, events).value.state;
            && w.spec.Valid() && PlanOf(w.spec, s.plan)
            && Decided(s, w.spec, w.hash).Ok? && Decided(s, w.spec, w.hash).value.outcome.MissionComplete?
  {
    hide Run, Decided, Cyclic, IsDigest, IsIdentifier, Selected, AllPassable, StageOf;
    NoEvents(w, m);
    var more := OpenMissionsCanComplete(w, m, []);
    events := [] + more;
  }
}
