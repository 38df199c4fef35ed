/** The Core decision: what a mission does next, judged from its durable state alone. */
module CorePlanner {
  import opened Prelude
  import opened PlanDag
  import opened CoreBudget
  import opened ActiveResults

  // ---- The reviewed workflow ----

  datatype Execution = Agent | Human

  datatype Stage = Stage(id: string, dependsOn: seq<string>, execution: Execution, maxSteps: int, gate: Gate)

  datatype Spec = Spec(name: string, version: string, fingerprint: string, stages: seq<Stage>) {
    predicate Valid() {
      && stages != [] && IsDigest(fingerprint)
      && (forall i, j | 0 <= i < j < |stages| :: stages[i].id != stages[j].id)
      && (forall i | 0 <= i < |stages| :: IsIdentifier(stages[i].id) && 1 <= stages[i].maxSteps <= MAX_STAGE_STEPS)
    }
  }

  function StageIds(stages: seq<Stage>): set<string> { set s | s in stages :: s.id }

  /** Position of a stage in declaration order. */
  function IndexOfStage(stages: seq<Stage>, id: string): (i: nat)
    requires id in StageIds(stages)
    ensures i < |stages| && stages[i].id == id
  {
    if stages[0].id == id then 0 else 1 + IndexOfStage(stages[1..], id)
  }

  function StageOf(spec: Spec, id: string): (s: Stage)
    requires id in StageIds(spec.stages)
    ensures s in spec.stages && s.id == id
  {
    spec.stages[IndexOfStage(spec.stages, id)]
  }

  lemma StageIsUnique(spec: Spec, s: Stage)
    requires spec.Valid() && s in spec.stages
    ensures s.id in StageIds(spec.stages) && StageOf(spec, s.id) == s
  {
    var j :| 0 <= j < |spec.stages| && spec.stages[j] == s;
    var i := IndexOfStage(spec.stages, s.id);
    assert spec.stages[i].id == spec.stages[j].id;
  }

  // ---- The durable task state ----

  datatype TaskStatus = Investigating | TaskBlocked | TaskComplete | TaskFailed

  datatype Strategy = Strategy(name: string, version: string, fingerprint: string, stageOrder: seq<string>)

  /** `selection` is the fingerprint of the selected reviewed workflow, `stop` the session that a
      recorded mission stop names, `pending` the stage of an unfinished dispatch or the empty
      string, and `fingerprint` the digest of the state itself. */
  datatype TaskState = TaskState(
    sessionId: string, revision: nat, fingerprint: string, plan: Plan, active: map<string, ActiveNodeResult>,
    questions: seq<string>, conditions: seq<string>, status: TaskStatus,
    selection: Option<string>, strategy: Option<Strategy>, stop: Option<string>, pending: string,
    budget: Option<Budget>)
  {
    ghost predicate Valid() {
      && 1 <= |sessionId| <= 128 && IsDigest(fingerprint)
      && plan.Valid() && (forall id | id in plan.nodes :: IsDigest(plan.nodes[id].fingerprint))
      && (budget.Some? ==> budget.value.Valid())
    }
  }

  /** The plan has one node per stage of the workflow. */
  predicate PlanOf(spec: Spec, plan: Plan) {
    plan.nodes.Keys == StageIds(spec.stages)
  }

  // ---- Decisions ----

  datatype DecisionOutcome =
    | Delegate | AwaitApproval | ReviewNeeded | MissionComplete | MissionFailed | BudgetExhausted | Stopped

  datatype Reason =
    | StageDelegated | GateNeedsApproval | InterruptedWork | UnboundWork | NoReadyWork | AllStagesBound
    | WorkflowFailure | BudgetRefusal(refusal: Refusal) | HumanStop

  datatype ReviewCategory = MaterialReplan | EscalationReview | PlainReview

  datatype ReviewReason = ReplanSeparately | NoAutomaticRetry | NoAuthorityGranted

  datatype Review = Review(category: ReviewCategory, reason: ReviewReason, stageId: string, nodeFingerprint: string,
                           activeFingerprint: string, outcome: Option<Outcome>, kind: Option<EscalationKind>)
  {
    /** The cross-field validator of a review request. */
    predicate Valid() {
      var sourced := !category.PlainReview?;
      && (stageId == "" || IsIdentifier(stageId))
      && IsDigestOrEmpty(nodeFingerprint) && IsDigestOrEmpty(activeFingerprint)
      && reason == (match category
                      case MaterialReplan => ReplanSeparately
                      case EscalationReview => NoAutomaticRetry
                      case PlainReview => NoAuthorityGranted)
      && (stageId != "" <==> nodeFingerprint != "")
      && (sourced <==> activeFingerprint != "")
      && (sourced <==> outcome.Some? && kind.Some?)
      && (!sourced ==> outcome.None? && kind.None?)
      && (sourced ==>
            && stageId != "" && outcome != Some(Completed)
            && (category.MaterialReplan? <==> outcome == Some(NeedsReplan) || kind == Some(MaterialChangeKind)))
    }
  }

  /** The public reasons each outcome may carry. */
  predicate ReasonFits(outcome: DecisionOutcome, reason: Reason) {
    match outcome
    case Delegate => reason.StageDelegated?
    case AwaitApproval => reason.GateNeedsApproval?
    case ReviewNeeded => reason.InterruptedWork? || reason.UnboundWork? || reason.NoReadyWork?
    case MissionComplete => reason.AllStagesBound?
    case MissionFailed => reason.WorkflowFailure?
    case BudgetExhausted => reason.BudgetRefusal?
    case Stopped => reason.HumanStop?
  }

  datatype Decision = Decision(
    sessionId: string, stateVersion: nat, stateFingerprint: string, workflowFingerprint: string,
    outcome: DecisionOutcome, reason: Reason, stageId: string, nodeFingerprint: string, maxSteps: int,
    review: Option<Review>)
  {
    /** The cross-field validator of a decision. */
    predicate Valid() {
      && 1 <= |sessionId| <= 128 && IsDigest(stateFingerprint) && IsDigest(workflowFingerprint)
      && (stageId == "" || IsIdentifier(stageId)) && IsDigestOrEmpty(nodeFingerprint) && 0 <= maxSteps <= 32
      && ReasonFits(outcome, reason)
      && (if outcome.Delegate? || outcome.AwaitApproval? then stageId != "" && nodeFingerprint != ""
          else stageId == "" && nodeFingerprint == "")
      && (outcome.Delegate? <==> maxSteps > 0)
      && (review.Some? ==>
            review.value.Valid() && (outcome.ReviewNeeded? || outcome.MissionFailed? || outcome.BudgetExhausted?))
    }
  }

  // ---- The checks, each independent of the order the nodes are visited in ----

  predicate SomeNode(plan: Plan, status: NodeStatus) {
    exists id | id in plan.nodes :: plan.nodes[id].status == status
  }

  predicate Interrupted(state: TaskState, spec: Spec)
    requires PlanOf(spec, state.plan)
  {
    || state.pending != "" || SomeNode(state.plan, Running)
    || exists id | id in state.plan.nodes ::
         state.plan.nodes[id].status.NeedsReview? && !StageOf(spec, id).execution.Human?
  }

  /** A verified completion of this very node under this very workflow and session. */
  predicate BoundCompletion(state: TaskState, spec: Spec, id: string)
    requires id in state.plan.nodes
  {
    && id in state.active
    && var a := state.active[id];
       && a.sessionId == state.sessionId && a.nodeId == id && a.workflowFingerprint == spec.fingerprint
       && a.nodeFingerprint == state.plan.nodes[id].fingerprint && a.outcome.Completed? && a.gatePassed
  }

  predicate AllCompletedBound(state: TaskState, spec: Spec)
    requires PlanOf(spec, state.plan)
  {
    forall id | id in state.plan.nodes && state.plan.nodes[id].status.Success? && StageOf(spec, id).execution.Agent? ::
      BoundCompletion(state, spec, id)
  }

  predicate AllDone(plan: Plan) {
    plan.nodes != map[] && forall id | id in plan.nodes :: plan.nodes[id].status.Success?
  }

  predicate DependenciesDone(plan: Plan, id: string)
    requires id in plan.nodes
  {
    forall d | d in plan.nodes[id].dependsOn :: d in plan.nodes && plan.nodes[d].status.Success?
  }

  predicate Candidate(plan: Plan, id: string) {
    && id in plan.nodes && DependenciesDone(plan, id)
    && (plan.nodes[id].status.Pending? || plan.nodes[id].status.NeedsReview?)
  }

  predicate ReadyWith(plan: Plan, id: string, status: NodeStatus) {
    id in plan.nodes && plan.nodes[id].status == status && DependenciesDone(plan, id)
  }

  /** The first stage in declaration order that is ready with the given status. */
  function FirstReady(plan: Plan, stages: seq<Stage>, status: NodeStatus): (r: Option<Stage>)
    ensures r.Some? ==> r.value in stages && ReadyWith(plan, r.value.id, status)
    decreases |stages|
  {
    if stages == [] then None
    else if ReadyWith(plan, stages[0].id, status) then Some(stages[0])
    else
      assert forall s | s in stages[1..] :: s in stages;
      FirstReady(plan, stages[1..], status)
  }

  /** A waiting human gate goes before pending work; ties go to declaration order. */
  function Front(plan: Plan, stages: seq<Stage>): Option<Stage> {
    var gate := FirstReady(plan, stages, NeedsReview);
    if gate.Some? then gate else FirstReady(plan, stages, Pending)
  }

  // ---- The review request of a stop ----

  predicate Relevant(state: TaskState, id: string, outcome: DecisionOutcome, reason: Reason)
    requires id in state.plan.nodes
  {
    var status := state.plan.nodes[id].status;
    if outcome.MissionFailed? then status.Error?
    else status.Running? || status.NeedsReview? || id == state.pending || (status.Success? && reason.UnboundWork?)
  }

  function FirstRelevant(state: TaskState, stages: seq<Stage>, outcome: DecisionOutcome,
      reason: Reason): (r: Option<Stage>)
    requires StageIds(stages) <= state.plan.nodes.Keys
    ensures r.Some? ==> r.value in stages
    decreases |stages|
  {
    if stages == [] then None
    else
      assert stages[0].id in StageIds(stages);
      assert forall s | s in stages[1..] :: s in stages;
      if Relevant(state, stages[0].id, outcome, reason) && !stages[0].execution.Human? then Some(stages[0])
      else FirstRelevant(state, stages[1..], outcome, reason)
  }

  /** An incomplete, escalated Active result bound to this node, session and workflow. */
  predicate BoundCause(state: TaskState, spec: Spec, id: string)
    requires id in state.plan.nodes
  {
    && id in state.active
    && var a := state.active[id];
       && a.sessionId == state.sessionId && a.nodeId == id && a.workflowFingerprint == spec.fingerprint
       && a.nodeFingerprint == state.plan.nodes[id].fingerprint && !a.outcome.Completed? && a.escalation.Some?
  }

  /** `hash` is the digest of an Active result's canonical encoding. */
  function ReviewOf(state: TaskState, spec: Spec, outcome: DecisionOutcome, reason: Reason,
                    hash: ActiveNodeResult -> string): Review
    requires PlanOf(spec, state.plan)
  {
    match FirstRelevant(state, spec.stages, outcome, reason)
    case None => Review(PlainReview, NoAuthorityGranted, "", "", "", None, None)
    case Some(stage) =>
      assert stage.id in StageIds(spec.stages);
      var node := state.plan.nodes[stage.id];
      if BoundCause(state, spec, stage.id) then
        var a := state.active[stage.id];
        var material := a.outcome.NeedsReplan? || a.escalation.value.kind.MaterialChangeKind?;
        Review(if material then MaterialReplan else EscalationReview,
               if material then ReplanSeparately else NoAutomaticRetry,
               stage.id, node.fingerprint, hash(a), Some(a.outcome), Some(a.escalation.value.kind))
      else Review(PlainReview, NoAuthorityGranted, stage.id, node.fingerprint, "", None, None)
  }

  function Stop(state: TaskState, spec: Spec, outcome: DecisionOutcome, reason: Reason,
                hash: ActiveNodeResult -> string): Decision
    requires PlanOf(spec, state.plan)
  {
    Decision(state.sessionId, state.revision, state.fingerprint, spec.fingerprint, outcome, reason, "", "", 0,
             if outcome.ReviewNeeded? || outcome.MissionFailed? || outcome.BudgetExhausted?
             then Some(ReviewOf(state, spec, outcome, reason, hash)) else None)
  }

  /** The decision for the stage at the front: approval, delegation, or a refusal. */
  function Advance(state: TaskState, spec: Spec, stage: Stage, hash: ActiveNodeResult -> string): Decision
    requires PlanOf(spec, state.plan) && stage in spec.stages && stage.id in state.plan.nodes
    requires 1 <= stage.maxSteps <= MAX_STAGE_STEPS
  {
    var human := stage.execution.Human?;
    var refusal := if human || state.budget.None? then None else state.budget.value.StopReason(stage.maxSteps).value;
    if refusal.Some? then Stop(state, spec, BudgetExhausted, BudgetRefusal(refusal.value), hash)
    else if state.status.TaskBlocked? && !human then Stop(state, spec, ReviewNeeded, NoReadyWork, hash)
    else Decision(state.sessionId, state.revision, state.fingerprint, spec.fingerprint,
                  if human then AwaitApproval else Delegate,
                  if human then GateNeedsApproval else StageDelegated,
                  stage.id, state.plan.nodes[stage.id].fingerprint, if human then 0 else stage.maxSteps, None)
  }

  /** The decision on a mission that was not stopped, without reference to any visiting order. */
  function Judge(state: TaskState, spec: Spec, hash: ActiveNodeResult -> string): Decision
    requires PlanOf(spec, state.plan) && spec.Valid()
  {
    var front := Front(state.plan, spec.stages);
    if state.status.TaskFailed? || SomeNode(state.plan, Error) then
      Stop(state, spec, MissionFailed, WorkflowFailure, hash)
    else if Interrupted(state, spec) then Stop(state, spec, ReviewNeeded, InterruptedWork, hash)
    else if !AllCompletedBound(state, spec) then Stop(state, spec, ReviewNeeded, UnboundWork, hash)
    else if state.questions != [] then Stop(state, spec, ReviewNeeded, NoReadyWork, hash)
    else if AllDone(state.plan) then
      if state.conditions != [] then Stop(state, spec, ReviewNeeded, NoReadyWork, hash)
      else Stop(state, spec, MissionComplete, AllStagesBound, hash)
    else if front.None? || state.status.TaskComplete? then Stop(state, spec, ReviewNeeded, NoReadyWork, hash)
    else Advance(state, spec, front.value, hash)
  }

  predicate Selected(state: TaskState, spec: Spec) {
    && state.selection == Some(spec.fingerprint)
    && (state.strategy.Some? ==>
          state.strategy.value == Strategy(spec.name, spec.version, spec.fingerprint,
                                           seq(|spec.stages|, i requires 0 <= i < |spec.stages| => spec.stages[i].id)))
  }

  /** `decide`, including the inputs on which it raises. */
  ghost function Decided(state: TaskState, spec: Spec, hash: ActiveNodeResult -> string): Result<Decision>
    requires PlanOf(spec, state.plan) && spec.Valid()
  {
    if !Selected(state, spec) then Raised
    else if !state.plan.Closed() || Cyclic(state.plan) then Raised
    else if state.stop.Some? then
      if state.stop.value != state.sessionId then Raised else Ok(Stop(state, spec, Stopped, HumanStop, hash))
    else Ok(Judge(state, spec, hash))
  }

  // ---- The front is the head of the ready list sorted by gate and declaration order ----

  function Rank(plan: Plan, stages: seq<Stage>, id: string): nat
    requires id in plan.nodes && id in StageIds(stages)
  {
    IndexOfStage(stages, id) + if plan.nodes[id].status.NeedsReview? then 0 else |stages|
  }

  /** The first ready stage in declaration order is before every other ready one. */
  lemma {:induction false} FirstReadyIsFirst(plan: Plan, stages: seq<Stage>, status: NodeStatus)
    ensures FirstReady(plan, stages, status).None? ==>
              forall id | id in StageIds(stages) :: !ReadyWith(plan, id, status)
    ensures FirstReady(plan, stages, status).Some? ==>
              var s := FirstReady(plan, stages, status).value;
              forall id | id in StageIds(stages) && ReadyWith(plan, id, status) ::
                s.id in StageIds(stages) && IndexOfStage(stages, s.id) <= IndexOfStage(stages, id)
    decreases |stages|
  {
    if stages != [] && !ReadyWith(plan, stages[0].id, status) {
      FirstReadyIsFirst(plan, stages[1..], status);
      assert forall s :: s in stages <==> s == stages[0] || s in stages[1..];
    }
  }

  /** The front is the ready node of least rank, and missing exactly when nothing is ready. */
  lemma FrontIsLeast(plan: Plan, stages: seq<Stage>)
    requires plan.nodes.Keys == StageIds(stages)
    ensures Front(plan, stages).None? <==> forall id | id in plan.nodes :: !Candidate(plan, id)
    ensures Front(plan, stages).Some? ==>
              var s := Front(plan, stages).value;
              && s in stages && Candidate(plan, s.id)
              && forall id | id in plan.nodes && Candidate(plan, id) ::
                Rank(plan, stages, s.id) <= Rank(plan, stages, id)
  {
    FirstReadyIsFirst(plan, stages, NeedsReview);
    FirstReadyIsFirst(plan, stages, Pending);
    forall id | id in plan.nodes
      ensures Candidate(plan, id) <==> ReadyWith(plan, id, NeedsReview) || ReadyWith(plan, id, Pending)
    {}
  }

  lemma RankIsInjective(plan: Plan, stages: seq<Stage>, a: string, b: string)
    requires plan.nodes.Keys == StageIds(stages) && a in plan.nodes && b in plan.nodes
    requires Rank(plan, stages, a) == Rank(plan, stages, b)
    ensures a == b
  {
    assert stages[IndexOfStage(stages, a)].id == a && stages[IndexOfStage(stages, b)].id == b;
  }

  /** `ready.sort(...)[0]`: the ready node of least rank, found over any listing of the nodes. */
  method FirstOf(plan: Plan, spec: Spec, nodes: seq<string>) returns (r: Option<Stage>)
    requires spec.Valid() && PlanOf(spec, plan) && forall id :: id in plan.nodes <==> id in nodes
    ensures r == Front(plan, spec.stages)
  {
    hide Front, DependenciesDone, IsIdentifier, IsDigest;
    var stages := spec.stages;
    var best: Option<string> := None;
    for i := 0 to |nodes|
      invariant best.None? ==> forall id | id in nodes[..i] :: !Candidate(plan, id)
      invariant best.Some? ==> best.value in plan.nodes && Candidate(plan, best.value)
      invariant best.Some? ==> forall id | id in nodes[..i] && Candidate(plan, id) ::
                  Rank(plan, stages, best.value) <= Rank(plan, stages, id)
    {
      var id := nodes[i];
      assert nodes[..i + 1] == nodes[..i] + [id];
      if Candidate(plan, id) && (best.None? || Rank(plan, stages, id) < Rank(plan, stages, best.value)) {
        best := Some(id);
      }
    }
    assert nodes[..|nodes|] == nodes;
    FrontIsLeast(plan, stages);
    if best.None? {
      return None;
    }
    RankIsInjective(plan, stages, best.value, Front(plan, stages).value.id);
    StageIsUnique(spec, Front(plan, stages).value);
    r := Some(StageOf(spec, best.value));
  }

  lemma SortFailureMeans(p: Plan, sorted: Sorted)
    requires sorted.Order? ==> Listing(p, sorted.ids) && p.Closed()
    requires sorted.Cycle? ==> Cyclic(p)
    requires sorted.Unknown? ==> sorted.id !in p.nodes && exists x :: p.DependsOn(x, sorted.id)
    ensures sorted.Order? <==> p.Closed() && !Cyclic(p)
  {
    if sorted.Order? {
      ListingMeansAcyclic(p, sorted.ids);
    }
    if sorted.Unknown? {
      var x :| p.DependsOn(x, sorted.id);
    }
  }

  /** The loop over completed nodes: is each agent stage's success bound to its verification? */
  method CheckCompleted(state: TaskState, spec: Spec, nodes: seq<string>) returns (ok: bool)
    requires PlanOf(spec, state.plan) && forall id :: id in state.plan.nodes <==> id in nodes
    ensures ok <==> AllCompletedBound(state, spec)
  {
    hide BoundCompletion, IndexOfStage;
    for i := 0 to |nodes|
      invariant forall id | id in nodes[..i] && state.plan.nodes[id].status.Success?
                            && StageOf(spec, id).execution.Agent? :: BoundCompletion(state, spec, id)
    {
      var id := nodes[i];
      assert nodes[..i + 1] == nodes[..i] + [id];
      if !state.plan.nodes[id].status.Success? || StageOf(spec, id).execution.Human? {
        continue;
      }
      if !BoundCompletion(state, spec, id) {
        return false;
      }
    }
    assert nodes[..|nodes|] == nodes;
    ok := true;
  }

  /** Checking over a listing of the nodes is checking over the plan. */
  lemma ListingChecks(state: TaskState, spec: Spec, nodes: seq<string>)
    requires PlanOf(spec, state.plan) && forall id :: id in state.plan.nodes <==> id in nodes
    ensures SomeNode(state.plan, Error) <==> exists id | id in nodes :: state.plan.nodes[id].status.Error?
    ensures Interrupted(state, spec) <==>
            || state.pending != ""
            || exists id | id in nodes ::
                 || state.plan.nodes[id].status.Running?
                 || (state.plan.nodes[id].status.NeedsReview? && !StageOf(spec, id).execution.Human?)
    ensures AllDone(state.plan) <==> nodes != [] && forall id | id in nodes :: state.plan.nodes[id].status.Success?
  {
    hide StageOf;
    assert nodes == [] ==> state.plan.nodes == map[];
    assert nodes != [] ==> nodes[0] in state.plan.nodes;
  }

  /** The body of `decide` once the plan is sorted and no stop is recorded. */
  method JudgeOver(state: TaskState, spec: Spec, nodes: seq<string>, hash: ActiveNodeResult -> string)
    returns (d: Decision)
    requires spec.Valid() && PlanOf(spec, state.plan)
    requires (set id | id in nodes) == state.plan.nodes.Keys
    ensures d == Judge(state, spec, hash)
  {
    hide Stop, Advance, Front, AllCompletedBound, StageOf, Candidate, Rank, SomeNode, Interrupted, AllDone;
    var plan := state.plan;
    assert forall id :: id in plan.nodes <==> id in nodes by {
      assert forall id :: id in nodes <==> id in (set x | x in nodes);
    }
    ListingChecks(state, spec, nodes);
    if state.status.TaskFailed? || exists id | id in nodes :: plan.nodes[id].status.Error? {
      return Stop(state, spec, MissionFailed, WorkflowFailure, hash);
    }
    if state.pending != "" || exists id | id in nodes ::
         plan.nodes[id].status.Running? || (plan.nodes[id].status.NeedsReview? && !StageOf(spec, id).execution.Human?)
    {
      return Stop(state, spec, ReviewNeeded, InterruptedWork, hash);
    }
    var bound := CheckCompleted(state, spec, nodes);
    if !bound {
      return Stop(state, spec, ReviewNeeded, UnboundWork, hash);
    }
    if state.questions != [] {
      return Stop(state, spec, ReviewNeeded, NoReadyWork, hash);
    }
    if nodes != [] && forall id | id in nodes :: plan.nodes[id].status.Success? {
      return if state.conditions != [] then Stop(state, spec, ReviewNeeded, NoReadyWork, hash)
             else Stop(state, spec, MissionComplete, AllStagesBound, hash);
    }
    var front := FirstOf(plan, spec, nodes);
    if front.None? || state.status.TaskComplete? {
      return Stop(state, spec, ReviewNeeded, NoReadyWork, hash);
    }
    FrontIsLeast(plan, spec.stages);
    d := Advance(state, spec, front.value, hash);
  }

  /** `CoreWorkflowPlanner.decide`. */
  method Decide(state: TaskState, spec: Spec, hash: ActiveNodeResult -> string) returns (r: Result<Decision>)
    requires state.Valid() && spec.Valid() && PlanOf(spec, state.plan)
    ensures r == Decided(state, spec, hash)
  {
    hide Stop, Judge, Selected;
    if !Selected(state, spec) {
      return Raised;
    }
    var sorted := TopologicalOrder(state.plan);
    SortFailureMeans(state.plan, sorted);
    if !sorted.Order? {
      return Raised;
    }
    if state.stop.Some? {
      return if state.stop.value != state.sessionId then Raised else Ok(Stop(state, spec, Stopped, HumanStop, hash));
    }
    var d := JudgeOver(state, spec, sorted.ids, hash);
    r := Ok(d);
  }
}
