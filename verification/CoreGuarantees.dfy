/** What the Core decision guarantees across the plan, the Active results and the budget. */
module CoreGuarantees {
  import opened Prelude
  import opened PlanDag
  import opened CoreBudget
  import opened ActiveResults
  import opened CorePlanner

  // ---- Every decision satisfies its validators ----

  /** Whatever the state, the review request built for it passes its own validator. */
  lemma ReviewAlwaysValid(state: TaskState, spec: Spec, outcome: DecisionOutcome, reason: Reason,
      hash: ActiveNodeResult -> string)
    requires state.Valid() && spec.Valid() && PlanOf(spec, state.plan)
    requires forall a :: IsDigest(hash(a))
    ensures ReviewOf(state, spec, outcome, reason, hash).Valid()
  {
    hide IsDigest, IsIdentifier, Relevant;
    var found := FirstRelevant(state, spec.stages, outcome, reason);
    if found.Some? {
      assert found.value.id in StageIds(spec.stages);
      DigestNonEmpty(state.plan.nodes[found.value.id].fingerprint);
      if found.value.id in state.active { DigestNonEmpty(hash(state.active[found.value.id])); }
      IdentifierNonEmpty(found.value.id);
    }
  }

  lemma DigestNonEmpty(s: string)
    ensures IsDigest(s) ==> s != ""
  {}

  lemma IdentifierNonEmpty(s: string)
    ensures IsIdentifier(s) ==> s != ""
  {}

  lemma StopAlwaysValid(state: TaskState, spec: Spec, outcome: DecisionOutcome, reason: Reason,
      hash: ActiveNodeResult -> string)
    requires state.Valid() && spec.Valid() && PlanOf(spec, state.plan)
    requires forall a :: IsDigest(hash(a))
    requires !outcome.Delegate? && !outcome.AwaitApproval? && ReasonFits(outcome, reason)
    ensures Stop(state, spec, outcome, reason, hash).Valid()
  {
    hide IsDigest, IsIdentifier, ReviewOf;
    ReviewAlwaysValid(state, spec, outcome, reason, hash);
  }

  lemma AdvanceAlwaysValid(state: TaskState, spec: Spec, stage: Stage, hash: ActiveNodeResult -> string)
    requires state.Valid() && spec.Valid() && PlanOf(spec, state.plan)
    requires forall a :: IsDigest(hash(a))
    requires stage in spec.stages && stage.id in state.plan.nodes
    ensures Advance(state, spec, stage, hash).Valid()
  {
    hide IsDigest, IsIdentifier, Stop;
    forall refusal ensures Stop(state, spec, BudgetExhausted, BudgetRefusal(refusal), hash).Valid() {
      StopAlwaysValid(state, spec, BudgetExhausted, BudgetRefusal(refusal), hash);
    }
    StopAlwaysValid(state, spec, ReviewNeeded, NoReadyWork, hash);
    DigestNonEmpty(state.plan.nodes[stage.id].fingerprint);
    IdentifierNonEmpty(stage.id);
  }

  /** `decide` never builds a decision or a review request its own validators would refuse. */
  lemma DecisionAlwaysValid(state: TaskState, spec: Spec, hash: ActiveNodeResult -> string)
    requires state.Valid() && spec.Valid() && PlanOf(spec, state.plan)
    requires forall a :: IsDigest(hash(a))
    ensures Decided(state, spec, hash).Ok? ==> Decided(state, spec, hash).value.Valid()
  {
    hide IsDigest, IsIdentifier, Interrupted, AllCompletedBound, AllDone, SomeNode, Front, Cyclic, Selected, Stop,
         Advance;
    StopAlwaysValid(state, spec, Stopped, HumanStop, hash);
    StopAlwaysValid(state, spec, MissionFailed, WorkflowFailure, hash);
    StopAlwaysValid(state, spec, ReviewNeeded, InterruptedWork, hash);
    StopAlwaysValid(state, spec, ReviewNeeded, UnboundWork, hash);
    StopAlwaysValid(state, spec, ReviewNeeded, NoReadyWork, hash);
    StopAlwaysValid(state, spec, MissionComplete, AllStagesBound, hash);
    FrontIsLeast(state.plan, spec.stages);
    var front := Front(state.plan, spec.stages);
    if front.Some? {
      assert front.value.id in StageIds(spec.stages);
      AdvanceAlwaysValid(state, spec, front.value, hash);
    }
  }

  // ---- Safe delegation ----

  /** Nothing is in flight, nothing failed, and every completed agent stage is verified. */
  ghost predicate Quiet(state: TaskState, spec: Spec)
    requires PlanOf(spec, state.plan)
  {
    && state.pending == "" && state.questions == []
    && (forall id | id in state.plan.nodes ::
      !state.plan.nodes[id].status.Running? && !state.plan.nodes[id].status.Error?)
    && (forall id | id in state.plan.nodes && state.plan.nodes[id].status.NeedsReview? ::
      StageOf(spec, id).execution.Human?)
    && AllCompletedBound(state, spec)
  }

  /** A delegation names a pending agent stage whose dependencies all succeeded, the first such
      stage in declaration order, with no ready human gate waiting, in a quiet mission that is
      still under investigation, and with a budget that covers exactly the stage's own steps. */
  lemma DelegationIsSafe(state: TaskState, spec: Spec, hash: ActiveNodeResult -> string)
    requires state.Valid() && spec.Valid() && PlanOf(spec, state.plan)
    requires Decided(state, spec, hash).Ok? && Decided(state, spec, hash).value.outcome.Delegate?
    ensures var d := Decided(state, spec, hash).value;
            && d.stageId in state.plan.nodes
            && var stage := StageOf(spec, d.stageId);
            && stage.execution.Agent? && d.maxSteps == stage.maxSteps
            && state.plan.nodes[d.stageId].status.Pending?
            && d.nodeFingerprint == state.plan.nodes[d.stageId].fingerprint
            && DependenciesDone(state.plan, d.stageId)
            && (forall id | id in state.plan.nodes && Candidate(state.plan, id) ::
                  && state.plan.nodes[id].status.Pending?
                  && IndexOfStage(spec.stages, d.stageId) <= IndexOfStage(spec.stages, id))
            && Quiet(state, spec) && state.status.Investigating?
            && (state.budget.Some? ==> state.budget.value.Reserve(d.maxSteps).Ok?)
  {
    hide DependenciesDone, AllCompletedBound, AllDone, ReviewOf, Front, IsDigest, IsIdentifier, Selected, Cyclic;
    FrontIsLeast(state.plan, spec.stages);
    var front := Front(state.plan, spec.stages).value;
    StageIsUnique(spec, front);
    if state.budget.Some? { ReserveIffNoStopReason(state.budget.value, front.maxSteps); }
    forall id | id in state.plan.nodes && Candidate(state.plan, id)
      ensures state.plan.nodes[id].status.Pending?
      ensures IndexOfStage(spec.stages, front.id) <= IndexOfStage(spec.stages, id)
    {
      assert Rank(state.plan, spec.stages, front.id) <= Rank(state.plan, spec.stages, id);
    }
  }

  // ---- Progress ----

  predicate NothingSkipped(plan: Plan) {
    forall id | id in plan.nodes :: !plan.nodes[id].status.Skipped?
  }

  predicate Unfinished(plan: Plan) {
    exists id | id in plan.nodes :: !plan.nodes[id].status.Success?
  }

  /** On an acyclic plan, a quiet mission with unfinished work always has a node to act on. */
  lemma QuietMissionHasFront(state: TaskState, spec: Spec)
    requires PlanOf(spec, state.plan) && state.plan.Closed() && !Cyclic(state.plan)
    requires NothingSkipped(state.plan) && Quiet(state, spec) && Unfinished(state.plan)
    ensures Front(state.plan, spec.stages).Some?
  {
    hide AllCompletedBound, Front, Cyclic;
    var open := set id | id in state.plan.nodes && !state.plan.nodes[id].status.Success?;
    var y :| y in state.plan.nodes && !state.plan.nodes[y].status.Success?;
    assert y in open;
    MinimalExists(state.plan, open);
    var x :| x in open && !InnerDependency(state.plan, open, x);
    forall d | d in state.plan.nodes[x].dependsOn
      ensures d in state.plan.nodes && state.plan.nodes[d].status.Success?
    {
      assert state.plan.DependsOn(x, d);
    }
    assert Candidate(state.plan, x);
    FrontIsLeast(state.plan, spec.stages);
  }

  /** Progress, exactly: a mission that raises nothing is told there is no ready work iff it has
      open questions, or it finished every stage with completion conditions left over, or its
      task is already marked complete, or it is blocked with agent work at the front that the
      budget would cover. */
  lemma NoReadyWorkIff(state: TaskState, spec: Spec, hash: ActiveNodeResult -> string)
    requires state.Valid() && spec.Valid() && PlanOf(spec, state.plan) && NothingSkipped(state.plan)
    requires Decided(state, spec, hash).Ok?
    ensures Decided(state, spec, hash).value.reason.NoReadyWork? <==>
            && state.stop.None? && !state.status.TaskFailed? && !SomeNode(state.plan, Error)
            && !Interrupted(state, spec) && AllCompletedBound(state, spec)
            && (|| state.questions != []
                || (AllDone(state.plan) && state.conditions != [])
                || (!AllDone(state.plan) && state.status.TaskComplete?)
                || (&& !AllDone(state.plan) && state.status.TaskBlocked?
                    && Front(state.plan, spec.stages).Some? && Front(state.plan, spec.stages).value.execution.Agent?
                    && (state.budget.Some? ==>
                          state.budget.value.Reserve(Front(state.plan, spec.stages).value.maxSteps).Ok?)))
  {
    hide Front, DependenciesDone, AllCompletedBound, Cyclic, ReviewOf, Interrupted, IsDigest, IsIdentifier, SomeNode,
         AllDone, Selected, Quiet, Unfinished, NothingSkipped;
    if state.stop.None? && !state.status.TaskFailed? && !SomeNode(state.plan, Error) && !Interrupted(state, spec)
       && AllCompletedBound(state, spec) && state.questions == [] && !AllDone(state.plan) {
      QuietFromChecks(state, spec);
      QuietMissionHasFront(state, spec);
      var front := Front(state.plan, spec.stages).value;
      FrontIsLeast(state.plan, spec.stages);
      assert front.id in StageIds(spec.stages);
      if state.budget.Some? { ReserveIffNoStopReason(state.budget.value, front.maxSteps); }
    }
  }

  lemma QuietFromChecks(state: TaskState, spec: Spec)
    requires spec.Valid() && PlanOf(spec, state.plan)
    requires !SomeNode(state.plan, Error) && !Interrupted(state, spec) && AllCompletedBound(state, spec)
    requires state.questions == [] && !AllDone(state.plan)
    ensures Quiet(state, spec) && Unfinished(state.plan)
  {
    hide AllCompletedBound, StageOf;
    assert spec.stages[0].id in StageIds(spec.stages);
  }
}
