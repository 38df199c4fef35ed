/** What each answer of `decide` says, read off the durable state and the workflow alone. */
module DecisionMeaning {
  import opened Prelude
  import opened PlanDag
  import opened CoreBudget
  import opened ActiveResults
  import opened CorePlanner
  import opened CoreGuarantees

  // ---- The facts a decision rests on ----

  predicate HasFailed(s: TaskState) {
    s.status.TaskFailed? || exists id | id in s.plan.nodes :: s.plan.nodes[id].status.Error?
  }

  /** A dispatch without a conclusion, or agent work set aside for review. */
  predicate InDoubt(s: TaskState, spec: Spec) {
    || s.pending != ""
    || (exists id | id in s.plan.nodes :: s.plan.nodes[id].status.Running?)
    || exists t | t in spec.stages && t.id in s.plan.nodes ::
         t.execution.Agent? && s.plan.nodes[t.id].status.NeedsReview?
  }

  /** Some finished agent stage has no stored result, or one that names another session, node,
      workflow or node material, was not completed, or did not pass its gate. */
  predicate Unvouched(s: TaskState, spec: Spec) {
    exists t | t in spec.stages && t.id in s.plan.nodes ::
      && t.execution.Agent? && s.plan.nodes[t.id].status.Success?
      && (|| t.id !in s.active
          || s.active[t.id].sessionId != s.sessionId
          || s.active[t.id].nodeId != t.id
          || s.active[t.id].workflowFingerprint != spec.fingerprint
          || s.active[t.id].nodeFingerprint != s.plan.nodes[t.id].fingerprint
          || s.active[t.id].outcome != Completed
          || !s.active[t.id].gatePassed)
  }

  /** No stop, no failure, nothing in doubt, all finished agent work vouched for, no question open. */
  predicate Clear(s: TaskState, spec: Spec) {
    s.stop.None? && !HasFailed(s) && !InDoubt(s, spec) && !Unvouched(s, spec) && s.questions == []
  }

  predicate Finished(s: TaskState) {
    forall id | id in s.plan.nodes :: s.plan.nodes[id].status.Success?
  }

  /** The stage may be acted on: it waits, and all it depends on succeeded. */
  predicate Waits(s: TaskState, t: Stage) {
    && t.id in s.plan.nodes
    && (s.plan.nodes[t.id].status == Pending || s.plan.nodes[t.id].status == NeedsReview)
    && forall d | d in s.plan.nodes[t.id].dependsOn :: d in s.plan.nodes && s.plan.nodes[d].status == Success
  }

  /** The stage to act on: an opened gate before pending stages, else the first one declared. */
  predicate Foremost(s: TaskState, spec: Spec, i: int) {
    && 0 <= i < |spec.stages| && Waits(s, spec.stages[i])
    && forall j | 0 <= j < |spec.stages| && Waits(s, spec.stages[j]) ::
         if s.plan.nodes[spec.stages[i].id].status == s.plan.nodes[spec.stages[j].id].status then i <= j
         else s.plan.nodes[spec.stages[i].id].status == NeedsReview
  }

  /** The mission budget, where there is one, has room for one more stage of so many steps. */
  predicate Affords(s: TaskState, steps: int) {
    s.budget.Some? ==>
      && s.budget.value.dispatches + 1 <= s.budget.value.limits.maxDispatches
      && s.budget.value.steps + steps <= s.budget.value.limits.maxSteps
  }

  /** A clear mission with work left to do. */
  predicate Open(s: TaskState, spec: Spec) {
    Clear(s, spec) && !Finished(s) && s.status != TaskComplete
  }

  // ---- When there is an answer, and which ----

  /** A decision is given exactly when the workflow is the selected one, a stored strategy is its
      own in every field, the plan is closed and acyclic, and a recorded stop names the session. */
  lemma AnsweredIff(s: TaskState, spec: Spec, hash: ActiveNodeResult -> string)
    requires s.Valid() && spec.Valid() && PlanOf(spec, s.plan)
    ensures Decided(s, spec, hash).Ok? <==>
            && s.selection.Some? && s.selection.value == spec.fingerprint
            && (s.strategy.Some? ==>
                  && s.strategy.value.name == spec.name && s.strategy.value.version == spec.version
                  && s.strategy.value.fingerprint == spec.fingerprint
                  && |s.strategy.value.stageOrder| == |spec.stages|
                  && forall i | 0 <= i < |spec.stages| :: s.strategy.value.stageOrder[i] == spec.stages[i].id)
            && (forall a, b | s.plan.DependsOn(a, b) :: b in s.plan.nodes)
            && !Cyclic(s.plan)
            && (s.stop.Some? ==> s.stop.value == s.sessionId)
  {
    hide Judge, Stop, Cyclic, IsDigest, IsIdentifier;
    ClosedMeans(s.plan);
    if s.strategy.Some? && |s.strategy.value.stageOrder| == |spec.stages|
       && forall i | 0 <= i < |spec.stages| :: s.strategy.value.stageOrder[i] == spec.stages[i].id {
      assert s.strategy.value.stageOrder
          == seq(|spec.stages|, i requires 0 <= i < |spec.stages| => spec.stages[i].id);
    }
  }

  lemma ClosedMeans(p: Plan)
    ensures p.Closed() <==> forall a, b | p.DependsOn(a, b) :: b in p.nodes
  {
    if forall a, b | p.DependsOn(a, b) :: b in p.nodes {
      forall id, d | id in p.nodes && d in p.nodes[id].dependsOn ensures d in p.nodes {
        assert p.DependsOn(id, d);
      }
    }
  }

  /** The checks of `decide` are the facts above. */
  lemma ChecksMean(s: TaskState, spec: Spec)
    requires spec.Valid() && PlanOf(spec, s.plan)
    ensures SomeNode(s.plan, Error) || s.status.TaskFailed? <==> HasFailed(s)
    ensures Interrupted(s, spec) <==> InDoubt(s, spec)
    ensures AllCompletedBound(s, spec) <==> !Unvouched(s, spec)
    ensures AllDone(s.plan) <==> Finished(s)
  {
    hide IsDigest, IsIdentifier;
    assert spec.stages[0].id in StageIds(spec.stages);
    forall id | id in s.plan.nodes
      ensures StageOf(spec, id) in spec.stages && StageOf(spec, id).id == id
    {}
    forall t | t in spec.stages ensures t.id in s.plan.nodes && StageOf(spec, t.id) == t {
      StageIsUnique(spec, t);
    }
  }

  lemma StageAt(spec: Spec, plan: Plan, i: int)
    requires spec.Valid() && PlanOf(spec, plan) && 0 <= i < |spec.stages|
    ensures spec.stages[i].id in StageIds(spec.stages) && spec.stages[i].id in plan.nodes
    ensures IndexOfStage(spec.stages, spec.stages[i].id) == i
  {
    hide IsDigest, IsIdentifier;
    assert spec.stages[i].id in StageIds(spec.stages);
  }

  /** The front is the foremost stage. */
  lemma FrontMeans(s: TaskState, spec: Spec)
    requires spec.Valid() && PlanOf(spec, s.plan)
    ensures Front(s.plan, spec.stages).None? ==> forall i :: !Foremost(s, spec, i)
    ensures Front(s.plan, spec.stages).Some? ==>
              exists i :: 0 <= i < |spec.stages| && Foremost(s, spec, i)
                          && spec.stages[i] == Front(s.plan, spec.stages).value
  {
    hide IsDigest, IsIdentifier, Front, IndexOfStage, Candidate, DependenciesDone;
    FrontIsLeast(s.plan, spec.stages);
    forall i | 0 <= i < |spec.stages|
      ensures spec.stages[i].id in s.plan.nodes
      ensures Waits(s, spec.stages[i]) <==> Candidate(s.plan, spec.stages[i].id)
    {
      StageAt(spec, s.plan, i);
      WaitsIsCandidate(s, spec.stages[i]);
    }
    if Front(s.plan, spec.stages).Some? {
      FrontIsForemost(s, spec, Front(s.plan, spec.stages).value);
    }
  }

  lemma WaitsIsCandidate(s: TaskState, t: Stage)
    ensures Waits(s, t) <==> Candidate(s.plan, t.id)
    ensures Waits(s, t) ==>
              && t.id in s.plan.nodes
              && (s.plan.nodes[t.id].status == Pending || s.plan.nodes[t.id].status == NeedsReview)
  {}

  lemma FrontIsForemost(s: TaskState, spec: Spec, t: Stage)
    requires spec.Valid() && PlanOf(spec, s.plan) && t in spec.stages && Candidate(s.plan, t.id)
    requires t.id in StageIds(spec.stages)
    requires forall id | id in s.plan.nodes && Candidate(s.plan, id) ::
               Rank(s.plan, spec.stages, t.id) <= Rank(s.plan, spec.stages, id)
    ensures exists i :: 0 <= i < |spec.stages| && Foremost(s, spec, i) && spec.stages[i] == t
  {
    hide IsDigest, IsIdentifier, IndexOfStage, Candidate, Waits, StageIds;
    var i :| 0 <= i < |spec.stages| && spec.stages[i] == t;
    StageAt(spec, s.plan, i);
    WaitsIsCandidate(s, t);
    forall j | 0 <= j < |spec.stages| && Waits(s, spec.stages[j])
      ensures spec.stages[j].id in s.plan.nodes
      ensures if s.plan.nodes[t.id].status == s.plan.nodes[spec.stages[j].id].status then i <= j
              else s.plan.nodes[t.id].status == NeedsReview
    {
      StageAt(spec, s.plan, j);
      WaitsIsCandidate(s, spec.stages[j]);
      assert Rank(s.plan, spec.stages, t.id) <= Rank(s.plan, spec.stages, spec.stages[j].id);
    }
    assert Foremost(s, spec, i);
  }

  lemma ForemostIsStage(s: TaskState, spec: Spec, i: int)
    requires Foremost(s, spec, i)
    ensures 0 <= i < |spec.stages|
  {}

  /** No two stages are foremost. */
  lemma ForemostIsUnique(s: TaskState, spec: Spec, i: int, j: int)
    requires Foremost(s, spec, i) && Foremost(s, spec, j)
    ensures i == j
  {}

  /** Every answer and its reason, exactly: which states give it. */
  lemma AnswerMeans(s: TaskState, spec: Spec, hash: ActiveNodeResult -> string, d: Decision)
    requires s.Valid() && spec.Valid() && PlanOf(spec, s.plan) && Decided(s, spec, hash) == Ok(d)
    ensures d.outcome == Stopped <==> s.stop.Some?
    ensures d.outcome == MissionFailed <==> s.stop.None? && HasFailed(s)
    ensures d.reason == InterruptedWork <==> s.stop.None? && !HasFailed(s) && InDoubt(s, spec)
    ensures d.reason == UnboundWork <==>
              s.stop.None? && !HasFailed(s) && !InDoubt(s, spec) && Unvouched(s, spec)
    ensures d.outcome == MissionComplete <==> Clear(s, spec) && Finished(s) && s.conditions == []
    ensures d.outcome == AwaitApproval <==>
              && Open(s, spec)
              && exists i :: Foremost(s, spec, i) && spec.stages[i].execution == Human
    ensures d.outcome == BudgetExhausted <==>
              && Open(s, spec)
              && exists i :: Foremost(s, spec, i) && spec.stages[i].execution == Agent
                             && !Affords(s, spec.stages[i].maxSteps)
    ensures d.outcome == Delegate <==>
              && Open(s, spec) && s.status == Investigating
              && exists i :: Foremost(s, spec, i) && spec.stages[i].execution == Agent
                             && Affords(s, spec.stages[i].maxSteps)
  {
    hide Decided, Foremost, InDoubt, Unvouched, Finished, Affords, TaskState.Valid, Spec.Valid;
    ChecksAnswer(s, spec, hash, d);
    forall i | Foremost(s, spec, i) ensures 0 <= i < |spec.stages| { ForemostIsStage(s, spec, i); }
    if Open(s, spec) && exists i :: 0 <= i < |spec.stages| && Foremost(s, spec, i) {
      var i :| 0 <= i < |spec.stages| && Foremost(s, spec, i);
      forall j | Foremost(s, spec, j) ensures j == i { ForemostIsUnique(s, spec, i, j); }
      ForemostAnswer(s, spec, hash, d, i);
    }
  }

  /** The answers that come of the checks, and that only an open mission with a foremost stage is
      told to act or that its budget is met. */
  lemma ChecksAnswer(s: TaskState, spec: Spec, hash: ActiveNodeResult -> string, d: Decision)
    requires s.Valid() && spec.Valid() && PlanOf(spec, s.plan) && Decided(s, spec, hash) == Ok(d)
    ensures d.outcome == Stopped <==> s.stop.Some?
    ensures d.outcome == MissionFailed <==> s.stop.None? && HasFailed(s)
    ensures d.reason == InterruptedWork <==> s.stop.None? && !HasFailed(s) && InDoubt(s, spec)
    ensures d.reason == UnboundWork <==>
              s.stop.None? && !HasFailed(s) && !InDoubt(s, spec) && Unvouched(s, spec)
    ensures d.outcome == MissionComplete <==> Clear(s, spec) && Finished(s) && s.conditions == []
    ensures d.outcome == AwaitApproval || d.outcome == BudgetExhausted || d.outcome == Delegate ==>
              Open(s, spec) && exists i :: 0 <= i < |spec.stages| && Foremost(s, spec, i)
  {
    hide IsDigest, IsIdentifier, Front, Foremost, Interrupted, InDoubt, AllCompletedBound, Unvouched, AllDone,
         Finished, SomeNode, HasFailed, Cyclic, Selected, ReviewOf, StageOf, StageIds, Plan.Closed, Budget.Valid;
    ChecksMean(s, spec);
    FrontMeans(s, spec);
    if Front(s.plan, spec.stages).Some? {
      FrontIsKnown(s.plan, spec.stages);
      StageOfSpec(spec, Front(s.plan, spec.stages).value);
    }
  }

  lemma FrontIsKnown(plan: Plan, stages: seq<Stage>)
    ensures Front(plan, stages).Some? ==>
              Front(plan, stages).value in stages && Front(plan, stages).value.id in plan.nodes
  {
    hide DependenciesDone;
  }

  /** What a clear mission is told about its foremost stage: the gate to approve, the stage to
      run and its steps, the limit that is met, or that agent work waits for a blocked task. */
  lemma ForemostAnswer(s: TaskState, spec: Spec, hash: ActiveNodeResult -> string, d: Decision, i: int)
    requires s.Valid() && spec.Valid() && PlanOf(spec, s.plan) && Decided(s, spec, hash) == Ok(d)
    requires Open(s, spec) && Foremost(s, spec, i)
    ensures var t := spec.stages[i];
            && t.id in s.plan.nodes
            && (t.execution == Human ==>
                  && d.outcome == AwaitApproval && d.reason == GateNeedsApproval && d.stageId == t.id
                  && d.nodeFingerprint == s.plan.nodes[t.id].fingerprint && d.maxSteps == 0)
            && (t.execution == Agent && !Affords(s, t.maxSteps) ==>
                  && d.outcome == BudgetExhausted
                  && (d.reason == BudgetRefusal(DispatchesExhausted) <==>
                        s.budget.value.dispatches == s.budget.value.limits.maxDispatches)
                  && (d.reason == BudgetRefusal(StepsCannotCover) <==>
                        s.budget.value.dispatches < s.budget.value.limits.maxDispatches))
            && (t.execution == Agent && Affords(s, t.maxSteps) && s.status == TaskBlocked ==>
                  d.outcome == ReviewNeeded && d.reason == NoReadyWork)
            && (t.execution == Agent && Affords(s, t.maxSteps) && s.status == Investigating ==>
                  && d.outcome == Delegate && d.reason == StageDelegated && d.stageId == t.id
                  && d.nodeFingerprint == s.plan.nodes[t.id].fingerprint && d.maxSteps == t.maxSteps)
  {
    hide IsDigest, IsIdentifier, Front, Foremost, Interrupted, InDoubt, AllCompletedBound, Unvouched, AllDone,
         Finished, SomeNode, HasFailed, Cyclic, Selected, ReviewOf, StageOf, StageIds, Plan.Closed;
    ChecksMean(s, spec);
    FrontMeans(s, spec);
    var k :| 0 <= k < |spec.stages| && Foremost(s, spec, k) && spec.stages[k] == Front(s.plan, spec.stages).value;
    ForemostIsUnique(s, spec, i, k);
    FrontIsLeast(s.plan, spec.stages);
  }

  /** Every decision names the state and the workflow it judged; the reason goes with the outcome,
      a stage is named exactly by a delegation or an approval, and a review is requested exactly
      where a person has to look. */
  lemma AnswerFields(s: TaskState, spec: Spec, hash: ActiveNodeResult -> string, d: Decision)
    requires s.Valid() && spec.Valid() && PlanOf(spec, s.plan) && Decided(s, spec, hash) == Ok(d)
    ensures d.sessionId == s.sessionId && d.stateVersion == s.revision && d.stateFingerprint == s.fingerprint
    ensures d.workflowFingerprint == spec.fingerprint
    ensures d.outcome == Stopped <==> d.reason == HumanStop
    ensures d.outcome == MissionFailed <==> d.reason == WorkflowFailure
    ensures d.outcome == MissionComplete <==> d.reason == AllStagesBound
    ensures d.outcome == AwaitApproval <==> d.reason == GateNeedsApproval
    ensures d.outcome == Delegate <==> d.reason == StageDelegated
    ensures d.outcome == BudgetExhausted <==>
              d.reason == BudgetRefusal(DispatchesExhausted) || d.reason == BudgetRefusal(StepsCannotCover)
    ensures d.outcome == ReviewNeeded <==>
              d.reason == InterruptedWork || d.reason == UnboundWork || d.reason == NoReadyWork
    ensures d.stageId != "" <==> d.outcome == Delegate || d.outcome == AwaitApproval
    ensures d.stageId == "" ==> d.nodeFingerprint == "" && d.maxSteps == 0
    ensures d.review.Some? <==>
              d.outcome == ReviewNeeded || d.outcome == MissionFailed || d.outcome == BudgetExhausted
  {
    hide IsDigest, IsIdentifier, Front, Interrupted, AllCompletedBound, AllDone, SomeNode, Cyclic, Selected,
         ReviewOf, Plan.Closed, Spec.Valid, Budget.Valid;
    FrontIsKnown(s.plan, spec.stages);
    var front := Front(s.plan, spec.stages);
    if front.Some? {
      StageOfSpec(spec, front.value);
    }
  }

  lemma StageOfSpec(spec: Spec, t: Stage)
    requires spec.Valid() && t in spec.stages
    ensures t.id != "" && t.id in StageIds(spec.stages) && 1 <= t.maxSteps <= MAX_STAGE_STEPS
  {
    hide IsDigest;
    var i :| 0 <= i < |spec.stages| && spec.stages[i] == t;
    assert IsIdentifier(spec.stages[i].id);
  }

  // ---- The review request ----

  /** The stages a stop is about: the failed ones of a failed mission, else those in flight, set
      aside or, where finished work lacks its verification, finished. */
  predicate Concerns(s: TaskState, d: Decision, t: Stage) {
    && t.execution == Agent && t.id in s.plan.nodes
    && var status := s.plan.nodes[t.id].status;
       if d.outcome == MissionFailed then status == Error
       else || status == Running || status == NeedsReview || s.pending == t.id
            || (status == Success && d.reason == UnboundWork)
  }

  /** The stage holds a result of its own that ended without completion and was escalated. */
  predicate Escalated(s: TaskState, spec: Spec, t: Stage) {
    && t.id in s.plan.nodes && t.id in s.active
    && var a := s.active[t.id];
       && a.sessionId == s.sessionId && a.workflowFingerprint == spec.fingerprint && a.nodeId == t.id
       && a.nodeFingerprint == s.plan.nodes[t.id].fingerprint && a.outcome != Completed && a.escalation != None
  }

  lemma ConcernsMeans(s: TaskState, d: Decision, t: Stage)
    requires t.id in s.plan.nodes
    ensures Concerns(s, d, t) <==> Relevant(s, t.id, d.outcome, d.reason) && !t.execution.Human?
  {}

  /** The first stage a stop is about, at its place in the declaration. */
  predicate FirstConcern(s: TaskState, stages: seq<Stage>, d: Decision, i: int) {
    0 <= i < |stages| && Concerns(s, d, stages[i]) && forall j | 0 <= j < i :: !Concerns(s, d, stages[j])
  }

  lemma {:induction false} FirstRelevantMeans(s: TaskState, stages: seq<Stage>, d: Decision)
    requires StageIds(stages) <= s.plan.nodes.Keys
    ensures FirstRelevant(s, stages, d.outcome, d.reason).None? ==> forall t | t in stages :: !Concerns(s, d, t)
    ensures FirstRelevant(s, stages, d.outcome, d.reason).Some? ==>
              exists i :: 0 <= i < |stages| && FirstConcern(s, stages, d, i)
                          && stages[i] == FirstRelevant(s, stages, d.outcome, d.reason).value
    decreases |stages|
  {
    hide Concerns, Relevant;
    if stages != [] {
      var rest := stages[1..];
      assert stages[0].id in StageIds(stages);
      assert forall t :: t in stages <==> t == stages[0] || t in rest;
      FirstRelevantMeans(s, rest, d);
      ConcernsMeans(s, d, stages[0]);
      if Concerns(s, d, stages[0]) {
        assert FirstConcern(s, stages, d, 0);
      } else if FirstRelevant(s, rest, d.outcome, d.reason).Some? {
        var i :| 0 <= i < |rest| && FirstConcern(s, rest, d, i)
          && rest[i] == FirstRelevant(s, rest, d.outcome, d.reason).value;
        assert forall j | 0 < j <= i + 1 :: stages[j] == rest[j - 1];
        assert FirstConcern(s, stages, d, i + 1);
      }
    }
  }

  /** A review request names the first stage in declaration order that the stop is about; it asks
      for replanning or carries the escalation exactly when that stage holds an escalated result
      of its own, whose digest, outcome and kind it repeats. */
  lemma ReviewMeans(s: TaskState, spec: Spec, hash: ActiveNodeResult -> string, d: Decision)
    requires s.Valid() && spec.Valid() && PlanOf(spec, s.plan) && Decided(s, spec, hash) == Ok(d)
    requires d.review.Some?
    ensures d.review.value.stageId == "" ==>
              && d.review.value == Review(PlainReview, NoAuthorityGranted, "", "", "", None, None)
              && forall t | t in spec.stages :: !Concerns(s, d, t)
    ensures d.review.value.stageId != "" ==>
              exists i :: 0 <= i < |spec.stages| && ReviewsStage(s, spec, hash, d, i)
  {
    hide IsDigest, IsIdentifier, Front, Interrupted, AllCompletedBound, AllDone, SomeNode, Cyclic, Selected,
         Plan.Closed, Candidate, FirstRelevant, Concerns;
    FirstRelevantMeans(s, spec.stages, d);
    assert d.review.value == ReviewOf(s, spec, d.outcome, d.reason, hash);
    var found := FirstRelevant(s, spec.stages, d.outcome, d.reason);
    if found.Some? {
      var i :| 0 <= i < |spec.stages| && FirstConcern(s, spec.stages, d, i) && spec.stages[i] == found.value;
      StageOfSpec(spec, found.value);
      assert ReviewsStage(s, spec, hash, d, i);
    }
  }

  /** The review request is about stage `i`, and says of it what the stored result says. */
  predicate ReviewsStage(s: TaskState, spec: Spec, hash: ActiveNodeResult -> string, d: Decision, i: int)
    requires d.review.Some? && 0 <= i < |spec.stages|
  {
    var t, v := spec.stages[i], d.review.value;
    && FirstConcern(s, spec.stages, d, i)
    && t.id in s.plan.nodes && v.stageId == t.id && v.nodeFingerprint == s.plan.nodes[t.id].fingerprint
    && if Escalated(s, spec, t) then
         var a := s.active[t.id];
         && v.activeFingerprint == hash(a) && v.outcome == Some(a.outcome) && v.kind == Some(a.escalation.value.kind)
         && (a.outcome == NeedsReplan || a.escalation.value.kind == MaterialChangeKind ==>
               v.category == MaterialReplan && v.reason == ReplanSeparately)
         && (a.outcome != NeedsReplan && a.escalation.value.kind != MaterialChangeKind ==>
               v.category == EscalationReview && v.reason == NoAutomaticRetry)
       else
         && v.category == PlainReview && v.reason == NoAuthorityGranted
         && v.activeFingerprint == "" && v.outcome == None && v.kind == None
  }
}
