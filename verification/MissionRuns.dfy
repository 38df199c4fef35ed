/** Whole missions: an abstract driver that only decides, reserves, marks and stores hand-offs. */
module MissionRuns {
  import opened Prelude
  import opened PlanDag
  import opened CoreBudget
  import opened ActiveResults
  import opened StageRuntime
  import opened CorePlanner
  import opened CoreGuarantees

  /** `dispatched` records the stages delegated so far, in order. */
  datatype Mission = Mission(state: TaskState, dispatched: seq<string>)

  datatype Event =
    | Dispatch
    | Begin
    | Conclude(obs: seq<Observation>, reported: StageResult, intact: bool, attempts: Option<int>,
      escalation: Option<EscalationKind>)
    | Interrupt
    | OpenGate
    | Approve(id: string)
    | Settle
    | RecordStop
    | Annotate(questions: seq<string>, conditions: seq<string>)

  /** What stays fixed: the workflow, the digest of results and the redaction of texts. */
  datatype World = World(spec: Spec, hash: ActiveNodeResult -> string, redact: string -> string)

  function Mark(state: TaskState, id: string, node: NodeStatus, task: TaskStatus): TaskState
    requires id in state.plan.nodes
  {
    state.(plan := state.plan.WithStatus(id, node), status := task, revision := state.revision + 1)
  }

  function BoundTo(w: World, state: TaskState): Bound
    requires state.pending in state.plan.nodes
  {
    Bound(state.sessionId, state.pending, w.spec.fingerprint, state.plan.nodes[state.pending].fingerprint)
  }

  /** Store the hand-off of the running stage and mark its node by the verdict. */
  function Store(state: TaskState, active: ActiveNodeResult): TaskState
    requires state.pending in state.plan.nodes
  {
    var id := state.pending;
    var stored := state.(active := state.active[id := active], pending := "");
    match active.outcome
    case Completed => Mark(stored, id, Success, Investigating)
    case Failed => Mark(stored, id, Error, TaskFailed)
    case _ => Mark(stored, id, NeedsReview, TaskBlocked)
  }

  /** The task status after a decision that starts no work. */
  function Settled(status: TaskStatus, outcome: DecisionOutcome): TaskStatus {
    if outcome.Stopped? && (status.TaskComplete? || status.TaskFailed?) then status
    else if outcome.MissionComplete? then TaskComplete
    else if outcome.MissionFailed? then TaskFailed
    else TaskBlocked
  }

  /** One step of the driver; `None` when the event cannot happen in this state. */
  ghost function Step(w: World, m: Mission, e: Event): Option<Mission>
    requires w.spec.Valid() && PlanOf(w.spec, m.state.plan)
  {
    var s := m.state;
    var decided := Decided(s, w.spec, w.hash);
    match e
    case Dispatch =>
      if decided.Raised? || !decided.value.outcome.Delegate? then None
      else
        var d := decided.value;
        if s.budget.None? then
          Some(Mission(s.(pending := d.stageId, revision := s.revision + 1), m.dispatched + [d.stageId]))
        else (
          match s.budget.value.Reserve(d.maxSteps)
          case Raised => None
          case Ok(b) => Some(Mission(s.(pending := d.stageId, budget := Some(b), revision := s.revision + 1),
                                     m.dispatched + [d.stageId])))
    case Begin =>
      if s.pending !in s.plan.nodes || !s.plan.nodes[s.pending].status.Pending? then None
      else Some(m.(state := Mark(s, s.pending, Running, s.status)))
    case Conclude(obs, reported, intact, attempts, escalation) =>
      if s.pending !in s.plan.nodes || !s.plan.nodes[s.pending].status.Running? || !reported.Valid() then None
      else (
        match Finished(BoundTo(w, s), StageOf(w.spec, s.pending).gate, obs, reported, intact, attempts, escalation,
          w.redact)
        case Raised => None
        case Ok(r) => if r.active.None? then None else Some(m.(state := Store(s, r.active.value))))
    case Interrupt =>
      if s.pending !in s.plan.nodes || !s.plan.nodes[s.pending].status.Running? then None
      else Some(m.(state := Mark(s, s.pending, NeedsReview, TaskBlocked)))
    case OpenGate =>
      if decided.Raised? || !decided.value.outcome.AwaitApproval? || decided.value.stageId !in s.plan.nodes then None
      else Some(m.(state := Mark(s, decided.value.stageId, NeedsReview, TaskBlocked)))
    case Approve(id) =>
      if id !in s.plan.nodes || !StageOf(w.spec, id).execution.Human?
         || !s.plan.nodes[id].status.NeedsReview? || !DependenciesDone(s.plan, id) then None
      else Some(m.(state := Mark(s, id, Success, Investigating)))
    case Settle =>
      if decided.Raised? || decided.value.outcome.Delegate? || decided.value.outcome.AwaitApproval? then None
      else Some(m.(state := s.(revision := s.revision + 1, status := Settled(s.status, decided.value.outcome))))
    case RecordStop =>
      var status := if s.status.TaskComplete? || s.status.TaskFailed? then s.status else TaskBlocked;
      Some(m.(state := s.(stop := Some(s.sessionId), status := status, revision := s.revision + 1)))
    case Annotate(questions, conditions) =>
      Some(m.(state := s.(questions := questions, conditions := conditions, revision := s.revision + 1)))
  }

  ghost predicate Initial(w: World, m: Mission) {
    && w.spec.Valid() && m.state.Valid() && PlanOf(w.spec, m.state.plan)
    && (forall id | id in m.state.plan.nodes :: m.state.plan.nodes[id].status.Pending?)
    && m.state.active == map[] && m.state.pending == "" && m.dispatched == []
    && (m.state.budget.Some? ==> m.state.budget.value == Fresh(m.state.budget.value.limits))
  }

  // ---- The invariant ----

  /** Marking nodes never touches what they are or depend on. */
  ghost predicate SameShape(p: Plan, q: Plan) {
    && p.ids == q.ids && p.nodes.Keys == q.nodes.Keys
    && forall id | id in p.nodes :: id in q.nodes && p.nodes[id].(status := Pending) == q.nodes[id].(status := Pending)
  }

  function StepsOf(spec: Spec, ids: seq<string>): seq<int>
    requires forall id | id in ids :: id in StageIds(spec.stages)
  {
    seq(|ids|, i requires 0 <= i < |ids| => assert ids[i] in ids; StageOf(spec, ids[i]).maxSteps)
  }

  /** A stage was dispatched iff its node has left pending or is the one in flight. */
  ghost predicate DispatchLog(w: World, m: Mission)
    requires PlanOf(w.spec, m.state.plan)
  {
    && (forall i, j | 0 <= i < j < |m.dispatched| :: m.dispatched[i] != m.dispatched[j])
    && (forall id | id in m.dispatched :: id in m.state.plan.nodes && StageOf(w.spec, id).execution.Agent?)
    && (forall id | id in m.state.plan.nodes && StageOf(w.spec, id).execution.Agent? ::
          id in m.dispatched <==> !m.state.plan.nodes[id].status.Pending? || id == m.state.pending)
  }

  ghost predicate InFlight(w: World, s: TaskState)
    requires PlanOf(w.spec, s.plan)
  {
    && (forall id | id in s.plan.nodes && s.plan.nodes[id].status.Running? :: id == s.pending)
    && (s.pending != "" ==>
          && s.pending in s.plan.nodes && StageOf(w.spec, s.pending).execution.Agent?
          && DependenciesDone(s.plan, s.pending)
          && !s.plan.nodes[s.pending].status.Success? && !s.plan.nodes[s.pending].status.Error?)
  }

  /** Dependency order was respected: a node that left pending has all its dependencies behind it. */
  predicate InOrder(p: Plan) {
    forall id | id in p.nodes && !p.nodes[id].status.Pending? :: DependenciesDone(p, id)
  }

  ghost predicate Accounted(w: World, m: Mission)
    requires PlanOf(w.spec, m.state.plan)
  {
    m.state.budget.Some? ==>
      && (forall id | id in m.dispatched :: id in StageIds(w.spec.stages))
      && var b := m.state.budget.value;
         b.Valid() && b.dispatches == |m.dispatched| && b.steps == Sum(StepsOf(w.spec, m.dispatched))
  }

  predicate ValidActives(s: TaskState) {
    forall id | id in s.active :: s.active[id].Valid()
  }

  ghost predicate Inv(w: World, start: Plan, m: Mission) {
    && w.spec.Valid() && m.state.Valid() && PlanOf(w.spec, m.state.plan) && SameShape(start, m.state.plan)
    && NothingSkipped(m.state.plan) && AllCompletedBound(m.state, w.spec)
    && InFlight(w, m.state) && InOrder(m.state.plan) && DispatchLog(w, m) && Accounted(w, m)
    && ValidActives(m.state)
  }

  lemma NoEmptyIds(spec: Spec, plan: Plan)
    requires spec.Valid() && PlanOf(spec, plan)
    ensures "" !in plan.nodes
  {
    if "" in plan.nodes {
      IdentifierNonEmpty(spec.stages[IndexOfStage(spec.stages, "")].id);
    }
  }

  lemma InitialInv(w: World, m: Mission)
    requires Initial(w, m)
    ensures Inv(w, m.state.plan, m)
  {
    hide IsDigest, StageOf;
    assert StepsOf(w.spec, []) == [];
  }

  // ---- Marking one unfinished node ----

  lemma WithStatusKeepsShape(start: Plan, p: Plan, id: string, node: NodeStatus)
    requires p.Valid() && SameShape(start, p) && id in p.nodes
    ensures p.WithStatus(id, node).Valid() && SameShape(start, p.WithStatus(id, node))
    ensures p.WithStatus(id, node).nodes.Keys == p.nodes.Keys
    ensures forall x | x in p.nodes :: p.WithStatus(id, node).nodes[x].fingerprint == p.nodes[x].fingerprint
  {
    assert p.WithStatus(id, node).nodes.Keys == p.nodes.Keys;
  }

  lemma MarkKeepsShape(w: World, start: Plan, s: TaskState, id: string, node: NodeStatus, task: TaskStatus)
    requires s.Valid() && SameShape(start, s.plan) && id in s.plan.nodes && PlanOf(w.spec, s.plan)
    ensures var t := Mark(s, id, node, task);
            t.Valid() && SameShape(start, t.plan) && PlanOf(w.spec, t.plan)
  {
    hide IsDigest, SameShape;
    WithStatusKeepsShape(start, s.plan, id, node);
  }

  lemma MarkKeepsDone(s: TaskState, id: string, node: NodeStatus, task: TaskStatus, x: string)
    requires id in s.plan.nodes && !s.plan.nodes[id].status.Success? && x in s.plan.nodes
    requires DependenciesDone(s.plan, x)
    ensures DependenciesDone(Mark(s, id, node, task).plan, x)
  {}

  lemma MarkKeepsOrder(s: TaskState, id: string, node: NodeStatus, task: TaskStatus)
    requires id in s.plan.nodes && !s.plan.nodes[id].status.Success? && InOrder(s.plan)
    requires DependenciesDone(s.plan, id)
    ensures InOrder(Mark(s, id, node, task).plan)
  {
    hide DependenciesDone;
    var q := Mark(s, id, node, task).plan;
    forall x | x in q.nodes && !q.nodes[x].status.Pending? ensures DependenciesDone(q, x) {
      MarkKeepsDone(s, id, node, task, x);
    }
  }

  /** Marking an unfinished node keeps completed work bound, if a new success is itself bound. */
  lemma MarkKeepsBound(w: World, s: TaskState, id: string, node: NodeStatus, task: TaskStatus)
    requires PlanOf(w.spec, s.plan) && id in s.plan.nodes && AllCompletedBound(s, w.spec)
    requires node.Success? ==> StageOf(w.spec, id).execution.Human? || BoundCompletion(s, w.spec, id)
    ensures AllCompletedBound(Mark(s, id, node, task), w.spec)
  {
    hide StageOf;
    var t := Mark(s, id, node, task);
    assert t.plan.nodes.Keys == s.plan.nodes.Keys;
    forall x | x in t.plan.nodes && t.plan.nodes[x].status.Success? && StageOf(w.spec, x).execution.Agent?
      ensures BoundCompletion(t, w.spec, x)
    {
      assert x != id ==> BoundCompletion(s, w.spec, x);
    }
  }

  // ---- Every kind of step keeps the invariant ----

  lemma DispatchKeeps(w: World, start: Plan, m: Mission)
    requires Inv(w, start, m)
    ensures Decided(m.state, w.spec, w.hash).Ok? && Decided(m.state, w.spec, w.hash).value.outcome.Delegate?
            ==> Step(w, m, Dispatch).Some?
    ensures Step(w, m, Dispatch).Some? ==> Inv(w, start, Step(w, m, Dispatch).value)
  {
    hide Decided, IsDigest, IsIdentifier, SameShape, InOrder, AllCompletedBound, StageOf, NothingSkipped;
    var s := m.state;
    var decided := Decided(s, w.spec, w.hash);
    if decided.Ok? && decided.value.outcome.Delegate? {
      DelegationIsSafe(s, w.spec, w.hash);
      var d := decided.value;
      if s.budget.Some? { ReserveIffNoStopReason(s.budget.value, d.maxSteps); }
      DispatchedKeeps(w, start, m, Step(w, m, Dispatch).value, d.stageId);
    }
  }

  /** Putting a ready agent stage in flight, with its steps added to the budget. */
  lemma DispatchedKeeps(w: World, start: Plan, m: Mission, n: Mission, id: string)
    requires Inv(w, start, m) && m.state.pending == "" && id in m.state.plan.nodes
    requires m.state.plan.nodes[id].status.Pending? && StageOf(w.spec, id).execution.Agent?
    requires DependenciesDone(m.state.plan, id)
    requires forall x | x in m.state.plan.nodes :: !m.state.plan.nodes[x].status.Running?
    requires n == Mission(m.state.(pending := id, budget := n.state.budget, revision := n.state.revision),
                          m.dispatched + [id])
    requires n.state.budget.Some? <==> m.state.budget.Some?
    requires n.state.budget.Some? ==>
               var b, c := m.state.budget.value, n.state.budget.value;
               c.Valid() && c.dispatches == b.dispatches + 1 && c.steps == b.steps + StageOf(w.spec, id).maxSteps
    ensures Inv(w, start, n)
  {
    hide IsDigest, IsIdentifier, SameShape, InOrder, AllCompletedBound, StageOf, NothingSkipped, DependenciesDone,
         DispatchLog, StepsOf;
    assert id in StageIds(w.spec.stages);
    NoEmptyIds(w.spec, m.state.plan);
    LogGrows(w, m, id);
    SameLog(w, Mission(m.state.(pending := id), m.dispatched + [id]), n);
    if m.state.budget.Some? { StepsGrow(w.spec, m.dispatched, id); }
    SameBoundness(m.state, n.state, w.spec);
  }

  lemma SameLog(w: World, m: Mission, n: Mission)
    requires PlanOf(w.spec, m.state.plan) && DispatchLog(w, m)
    requires n.dispatched == m.dispatched && n.state.plan == m.state.plan && n.state.pending == m.state.pending
    ensures DispatchLog(w, n)
  {
    hide StageOf;
  }

  lemma SameBoundness(s: TaskState, t: TaskState, spec: Spec)
    requires PlanOf(spec, s.plan) && t.plan == s.plan && t.active == s.active && t.sessionId == s.sessionId
    ensures AllCompletedBound(s, spec) <==> AllCompletedBound(t, spec)
  {
    hide StageOf;
    forall id | id in s.plan.nodes ensures BoundCompletion(s, spec, id) <==> BoundCompletion(t, spec, id) {}
  }

  lemma LogGrows(w: World, m: Mission, id: string)
    requires PlanOf(w.spec, m.state.plan) && DispatchLog(w, m) && m.state.pending == ""
    requires id in m.state.plan.nodes && m.state.plan.nodes[id].status.Pending? && StageOf(w.spec, id).execution.Agent?
    requires "" !in m.state.plan.nodes
    ensures DispatchLog(w, Mission(m.state.(pending := id), m.dispatched + [id]))
    ensures id !in m.dispatched
  {
    hide StageOf;
  }

  lemma StepsGrow(spec: Spec, ids: seq<string>, id: string)
    requires id in StageIds(spec.stages) && forall x | x in ids :: x in StageIds(spec.stages)
    ensures (forall x | x in ids + [id] :: x in StageIds(spec.stages))
    ensures Sum(StepsOf(spec, ids + [id])) == Sum(StepsOf(spec, ids)) + StageOf(spec, id).maxSteps
  {
    hide StageOf;
    var longer := StepsOf(spec, ids + [id]);
    assert longer[..|longer| - 1] == StepsOf(spec, ids);
  }

  /** The dispatch log ignores human gates, and a marked stage in flight stays logged. */
  lemma MarkKeepsLog(w: World, m: Mission, s: TaskState, id: string, node: NodeStatus, task: TaskStatus)
    requires PlanOf(w.spec, m.state.plan) && DispatchLog(w, m) && "" !in m.state.plan.nodes
    requires s.plan == m.state.plan && id in s.plan.nodes && !node.Pending?
    requires s.pending == m.state.pending || (s.pending == "" && id == m.state.pending)
    requires StageOf(w.spec, id).execution.Agent? ==> id == m.state.pending
    ensures DispatchLog(w, Mission(Mark(s, id, node, task), m.dispatched))
  {
    hide StageOf;
    var n := Mission(Mark(s, id, node, task), m.dispatched);
    assert n.state.plan.nodes.Keys == s.plan.nodes.Keys;
  }

  lemma MarkKeepsRest(w: World, m: Mission, s: TaskState, id: string, node: NodeStatus, task: TaskStatus)
    requires PlanOf(w.spec, m.state.plan) && Accounted(w, m) && NothingSkipped(m.state.plan)
    requires s.plan == m.state.plan && s.budget == m.state.budget && id in s.plan.nodes && !node.Skipped?
    ensures PlanOf(w.spec, Mark(s, id, node, task).plan)
    ensures Accounted(w, Mission(Mark(s, id, node, task), m.dispatched))
    ensures NothingSkipped(Mark(s, id, node, task).plan)
  {
    hide StageOf, StepsOf, StageIds;
    assert Mark(s, id, node, task).plan.nodes.Keys == s.plan.nodes.Keys;
  }

  /** Marking the node in flight, or a human gate, where the node is unfinished either way. */
  lemma MarkKeepsInv(w: World, start: Plan, m: Mission, id: string, node: NodeStatus, task: TaskStatus)
    requires Inv(w, start, m) && id in m.state.plan.nodes
    requires !m.state.plan.nodes[id].status.Success? && DependenciesDone(m.state.plan, id)
    requires node.Running? || node.NeedsReview? || (node.Success? && StageOf(w.spec, id).execution.Human?)
    requires node.Running? ==> id == m.state.pending
    requires StageOf(w.spec, id).execution.Agent? ==> id == m.state.pending
    ensures Inv(w, start, m.(state := Mark(m.state, id, node, task)))
  {
    hide IsDigest, IsIdentifier, SameShape, InOrder, AllCompletedBound, StageOf, DependenciesDone, StageIds,
         DispatchLog, StepsOf, Accounted, NothingSkipped, ValidActives;
    NoEmptyIds(w.spec, m.state.plan);
    MarkKeepsRest(w, m, m.state, id, node, task);
    assert ValidActives(Mark(m.state, id, node, task)) by { SameActives(m.state, Mark(m.state, id, node, task)); }
    MarkKeepsLog(w, m, m.state, id, node, task);
    MarkKeepsShape(w, start, m.state, id, node, task);
    MarkKeepsOrder(m.state, id, node, task);
    MarkKeepsBound(w, m.state, id, node, task);
    if m.state.pending != "" { MarkKeepsDone(m.state, id, node, task, m.state.pending); }
  }

  /** Storing the hand-off of the running stage: a success arrives bound and verified. */
  lemma StoreKeeps(w: World, start: Plan, m: Mission, active: ActiveNodeResult)
    requires Inv(w, start, m)
    requires m.state.pending in m.state.plan.nodes && m.state.plan.nodes[m.state.pending].status.Running?
    requires Bound(active.sessionId, active.nodeId, active.workflowFingerprint, active.nodeFingerprint)
        == BoundTo(w, m.state)
    requires active.Valid()
    ensures Inv(w, start, m.(state := Store(m.state, active)))
  {
    hide IsDigest, IsIdentifier, SameShape, InOrder, AllCompletedBound, StageOf, DependenciesDone, StageIds,
         DispatchLog, StepsOf, Accounted, NothingSkipped, ValidActives;
    var s, id := m.state, m.state.pending;
    NoEmptyIds(w.spec, s.plan);
    assert DependenciesDone(s.plan, id);
    var node := match active.outcome case Completed => Success case Failed => Error case _ => NeedsReview;
    var task := match active.outcome case Completed => Investigating case Failed => TaskFailed case _ => TaskBlocked;
    var stored := s.(active := s.active[id := active], pending := "");
    assert Store(s, active) == Mark(stored, id, node, task);
    MarkKeepsLog(w, m, stored, id, node, task);
    MarkKeepsRest(w, m, stored, id, node, task);
    assert ValidActives(Store(s, active)) by { StoredValid(s, active, stored); SameActives(stored, Store(s, active)); }
    StoredBound(w, s, active);
    MarkKeepsShape(w, start, stored, id, node, task);
    MarkKeepsOrder(stored, id, node, task);
    MarkKeepsBound(w, stored, id, node, task);
  }

  lemma SameActives(s: TaskState, t: TaskState)
    requires s.active == t.active && ValidActives(s)
    ensures ValidActives(t)
  {}

  lemma StoredValid(s: TaskState, active: ActiveNodeResult, t: TaskState)
    requires ValidActives(s) && active.Valid() && t.active == s.active[s.pending := active]
    ensures ValidActives(t)
  {}

  lemma StoredBound(w: World, s: TaskState, active: ActiveNodeResult)
    requires PlanOf(w.spec, s.plan) && AllCompletedBound(s, w.spec)
    requires s.pending in s.plan.nodes && s.plan.nodes[s.pending].status.Running?
    requires Bound(active.sessionId, active.nodeId, active.workflowFingerprint, active.nodeFingerprint) == BoundTo(w, s)
    requires active.outcome.Completed? ==> active.gatePassed
    ensures var t := s.(active := s.active[s.pending := active], pending := "");
            && AllCompletedBound(t, w.spec)
            && (active.outcome.Completed? ==> BoundCompletion(t, w.spec, s.pending))
  {
    hide StageOf;
    var t := s.(active := s.active[s.pending := active], pending := "");
    forall id | id in t.plan.nodes && t.plan.nodes[id].status.Success? && StageOf(w.spec, id).execution.Agent?
      ensures BoundCompletion(t, w.spec, id)
    {
      assert BoundCompletion(s, w.spec, id);
    }
  }

  lemma ConcludeKeeps(w: World, start: Plan, m: Mission, e: Event)
    requires Inv(w, start, m) && e.Conclude? && Step(w, m, e).Some?
    ensures Inv(w, start, Step(w, m, e).value)
  {
    hide Inv, Finished, Decided, StageOf, Store, IsDigest;
    assert w.spec.Valid() && PlanOf(w.spec, m.state.plan) by { InvBasics(w, start, m); }
    var s := m.state;
    var gate := StageOf(w.spec, s.pending).gate;
    FinishCoherent(BoundTo(w, s), gate, e.obs, e.reported, e.intact, e.attempts, e.escalation, w.redact);
    var r := Finished(BoundTo(w, s), gate, e.obs, e.reported, e.intact, e.attempts, e.escalation, w.redact).value;
    StoreKeeps(w, start, m, r.active.value);
  }

  lemma InvBasics(w: World, start: Plan, m: Mission)
    requires Inv(w, start, m)
    ensures w.spec.Valid() && m.state.Valid() && PlanOf(w.spec, m.state.plan) && SameShape(start, m.state.plan)
    ensures NothingSkipped(m.state.plan) && AllCompletedBound(m.state, w.spec)
    ensures m.state.pending in m.state.plan.nodes && m.state.plan.nodes[m.state.pending].status.Running? ==>
              m.state.pending != "" && DependenciesDone(m.state.plan, m.state.pending)
  {
    hide IsDigest, IsIdentifier, SameShape, AllCompletedBound;
    NoEmptyIds(w.spec, m.state.plan);
  }

  /** A gate is opened for a human stage that is ready. */
  lemma ApprovalIsForHumans(state: TaskState, spec: Spec, hash: ActiveNodeResult -> string)
    requires spec.Valid() && PlanOf(spec, state.plan)
    requires Decided(state, spec, hash).Ok? && Decided(state, spec, hash).value.outcome.AwaitApproval?
    ensures var id := Decided(state, spec, hash).value.stageId;
            && id in state.plan.nodes && StageOf(spec, id).execution.Human?
            && DependenciesDone(state.plan, id) && !state.plan.nodes[id].status.Success?
  {
    hide IsDigest, IsIdentifier, AllCompletedBound, AllDone, ReviewOf, Front, Selected, Cyclic, Interrupted,
         SomeNode, DependenciesDone;
    FrontIsLeast(state.plan, spec.stages);
    StageIsUnique(spec, Front(state.plan, spec.stages).value);
  }

  lemma GateKeeps(w: World, start: Plan, m: Mission)
    requires Inv(w, start, m) && Step(w, m, OpenGate).Some?
    ensures Inv(w, start, Step(w, m, OpenGate).value)
  {
    hide Decided, StageOf, DependenciesDone, Inv;
    InvBasics(w, start, m);
    ApprovalIsForHumans(m.state, w.spec, w.hash);
    MarkKeepsInv(w, start, m, Decided(m.state, w.spec, w.hash).value.stageId, NeedsReview, TaskBlocked);
  }

  lemma QuietStepKeeps(w: World, start: Plan, m: Mission, t: TaskState)
    requires Inv(w, start, m) && t.Valid()
    requires t == m.state.(stop := t.stop, status := t.status, revision := t.revision,
                           questions := t.questions, conditions := t.conditions)
    ensures Inv(w, start, m.(state := t))
  {
    hide IsDigest, IsIdentifier, AllCompletedBound, StageOf, SameShape, DependenciesDone;
    SameBoundness(m.state, t, w.spec);
  }

  /** Every step of the driver keeps the invariant. */
  lemma StepKeeps(w: World, start: Plan, m: Mission, e: Event)
    requires Inv(w, start, m)
    requires w.spec.Valid() && PlanOf(w.spec, m.state.plan)
    requires Step(w, m, e).Some?
    ensures Inv(w, start, Step(w, m, e).value)
  {
    hide Inv, Decided, Finished, StageOf, IsDigest, DependenciesDone, Mark, Store, Settled, SameShape,
         AllCompletedBound, NothingSkipped;
    InvBasics(w, start, m);
    match e {
      case Dispatch => DispatchKeeps(w, start, m);
      case Begin => PendingIsReady(w, start, m); MarkKeepsInv(w, start, m, m.state.pending, Running, m.state.status);
      case Conclude(_, _, _, _, _) => ConcludeKeeps(w, start, m, e);
      case Interrupt => MarkKeepsInv(w, start, m, m.state.pending, NeedsReview, TaskBlocked);
      case OpenGate => GateKeeps(w, start, m);
      case Approve(id) => MarkKeepsInv(w, start, m, id, Success, Investigating);
      case Settle => QuietStepKeeps(w, start, m, Step(w, m, e).value.state);
      case RecordStop => QuietStepKeeps(w, start, m, Step(w, m, e).value.state);
      case Annotate(_, _) => QuietStepKeeps(w, start, m, Step(w, m, e).value.state);
    }
  }

  lemma PendingIsReady(w: World, start: Plan, m: Mission)
    requires Inv(w, start, m) && m.state.pending in m.state.plan.nodes
    ensures DependenciesDone(m.state.plan, m.state.pending)
  {
    hide IsDigest, SameShape, AllCompletedBound;
    NoEmptyIds(w.spec, m.state.plan);
  }

  // ---- Whole runs ----

  /** The mission after a list of events, or `None` when one of them could not happen. */
  ghost function Run(w: World, m: Mission, events: seq<Event>): Option<Mission>
    decreases |events|
  {
    if events == [] then Some(m)
    else
      match Run(w, m, events[..|events| - 1])
      case None => None
      case Some(before) =>
        if !w.spec.Valid() || !PlanOf(w.spec, before.state.plan) then None
        else Step(w, before, events[|events| - 1])
  }

  /** The invariant holds in every reachable mission. */
  lemma {:induction false} RunKeepsInv(w: World, m: Mission, events: seq<Event>)
    requires Initial(w, m) && Run(w, m, events).Some?
    ensures Inv(w, m.state.plan, Run(w, m, events).value)
    decreases |events|
  {
    hide Inv, Step, Initial;
    if events == [] {
      InitialInv(w, m);
    } else {
      var init := events[..|events| - 1];
      RunKeepsInv(w, m, init);
      InvBasics(w, m.state.plan, Run(w, m, init).value);
      StepKeeps(w, m.state.plan, Run(w, m, init).value, events[|events| - 1]);
    }
  }

  // ---- What every reachable mission guarantees ----

  /** Completed work is never found unbound, in any run. */
  lemma NeverUnbound(w: World, m: Mission, events: seq<Event>)
    requires Initial(w, m) && Run(w, m, events).Some?
    ensures var s := Run(w, m, events).value.state;
            && w.spec.Valid() && PlanOf(w.spec, s.plan)
            && (Decided(s, w.spec, w.hash).Ok? ==> !Decided(s, w.spec, w.hash).value.reason.UnboundWork?)
  {
    hide Run, Inv, Initial, Judge, AllCompletedBound, IsDigest, Cyclic, ReviewOf, Selected;
    RunKeepsInv(w, m, events);
    InvBasics(w, m.state.plan, Run(w, m, events).value);
    BoundIsJudgedBound(Run(w, m, events).value.state, w.spec, w.hash);
  }

  lemma BoundIsJudgedBound(state: TaskState, spec: Spec, hash: ActiveNodeResult -> string)
    requires spec.Valid() && PlanOf(spec, state.plan) && AllCompletedBound(state, spec)
    ensures !Judge(state, spec, hash).reason.UnboundWork?
  {
    hide AllCompletedBound, IsDigest, IsIdentifier, Front, AllDone, ReviewOf, Interrupted, SomeNode;
  }

  function AgentStages(spec: Spec): set<string> {
    set s | s in spec.stages && s.execution.Agent? :: s.id
  }

  lemma AgentStageOf(spec: Spec, id: string)
    requires spec.Valid() && id in StageIds(spec.stages)
    ensures id in AgentStages(spec) <==> StageOf(spec, id).execution.Agent?
  {
    hide IsDigest, IsIdentifier;
    var s := StageOf(spec, id);
    if id in AgentStages(spec) {
      var t :| t in spec.stages && t.execution.Agent? && t.id == id;
      StageIsUnique(spec, t);
    }
  }

  lemma {:induction false} DistinctSize(s: seq<string>)
    requires forall i, j | 0 <= i < j < |s| :: s[i] != s[j]
    ensures |set x | x in s| == |s|
    decreases |s|
  {
    if s != [] {
      var rest := s[..|s| - 1];
      DistinctSize(rest);
      assert (set x | x in s) == (set x | x in rest) + {s[|s| - 1]};
    }
  }

  lemma SubsetSize<T>(a: set<T>, b: set<T>)
    requires a <= b
    ensures |a| <= |b|
    decreases b
  {
    if a != {} {
      var x :| x in a;
      SubsetSize(a - {x}, b - {x});
    }
  }

  /** Conservation over every run: each agent stage is dispatched at most once, the budget counts
      exactly the dispatches and exactly the steps of the dispatched stages, and neither limit
      is ever passed. */
  lemma DispatchesConserved(w: World, m: Mission, events: seq<Event>)
    requires Initial(w, m) && Run(w, m, events).Some?
    ensures var n := Run(w, m, events).value;
            && (forall i, j | 0 <= i < j < |n.dispatched| :: n.dispatched[i] != n.dispatched[j])
            && (set id | id in n.dispatched) <= AgentStages(w.spec)
            && |n.dispatched| <= |AgentStages(w.spec)|
            && (forall id | id in n.dispatched :: id in StageIds(w.spec.stages))
            && (n.state.budget.Some? ==>
                  && n.state.budget.value.Valid()
                  && n.state.budget.value.dispatches == |n.dispatched|
                  && n.state.budget.value.steps == Sum(StepsOf(w.spec, n.dispatched)))
  {
    hide Run, IsDigest, IsIdentifier, SameShape, AllCompletedBound, InOrder;
    RunKeepsInv(w, m, events);
    var n := Run(w, m, events).value;
    forall id | id in n.dispatched ensures id in AgentStages(w.spec) { AgentStageOf(w.spec, id); }
    DistinctSize(n.dispatched);
    SubsetSize((set id | id in n.dispatched), AgentStages(w.spec));
  }

  /** A mission decided complete has run every agent stage exactly once, in dependency order, and
      holds a verified, gated completion for each of them. */
  lemma CompletionIsEarned(w: World, m: Mission, events: seq<Event>)
    requires Initial(w, m) && Run(w, m, events).Some?
    requires var s := Run(w, m, events).value.state;
             w.spec.Valid() && PlanOf(w.spec, s.plan)
             && Decided(s, w.spec, w.hash).Ok? && Decided(s, w.spec, w.hash).value.outcome.MissionComplete?
    ensures var n := Run(w, m, events).value;
            && (set id | id in n.dispatched) == AgentStages(w.spec)
            && |n.dispatched| == |AgentStages(w.spec)|
            && (forall id | id in AgentStages(w.spec) ::
              id in n.state.plan.nodes && BoundCompletion(n.state, w.spec, id))
            && (forall id | id in n.state.plan.nodes :: n.state.plan.nodes[id].status.Success?)
  {
    hide Run, IsDigest, IsIdentifier, Inv, Initial, Decided, BoundCompletion, StageOf, DispatchLog;
    RunKeepsInv(w, m, events);
    var n := Run(w, m, events).value;
    InvBasics(w, m.state.plan, n);
    CompleteMeansDone(n.state, w.spec, w.hash);
    DispatchesConserved(w, m, events);
    forall id | id in AgentStages(w.spec)
      ensures id in n.dispatched && id in n.state.plan.nodes && BoundCompletion(n.state, w.spec, id)
    {
      var s :| s in w.spec.stages && s.id == id;
      assert id in StageIds(w.spec.stages);
      AgentStageOf(w.spec, id);
      LogOf(w, m.state.plan, n, id);
    }
    assert (set id | id in n.dispatched) == AgentStages(w.spec);
    DistinctSize(n.dispatched);
  }

  lemma LogOf(w: World, start: Plan, n: Mission, id: string)
    requires Inv(w, start, n) && id in n.state.plan.nodes && StageOf(w.spec, id).execution.Agent?
    ensures !n.state.plan.nodes[id].status.Pending? ==> id in n.dispatched
  {
    hide IsDigest, StageOf, SameShape, AllCompletedBound, InOrder;
  }

  lemma CompleteMeansDone(state: TaskState, spec: Spec, hash: ActiveNodeResult -> string)
    requires spec.Valid() && PlanOf(spec, state.plan)
    requires Decided(state, spec, hash).Ok? && Decided(state, spec, hash).value.outcome.MissionComplete?
    ensures forall id | id in state.plan.nodes :: state.plan.nodes[id].status.Success?
    ensures AllCompletedBound(state, spec)
  {
    hide IsDigest, IsIdentifier, AllCompletedBound, ReviewOf, Front, Selected, Cyclic, Interrupted, SomeNode;
  }

  /** Marking statuses changes neither closedness nor cycles. */
  lemma {:induction false} SameShapeSameCycles(p: Plan, q: Plan)
    requires SameShape(p, q)
    ensures p.Closed() <==> q.Closed()
    ensures Cyclic(p) <==> Cyclic(q)
  {
    forall a, b ensures p.DependsOn(a, b) <==> q.DependsOn(a, b) {
      if a in p.nodes { assert p.nodes[a].(status := Pending) == q.nodes[a].(status := Pending); }
    }
    forall id | id in p.nodes ensures p.nodes[id].dependsOn == q.nodes[id].dependsOn {
      assert p.nodes[id].(status := Pending) == q.nodes[id].(status := Pending);
    }
    forall c ensures IsCycle(p, c) <==> IsCycle(q, c) {
      if |c| >= 2 {
        forall i | 0 <= i < |c| - 1 ensures Hop(p, c, i) <==> Hop(q, c, i) {}
      }
    }
  }

  /** Progress over every run: a reachable mission under investigation, without open questions or
      leftover conditions, always has a stage to delegate, a gate to approve, a completion to
      announce, a failure or interruption to review, or a budget to refuse. */
  lemma ReachableMissionsProgress(w: World, m: Mission, events: seq<Event>)
    requires Initial(w, m) && Run(w, m, events).Some?
    requires m.state.plan.Closed() && !Cyclic(m.state.plan)
    ensures var s := Run(w, m, events).value.state;
            && w.spec.Valid() && PlanOf(w.spec, s.plan)
            && (&& Selected(s, w.spec) && s.stop.None? && s.status.Investigating?
                && s.questions == [] && s.conditions == [] ==>
                  && Decided(s, w.spec, w.hash).Ok?
                  && !Decided(s, w.spec, w.hash).value.reason.NoReadyWork?
                  && !Decided(s, w.spec, w.hash).value.reason.UnboundWork?)
  {
    hide Run, IsDigest, Front, AllDone, ReviewOf, Interrupted, SomeNode, Selected, Inv, Initial, Judge, Cyclic;
    RunKeepsInv(w, m, events);
    var n := Run(w, m, events).value;
    InvBasics(w, m.state.plan, n);
    SameShapeSameCycles(m.state.plan, n.state.plan);
    NeverUnbound(w, m, events);
    if Decided(n.state, w.spec, w.hash).Ok? {
      NoReadyWorkIff(n.state, w.spec, w.hash);
    }
  }
}
