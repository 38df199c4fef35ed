/** What is settled in a mission stays settled: stops, verdicts and the task status over whole runs. */
module MissionLaws {
  import opened Prelude
  import opened PlanDag
  import opened ActiveResults
  import opened StageRuntime
  import opened CorePlanner
  import opened CoreGuarantees
  import opened MissionRuns
  import DecisionMeaning

  // ---- One step ----

  predicate Settling(status: NodeStatus) { status == Success || status == Error }

  /** Between the two plans at most one node was marked, which had neither succeeded nor failed. */
  predicate OneMarked(p: Plan, q: Plan, mayFail: bool) {
    && p.nodes.Keys == q.nodes.Keys
    && (forall id | id in p.nodes && id in q.nodes && Settling(p.nodes[id].status) :: q.nodes[id] == p.nodes[id])
    && (forall id | id in p.nodes && id in q.nodes && q.nodes[id].status == Error ::
          mayFail || p.nodes[id].status == Error)
    && (forall a, b | a in p.nodes && a in q.nodes && b in p.nodes && b in q.nodes
                      && p.nodes[a] != q.nodes[a] && p.nodes[b] != q.nodes[b] :: a == b)
  }

  lemma MarkedOne(s: TaskState, id: string, node: NodeStatus, task: TaskStatus, mayFail: bool)
    requires id in s.plan.nodes && !Settling(s.plan.nodes[id].status) && (node == Error ==> mayFail)
    ensures OneMarked(s.plan, Mark(s, id, node, task).plan, mayFail)
  {}

  lemma StoredOne(s: TaskState, active: ActiveNodeResult)
    requires s.pending in s.plan.nodes && s.plan.nodes[s.pending].status == Running
    ensures OneMarked(s.plan, Store(s, active).plan, true)
  {}

  /** A step marks at most one node of the plan, never one that succeeded or failed before, and
      only a conclusion makes a node fail. */
  lemma StepMarks(w: World, start: Plan, m: Mission, e: Event, n: Mission)
    requires Inv(w, start, m) && w.spec.Valid() && PlanOf(w.spec, m.state.plan) && Step(w, m, e) == Some(n)
    ensures OneMarked(m.state.plan, n.state.plan, e.Conclude?)
  {
    hide Inv, Decided, Finished, StageOf, IsDigest, DependenciesDone, Mark, Store, Settled, SameShape, OneMarked;
    var s := m.state;
    InvBasics(w, start, m);
    SamePlan(s.plan);
    match e {
      case Begin => MarkedOne(s, s.pending, Running, s.status, false);
      case Conclude(obs, reported, intact, attempts, escalation) =>
        var r := Finished(BoundTo(w, s), StageOf(w.spec, s.pending).gate, obs, reported, intact, attempts, escalation,
                          w.redact).value;
        StoredOne(s, r.active.value);
      case Interrupt => MarkedOne(s, s.pending, NeedsReview, TaskBlocked, false);
      case OpenGate =>
        GateWaits(s, w.spec, w.hash);
        MarkedOne(s, Decided(s, w.spec, w.hash).value.stageId, NeedsReview, TaskBlocked, false);
      case Approve(id) => MarkedOne(s, id, Success, Investigating, false);
      case _ => KeepsPlan(w, m, e, n);
    }
  }

  lemma SamePlan(p: Plan)
    ensures OneMarked(p, p, false)
  {}

  lemma KeepsPlan(w: World, m: Mission, e: Event, n: Mission)
    requires w.spec.Valid() && PlanOf(w.spec, m.state.plan) && Step(w, m, e) == Some(n)
    requires e.Dispatch? || e.Settle? || e.RecordStop? || e.Annotate?
    ensures n.state.plan == m.state.plan
  {
    hide Decided, Settled;
  }

  lemma GateWaits(s: TaskState, spec: Spec, hash: ActiveNodeResult -> string)
    requires s.Valid() && spec.Valid() && PlanOf(spec, s.plan)
    requires Decided(s, spec, hash).Ok? && Decided(s, spec, hash).value.outcome.AwaitApproval?
    ensures var id := Decided(s, spec, hash).value.stageId;
            id in s.plan.nodes && !Settling(s.plan.nodes[id].status)
  {
    hide Decided, IsDigest, IsIdentifier, DecisionMeaning.Open;
    var d := Decided(s, spec, hash).value;
    DecisionMeaning.AnswerMeans(s, spec, hash, d);
    var i :| 0 <= i < |spec.stages| && DecisionMeaning.Foremost(s, spec, i) && spec.stages[i].execution == Human;
    DecisionMeaning.ForemostAnswer(s, spec, hash, d, i);
  }

  /** Concluding the stage in flight: its node succeeds exactly when a reported success came on an
      unchanged envelope, evidenced and through the gate; it fails exactly when failure was
      reported on an unchanged envelope; and everything else is set aside for review. A reported
      success is never turned into a failure. */
  lemma ConcludeMeans(w: World, m: Mission, e: Event, n: Mission)
    requires w.spec.Valid() && PlanOf(w.spec, m.state.plan) && e.Conclude? && Step(w, m, e) == Some(n)
    requires m.state.pending in m.state.plan.nodes && StageOf(w.spec, m.state.pending).gate.Valid()
    ensures n.state.plan.nodes.Keys == m.state.plan.nodes.Keys && n.dispatched == m.dispatched
    ensures var id, gate := m.state.pending, StageOf(w.spec, m.state.pending).gate;
            var node := n.state.plan.nodes[id].status;
            && n.state.pending == "" && id in n.state.active && n.state.active[id].observations == e.obs
            && (node == Success <==>
                  && e.intact && e.reported.success && Evidenced(e.obs)
                  && (gate.requireFinal ==> !Blank(w.redact(e.reported.final)))
                  && CountSuccess(e.obs) >= gate.minSuccessfulActions
                  && (gate.expectedSha != "" || gate.expectedSize.Some? ==> ReadAsExpected(gate, e.obs)))
            && (node == Error <==> e.intact && e.reported.outcome == Failed)
            && (node == Success || node == Error || node == NeedsReview)
            && (n.state.status == Investigating <==> node == Success)
            && (n.state.status == TaskFailed <==> node == Error)
            && (n.state.status == TaskBlocked <==> node == NeedsReview)
  {
    hide Finished, Decided, StageOf, IsDigest, CountSuccess, Evidenced, ReadAsExpected, Blank, Gate.Valid, Store,
         ActiveNodeResult.Valid, StageResult.Valid;
    var s := m.state;
    var gate := StageOf(w.spec, s.pending).gate;
    var r := Finished(BoundTo(w, s), gate, e.obs, e.reported, e.intact, e.attempts, e.escalation, w.redact).value;
    FinishCoherent(BoundTo(w, s), gate, e.obs, e.reported, e.intact, e.attempts, e.escalation, w.redact);
    FinishMeans(BoundTo(w, s), gate, e.obs, e.reported, e.intact, e.attempts, e.escalation, w.redact, r);
    ReportedFailure(e.reported);
    StoreMeans(s, r.active.value);
  }

  lemma ReportedFailure(reported: StageResult)
    requires reported.Valid()
    ensures reported.success <==> reported.outcome == Completed
  {}

  lemma StoreMeans(s: TaskState, active: ActiveNodeResult)
    requires s.pending in s.plan.nodes
    ensures var t := Store(s, active);
            && t.plan.nodes.Keys == s.plan.nodes.Keys && t.pending == "" && t.active == s.active[s.pending := active]
            && (active.outcome == Completed ==>
                  t.plan.nodes[s.pending].status == Success && t.status == Investigating)
            && (active.outcome == Failed ==> t.plan.nodes[s.pending].status == Error && t.status == TaskFailed)
            && (active.outcome == NeedsReplan || active.outcome == ActiveResults.Blocked ==>
                  t.plan.nodes[s.pending].status == NeedsReview && t.status == TaskBlocked)
  {}

  /** How a node comes to succeed: a human gate by its approval, once it was opened and all it
      depends on succeeded; an agent stage by a conclusion that was accepted. */
  lemma StepSucceeds(w: World, start: Plan, m: Mission, e: Event, n: Mission, id: string)
    requires Inv(w, start, m) && w.spec.Valid() && PlanOf(w.spec, m.state.plan) && Step(w, m, e) == Some(n)
    requires id in m.state.plan.nodes && m.state.plan.nodes[id].status != Success
    requires id in n.state.plan.nodes && n.state.plan.nodes[id].status == Success
    ensures StageOf(w.spec, id).execution == Human ==>
              && e == Approve(id) && m.state.plan.nodes[id].status == NeedsReview
              && forall d | d in m.state.plan.nodes[id].dependsOn ::
                   d in m.state.plan.nodes && m.state.plan.nodes[d].status == Success
    ensures StageOf(w.spec, id).execution == Agent ==>
              e.Conclude? && id == m.state.pending && e.intact && e.reported.success && Evidenced(e.obs)
  {
    hide Inv, Step, StageOf, IsDigest, SameShape, Evidenced, DependenciesDone;
    InvBasics(w, start, m);
    if e.Conclude? {
      ConcludeAccepts(w, m, e, n);
      PendingIsAgent(w, start, m);
      if id != m.state.pending { OnlyPendingMarked(w, m, e, n, id); }
    } else {
      NewlyApproved(w, m, e, n, id);
      DependenciesMean(m.state.plan, id);
    }
  }

  lemma NewlyApproved(w: World, m: Mission, e: Event, n: Mission, id: string)
    requires m.state.Valid() && w.spec.Valid() && PlanOf(w.spec, m.state.plan) && Step(w, m, e) == Some(n)
    requires !e.Conclude? && id in m.state.plan.nodes && m.state.plan.nodes[id].status != Success
    requires id in n.state.plan.nodes && n.state.plan.nodes[id].status == Success
    ensures e == Approve(id) && m.state.plan.nodes[id].status == NeedsReview
    ensures DependenciesDone(m.state.plan, id) && StageOf(w.spec, id).execution == Human
  {
    hide Decided, StageOf, IsDigest, Settled, DependenciesDone, Mark;
    var s := m.state;
    match e {
      case Approve(a) => MarkedOther(s, a, Success, Investigating, id);
      case OpenGate => MarkedOther(s, Decided(s, w.spec, w.hash).value.stageId, NeedsReview, TaskBlocked, id);
      case Begin => MarkedOther(s, s.pending, Running, s.status, id);
      case Interrupt => MarkedOther(s, s.pending, NeedsReview, TaskBlocked, id);
      case _ => KeepsPlan(w, m, e, n);
    }
  }

  lemma MarkedOther(s: TaskState, a: string, node: NodeStatus, task: TaskStatus, id: string)
    requires a in s.plan.nodes && id in s.plan.nodes
    ensures var q := Mark(s, a, node, task).plan;
            q.nodes[id].status == if id == a then node else s.plan.nodes[id].status
  {}

  lemma DependenciesMean(p: Plan, id: string)
    requires id in p.nodes && DependenciesDone(p, id)
    ensures forall d | d in p.nodes[id].dependsOn :: d in p.nodes && p.nodes[d].status == Success
  {}

  lemma PendingIsAgent(w: World, start: Plan, m: Mission)
    requires Inv(w, start, m) && m.state.pending in m.state.plan.nodes
    ensures StageOf(w.spec, m.state.pending).execution == Agent
  {
    hide IsDigest, IsIdentifier, SameShape, AllCompletedBound, DependenciesDone, StageOf, InOrder, DispatchLog;
    NoEmptyIds(w.spec, m.state.plan);
  }

  lemma OnlyPendingMarked(w: World, m: Mission, e: Event, n: Mission, id: string)
    requires w.spec.Valid() && PlanOf(w.spec, m.state.plan) && e.Conclude? && Step(w, m, e) == Some(n)
    requires id in m.state.plan.nodes && id != m.state.pending
    ensures id in n.state.plan.nodes && n.state.plan.nodes[id] == m.state.plan.nodes[id]
  {
    hide Finished, Decided, StageOf, IsDigest;
  }

  lemma ConcludeAccepts(w: World, m: Mission, e: Event, n: Mission)
    requires w.spec.Valid() && PlanOf(w.spec, m.state.plan) && e.Conclude? && Step(w, m, e) == Some(n)
    ensures m.state.pending in m.state.plan.nodes && m.state.pending in n.state.plan.nodes
    ensures n.state.plan.nodes[m.state.pending].status == Success ==>
              e.intact && e.reported.success && Evidenced(e.obs)
  {
    hide Finished, Decided, StageOf, IsDigest, Evidenced, Store, GatePasses;
    var s := m.state;
    var gate := StageOf(w.spec, s.pending).gate;
    var r := Finished(BoundTo(w, s), gate, e.obs, e.reported, e.intact, e.attempts, e.escalation, w.redact).value;
    FinishCoherent(BoundTo(w, s), gate, e.obs, e.reported, e.intact, e.attempts, e.escalation, w.redact);
    StoreMeans(s, r.active.value);
    EvidencedIff(e.obs);
  }

  // ---- Whole runs ----

  lemma RunSplits(w: World, m: Mission, events: seq<Event>)
    requires events != [] && Run(w, m, events).Some?
    ensures var before := Run(w, m, events[..|events| - 1]);
            && before.Some? && w.spec.Valid() && PlanOf(w.spec, before.value.state.plan)
            && Step(w, before.value, events[|events| - 1]) == Run(w, m, events)
  {
    hide Step;
  }

  lemma {:induction false} RunPrefix(w: World, m: Mission, events: seq<Event>, i: nat)
    requires i <= |events| && Run(w, m, events).Some?
    ensures Run(w, m, events[..i]).Some?
    decreases |events| - i
  {
    hide Step, Run;
    if i == |events| {
      assert events[..i] == events;
    } else {
      RunPrefix(w, m, events, i + 1);
      RunSplits(w, m, events[..i + 1]);
      assert events[..i + 1][..i] == events[..i];
    }
  }

  /** The task is marked complete only with every node successful, and failed only with one failed. */
  predicate StatusEarned(s: TaskState) {
    && (s.status == TaskComplete ==> forall id | id in s.plan.nodes :: s.plan.nodes[id].status == Success)
    && (s.status == TaskFailed ==> exists id | id in s.plan.nodes :: s.plan.nodes[id].status == Error)
  }

  lemma StepEarns(w: World, start: Plan, m: Mission, e: Event, n: Mission)
    requires Inv(w, start, m) && w.spec.Valid() && PlanOf(w.spec, m.state.plan) && Step(w, m, e) == Some(n)
    requires StatusEarned(m.state)
    ensures StatusEarned(n.state)
  {
    hide Inv, Decided, Finished, StageOf, IsDigest, DependenciesDone, Settled, Store, Step, OneMarked, StatusEarned;
    InvBasics(w, start, m);
    StepMarks(w, start, m, e, n);
    if e.Conclude? {
      ConcludeEarns(w, m, e, n);
    } else if e.Settle? {
      StepSettles(w, m, n);
      SettleEarns(m.state, w.spec, Decided(m.state, w.spec, w.hash).value, w.hash);
      EarnedBy(m.state.(status := n.state.status), n.state);
    } else {
      StatusMoves(w, m, e, n);
      MarkedEarns(m.state, n.state);
    }
  }

  lemma ConcludeEarns(w: World, m: Mission, e: Event, n: Mission)
    requires w.spec.Valid() && PlanOf(w.spec, m.state.plan) && Step(w, m, e) == Some(n) && e.Conclude?
    ensures StatusEarned(n.state)
  {
    hide Finished, StageOf, IsDigest, Store, Decided;
    var s := m.state;
    var r := Finished(BoundTo(w, s), StageOf(w.spec, s.pending).gate, e.obs, e.reported, e.intact, e.attempts,
                      e.escalation, w.redact).value;
    StoreMeans(s, r.active.value);
  }

  lemma StepSettles(w: World, m: Mission, n: Mission)
    requires w.spec.Valid() && PlanOf(w.spec, m.state.plan) && Step(w, m, Settle) == Some(n)
    ensures n.state.plan == m.state.plan && Decided(m.state, w.spec, w.hash).Ok?
    ensures n.state.status == Settled(m.state.status, Decided(m.state, w.spec, w.hash).value.outcome)
  {
    hide Decided, Settled;
  }

  lemma EarnedBy(s: TaskState, t: TaskState)
    requires StatusEarned(s) && t.plan == s.plan && t.status == s.status
    ensures StatusEarned(t)
  {}

  /** Other steps complete and fail no task. */
  lemma StatusMoves(w: World, m: Mission, e: Event, n: Mission)
    requires w.spec.Valid() && PlanOf(w.spec, m.state.plan) && Step(w, m, e) == Some(n) && !e.Conclude? && !e.Settle?
    ensures n.state.status == m.state.status || n.state.status == Investigating || n.state.status == TaskBlocked
  {
    hide Decided, StageOf, DependenciesDone;
  }

  lemma MarkedEarns(s: TaskState, t: TaskState)
    requires StatusEarned(s) && OneMarked(s.plan, t.plan, false)
    requires t.status == s.status || t.status == Investigating || t.status == TaskBlocked
    ensures StatusEarned(t)
  {}

  lemma SettleEarns(s: TaskState, spec: Spec, d: Decision, hash: ActiveNodeResult -> string)
    requires s.Valid() && spec.Valid() && PlanOf(spec, s.plan) && Decided(s, spec, hash) == Ok(d)
    requires StatusEarned(s)
    ensures StatusEarned(s.(status := Settled(s.status, d.outcome)))
  {
    hide Decided, IsDigest, IsIdentifier, DecisionMeaning.Foremost, DecisionMeaning.InDoubt,
         DecisionMeaning.Unvouched;
    DecisionMeaning.AnswerMeans(s, spec, hash, d);
  }

  /** In every run of a mission that starts under investigation, a task marked complete has every
      node successful, and a task marked failed has one that failed. */
  lemma {:induction false} StatusIsEarned(w: World, m: Mission, events: seq<Event>)
    requires Initial(w, m) && m.state.status == Investigating && Run(w, m, events).Some?
    ensures StatusEarned(Run(w, m, events).value.state)
    decreases |events|
  {
    hide Step, Inv, Initial, StatusEarned;
    if events == [] {
      StartEarned(m);
    } else {
      var init := events[..|events| - 1];
      RunSplits(w, m, events);
      StatusIsEarned(w, m, init);
      RunKeepsInv(w, m, init);
      StepEarns(w, m.state.plan, Run(w, m, init).value, events[|events| - 1], Run(w, m, events).value);
    }
  }

  lemma StartEarned(m: Mission)
    requires m.state.status == Investigating
    ensures StatusEarned(m.state)
  {}

  /** In every run a node that succeeded or failed keeps that verdict, and nothing else of the plan
      ever changes but the statuses. */
  lemma {:induction false} VerdictsAreFinal(w: World, m: Mission, events: seq<Event>, i: nat)
    requires Initial(w, m) && Run(w, m, events).Some? && i <= |events|
    ensures Run(w, m, events[..i]).Some?
    ensures var early, late := Run(w, m, events[..i]).value.state.plan, Run(w, m, events).value.state.plan;
            && SameShape(early, late)
            && forall id | id in early.nodes && Settling(early.nodes[id].status) ::
                 id in late.nodes && late.nodes[id] == early.nodes[id]
    decreases |events|
  {
    hide Step, Inv, Initial, Run;
    RunPrefix(w, m, events, i);
    var early := Run(w, m, events[..i]).value.state.plan;
    if i == |events| {
      assert events[..i] == events;
    } else {
      var init := events[..|events| - 1];
      RunSplits(w, m, events);
      assert init[..i] == events[..i];
      VerdictsAreFinal(w, m, init, i);
      RunKeepsInv(w, m, init);
      StepMarks(w, m.state.plan, Run(w, m, init).value, events[|events| - 1], Run(w, m, events).value);
      RunKeepsInv(w, m, events);
      InvBasics(w, m.state.plan, Run(w, m, init).value);
      InvBasics(w, m.state.plan, Run(w, m, events).value);
    }
  }

  /** Once a stop is recorded it stays: from then on every decision given is `Stopped`, and no
      further stage is dispatched. */
  lemma {:induction false} StopIsFinal(w: World, m: Mission, events: seq<Event>, i: nat)
    requires Initial(w, m) && Run(w, m, events).Some? && i <= |events|
    requires Run(w, m, events[..i]).Some? && Run(w, m, events[..i]).value.state.stop.Some?
    ensures var early, late := Run(w, m, events[..i]).value, Run(w, m, events).value;
            && late.state.stop.Some? && late.dispatched == early.dispatched
            && late.state.Valid() && w.spec.Valid() && PlanOf(w.spec, late.state.plan)
            && forall d: Decision | Decided(late.state, w.spec, w.hash) == Ok(d) ::
                 d.outcome == Stopped && d.reason == HumanStop
    decreases |events|
  {
    hide Step, Inv, Initial, Run, Decided, IsDigest;
    RunKeepsInv(w, m, events);
    InvBasics(w, m.state.plan, Run(w, m, events).value);
    if i == |events| {
      assert events[..i] == events;
    } else {
      var init := events[..|events| - 1];
      RunSplits(w, m, events);
      assert init[..i] == events[..i];
      StopIsFinal(w, m, init, i);
      StopStays(w, Run(w, m, init).value, events[|events| - 1], Run(w, m, events).value);
    }
    forall d: Decision | Decided(Run(w, m, events).value.state, w.spec, w.hash) == Ok(d)
      ensures d.outcome == Stopped && d.reason == HumanStop
    {
      StoppedAnswer(Run(w, m, events).value.state, w.spec, w.hash, d);
    }
  }

  lemma StoppedAnswer(s: TaskState, spec: Spec, hash: ActiveNodeResult -> string, d: Decision)
    requires s.Valid() && spec.Valid() && PlanOf(spec, s.plan) && Decided(s, spec, hash) == Ok(d) && s.stop.Some?
    ensures d.outcome == Stopped && d.reason == HumanStop
  {
    hide Decided;
    DecisionMeaning.AnswerMeans(s, spec, hash, d);
    DecisionMeaning.AnswerFields(s, spec, hash, d);
  }

  lemma StopStays(w: World, m: Mission, e: Event, n: Mission)
    requires m.state.Valid() && w.spec.Valid() && PlanOf(w.spec, m.state.plan) && Step(w, m, e) == Some(n)
    requires m.state.stop.Some?
    ensures n.state.stop.Some? && n.dispatched == m.dispatched
  {
    hide Decided, Finished, StageOf, IsDigest, DependenciesDone, Settled, DecisionMeaning.Open;
    var decided := Decided(m.state, w.spec, w.hash);
    if decided.Ok? {
      StoppedAnswer(m.state, w.spec, w.hash, decided.value);
    }
  }

  /** In every run each human gate that succeeded was approved, and by that event alone. */
  lemma {:induction false} GatesAreApproved(w: World, m: Mission, events: seq<Event>, id: string)
    requires Initial(w, m) && Run(w, m, events).Some? && id in StageIds(w.spec.stages)
    requires StageOf(w.spec, id).execution == Human
    requires var p := Run(w, m, events).value.state.plan; id in p.nodes && p.nodes[id].status == Success
    ensures Approve(id) in events
    decreases |events|
  {
    hide Step, Inv, Initial, StageOf, StageIds;
    if events == [] {
      StartPending(w, m, id);
    } else {
      var init := events[..|events| - 1];
      RunSplits(w, m, events);
      RunKeepsInv(w, m, init);
      var before := Run(w, m, init).value;
      StepMarks(w, m.state.plan, before, events[|events| - 1], Run(w, m, events).value);
      if before.state.plan.nodes[id].status == Success {
        GatesAreApproved(w, m, init, id);
        assert Approve(id) in init;
      } else {
        StepSucceeds(w, m.state.plan, before, events[|events| - 1], Run(w, m, events).value, id);
      }
    }
  }

  lemma StartPending(w: World, m: Mission, id: string)
    requires Initial(w, m) && id in m.state.plan.nodes
    ensures m.state.plan.nodes[id].status == Pending
  {}

  /** A stop can be recorded at any time; what is finished keeps its status, anything else is
      blocked, and a mission that is decided at all is then told that it is stopped. */
  lemma StopTakesEffect(w: World, m: Mission, d: Decision)
    requires m.state.Valid() && w.spec.Valid() && PlanOf(w.spec, m.state.plan)
    requires Decided(m.state, w.spec, w.hash) == Ok(d)
    ensures Step(w, m, RecordStop).Some?
    ensures var n := Step(w, m, RecordStop).value;
            && n.dispatched == m.dispatched && n.state.plan == m.state.plan && n.state.Valid()
            && n.state.stop == Some(m.state.sessionId)
            && (m.state.status == TaskComplete || m.state.status == TaskFailed ==> n.state.status == m.state.status)
            && (m.state.status == Investigating ==> n.state.status == TaskBlocked)
            && Decided(n.state, w.spec, w.hash).Ok?
            && Decided(n.state, w.spec, w.hash).value.outcome == Stopped
  {
    hide Decided, IsDigest, IsIdentifier, Cyclic;
    var n := Step(w, m, RecordStop).value;
    DecisionMeaning.AnsweredIff(m.state, w.spec, w.hash);
    DecisionMeaning.AnsweredIff(n.state, w.spec, w.hash);
    StoppedAnswer(n.state, w.spec, w.hash, Decided(n.state, w.spec, w.hash).value);
  }
}
