/** The evidence a bound stage inherits from its completed dependencies. */
module HandOff {
  import opened Prelude
  import opened PlanDag
  import opened ActiveResults
  import opened StageRuntime
  import opened CorePlanner
  import opened CoreGuarantees
  import opened MissionRuns

  datatype EvidenceRef = EvidenceRef(stageId: string, evidenceId: string, evidenceHash: string)

  const MAX_REFS := 8

  function RefsOf(stageId: string, obs: seq<Observation>): seq<EvidenceRef>
    decreases |obs|
  {
    if obs == [] then []
    else
      var o := obs[|obs| - 1];
      RefsOf(stageId, obs[..|obs| - 1]) +
      if o.Protected() then [EvidenceRef(stageId, o.evidenceId, o.evidenceHash)] else []
  }

  /** Every protected observation of every verified dependency, in declaration order. */
  function AllRefs(state: TaskState, spec: Spec, deps: seq<string>): seq<EvidenceRef>
    requires forall d | d in deps :: d in state.plan.nodes
    decreases |deps|
  {
    if deps == [] then []
    else
      var d := deps[|deps| - 1];
      AllRefs(state, spec, deps[..|deps| - 1]) +
      if state.plan.nodes[d].status.Success? && BoundCompletion(state, spec, d)
      then RefsOf(d, state.active[d].observations) else []
  }

  /** References are those of the single observations, and those of the single dependencies, in order. */
  lemma {:induction false} RefsAdd(stageId: string, a: seq<Observation>, b: seq<Observation>)
    ensures RefsOf(stageId, a + b) == RefsOf(stageId, a) + RefsOf(stageId, b)
    decreases |b|
  {
    if b == [] {
      assert a + b == a;
    } else {
      assert (a + b)[..|a + b| - 1] == a + b[..|b| - 1];
      RefsAdd(stageId, a, b[..|b| - 1]);
    }
  }

  lemma {:induction false} AllRefsAdd(state: TaskState, spec: Spec, a: seq<string>, b: seq<string>)
    requires forall d | d in a + b :: d in state.plan.nodes
    ensures AllRefs(state, spec, a + b) == AllRefs(state, spec, a) + AllRefs(state, spec, b)
    decreases |b|
  {
    hide RefsOf, BoundCompletion;
    if b == [] {
      assert a + b == a;
    } else {
      assert (a + b)[..|a + b| - 1] == a + b[..|b| - 1];
      AllRefsAdd(state, spec, a, b[..|b| - 1]);
    }
  }

  /** One observation gives a reference exactly when it is a success with evidence. */
  lemma RefsMean(stageId: string, o: Observation)
    ensures RefsOf(stageId, []) == []
    ensures RefsOf(stageId, [o]) == if o.success && o.evidenceId != "" && o.evidenceHash != ""
                                    then [EvidenceRef(stageId, o.evidenceId, o.evidenceHash)] else []
  {
    assert [o][..0] == [];
  }

  /** One dependency gives those of the observations of its stored result, where it succeeded and
      the result is a completion of this very work that passed its gate. */
  lemma AllRefsMean(state: TaskState, spec: Spec, d: string)
    requires d in state.plan.nodes
    ensures AllRefs(state, spec, []) == []
    ensures AllRefs(state, spec, [d]) ==
            if && state.plan.nodes[d].status == Success && d in state.active
               && state.active[d].sessionId == state.sessionId && state.active[d].nodeId == d
               && state.active[d].workflowFingerprint == spec.fingerprint
               && state.active[d].nodeFingerprint == state.plan.nodes[d].fingerprint
               && state.active[d].outcome == Completed && state.active[d].gatePassed
            then RefsOf(d, state.active[d].observations) else []
  {
    hide RefsOf;
    assert [d][..0] == [];
  }

  function Cut<T>(s: seq<T>): seq<T> {
    if |s| <= MAX_REFS then s else s[..MAX_REFS]
  }

  /** The inner loop of `from_task`: append one dependency's references until eight are held. */
  method AppendRefs(refs0: seq<EvidenceRef>, stageId: string, obs: seq<Observation>) returns (refs: seq<EvidenceRef>)
    requires |refs0| < MAX_REFS
    ensures refs == Cut(refs0 + RefsOf(stageId, obs))
  {
    refs := refs0;
    assert refs0 + [] == refs0;
    for i := 0 to |obs|
      invariant |refs| < MAX_REFS && refs == refs0 + RefsOf(stageId, obs[..i])
    {
      assert obs[..i + 1][..i] == obs[..i];
      if obs[i].Protected() {
        refs := refs + [EvidenceRef(stageId, obs[i].evidenceId, obs[i].evidenceHash)];
        if |refs| == MAX_REFS {
          PrefixRefs(stageId, obs, i + 1);
          return;
        }
      }
    }
    assert obs[..|obs|] == obs;
  }

  lemma {:induction false} PrefixRefs(stageId: string, obs: seq<Observation>, n: nat)
    requires n <= |obs|
    ensures RefsOf(stageId, obs[..n]) <= RefsOf(stageId, obs)
    decreases |obs|
  {
    if n == |obs| {
      assert obs[..n] == obs;
    } else {
      assert obs[..|obs| - 1][..n] == obs[..n];
      PrefixRefs(stageId, obs[..|obs| - 1], n);
    }
  }

  lemma {:induction false} PrefixAllRefs(state: TaskState, spec: Spec, deps: seq<string>, n: nat)
    requires n <= |deps| && forall d | d in deps :: d in state.plan.nodes
    ensures AllRefs(state, spec, deps[..n]) <= AllRefs(state, spec, deps)
    decreases |deps|
  {
    hide RefsOf, BoundCompletion;
    if n == |deps| {
      assert deps[..n] == deps;
    } else {
      assert deps[..|deps| - 1][..n] == deps[..n];
      PrefixAllRefs(state, spec, deps[..|deps| - 1], n);
    }
  }

  /** The prior evidence a stage is bound to: the first eight references, and nothing else. */
  method PriorEvidence(state: TaskState, spec: Spec, deps: seq<string>) returns (refs: seq<EvidenceRef>)
    requires forall d | d in deps :: d in state.plan.nodes
    ensures refs == Cut(AllRefs(state, spec, deps))
  {
    hide RefsOf, BoundCompletion;
    refs := [];
    for i := 0 to |deps|
      invariant |refs| < MAX_REFS && refs == AllRefs(state, spec, deps[..i])
    {
      var d := deps[i];
      assert deps[..i + 1][..i] == deps[..i];
      PrefixAllRefs(state, spec, deps, i + 1);
      if !state.plan.nodes[d].status.Success? || !BoundCompletion(state, spec, d) {
        continue;
      }
      refs := AppendRefs(refs, d, CompletedObservations(state, spec, d));
      if |refs| == MAX_REFS {
        break;
      }
    }
    assert deps[..|deps|] == deps;
  }

  function CompletedObservations(state: TaskState, spec: Spec, id: string): seq<Observation>
    requires id in state.plan.nodes && BoundCompletion(state, spec, id)
  {
    state.active[id].observations
  }

  /** A stage's references are those of its protected observations. */
  lemma {:induction false} RefsFromProtected(stageId: string, obs: seq<Observation>)
    ensures RefsOf(stageId, obs) != [] <==> AnyProtected(obs)
    ensures forall r | r in RefsOf(stageId, obs) ::
              r.stageId == stageId
              && exists o | o in obs ::
                o.Protected() && r.evidenceId == o.evidenceId && r.evidenceHash == o.evidenceHash
    decreases |obs|
  {
    if obs != [] {
      var rest, o := obs[..|obs| - 1], obs[|obs| - 1];
      RefsFromProtected(stageId, rest);
      assert obs == rest + [o];
      if AnyProtected(rest) {
        var x :| x in rest && x.Protected();
        assert x in obs;
      }
      forall r | r in RefsOf(stageId, obs)
        ensures r.stageId == stageId
        ensures exists x | x in obs :: x.Protected() && r.evidenceId == x.evidenceId && r.evidenceHash == x.evidenceHash
      {
        if r in RefsOf(stageId, rest) {
          var x :| x in rest && x.Protected() && r.evidenceId == x.evidenceId && r.evidenceHash == x.evidenceHash;
          assert x in obs;
        } else {
          assert o in obs && o.Protected();
        }
      }
    }
  }

  lemma {:induction false} RefsOfOthers(state: TaskState, spec: Spec, deps: seq<string>, d: string)
    requires (forall x | x in deps :: x in state.plan.nodes) && d !in deps
    ensures forall r | r in AllRefs(state, spec, deps) :: r.stageId != d
    decreases |deps|
  {
    hide RefsOf, BoundCompletion;
    if deps != [] {
      var last := deps[|deps| - 1];
      RefsOfOthers(state, spec, deps[..|deps| - 1], d);
      if state.plan.nodes[last].status.Success? && BoundCompletion(state, spec, last) {
        RefsFromProtected(last, CompletedObservations(state, spec, last));
      }
    }
  }

  /** A verified dependency's evidence. */
  predicate Contributes(state: TaskState, spec: Spec, d: string) {
    && d in state.plan.nodes && state.plan.nodes[d].status.Success? && BoundCompletion(state, spec, d)
    && AnyProtected(state.active[d].observations)
  }

  /** A verified dependency with protected evidence reaches the bound list exactly when the
      dependencies listed before it leave room: they yield fewer than eight references. */
  lemma InheritsIff(state: TaskState, spec: Spec, deps: seq<string>, i: nat)
    requires i < |deps| && (forall x | x in deps :: x in state.plan.nodes)
    requires deps[i] !in deps[..i] && Contributes(state, spec, deps[i])
    ensures (exists r | r in Cut(AllRefs(state, spec, deps)) :: r.stageId == deps[i])
            <==> |AllRefs(state, spec, deps[..i])| < MAX_REFS
  {
    hide RefsOf, BoundCompletion, AnyProtected, AllRefs;
    var (d, all) := (deps[i], AllRefs(state, spec, deps));
    var before := AllRefs(state, spec, deps[..i]);
    RefsOfOthers(state, spec, deps[..i], d);
    PrefixAllRefs(state, spec, deps, i);
    PrefixAllRefs(state, spec, deps, i + 1);
    NextRefs(state, spec, deps, i);
    if |before| < MAX_REFS {
      assert all[|before|] == AllRefs(state, spec, deps[..i + 1])[|before|];
      assert Cut(all)[|before|] == all[|before|];
    } else {
      assert Cut(all) == before[..MAX_REFS];
    }
  }

  lemma NextRefs(state: TaskState, spec: Spec, deps: seq<string>, i: nat)
    requires i < |deps| && (forall x | x in deps :: x in state.plan.nodes) && Contributes(state, spec, deps[i])
    ensures var (before, after) := (AllRefs(state, spec, deps[..i]), AllRefs(state, spec, deps[..i + 1]));
      before < after && after[|before|].stageId == deps[i]
  {
    hide RefsOf, AnyProtected;
    var refs := RefsOf(deps[i], CompletedObservations(state, spec, deps[i]));
    RefsFromProtected(deps[i], CompletedObservations(state, spec, deps[i]));
    assert CompletedObservations(state, spec, deps[i]) == state.active[deps[i]].observations;
    assert deps[..i + 1][..i] == deps[..i] && deps[..i + 1][i] == deps[i];
    assert AllRefs(state, spec, deps[..i + 1]) == AllRefs(state, spec, deps[..i]) + refs;
    assert refs[0] in refs;
  }

  /** Evidence is handed on over every run: when a reachable mission delegates a stage, every agent
      stage it depends on is verified with protected evidence. Such a dependency is heard in the
      bound evidence exactly when those listed before it leave room among the eight references, and
      the stage is never bound without any prior evidence. */
  lemma DelegatedStageInheritsEvidence(w: World, m: Mission, events: seq<Event>, i: nat)
    requires Initial(w, m) && Run(w, m, events).Some?
    requires var s := Run(w, m, events).value.state;
             && w.spec.Valid() && s.Valid() && PlanOf(w.spec, s.plan)
             && Decided(s, w.spec, w.hash).Ok? && Decided(s, w.spec, w.hash).value.outcome.Delegate?
             && var id := Decided(s, w.spec, w.hash).value.stageId;
             && id in s.plan.nodes && i < |s.plan.nodes[id].dependsOn|
             && var d := s.plan.nodes[id].dependsOn[i];
             && d !in s.plan.nodes[id].dependsOn[..i]
             && d in s.plan.nodes && StageOf(w.spec, d).execution.Agent?
    ensures var s := Run(w, m, events).value.state;
            var deps := s.plan.nodes[Decided(s, w.spec, w.hash).value.stageId].dependsOn;
            && Contributes(s, w.spec, deps[i])
            && (forall x | x in deps :: x in s.plan.nodes)
            && ((exists r | r in Cut(AllRefs(s, w.spec, deps)) :: r.stageId == deps[i])
                <==> |AllRefs(s, w.spec, deps[..i])| < MAX_REFS)
            && Cut(AllRefs(s, w.spec, deps)) != []
  {
    hide Run, Inv, Initial, Decided, IsDigest, BoundCompletion, AllRefs, AnyProtected, StageOf;
    RunKeepsInv(w, m, events);
    var n := Run(w, m, events).value;
    var s := n.state;
    DelegationIsSafe(s, w.spec, w.hash);
    var deps := s.plan.nodes[Decided(s, w.spec, w.hash).value.stageId].dependsOn;
    CompletedHasEvidence(w, m.state.plan, n, deps[i]);
    InheritsIff(s, w.spec, deps, i);
    PrefixAllRefs(s, w.spec, deps, i);
  }

  lemma CompletedHasEvidence(w: World, start: Plan, n: Mission, d: string)
    requires Inv(w, start, n) && d in n.state.plan.nodes
    requires n.state.plan.nodes[d].status.Success? && StageOf(w.spec, d).execution.Agent?
    ensures Contributes(n.state, w.spec, d)
  {
    hide IsDigest, StageOf, SameShape, InOrder, DispatchLog, Accounted, InFlight, AnyProtected, CountExecuted;
    assert n.state.active[d].Valid();
  }

  // ---- A dependency that is not heard ----

  /** A completion of node `id` with `n` protected observations. */
  function SampleResult(id: string, n: nat): ActiveNodeResult {
    var seen := Observation("r", "c", "p", RanSuccess, true, NoCategory, "e", SampleDigest(), NO_SIGNALS);
    ActiveNodeResult("s", id, SampleDigest(), SampleDigest(), Completed, true, 32, seq(n, _ => seen), [], None)
  }

  lemma {:induction false} RefsCount(id: string, o: Observation, n: nat)
    requires o.Protected()
    ensures |RefsOf(id, seq(n, _ => o))| == n
  {
    if n > 0 {
      RefsCount(id, o, n - 1);
      assert seq(n, _ => o)[..n - 1] == seq(n - 1, _ => o);
    }
  }

  /** Two verified dependencies, the first with eight protected observations: the second has
      protected evidence too, and none of it reaches the bound list. */
  lemma StarvedDependency(state: TaskState, spec: Spec)
    requires state.sessionId == "s" && spec.fingerprint == SampleDigest()
    requires state.plan.nodes == map[
      "a" := PlanNode("a", [], SampleDigest(), Success), "b" := PlanNode("b", [], SampleDigest(), Success)]
    requires state.active == map["a" := SampleResult("a", 8), "b" := SampleResult("b", 1)]
    ensures state.active["a"].Valid() && state.active["b"].Valid()
    ensures Contributes(state, spec, "a") && Contributes(state, spec, "b")
    ensures forall r | r in Cut(AllRefs(state, spec, ["a", "b"])) :: r.stageId != "b"
  {
    hide AllRefs, AnyProtected, IsDigest, SampleResult;
    SampleIsValid("a", 8);
    SampleIsValid("b", 1);
    SampleFillsUp(state, spec);
    InheritsIff(state, spec, ["a", "b"], 1);
  }

  lemma SampleIsValid(id: string, n: nat)
    requires id != "" && 0 < n <= 32
    ensures var a := SampleResult(id, n);
            && a.Valid() && AnyProtected(a.observations) && |RefsOf(id, a.observations)| == n
            && a == ActiveNodeResult("s", id, SampleDigest(), SampleDigest(), Completed, true, 32, a.observations, [],
              None)
  {
    var a := SampleResult(id, n);
    ExecutedBounded(a.observations);
    assert a.observations[0] in a.observations;
    RefsCount(id, a.observations[0], n);
  }

  lemma SampleFillsUp(state: TaskState, spec: Spec)
    requires "a" in state.plan.nodes && "b" in state.plan.nodes && Contributes(state, spec, "a")
    requires |RefsOf("a", state.active["a"].observations)| == MAX_REFS
    ensures |AllRefs(state, spec, ["a", "b"][..1])| == MAX_REFS
  {
    hide RefsOf, AnyProtected;
    assert ["a", "b"][..1] == ["a"] && ["a"][..0] == [];
    assert AllRefs(state, spec, ["a"]) == [] + RefsOf("a", state.active["a"].observations);
  }
}
