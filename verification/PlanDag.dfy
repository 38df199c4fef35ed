/** The plan graph: capability-typed steps and the depth-first topological sort over them. */
module PlanDag {
  datatype NodeStatus = Pending | Running | Success | Error | Skipped | NeedsReview

  /** `fingerprint` stands for the digest of the fields whose change needs a fresh approval. */
  datatype PlanNode = PlanNode(id: string, dependsOn: seq<string>, fingerprint: string, status: NodeStatus)

  /** Nodes keyed by id, with the insertion order of the keys. */
  datatype Plan = Plan(ids: seq<string>, nodes: map<string, PlanNode>) {
    ghost predicate Valid() {
      && (forall i, j | 0 <= i < j < |ids| :: ids[i] != ids[j])
      && nodes.Keys == (set id | id in ids)
      && (forall id | id in nodes :: nodes[id].id == id)
    }

    /** Every dependency names a node of the plan. */
    predicate Closed() {
      forall id | id in nodes :: forall d | d in nodes[id].dependsOn :: d in nodes
    }

    predicate DependsOn(a: string, b: string) {
      a in nodes && b in nodes[a].dependsOn
    }

    predicate Ready(id: string) {
      && id in nodes && nodes[id].status.Pending?
      && forall d | d in nodes[id].dependsOn :: d in nodes && nodes[d].status.Success?
    }

    function WithStatus(id: string, status: NodeStatus): (p: Plan)
      requires id in nodes
      ensures p.nodes.Keys == nodes.Keys
    {
      this.(nodes := nodes[id := nodes[id].(status := status)])
    }
  }

  /** A closed walk along dependencies; a self-dependency is the shortest one. */
  ghost predicate IsCycle(p: Plan, c: seq<string>) {
    && |c| >= 2 && c[0] == c[|c| - 1]
    && Hops(p, c)
  }

  ghost predicate Hop(p: Plan, c: seq<string>, i: nat)
    requires i + 1 < |c|
  {
    p.DependsOn(c[i], c[i + 1])
  }

  ghost predicate Hops(p: Plan, w: seq<string>) {
    forall i | 0 <= i < |w| - 1 :: Hop(p, w, i)
  }

  ghost predicate Cyclic(p: Plan) {
    exists c :: IsCycle(p, c)
  }

  /** A listing in which every node comes after all its dependencies. */
  ghost predicate DependenciesFirst(p: Plan, order: seq<string>) {
    forall i | 0 <= i < |order| ::
      order[i] in p.nodes && forall d | d in p.nodes[order[i]].dependsOn :: d in order[..i]
  }

  ghost predicate Listing(p: Plan, order: seq<string>) {
    && (forall i, j | 0 <= i < j < |order| :: order[i] != order[j])
    && (set id | id in order) == p.nodes.Keys
    && DependenciesFirst(p, order)
  }

  // ---- A dependencies-first listing rules cycles out ----

  function IndexOf(order: seq<string>, id: string): (i: nat)
    requires id in order
    ensures i < |order| && order[i] == id && id !in order[..i]
  {
    if order[0] == id then 0 else 1 + IndexOf(order[1..], id)
  }

  lemma DependencyEarlier(p: Plan, order: seq<string>, a: string, b: string)
    requires Listing(p, order) && p.DependsOn(a, b)
    ensures b in order && IndexOf(order, b) < IndexOf(order, a)
  {
    var i := IndexOf(order, a);
    assert b in order[..i];
    var j :| 0 <= j < i && order[j] == b;
  }

  lemma {:induction false} WalkDescends(p: Plan, order: seq<string>, c: seq<string>, n: nat)
    requires Listing(p, order) && 1 <= n < |c| && Hops(p, c)
    ensures c[0] in order && c[n] in order && IndexOf(order, c[n]) < IndexOf(order, c[0])
    decreases n
  {
    assert Hop(p, c, n - 1);
    DependencyEarlier(p, order, c[n - 1], c[n]);
    if n > 1 { WalkDescends(p, order, c, n - 1); }
  }

  lemma ListingMeansAcyclic(p: Plan, order: seq<string>)
    requires Listing(p, order)
    ensures !Cyclic(p)
  {
    forall c ensures !IsCycle(p, c) {
      if IsCycle(p, c) {
        WalkDescends(p, order, c, |c| - 1);
        assert false;
      }
    }
  }

  // ---- Without cycles, any non-empty set of nodes holds one with no dependency inside it ----

  lemma HopsAppend(p: Plan, w: seq<string>, d: string)
    requires w != [] && Hops(p, w) && p.DependsOn(w[|w| - 1], d)
    ensures Hops(p, w + [d])
  {
    forall i | 0 <= i < |w| ensures Hop(p, w + [d], i) {
      if i < |w| - 1 { assert Hop(p, w, i); }
    }
  }

  lemma HopsSlice(p: Plan, w: seq<string>, i: nat, j: nat)
    requires Hops(p, w) && i <= j <= |w|
    ensures Hops(p, w[i..j])
  {
    forall k | 0 <= k < |w[i..j]| - 1 ensures Hop(p, w[i..j], k) { assert Hop(p, w, i + k); }
  }

  ghost predicate InnerDependency(p: Plan, within: set<string>, x: string) {
    exists d | d in within :: p.DependsOn(x, d)
  }

  lemma {:induction false} WalkExists(p: Plan, within: set<string>, start: string, n: nat) returns (w: seq<string>)
    requires start in within
    requires forall x | x in within :: InnerDependency(p, within, x)
    ensures |w| == n + 1 && Hops(p, w) && forall x | x in w :: x in within
    decreases n
  {
    hide Hops, InnerDependency;
    if n == 0 {
      w := [start];
      SingleHops(p, start);
    } else {
      var v := WalkExists(p, within, start, n - 1);
      var last := v[|v| - 1];
      assert last in v;
      var d := InnerOf(p, within, last);
      HopsAppend(p, v, d);
      w := v + [d];
    }
  }

  lemma InnerOf(p: Plan, within: set<string>, x: string) returns (d: string)
    requires InnerDependency(p, within, x)
    ensures d in within && p.DependsOn(x, d)
  {
    d :| d in within && p.DependsOn(x, d);
  }

  lemma SingleHops(p: Plan, x: string)
    ensures Hops(p, [x])
  {}

  lemma {:induction false} Pigeonhole(w: seq<string>, within: set<string>) returns (i: nat, j: nat)
    requires |w| > |within| && forall x | x in w :: x in within
    ensures i < j < |w| && w[i] == w[j]
    decreases |w|
  {
    var x := w[|w| - 1];
    var rest := w[..|w| - 1];
    if x in rest {
      i :| 0 <= i < |rest| && rest[i] == x;
      j := |w| - 1;
    } else {
      assert x in w;
      forall y | y in rest ensures y in within - {x} { assert y in w; }
      i, j := Pigeonhole(rest, within - {x});
    }
  }

  lemma RepeatMeansCycle(p: Plan, w: seq<string>, i: nat, j: nat)
    requires Hops(p, w) && i < j < |w| && w[i] == w[j]
    ensures Cyclic(p)
  {
    HopsSlice(p, w, i, j + 1);
    assert IsCycle(p, w[i..j + 1]);
  }

  lemma MinimalExists(p: Plan, within: set<string>)
    requires !Cyclic(p) && within != {}
    ensures exists x | x in within :: !InnerDependency(p, within, x)
  {
    if forall x | x in within :: InnerDependency(p, within, x) {
      hide Hops;
      var start :| start in within;
      var w := WalkExists(p, within, start, |within|);
      var i, j := Pigeonhole(w, within);
      RepeatMeansCycle(p, w, i, j);
      assert false;
    }
  }

  /** `ready_nodes`: the pending nodes whose dependencies all succeeded, in plan order. */
  function ReadyAmong(p: Plan, ids: seq<string>): seq<string>
    decreases |ids|
  {
    if ids == [] then []
    else
      var last := ids[|ids| - 1];
      ReadyAmong(p, ids[..|ids| - 1]) + if p.Ready(last) then [last] else []
  }

  lemma {:induction false} ReadyMembers(p: Plan, ids: seq<string>)
    ensures forall id :: id in ReadyAmong(p, ids) <==> id in ids && p.Ready(id)
    decreases |ids|
  {
    if ids != [] {
      ReadyMembers(p, ids[..|ids| - 1]);
      assert ids == ids[..|ids| - 1] + [ids[|ids| - 1]];
    }
  }

  /** On an acyclic plan of pending and finished nodes, something is ready until all are finished. */
  lemma ReadyUntilDone(p: Plan)
    requires p.Valid() && p.Closed() && !Cyclic(p)
    requires forall id | id in p.nodes :: p.nodes[id].status.Pending? || p.nodes[id].status.Success?
    ensures ReadyAmong(p, p.ids) == [] <==> forall id | id in p.nodes :: p.nodes[id].status.Success?
  {
    hide Cyclic;
    ReadyMembers(p, p.ids);
    assert forall id :: id in p.nodes <==> id in p.ids by {
      assert forall id :: id in p.ids <==> id in (set x | x in p.ids);
    }
    var open := set id | id in p.nodes && !p.nodes[id].status.Success?;
    if open != {} {
      MinimalExists(p, open);
      var x :| x in open && !InnerDependency(p, open, x);
      forall d | d in p.nodes[x].dependsOn ensures d in p.nodes && p.nodes[d].status.Success? {
        assert p.DependsOn(x, d);
      }
      assert p.Ready(x);
    } else {
      forall id | id in p.nodes ensures p.nodes[id].status.Success? {
        assert id !in open;
      }
      if ReadyAmong(p, p.ids) != [] {
        assert ReadyAmong(p, p.ids)[0] in p.ids;
      }
    }
  }

  lemma BackEdgeMeansCycle(p: Plan, stack: seq<string>, id: string)
    requires id in stack && Hops(p, stack) && p.DependsOn(stack[|stack| - 1], id)
    ensures Cyclic(p)
  {
    var j :| 0 <= j < |stack| && stack[j] == id;
    HopsAppend(p, stack, id);
    RepeatMeansCycle(p, stack + [id], j, |stack|);
  }

  // ---- The sort ----

  lemma AppendKeepsOrder(p: Plan, order: seq<string>, id: string)
    requires DependenciesFirst(p, order) && id in p.nodes
    requires forall d | d in p.nodes[id].dependsOn :: d in order
    ensures DependenciesFirst(p, order + [id])
  {
    var longer := order + [id];
    forall i | 0 <= i < |longer|
      ensures longer[i] in p.nodes && forall d | d in p.nodes[longer[i]].dependsOn :: d in longer[..i]
    {
      assert longer[..i] == order[..i];
      if i == |order| { assert order[..i] == order; }
    }
  }

  datatype Visit = Visited | CycleAt(id: string) | UnknownNode(id: string)

  /** The state shared by the nested visits: two colour sets and the growing order. */
  class TopologicalSort {
    const plan: Plan
    var temporary: set<string>
    var permanent: set<string>
    var order: seq<string>
    ghost var stack: seq<string>

    ghost predicate Valid()
      reads this
    {
      && temporary == (set id | id in stack) && temporary !! permanent
      && temporary <= plan.nodes.Keys
      && permanent == (set id | id in order)
      && (forall i, j | 0 <= i < j < |order| :: order[i] != order[j])
      && DependenciesFirst(plan, order)
      && Hops(plan, stack)
    }

    constructor (plan: Plan)
      ensures Valid() && this.plan == plan && order == [] && stack == []
    {
      this.plan := plan;
      temporary, permanent, order, stack := {}, {}, [], [];
    }

    method VisitNode(id: string) returns (r: Visit)
      requires Valid()
      requires stack != [] ==> plan.DependsOn(stack[|stack| - 1], id)
      modifies this
      ensures r.Visited? ==> Valid() && stack == old(stack) && id in permanent && old(permanent) <= permanent
      ensures r.CycleAt? ==> Cyclic(plan)
      ensures r.UnknownNode? ==> r.id !in plan.nodes && (r.id == id || exists x :: plan.DependsOn(x, r.id))
      decreases plan.nodes.Keys - temporary, 0
    {
      hide Hops;
      if id in permanent {
        return Visited;
      }
      if id in temporary {
        BackEdgeMeansCycle(plan, stack, id);
        return CycleAt(id);
      }
      if id !in plan.nodes {
        return UnknownNode(id);
      }
      if stack != [] {
        HopsAppend(plan, stack, id);
      }
      temporary := temporary + {id};
      stack := stack + [id];
      r := VisitDependencies(id);
      if !r.Visited? {
        return;
      }
      temporary := temporary - {id};
      permanent := permanent + {id};
      AppendKeepsOrder(plan, order, id);
      order := order + [id];
      stack := stack[..|stack| - 1];
      assert stack == old(stack);
      assert temporary == old(temporary);
    }

    /** The loop over the dependencies of the node on top of the stack. */
    method VisitDependencies(id: string) returns (r: Visit)
      requires Valid() && id in plan.nodes && stack != [] && stack[|stack| - 1] == id
      modifies this
      ensures r.Visited? ==>
                && Valid() && stack == old(stack) && old(permanent) <= permanent
                && forall d | d in plan.nodes[id].dependsOn :: d in permanent
      ensures r.CycleAt? ==> Cyclic(plan)
      ensures r.UnknownNode? ==> r.id !in plan.nodes && exists x :: plan.DependsOn(x, r.id)
      decreases plan.nodes.Keys - temporary, 1
    {
      var deps := plan.nodes[id].dependsOn;
      for i := 0 to |deps|
        invariant Valid() && stack == old(stack) && temporary == old(temporary) && old(permanent) <= permanent
        invariant forall d | d in deps[..i] :: d in permanent
      {
        assert plan.DependsOn(id, deps[i]);
        r := VisitNode(deps[i]);
        if !r.Visited? {
          return;
        }
        assert deps[..i + 1] == deps[..i] + [deps[i]];
      }
      r := Visited;
    }
  }

  datatype Sorted = Order(ids: seq<string>) | Cycle | Unknown(id: string)

  /** `topological_order`: every node once, after its dependencies, or the reason there is none. */
  method TopologicalOrder(p: Plan) returns (r: Sorted)
    requires p.Valid()
    ensures r.Order? ==> Listing(p, r.ids) && p.Closed()
    ensures r.Cycle? ==> Cyclic(p)
    ensures r.Unknown? ==> r.id !in p.nodes && exists x :: p.DependsOn(x, r.id)
  {
    var sort := new TopologicalSort(p);
    for i := 0 to |p.ids|
      invariant sort.Valid() && sort.plan == p && sort.stack == []
      invariant forall id | id in p.ids[..i] :: id in sort.permanent
    {
      var v := sort.VisitNode(p.ids[i]);
      match v {
        case CycleAt(_) => return Cycle;
        case UnknownNode(id) => return Unknown(id);
        case Visited =>
      }
      assert p.ids[..i + 1] == p.ids[..i] + [p.ids[i]];
    }
    assert p.ids[..|p.ids|] == p.ids;
    forall id | id in sort.order ensures id in p.nodes {}
    forall id | id in p.nodes ensures forall d | d in p.nodes[id].dependsOn :: d in p.nodes {
      var i :| 0 <= i < |sort.order| && sort.order[i] == id;
      assert forall d | d in p.nodes[id].dependsOn :: d in sort.order[..i];
    }
    r := Order(sort.order);
  }

  /** `validate_edges`: accepts exactly the closed, acyclic plans. */
  method ValidateEdges(p: Plan) returns (ok: bool)
    requires p.Valid()
    ensures ok <==> p.Closed() && !Cyclic(p)
  {
    if !p.Closed() {
      return false;
    }
    var r := TopologicalOrder(p);
    if r.Order? {
      ListingMeansAcyclic(p, r.ids);
    }
    ok := r.Order?;
  }
}
