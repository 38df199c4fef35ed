/** Undirected distance in a multigraph, and what one visited vertex offers the search. */
module Neighbourhood {
  import opened GraphPaths

  /** The vertices at undirected distance at most `k` from `v`. */
  function Ball(edges: seq<Edge>, v: string, k: nat): set<string> {
    if k == 0 then {v}
    else
      var b := Ball(edges, v, k - 1);
      b + (set e | e in edges && e.source in b :: e.target)
        + (set e | e in edges && e.target in b :: e.source)
  }

  lemma {:induction false} BallMonotone(edges: seq<Edge>, v: string, j: nat, k: nat)
    requires j <= k
    ensures Ball(edges, v, j) <= Ball(edges, v, k)
    decreases k - j
  {
    if j < k { BallMonotone(edges, v, j, k - 1); }
  }

  lemma BallStep(edges: seq<Edge>, v: string, k: nat, u: string, w: string)
    requires u in Ball(edges, v, k) && Adjacent(edges, u, w)
    ensures w in Ball(edges, v, k + 1)
  {
    var e :| e in edges && Joins(e, u, w);
  }

  lemma {:induction false} BallInside(edges: seq<Edge>, v: string, k: nat)
    ensures Ball(edges, v, k) <= Vertices(edges, v)
  {
    if k > 0 { BallInside(edges, v, k - 1); }
  }

  /** The queue entries that visiting `u` appends, in edge order. */
  function Offers(edges: seq<Edge>, u: string, d: int): seq<(string, int)>
    decreases |edges|
  {
    if edges == [] then []
    else
      var e := edges[|edges| - 1];
      Offers(edges[..|edges| - 1], u, d) +
      if e.source == u then [(e.target, d)] else if e.target == u then [(e.source, d)] else []
  }

  lemma {:induction false} OffersAdjacent(edges: seq<Edge>, u: string, d: int)
    ensures forall x | x in Offers(edges, u, d) :: x.1 == d && Adjacent(edges, u, x.0)
    decreases |edges|
  {
    if edges != [] {
      var rest, e := edges[..|edges| - 1], edges[|edges| - 1];
      OffersAdjacent(rest, u, d);
      assert edges == rest + [e];
      forall x | x in Offers(edges, u, d) ensures x.1 == d && Adjacent(edges, u, x.0) {
        if x in Offers(rest, u, d) {
          var f :| f in rest && Joins(f, u, x.0);
          assert f in edges;
        } else {
          assert e in edges && Joins(e, u, x.0);
        }
      }
    }
  }

  lemma {:induction false} OffersAll(edges: seq<Edge>, u: string, d: int, w: string)
    requires Adjacent(edges, u, w)
    ensures (w, d) in Offers(edges, u, d)
    decreases |edges|
  {
    var rest, e := edges[..|edges| - 1], edges[|edges| - 1];
    assert edges == rest + [e];
    if !Joins(e, u, w) {
      var f :| f in edges && Joins(f, u, w);
      assert f in rest;
      OffersAll(rest, u, d, w);
    }
  }

  predicate Touches(e: Edge, u: string) {
    e.source == u || e.target == u
  }

  /** The edges that visiting `u` reports, in edge order. */
  function Touching(edges: seq<Edge>, u: string): seq<Edge>
    decreases |edges|
  {
    if edges == [] then []
    else Touching(edges[..|edges| - 1], u) +
         if Touches(edges[|edges| - 1], u) then [edges[|edges| - 1]] else []
  }

  lemma {:induction false} TouchingCount(edges: seq<Edge>, u: string, e: Edge)
    ensures multiset(Touching(edges, u))[e] == if Touches(e, u) then multiset(edges)[e] else 0
    decreases |edges|
  {
    if edges != [] {
      TouchingCount(edges[..|edges| - 1], u, e);
      assert edges == edges[..|edges| - 1] + [edges[|edges| - 1]];
    }
  }

  /** How often `e` is due in the report once the vertices `seen` have been visited:
      once per distinct endpoint, for every occurrence of the edge in the store. */
  function Due(edges: seq<Edge>, seen: set<string>, e: Edge): nat {
    (if e.source in seen then multiset(edges)[e] else 0) +
    (if e.target in seen && e.target != e.source then multiset(edges)[e] else 0)
  }

  /** Each occurrence of an edge is due once for every one of its endpoints that was seen. */
  lemma DueMeans(edges: seq<Edge>, seen: set<string>, e: Edge)
    ensures Due(edges, seen, e) == |{e.source, e.target} * seen| * multiset(edges)[e]
  {
    var n := multiset(edges)[e];
    var ends := {e.source, e.target} * seen;
    if e.source in seen && e.target in seen && e.source != e.target {
      assert ends == {e.source, e.target};
    } else if e.source in seen {
      assert ends == {e.source};
    } else if e.target in seen {
      assert ends == {e.target};
    } else {
      assert ends == {};
    }
  }

  /** The ball is what walks of at most `k` hops along edges, in either direction, reach. */
  lemma {:induction false} BallIsWalks(edges: seq<Edge>, v: string, k: nat, u: string)
    ensures u in Ball(edges, v, k) <==>
            exists p: Path :: p[0] == v && Last(p) == u && |p| <= k + 1 && Walk(edges, p)
  {
    if u in Ball(edges, v, k) {
      BallHasWalk(edges, v, k, u);
    }
    if exists p: Path :: p[0] == v && Last(p) == u && |p| <= k + 1 && Walk(edges, p) {
      var p: Path :| p[0] == v && Last(p) == u && |p| <= k + 1 && Walk(edges, p);
      WalkInBall(edges, p);
      BallMonotone(edges, v, |p| - 1, k);
    }
  }

  lemma {:induction false} WalkInBall(edges: seq<Edge>, p: Path)
    requires Walk(edges, p)
    ensures Last(p) in Ball(edges, p[0], |p| - 1)
    decreases |p|
  {
    if |p| > 1 {
      WalkSplits(edges, p);
      WalkInBall(edges, p[..|p| - 1]);
      BallStep(edges, p[0], |p| - 2, p[|p| - 2], Last(p));
    }
  }

  lemma {:induction false} BallHasWalk(edges: seq<Edge>, v: string, k: nat, u: string)
    requires u in Ball(edges, v, k)
    ensures exists p: Path :: p[0] == v && Last(p) == u && |p| <= k + 1 && Walk(edges, p)
  {
    if k == 0 || u in Ball(edges, v, k - 1) {
      if k == 0 {
        var p: Path := [v];
        assert Walk(edges, p) && Last(p) == v;
      } else {
        BallHasWalk(edges, v, k - 1, u);
      }
    } else {
      var b := Ball(edges, v, k - 1);
      var x :| x in b && Adjacent(edges, x, u) by {
        var e :| e in edges && ((e.source in b && e.target == u) || (e.target in b && e.source == u));
        assert Joins(e, if e.target == u && e.source in b then e.source else e.target, u);
      }
      BallHasWalk(edges, v, k - 1, x);
      var p: Path :| p[0] == v && Last(p) == x && |p| <= k && Walk(edges, p);
      var q: Path := p + [u];
      assert q[..|q| - 1] == p && q[|q| - 2] == x;
      WalkSplits(edges, q);
    }
  }

  // ---- The breadth-first sweep, as a state ----

  /** Everything visited so far: the order of visits and the depth each vertex was met at. */
  datatype Sweep = Sweep(order: seq<string>, depth: map<string, nat>)

  ghost predicate Settled(edges: seq<Edge>, v: string, limit: int, s: Sweep, queue: seq<(string, int)>) {
    && Distinct(s.order)
    && s.depth.Keys == (set u | u in s.order)
    && (forall u | u in s.depth :: s.depth[u] <= limit && u in Ball(edges, v, s.depth[u]))
    && (forall i, j | 0 <= i <= j < |s.order| :: s.depth[s.order[i]] <= s.depth[s.order[j]])
    && (limit < 0 || (v in s.depth && s.depth[v] == 0) || (v, 0) in queue)
  }

  /** The FIFO discipline: depths never decrease along the queue and span at most two values. */
  ghost predicate Ordered(edges: seq<Edge>, v: string, s: Sweep, queue: seq<(string, int)>) {
    && (forall i | 0 <= i < |queue| :: queue[i].1 >= 0 && queue[i].0 in Ball(edges, v, queue[i].1))
    && (forall i, j | 0 <= i <= j < |queue| :: queue[i].1 <= queue[j].1 <= queue[0].1 + 1)
    && (forall u, i | u in s.depth && 0 <= i < |queue| :: s.depth[u] <= queue[i].1)
  }

  /** A neighbour of a visited vertex is visited no later than one level on, or still queued. */
  ghost predicate Handed(edges: seq<Edge>, limit: int, s: Sweep, queue: seq<(string, int)>, u: string, w: string)
    requires u in s.depth
  {
    || s.depth[u] + 1 > limit
    || (w in s.depth && s.depth[w] <= s.depth[u] + 1)
    || (w, s.depth[u] + 1) in queue
  }

  ghost predicate AllHanded(edges: seq<Edge>, limit: int, s: Sweep, queue: seq<(string, int)>) {
    forall u, w | u in s.depth && Adjacent(edges, u, w) :: Handed(edges, limit, s, queue, u, w)
  }

  ghost predicate Sweeping(edges: seq<Edge>, v: string, limit: int, s: Sweep, queue: seq<(string, int)>) {
    Settled(edges, v, limit, s, queue) && Ordered(edges, v, s, queue) && AllHanded(edges, limit, s, queue)
  }

  lemma SweepStart(edges: seq<Edge>, v: string, limit: int)
    ensures Sweeping(edges, v, limit, Sweep([], map[]), [(v, 0)])
  {
    assert [(v, 0)][0] == (v, 0);
  }

  lemma SweepHead(edges: seq<Edge>, v: string, limit: int, s: Sweep, queue: seq<(string, int)>)
    requires Sweeping(edges, v, limit, s, queue) && queue != []
    ensures queue[0].1 >= 0 && queue[0].0 in Vertices(edges, v)
  {
    BallInside(edges, v, queue[0].1);
  }

  /** Dropping the head of the queue because it was already visited or lies too deep. */
  lemma SweepSkip(edges: seq<Edge>, v: string, limit: int, s: Sweep, queue: seq<(string, int)>)
    requires Sweeping(edges, v, limit, s, queue) && queue != []
    requires queue[0].0 in s.depth || queue[0].1 > limit
    ensures Sweeping(edges, v, limit, s, queue[1..])
  {
    var head, rest := queue[0], queue[1..];
    assert queue == [head] + rest;
    forall u, w | u in s.depth && Adjacent(edges, u, w) ensures Handed(edges, limit, s, rest, u, w) {
      assert Handed(edges, limit, s, queue, u, w);
    }
  }

  lemma VisitQueue(edges: seq<Edge>, v: string, s: Sweep, queue: seq<(string, int)>, queue': seq<(string, int)>)
    requires Ordered(edges, v, s, queue) && queue != []
    requires queue' == queue[1..] + Offers(edges, queue[0].0, queue[0].1 + 1)
    ensures |queue'| >= |queue| - 1
    ensures forall i | 0 <= i < |queue'| ::
              && queue'[i].1 >= 0 && queue'[i].0 in Ball(edges, v, queue'[i].1)
              && queue'[i].1 == if i < |queue| - 1 then queue[i + 1].1 else queue[0].1 + 1
  {
    var c, d := queue[0].0, queue[0].1;
    OffersAdjacent(edges, c, d + 1);
    forall i | 0 <= i < |queue'|
      ensures queue'[i].1 >= 0 && queue'[i].0 in Ball(edges, v, queue'[i].1)
      ensures queue'[i].1 == if i < |queue| - 1 then queue[i + 1].1 else d + 1
    {
      if i < |queue| - 1 {
        assert queue'[i] == queue[i + 1];
      } else {
        assert queue'[i] in Offers(edges, c, d + 1);
        BallStep(edges, v, d, c, queue'[i].0);
      }
    }
  }

  lemma VisitOrdered(edges: seq<Edge>, v: string, s: Sweep, queue: seq<(string, int)>, s': Sweep,
      queue': seq<(string, int)>)
    requires Ordered(edges, v, s, queue) && queue != []
    requires s' == Sweep(s.order + [queue[0].0], s.depth[queue[0].0 := queue[0].1])
    requires queue' == queue[1..] + Offers(edges, queue[0].0, queue[0].1 + 1)
    ensures Ordered(edges, v, s', queue')
  {
    VisitQueue(edges, v, s, queue, queue');
    var d := queue[0].1;
    forall i | 0 <= i < |queue'| ensures d <= queue'[i].1 <= d + 1 {
      if i < |queue| - 1 { assert queue[0].1 <= queue[i + 1].1; }
    }
    forall i, j | 0 <= i <= j < |queue'| ensures queue'[i].1 <= queue'[j].1 {
      if j < |queue| - 1 { assert queue[i + 1].1 <= queue[j + 1].1; }
    }
    forall u | u in s'.depth ensures s'.depth[u] <= d {
      if u != queue[0].0 { assert s.depth[u] <= queue[0].1; }
    }
  }

  lemma VisitHanded(edges: seq<Edge>, v: string, limit: int, s: Sweep, queue: seq<(string, int)>, s': Sweep)
    requires Sweeping(edges, v, limit, s, queue) && queue != []
    requires queue[0].0 !in s.depth && 0 <= queue[0].1 <= limit
    requires s' == Sweep(s.order + [queue[0].0], s.depth[queue[0].0 := queue[0].1])
    ensures AllHanded(edges, limit, s', queue[1..] + Offers(edges, queue[0].0, queue[0].1 + 1))
  {
    hide Offers, Ball;
    var c, d := queue[0].0, queue[0].1;
    var queue' := queue[1..] + Offers(edges, c, d + 1);
    assert queue == [queue[0]] + queue[1..];
    forall u, w | u in s'.depth && Adjacent(edges, u, w) ensures Handed(edges, limit, s', queue', u, w) {
      if u == c {
        OffersAll(edges, c, d + 1, w);
      } else {
        assert Handed(edges, limit, s, queue, u, w);
      }
    }
  }

  lemma OrderedHead(edges: seq<Edge>, v: string, s: Sweep, queue: seq<(string, int)>, u: string)
    requires Ordered(edges, v, s, queue) && queue != [] && u in s.depth
    ensures s.depth[u] <= queue[0].1
  {}

  lemma HeadInBall(edges: seq<Edge>, v: string, s: Sweep, queue: seq<(string, int)>)
    requires Ordered(edges, v, s, queue) && queue != []
    ensures queue[0].1 >= 0 && queue[0].0 in Ball(edges, v, queue[0].1)
  {}

  /** Visiting the head of the queue and appending what it offers. */
  lemma SweepVisit(edges: seq<Edge>, v: string, limit: int, s: Sweep, queue: seq<(string, int)>, s': Sweep)
    requires Sweeping(edges, v, limit, s, queue) && queue != []
    requires queue[0].0 !in s.depth && 0 <= queue[0].1 <= limit
    requires s' == Sweep(s.order + [queue[0].0], s.depth[queue[0].0 := queue[0].1])
    ensures Sweeping(edges, v, limit, s', queue[1..] + Offers(edges, queue[0].0, queue[0].1 + 1))
  {
    hide Ball, Offers, Ordered, AllHanded;
    VisitOrdered(edges, v, s, queue, s', queue[1..] + Offers(edges, queue[0].0, queue[0].1 + 1));
    VisitHanded(edges, v, limit, s, queue, s');
    HeadInBall(edges, v, s, queue);
    assert queue == [queue[0]] + queue[1..];
    assert forall u | u in s.order :: u in s.depth;
    forall i, j | 0 <= i <= j < |s'.order| ensures s'.depth[s'.order[i]] <= s'.depth[s'.order[j]] {
      if i < |s.order| { OrderedHead(edges, v, s, queue, s.order[i]); }
      if j < |s.order| { assert s.order[j] in s.order; }
    }
  }

  /** With the queue drained, a vertex within the limit was visited at its distance or before. */
  lemma {:induction false} SweepComplete(edges: seq<Edge>, v: string, limit: int, s: Sweep, k: nat, u: string)
    requires Sweeping(edges, v, limit, s, []) && k <= limit && u in Ball(edges, v, k)
    ensures u in s.depth && s.depth[u] <= k
    decreases k
  {
    if k > 0 {
      var b := Ball(edges, v, k - 1);
      if u in b {
        SweepComplete(edges, v, limit, s, k - 1, u);
      } else {
        var x :| x in b && Adjacent(edges, x, u) by {
          var e :| e in edges && ((e.source in b && e.target == u) || (e.target in b && e.source == u));
          assert Joins(e, if e.target == u && e.source in b then e.source else e.target, u);
        }
        SweepComplete(edges, v, limit, s, k - 1, x);
        assert Handed(edges, limit, s, [], x, u);
      }
    }
  }

  /** The vertices within a possibly negative limit. */
  function Within(edges: seq<Edge>, v: string, limit: int): set<string> {
    if limit < 0 then {} else Ball(edges, v, limit)
  }

  /** What the drained sweep has established: exactly the ball, nearest vertices first. */
  lemma SweepResult(edges: seq<Edge>, v: string, limit: int, s: Sweep)
    requires Sweeping(edges, v, limit, s, [])
    ensures Distinct(s.order) && (set u | u in s.order) == Within(edges, v, limit) == s.depth.Keys
    ensures forall i, j, k: nat | 0 <= i <= j < |s.order| && s.order[j] in Ball(edges, v, k) ::
              s.order[i] in Ball(edges, v, k)
  {
    forall u | u in s.depth ensures u in Within(edges, v, limit) {
      BallMonotone(edges, v, s.depth[u], limit);
    }
    forall u | u in Within(edges, v, limit) ensures u in s.depth {
      SweepComplete(edges, v, limit, s, limit, u);
    }
    forall i, j, k: nat | 0 <= i <= j < |s.order| && s.order[j] in Ball(edges, v, k)
      ensures s.order[i] in Ball(edges, v, k)
    {
      var x, y := s.order[i], s.order[j];
      assert x in s.order && y in s.order;
      if k <= limit { SweepComplete(edges, v, limit, s, k, y); }
      BallMonotone(edges, v, s.depth[x], k);
    }
  }
}
