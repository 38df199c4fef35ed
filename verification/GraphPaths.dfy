/** Simple paths of an undirected multigraph, enumerated breadth first. */
module GraphPaths {
  datatype Edge = Edge(source: string, target: string, relationship: string)

  /** A vertex sequence; every path in the queue holds at least its source. */
  type Path = p: seq<string> | p != [] witness [""]

  predicate Distinct<T(==)>(s: seq<T>) {
    forall i, j | 0 <= i < j < |s| :: s[i] != s[j]
  }

  function Last(p: Path): string {
    p[|p| - 1]
  }

  // ---- What one step of the search does ----

  /** The extension of path `p` by edge `e`, if `e` leaves the end of `p` for a new vertex. */
  function StepOver(e: Edge, p: Path): seq<Path> {
    if e.source == Last(p) && e.target !in p then [p + [e.target]]
    else if e.target == Last(p) && e.source !in p then [p + [e.source]]
    else []
  }

  function Steps(edges: seq<Edge>, p: Path): seq<Path>
    decreases |edges|
  {
    if edges == [] then []
    else Steps(edges[..|edges| - 1], p) + StepOver(edges[|edges| - 1], p)
  }

  lemma StepsOfNone(p: Path)
    ensures Steps([], p) == []
  {}

  lemma StepsGrow(edges: seq<Edge>, n: nat, p: Path)
    requires n < |edges|
    ensures Steps(edges[..n + 1], p) == Steps(edges[..n], p) + StepOver(edges[n], p)
  {
    assert edges[..n + 1][..n] == edges[..n];
  }

  /** A path already at the target is reported, not extended. */
  function Expand(edges: seq<Edge>, t: string, p: Path): seq<Path> {
    if Last(p) == t then [] else Steps(edges, p)
  }

  function ExpandAll(edges: seq<Edge>, t: string, ps: seq<Path>): seq<Path>
    decreases |ps|
  {
    if ps == [] then []
    else ExpandAll(edges, t, ps[..|ps| - 1]) + Expand(edges, t, ps[|ps| - 1])
  }

  function Hits(t: string, ps: seq<Path>): seq<Path>
    decreases |ps|
  {
    if ps == [] then []
    else Hits(t, ps[..|ps| - 1]) + if Last(ps[|ps| - 1]) == t then [ps[|ps| - 1]] else []
  }

  /** The partial paths with `k` edges, in the order a FIFO queue meets them. */
  function Level(edges: seq<Edge>, s: string, t: string, k: nat): seq<Path>
    decreases k
  {
    if k == 0 then [[s]] else ExpandAll(edges, t, Level(edges, s, t, k - 1))
  }

  /** All hits of levels 0 to k-1, shortest level first. */
  function Found(edges: seq<Edge>, s: string, t: string, k: nat): seq<Path> {
    if k == 0 then [] else Found(edges, s, t, k - 1) + Hits(t, Level(edges, s, t, k - 1))
  }

  // ---- The independent definition: simple paths and how many edge choices realise each ----

  predicate Joins(e: Edge, a: string, b: string) {
    (e.source == a && e.target == b) || (e.target == a && e.source == b)
  }

  /** How many edges join two vertices, in either direction. */
  function Links(edges: seq<Edge>, a: string, b: string): nat
    decreases |edges|
  {
    if edges == [] then 0
    else Links(edges[..|edges| - 1], a, b) + if Joins(edges[|edges| - 1], a, b) then 1 else 0
  }

  /** Multiplication as repeated addition, which keeps the counting proofs linear. */
  function Times(n: nat, l: nat): nat {
    if n == 0 then 0 else Times(n - 1, l) + l
  }

  lemma {:induction false} TimesIsProduct(n: nat, l: nat)
    ensures Times(n, l) == n * l
  {
    if n > 0 {
      TimesIsProduct(n - 1, l);
      assert (n - 1) * l == n * l - l;
    }
  }

  /** The number of ways to choose an edge for every hop of the path. */
  function Choices(edges: seq<Edge>, p: Path): nat
    decreases |p|
  {
    if |p| == 1 then 1
    else Times(Choices(edges, p[..|p| - 1]), Links(edges, p[|p| - 2], Last(p)))
  }

  ghost predicate Adjacent(edges: seq<Edge>, a: string, b: string) {
    exists e | e in edges :: Joins(e, a, b)
  }

  ghost predicate HopAt(edges: seq<Edge>, p: Path, i: nat)
    requires 0 < i < |p|
  {
    Adjacent(edges, p[i - 1], p[i])
  }

  ghost predicate Walk(edges: seq<Edge>, p: Path) {
    forall i | 0 < i < |p| :: HopAt(edges, p, i)
  }

  /** A vertex sequence from `s` to `t` that repeats nothing and hops only along edges. */
  ghost predicate SimplePath(edges: seq<Edge>, s: string, t: string, p: Path) {
    p[0] == s && Last(p) == t && Distinct(p) && Walk(edges, p)
  }

  lemma {:induction false} LinksPositive(edges: seq<Edge>, a: string, b: string)
    ensures Links(edges, a, b) > 0 <==> Adjacent(edges, a, b)
    decreases |edges|
  {
    if edges != [] {
      var rest, e := edges[..|edges| - 1], edges[|edges| - 1];
      LinksPositive(rest, a, b);
      assert edges == rest + [e];
      if Adjacent(rest, a, b) {
        var x :| x in rest && Joins(x, a, b);
        assert x in edges;
      }
    }
  }

  lemma WalkSplits(edges: seq<Edge>, p: Path)
    requires |p| > 1
    ensures Walk(edges, p) <==> Walk(edges, p[..|p| - 1]) && Adjacent(edges, p[|p| - 2], Last(p))
  {
    var q := p[..|p| - 1];
    forall i | 0 < i < |q| ensures HopAt(edges, p, i) <==> HopAt(edges, q, i) {}
    assert HopAt(edges, p, |p| - 1) <==> Adjacent(edges, p[|p| - 2], Last(p));
    if Walk(edges, q) && HopAt(edges, p, |p| - 1) {
      forall i | 0 < i < |p| ensures HopAt(edges, p, i) {
        if i < |q| { assert HopAt(edges, q, i); }
      }
    }
  }

  lemma {:induction false} ChoicesPositive(edges: seq<Edge>, p: Path)
    ensures Choices(edges, p) > 0 <==> Walk(edges, p)
    decreases |p|
  {
    if |p| > 1 {
      ChoicesPositive(edges, p[..|p| - 1]);
      LinksPositive(edges, p[|p| - 2], Last(p));
      WalkSplits(edges, p);
      var c, l := Choices(edges, p[..|p| - 1]), Links(edges, p[|p| - 2], Last(p));
      TimesIsProduct(c, l);
    }
  }

  // ---- Counting: every level holds each simple partial path once per choice of edges ----

  /** How often `p` occurs in a list of paths. */
  function Count(ps: seq<Path>, p: Path): nat
    decreases |ps|
  {
    if ps == [] then 0
    else Count(ps[..|ps| - 1], p) + if ps[|ps| - 1] == p then 1 else 0
  }

  lemma {:induction false} CountAppend(a: seq<Path>, b: seq<Path>, p: Path)
    ensures Count(a + b, p) == Count(a, p) + Count(b, p)
    decreases |b|
  {
    if b == [] {
      assert a + b == a;
    } else {
      assert (a + b)[..|a + b| - 1] == a + b[..|b| - 1];
      CountAppend(a, b[..|b| - 1], p);
    }
  }

  lemma {:induction false} CountMember(ps: seq<Path>, p: Path)
    ensures Count(ps, p) > 0 <==> p in ps
    decreases |ps|
  {
    if ps != [] {
      assert ps == ps[..|ps| - 1] + [ps[|ps| - 1]];
      CountMember(ps[..|ps| - 1], p);
    }
  }

  lemma StepOverCount(e: Edge, q: Path, p: Path)
    ensures Count(StepOver(e, q), p) ==
            if |p| == |q| + 1 && p[..|q|] == q && Last(p) !in q && Joins(e, Last(q), Last(p))
            then 1 else 0
  {
    if |p| == |q| + 1 && p[..|q|] == q { assert p == q + [Last(p)]; }
  }

  lemma {:induction false} StepsCount(edges: seq<Edge>, q: Path, p: Path)
    ensures Count(Steps(edges, q), p) ==
            if |p| == |q| + 1 && p[..|q|] == q && Last(p) !in q
            then Links(edges, Last(q), Last(p)) else 0
    decreases |edges|
  {
    if edges != [] {
      var rest, e := edges[..|edges| - 1], edges[|edges| - 1];
      StepsCount(rest, q, p);
      StepOverCount(e, q, p);
      CountAppend(Steps(rest, q), StepOver(e, q), p);
    }
  }

  /** How many extensions of `q` produce `p`. */
  function Extends(edges: seq<Edge>, t: string, q: Path, p: Path): nat {
    if |p| == |q| + 1 && p[..|q|] == q && Last(p) !in q && Last(q) != t
    then Links(edges, Last(q), Last(p)) else 0
  }

  lemma ExpandCount(edges: seq<Edge>, t: string, q: Path, p: Path)
    ensures Count(Expand(edges, t, q), p) == Extends(edges, t, q, p)
    ensures |p| < 2 || q != p[..|p| - 1] ==> Extends(edges, t, q, p) == 0
  {
    hide Steps, Links;
    StepsCount(edges, q, p);
  }

  lemma {:induction false} ExpandAllCount(edges: seq<Edge>, t: string, ps: seq<Path>, p: Path)
    ensures Count(ExpandAll(edges, t, ps), p) ==
            if |p| < 2 then 0 else Times(Count(ps, p[..|p| - 1]), Extends(edges, t, p[..|p| - 1], p))
    decreases |ps|
  {
    hide Extends, Expand;
    if ps != [] {
      var rest, x := ps[..|ps| - 1], ps[|ps| - 1];
      ExpandAllCount(edges, t, rest, p);
      ExpandCount(edges, t, x, p);
      CountAppend(ExpandAll(edges, t, rest), Expand(edges, t, x), p);
    }
  }

  /** A path that has not met the target before its last vertex. */
  predicate Fresh(t: string, p: Path) {
    t !in p[..|p| - 1]
  }

  /** The partial paths that the search holds at level `k`. */
  predicate Partial(s: string, t: string, k: nat, p: Path) {
    |p| == k + 1 && p[0] == s && Distinct(p) && Fresh(t, p)
  }

  lemma PartialSplits(s: string, t: string, k: nat, p: Path)
    requires |p| >= 2 && k > 0
    ensures var q: Path := p[..|p| - 1];
            Partial(s, t, k, p) <==> Partial(s, t, k - 1, q) && Last(p) !in q && Last(q) != t
  {
    var q := p[..|p| - 1];
    assert q == q[..|q| - 1] + [Last(q)];
    if Distinct(q) && Last(p) !in q {
      forall i, j | 0 <= i < j < |p| ensures p[i] != p[j] {
        assert p[i] == q[i];
        assert j < |q| ==> p[j] == q[j];
      }
    }
  }

  lemma LevelGrows(edges: seq<Edge>, s: string, t: string, k: nat, p: Path)
    requires k > 0
    ensures Count(Level(edges, s, t, k), p) ==
            if |p| < 2 then 0
            else Times(Count(Level(edges, s, t, k - 1), p[..|p| - 1]), Extends(edges, t, p[..|p| - 1], p))
  {
    ExpandAllCount(edges, t, Level(edges, s, t, k - 1), p);
  }

  lemma ChoicesGrow(edges: seq<Edge>, t: string, p: Path)
    requires |p| >= 2
    ensures var q: Path := p[..|p| - 1];
            Last(p) !in q && Last(q) != t ==>
              Choices(edges, p) == Times(Choices(edges, q), Extends(edges, t, q, p))
    ensures var q: Path := p[..|p| - 1];
            Last(p) in q || Last(q) == t ==> Extends(edges, t, q, p) == 0
  {}

  lemma {:induction false} LevelCount(edges: seq<Edge>, s: string, t: string, k: nat, p: Path)
    ensures Count(Level(edges, s, t, k), p) ==
            if Partial(s, t, k, p) then Choices(edges, p) else 0
    decreases k
  {
    hide Level, Count, Choices, Extends, Partial, Times;
    if k == 0 {
      FirstLevelCount(edges, s, t, p);
    } else {
      LevelGrows(edges, s, t, k, p);
      PartialLength(s, t, k, p);
      if |p| >= 2 {
        var q: Path := p[..|p| - 1];
        LevelCount(edges, s, t, k - 1, q);
        PartialSplits(s, t, k, p);
        ChoicesGrow(edges, t, p);
        TimesIsProduct(Count(Level(edges, s, t, k - 1), q), 0);
        TimesIsProduct(0, Extends(edges, t, q, p));
      }
    }
  }

  lemma FirstLevelCount(edges: seq<Edge>, s: string, t: string, p: Path)
    ensures Count(Level(edges, s, t, 0), p) == if Partial(s, t, 0, p) then Choices(edges, p) else 0
  {
    if |p| == 1 && p[0] == s {
      assert p == [s];
    }
  }

  lemma PartialLength(s: string, t: string, k: nat, p: Path)
    ensures Partial(s, t, k, p) ==> |p| == k + 1
  {}

  lemma {:induction false} HitsCount(t: string, ps: seq<Path>, p: Path)
    ensures Count(Hits(t, ps), p) == if Last(p) == t then Count(ps, p) else 0
    decreases |ps|
  {
    if ps != [] {
      var rest, x := ps[..|ps| - 1], ps[|ps| - 1];
      HitsCount(t, rest, p);
      CountAppend(Hits(t, rest), if Last(x) == t then [x] else [], p);
    }
  }

  lemma FreshHit(t: string, p: Path)
    requires Distinct(p) && Last(p) == t
    ensures Fresh(t, p)
  {
    forall i | 0 <= i < |p| - 1 ensures p[i] != t {}
  }

  lemma HitsLevelCount(edges: seq<Edge>, s: string, t: string, k: nat, p: Path)
    ensures Count(Hits(t, Level(edges, s, t, k)), p) ==
            if |p| == k + 1 && SimplePath(edges, s, t, p) then Choices(edges, p) else 0
  {
    HitsCount(t, Level(edges, s, t, k), p);
    LevelCount(edges, s, t, k, p);
    ChoicesPositive(edges, p);
    if Distinct(p) && Last(p) == t { FreshHit(t, p); }
  }

  lemma FoundGrows(edges: seq<Edge>, s: string, t: string, k: nat, p: Path)
    requires k > 0
    ensures Count(Found(edges, s, t, k), p) ==
            Count(Found(edges, s, t, k - 1), p) + Count(Hits(t, Level(edges, s, t, k - 1)), p)
  {
    CountAppend(Found(edges, s, t, k - 1), Hits(t, Level(edges, s, t, k - 1)), p);
  }

  lemma {:induction false} FoundCountBy(edges: seq<Edge>, s: string, t: string, k: nat, p: Path, weight: nat)
    requires forall j: nat | j < k ::
               Count(Hits(t, Level(edges, s, t, j)), p) == if |p| == j + 1 then weight else 0
    ensures Count(Found(edges, s, t, k), p) == if |p| <= k then weight else 0
    decreases k
  {
    hide Level, Hits, Count;
    if k == 0 {
      NothingFound(edges, s, t, p);
    } else {
      FoundCountBy(edges, s, t, k - 1, p, weight);
      FoundGrows(edges, s, t, k, p);
    }
  }

  lemma NothingFound(edges: seq<Edge>, s: string, t: string, p: Path)
    ensures Count(Found(edges, s, t, 0), p) == 0
  {}

  /** The search reports each simple path from `s` to `t`, once per choice of edges, and
      nothing else. */
  lemma FoundCount(edges: seq<Edge>, s: string, t: string, k: nat, p: Path)
    ensures Count(Found(edges, s, t, k), p) ==
            if |p| <= k && SimplePath(edges, s, t, p) then Choices(edges, p) else 0
  {
    var weight := if SimplePath(edges, s, t, p) then Choices(edges, p) else 0;
    forall j: nat | j < k
      ensures Count(Hits(t, Level(edges, s, t, j)), p) == if |p| == j + 1 then weight else 0
    {
      HitsLevelCount(edges, s, t, j, p);
    }
    FoundCountBy(edges, s, t, k, p, weight);
  }

  // ---- Order: non-decreasing length ----

  lemma LevelLength(edges: seq<Edge>, s: string, t: string, k: nat, p: Path)
    requires p in Level(edges, s, t, k)
    ensures |p| == k + 1 && p[0] == s && Distinct(p)
  {
    LevelCount(edges, s, t, k, p);
    CountMember(Level(edges, s, t, k), p);
  }

  predicate NonDecreasing(ps: seq<Path>) {
    forall i, j | 0 <= i <= j < |ps| :: |ps[i]| <= |ps[j]|
  }

  lemma HitsLengths(edges: seq<Edge>, s: string, t: string, k: nat)
    ensures forall i | 0 <= i < |Hits(t, Level(edges, s, t, k))| :: |Hits(t, Level(edges, s, t, k))[i]| == k + 1
  {
    hide Level, Hits;
    var hits := Hits(t, Level(edges, s, t, k));
    forall i | 0 <= i < |hits| ensures |hits[i]| == k + 1 {
      HitsCount(t, Level(edges, s, t, k), hits[i]);
      CountMember(hits, hits[i]);
      CountMember(Level(edges, s, t, k), hits[i]);
      LevelLength(edges, s, t, k, hits[i]);
    }
  }

  lemma SortedAppend(a: seq<Path>, b: seq<Path>, k: nat)
    requires NonDecreasing(a)
    requires forall i | 0 <= i < |a| :: |a[i]| <= k
    requires forall i | 0 <= i < |b| :: |b[i]| == k
    ensures NonDecreasing(a + b)
    ensures forall i | 0 <= i < |a + b| :: |(a + b)[i]| <= k
  {}

  /** Paths are found in non-decreasing length. */
  lemma {:induction false} FoundSorted(edges: seq<Edge>, s: string, t: string, k: nat)
    ensures NonDecreasing(Found(edges, s, t, k))
    ensures forall i | 0 <= i < |Found(edges, s, t, k)| :: |Found(edges, s, t, k)[i]| <= k
    decreases k
  {
    hide Level, Hits;
    if k > 0 {
      FoundSorted(edges, s, t, k - 1);
      HitsLengths(edges, s, t, k - 1);
      SortedAppend(Found(edges, s, t, k - 1), Hits(t, Level(edges, s, t, k - 1)), k);
    }
  }

  // ---- Termination: paths live inside the finite vertex set ----

  function Vertices(edges: seq<Edge>, s: string): set<string> {
    {s} + (set e | e in edges :: e.source) + (set e | e in edges :: e.target)
  }

  lemma {:induction false} DistinctFits<T>(p: seq<T>, within: set<T>)
    requires Distinct(p) && forall x | x in p :: x in within
    ensures |p| <= |within|
    decreases |p|
  {
    if p != [] {
      var q, x := p[..|p| - 1], p[|p| - 1];
      forall y | y in q ensures y in within - {x} {
        var i :| 0 <= i < |q| && q[i] == y;
        assert p[i] == y;
      }
      DistinctFits(q, within - {x});
    }
  }

  lemma {:induction false} StepsInside(edges: seq<Edge>, p: Path, q: Path, within: set<string>)
    requires q in Steps(edges, p)
    requires forall v | v in p :: v in within
    requires forall e | e in edges :: e.source in within && e.target in within
    ensures forall v | v in q :: v in within
    decreases |edges|
  {
    var rest := edges[..|edges| - 1];
    if q in Steps(rest, p) {
      StepsInside(rest, p, q, within);
    } else {
      assert q in StepOver(edges[|edges| - 1], p);
      assert edges[|edges| - 1] in edges;
    }
  }

  lemma {:induction false} ExpandAllInside(edges: seq<Edge>, t: string, ps: seq<Path>, q: Path, within: set<string>)
    requires q in ExpandAll(edges, t, ps)
    requires forall p | p in ps :: forall v | v in p :: v in within
    requires forall e | e in edges :: e.source in within && e.target in within
    ensures forall v | v in q :: v in within
    decreases |ps|
  {
    var rest, x := ps[..|ps| - 1], ps[|ps| - 1];
    forall p | p in rest ensures forall v | v in p :: v in within { assert p in ps; }
    if q in ExpandAll(edges, t, rest) {
      ExpandAllInside(edges, t, rest, q, within);
    } else {
      assert x in ps;
      StepsInside(edges, x, q, within);
    }
  }

  lemma VerticesCover(edges: seq<Edge>, s: string)
    ensures s in Vertices(edges, s)
    ensures forall e | e in edges :: e.source in Vertices(edges, s) && e.target in Vertices(edges, s)
  {}

  lemma {:induction false} LevelInside(edges: seq<Edge>, s: string, t: string, k: nat)
    ensures forall p | p in Level(edges, s, t, k) :: forall v | v in p :: v in Vertices(edges, s)
    decreases k
  {
    hide ExpandAll, Vertices;
    VerticesCover(edges, s);
    if k > 0 {
      LevelInside(edges, s, t, k - 1);
      forall p | p in Level(edges, s, t, k) ensures forall v | v in p :: v in Vertices(edges, s) {
        ExpandAllInside(edges, t, Level(edges, s, t, k - 1), p, Vertices(edges, s));
      }
    }
  }

  /** A populated level has fewer edges per path than there are vertices. */
  lemma LevelBounded(edges: seq<Edge>, s: string, t: string, k: nat)
    requires Level(edges, s, t, k) != []
    ensures k < |Vertices(edges, s)|
  {
    var p := Level(edges, s, t, k)[0];
    LevelInside(edges, s, t, k);
    LevelLength(edges, s, t, k, p);
    DistinctFits(p, Vertices(edges, s));
  }

  /** Everything the queue would ever report, before the cut. */
  function AllFound(edges: seq<Edge>, s: string, t: string): seq<Path> {
    Found(edges, s, t, |Vertices(edges, s)|)
  }

  lemma {:induction false} FoundSettles(edges: seq<Edge>, s: string, t: string, k: nat, n: nat)
    requires k <= n && Level(edges, s, t, k) == []
    ensures Found(edges, s, t, n) == Found(edges, s, t, k) && Level(edges, s, t, n) == []
    decreases n - k
  {
    if k < n { FoundSettles(edges, s, t, k, n - 1); }
  }

  // ---- The FIFO queue walks the levels in order ----

  /** The queue holds the rest of a level followed by what its first `i` paths extend to. */
  ghost predicate InLevel(edges: seq<Edge>, t: string, level: seq<Path>, i: nat,
                          queue: seq<Path>, earlier: seq<Path>, hits: seq<Path>) {
    && level != [] && i <= |level|
    && queue == level[i..] + ExpandAll(edges, t, level[..i])
    && hits == earlier + Hits(t, level[..i])
  }

  ghost predicate Scanning(edges: seq<Edge>, s: string, t: string, k: nat, i: nat, queue: seq<Path>, hits: seq<Path>) {
    InLevel(edges, t, Level(edges, s, t, k), i, queue, Found(edges, s, t, k), hits)
  }

  lemma LevelFinished(edges: seq<Edge>, t: string, level: seq<Path>, i: nat, queue: seq<Path>, earlier: seq<Path>,
      hits: seq<Path>)
    requires InLevel(edges, t, level, i, queue, earlier, hits) && (i == |level| || queue == [])
    ensures queue == ExpandAll(edges, t, level) && hits == earlier + Hits(t, level)
    ensures level != []
  {
    assert i == |level| && level[..i] == level;
  }

  lemma LevelStarted(edges: seq<Edge>, t: string, level: seq<Path>, earlier: seq<Path>)
    requires level != []
    ensures InLevel(edges, t, level, 0, level, earlier, earlier)
  {
    assert level[..0] == [] && level[0..] == level;
    assert level + [] == level && earlier + [] == earlier;
  }

  lemma NextInLevel(edges: seq<Edge>, t: string, level: seq<Path>, i: nat, queue: seq<Path>, earlier: seq<Path>,
      hits: seq<Path>)
    requires i < |level| && InLevel(edges, t, level, i, queue, earlier, hits)
    ensures queue != [] && queue[0] == level[i]
    ensures InLevel(edges, t, level, i + 1, queue[1..] + Expand(edges, t, queue[0]), earlier,
                    hits + if Last(queue[0]) == t then [queue[0]] else [])
  {
    hide Expand;
    assert level[..i + 1][..i] == level[..i];
    assert level[i..] == [level[i]] + level[i + 1..];
    assert queue[1..] == level[i + 1..] + ExpandAll(edges, t, level[..i]);
    var hit: seq<Path> := if Last(level[i]) == t then [level[i]] else [];
    assert Hits(t, level[..i + 1]) == Hits(t, level[..i]) + hit;
    assert ExpandAll(edges, t, level[..i + 1]) == ExpandAll(edges, t, level[..i]) + Expand(edges, t, level[i]);
  }

  lemma ScanStart(edges: seq<Edge>, s: string, t: string)
    ensures Scanning(edges, s, t, 0, 0, [[s]], [])
  {
    LevelStarted(edges, t, [[s]], []);
  }

  lemma ScanBounds(edges: seq<Edge>, s: string, t: string, k: nat, i: nat, queue: seq<Path>, hits: seq<Path>)
    requires Scanning(edges, s, t, k, i, queue, hits)
    ensures i <= |Level(edges, s, t, k)| != 0 && k < |Vertices(edges, s)|
  {
    LevelBounded(edges, s, t, k);
  }

  lemma NextLevel(edges: seq<Edge>, s: string, t: string, k: nat, queue: seq<Path>, hits: seq<Path>)
    requires queue != [] && Scanning(edges, s, t, k, |Level(edges, s, t, k)|, queue, hits)
    ensures Scanning(edges, s, t, k + 1, 0, queue, hits)
  {
    LevelFinished(edges, t, Level(edges, s, t, k), |Level(edges, s, t, k)|, queue, Found(edges, s, t, k), hits);
    LevelStarted(edges, t, queue, hits);
  }

  lemma NextPath(edges: seq<Edge>, s: string, t: string, k: nat, i: nat, queue: seq<Path>, hits: seq<Path>)
    requires i < |Level(edges, s, t, k)| && Scanning(edges, s, t, k, i, queue, hits)
    ensures queue != []
    ensures Scanning(edges, s, t, k, i + 1, queue[1..] + Expand(edges, t, queue[0]),
                     hits + if Last(queue[0]) == t then [queue[0]] else [])
  {
    NextInLevel(edges, t, Level(edges, s, t, k), i, queue, Found(edges, s, t, k), hits);
  }

  lemma ScanDone(edges: seq<Edge>, s: string, t: string, k: nat, i: nat, hits: seq<Path>)
    requires Scanning(edges, s, t, k, i, [], hits)
    ensures hits == AllFound(edges, s, t)
  {
    hide ExpandAll, Hits, InLevel, Vertices;
    LevelFinished(edges, t, Level(edges, s, t, k), i, [], Found(edges, s, t, k), hits);
    ScanBounds(edges, s, t, k, i, [], hits);
    FoundSettles(edges, s, t, k + 1, |Vertices(edges, s)|);
  }

  /** Completeness and exactness over the whole graph. */
  lemma AllFoundCount(edges: seq<Edge>, s: string, t: string, p: Path)
    ensures Count(AllFound(edges, s, t), p) ==
            if SimplePath(edges, s, t, p) then Choices(edges, p) else 0
    ensures p in AllFound(edges, s, t) <==> SimplePath(edges, s, t, p)
  {
    var n := |Vertices(edges, s)|;
    FoundCount(edges, s, t, n, p);
    if SimplePath(edges, s, t, p) {
      ChoicesPositive(edges, p);
      forall v | v in p ensures v in Vertices(edges, s) {
        var i :| 0 <= i < |p| && p[i] == v;
        if i > 0 { assert HopAt(edges, p, i); }
      }
      DistinctFits(p, Vertices(edges, s));
    }
    CountMember(AllFound(edges, s, t), p);
  }

  /** The five answers kept are shortest ones: a simple path that is left out is no shorter
      than any that is returned, and one is left out only when five were returned. */
  lemma FirstFiveShortest(edges: seq<Edge>, s: string, t: string, shown: seq<Path>, p: Path)
    requires shown == if |AllFound(edges, s, t)| <= 5 then AllFound(edges, s, t) else AllFound(edges, s, t)[..5]
    ensures NonDecreasing(shown)
    ensures forall q | q in shown :: SimplePath(edges, s, t, q)
    ensures SimplePath(edges, s, t, p) && p !in shown ==>
              |shown| == 5 && forall q | q in shown :: |q| <= |p|
  {
    var all := AllFound(edges, s, t);
    FoundSorted(edges, s, t, |Vertices(edges, s)|);
    forall q | q in shown ensures SimplePath(edges, s, t, q) {
      assert q in all;
      AllFoundCount(edges, s, t, q);
    }
    AllFoundCount(edges, s, t, p);
    if SimplePath(edges, s, t, p) && p !in shown {
      var j :| 0 <= j < |all| && all[j] == p;
      forall q | q in shown ensures |q| <= |p| {
        var i :| 0 <= i < |shown| && shown[i] == q;
        assert all[i] == q;
      }
    }
  }
}
