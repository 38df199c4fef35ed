/** The knowledge graph: keyed nodes, an edge list, and an inverted word index over the nodes. */
module KnowledgeGraph {
  import opened GraphPaths
  import opened Neighbourhood
  import opened WordSplitting

  datatype Node = Node(id: string, kind: string, name: string, description: string)

  type Index = map<string, set<string>>

  function Vocabulary(n: Node): seq<string> {
    Words(n.name + " " + n.description)
  }

  /** The ids, among `ids`, of the nodes whose text carries the word: what a plain scan finds. */
  function Holders(nodes: map<string, Node>, ids: set<string>, w: string): set<string> {
    set id | id in ids && id in nodes && w in Vocabulary(nodes[id])
  }

  ghost predicate IndexAgrees(nodes: map<string, Node>, ids: set<string>, index: Index) {
    forall w: string ::
      && (w in index <==> Holders(nodes, ids, w) != {})
      && (w in index ==> index[w] == Holders(nodes, ids, w))
  }

  function Posting(index: Index, w: string): set<string> {
    if w in index then index[w] else {}
  }

  /** The inner loop of the index rebuild: enter one node's id under each of its words. */
  method Post(index: Index, id: string, words: seq<string>) returns (r: Index)
    ensures forall w: string :: w in r <==> w in index || w in words
    ensures forall w: string :: w in r ==> r[w] == Posting(index, w) + if w in words then {id} else {}
  {
    r := index;
    for i := 0 to |words|
      invariant forall w: string :: w in r <==> w in index || w in words[..i]
      invariant forall w: string ::
          w in r ==> r[w] == Posting(index, w) + if w in words[..i] then {id} else {}
    {
      var word := words[i];
      assert words[..i + 1] == words[..i] + [word];
      if word !in r {
        r := r[word := {}];
      }
      r := r[word := r[word] + {id}];
    }
    assert words[..|words|] == words;
  }

  lemma PostingAgrees(nodes: map<string, Node>, seen: set<string>, id: string, before: Index, after: Index)
    requires id in nodes && IndexAgrees(nodes, seen, before)
    requires forall w: string :: w in after <==> w in before || w in Vocabulary(nodes[id])
    requires forall w: string :: w in after ==>
               after[w] == Posting(before, w) + if w in Vocabulary(nodes[id]) then {id} else {}
    ensures IndexAgrees(nodes, seen + {id}, after)
  {
    forall w: string
      ensures Holders(nodes, seen + {id}, w) ==
              Holders(nodes, seen, w) + if w in Vocabulary(nodes[id]) then {id} else {}
      ensures Holders(nodes, seen, w) == Posting(before, w)
    {}
  }

  // ---- Search, as a scan of every node ----

  function WithAll(nodes: map<string, Node>, words: seq<string>): set<string> {
    set id | id in nodes && forall w | w in words :: w in Vocabulary(nodes[id])
  }

  function WithAny(nodes: map<string, Node>, words: seq<string>): set<string> {
    set id | id in nodes && exists w | w in words :: w in Vocabulary(nodes[id])
  }

  /** All words must match; if nothing carries them all, any word may. */
  function Matches(nodes: map<string, Node>, query: string): set<string> {
    var words := Words(query);
    if words == [] then {}
    else if WithAll(nodes, words) != {} then WithAll(nodes, words)
    else WithAny(nodes, words)
  }

  /** What a query matches: with all its words in their name or description, or, where no node has
      them all, the nodes with any; a query without words matches nothing. */
  lemma MatchesMeans(nodes: map<string, Node>, query: string, id: string)
    ensures id in Matches(nodes, query) <==>
            && id in nodes
            && (if exists x | x in nodes :: HasAll(nodes[x], Words(query))
                then HasAll(nodes[id], Words(query)) else HasAny(nodes[id], Words(query)))
            && Words(query) != []
  {
    hide Words;
    forall n: Node, w: string ensures w in Vocabulary(n) <==> Carries(n, w) { VocabularyMeans(n, w); }
    assert id in WithAll(nodes, Words(query)) <==> id in nodes && HasAll(nodes[id], Words(query));
    assert forall x | x in nodes :: HasAll(nodes[x], Words(query)) <==> x in WithAll(nodes, Words(query));
  }

  /** The word stands in the node's name or in its description. */
  predicate Carries(n: Node, w: string) {
    w in Words(n.name) || w in Words(n.description)
  }

  predicate HasAll(n: Node, words: seq<string>) {
    forall w | w in words :: Carries(n, w)
  }

  predicate HasAny(n: Node, words: seq<string>) {
    exists w | w in words :: Carries(n, w)
  }

  lemma VocabularyMeans(n: Node, w: string)
    ensures w in Vocabulary(n) <==> Carries(n, w)
  {
    WordsOfJoin(n.name, n.description);
  }

  /** The nodes of a list of ids that the store knows, in order. */
  function Known(nodes: map<string, Node>, ids: seq<string>): seq<Node>
    decreases |ids|
  {
    if ids == [] then []
    else Known(nodes, ids[..|ids| - 1]) +
         if ids[|ids| - 1] in nodes then [nodes[ids[|ids| - 1]]] else []
  }

  lemma NoneKnown(nodes: map<string, Node>)
    ensures Known(nodes, []) == []
  {}

  lemma KnownGrows(nodes: map<string, Node>, ids: seq<string>, id: string)
    ensures Known(nodes, ids + [id]) == Known(nodes, ids) + if id in nodes then [nodes[id]] else []
  {
    assert (ids + [id])[..|ids|] == ids;
  }

  lemma DueStart(edges: seq<Edge>)
    ensures forall e :: Due(edges, {}, e) == 0
  {}

  lemma DueGrows(edges: seq<Edge>, seen: set<string>, u: string, before: seq<Edge>, after: seq<Edge>)
    requires u !in seen && after == before + Touching(edges, u)
    requires forall e :: multiset(before)[e] == Due(edges, seen, e)
    ensures forall e :: multiset(after)[e] == Due(edges, seen + {u}, e)
  {
    forall e ensures multiset(after)[e] == Due(edges, seen + {u}, e) {
      TouchingCount(edges, u, e);
    }
  }

  class KnowledgeGraph {
    var nodes: map<string, Node>
    var edges: seq<Edge>
    var index: Index

    ghost predicate Keyed()
      reads this
    {
      forall id | id in nodes :: nodes[id].id == id
    }

    ghost predicate Valid()
      reads this
    {
      Keyed() && IndexAgrees(nodes, nodes.Keys, index)
    }

    /** Loading stored nodes and edges; a later node replaces an earlier one with its id. */
    constructor (stored: seq<Node>, links: seq<Edge>)
      ensures Valid() && edges == links
      ensures nodes.Keys == set n | n in stored :: n.id
    {
      nodes := map[];
      edges := links;
      index := map[];
      new;
      for i := 0 to |stored|
        invariant Keyed() && edges == links
        invariant nodes.Keys == set n | n in stored[..i] :: n.id
      {
        nodes := nodes[stored[i].id := stored[i]];
        assert stored[..i + 1] == stored[..i] + [stored[i]];
      }
      assert stored[..|stored|] == stored;
      RebuildIndex();
    }

    method RebuildIndex()
      requires Keyed()
      modifies this`index
      ensures Valid()
    {
      index := map[];
      var todo := nodes.Keys;
      while todo != {}
        invariant todo <= nodes.Keys
        invariant IndexAgrees(nodes, nodes.Keys - todo, index)
        decreases todo
      {
        var id :| id in todo;
        var node := nodes[id];
        ghost var before, seen := index, nodes.Keys - todo;
        index := Post(index, node.id, Vocabulary(node));
        todo := todo - {id};
        assert nodes.Keys - todo == seen + {id};
        PostingAgrees(nodes, seen, id, before, index);
      }
    }

    method AddNode(node: Node)
      requires Valid()
      modifies this
      ensures Valid() && nodes == old(nodes)[node.id := node] && edges == old(edges)
    {
      nodes := nodes[node.id := node];
      RebuildIndex();
    }

    method AddEdge(edge: Edge)
      requires Valid()
      modifies this`edges
      ensures Valid() && edges == old(edges) + [edge]
    {
      edges := edges + [edge];
    }

    /** The intersection of the postings, or their union when nothing carries every word. */
    method MatchingIds(query: string) returns (matching: set<string>)
      requires Valid()
      ensures matching == Matches(nodes, query)
    {
      var words := Words(query);
      matching := {};
      if words == [] {
        return;
      }
      for i := 0 to |words|
        invariant i > 0 ==> matching == WithAll(nodes, words[..i])
      {
        assert words[..i + 1] == words[..i] + [words[i]];
        assert Posting(index, words[i]) == Holders(nodes, nodes.Keys, words[i]);
        if i == 0 {
          matching := Posting(index, words[i]);
        } else {
          matching := matching * Posting(index, words[i]);
        }
      }
      assert words[..|words|] == words;
      if matching == {} {
        for i := 0 to |words|
          invariant matching == WithAny(nodes, words[..i])
        {
          assert words[..i + 1] == words[..i] + [words[i]];
          assert Posting(index, words[i]) == Holders(nodes, nodes.Keys, words[i]);
          matching := matching + Posting(index, words[i]);
        }
      }
    }

    /** The index answers exactly what a scan of all nodes answers, cut to ten distinct nodes. */
    method Search(query: string) returns (result: seq<Node>)
      requires Valid()
      ensures |result| == if |Matches(nodes, query)| <= 10 then |Matches(nodes, query)| else 10
      ensures Distinct(result)
      ensures forall n | n in result :: n.id in Matches(nodes, query) && nodes[n.id] == n
    {
      var matching := MatchingIds(query);
      assert matching <= nodes.Keys;
      result := [];
      var rest := matching;
      while rest != {} && |result| < 10
        invariant rest <= matching && |result| <= 10 && |result| + |rest| == |matching|
        invariant Distinct(result)
        invariant forall n | n in result :: n.id in matching - rest && nodes[n.id] == n
        decreases rest
      {
        var id :| id in rest;
        result := result + [nodes[id]];
        rest := rest - {id};
      }
    }

    /** The edge loop of one visit: report each touching edge and queue its other endpoint. */
    method ScanEdges(current: string, depth: int, queue0: seq<(string, int)>, edges0: seq<Edge>)
      returns (queue: seq<(string, int)>, related: seq<Edge>)
      ensures queue == queue0 + Offers(edges, current, depth)
      ensures related == edges0 + Touching(edges, current)
    {
      queue, related := queue0, edges0;
      for i := 0 to |edges|
        invariant queue == queue0 + Offers(edges[..i], current, depth)
        invariant related == edges0 + Touching(edges[..i], current)
      {
        var edge := edges[i];
        assert edges[..i + 1][..i] == edges[..i];
        if edge.source == current {
          related := related + [edge];
          queue := queue + [(edge.target, depth)];
        } else if edge.target == current {
          related := related + [edge];
          queue := queue + [(edge.source, depth)];
        }
      }
      assert edges[..|edges|] == edges;
    }

    /** Bounded-depth breadth-first sweep. The visited vertices are exactly those within the
        limit, nearest first; each stored edge is reported once per distinct visited endpoint. */
    method GetRelated(nodeId: string, maxDepth: int)
      returns (relatedNodes: seq<Node>, relatedEdges: seq<Edge>, ghost order: seq<string>)
      ensures relatedNodes == Known(nodes, order)
      ensures Distinct(order) && (set u | u in order) == Within(edges, nodeId, maxDepth)
      ensures forall i, j, k: nat | 0 <= i <= j < |order| && order[j] in Ball(edges, nodeId, k) ::
                order[i] in Ball(edges, nodeId, k)
      ensures forall e :: multiset(relatedEdges)[e] == Due(edges, Within(edges, nodeId, maxDepth), e)
    {
      hide Sweeping, Ball, Due, Vertices, Touching, Offers, Known;
      var visited: set<string> := {};
      var queue := [(nodeId, 0)];
      relatedNodes, relatedEdges := [], [];
      ghost var sweep := Sweep([], map[]);
      SweepStart(edges, nodeId, maxDepth);
      DueStart(edges);
      NoneKnown(nodes);
      while queue != []
        invariant Sweeping(edges, nodeId, maxDepth, sweep, queue)
        invariant visited == sweep.depth.Keys && visited <= Vertices(edges, nodeId)
        invariant relatedNodes == Known(nodes, sweep.order)
        invariant forall e :: multiset(relatedEdges)[e] == Due(edges, visited, e)
        decreases Vertices(edges, nodeId) - visited, |queue|
      {
        ghost var before := queue;
        SweepHead(edges, nodeId, maxDepth, sweep, queue);
        var current, depth := queue[0].0, queue[0].1;
        queue := queue[1..];
        if current in visited || depth > maxDepth {
          SweepSkip(edges, nodeId, maxDepth, sweep, before);
          continue;
        }
        visited := visited + {current};
        assert visited - {current} == sweep.depth.Keys;
        ghost var grown := Sweep(sweep.order + [current], sweep.depth[current := depth]);
        if current in nodes {
          relatedNodes := relatedNodes + [nodes[current]];
        }
        KnownGrows(nodes, sweep.order, current);
        ghost var reported := relatedEdges;
        queue, relatedEdges := ScanEdges(current, depth + 1, queue, relatedEdges);
        SweepVisit(edges, nodeId, maxDepth, sweep, before, grown);
        DueGrows(edges, visited - {current}, current, reported, relatedEdges);
        sweep := grown;
      }
      SweepResult(edges, nodeId, maxDepth, sweep);
      order := sweep.order;
    }

    /** The edge loop of one expansion: queue every one-edge extension to a new vertex. */
    method Extend(path: Path, queue0: seq<Path>) returns (queue: seq<Path>)
      ensures queue == queue0 + Steps(edges, path)
    {
      hide Steps;
      queue := queue0;
      StepsOfNone(path);
      var last := path[|path| - 1];
      for i := 0 to |edges|
        invariant queue == queue0 + Steps(edges[..i], path)
      {
        var edge := edges[i];
        StepsGrow(edges, i, path);
        if edge.source == last && edge.target !in path {
          queue := queue + [path + [edge.target]];
        } else if edge.target == last && edge.source !in path {
          queue := queue + [path + [edge.source]];
        }
      }
      assert edges[..|edges|] == edges;
    }

    /** FIFO enumeration of simple paths: the first five of the full enumeration. */
    method FindPath(sourceId: string, targetId: string) returns (paths: seq<Path>)
      ensures paths == var all := AllFound(edges, sourceId, targetId);
                       if |all| <= 5 then all else all[..5]
    {
      hide Scanning, Level;
      paths := [];
      var queue: seq<Path> := [[sourceId]];
      ghost var k, i := 0, 0;
      ScanStart(edges, sourceId, targetId);
      while queue != []
        invariant Scanning(edges, sourceId, targetId, k, i, queue, paths)
        decreases |Vertices(edges, sourceId)| - k, |Level(edges, sourceId, targetId, k)| - i
      {
        ScanBounds(edges, sourceId, targetId, k, i, queue, paths);
        if i == |Level(edges, sourceId, targetId, k)| {
          NextLevel(edges, sourceId, targetId, k, queue, paths);
          k, i := k + 1, 0;
          ScanBounds(edges, sourceId, targetId, k, i, queue, paths);
        }
        NextPath(edges, sourceId, targetId, k, i, queue, paths);
        ghost var queue' := queue[1..] + Expand(edges, targetId, queue[0]);
        ghost var paths' := paths + if Last(queue[0]) == targetId then [queue[0]] else [];
        var path := queue[0];
        queue := queue[1..];
        if path[|path| - 1] == targetId {
          paths := paths + [path];
        } else {
          queue := Extend(path, queue);
        }
        assert queue == queue' && paths == paths';
        i := i + 1;
      }
      ScanDone(edges, sourceId, targetId, k, i, paths);
      if |paths| > 5 {
        paths := paths[..5];
      }
    }
  }
}
