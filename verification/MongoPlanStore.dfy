/**
  * The plan collections of the Mongo store (src/decode/persistence/mongo_store.py:535-653), whose
  * documents are keyed by one string built from the session id and the node id.
  */
module MongoPlanStore {
  import opened Prelude
  import opened PlanStore

  datatype Doc = Doc(at: NodeKey, row: Row)

  function DocId(at: NodeKey): string {
    at.session + ":" + at.node
  }

  // Every document is stored under the id built from its own session and node.
  ghost predicate Keyed(docs: map<string, Doc>) {
    forall k :: k in docs ==> k == DocId(docs[k].at)
  }

  ghost function RowsOf(docs: map<string, Doc>): map<NodeKey, Row>
    requires Keyed(docs)
  {
    map k | k in docs :: docs[k].at := docs[k].row
  }

  // Another session's node holds the id that this node would have.
  ghost predicate Clashes(docs: map<string, Doc>, at: NodeKey) {
    DocId(at) in docs && docs[DocId(at)].at != at
  }

  lemma RowsAt(docs: map<string, Doc>, at: NodeKey)
    requires Keyed(docs)
    ensures Find(RowsOf(docs), at) ==
      if DocId(at) in docs && docs[DocId(at)].at == at then Some(docs[DocId(at)].row) else None
  {
    hide DocId;
    if at in RowsOf(docs) {
      var k :| k in docs && docs[k].at == at;
    }
  }

  lemma RowsWith(docs: map<string, Doc>, at: NodeKey, row: Row)
    requires Keyed(docs) && !Clashes(docs, at)
    ensures Keyed(docs[DocId(at) := Doc(at, row)])
    ensures RowsOf(docs[DocId(at) := Doc(at, row)]) == RowsOf(docs)[at := row]
  {
    hide DocId;
    var docs' := docs[DocId(at) := Doc(at, row)];
    forall a ensures Find(RowsOf(docs'), a) == Find(RowsOf(docs)[at := row], a) {
      RowsAt(docs, a);
      RowsAt(docs', a);
    }
    SameRows(RowsOf(docs'), RowsOf(docs)[at := row]);
  }

  lemma SameRows(a: map<NodeKey, Row>, b: map<NodeKey, Row>)
    requires forall at :: Find(a, at) == Find(b, at)
    ensures a == b
  {
    forall at ensures (at in a <==> at in b) && (at in a ==> a[at] == b[at]) {
      assert Find(a, at) == Find(b, at);
    }
  }

  // ----- When two nodes share an id -----

  predicate Splits(a: NodeKey, b: NodeKey, t: string) {
    b.session == a.session + ":" + t && a.node == t + ":" + b.node
  }

  /** Two nodes share a document id exactly when one session id runs on, over a colon, into the other's node id. */
  lemma SharedIdIff(a: NodeKey, b: NodeKey)
    requires |a.session| <= |b.session| && a != b
    ensures DocId(a) == DocId(b) <==> exists t :: Splits(a, b, t)
  {
    forall t | Splits(a, b, t) ensures DocId(a) == DocId(b) {
      assert DocId(a) == a.session + ":" + t + ":" + b.node == DocId(b);
    }
    SameSessionIds(a, b);
    if DocId(a) == DocId(b) {
      SharedIdSplits(a, b);
    }
  }

  lemma SharedIdSplits(a: NodeKey, b: NodeKey)
    requires |a.session| <= |b.session| && DocId(a) == DocId(b) && a != b
    ensures exists t :: Splits(a, b, t)
  {
    var id, n, m := DocId(a), |a.session|, |b.session|;
    assert a.session == id[..n] && b.session == id[..m];
    assert a.node == id[n + 1..] && b.node == id[m + 1..];
    SameSessionIds(a, b);
    assert n < m;
    var t := b.session[n + 1..];
    assert id[n] == ':' && b.session[n] == ':';
    assert b.session == a.session + ":" + t;
    assert id[m] == ':' && t == id[n + 1..m];
    assert a.node == t + ":" + b.node;
    assert Splits(a, b, t);
  }

  // Session id `b` runs on from session id `a` over a colon.
  predicate RunsOn(a: string, b: string) {
    |a| < |b| && b[..|a|] == a && b[|a|] == ':'
  }

  /** No known session id runs on from another. */
  ghost predicate Separate(sessions: set<string>) {
    forall a, b | a in sessions && b in sessions :: !RunsOn(a, b)
  }

  /** Nodes of separate sessions never share a key, whatever the node ids are. */
  lemma SeparateNeverClash(docs: map<string, Doc>, at: NodeKey, sessions: set<string>)
    requires Keyed(docs) && Separate(sessions) && at.session in sessions
    requires forall k :: k in docs ==> docs[k].at.session in sessions
    ensures !Clashes(docs, at)
  {
    hide DocId, RunsOn;
    if DocId(at) in docs {
      var held := docs[DocId(at)].at;
      assert DocId(held) == DocId(at);
      if at != held && |at.session| <= |held.session| {
        SeparateIdsDiffer(at, held);
      }
      if at != held && |held.session| <= |at.session| {
        SeparateIdsDiffer(held, at);
      }
    }
  }

  lemma SeparateIdsDiffer(a: NodeKey, b: NodeKey)
    requires !RunsOn(a.session, b.session) && a != b && |a.session| <= |b.session|
    ensures DocId(a) != DocId(b)
  {
    hide DocId, Splits, RunsOn;
    SharedIdIff(a, b);
    forall t ensures !Splits(a, b, t) {
      SplitRunsOn(a, b, t);
    }
  }

  lemma SplitRunsOn(a: NodeKey, b: NodeKey, t: string)
    ensures Splits(a, b, t) ==> RunsOn(a.session, b.session)
  {
    assert (a.session + ":" + t)[..|a.session|] == a.session && (a.session + ":" + t)[|a.session|] == ':';
  }

  /** Session ids without a colon, as created ones are, are always separate. */
  lemma ColonFreeSeparate(sessions: set<string>)
    requires forall s | s in sessions :: ':' !in s
    ensures Separate(sessions)
  {
    forall a, b | a in sessions && b in sessions ensures !RunsOn(a, b) {
      RunningOnHoldsColon(a, b);
    }
  }

  lemma RunningOnHoldsColon(a: string, b: string)
    ensures RunsOn(a, b) ==> ':' in b
  {}

  /** With a colon in a session id, a checkpoint of one session's node lands on another's. */
  lemma ClashExample(row: Row)
    ensures var (a, b) := (NodeKey("s", "x:n"), NodeKey("s:x", "n"));
      a != b && DocId(a) == DocId(b) && Clashes(map[DocId(a) := Doc(a, row)], b)
  {
    assert DocId(NodeKey("s", "x:n")) == "s:x:n" == DocId(NodeKey("s:x", "n"));
  }

  class MongoPlans {
    var missions: map<string, Plan>
    var missionNodes: map<string, Doc>

    ghost predicate Valid()
      reads this
    {
      Keyed(missionNodes)
    }

    constructor ()
      ensures Valid() && View() == Store(map[], map[]) && missionNodes == map[]
    {
      missions, missionNodes := map[], map[];
    }

    ghost function View(): Store
      requires Valid()
      reads this
    {
      Store(missions, RowsOf(missionNodes))
    }

    /**
      * Find the session's documents, then insert or update node by node. Inserting under an id
      * that another session's node holds is a duplicate key error.
      */
    method SavePlan(session: string, plan: Plan) returns (r: Result<seq<string>>)
      requires Valid() && plan.Valid()
      modifies this
      ensures Valid() && forall k :: k in missionNodes ==>
          k in old(missionNodes) || missionNodes[k].at.session == session
      ensures forall k :: k in old(missionNodes) ==> k in missionNodes && missionNodes[k].at == old(missionNodes)[k].at
      ensures (exists n :: n in plan.nodes && Clashes(old(missionNodes), NodeKey(session, n))) ==> r.Raised?
      ensures (forall n :: n in plan.nodes ==> !Clashes(old(missionNodes), NodeKey(session, n))) ==>
        (View(), r) == Save(old(View()), session, plan)
    {
      hide SavedRows, Changes, Upserted, IsChange, RowsOf, Clashes, DocId, Keyed, Find;
      ghost var docs := missionNodes;
      ghost var rows := RowsOf(docs);
      var existing := Existing(session);
      missions := missions[session := plan];
      var changed: seq<string> := [];
      NothingSaved(rows, session, plan);
      for i := 0 to |plan.order|
        invariant Keyed(missionNodes) && missions == old(missions)[session := plan]
        invariant RowsOf(missionNodes) == SavedRows(rows, session, plan, i)
        invariant changed == Changes(rows, session, plan, i)
        invariant forall k :: 0 <= k < i ==> plan.nodes[plan.order[k]].fingerprint != ""
        invariant forall k :: 0 <= k < i ==> !Clashes(docs, NodeKey(session, plan.order[k]))
        invariant forall k :: k in missionNodes ==> k in docs || missionNodes[k].at.session == session
        invariant forall k :: k in docs ==> k in missionNodes && missionNodes[k].at == docs[k].at
      {
        var nodeId := plan.order[i];
        var node := plan.nodes[nodeId];
        if node.fingerprint == "" {
          FirstMissing(plan, 0, i);
          return Raised;
        }
        var at := NodeKey(session, nodeId);
        SaveStep(rows, session, plan, i, Upserted(Find(rows, at), node));
        PriorIs(docs, missionNodes, at, plan);
        var prior := Held(existing, nodeId);
        if prior.Some? && prior.value.fingerprint != node.fingerprint {
          changed := changed + [nodeId];
        }
        var id := DocId(at);
        if prior.None? {
          if id in missionNodes {
            return Raised;
          }
          InsertsAlike(rows, at, node);
          RowsWith(missionNodes, at, Row(node.fingerprint, node.idempotencyKey, PENDING, 0, ""));
          missionNodes := missionNodes[id := Doc(at, Row(node.fingerprint, node.idempotencyKey, PENDING, 0, ""))];
        } else {
          var status := if prior.value.fingerprint == node.fingerprint then prior.value.status else PENDING;
          var row := missionNodes[id].row.(
            fingerprint := node.fingerprint, idempotencyKey := node.idempotencyKey, status := status);
          UpdatesAlike(rows, at, node, prior.value);
          RowsWith(missionNodes, at, row);
          missionNodes := missionNodes[id := missionNodes[id].(row := row)];
        }
      }
      FirstMissing(plan, 0, |plan.order|);
      return Ok(changed);
    }

    method LoadPlan(session: string) returns (nodes: Option<map<string, PlanNode>>)
      requires Valid()
      ensures nodes == Load(View(), session)
    {
      hide DocId, RowsOf, Overlaid, Held, Find;
      if session !in missions {
        return None;
      }
      var plan := missions[session].nodes;
      var states := Existing(session);
      var loaded := map n | n in plan :: Overlaid(plan[n], Held(states, n));
      SameLoad(View(), session, loaded, states);
      return Some(loaded);
    }

    /** One update by id; it is the node's own document unless another session's node holds the id. */
    method CheckpointPlanNode(session: string, node: string, status: string, summary: string, increment: bool)
      requires Valid()
      modifies this
      ensures Valid() && missions == old(missions)
      ensures missionNodes.Keys == old(missionNodes).Keys
      ensures forall k :: k in missionNodes ==>
        missionNodes[k] == (if k != DocId(NodeKey(session, node)) then old(missionNodes)[k]
        else Doc(old(missionNodes)[k].at, Marked(old(missionNodes)[k].row, status, summary, increment)))
      ensures !Clashes(old(missionNodes), NodeKey(session, node)) ==>
        View() == Checkpointed(old(View()), NodeKey(session, node), status, summary, increment)
    {
      hide DocId, RowsOf;
      var at := NodeKey(session, node);
      var id := DocId(at);
      RowsAt(missionNodes, at);
      if id in missionNodes {
        var doc := missionNodes[id];
        if !Clashes(missionNodes, at) {
          RowsWith(missionNodes, at, Marked(doc.row, status, summary, increment));
        }
        missionNodes := missionNodes[id := doc.(row := Marked(doc.row, status, summary, increment))];
      }
    }

    method RecoverInterruptedPlan(session: string) returns (fenced: set<string>)
      requires Valid()
      modifies this
      ensures Valid() && View() == Recovered(old(View()), session) && fenced == Running(old(View()), session)
      ensures missionNodes.Keys == old(missionNodes).Keys
      ensures forall k :: k in missionNodes ==> missionNodes[k].at == old(missionNodes)[k].at
    {
      ghost var docs := missionNodes;
      fenced := set k | k in missionNodes && missionNodes[k].at.session == session
        && missionNodes[k].row.status == RUNNING
        :: missionNodes[k].at.node;
      RunningDocs(docs, missions, session);
      FencedDocs(docs, missions, session);
      if fenced != {} {
        missionNodes := map k | k in missionNodes :: FencedDoc(missionNodes[k], session);
      } else {
        NoneRunning(old(View()), session);
        assert Recovered(old(View()), session) == View();
      }
    }

    method ResetRetryableNode(session: string, node: string, maxAttempts: int) returns (yes: bool)
      requires Valid()
      modifies this
      ensures Valid() && missions == old(missions) && missionNodes.Keys == old(missionNodes).Keys
      ensures forall k :: k in missionNodes ==> missionNodes[k].at == old(missionNodes)[k].at
      ensures !Clashes(old(missionNodes), NodeKey(session, node)) ==>
        && yes == Retryable(old(View()), NodeKey(session, node), maxAttempts)
        && View() == Reset(old(View()), NodeKey(session, node), maxAttempts)
    {
      hide DocId, RowsOf;
      var at := NodeKey(session, node);
      var id := DocId(at);
      RowsAt(missionNodes, at);
      if id !in missionNodes || missionNodes[id].row.status !in {"error", "timeout"}
         || missionNodes[id].row.attempts >= maxAttempts {
        return false;
      }
      CheckpointPlanNode(session, node, PENDING, RETRY_REQUESTED, false);
      return true;
    }

    // The session's rows by node id.
    method Existing(session: string) returns (existing: map<string, Row>)
      requires Valid()
      ensures forall n :: Held(existing, n) == Find(RowsOf(missionNodes), NodeKey(session, n))
    {
      existing := map k | k in missionNodes && missionNodes[k].at.session == session ::
        missionNodes[k].at.node := missionNodes[k].row;
      forall n ensures Held(existing, n) == Find(RowsOf(missionNodes), NodeKey(session, n)) {
        RowsAt(missionNodes, NodeKey(session, n));
      }
    }
  }

  function Held(existing: map<string, Row>, n: string): Option<Row> {
    if n in existing then Some(existing[n]) else None
  }

  lemma SameLoad(st: Store, session: string, loaded: map<string, PlanNode>, states: map<string, Row>)
    requires session in st.missions
    requires forall n :: Held(states, n) == Find(st.rows, NodeKey(session, n))
    requires loaded.Keys == st.missions[session].nodes.Keys
    requires forall n :: n in loaded ==> loaded[n] == Overlaid(st.missions[session].nodes[n], Held(states, n))
    ensures Load(st, session) == Some(loaded)
  {
    hide Held, Find, Overlaid;
    assert Load(st, session).value == loaded;
  }

  function FencedDoc(doc: Doc, session: string): Doc {
    if doc.at.session == session && doc.row.status == RUNNING
    then doc.(row := doc.row.(status := NEEDS_REVIEW, summary := INTERRUPTED)) else doc
  }

  lemma RowsAre(docs: map<string, Doc>)
    requires Keyed(docs)
    ensures forall k :: k in docs ==> docs[k].at in RowsOf(docs) && RowsOf(docs)[docs[k].at] == docs[k].row
    ensures forall at :: at in RowsOf(docs) ==> DocId(at) in docs && docs[DocId(at)] == Doc(at, RowsOf(docs)[at])
  {
    hide DocId;
    forall k | k in docs ensures docs[k].at in RowsOf(docs) && RowsOf(docs)[docs[k].at] == docs[k].row {
      RowsAt(docs, docs[k].at);
    }
    forall at | at in RowsOf(docs) ensures DocId(at) in docs && docs[DocId(at)] == Doc(at, RowsOf(docs)[at]) {
      RowsAt(docs, at);
    }
  }

  lemma RunningDocs(docs: map<string, Doc>, missions: map<string, Plan>, session: string)
    requires Keyed(docs)
    ensures (set k | k in docs && docs[k].at.session == session && docs[k].row.status == RUNNING :: docs[k].at.node)
      == Running(Store(missions, RowsOf(docs)), session)
  {
    hide DocId, RowsOf;
    RowsAre(docs);
  }

  lemma FencedDocs(docs: map<string, Doc>, missions: map<string, Plan>, session: string)
    requires Keyed(docs)
    ensures var docs' := map k | k in docs :: FencedDoc(docs[k], session);
      Keyed(docs') && RowsOf(docs') == Recovered(Store(missions, RowsOf(docs)), session).rows
  {
    hide DocId, RowsOf;
    var docs' := map k | k in docs :: FencedDoc(docs[k], session);
    RowsAre(docs);
    RowsAre(docs');
    var rows' := Recovered(Store(missions, RowsOf(docs)), session).rows;
    forall at | at in RowsOf(docs') ensures at in rows' && RowsOf(docs')[at] == rows'[at] {
      assert docs[DocId(at)].at == at;
    }
    forall at | at in rows' ensures at in RowsOf(docs') {
      assert docs'[DocId(at)].at == at;
    }
  }

  // The document a node has now, and whether there is one, is as it was before the save.
  lemma PriorIs(docs: map<string, Doc>, now: map<string, Doc>, at: NodeKey, plan: Plan)
    requires Keyed(docs) && Keyed(now) && at.node in plan.nodes
    requires Find(RowsOf(now), at) == Find(RowsOf(docs), at)
    requires forall k :: k in now ==> k in docs || now[k].at.session == at.session
    requires forall k :: k in docs ==> k in now && now[k].at == docs[k].at
    ensures Clashes(now, at) <==> Clashes(docs, at)
    ensures var prior := Find(RowsOf(docs), at);
      && (prior.Some? ==> DocId(at) in now && now[DocId(at)] == Doc(at, prior.value) && !Clashes(docs, at))
      && (prior.None? ==> (DocId(at) in now <==> Clashes(docs, at)))
      && (IsChange(RowsOf(docs), at, plan) <==>
        prior.Some? && prior.value.fingerprint != plan.nodes[at.node].fingerprint)
  {
    hide DocId, RowsOf;
    RowsAt(docs, at);
    RowsAt(now, at);
    if DocId(at) in now {
      SameSessionIds(now[DocId(at)].at, at);
    }
  }

  lemma SameSessionIds(a: NodeKey, b: NodeKey)
    ensures a.session == b.session && DocId(a) == DocId(b) ==> a == b
  {
    if a.session == b.session {
      var n := |a.session| + 1;
      assert DocId(a)[n..] == a.node && DocId(b)[n..] == b.node;
    }
  }

  lemma InsertsAlike(rows: map<NodeKey, Row>, at: NodeKey, node: PlanNode)
    requires Find(rows, at).None?
    ensures Upserted(Find(rows, at), node) == Row(node.fingerprint, node.idempotencyKey, PENDING, 0, "")
  {}

  lemma UpdatesAlike(rows: map<NodeKey, Row>, at: NodeKey, node: PlanNode, prior: Row)
    requires Find(rows, at) == Some(prior)
    ensures Upserted(Find(rows, at), node) == prior.(
      fingerprint := node.fingerprint, idempotencyKey := node.idempotencyKey,
      status := if prior.fingerprint == node.fingerprint then prior.status else PENDING)
  {}
}
