/** The plan tables of the SQLite store (src/decode/persistence/store.py:818-926). */
module SqlitePlanStore {
  import opened Prelude
  import opened PlanStore

  class SqlitePlans {
    // Both plan tables reference the session table.
    var sessions: set<string>
    var missions: map<string, Plan>
    var missionNodes: map<NodeKey, Row>

    constructor (known: set<string>)
      ensures View() == Store(map[], map[]) && sessions == known
    {
      sessions, missions, missionNodes := known, map[], map[];
    }

    function View(): Store
      reads this
    {
      Store(missions, missionNodes)
    }

    /**
      * Insert or update node by node. A session the session table does not know fails the first
      * statement, before anything is stored.
      */
    method SavePlan(session: string, plan: Plan) returns (r: Result<seq<string>>)
      requires plan.Valid()
      modifies this
      ensures sessions == old(sessions)
      ensures session !in sessions ==> r.Raised? && View() == old(View())
      ensures session in sessions ==> (View(), r) == Save(old(View()), session, plan)
    {
      hide SavedRows, Changes, Upserted, IsChange;
      var existing := map at: NodeKey | at in missionNodes && at.session == session ::
        at.node := missionNodes[at].fingerprint;
      if session !in sessions {
        return Raised;
      }
      missions := missions[session := plan];
      var changed: seq<string> := [];
      ghost var rows := missionNodes;
      assert SavedRows(rows, session, plan, 0) == rows && Changes(rows, session, plan, 0) == [] by {
        NothingSaved(rows, session, plan);
      }
      for i := 0 to |plan.order|
        invariant missionNodes == SavedRows(rows, session, plan, i)
        invariant changed == Changes(rows, session, plan, i)
        invariant forall k :: 0 <= k < i ==> plan.nodes[plan.order[k]].fingerprint != ""
        invariant missions == old(missions)[session := plan] && sessions == old(sessions)
      {
        var nodeId := plan.order[i];
        var node := plan.nodes[nodeId];
        if node.fingerprint == "" {
          FirstMissing(plan, 0, i);
          return Raised;
        }
        var at := NodeKey(session, nodeId);
        var prior := if nodeId in existing then Some(existing[nodeId]) else None;
        var status := if prior == Some(node.fingerprint) then node.status else PENDING;
        if prior.Some? && prior.value != node.fingerprint {
          changed := changed + [nodeId];
        }
        var excluded := Row(node.fingerprint, node.idempotencyKey, status, 0, "");
        var row := UpsertRow(missionNodes, at, excluded);
        SaveStep(rows, session, plan, i, Upserted(Find(rows, at), node));
        assert row == Upserted(Find(rows, at), node) by {
          UpsertsAlike(rows, missionNodes, at, node, excluded);
        }
        assert IsChange(rows, at, plan) == (prior.Some? && prior.value != node.fingerprint) by {
          ChangeIs(rows, at, plan);
        }
        missionNodes := missionNodes[at := row];
      }
      FirstMissing(plan, 0, |plan.order|);
      return Ok(changed);
    }

    method LoadPlan(session: string) returns (nodes: Option<map<string, PlanNode>>)
      ensures nodes == Load(View(), session)
    {
      if session !in missions {
        return None;
      }
      var plan := missions[session].nodes;
      nodes := Some(map n | n in plan :: Overlaid(plan[n], Find(missionNodes, NodeKey(session, n))));
    }

    method CheckpointPlanNode(session: string, node: string, status: string, summary: string, increment: bool)
      modifies this
      ensures sessions == old(sessions)
      ensures View() == Checkpointed(old(View()), NodeKey(session, node), status, summary, increment)
    {
      var at := NodeKey(session, node);
      if at in missionNodes {
        missionNodes := missionNodes[at := Marked(missionNodes[at], status, summary, increment)];
      }
    }

    method RecoverInterruptedPlan(session: string) returns (fenced: set<string>)
      modifies this
      ensures sessions == old(sessions)
      ensures View() == Recovered(old(View()), session) && fenced == Running(old(View()), session)
    {
      fenced := set at | at in missionNodes && at.session == session && missionNodes[at].status == RUNNING :: at.node;
      if fenced != {} {
        missionNodes := map at | at in missionNodes ::
          if at.session == session && missionNodes[at].status == RUNNING
          then missionNodes[at].(status := NEEDS_REVIEW, summary := INTERRUPTED) else missionNodes[at];
      }
      NoneRunning(old(View()), session);
    }

    method ResetRetryableNode(session: string, node: string, maxAttempts: int) returns (yes: bool)
      modifies this
      ensures sessions == old(sessions)
      ensures yes == Retryable(old(View()), NodeKey(session, node), maxAttempts)
      ensures View() == Reset(old(View()), NodeKey(session, node), maxAttempts)
    {
      var at := NodeKey(session, node);
      if at !in missionNodes || missionNodes[at].status !in {"error", "timeout"}
         || missionNodes[at].attempts >= maxAttempts {
        return false;
      }
      CheckpointPlanNode(session, node, PENDING, RETRY_REQUESTED, false);
      return true;
    }
  }

  // INSERT … ON CONFLICT DO UPDATE: on conflict the status is kept where the fingerprints agree.
  function UpsertRow(rows: map<NodeKey, Row>, at: NodeKey, excluded: Row): Row {
    if at !in rows then excluded
    else rows[at].(
      fingerprint := excluded.fingerprint, idempotencyKey := excluded.idempotencyKey,
      status := if rows[at].fingerprint == excluded.fingerprint then rows[at].status else excluded.status)
  }

  lemma UpsertsAlike(rows: map<NodeKey, Row>, now: map<NodeKey, Row>, at: NodeKey, node: PlanNode, excluded: Row)
    requires Find(now, at) == Find(rows, at)
    requires excluded == Row(node.fingerprint, node.idempotencyKey, excluded.status, 0, "")
    requires at !in rows || rows[at].fingerprint != node.fingerprint ==> excluded.status == PENDING
    ensures UpsertRow(now, at, excluded) == Upserted(Find(rows, at), node)
  {}

  lemma ChangeIs(rows: map<NodeKey, Row>, at: NodeKey, plan: Plan)
    requires at.node in plan.nodes
    ensures IsChange(rows, at, plan) <==> at in rows && rows[at].fingerprint != plan.nodes[at.node].fingerprint
  {}
}
