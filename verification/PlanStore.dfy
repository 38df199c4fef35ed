/**
  * What a durable plan store does, whichever database holds it
  * (src/decode/persistence/store.py:818-926, src/decode/persistence/mongo_store.py:535-653).
  */
module PlanStore {
  import opened Prelude

  datatype PlanNode = PlanNode(
    fingerprint: string, idempotencyKey: string, status: string, summary: string, detail: string)

  // A plan's nodes in the order the plan lists them.
  datatype Plan = Plan(order: seq<string>, nodes: map<string, PlanNode>) {
    predicate Valid() {
      && (forall n :: n in order ==> n in nodes)
      && (forall n :: n in nodes ==> n in order)
      && (forall i, j :: 0 <= i < j < |order| ==> order[i] != order[j])
    }
  }

  datatype NodeKey = NodeKey(session: string, node: string)

  datatype Row = Row(
    fingerprint: string, idempotencyKey: string, status: string, attempts: int, summary: string)

  datatype Store = Store(missions: map<string, Plan>, rows: map<NodeKey, Row>)

  const PENDING := "pending"
  const RUNNING := "running"
  const NEEDS_REVIEW := "needs_review"
  const INTERRUPTED := "interrupted while running; verify before retry"
  const RETRY_REQUESTED := "retry requested"

  function Find(rows: map<NodeKey, Row>, at: NodeKey): Option<Row> {
    if at in rows then Some(rows[at]) else None
  }

  // ----- save_plan -----

  // A changed fingerprint sends the node back to pending; attempts and summary stay either way.
  function Upserted(prior: Option<Row>, node: PlanNode): Row {
    match prior
    case None => Row(node.fingerprint, node.idempotencyKey, PENDING, 0, "")
    case Some(r) => r.(
      fingerprint := node.fingerprint, idempotencyKey := node.idempotencyKey,
      status := if r.fingerprint == node.fingerprint then r.status else PENDING)
  }

  /** The rows after the first `k` nodes of the plan were stored. */
  function SavedRows(rows: map<NodeKey, Row>, session: string, plan: Plan, k: nat): map<NodeKey, Row>
    requires plan.Valid() && k <= |plan.order|
  {
    if k == 0 then rows
    else
      var at := NodeKey(session, plan.order[k - 1]);
      SavedRows(rows, session, plan, k - 1)[at := Upserted(Find(rows, at), plan.nodes[at.node])]
  }

  predicate IsChange(rows: map<NodeKey, Row>, at: NodeKey, plan: Plan)
    requires at.node in plan.nodes
  {
    at in rows && rows[at].fingerprint != plan.nodes[at.node].fingerprint
  }

  /** The nodes among the first `k` whose stored fingerprint differs, in plan order. */
  function Changes(rows: map<NodeKey, Row>, session: string, plan: Plan, k: nat): seq<string>
    requires plan.Valid() && k <= |plan.order|
  {
    if k == 0 then []
    else
      var n := plan.order[k - 1];
      Changes(rows, session, plan, k - 1) + if IsChange(rows, NodeKey(session, n), plan) then [n] else []
  }

  /** How many nodes are stored before the first one without a fingerprint. */
  function Fingerprinted(plan: Plan, k: nat): (m: nat)
    requires plan.Valid() && k <= |plan.order|
    ensures k <= m <= |plan.order|
    ensures m < |plan.order| ==> plan.nodes[plan.order[m]].fingerprint == ""
    ensures forall i :: k <= i < m ==> plan.nodes[plan.order[i]].fingerprint != ""
    decreases |plan.order| - k
  {
    if k == |plan.order| || plan.nodes[plan.order[k]].fingerprint == "" then k
    else Fingerprinted(plan, k + 1)
  }

  // A node without a fingerprint raises, after the plan and all nodes before it were stored.
  function Save(st: Store, session: string, plan: Plan): (Store, Result<seq<string>>)
    requires plan.Valid()
  {
    var m := Fingerprinted(plan, 0);
    (Store(st.missions[session := plan], SavedRows(st.rows, session, plan, m)),
     if m < |plan.order| then Raised else Ok(Changes(st.rows, session, plan, m)))
  }

  // ----- The other operations -----

  function Marked(r: Row, status: string, summary: string, increment: bool): Row {
    r.(status := status, summary := summary, attempts := r.attempts + if increment then 1 else 0)
  }

  function Checkpointed(st: Store, at: NodeKey, status: string, summary: string, increment: bool): Store {
    if at !in st.rows then st
    else st.(rows := st.rows[at := Marked(st.rows[at], status, summary, increment)])
  }

  function Running(st: Store, session: string): set<string> {
    set at | at in st.rows && at.session == session && st.rows[at].status == RUNNING :: at.node
  }

  function Recovered(st: Store, session: string): Store {
    st.(rows := map at | at in st.rows ::
      if at.session == session && st.rows[at].status == RUNNING
      then Marked(st.rows[at], NEEDS_REVIEW, INTERRUPTED, false) else st.rows[at])
  }

  predicate Retryable(st: Store, at: NodeKey, maxAttempts: int) {
    at in st.rows && st.rows[at].status in {"error", "timeout"} && st.rows[at].attempts < maxAttempts
  }

  function Reset(st: Store, at: NodeKey, maxAttempts: int): Store {
    if Retryable(st, at, maxAttempts) then Checkpointed(st, at, PENDING, RETRY_REQUESTED, false) else st
  }

  // A node with status and summary taken from its row.
  function Overlaid(node: PlanNode, row: Option<Row>): PlanNode {
    match row
    case None => node
    case Some(r) => node.(status := r.status, summary := r.summary)
  }

  // The stored plan, each node overlaid with its row.
  function Load(st: Store, session: string): Option<map<string, PlanNode>> {
    if session !in st.missions then None
    else
      var nodes := st.missions[session].nodes;
      Some(map n | n in nodes :: Overlaid(nodes[n], Find(st.rows, NodeKey(session, n))))
  }

  // ----- Runs of operations -----

  datatype Op =
    | SavePlan(session: string, plan: Plan)
    | Checkpoint(at: NodeKey, status: string, summary: string, increment: bool)
    | Recover(session: string)
    | ResetRetryable(at: NodeKey, maxAttempts: int)
    | LoadPlan(session: string)

  datatype Answer =
    | Saved(changed: Result<seq<string>>)
    | Done
    | Fenced(nodes: set<string>)
    | WasReset(yes: bool)
    | Loaded(plan: Option<map<string, PlanNode>>)

  ghost predicate WellFormed(ops: seq<Op>) {
    forall i :: 0 <= i < |ops| && ops[i].SavePlan? ==> ops[i].plan.Valid()
  }

  function Apply(st: Store, op: Op): (Store, Answer)
    requires op.SavePlan? ==> op.plan.Valid()
  {
    match op
    case SavePlan(session, plan) => var (st', r) := Save(st, session, plan); (st', Saved(r))
    case Checkpoint(at, status, summary, increment) => (Checkpointed(st, at, status, summary, increment), Done)
    case Recover(session) => (Recovered(st, session), Fenced(Running(st, session)))
    case ResetRetryable(at, maxAttempts) => (Reset(st, at, maxAttempts), WasReset(Retryable(st, at, maxAttempts)))
    case LoadPlan(session) => (st, Loaded(Load(st, session)))
  }

  ghost function After(st: Store, ops: seq<Op>): Store
    requires WellFormed(ops)
    decreases |ops|
  {
    if ops == [] then st else
    assert forall i :: 0 <= i < |ops| - 1 ==> ops[..|ops| - 1][i] == ops[i];
    Apply(After(st, ops[..|ops| - 1]), ops[|ops| - 1]).0
  }

  ghost function Answers(st: Store, ops: seq<Op>): seq<Answer>
    requires WellFormed(ops)
    decreases |ops|
  {
    if ops == [] then [] else
    assert forall i :: 0 <= i < |ops| - 1 ==> ops[..|ops| - 1][i] == ops[i];
    Answers(st, ops[..|ops| - 1]) + [Apply(After(st, ops[..|ops| - 1]), ops[|ops| - 1]).1]
  }

  // ----- What a save does -----

  lemma {:induction false} SavedRowAt(rows: map<NodeKey, Row>, session: string, plan: Plan, k: nat, at: NodeKey)
    requires plan.Valid() && k <= |plan.order|
    ensures Find(SavedRows(rows, session, plan, k), at) ==
      if at.session == session && at.node in plan.order[..k]
      then Some(Upserted(Find(rows, at), plan.nodes[at.node])) else Find(rows, at)
  {
    hide Upserted;
    if k > 0 {
      SavedRowAt(rows, session, plan, k - 1, at);
      assert at.node in plan.order[..k] <==> at.node in plan.order[..k - 1] || at.node == plan.order[k - 1] by {
        assert plan.order[..k] == plan.order[..k - 1] + [plan.order[k - 1]];
      }
    }
  }

  lemma SavedRowsAre(rows: map<NodeKey, Row>, session: string, plan: Plan, k: nat)
    requires plan.Valid() && k <= |plan.order|
    ensures var after := SavedRows(rows, session, plan, k);
      forall at :: Find(after, at) ==
        if at.session == session && at.node in plan.order[..k]
        then Some(Upserted(Find(rows, at), plan.nodes[at.node])) else Find(rows, at)
  {
    hide SavedRows, Upserted, Find;
    var after := SavedRows(rows, session, plan, k);
    forall at ensures Find(after, at) ==
        if at.session == session && at.node in plan.order[..k]
        then Some(Upserted(Find(rows, at), plan.nodes[at.node])) else Find(rows, at)
    {
      SavedRowAt(rows, session, plan, k, at);
    }
  }

  lemma {:induction false} ChangesAre(rows: map<NodeKey, Row>, session: string, plan: Plan, k: nat)
    requires plan.Valid() && k <= |plan.order|
    ensures forall n :: n in Changes(rows, session, plan, k) <==>
      n in plan.order[..k] && IsChange(rows, NodeKey(session, n), plan)
  {
    if k > 0 {
      ChangesAre(rows, session, plan, k - 1);
      assert plan.order[..k] == plan.order[..k - 1] + [plan.order[k - 1]];
    }
  }

  /**
    * A save that returns reports exactly the nodes whose stored fingerprint differs, leaves no row
    * of another session or of a node outside the plan changed, and loading the plan then gives
    * every node its plan's material with the status its row had, or pending when the fingerprint
    * is new or changed. It raises exactly when some node has no fingerprint.
    */
  lemma SaveThenLoad(st: Store, session: string, plan: Plan)
    requires plan.Valid()
    ensures var (st', r) := Save(st, session, plan);
      && (r.Raised? <==> exists n :: n in plan.nodes && plan.nodes[n].fingerprint == "")
      && (forall at: NodeKey :: at.session != session || at.node !in plan.nodes ==>
        Find(st'.rows, at) == Find(st.rows, at))
      && (r.Ok? ==>
        && (forall n :: n in r.value <==> n in plan.nodes && IsChange(st.rows, NodeKey(session, n), plan))
        && Load(st', session).Some? && Load(st', session).value.Keys == plan.nodes.Keys
        && (forall n :: n in plan.nodes ==>
              var (at, loaded) := (NodeKey(session, n), Load(st', session).value[n]);
              && at in st'.rows && st'.rows[at].fingerprint == loaded.fingerprint == plan.nodes[n].fingerprint
              && loaded.status
                == (if at in st.rows && !IsChange(st.rows, at, plan) then st.rows[at].status else PENDING)
              && st'.rows[at].attempts == (if at in st.rows then st.rows[at].attempts else 0)))
  {
    hide SavedRows, Changes;
    var m := Fingerprinted(plan, 0);
    SavedRowsAre(st.rows, session, plan, m);
    ChangesAre(st.rows, session, plan, m);
    if m < |plan.order| {
      assert plan.order[m] in plan.order;
    } else {
      assert plan.order[..m] == plan.order;
      forall n | n in plan.nodes ensures plan.nodes[n].fingerprint != "" {
        var i :| 0 <= i < |plan.order| && plan.order[i] == n;
      }
      var after := SavedRows(st.rows, session, plan, m);
      forall n | n in plan.nodes ensures
        Find(after, NodeKey(session, n)) == Some(Upserted(Find(st.rows, NodeKey(session, n)), plan.nodes[n])) {}
    }
  }

  // ----- What every run keeps -----

  // The operation moves a node fenced for review to another status, or sends it back to pending.
  predicate Releases(st: Store, op: Op, at: NodeKey)
    requires op.SavePlan? ==> op.plan.Valid()
  {
    match op
    case Checkpoint(at', status, _, _) => at' == at && status != NEEDS_REVIEW
    case SavePlan(session, plan) =>
      at.session == session && at.node in plan.order[..Fingerprinted(plan, 0)] && IsChange(st.rows, at, plan)
    case _ => false
  }

  /**
    * A node fenced as needing review leaves that status exactly by an explicit checkpoint to
    * another status, or by a save that stores it with a different fingerprint.
    */
  lemma FenceLeftOnlyBy(st: Store, op: Op, at: NodeKey)
    requires op.SavePlan? ==> op.plan.Valid()
    requires at in st.rows && st.rows[at].status == NEEDS_REVIEW
    ensures at in Apply(st, op).0.rows
    ensures Apply(st, op).0.rows[at].status != NEEDS_REVIEW <==> Releases(st, op, at)
  {
    hide SavedRows;
    if op.SavePlan? {
      var m := Fingerprinted(op.plan, 0);
      SavedRowAt(st.rows, op.session, op.plan, m, at);
    }
  }

  ghost predicate NeverReleases(st: Store, ops: seq<Op>, at: NodeKey)
    requires WellFormed(ops)
    decreases |ops|
  {
    ops == [] ||
    (assert forall i :: 0 <= i < |ops| - 1 ==> ops[..|ops| - 1][i] == ops[i];
     NeverReleases(st, ops[..|ops| - 1], at) && !Releases(After(st, ops[..|ops| - 1]), ops[|ops| - 1], at))
  }

  /** Along every run without such an operation the node stays fenced. */
  lemma {:induction false} FenceHolds(st: Store, ops: seq<Op>, at: NodeKey)
    requires WellFormed(ops) && NeverReleases(st, ops, at)
    requires at in st.rows && st.rows[at].status == NEEDS_REVIEW
    ensures at in After(st, ops).rows && After(st, ops).rows[at].status == NEEDS_REVIEW
    decreases |ops|
  {
    hide Apply, Releases;
    if ops != [] {
      var before := ops[..|ops| - 1];
      assert WellFormed(before) by {
        assert forall i :: 0 <= i < |before| ==> before[i] == ops[i];
      }
      FenceHolds(st, before, at);
      FenceLeftOnlyBy(After(st, before), ops[|ops| - 1], at);
    }
  }

  /** Recovery leaves nothing running, fences exactly what it reports, and fences nothing twice. */
  lemma RecoverFences(st: Store, session: string)
    ensures var st' := Recovered(st, session);
      && Running(st', session) == {}
      && Recovered(st', session) == st'
      && st'.rows.Keys == st.rows.Keys
      && (forall at :: at in st.rows ==>
            if at.session == session && at.node in Running(st, session)
            then st'.rows[at] == Row(st.rows[at].fingerprint, st.rows[at].idempotencyKey, NEEDS_REVIEW,
                   st.rows[at].attempts, INTERRUPTED)
            else st'.rows[at] == st.rows[at])
  {
    var st' := Recovered(st, session);
    forall at | at in st.rows ensures
      (at.session == session && at.node in Running(st, session)) <==>
      (at.session == session && st.rows[at].status == RUNNING)
    {
      if at.session == session && at.node in Running(st, session) {
        var at' :| at' in st.rows && at'.session == session && st.rows[at'].status == RUNNING && at'.node == at.node;
        assert at' == at;
      }
    }
  }

  // Attempts counted by explicit checkpoints of the node.
  function Attempted(ops: seq<Op>, at: NodeKey): nat
    decreases |ops|
  {
    if ops == [] then 0
    else
      var op := ops[|ops| - 1];
      Attempted(ops[..|ops| - 1], at) + if op.Checkpoint? && op.at == at && op.increment then 1 else 0
  }

  /** No save, recovery or reset ever forgets an attempt: the count is the counted checkpoints. */
  lemma {:induction false} AttemptsConserved(st: Store, ops: seq<Op>, at: NodeKey)
    requires WellFormed(ops) && at in st.rows
    ensures at in After(st, ops).rows
    ensures After(st, ops).rows[at].attempts == st.rows[at].attempts + Attempted(ops, at)
    decreases |ops|
  {
    hide SavedRows;
    if ops != [] {
      var before := ops[..|ops| - 1];
      assert WellFormed(before) by {
        assert forall i :: 0 <= i < |before| ==> before[i] == ops[i];
      }
      AttemptsConserved(st, before, at);
      AttemptsStep(After(st, before), ops[|ops| - 1], at);
    }
  }

  lemma AttemptsStep(st: Store, op: Op, at: NodeKey)
    requires op.SavePlan? ==> op.plan.Valid()
    requires at in st.rows
    ensures at in Apply(st, op).0.rows
    ensures Apply(st, op).0.rows[at].attempts
      == st.rows[at].attempts + if op.Checkpoint? && op.at == at && op.increment then 1 else 0
  {
    hide SavedRows;
    if op.SavePlan? {
      SavedRowAt(st.rows, op.session, op.plan, Fingerprinted(op.plan, 0), at);
    }
  }

  // ----- What an operation does to one row -----

  /** A row after an update of its own: what `status` and `summary` say, its material and key kept. */
  predicate BecomesOnly(before: Row, after: Row, status: string, summary: string, attempts: int) {
    && after.fingerprint == before.fingerprint && after.idempotencyKey == before.idempotencyKey
    && after.status == status && after.summary == summary && after.attempts == attempts
  }

  /** A saved row carries its node's material and key. A node stored before keeps its attempts and
      summary, and its status unless its material changed; a new one starts pending. */
  predicate StoredAs(before: Option<Row>, node: PlanNode, after: Row) {
    && after.fingerprint == node.fingerprint && after.idempotencyKey == node.idempotencyKey
    && (before == None ==> after.status == "pending" && after.attempts == 0 && after.summary == "")
    && (before.Some? ==> after.attempts == before.value.attempts && after.summary == before.value.summary)
    && (before.Some? && before.value.fingerprint == node.fingerprint ==> after.status == before.value.status)
    && (before.Some? && before.value.fingerprint != node.fingerprint ==> after.status == "pending")
  }

  /** Every operation, row by row: a save stores the plan's nodes up to the first without a
      fingerprint, a checkpoint updates its own row, a recovery those running in its session, a
      reset one that failed or ran out of time with attempts left; and no other row, nor a plan
      of another session, is touched. */
  lemma OperationMeans(st: Store, op: Op, at: NodeKey)
    requires op.SavePlan? ==> op.plan.Valid()
    ensures var (before, after) := (Find(st.rows, at), Find(Apply(st, op).0.rows, at));
      match op
      case SavePlan(session, plan) =>
        && Apply(st, op).0.missions == st.missions[session := plan]
        && (at.session != session || at.node !in plan.nodes ==> after == before)
        && (forall k | 0 <= k < |plan.order| && at == NodeKey(session, plan.order[k]) ::
              if forall j | 0 <= j <= k :: plan.nodes[plan.order[j]].fingerprint != ""
              then after.Some? && StoredAs(before, plan.nodes[plan.order[k]], after.value) else after == before)
      case Checkpoint(own, status, summary, increment) =>
        && Apply(st, op).0.missions == st.missions
        && (at != own || before == None ==> after == before)
        && (at == own && before.Some? ==>
              && after.Some?
              && BecomesOnly(before.value, after.value, status, summary,
                             if increment then before.value.attempts + 1 else before.value.attempts))
      case Recover(session) =>
        && Apply(st, op).0.missions == st.missions
        && (before.Some? && at.session == session && before.value.status == "running" ==>
              && after.Some?
              && BecomesOnly(before.value, after.value, "needs_review",
                             "interrupted while running; verify before retry", before.value.attempts))
        && (before == None || at.session != session || before.value.status != "running" ==> after == before)
      case ResetRetryable(own, maxAttempts) =>
        && Apply(st, op).0.missions == st.missions
        && (at == own ==>
              var ripe := before.Some? && (before.value.status == "error" || before.value.status == "timeout")
                          && before.value.attempts < maxAttempts;
              && Apply(st, op).1 == WasReset(ripe)
              && (ripe ==>
                    && after.Some?
                    && BecomesOnly(before.value, after.value, "pending", "retry requested", before.value.attempts)))
        && (Apply(st, op).1 == WasReset(false) || at != own ==> after == before)
      case LoadPlan(_) => Apply(st, op).0 == st
  {
    hide SavedRows, Changes, Fingerprinted, Upserted;
    if op.SavePlan? {
      var plan := op.plan;
      var m := Fingerprinted(plan, 0);
      SavedRowAt(st.rows, op.session, plan, m, at);
      UpsertMeans(Find(st.rows, at), plan, at.node);
      forall k | 0 <= k < |plan.order| && at.node == plan.order[k]
        ensures at.node in plan.order[..m] <==> k < m
      {
        if k < m { assert plan.order[..m][k] == at.node; }
      }
    }
  }

  lemma UpsertMeans(before: Option<Row>, plan: Plan, n: string)
    ensures n in plan.nodes ==> StoredAs(before, plan.nodes[n], Upserted(before, plan.nodes[n]))
  {}

  /** Loading gives the session's stored plan, each node with the status and summary of its row
      where it has one, and otherwise as the plan holds it. */
  lemma LoadMeans(st: Store, session: string, n: string)
    ensures Load(st, session) == None <==> session !in st.missions
    ensures session in st.missions ==>
      Load(st, session).Some? && Load(st, session).value.Keys == st.missions[session].nodes.Keys
    ensures session in st.missions && n in st.missions[session].nodes ==>
      var (node, loaded) := (st.missions[session].nodes[n], Load(st, session).value[n]);
      && loaded == node.(status := loaded.status, summary := loaded.summary)
      && (NodeKey(session, n) !in st.rows ==> loaded == node)
      && (NodeKey(session, n) in st.rows ==>
            var row := st.rows[NodeKey(session, n)]; loaded.status == row.status && loaded.summary == row.summary)
  {}

  // ----- Steps shared by both stores -----

  lemma NothingSaved(rows: map<NodeKey, Row>, session: string, plan: Plan)
    requires plan.Valid()
    ensures SavedRows(rows, session, plan, 0) == rows && Changes(rows, session, plan, 0) == []
  {}

  lemma {:induction false} FirstMissing(plan: Plan, k: nat, m: nat)
    requires plan.Valid() && k <= m <= |plan.order|
    requires forall i :: k <= i < m ==> plan.nodes[plan.order[i]].fingerprint != ""
    requires m < |plan.order| ==> plan.nodes[plan.order[m]].fingerprint == ""
    ensures Fingerprinted(plan, k) == m
    decreases m - k
  {
    if k < m {
      FirstMissing(plan, k + 1, m);
    }
  }

  // One more node stored, the row it had before the save being the one it still has.
  lemma SaveStep(rows: map<NodeKey, Row>, session: string, plan: Plan, i: nat, row: Row)
    requires plan.Valid() && i < |plan.order|
    requires var at := NodeKey(session, plan.order[i]); row == Upserted(Find(rows, at), plan.nodes[at.node])
    ensures SavedRows(rows, session, plan, i + 1)
      == SavedRows(rows, session, plan, i)[NodeKey(session, plan.order[i]) := row]
    ensures Changes(rows, session, plan, i + 1) == Changes(rows, session, plan, i)
      + if IsChange(rows, NodeKey(session, plan.order[i]), plan) then [plan.order[i]] else []
    ensures Find(SavedRows(rows, session, plan, i), NodeKey(session, plan.order[i]))
      == Find(rows, NodeKey(session, plan.order[i]))
  {
    hide Upserted, IsChange;
    SavedRowAt(rows, session, plan, i, NodeKey(session, plan.order[i]));
  }

  lemma NoneRunning(st: Store, session: string)
    ensures Running(st, session) == {} ==> Recovered(st, session) == st
  {
    forall at | at in st.rows && at.session == session && st.rows[at].status == RUNNING
      ensures at.node in Running(st, session) {}
  }
}
