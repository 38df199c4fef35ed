/** The two plan stores answer every sequence of operations alike. */
module PlanStoresAgree {
  import opened Prelude
  import opened PlanStore
  import opened SqlitePlanStore
  import opened MongoPlanStore

  // The session of an operation that reads or writes one session's rows by key.
  predicate OnSession(op: Op, sessions: set<string>) {
    match op
    case SavePlan(session, _) => session in sessions
    case Checkpoint(at, _, _, _) => at.session in sessions
    case ResetRetryable(at, _) => at.session in sessions
    case Recover(_) => true
    case LoadPlan(_) => true
  }

  // The documents are of known sessions, and no known session id runs on from another over a colon.
  ghost predicate Apart(sessions: set<string>, docs: map<string, Doc>) {
    Separate(sessions) && forall k :: k in docs ==> docs[k].at.session in sessions
  }

  method ApplySqlite(store: SqlitePlans, op: Op) returns (a: Answer)
    requires op.SavePlan? ==> op.plan.Valid()
    requires OnSession(op, store.sessions)
    modifies store
    ensures store.sessions == old(store.sessions)
    ensures (store.View(), a) == Apply(old(store.View()), op)
  {
    hide Save, Load, Recovered, Reset, Checkpointed;
    match op
    case SavePlan(session, plan) => var r := store.SavePlan(session, plan); a := Saved(r);
    case Checkpoint(at, status, summary, increment) =>
      store.CheckpointPlanNode(at.session, at.node, status, summary, increment);
      a := Done;
    case Recover(session) => var ids := store.RecoverInterruptedPlan(session); a := Fenced(ids);
    case ResetRetryable(at, maxAttempts) =>
      var yes := store.ResetRetryableNode(at.session, at.node, maxAttempts);
      a := WasReset(yes);
    case LoadPlan(session) => var plan := store.LoadPlan(session); a := Loaded(plan);
  }

  method ApplyMongo(store: MongoPlans, op: Op, ghost sessions: set<string>) returns (a: Answer)
    requires store.Valid() && (op.SavePlan? ==> op.plan.Valid())
    requires OnSession(op, sessions) && Apart(sessions, store.missionNodes)
    modifies store
    ensures store.Valid() && Apart(sessions, store.missionNodes)
    ensures (store.View(), a) == Apply(old(store.View()), op)
  {
    hide Save, Load, Recovered, Reset, Checkpointed, DocId, RowsOf, Keyed, Clashes, Separate;
    match op
    case SavePlan(session, plan) =>
      forall n ensures !Clashes(store.missionNodes, NodeKey(session, n)) {
        SeparateNeverClash(store.missionNodes, NodeKey(session, n), sessions);
      }
      var r := store.SavePlan(session, plan);
      a := Saved(r);
    case Checkpoint(at, status, summary, increment) =>
      SeparateNeverClash(store.missionNodes, at, sessions);
      store.CheckpointPlanNode(at.session, at.node, status, summary, increment);
      a := Done;
    case Recover(session) => var ids := store.RecoverInterruptedPlan(session); a := Fenced(ids);
    case ResetRetryable(at, maxAttempts) =>
      SeparateNeverClash(store.missionNodes, at, sessions);
      var yes := store.ResetRetryableNode(at.session, at.node, maxAttempts);
      a := WasReset(yes);
    case LoadPlan(session) => var plan := store.LoadPlan(session); a := Loaded(plan);
  }

  /**
    * Both stores, started alike and given the same sequence of saves, checkpoints, recoveries,
    * resets and loads on known sessions that are apart, give the same answers and hold the same plans and rows
    * throughout, namely those of the abstract store.
    */
  method RunBoth(sqlite: SqlitePlans, mongo: MongoPlans, ops: seq<Op>) returns (a: seq<Answer>, b: seq<Answer>)
    requires WellFormed(ops) && mongo.Valid() && mongo.View() == sqlite.View()
    requires forall i :: 0 <= i < |ops| ==> OnSession(ops[i], sqlite.sessions)
    requires Apart(sqlite.sessions, mongo.missionNodes)
    modifies sqlite, mongo
    ensures mongo.Valid() && mongo.View() == sqlite.View() == After(old(sqlite.View()), ops)
    ensures a == b == Answers(old(sqlite.View()), ops)
  {
    hide Apply, Keyed, RowsOf, OnSession, Apart;
    a, b := [], [];
    ghost var start := sqlite.View();
    for i := 0 to |ops|
      invariant mongo.Valid() && Apart(sqlite.sessions, mongo.missionNodes)
      invariant sqlite.sessions == old(sqlite.sessions)
      invariant WellFormed(ops[..i]) && mongo.View() == sqlite.View() == After(start, ops[..i])
      invariant a == b == Answers(start, ops[..i])
    {
      assert ops[..i + 1][..i] == ops[..i] && WellFormed(ops[..i + 1]);
      var x := ApplySqlite(sqlite, ops[i]);
      var y := ApplyMongo(mongo, ops[i], sqlite.sessions);
      a, b := a + [x], b + [y];
    }
    assert ops[..|ops|] == ops;
  }

  function OneNode(id: string): Plan {
    Plan([id], map[id := PlanNode("f", "", PENDING, "", "")])
  }

  lemma OneNodeSaves(st: Store, at: NodeKey)
    ensures OneNode(at.node).Valid()
    ensures Save(st, at.session, OneNode(at.node)).1.Ok?
    ensures at in Save(st, at.session, OneNode(at.node)).0.rows
  {
    var plan := OneNode(at.node);
    assert Fingerprinted(plan, 0) == 1;
    SavedRowAt(st.rows, at.session, plan, 1, at);
  }

  /**
    * The condition is exact: when one known session id runs on from another over a colon, there is a
    * plan for each such that of two empty stores SQLite saves both and Mongo refuses the second.
    */
  method RunOnSessionsDiffer(sqlite: SqlitePlans, mongo: MongoPlans, a: string, b: string)
    returns (x: Result<seq<string>>, y: Result<seq<string>>)
    requires mongo.Valid() && mongo.missionNodes == map[] && mongo.View() == sqlite.View()
    requires a in sqlite.sessions && b in sqlite.sessions && RunsOn(a, b)
    modifies sqlite, mongo
    ensures x.Ok? && y.Raised?
  {
    hide RowsOf, DocId, Save, Clashes;
    var (first, second) := (NodeKey(a, b[|a| + 1..] + ":" + "n"), NodeKey(b, "n"));
    OneNodeSaves(sqlite.View(), first);
    SharedByRunningOn(a, b);
    EmptyHasNoClash(mongo.missionNodes, a);
    x := sqlite.SavePlan(a, OneNode(first.node));
    y := mongo.SavePlan(a, OneNode(first.node));
    assert first in mongo.View().rows;
    HeldClashes(mongo.missionNodes, first, second);
    OneNodeSaves(sqlite.View(), second);
    x := sqlite.SavePlan(b, OneNode(second.node));
    y := mongo.SavePlan(b, OneNode(second.node));
  }

  lemma SharedByRunningOn(a: string, b: string)
    requires RunsOn(a, b)
    ensures DocId(NodeKey(a, b[|a| + 1..] + ":" + "n")) == DocId(NodeKey(b, "n"))
  {
    assert b == a + ":" + b[|a| + 1..];
  }

  lemma EmptyHasNoClash(docs: map<string, Doc>, session: string)
    requires docs == map[]
    ensures forall n :: !Clashes(docs, NodeKey(session, n))
  {}

  lemma HeldClashes(docs: map<string, Doc>, first: NodeKey, second: NodeKey)
    requires Keyed(docs) && first in RowsOf(docs) && DocId(first) == DocId(second) && first != second
    ensures Clashes(docs, second)
  {
    hide DocId;
    RowsAt(docs, first);
  }
}
