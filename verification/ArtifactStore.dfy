/**
  * Versioned artifacts with optimistic concurrency (src/decode/persistence/store.py:88-121, 752-814).
  * An update reads a record, computes its revision, and later writes it back only if the stored
  * version is still the one it read; any other client may act in between.
  */
module ArtifactStore {
  import opened Prelude
  import opened WordSplitting

  // ----- Records -----

  datatype Scope = Project | Session | User | Global | Unscoped

  datatype Owner = Owner(scope: Scope, project: Option<string>, session: Option<string>, user: Option<string>) {
    static predicate Named(owner: Option<string>) {
      owner.Some? && exists i :: 0 <= i < |owner.value| && !IsSpace(owner.value[i])
    }

    // The cross-field validator of an artifact scope.
    predicate Valid() {
      && (scope.Project? ==> Named(project))
      && (scope.Session? ==> Named(session))
      && (scope.User? ==> Named(user))
      && (scope.User? || scope.Global? || scope.Unscoped? ==> project.None? && session.None?)
      && (!scope.User? ==> user.None?)
      && (scope.Session? ==> project.None?)
    }

    // A query by owner compares the scope and only the identities it gives.
    predicate Sees(held: Owner) {
      && held.scope == scope
      && (project.Some? ==> held.project == project)
      && (session.Some? ==> held.session == session)
      && (user.Some? ==> held.user == user)
    }
  }

  datatype Content = Content(
    key: string, value: string, sensitive: bool, expiresAt: Option<int>, confidence: Option<real>)

  datatype Version = Version(content: Content, number: int, updatedAt: int)

  // The current version, and the earlier ones in the order they were replaced.
  datatype Record = Record(owner: Owner, kind: string, createdAt: int, head: Version, history: seq<Version>)

  datatype Expiry = Never | At(time: int) | NoTimezone

  datatype Changes = Changes(
    key: Option<string>, value: Option<string>, sensitive: Option<bool>,
    expiresAt: Option<Expiry>, confidence: Option<Option<real>>, unknownField: bool)

  function Or<T>(o: Option<T>, default: T): T {
    if o.Some? then o.value else default
  }

  // Content as changed, when it is valid.
  function Changed(c: Content, changes: Changes): Result<Content> {
    var confidence := Or(changes.confidence, c.confidence);
    if changes.unknownField || changes.expiresAt == Some(NoTimezone)
       || (confidence.Some? && !(0.0 <= confidence.value <= 1.0)) then Raised
    else Ok(Content(
      Or(changes.key, c.key), Or(changes.value, c.value), Or(changes.sensitive, c.sensitive),
      match changes.expiresAt { case Some(At(t)) => Some(t) case Some(Never) => None case _ => c.expiresAt },
      confidence))
  }

  /** `artifact_revision`: the record with a new head and the old head appended to its history. */
  function Revision(r: Record, changes: Changes, now: int): Result<Record> {
    match Changed(r.head.content, changes)
    case Raised => Raised
    case Ok(content) =>
      if r.head.content.sensitive && !content.sensitive then Raised
      else Ok(r.(head := Version(content, r.head.number + 1, now), history := r.history + [r.head]))
  }

  // ----- The two halves of an update, and the other operations -----

  type Table = map<string, Record>

  // An update that has read its record and computed the revision, but not yet written it.
  datatype Pending = Pending(id: string, expected: int, updated: Record)

  function Begun(table: Table, id: string, owner: Owner, expected: int, changes: Changes, now: int): Result<Pending> {
    if !owner.Valid() || id !in table || !owner.Sees(table[id].owner)
       || expected != table[id].head.number then Raised
    else
      match Revision(table[id], changes, now)
      case Raised => Raised
      case Ok(updated) => Ok(Pending(id, expected, updated))
  }

  predicate StillExpected(table: Table, p: Pending) {
    p.id in table && table[p.id].head.number == p.expected
  }

  function Written(table: Table, p: Pending): Table
    requires StillExpected(table, p)
  {
    table[p.id := table[p.id].(head := p.updated.head, history := p.updated.history)]
  }

  class ArtifactTable {
    var table: Table

    constructor ()
      ensures table == map[]
    {
      table := map[];
    }

    /** The read half of `update_artifact`; it changes nothing. */
    method Begin(id: string, owner: Owner, expected: int, changes: Changes, now: int) returns (r: Result<Pending>)
      ensures r == Begun(table, id, owner, expected, changes, now)
    {
      if !owner.Valid() {
        return Raised;
      }
      if id !in table || !owner.Sees(table[id].owner) {
        return Raised;
      }
      var record := table[id];
      if expected != record.head.number {
        return Raised;
      }
      var updated := Revision(record, changes, now);
      if updated.Raised? {
        return Raised;
      }
      r := Ok(Pending(id, expected, updated.value));
    }

    /** The write half of `update_artifact`: one conditional statement. */
    method Commit(p: Pending) returns (r: Result<int>)
      modifies this
      ensures r == if old(StillExpected(table, p)) then Ok(p.updated.head.number) else Raised
      ensures table == if old(StillExpected(table, p)) then Written(old(table), p) else old(table)
    {
      if p.id in table && table[p.id].head.number == p.expected {
        table := table[p.id := table[p.id].(head := p.updated.head, history := p.updated.history)];
        return Ok(p.updated.head.number);
      }
      return Raised;
    }

    method Delete(id: string, owner: Owner) returns (r: Result<bool>)
      modifies this
      ensures r == if !owner.Valid() then Raised else Ok(id in old(table) && owner.Sees(old(table)[id].owner))
      ensures table == if r == Ok(true) then old(table) - {id} else old(table)
    {
      if !owner.Valid() {
        return Raised;
      }
      if id !in table || !owner.Sees(table[id].owner) {
        return Ok(false);
      }
      table := table - {id};
      return Ok(true);
    }
  }

  // ----- Every interleaving of clients -----

  datatype Event =
    | Add(id: string, owner: Owner, kind: string, content: Content, now: int)
    | Begin(client: nat, id: string, owner: Owner, expected: int, changes: Changes, now: int)
    | Commit(client: nat)
    | Delete(id: string, owner: Owner)

  // `committed` lists, for every id ever used, the version added and then that of each
  // successful update, in order. The steps keep it; no operation reads it.
  datatype World = World(table: Table, pending: map<nat, Pending>, committed: map<string, seq<Version>>)

  // A new id is drawn at random; it is never one that was used before.
  ghost predicate Enabled(w: World, e: Event) {
    e.Add? ==> e.id !in w.committed && e.owner.Valid()
  }

  function Step(w: World, e: Event): World {
    match e
    case Add(id, owner, kind, content, now) =>
      w.(table := w.table[id := Record(owner, kind, now, Version(content, 1, now), [])],
         committed := w.committed[id := [Version(content, 1, now)]])
    case Begin(client, id, owner, expected, changes, now) =>
      (match Begun(w.table, id, owner, expected, changes, now)
       case Raised => w
       case Ok(p) => w.(pending := w.pending[client := p]))
    case Commit(client) =>
      if client !in w.pending then w else
      var p := w.pending[client];
      var done := w.(pending := w.pending - {client});
      if !StillExpected(w.table, p) then done
      else
        done.(table := Written(w.table, p), committed :=
          w.committed[p.id := (if p.id in w.committed then w.committed[p.id] else []) + [p.updated.head]])
    case Delete(id, owner) =>
      if id in w.table && owner.Valid() && owner.Sees(w.table[id].owner) then w.(table := w.table - {id}) else w
  }

  ghost predicate Run(w: World, events: seq<Event>, w': World)
    decreases |events|
  {
    if events == [] then w' == w
    else Enabled(w, events[0]) && Run(Step(w, events[0]), events[1..], w')
  }

  // ----- The invariant -----

  // Versions are numbered from 1, and none after a sensitive one is not sensitive.
  ghost predicate Numbered(log: seq<Version>) {
    && log != []
    && (forall k :: 0 <= k < |log| ==> log[k].number == k + 1)
    && (forall k :: 0 < k < |log| && log[k - 1].content.sensitive ==> log[k].content.sensitive)
  }

  ghost predicate Shows(r: Record, log: seq<Version>) {
    Numbered(log) && r.history + [r.head] == log
  }

  // The pending revision continues the first `expected` versions by one.
  ghost predicate Continues(p: Pending, log: seq<Version>) {
    1 <= p.expected <= |log| && Shows(p.updated, log[..p.expected] + [p.updated.head])
  }

  ghost predicate Inv(w: World) {
    && (forall id :: id in w.table ==> id in w.committed && Shows(w.table[id], w.committed[id]))
    && (forall c :: c in w.pending ==>
          w.pending[c].id in w.committed && Continues(w.pending[c], w.committed[w.pending[c].id]))
  }

  lemma BeginContinues(table: Table, id: string, owner: Owner, expected: int, changes: Changes, now: int,
      log: seq<Version>)
    requires id in table && Shows(table[id], log)
    requires Begun(table, id, owner, expected, changes, now).Ok?
    ensures Continues(Begun(table, id, owner, expected, changes, now).value, log)
  {
    hide Changed;
    var r := table[id];
    var u := Revision(r, changes, now).value;
    assert r.head == log[|log| - 1] by { assert (r.history + [r.head])[|log| - 1] == log[|log| - 1]; }
    assert expected == |log| && log[..expected] == log;
    assert u.history == log;
  }

  // A revision is written only over the very versions it continues.
  lemma CommitContinues(r: Record, p: Pending, log: seq<Version>)
    requires Shows(r, log) && Continues(p, log) && r.head.number == p.expected
    ensures p.updated.history == r.history + [r.head]
    ensures Shows(r.(head := p.updated.head, history := p.updated.history), log + [p.updated.head])
    ensures Numbered(log + [p.updated.head])
  {
    assert r.head == log[|log| - 1] by { assert (r.history + [r.head])[|log| - 1] == log[|log| - 1]; }
    assert log[..p.expected] == log;
    assert p.updated.history == log by {
      assert (p.updated.history + [p.updated.head])[..|log|] == (log + [p.updated.head])[..|log|];
    }
  }

  lemma StillContinues(p: Pending, log: seq<Version>, more: seq<Version>)
    requires Continues(p, log)
    ensures Continues(p, log + more)
  {
    assert (log + more)[..p.expected] == log[..p.expected];
  }

  lemma StepKeepsInv(w: World, e: Event)
    requires Inv(w) && Enabled(w, e)
    ensures Inv(Step(w, e))
  {
    hide Shows, Continues, Revision, Owner.Valid, Owner.Sees;
    var w' := Step(w, e);
    match e
    case Add(id, owner, kind, content, now) =>
      AddedShows(Record(owner, kind, now, Version(content, 1, now), []));
    case Begin(client, id, owner, expected, changes, now) =>
      if Begun(w.table, id, owner, expected, changes, now).Ok? {
        BeginContinues(w.table, id, owner, expected, changes, now, w.committed[id]);
      }
    case Commit(client) =>
      if client in w.pending && StillExpected(w.table, w.pending[client]) {
        var p := w.pending[client];
        CommitContinues(w.table[p.id], p, w.committed[p.id]);
        forall c | c in w'.pending && w'.pending[c].id == p.id ensures Continues(w'.pending[c], w'.committed[p.id]) {
          StillContinues(w.pending[c], w.committed[p.id], [p.updated.head]);
        }
      }
    case Delete(id, owner) =>
  }

  lemma AddedShows(r: Record)
    requires r.history == [] && r.head.number == 1
    ensures Shows(r, [r.head])
  {}

  lemma {:induction false} RunKeepsInv(w: World, events: seq<Event>, w': World)
    requires Inv(w) && Run(w, events, w')
    ensures Inv(w')
    decreases |events|
  {
    hide Inv, Step;
    if events != [] {
      StepKeepsInv(w, events[0]);
      RunKeepsInv(Step(w, events[0]), events[1..], w');
    }
  }

  // ----- What every run guarantees -----

  predicate Succeeds(w: World, e: Event, id: string) {
    e.Commit? && e.client in w.pending && w.pending[e.client].id == id && StillExpected(w.table, w.pending[e.client])
  }

  /** The number of updates of `id` that succeed along `events`. */
  function Successes(w: World, events: seq<Event>, id: string): nat
    decreases |events|
  {
    if events == [] then 0
    else (if Succeeds(w, events[0], id) then 1 else 0) + Successes(Step(w, events[0]), events[1..], id)
  }

  // From `r` to `r'` by `n` updates: same identity, `n` more versions, earlier ones untouched.
  ghost predicate Evolves(r: Record, r': Record, n: nat) {
    && r' == r.(head := r'.head, history := r'.history)
    && r'.head.number == r.head.number + n
    && r.history + [r.head] <= r'.history + [r'.head]
    && (r.head.content.sensitive ==> r'.head.content.sensitive)
  }

  lemma StepEvolves(w: World, e: Event, id: string)
    requires Inv(w) && Enabled(w, e) && id in w.committed
    ensures id in Step(w, e).committed
    ensures id in Step(w, e).table ==>
      id in w.table && Evolves(w.table[id], Step(w, e).table[id], if Succeeds(w, e, id) then 1 else 0)
  {
    hide Numbered, Revision, Owner.Valid, Owner.Sees;
    if Succeeds(w, e, id) {
      var p := w.pending[e.client];
      CommitContinues(w.table[id], p, w.committed[id]);
      LastTwo(w.committed[id], p.updated.head, w.table[id]);
    }
  }

  lemma LastTwo(log: seq<Version>, next: Version, r: Record)
    requires Numbered(log + [next]) && Shows(r, log)
    ensures next.number == r.head.number + 1
    ensures r.head.content.sensitive ==> next.content.sensitive
  {
    var all := log + [next];
    assert r.head == log[|log| - 1] by { assert (r.history + [r.head])[|log| - 1] == log[|log| - 1]; }
    assert all[|log| - 1] == r.head && all[|log|] == next;
  }

  /**
    * Along every interleaving of adds, reads, writes and deletes, an artifact still there at the
    * end was there all along, keeps its identity, gained one version per successful update, keeps
    * every earlier version as it was, and stays sensitive once it is.
    */
  lemma {:induction false} RunEvolves(w: World, events: seq<Event>, w': World, id: string)
    requires Inv(w) && Run(w, events, w') && id in w.committed && id in w'.table
    ensures id in w.table && Evolves(w.table[id], w'.table[id], Successes(w, events, id))
    decreases |events|
  {
    hide Inv, Step, Succeeds;
    if events != [] {
      StepKeepsInv(w, events[0]);
      StepEvolves(w, events[0], id);
      RunEvolves(Step(w, events[0]), events[1..], w', id);
    }
  }

  /**
    * No lost update: in every reachable state the version of an artifact is one plus the number of
    * its successful updates, its history lists versions 1 to version - 1 in order, each with the
    * content committed then, and no version after a sensitive one is not sensitive.
    */
  lemma {:induction false} NoLostUpdate(w: World, events: seq<Event>, w': World, id: string)
    requires Inv(w) && Run(w, events, w') && id !in w.committed && id in w'.table
    ensures Inv(w')
    ensures w'.table[id].head.number == 1 + Successes(w, events, id)
    ensures w'.table[id].history + [w'.table[id].head] == w'.committed[id] && Numbered(w'.committed[id])
    decreases |events|
  {
    hide Step, Numbered, Run, Successes;
    RunKeepsInv(w, events, w');
    UnfoldRun(w, events, w', id);
    var w1 := Step(w, events[0]);
    StepKeepsInv(w, events[0]);
    if id in w1.committed {
      AddedFresh(w, events[0], id);
      RunEvolves(w1, events[1..], w', id);
    } else {
      NoLostUpdate(w1, events[1..], w', id);
    }
  }

  lemma UnfoldRun(w: World, events: seq<Event>, w': World, id: string)
    requires Inv(w) && Run(w, events, w') && id !in w.committed && id in w'.table
    ensures events != [] && Enabled(w, events[0]) && Run(Step(w, events[0]), events[1..], w')
    ensures Successes(w, events, id) == Successes(Step(w, events[0]), events[1..], id)
  {
    hide Step, Numbered, Shows, Continues;
  }

  lemma AddedFresh(w: World, e: Event, id: string)
    requires Inv(w) && id !in w.committed && id in Step(w, e).committed
    ensures id in Step(w, e).table && Step(w, e).table[id].head.number == 1
  {
    hide Shows, Continues;
  }

  /** Of the updates begun at one version of an artifact at most one ever succeeds. */
  lemma RaceHasOneWinner(w: World, c: nat, events: seq<Event>, w': World, rival: Pending)
    requires Inv(w) && c in w.pending && StillExpected(w.table, w.pending[c])
    requires Run(Step(w, Commit(c)), events, w')
    requires rival.id == w.pending[c].id && rival.expected == w.pending[c].expected
    ensures !StillExpected(w'.table, rival)
  {
    hide Numbered, Shows, Continues, Run, Successes;
    StepKeepsInv(w, Commit(c));
    StepEvolves(w, Commit(c), rival.id);
    if rival.id in w'.table {
      RunEvolves(Step(w, Commit(c)), events, w', rival.id);
    }
  }

  // ----- Every version is as somebody asked -----

  /** The new content has what the changes name, and of the old what they do not. */
  ghost predicate AsAsked(ch: Changes, earlier: Content, later: Content) {
    && (forall key | ch.key == Some(key) :: later.key == key) && (ch.key == None ==> later.key == earlier.key)
    && (forall value | ch.value == Some(value) :: later.value == value)
    && (ch.value == None ==> later.value == earlier.value)
    && (ch.sensitive == Some(true) ==> later.sensitive) && (ch.sensitive == Some(false) ==> !later.sensitive)
    && (ch.sensitive == None ==> later.sensitive == earlier.sensitive)
    && (forall t | ch.expiresAt == Some(At(t)) :: later.expiresAt == Some(t))
    && (ch.expiresAt == Some(Never) ==> later.expiresAt == None)
    && (ch.expiresAt == None ==> later.expiresAt == earlier.expiresAt)
    && (forall c | ch.confidence == Some(c) :: later.confidence == c)
    && (ch.confidence == None ==> later.confidence == earlier.confidence)
  }

  /** The owner named in a request is the one the record belongs to. */
  predicate Entitled(owner: Owner, held: Owner) {
    && owner.scope == held.scope
    && (owner.scope == Project ==> owner.project.Some? && owner.project == held.project)
    && (owner.scope == Session ==> owner.session.Some? && owner.session == held.session)
    && (owner.scope == User ==> owner.user.Some? && owner.user == held.user)
  }

  /** The identities an owner may name, scope by scope. */
  lemma OwnerMeans(owner: Owner)
    ensures owner.Valid() <==>
      match owner.scope
      case Project => Owner.Named(owner.project) && owner.user == None
      case Session => Owner.Named(owner.session) && owner.project == None && owner.user == None
      case User => Owner.Named(owner.user) && owner.project == None && owner.session == None
      case _ => owner.project == None && owner.session == None && owner.user == None
  {
    hide Owner.Named;
    assert !Owner.Named(None) by { NobodyIsNamed(); }
  }

  lemma NobodyIsNamed()
    ensures !Owner.Named(None)
  {}

  /** A valid owner finds exactly its own records: those of its project, its session or its user,
      or of everybody's scope; a project's, moreover, of one session where it names one. */
  lemma SeesMeans(owner: Owner, held: Owner)
    requires owner.Valid()
    ensures owner.Sees(held) <==>
      Entitled(owner, held) && (owner.scope == Project && owner.session.Some? ==> held.session == owner.session)
  {}

  /** An update can be begun exactly by the owner, at the present version, with changes that name
      only known fields, a time zone and a confidence between 0 and 1, and that keep a secret one. */
  lemma BegunIff(table: Table, id: string, owner: Owner, expected: int, changes: Changes, now: int)
    ensures Begun(table, id, owner, expected, changes, now).Ok? <==>
      && owner.Valid() && id in table && owner.Sees(table[id].owner) && table[id].head.number == expected
      && !changes.unknownField && changes.expiresAt != Some(NoTimezone)
      && (changes.confidence != None && changes.confidence.value != None ==>
            0.0 <= changes.confidence.value.value <= 1.0)
      && (changes.confidence == None && table[id].head.content.confidence != None ==>
            0.0 <= table[id].head.content.confidence.value <= 1.0)
      && (table[id].head.content.sensitive ==> changes.sensitive != Some(false))
  {
    hide Owner.Valid, Owner.Sees;
  }

  /** What a begun update holds: the record as it was read, with one more version, as asked. */
  lemma BegunMeans(table: Table, id: string, owner: Owner, expected: int, changes: Changes, now: int, p: Pending)
    requires Begun(table, id, owner, expected, changes, now) == Ok(p)
    ensures p.id == id && p.expected == expected
    ensures id in table && Entitled(owner, table[id].owner) && table[id].head.number == expected
    ensures p.updated == table[id].(head := p.updated.head, history := table[id].history + [table[id].head])
    ensures p.updated.head.number == expected + 1 && p.updated.head.updatedAt == now
    ensures AsAsked(changes, table[id].head.content, p.updated.head.content)
  {}

  /** The event asked for the step from one version to the next. */
  ghost predicate AskedFor(e: Event, id: string, held: Owner, before: Version, after: Version) {
    && e.Begin? && e.id == id && e.expected == before.number && Entitled(e.owner, held)
    && after.updatedAt == e.now && AsAsked(e.changes, before.content, after.content)
  }

  ghost predicate Explains(past: seq<Event>, id: string, held: Owner, before: Version, after: Version) {
    exists e :: e in past && AskedFor(e, id, held, before, after)
  }

  ghost predicate Added(past: seq<Event>, id: string, r: Record, first: Version) {
    exists e :: e in past && e.Add? && e.id == id && e.owner == r.owner && e.kind == r.kind && e.now == r.createdAt
                && first == Version(e.content, 1, e.now)
  }

  /** The record was added as its first version says, and each later version was asked for. */
  ghost predicate Accounted(past: seq<Event>, id: string, r: Record) {
    && Added(past, id, r, (r.history + [r.head])[0])
    && forall k :: 0 <= k < |r.history| ==> Explains(past, id, r.owner, r.history[k], (r.history + [r.head])[k + 1])
  }

  // The pending revision is asked for, of the record it was read from.
  ghost predicate Justified(past: seq<Event>, p: Pending, table: Table) {
    && p.updated.history != []
    && Explains(past, p.id, p.updated.owner, p.updated.history[|p.updated.history| - 1], p.updated.head)
    && (p.id in table ==> table[p.id].owner == p.updated.owner)
  }

  ghost predicate Explained(w: World, past: seq<Event>) {
    && (forall id :: id in w.table ==> Accounted(past, id, w.table[id]))
    && (forall c :: c in w.pending ==> Justified(past, w.pending[c], w.table))
  }

  lemma MorePast(past: seq<Event>, e: Event, id: string, r: Record)
    requires Accounted(past, id, r)
    ensures Accounted(past + [e], id, r)
  {
    hide AskedFor;
    forall x | x in past ensures x in past + [e] {}
  }

  lemma MoreJustified(past: seq<Event>, e: Event, p: Pending, table: Table, table': Table)
    requires Justified(past, p, table)
    requires p.id in table' ==> p.id in table && table'[p.id].owner == table[p.id].owner
    ensures Justified(past + [e], p, table')
  {
    hide AskedFor;
    forall x | x in past ensures x in past + [e] {}
  }

  lemma AddExplains(past: seq<Event>, e: Event)
    requires e.Add?
    ensures Accounted(past + [e], e.id, Record(e.owner, e.kind, e.now, Version(e.content, 1, e.now), []))
  {
    assert (past + [e])[|past|] == e;
  }

  lemma BeginExplains(past: seq<Event>, e: Event, table: Table, p: Pending)
    requires e.Begin? && Begun(table, e.id, e.owner, e.expected, e.changes, e.now) == Ok(p)
    ensures Justified(past + [e], p, table)
  {
    hide AsAsked, Entitled;
    BegunMeans(table, e.id, e.owner, e.expected, e.changes, e.now, p);
    assert (past + [e])[|past|] == e;
    assert p.updated.history[|p.updated.history| - 1] == table[p.id].head;
    assert AskedFor(e, p.id, p.updated.owner, table[p.id].head, p.updated.head);
  }

  lemma CommitExplains(past: seq<Event>, id: string, r: Record, p: Pending, table: Table)
    requires Accounted(past, id, r) && Justified(past, p, table) && p.id == id && id in table && table[id] == r
    requires p.updated.history == r.history + [r.head]
    ensures Accounted(past, id, r.(head := p.updated.head, history := p.updated.history))
  {
    hide AskedFor;
    var r' := r.(head := p.updated.head, history := p.updated.history);
    assert (r'.history + [r'.head])[0] == (r.history + [r.head])[0];
    forall k | 0 <= k < |r'.history|
      ensures Explains(past, id, r.owner, r'.history[k], (r'.history + [r'.head])[k + 1])
    {
      if k < |r.history| {
        assert r'.history[k] == r.history[k] && (r'.history + [r'.head])[k + 1] == (r.history + [r.head])[k + 1];
      }
    }
  }

  lemma StepExplains(w: World, past: seq<Event>, e: Event)
    requires Inv(w) && Enabled(w, e) && Explained(w, past)
    ensures Explained(Step(w, e), past + [e])
  {
    hide Accounted, Justified, Shows, Continues, Revision, Owner.Valid, Owner.Sees;
    var w' := Step(w, e);
    forall id | id in w'.table ensures Accounted(past + [e], id, w'.table[id]) {
      if id in w.table && w'.table[id] == w.table[id] {
        MorePast(past, e, id, w.table[id]);
      } else if e.Add? {
        AddExplains(past, e);
      } else {
        var p := w.pending[e.client];
        CommitContinues(w.table[id], p, w.committed[id]);
        CommitExplains(past, id, w.table[id], p, w.table);
        MorePast(past, e, id, w'.table[id]);
      }
    }
    forall c | c in w'.pending ensures Justified(past + [e], w'.pending[c], w'.table) {
      if c in w.pending && w'.pending[c] == w.pending[c] {
        MoreJustified(past, e, w.pending[c], w.table, w'.table);
      } else {
        BeginExplains(past, e, w.table, w'.pending[c]);
      }
    }
  }

  lemma {:induction false} RunExplains(w: World, past: seq<Event>, events: seq<Event>, w': World)
    requires Inv(w) && Explained(w, past) && Run(w, events, w')
    ensures Explained(w', past + events)
    decreases |events|
  {
    hide Inv, Step, Explained;
    if events == [] {
      assert past + events == past;
    } else {
      StepKeepsInv(w, events[0]);
      StepExplains(w, past, events[0]);
      RunExplains(Step(w, events[0]), past + [events[0]], events[1..], w');
      assert past + [events[0]] + events[1..] == past + events;
    }
  }

  /** In every run from an empty table each artifact was added as its first version says, and each
      later version differs from the one before exactly as one update asked, begun at that version
      by the artifact's own owner. */
  lemma VersionsAreAsked(events: seq<Event>, w': World, id: string)
    requires Run(World(map[], map[], map[]), events, w') && id in w'.table
    ensures Accounted(events, id, w'.table[id])
  {
    hide Run, Accounted;
    var w := World(map[], map[], map[]);
    RunExplains(w, [], events, w');
    assert [] + events == events;
  }

  // ----- Rendering -----

  const REDACTED := "[REDACTED]"

  function Masked(v: Version): Version {
    v.(content := v.content.(key := REDACTED, value := REDACTED))
  }

  function RenderVersion(v: Version, includeSensitive: bool): Version {
    if !includeSensitive && v.content.sensitive then Masked(v) else v
  }

  function MarkSensitive(v: Version): Version {
    v.(content := v.content.(sensitive := true))
  }

  /** `render_artifact`: a sensitive head marks every earlier version sensitive before it is shown. */
  function Render(r: Record, includeSensitive: bool): Record {
    var secret := !includeSensitive && r.head.content.sensitive;
    r.(head := RenderVersion(r.head, includeSensitive),
       history := seq(|r.history|, i requires 0 <= i < |r.history| =>
         RenderVersion(if secret then MarkSensitive(r.history[i]) else r.history[i], includeSensitive)))
  }

  // Versions that differ at most in key, value and sensitivity.
  predicate SameButSecret(v: Version, v': Version) {
    MarkSensitive(Masked(v)) == MarkSensitive(Masked(v'))
  }

  /**
    * In every reachable state an export without sensitive data shows an artifact either whole or
    * with the key and value of every version, earlier ones included, masked: whole exactly when no
    * version of it was ever sensitive.
    */
  lemma RenderAllOrNothing(w: World, id: string)
    requires Inv(w) && id in w.table
    ensures var (r, shown) := (w.table[id], Render(w.table[id], false));
      if forall v :: v in w.committed[id] ==> !v.content.sensitive then shown == r
      else r.head.content.sensitive && forall v :: v in shown.history + [shown.head] ==>
             v.content.key == REDACTED && v.content.value == REDACTED && v.content.sensitive
  {
    hide Continues, Render;
    if forall v :: v in w.committed[id] ==> !v.content.sensitive {
      PlainIsShown(w.table[id], w.committed[id]);
    } else {
      SensitiveIsMasked(w.table[id], w.committed[id]);
    }
  }

  lemma PlainIsShown(r: Record, log: seq<Version>)
    requires Shows(r, log) && forall v :: v in log ==> !v.content.sensitive
    ensures Render(r, false) == r
  {
    assert forall v :: v in r.history + [r.head] ==> !v.content.sensitive;
    assert r.head in r.history + [r.head];
    assert forall k :: 0 <= k < |r.history| ==> r.history[k] in r.history + [r.head];
    assert Render(r, false).history == r.history;
  }

  lemma SensitiveIsMasked(r: Record, log: seq<Version>)
    requires Shows(r, log) && exists v :: v in log && v.content.sensitive
    ensures r.head.content.sensitive
    ensures forall v :: v in Render(r, false).history + [Render(r, false).head] ==>
             v.content.key == REDACTED && v.content.value == REDACTED && v.content.sensitive
  {
    var v :| v in log && v.content.sensitive;
    var k :| 0 <= k < |log| && log[k] == v;
    SensitiveOnwards(log, k, |log| - 1);
    assert log[|log| - 1] == r.head;
  }

  lemma {:induction false} SensitiveOnwards(log: seq<Version>, k: nat, l: nat)
    requires Numbered(log) && k <= l < |log| && log[k].content.sensitive
    ensures log[l].content.sensitive
    decreases l
  {
    if k < l {
      SensitiveOnwards(log, k, l - 1);
    }
  }

  /** An export with sensitive data shows every artifact as it is; one without shows at least all
      that is neither key nor value nor sensitivity of a version. */
  lemma RenderKeeps(r: Record)
    ensures Render(r, true) == r
    ensures var shown := Render(r, false);
      && shown == r.(head := shown.head, history := shown.history) && |shown.history| == |r.history|
      && SameButSecret(shown.head, r.head)
      && forall i :: 0 <= i < |r.history| ==> SameButSecret(shown.history[i], r.history[i])
  {
    assert Render(r, true).history == r.history;
  }

  /** What a sensitive artifact renders to does not depend on any key, value or earlier sensitivity. */
  lemma RenderHidesSecrets(r: Record, r': Record)
    requires r.head.content.sensitive && r'.head.content.sensitive
    requires r' == r.(head := r'.head, history := r'.history)
    requires SameButSecret(r.head, r'.head) && |r.history| == |r'.history|
    requires forall i :: 0 <= i < |r.history| ==> SameButSecret(r.history[i], r'.history[i])
    ensures Render(r, false) == Render(r', false)
  {
    assert Render(r, false).history == Render(r', false).history;
  }
}
