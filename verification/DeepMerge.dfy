/** Scoped JSON state: the recursive overlay merge and the scope fold built on it. */
module DeepMerge {
  /** A JSON value; the merge only distinguishes objects from everything else. */
  datatype Json = Obj(fields: Dict) | Text(text: string) | Arr(items: seq<Json>)

  type Dict = map<string, Json>

  datatype Found = Missing | Present(value: Json)

  /** What overlaying `o` on `b` means: `o` wins except where both are objects. */
  function Merge(b: Json, o: Json): Json
    decreases b
  {
    if b.Obj? && o.Obj? then
      Obj(map k | k in b.fields.Keys + o.fields.Keys ::
            if k !in o.fields then b.fields[k]
            else if k in b.fields then Merge(b.fields[k], o.fields[k])
            else o.fields[k])
    else o
  }

  function MergeDict(base: Dict, overlay: Dict): Dict {
    Merge(Obj(base), Obj(overlay)).fields
  }

  /** `deep_merge`: copy the base, then fold the overlay's items into the copy. */
  method DeepMerge(base: Dict, overlay: Dict) returns (result: Dict)
    ensures result == MergeDict(base, overlay)
    decreases Obj(base)
  {
    result := base;
    var todo := overlay.Keys;
    while todo != {}
      invariant todo <= overlay.Keys
      invariant result.Keys == base.Keys + (overlay.Keys - todo)
      invariant forall k | k in result ::
          result[k] == if k in overlay.Keys - todo then MergeDict(base, overlay)[k] else base[k]
      decreases todo
    {
      var key :| key in todo;
      var value := overlay[key];
      assert MergeDict(base, overlay)[key] ==
             if key in base then Merge(base[key], value) else value;
      if key in result && result[key].Obj? && value.Obj? {
        assert Obj(result[key].fields) == base[key];
        var merged := DeepMerge(result[key].fields, value.fields);
        result := result[key := Obj(merged)];
      } else {
        result := result[key := value];
      }
      todo := todo - {key};
    }
  }

  // ---- What the merge means, key path by key path ----

  /** The value reached by following a key path through nested objects. */
  function Lookup(j: Json, path: seq<string>): Found {
    if path == [] then Present(j)
    else if j.Obj? && path[0] in j.fields then Lookup(j.fields[path[0]], path[1..])
    else Missing
  }

  /** Some prefix of the path carries a non-object, so nothing below it exists. */
  predicate Blocks(j: Json, path: seq<string>) {
    if !j.Obj? then true
    else path != [] && path[0] in j.fields && Blocks(j.fields[path[0]], path[1..])
  }

  /** Every key path of a merge is decided by the overlay where the overlay reaches it with a
      non-object or cuts it off, and by the base where the overlay is silent. */
  lemma {:induction false} MergeLookup(b: Json, o: Json, path: seq<string>)
    requires b.Obj? && o.Obj?
    ensures Blocks(o, path) ==> Lookup(Merge(b, o), path) == Lookup(o, path)
    ensures Lookup(o, path).Missing? && !Blocks(o, path)
            ==> Lookup(Merge(b, o), path) == Lookup(b, path)
    ensures Lookup(o, path).Present? && Lookup(o, path).value.Obj?
            ==> Lookup(Merge(b, o), path) ==
                if Lookup(b, path).Present? && !Blocks(b, path)
                then Present(Merge(Lookup(b, path).value, Lookup(o, path).value))
                else Lookup(o, path)
    decreases path
  {
    if path != [] && path[0] in b.fields && path[0] in o.fields {
      var k := path[0];
      if b.fields[k].Obj? && o.fields[k].Obj? {
        MergeLookup(b.fields[k], o.fields[k], path[1..]);
      } else {
        assert Merge(b, o).fields[k] == o.fields[k];
        assert o.fields[k].Obj? || Blocks(o.fields[k], path[1..]);
        assert b.fields[k].Obj? || path[1..] == [] || Lookup(b.fields[k], path[1..]).Missing?;
        assert path[1..] != [] || Lookup(o.fields[k], path[1..]).Present?;
      }
    }
  }

  // ---- Algebra: when scopes may be regrouped ----

  /** A document merged over itself is itself. */
  lemma {:induction false} MergeIdempotent(a: Json)
    ensures Merge(a, a) == a
    decreases a
  {
    if a.Obj? {
      forall k | k in a.fields ensures Merge(a.fields[k], a.fields[k]) == a.fields[k] {
        MergeIdempotent(a.fields[k]);
      }
    }
  }

  /** Merging the same overlay a second time changes nothing. */
  lemma {:induction false} RemergeStable(a: Json, o: Json)
    ensures Merge(Merge(a, o), o) == Merge(a, o)
    decreases a
  {
    if a.Obj? && o.Obj? {
      forall k | k in o.fields
        ensures Merge(Merge(a, o).fields[k], o.fields[k]) == Merge(a, o).fields[k]
      {
        if k in a.fields { RemergeStable(a.fields[k], o.fields[k]); }
        else { MergeIdempotent(o.fields[k]); }
      }
    } else {
      MergeIdempotent(o);
    }
  }

  /** Every key of object `a` is also a key of object `c`, at every depth both share. */
  predicate Covered(a: Json, c: Json)
    decreases a
  {
    a.Obj? && c.Obj? ==>
      forall k | k in a.fields :: k in c.fields && Covered(a.fields[k], c.fields[k])
  }

  /** No key path holds object, non-object, object unless the last covers the first. */
  predicate Regroupable(a: Json, b: Json, c: Json)
    decreases a
  {
    if a.Obj? && b.Obj? && c.Obj? then
      forall k | k in a.fields && k in b.fields && k in c.fields ::
        Regroupable(a.fields[k], b.fields[k], c.fields[k])
    else if a.Obj? && c.Obj? then Covered(a, c)
    else true
  }

  /** An overlay absorbs a document exactly when it covers it. */
  lemma {:induction false} MergeAbsorbs(a: Json, c: Json)
    ensures Merge(a, c) == c <==> Covered(a, c)
    decreases a
  {
    if a.Obj? && c.Obj? {
      forall k | k in a.fields && k in c.fields
        ensures Merge(a.fields[k], c.fields[k]) == c.fields[k] <==> Covered(a.fields[k], c.fields[k])
      {
        MergeAbsorbs(a.fields[k], c.fields[k]);
      }
      if Merge(a, c) == c {
        forall k | k in a.fields ensures k in c.fields && Covered(a.fields[k], c.fields[k]) {
          assert k in Merge(a, c).fields;
        }
      }
      if Covered(a, c) {
        assert Merge(a, c).fields == c.fields;
      }
    }
  }

  /** Associativity, exactly: the two groupings agree iff the operands are regroupable. */
  lemma {:induction false} MergeAssociative(a: Json, b: Json, c: Json)
    ensures Merge(Merge(a, b), c) == Merge(a, Merge(b, c)) <==> Regroupable(a, b, c)
    decreases a
  {
    if a.Obj? && b.Obj? && c.Obj? {
      var l, r := Merge(Merge(a, b), c), Merge(a, Merge(b, c));
      forall k | k in l.fields
        ensures k in r.fields
        ensures l.fields[k] == r.fields[k] <==>
                (k in a.fields && k in b.fields && k in c.fields ==>
                   Regroupable(a.fields[k], b.fields[k], c.fields[k]))
      {
        if k in a.fields && k in b.fields && k in c.fields {
          MergeAssociative(a.fields[k], b.fields[k], c.fields[k]);
        }
      }
      assert l.fields.Keys == r.fields.Keys;
      if Regroupable(a, b, c) { assert l.fields == r.fields; }
      if l == r {
        forall k | k in a.fields && k in b.fields && k in c.fields
          ensures Regroupable(a.fields[k], b.fields[k], c.fields[k])
        { assert k in l.fields; }
      }
    } else if a.Obj? && c.Obj? {
      MergeAbsorbs(a, c);
    }
  }

  // ---- ScopedStore.read_merged ----

  function Fold(acc: Dict, scopes: seq<Dict>): Dict
    decreases |scopes|
  {
    if scopes == [] then acc else Fold(MergeDict(acc, scopes[0]), scopes[1..])
  }

  /** `read_merged`: fold the scopes, lowest precedence first, from the empty object. */
  method ReadMerged(scopes: seq<Dict>) returns (merged: Dict)
    ensures merged == Fold(map[], scopes)
  {
    merged := map[];
    for i := 0 to |scopes|
      invariant Fold(merged, scopes[i..]) == Fold(map[], scopes)
    {
      merged := DeepMerge(merged, scopes[i]);
    }
  }

  /** System, user and project may be merged pairwise from the right iff they are regroupable. */
  lemma ThreeScopesRegroup(system: Dict, user: Dict, project: Dict)
    ensures Fold(map[], [system, user, project]) == MergeDict(system, MergeDict(user, project))
            <==> Regroupable(Obj(system), Obj(user), Obj(project))
  {
    assert MergeDict(map[], system) == system;
    assert [system, user, project][1..] == [user, project];
    assert Fold(map[], [system, user, project]) == Fold(system, [user, project]);
    assert [user, project][1..] == [project];
    assert Fold(system, [user, project]) == Fold(MergeDict(system, user), [project]);
    var l := Merge(Merge(Obj(system), Obj(user)), Obj(project));
    assert Fold(MergeDict(system, user), [project]) == l.fields;
    MergeAssociative(Obj(system), Obj(user), Obj(project));
  }
}
