/**
  * Policy-aware model routing (src/decode/models/routing.py): hard filters, a total ranking, and a
  * fallback chain that looks its pool up again at every step from the models already tried.
  */
module ModelRouting {
  import opened Prelude

  // Quality scores and prices are reals; strings are ordered by code point.
  datatype Spec = Spec(
    id: string, provider: string, capabilities: seq<string>,
    maxClassification: string, locality: string, contextLimit: int,
    inputCost: real, latencyClass: string, quality: map<string, real>,
    available: bool, rateLimited: bool, group: string)

  datatype Request = Request(
    taskClass: string, required: seq<string>, classification: string, localOnly: bool,
    allowlist: seq<string>, maxContext: int, qualityThreshold: real,
    deadline: string, costBudget: real, pinned: string, allowFallback: bool)

  datatype Rule = Rule(
    name: string, whenTask: string, whenClassification: string,
    requireLocality: string, requireCapabilities: seq<string>)

  datatype Decision = Decision(
    modelId: string, selected: bool, matched: seq<string>,
    candidates: seq<string>, tried: seq<string>)

  const NOT_SELECTED := Decision("", false, [], [], [])

  // ----- The ranking key -----

  predicate TextBefore(a: string, b: string) {
    b != [] && (a == [] || a[0] < b[0] || (a[0] == b[0] && TextBefore(a[1..], b[1..])))
  }

  lemma {:induction false} TextOrder(a: string, b: string, c: string)
    ensures !TextBefore(a, a)
    ensures a == b || TextBefore(a, b) || TextBefore(b, a)
    ensures TextBefore(a, b) && TextBefore(b, c) ==> TextBefore(a, c)
    decreases |a| + |b| + |c|
  {
    if a != [] {
      TextOrder(a[1..], if b == [] then [] else b[1..], if c == [] then [] else c[1..]);
      if b != [] && a[0] == b[0] && a[1..] == b[1..] {
        assert a == [a[0]] + a[1..] && b == [b[0]] + b[1..];
      }
    }
  }

  /** The text order is decided at the first difference; a proper beginning goes first. */
  lemma {:induction false} TextBeforeMeans(a: string, b: string, k: nat)
    requires k <= |a| && k <= |b| && a[..k] == b[..k] && (k < |a| && k < |b| ==> a[k] != b[k])
    ensures TextBefore(a, b) <==> k < |b| && (k == |a| || a[k] < b[k])
  {
    if k > 0 {
      assert a[0] == a[..k][0] && b[0] == b[..k][0];
      assert a[1..][..k - 1] == a[..k][1..] && b[1..][..k - 1] == b[..k][1..];
      TextBeforeMeans(a[1..], b[1..], k - 1);
    }
  }

  function LatencyRank(class_: string): nat {
    if class_ == "fast" then 0 else if class_ == "slow" then 2 else 1
  }

  function Quality(spec: Spec, task: string): real {
    if task in spec.quality then spec.quality[task] else 0.0
  }

  // Better quality first, then lower latency, then lower price, then the smaller id.
  predicate Before(a: Spec, b: Spec, task: string) {
    var (qa, qb) := (Quality(a, task), Quality(b, task));
    var (la, lb) := (LatencyRank(a.latencyClass), LatencyRank(b.latencyClass));
    qa > qb || (qa == qb && (la < lb || (la == lb &&
      (a.inputCost < b.inputCost || (a.inputCost == b.inputCost && TextBefore(a.id, b.id))))))
  }

  lemma RankOrder(a: Spec, b: Spec, c: Spec, task: string)
    ensures !Before(a, a, task)
    ensures a.id == b.id || Before(a, b, task) || Before(b, a, task)
    ensures Before(a, b, task) && Before(b, c, task) ==> Before(a, c, task)
  {
    hide TextBefore, LatencyRank, Quality;
    TextOrder(a.id, b.id, c.id);
  }

  predicate Faster(a: string, b: string) {
    (a == "fast" && b != "fast") || (a != "slow" && b == "slow")
  }

  /** Which of two models ranks first, from the first of quality, latency class, price and id in
      which they differ; a class of unknown name is as fast as a standard one, and a model without
      a score for the task has none. */
  lemma RankMeans(a: Spec, b: Spec, task: string)
    ensures var (qa, qb) := (if task in a.quality then a.quality[task] else 0.0,
                             if task in b.quality then b.quality[task] else 0.0);
      && (qa > qb ==> Before(a, b, task) && !Before(b, a, task))
      && (qa == qb && Faster(a.latencyClass, b.latencyClass) ==> Before(a, b, task) && !Before(b, a, task))
      && (qa == qb && !Faster(a.latencyClass, b.latencyClass) && !Faster(b.latencyClass, a.latencyClass) ==>
            && (a.inputCost < b.inputCost ==> Before(a, b, task) && !Before(b, a, task))
            && (a.inputCost == b.inputCost ==> (Before(a, b, task) <==> TextBefore(a.id, b.id))))
  {
    hide TextBefore;
  }

  // ----- The registry -----

  ghost predicate DistinctIds(specs: seq<Spec>) {
    forall i, j :: 0 <= i < j < |specs| ==> specs[i].id != specs[j].id
  }

  function Get(registry: seq<Spec>, id: string): (r: Option<Spec>)
    ensures r.Some? ==> r.value in registry && r.value.id == id
    ensures r.None? ==> forall s :: s in registry ==> s.id != id
  {
    if registry == [] then None
    else if registry[0].id == id then Some(registry[0])
    else Get(registry[1..], id)
  }

  lemma GetFinds(registry: seq<Spec>, s: Spec)
    requires DistinctIds(registry) && s in registry
    ensures Get(registry, s.id) == Some(s)
  {
    var found := Get(registry, s.id);
    var i :| 0 <= i < |registry| && registry[i] == s;
    var j :| 0 <= j < |registry| && registry[j] == found.value;
    assert !(i < j) && !(j < i);
  }

  predicate InGroup(spec: Spec, group: string) {
    group != "" && spec.group == group
  }

  // ----- Hard filters -----

  function ClassificationRank(c: string): Option<nat> {
    match c
    case "public" => Some(0)
    case "internal" => Some(1)
    case "confidential" => Some(2)
    case "restricted" => Some(3)
    case _ => None
  }

  predicate Reachable(spec: Spec, request: Request) {
    spec.available && !spec.rateLimited &&
    (request.allowlist == [] || spec.id in request.allowlist || spec.provider in request.allowlist)
  }

  predicate Covers(spec: Spec, required: seq<string>) {
    forall c :: c in required ==> c in spec.capabilities
  }

  predicate WithinLimits(spec: Spec, request: Request) {
    && (request.maxContext != 0 ==> spec.contextLimit >= request.maxContext)
    && (request.qualityThreshold != 0.0 ==> Quality(spec, request.taskClass) >= request.qualityThreshold)
    && (request.deadline != "" ==> LatencyRank(spec.latencyClass) <= LatencyRank(request.deadline))
    && (request.costBudget != 0.0 ==> spec.inputCost <= request.costBudget)
  }

  // The classification of a model that is reachable is compared first, and an unknown name on
  // either side is an error; every later filter only answers yes or no.
  function Passes(spec: Spec, request: Request): Result<bool> {
    if !Reachable(spec, request) then Ok(false) else
    var wanted, held := ClassificationRank(request.classification), ClassificationRank(spec.maxClassification);
    if wanted.None? || held.None? then Raised else
    Ok(wanted.value <= held.value
       && (request.localOnly ==> spec.locality == "local")
       && Covers(spec, request.required)
       && WithinLimits(spec, request))
  }

  // ----- What the filters demand -----

  /** Data of class `wanted` may be given to a model cleared up to `held`. */
  predicate MayReceive(held: string, wanted: string) {
    && (wanted == "public" || wanted == "internal" || wanted == "confidential" || wanted == "restricted")
    && (wanted == "restricted" ==> held == "restricted")
    && (wanted == "confidential" ==> held == "restricted" || held == "confidential")
    && (wanted == "internal" ==> held == "restricted" || held == "confidential" || held == "internal")
    && (wanted == "public" ==>
          held == "restricted" || held == "confidential" || held == "internal" || held == "public")
  }

  /** The model answers within the deadline: a fast one asks for a fast model, a slow one for any,
      and any other for one that is not slow. */
  predicate InTime(latencyClass: string, deadline: string) {
    && (deadline == "fast" ==> latencyClass == "fast")
    && (deadline != "" && deadline != "fast" && deadline != "slow" ==> latencyClass != "slow")
  }

  /** The model may serve the request: it can be reached, is allowed, is cleared for the data, stays
      local where that is asked for, has every capability, and is within every limit that is set. */
  predicate Serves(s: Spec, request: Request) {
    && s.available && !s.rateLimited
    && (request.allowlist != [] ==> s.id in request.allowlist || s.provider in request.allowlist)
    && MayReceive(s.maxClassification, request.classification)
    && (request.localOnly ==> s.locality == "local")
    && (forall c | c in request.required :: c in s.capabilities)
    && (request.maxContext != 0 ==> request.maxContext <= s.contextLimit)
    && (request.qualityThreshold != 0.0 ==>
          request.qualityThreshold <= if request.taskClass in s.quality then s.quality[request.taskClass] else 0.0)
    && InTime(s.latencyClass, request.deadline)
    && (request.costBudget != 0.0 ==> s.inputCost <= request.costBudget)
  }

  predicate IsClass(c: string) {
    c == "public" || c == "internal" || c == "confidential" || c == "restricted"
  }

  /** The model can be reached and is allowed, but one of the two data classes has no known name. */
  predicate Incomparable(s: Spec, request: Request) {
    && s.available && !s.rateLimited
    && (request.allowlist != [] ==> s.id in request.allowlist || s.provider in request.allowlist)
    && !(IsClass(s.maxClassification) && IsClass(request.classification))
  }

  /** A model passes exactly when it may serve the request, and the filters raise exactly when it
      cannot be compared. */
  lemma PassesMeans(s: Spec, request: Request)
    ensures Passes(s, request) == Ok(true) <==> Serves(s, request)
    ensures Passes(s, request).Raised? <==> Incomparable(s, request)
  {}

  lemma AllPassesMean(request: Request)
    ensures forall s :: Passes(s, request) == Ok(true) <==> Serves(s, request)
    ensures forall s :: Passes(s, request).Raised? <==> Incomparable(s, request)
  {
    hide Passes, Serves, Incomparable;
    forall s
      ensures Passes(s, request) == Ok(true) <==> Serves(s, request)
      ensures Passes(s, request).Raised? <==> Incomparable(s, request)
    {
      PassesMeans(s, request);
    }
  }

  // ----- The fallback pool -----

  function Insert(x: Spec, s: seq<Spec>, task: string): (r: seq<Spec>)
    ensures multiset(r) == multiset(s) + multiset{x}
  {
    if s == [] then [x]
    else if Before(s[0], x, task) then
      assert s == [s[0]] + s[1..];
      [s[0]] + Insert(x, s[1..], task)
    else [x] + s
  }

  /** A stable sort by the ranking key. */
  function Ranked(s: seq<Spec>, task: string): (r: seq<Spec>)
    ensures multiset(r) == multiset(s)
  {
    if s == [] then []
    else
      assert s == [s[0]] + s[1..];
      Insert(s[0], Ranked(s[1..], task), task)
  }

  ghost predicate InRankOrder(s: seq<Spec>, task: string) {
    forall i, j :: 0 <= i < j < |s| ==> Before(s[i], s[j], task)
  }

  lemma {:induction false} InsertKeepsOrder(x: Spec, s: seq<Spec>, task: string)
    requires InRankOrder(s, task) && forall y :: y in s ==> y.id != x.id
    ensures InRankOrder(Insert(x, s, task), task)
  {
    hide Before;
    if s != [] {
      var r := Insert(x, s, task);
      RankOrder(x, s[0], x, task);
      if Before(s[0], x, task) {
        InsertKeepsOrder(x, s[1..], task);
        var rest := Insert(x, s[1..], task);
        forall j | 0 <= j < |rest| ensures Before(s[0], rest[j], task) {
          assert rest[j] in multiset(rest);
          assert rest[j] == x || rest[j] in s[1..];
        }
      } else {
        forall j | 1 <= j < |r| ensures Before(x, r[j], task) {
          RankOrder(x, s[0], s[j - 1], task);
        }
      }
    }
  }

  lemma {:induction false} RankedInOrder(s: seq<Spec>, task: string)
    requires DistinctIds(s)
    ensures InRankOrder(Ranked(s, task), task)
  {
    hide Before, Insert;
    if s != [] {
      RankedInOrder(s[1..], task);
      var rest := Ranked(s[1..], task);
      forall y | y in rest ensures y.id != s[0].id {
        assert y in multiset(rest);
        assert y in s[1..];
      }
      InsertKeepsOrder(s[0], rest, task);
    }
  }

  lemma TailOf(p: seq<Spec>, task: string)
    requires InRankOrder(p, task) && p != []
    ensures InRankOrder(p[1..], task)
    ensures forall s :: s in p[1..] <==> s in p && s != p[0]
  {
    hide Before;
    RankOrder(p[0], p[0], p[0], task);
    assert p == [p[0]] + p[1..];
    forall s | s in p[1..] ensures s != p[0] {
      assert Before(p[0], s, task);
    }
  }

  /** Two lists in strict rank order with the same members are one list. */
  lemma {:induction false} RankOrderIsUnique(a: seq<Spec>, b: seq<Spec>, task: string)
    requires InRankOrder(a, task) && InRankOrder(b, task)
    requires forall x :: x in a <==> x in b
    ensures a == b
  {
    hide Before;
    assert a != [] ==> a[0] in b;
    assert b != [] ==> b[0] in a;
    if a != [] && b != [] {
      if a[0] != b[0] {
        var i :| 0 < i < |b| && b[i] == a[0] by { assert a[0] in b; }
        var j :| 0 < j < |a| && a[j] == b[0] by { assert b[0] in a; }
        RankOrder(a[0], b[0], a[0], task);
        assert false;
      }
      TailOf(a, task);
      TailOf(b, task);
      RankOrderIsUnique(a[1..], b[1..], task);
      assert a == [a[0]] + a[1..] && b == [b[0]] + b[1..];
    }
  }

  // Same non-empty fallback group, same locality, not tried yet.
  predicate Candidate(s: Spec, current: Spec, tried: seq<string>) {
    InGroup(s, current.group) && s.id !in tried && s.locality == current.locality
  }

  function Eligible(registry: seq<Spec>, current: Spec, request: Request, tried: seq<string>): Result<seq<Spec>>
    decreases |registry|
  {
    if registry == [] then Ok([])
    else
      var (s, before) := (registry[|registry| - 1], Eligible(registry[..|registry| - 1], current, request, tried));
      if before.Raised? || !Candidate(s, current, tried) then before
      else
        match Passes(s, request)
        case Raised => Raised
        case Ok(yes) => if yes then Ok(before.value + [s]) else before
  }

  lemma {:induction false} EligibleMeans(registry: seq<Spec>, current: Spec, request: Request, tried: seq<string>)
    ensures var e := Eligible(registry, current, request, tried);
      && (e.Raised? <==> exists s :: s in registry && Candidate(s, current, tried) && Passes(s, request).Raised?)
      && (e.Ok? ==> forall s :: s in e.value <==>
            s in registry && Candidate(s, current, tried) && Passes(s, request) == Ok(true))
    decreases |registry|
  {
    hide Candidate, Passes;
    if registry != [] {
      var n := |registry| - 1;
      EligibleMeans(registry[..n], current, request, tried);
      assert registry == registry[..n] + [registry[n]];
    }
  }

  lemma {:induction false} EligibleDistinct(registry: seq<Spec>, current: Spec, request: Request, tried: seq<string>)
    requires DistinctIds(registry) && Eligible(registry, current, request, tried).Ok?
    ensures DistinctIds(Eligible(registry, current, request, tried).value)
    decreases |registry|
  {
    hide Candidate, Passes;
    if registry != [] {
      var n := |registry| - 1;
      EligibleDistinct(registry[..n], current, request, tried);
      EligibleMeans(registry[..n], current, request, tried);
      forall s | s in registry[..n] ensures s.id != registry[n].id {
        var i :| 0 <= i < n && registry[i] == s;
      }
    }
  }

  function Ids(specs: seq<Spec>): (r: seq<string>)
    ensures |r| == |specs| && forall i :: 0 <= i < |r| ==> r[i] == specs[i].id
  {
    seq(|specs|, i requires 0 <= i < |specs| => specs[i].id)
  }

  function Pool(registry: seq<Spec>, current: Spec, request: Request, tried: seq<string>): Result<seq<Spec>> {
    match Eligible(registry, current, request, tried)
    case Raised => Raised
    case Ok(es) => Ok(Ranked(es, request.taskClass))
  }

  /**
    * The pool holds exactly the untried group mates of the same locality that pass the filters,
    * in strict rank order.
    */
  lemma PoolMeans(registry: seq<Spec>, current: Spec, request: Request, tried: seq<string>)
    requires DistinctIds(registry)
    ensures var p := Pool(registry, current, request, tried);
      && (p.Raised? <==> exists s :: s in registry && Candidate(s, current, tried) && Incomparable(s, request))
      && (p.Ok? ==> InRankOrder(p.value, request.taskClass))
      && (p.Ok? ==> forall s :: s in p.value <==>
            s in registry && Candidate(s, current, tried) && Serves(s, request))
  {
    hide Candidate, Passes, Serves, Incomparable, Eligible, Ranked, InRankOrder, DistinctIds;
    EligibleMeans(registry, current, request, tried);
    AllPassesMean(request);
    var e := Eligible(registry, current, request, tried);
    if e.Ok? {
      EligibleDistinct(registry, current, request, tried);
      RankedInOrder(e.value, request.taskClass);
      var p := Ranked(e.value, request.taskClass);
      forall s ensures s in p <==> s in e.value {
        assert s in p <==> s in multiset(p);
        assert s in e.value <==> s in multiset(e.value);
      }
    }
  }

  /** `_fallback_pool`: scan the registry, then sort. */
  method FallbackPool(registry: seq<Spec>, current: Spec, request: Request, tried: seq<string>)
    returns (r: Result<seq<string>>)
    ensures r.Ok? <==> Pool(registry, current, request, tried).Ok?
    ensures r.Ok? ==> r.value == Ids(Pool(registry, current, request, tried).value)
  {
    hide Ranked, Passes, Candidate;
    var pool: seq<Spec> := [];
    for i := 0 to |registry|
      invariant Eligible(registry[..i], current, request, tried) == Ok(pool)
    {
      assert registry[..i + 1][..i] == registry[..i];
      var s := registry[i];
      if !Candidate(s, current, tried) { continue; }
      var passes := Passes(s, request);
      if passes.Raised? {
        EligibleRaises(registry, current, request, tried, i + 1);
        return Raised;
      }
      if !passes.value { continue; }
      pool := pool + [s];
    }
    assert registry[..|registry|] == registry;
    return Ok(Ids(Ranked(pool, request.taskClass)));
  }

  lemma {:induction false} EligibleRaises(
      registry: seq<Spec>, current: Spec, request: Request, tried: seq<string>, n: nat)
    requires n <= |registry| && Eligible(registry[..n], current, request, tried).Raised?
    ensures Eligible(registry, current, request, tried).Raised?
    decreases |registry|
  {
    hide Candidate, Passes;
    if n == |registry| {
      assert registry[..n] == registry;
    } else {
      assert registry[..|registry| - 1][..n] == registry[..n];
      EligibleRaises(registry[..|registry| - 1], current, request, tried, n);
    }
  }

  // ----- The chain of fallbacks -----

  /** What one call of `fallback` decides. */
  function Next(registry: seq<Spec>, d: Decision, request: Request): Result<Decision> {
    var stay := NOT_SELECTED.(tried := d.tried);
    if !request.allowFallback then Ok(stay) else
    match Get(registry, d.modelId)
    case None => Ok(stay)
    case Some(current) =>
      match Pool(registry, current, request, d.tried)
      case Raised => Raised
      case Ok(pool) =>
        if pool == [] then Ok(stay) else
        var tried := d.tried + [pool[0].id];
        match Pool(registry, pool[0], request, tried)
        case Raised => Raised
        case Ok(rest) => Ok(Decision(pool[0].id, true, d.matched, Ids(rest), tried))
  }

  /** A fallback selects only where the request allows it and the model to fall back from is known;
      it then moves to the first of that model's pool and tries it, and otherwise stays put. */
  lemma NextMeans(registry: seq<Spec>, d: Decision, request: Request, e: Decision)
    requires DistinctIds(registry) && Next(registry, d, request) == Ok(e)
    ensures e.selected ==> request.allowFallback && exists current, next ::
      && current in registry && current.id == d.modelId && next in registry && next.id == e.modelId
      && next.id !in d.tried && next.group == current.group && current.group != ""
      && next.locality == current.locality && Serves(next, request)
      && e.tried == d.tried + [next.id] && e.matched == d.matched
      && forall s | s in registry && s != next && s.id !in d.tried && s.group == current.group
                    && s.locality == current.locality && Serves(s, request) :: Before(next, s, request.taskClass)
    ensures !e.selected ==> e == Decision("", false, [], [], d.tried)
    ensures !e.selected && request.allowFallback ==> forall current, s |
      && current in registry && current.id == d.modelId && s in registry && s.id !in d.tried && current.group != ""
      && s.group == current.group && s.locality == current.locality :: !Serves(s, request)
  {
    hide Pool, Serves, Incomparable, Passes, Before, DistinctIds;
    var found := Get(registry, d.modelId);
    forall current | current in registry && current.id == d.modelId ensures found == Some(current) {
      GetFinds(registry, current);
    }
    if found.Some? {
      PoolMeans(registry, found.value, request, d.tried);
      if e.selected {
        var p := Pool(registry, found.value, request, d.tried).value;
        assert p[0] in p;
        forall s | s in p && s != p[0] ensures Before(p[0], s, request.taskClass) {
          var j :| 0 <= j < |p| && p[j] == s;
        }
      }
    }
  }

  method Fallback(registry: seq<Spec>, d: Decision, request: Request) returns (r: Result<Decision>)
    requires DistinctIds(registry)
    ensures r == Next(registry, d, request)
  {
    hide Pool;
    if !request.allowFallback {
      return Ok(NOT_SELECTED.(tried := d.tried));
    }
    var current := Get(registry, d.modelId);
    if current.None? {
      return Ok(NOT_SELECTED.(tried := d.tried));
    }
    var pool := FallbackPool(registry, current.value, request, d.tried);
    if pool.Raised? {
      return Raised;
    }
    if pool.value == [] {
      return Ok(NOT_SELECTED.(tried := d.tried));
    }
    var tried := d.tried + [pool.value[0]];
    PoolMeans(registry, current.value, request, d.tried);
    GetFinds(registry, Pool(registry, current.value, request, d.tried).value[0]);
    var next := Get(registry, pool.value[0]);
    var rest := FallbackPool(registry, next.value, request, tried);
    if rest.Raised? {
      return Raised;
    }
    return Ok(Decision(pool.value[0], true, d.matched, rest.value, tried));
  }

  /** The decision after `n` fallbacks. */
  function After(registry: seq<Spec>, d: Decision, request: Request, n: nat): Result<Decision> {
    if n == 0 then Ok(d)
    else
      match After(registry, d, request, n - 1)
      case Raised => Raised
      case Ok(e) => Next(registry, e, request)
  }

  /** Taking the head of a pool leaves its tail: the lookup from the new model finds the same rest. */
  lemma PoolTail(registry: seq<Spec>, current: Spec, request: Request, tried: seq<string>)
    requires DistinctIds(registry)
    requires var p := Pool(registry, current, request, tried); p.Ok? && p.value != []
    ensures var p := Pool(registry, current, request, tried).value;
      Pool(registry, p[0], request, tried + [p[0].id]) == Ok(p[1..])
  {
    hide Pool, Passes, Serves, Incomparable, Before, InRankOrder, DistinctIds;
    var task := request.taskClass;
    var p := Pool(registry, current, request, tried).value;
    PoolMeans(registry, current, request, tried);
    var head := p[0];
    assert head in p;
    var tried' := tried + [head.id];
    forall s ensures Candidate(s, head, tried') <==> Candidate(s, current, tried) && s.id != head.id {}
    PoolMeans(registry, head, request, tried');
    var q := Pool(registry, head, request, tried').value;
    TailOf(p, task);
    forall s ensures s in q <==> s in p[1..] {
      if s in registry && s.id == head.id {
        GetFinds(registry, s);
        GetFinds(registry, head);
      }
    }
    RankOrderIsUnique(q, p[1..], task);
  }

  // The model the chain stands on after `n` fallbacks through the pool `p`.
  function Visited(start: Spec, p: seq<Spec>, n: nat): Spec
    requires n <= |p|
  {
    if n == 0 then start else p[n - 1]
  }

  ghost predicate Starts(registry: seq<Spec>, start: Spec, d: Decision) {
    && DistinctIds(registry) && start in registry && (forall s :: s in registry ==> s.id != "")
    && d.selected && d.modelId == start.id && d.tried == [start.id]
  }

  // Decision `e` is where the chain stands after `n` steps through the pool `p`.
  ghost predicate StandsAt(
      registry: seq<Spec>, start: Spec, request: Request, d: Decision, p: seq<Spec>, n: nat, e: Decision)
    requires n <= |p|
  {
    && e.selected && e.modelId == Visited(start, p, n).id && e.matched == d.matched
    && e.tried == [start.id] + Ids(p[..n])
    && (n > 0 ==> e.candidates == Ids(p[n..]))
    && Visited(start, p, n) in registry
    && Pool(registry, Visited(start, p, n), request, e.tried) == Ok(p[n..])
  }

  lemma ChainStep(
      registry: seq<Spec>, start: Spec, request: Request, d: Decision, p: seq<Spec>, n: nat, e: Decision)
    requires DistinctIds(registry) && request.allowFallback
    requires n < |p| && StandsAt(registry, start, request, d, p, n, e)
    ensures var next := Next(registry, e, request);
      next.Ok? && StandsAt(registry, start, request, d, p, n + 1, next.value)
  {
    hide Pool, Passes, Serves, Incomparable, Candidate, InRankOrder, DistinctIds, Get;
    var at := Visited(start, p, n);
    GetFinds(registry, at);
    PoolTail(registry, at, request, e.tried);
    assert p[n..][1..] == p[n + 1..] && p[n..][0] == p[n];
    assert [start.id] + Ids(p[..n]) + [p[n].id] == [start.id] + Ids(p[..n + 1]);
    PoolMeans(registry, at, request, e.tried);
    assert p[n] in p[n..];
  }

  /** Where the chain stands after `n` fallbacks, for every `n`. */
  lemma {:induction false} ChainPosition(
      registry: seq<Spec>, start: Spec, request: Request, d: Decision, p: seq<Spec>, n: nat)
    requires Starts(registry, start, d) && request.allowFallback
    requires Pool(registry, start, request, [start.id]) == Ok(p)
    ensures var at := After(registry, d, request, n);
      if n > |p| then at == Ok(NOT_SELECTED.(tried := [start.id] + Ids(p)))
      else at.Ok? && StandsAt(registry, start, request, d, p, n, at.value)
  {
    hide StandsAt, Starts, Pool, Next, DistinctIds, Ids, Visited;
    if n == 0 {
      ChainStarts(registry, start, request, d, p);
    } else {
      ChainPosition(registry, start, request, d, p, n - 1);
      StartFacts(registry, start, d);
      var e := After(registry, d, request, n - 1).value;
      if n <= |p| {
        ChainStep(registry, start, request, d, p, n - 1, e);
      } else if n == |p| + 1 {
        ChainEnds(registry, start, request, d, p, e);
      } else {
        ChainStaysEnded(registry, request, e);
      }
    }
  }

  lemma StartFacts(registry: seq<Spec>, start: Spec, d: Decision)
    requires Starts(registry, start, d)
    ensures DistinctIds(registry) && forall s :: s in registry ==> s.id != ""
  {}

  lemma ChainStarts(registry: seq<Spec>, start: Spec, request: Request, d: Decision, p: seq<Spec>)
    requires Starts(registry, start, d) && Pool(registry, start, request, [start.id]) == Ok(p)
    ensures StandsAt(registry, start, request, d, p, 0, d)
  {
    hide Pool, DistinctIds;
    assert p[0..] == p && [start.id] + Ids(p[..0]) == [start.id];
  }

  lemma ChainStaysEnded(registry: seq<Spec>, request: Request, e: Decision)
    requires (forall s :: s in registry ==> s.id != "") && e == NOT_SELECTED.(tried := e.tried)
    ensures Next(registry, e, request) == Ok(e)
  {
    hide Pool;
    assert Get(registry, "") == None;
  }

  lemma ChainEnds(
      registry: seq<Spec>, start: Spec, request: Request, d: Decision, p: seq<Spec>, e: Decision)
    requires DistinctIds(registry) && request.allowFallback
    requires StandsAt(registry, start, request, d, p, |p|, e)
    ensures Next(registry, e, request) == Ok(NOT_SELECTED.(tried := [start.id] + Ids(p)))
  {
    hide Pool, DistinctIds, Get;
    GetFinds(registry, Visited(start, p, |p|));
    assert p[..|p|] == p && p[|p|..] == [];
  }

  function GroupMates(registry: seq<Spec>, group: string): set<Spec> {
    set s | s in registry && InGroup(s, group)
  }

  lemma {:induction false} RankedFits(p: seq<Spec>, task: string, within: set<Spec>)
    requires InRankOrder(p, task) && forall s :: s in p ==> s in within
    ensures |p| <= |within|
  {
    hide Before;
    if p != [] {
      TailOf(p, task);
      RankedFits(p[1..], task, within - {p[0]});
    }
  }

  /**
    * With an unchanged registry and request, the chain of fallbacks from a selected model never
    * raises once its first pool was found. It visits every untried model of the same group and
    * locality that passes the request's filters, and no other, in strict rank order, so none
    * twice; it ends within group size minus one steps and stays ended.
    */
  lemma FallbackChain(registry: seq<Spec>, start: Spec, request: Request, d: Decision)
    requires Starts(registry, start, d) && request.allowFallback
    requires Pool(registry, start, request, [start.id]).Ok?
    ensures var p := Pool(registry, start, request, [start.id]).value;
      && (forall n: nat :: n <= |p| ==>
            After(registry, d, request, n).Ok?
            && After(registry, d, request, n).value.modelId == Visited(start, p, n).id
            && After(registry, d, request, n).value.tried == [start.id] + Ids(p[..n]))
      && (forall n: nat :: n > |p| ==>
            After(registry, d, request, n) == Ok(NOT_SELECTED.(tried := [start.id] + Ids(p))))
      && InRankOrder(p, request.taskClass)
      && (forall s :: s in p <==>
            s in registry && s.id != start.id && start.group != "" && s.group == start.group
            && s.locality == start.locality && Serves(s, request))
      && (p != [] ==> |p| <= |GroupMates(registry, start.group)| - 1)
  {
    hide Pool, Passes, Serves, Incomparable, After, InRankOrder, DistinctIds;
    var p := Pool(registry, start, request, [start.id]).value;
    PoolMeans(registry, start, request, [start.id]);
    forall n: nat
      ensures n <= |p| ==>
            After(registry, d, request, n).Ok?
            && After(registry, d, request, n).value.modelId == Visited(start, p, n).id
            && After(registry, d, request, n).value.tried == [start.id] + Ids(p[..n])
      ensures n > |p| ==> After(registry, d, request, n) == Ok(NOT_SELECTED.(tried := [start.id] + Ids(p)))
    {
      ChainPosition(registry, start, request, d, p, n);
    }
    if p != [] {
      assert p[0] in p;
      assert start in GroupMates(registry, start.group);
      RankedFits(p, request.taskClass, GroupMates(registry, start.group) - {start});
    }
  }

  // ----- Rules and routing -----

  predicate Matches(rule: Rule, request: Request) {
    && (rule.whenTask != "" ==> rule.whenTask == request.taskClass)
    && (rule.whenClassification != "" ==> rule.whenClassification == request.classification)
  }

  const DEFAULT_RULES: seq<Rule> := [
    Rule("confidential-local", "", "confidential", "local", []),
    Rule("restricted-local", "", "restricted", "local", []),
    Rule("structured-planning", "planning", "", "", ["structured_output"])
  ]

  function MatchedNames(rules: seq<Rule>, request: Request): seq<string>
    decreases |rules|
  {
    if rules == [] then []
    else
      var n := |rules| - 1;
      MatchedNames(rules[..n], request) + if Matches(rules[n], request) then [rules[n].name] else []
  }

  /** The rule speaks of the request's task and data, or of any. */
  predicate Applies(r: Rule, request: Request) {
    && (r.whenTask == "" || r.whenTask == request.taskClass)
    && (r.whenClassification == "" || r.whenClassification == request.classification)
  }

  /** The names reported are those of the rules that apply, in their order. */
  lemma {:induction false} MatchedNamesAdd(a: seq<Rule>, b: seq<Rule>, request: Request)
    ensures MatchedNames(a + b, request) == MatchedNames(a, request) + MatchedNames(b, request)
    decreases |b|
  {
    hide Matches;
    if b == [] {
      assert a + b == a;
    } else {
      var n := |b| - 1;
      MatchedNamesAdd(a, b[..n], request);
      assert (a + b)[..|a| + n] == a + b[..n] && (a + b)[|a| + n] == b[n];
    }
  }

  lemma MatchedNamesMean(rule: Rule, request: Request)
    ensures MatchedNames([], request) == []
    ensures MatchedNames([rule], request) == if Applies(rule, request) then [rule.name] else []
  {
    hide Matches, Applies;
    MatchesMeans(rule, request);
    assert [rule][..0] == [];
  }

  ghost predicate SomeLocal(rules: seq<Rule>, request: Request) {
    exists r :: r in rules && Applies(r, request) && r.requireLocality == "local"
  }

  ghost predicate SomeRequires(rules: seq<Rule>, request: Request, c: string) {
    exists r :: r in rules && Applies(r, request) && c in r.requireCapabilities
  }

  // The request `e` is `request` strengthened by exactly the rules that match it.
  ghost predicate Strengthens(e: Request, rules: seq<Rule>, request: Request) {
    && e == request.(localOnly := e.localOnly, required := e.required)
    && (e.localOnly <==> (request.localOnly || SomeLocal(rules, request)))
    && request.required <= e.required
    && forall c :: c in e.required <==> (c in request.required || SomeRequires(rules, request, c))
  }

  lemma MatchesMeans(rule: Rule, request: Request)
    ensures Matches(rule, request) <==> Applies(rule, request)
  {}

  lemma OneMoreRule(rules: seq<Rule>, rule: Rule, request: Request)
    ensures SomeLocal(rules + [rule], request) <==>
      (SomeLocal(rules, request) || (Matches(rule, request) && rule.requireLocality == "local"))
    ensures forall c :: SomeRequires(rules + [rule], request, c) <==>
      (SomeRequires(rules, request, c) || (Matches(rule, request) && c in rule.requireCapabilities))
  {
    hide Matches, Applies;
    MatchesMeans(rule, request);
    forall r ensures r in rules + [rule] <==> (r in rules || r == rule) {}
    assert rule in rules + [rule];
  }

  method Effective(rules: seq<Rule>, request: Request) returns (e: Request, matched: seq<string>)
    ensures Strengthens(e, rules, request)
    ensures matched == MatchedNames(rules, request)
  {
    hide Matches, SomeLocal, SomeRequires;
    matched := [];
    var localOnly := request.localOnly;
    var required := request.required;
    NoRules(request);
    for i := 0 to |rules|
      invariant matched == MatchedNames(rules[..i], request)
      invariant Strengthens(request.(localOnly := localOnly, required := required), rules[..i], request)
    {
      var rule := rules[i];
      assert rules[..i + 1] == rules[..i] + [rule] && rules[..i + 1][..i] == rules[..i];
      OneMoreRule(rules[..i], rule, request);
      if !Matches(rule, request) { continue; }
      matched := matched + [rule.name];
      if rule.requireLocality == "local" {
        localOnly := true;
      }
      required := AddMissing(required, rule.requireCapabilities);
    }
    assert rules[..|rules|] == rules;
    e := request.(localOnly := localOnly, required := required);
  }

  lemma NoRules(request: Request)
    ensures !SomeLocal([], request)
    ensures forall c :: !SomeRequires([], request, c)
  {}

  method AddMissing(required0: seq<string>, more: seq<string>) returns (required: seq<string>)
    ensures required0 <= required
    ensures forall c :: c in required <==> c in required0 || c in more
  {
    required := required0;
    for i := 0 to |more|
      invariant required0 <= required
      invariant forall c :: c in required <==> c in required0 || c in more[..i]
    {
      assert more[..i + 1] == more[..i] + [more[i]];
      if more[i] !in required {
        required := required + [more[i]];
      }
    }
  }

  // Every registered model answers the filters, and `best` ranks strictly before all others that pass.
  ghost predicate IsBest(best: Spec, registry: seq<Spec>, e: Request) {
    && best in registry && Serves(best, e)
    && forall s :: s in registry && s != best && Serves(s, e) ==> Before(best, s, e.taskClass)
  }

  ghost predicate SomeRaises(registry: seq<Spec>, e: Request) {
    exists s :: s in registry && Incomparable(s, e)
  }

  // A selection together with the fallback pool looked up for it under the same request.
  ghost predicate Selects(r: Result<Decision>, registry: seq<Spec>, best: Spec, e: Request, matched: seq<string>) {
    match Pool(registry, best, e, [best.id])
    case Raised => r.Raised?
    case Ok(p) => r == Ok(Decision(best.id, true, matched, Ids(p), [best.id]))
  }

  /** `route` for a request that pins a model: the pinned one or none, under the request as given. */
  method RoutePinned(registry: seq<Spec>, request: Request) returns (r: Result<Decision>)
    requires DistinctIds(registry)
    ensures var pinned := Get(registry, request.pinned);
      if pinned.None? then r == Ok(NOT_SELECTED)
      else if Incomparable(pinned.value, request) then r.Raised?
      else if Serves(pinned.value, request) then Selects(r, registry, pinned.value, request, [])
      else r == Ok(NOT_SELECTED)
  {
    hide Passes, Serves, Incomparable, Pool, Get, DistinctIds;
    AllPassesMean(request);
    var pinned := Get(registry, request.pinned);
    if pinned.None? {
      return Ok(NOT_SELECTED);
    }
    var passes := Passes(pinned.value, request);
    if passes.Raised? {
      return Raised;
    }
    if !passes.value {
      return Ok(NOT_SELECTED);
    }
    var pool := FallbackPool(registry, pinned.value, request, [pinned.value.id]);
    if pool.Raised? {
      return Raised;
    }
    return Ok(Decision(pinned.value.id, true, [], pool.value, [pinned.value.id]));
  }

  /**
    * `route` for a request that pins none: it raises exactly when some registered model cannot be
    * compared, selects nothing exactly when none passes the strengthened request, and otherwise
    * selects the one model that ranks before all others that pass.
    */
  method RouteRanked(registry: seq<Spec>, rules: seq<Rule>, request: Request)
    returns (r: Result<Decision>, ghost e: Request)
    requires DistinctIds(registry)
    ensures Strengthens(e, rules, request)
    ensures r.Raised? <==> SomeRaises(registry, e)
    ensures r.Ok? ==> r.value.matched == MatchedNames(rules, request)
    ensures r.Ok? && !r.value.selected ==> forall s :: s in registry ==> !Serves(s, e)
    ensures r.Ok? && r.value.selected ==> exists best ::
      IsBest(best, registry, e) && Selects(r, registry, best, e, MatchedNames(rules, request))
  {
    hide Passes, Serves, Incomparable, Pool, Before, Ranked, Strengthens, MatchedNames, DistinctIds, InRankOrder,
         Candidate;
    var effective, matched := Effective(rules, request);
    AllPassesMean(effective);
    e := effective;
    var eligible: seq<Spec> := [];
    ghost var at: seq<nat> := [];
    for i := 0 to |registry|
      invariant forall s :: s in eligible <==> s in registry[..i] && Passes(s, effective) == Ok(true)
      invariant forall s :: s in registry[..i] ==> Passes(s, effective).Ok?
      invariant Selection(eligible, registry, at, i)
    {
      assert registry[..i + 1] == registry[..i] + [registry[i]];
      var passes := Passes(registry[i], effective);
      if passes.Raised? {
        return Raised, e;
      }
      if passes.value {
        eligible := eligible + [registry[i]];
        at := at + [i];
      }
    }
    assert registry[..|registry|] == registry;
    if eligible == [] {
      return Ok(NOT_SELECTED.(matched := matched)), e;
    }
    var ranked := Ranked(eligible, effective.taskClass);
    SelectionDistinct(eligible, registry, at, |registry|);
    BestOf(registry, eligible, effective);
    var chosen := ranked[0];
    PoolMeans(registry, chosen, effective, [chosen.id]);
    var pool := FallbackPool(registry, chosen, effective, [chosen.id]);
    return Ok(Decision(chosen.id, true, matched, pool.value, [chosen.id])), e;
  }

  // `picked` is `registry` at the increasing positions `at`, all below `n`.
  ghost predicate Selection(picked: seq<Spec>, registry: seq<Spec>, at: seq<nat>, n: nat) {
    && n <= |registry| && |picked| == |at|
    && (forall k :: 0 <= k < |at| ==> at[k] < n && picked[k] == registry[at[k]])
    && forall k, l :: 0 <= k < l < |at| ==> at[k] < at[l]
  }

  lemma SelectionDistinct(picked: seq<Spec>, registry: seq<Spec>, at: seq<nat>, n: nat)
    requires DistinctIds(registry) && Selection(picked, registry, at, n)
    ensures DistinctIds(picked)
  {}

  lemma BestOf(registry: seq<Spec>, eligible: seq<Spec>, e: Request)
    requires eligible != [] && DistinctIds(eligible)
    requires forall s :: s in eligible <==> s in registry && Passes(s, e) == Ok(true)
    ensures Ranked(eligible, e.taskClass) != []
    ensures IsBest(Ranked(eligible, e.taskClass)[0], registry, e)
  {
    hide Passes, Serves, Incomparable, Before, Ranked, DistinctIds;
    AllPassesMean(e);
    var ranked := Ranked(eligible, e.taskClass);
    RankedInOrder(eligible, e.taskClass);
    assert |multiset(ranked)| == |multiset(eligible)|;
    forall s ensures s in ranked <==> s in eligible {
      assert s in ranked <==> s in multiset(ranked);
      assert s in eligible <==> s in multiset(eligible);
    }
    assert ranked[0] in ranked;
    TailOf(ranked, e.taskClass);
    forall s | s in eligible && s != ranked[0] ensures Before(ranked[0], s, e.taskClass) {
      var j :| 0 <= j < |ranked| && ranked[j] == s;
    }
  }

  /**
    * The pool a routing decision lists was looked up under the request as strengthened by the
    * rules; a later fallback looks it up under the request as given. From a selected model the
    * second pool always holds the first, keeps a required locality, and is the same list exactly
    * when no group mate that passes the request as given lacks a capability that a rule requires.
    */
  lemma FallbackDropsRules(registry: seq<Spec>, rules: seq<Rule>, request: Request, e: Request, best: Spec)
    requires DistinctIds(registry) && Strengthens(e, rules, request)
    requires Serves(best, e)
    requires Pool(registry, best, e, [best.id]).Ok?
    ensures var listed := Pool(registry, best, e, [best.id]).value;
      var used := Pool(registry, best, request, [best.id]);
      && used.Ok?
      && (forall s :: s in listed <==> s in used.value && Covers(s, e.required))
      && (e.localOnly ==> forall s :: s in used.value ==> s.locality == "local")
      && (listed == used.value <==> forall s ::
            s in registry && Candidate(s, best, [best.id]) && Serves(s, request) ==> Covers(s, e.required))
  {
    hide Pool, DistinctIds, InRankOrder, Passes, Serves, Incomparable;
    PoolMeans(registry, best, e, [best.id]);
    PoolMeans(registry, best, request, [best.id]);
    assert e.localOnly ==> best.locality == "local" by { ServesLocally(best, e); }
    forall s | Candidate(s, best, [best.id])
      ensures Incomparable(s, request) <==> Incomparable(s, e)
      ensures Serves(s, e) <==> Serves(s, request) && Covers(s, e.required)
    {
      FiltersDiffer(s, rules, request, e, best);
    }
    var listed := Pool(registry, best, e, [best.id]).value;
    var used := Pool(registry, best, request, [best.id]).value;
    if forall s :: s in used ==> Covers(s, e.required) {
      RankOrderIsUnique(listed, used, request.taskClass);
    }
  }

  lemma ServesLocally(s: Spec, e: Request)
    requires Serves(s, e)
    ensures e.localOnly ==> s.locality == "local"
  {}

  lemma FiltersDiffer(s: Spec, rules: seq<Rule>, request: Request, e: Request, best: Spec)
    requires Strengthens(e, rules, request) && Serves(best, e)
    requires s.locality == best.locality
    ensures Incomparable(s, request) <==> Incomparable(s, e)
    ensures Serves(s, e) <==> Serves(s, request) && Covers(s, e.required)
  {
    hide MayReceive, InTime, SomeLocal, SomeRequires;
    assert Covers(s, e.required) ==> Covers(s, request.required);
  }

  /**
    * A planning request under the default rules requires structured output of the selected model,
    * yet its first fallback is a model of the group without it.
    */
  lemma FallbackDropsRulesExample()
    ensures var plain := Spec("b", "p", [], "internal", "hosted", 8192, 0.0, "standard", map[], true, false, "g");
      var strong := plain.(id := "a", capabilities := ["structured_output"]);
      var request := Request("planning", [], "internal", false, [], 0, 0.0, "", 0.0, "", true);
      var e := request.(required := ["structured_output"]);
      && Strengthens(e, DEFAULT_RULES, request)
      && IsBest(strong, [strong, plain], e)
      && Pool([strong, plain], strong, e, ["a"]) == Ok([])
      && Pool([strong, plain], strong, request, ["a"]) == Ok([plain])
  {
    hide Pool, Strengthens;
    var plain := Spec("b", "p", [], "internal", "hosted", 8192, 0.0, "standard", map[], true, false, "g");
    var strong := plain.(id := "a", capabilities := ["structured_output"]);
    var request := Request("planning", [], "internal", false, [], 0, 0.0, "", 0.0, "", true);
    var e := request.(required := ["structured_output"]);
    PlanningRequest(request);
    assert Passes(strong, e) == Ok(true) && Passes(plain, request) == Ok(true);
    assert Passes(plain, e) == Ok(false) by {
      assert "structured_output" in e.required;
    }
    PoolOfTwo(strong, plain, e);
    PoolOfTwo(strong, plain, request);
  }

  /** What the default rules add to a request. */
  lemma DefaultRulesMean(request: Request, e: Request)
    requires Strengthens(e, DEFAULT_RULES, request)
    ensures e.localOnly <==>
      request.localOnly || request.classification == "confidential" || request.classification == "restricted"
    ensures forall c :: c in e.required <==>
      c in request.required || (c == "structured_output" && request.taskClass == "planning")
  {
    assert DEFAULT_RULES[0] in DEFAULT_RULES && DEFAULT_RULES[1] in DEFAULT_RULES;
    assert DEFAULT_RULES[2] in DEFAULT_RULES && "structured_output" in DEFAULT_RULES[2].requireCapabilities;
    assert SomeLocal(DEFAULT_RULES, request) <==>
        request.classification == "confidential" || request.classification == "restricted";
    assert forall c :: SomeRequires(DEFAULT_RULES, request, c) <==>
        c == "structured_output" && request.taskClass == "planning";
  }

  /** Under the default rules confidential and restricted data only ever goes to local models that
      are cleared for it: to the one selected, and to each one a fallback moves to. */
  lemma SensitiveStaysLocal(registry: seq<Spec>, request: Request, e: Request, best: Spec)
    requires DistinctIds(registry) && Strengthens(e, DEFAULT_RULES, request) && IsBest(best, registry, e)
    requires Pool(registry, best, request, [best.id]).Ok?
    requires request.classification == "confidential" || request.classification == "restricted"
    ensures forall s :: s == best || s in Pool(registry, best, request, [best.id]).value ==>
      && s.locality == "local"
      && (s.maxClassification == "restricted"
          || (s.maxClassification == "confidential" && request.classification == "confidential"))
  {
    hide Pool, Strengthens, DistinctIds, InRankOrder;
    assert e.classification == request.classification by { StrengthensKeeps(e, request); }
    DefaultRulesMean(request, e);
    PoolMeans(registry, best, request, [best.id]);
  }

  lemma StrengthensKeeps(e: Request, request: Request)
    requires Strengthens(e, DEFAULT_RULES, request)
    ensures e.classification == request.classification
  {}

  lemma PlanningRequest(request: Request)
    requires request == Request("planning", [], "internal", false, [], 0, 0.0, "", 0.0, "", true)
    ensures Strengthens(request.(required := ["structured_output"]), DEFAULT_RULES, request)
  {
    assert DEFAULT_RULES[2] in DEFAULT_RULES && Applies(DEFAULT_RULES[2], request);
    assert forall c :: SomeRequires(DEFAULT_RULES, request, c) <==> c == "structured_output";
  }

  lemma PoolOfTwo(first: Spec, other: Spec, request: Request)
    requires first.id != other.id && Passes(other, request).Ok?
    requires InGroup(other, first.group) && other.locality == first.locality
    ensures Pool([first, other], first, request, [first.id])
      == Ok(if Passes(other, request).value then [other] else [])
  {
    hide Passes;
    var registry := [first, other];
    assert registry[..1] == [first] && registry[..1][..0] == [];
    assert Eligible([first], first, request, [first.id]) == Ok([]);
    assert Ranked([other], request.taskClass) == [other];
  }
}
