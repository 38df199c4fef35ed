/** Re-analysing a rewritten command vector: when the outputs found are the outputs rewritten. */
module RewriteRoundTrip {
  import opened Prelude
  import opened CommandOutputs
  import opened OutputRewriting
  import WordSplitting

  /** A substitution that only ever puts in plain texts: not empty and not led by a dash. */
  ghost predicate Plain(sub: string -> string) {
    forall v :: sub(v) == v || Positional(sub(v))
  }

  // ---- An inline output keeps its prefix whatever text follows it ----

  predicate EndsAtEquals(q: string) {
    q != "" && q[|q| - 1] == '=' && '=' !in q[..|q| - 1]
  }

  lemma SameStart(p: string, q: string, text: string)
    requires EndsAtEquals(p) && EndsAtEquals(q) && Starts(text, p) && Starts(text, q)
    ensures p == q
  {
    forall i | 0 <= i < |p| && i < |q| ensures p[i] == q[i] {
      assert text[..|p|][i] == text[..|q|][i];
    }
    OneEquals(p);
    OneEquals(q);
  }

  lemma OneEquals(p: string)
    requires EndsAtEquals(p)
    ensures forall i | 0 <= i < |p| :: p[i] == '=' <==> i == |p| - 1
  {
    forall i | 0 <= i < |p| - 1 ensures p[i] != '=' { assert p[..|p| - 1][i] == p[i]; }
  }

  lemma {:induction false} FirstMatchKeeps(prefixes: seq<string>, p: string, rest: string, other: string)
    requires forall q | q in prefixes :: EndsAtEquals(q)
    requires FirstMatch(prefixes, p + rest) == Some(p)
    ensures FirstMatch(prefixes, p + other) == Some(p)
    decreases |prefixes|
  {
    FirstMatchStarts(prefixes, p + rest);
    assert (p + other)[..|p|] == p;
    if Starts(p + other, prefixes[0]) {
      SameStart(p, prefixes[0], p + other);
    } else {
      FirstMatchKeeps(prefixes[1..], p, rest, other);
    }
  }

  lemma PrefixFlagsEndAtEquals(binary: string)
    ensures forall q | q in PrefixFlags(binary) :: EndsAtEquals(q)
  {}

  lemma InlineKeeps(binary: string, p: string, rest: string, other: string)
    requires InlinePrefix(binary, p + rest) == Some(p) && other != ""
    ensures InlinePrefix(binary, p + other) == Some(p)
  {
    PrefixFlagsEndAtEquals(binary);
    var before, after := p + rest, p + other;
    PrefixFormIsLong(binary, before);
    PrefixFormIsLong(binary, after);
    ShortForms(before);
    ShortForms(after);
    hide PrefixFlags;
    var m := FirstMatch(PrefixFlags(binary), before);
    if m.Some? {
      if m == Some(p) {
        FirstMatchKeeps(PrefixFlags(binary), p, rest, other);
      }
    } else {
      assert before[..|p|] == p && after[..|p|] == p;
      assert before[0] == p[0] && before[1] == p[1] && after[0] == p[0] && after[1] == p[1];
    }
  }

  lemma InlineIsNoFlag(binary: string, token: string)
    requires InlinePrefix(binary, token).Some?
    ensures !TakesNext(binary, token) && (binary == "curl" ==> token != "-O")
  {
    if TakesNext(binary, token) { LoneFlagBindsNothing(binary, token); }
    InlineFormsExclusive(binary, token);
    hide PrefixFlags, ValueFlags;
  }

  /** A plain text is no flag of any kind. */
  lemma PositionalIsNoFlag(binary: string, token: string)
    requires Positional(token)
    ensures !TakesNext(binary, token) && InlinePrefix(binary, token).None? && token != "-O"
  {
    InlineIsDashed(binary, token);
    hide PrefixFlags, ValueFlags, InlinePrefix, TakesNext;
  }

  // ---- The scan takes the same steps over the rewritten arguments ----

  /** What one rewritten position looks like. */
  lemma RewrittenToken(binary: string, args: seq<string>, sub: string -> string, k: nat)
    requires k < |args|
    ensures var out := RewriteArgs(binary, args, sub);
            var flag := FlagPrefix(binary, args, 0, k);
            && |out| == |args|
            && (flag.Some? ==> Starts(args[k], flag.value) && out[k] == flag.value + sub(args[k][|flag.value|..]))
            && (flag.None? && PlaceBound(binary, args, k) ==> out[k] == sub(args[k]) && Positional(args[k]))
            && (flag.None? && !PlaceBound(binary, args, k) ==> out[k] == args[k])
  {
    hide TakesNext, InlinePrefix, PlaceBound;
    PlaceNeedsPositional(binary, args, k);
    if FlagPrefix(binary, args, 0, k).Some? {
      FlagPrefixFits(binary, args, 0, k);
    } else {
      assert args[k][..0] == "" && args[k][0..] == args[k] && "" + sub(args[k]) == sub(args[k]);
    }
  }

  lemma ScannedTokenKeeps(binary: string, args: seq<string>, sub: string -> string, index: nat)
    requires Plain(sub) && index < |args| && SuffixScan(binary, args, index)
    ensures var out := RewriteArgs(binary, args, sub);
            && |out| == |args|
            && (TakesNext(binary, out[index]) && index + 1 < |out| <==>
              TakesNext(binary, args[index]) && index + 1 < |args|)
            && (!(TakesNext(binary, args[index]) && index + 1 < |args|) ==>
                  && InlinePrefix(binary, out[index]) == InlinePrefix(binary, args[index])
                  && (binary == "curl" ==> (out[index] == "-O" <==> args[index] == "-O")))
  {
    hide InlinePrefix, TakesNext, PlaceBound;
    var t := args[index];
    RewrittenToken(binary, args, sub, index);
    PlaceNeedsPositional(binary, args, index);
    var flag := FlagPrefix(binary, args, 0, index);
    assert flag == FlagPrefix(binary, args, index, index);
    if flag.Some? {
      var p := flag.value;
      var rest := t[|p|..];
      assert t == p + rest;
      InlineNonEmpty(binary, p, rest);
      InlineKeeps(binary, p, rest, sub(rest));
      InlineIsNoFlag(binary, t);
      InlineIsNoFlag(binary, p + sub(rest));
    } else if PlaceBound(binary, args, index) {
      assert Positional(t) && Positional(sub(t));
      PositionalIsNoFlag(binary, t);
      PositionalIsNoFlag(binary, sub(t));
    }
  }

  lemma InlineNonEmpty(binary: string, p: string, rest: string)
    requires InlinePrefix(binary, p + rest) == Some(p)
    ensures rest != ""
  {
    hide PrefixFlags;
  }

  /** Flag bindings survive the rewriting, position by position and prefix by prefix. */
  lemma {:induction false} FlagsKeep(binary: string, args: seq<string>, sub: string -> string, index: nat)
    requires Plain(sub) && SuffixScan(binary, args, index)
    ensures forall k: nat | index <= k ::
              FlagPrefix(binary, RewriteArgs(binary, args, sub), index, k) == FlagPrefix(binary, args, index, k)
    ensures Implicit(binary, RewriteArgs(binary, args, sub), index) == Implicit(binary, args, index)
    decreases |args| - index
  {
    hide InlinePrefix, TakesNext, RewriteArgs, Plain;
    if index < |args| {
      ScannedTokenKeeps(binary, args, sub, index);
      if TakesNext(binary, args[index]) && index + 1 < |args| {
        FlagsKeep(binary, args, sub, index + 2);
      } else {
        FlagsKeep(binary, args, sub, index + 1);
      }
    } else {
      RewriteLength(binary, args, sub);
    }
  }

  lemma RewriteLength(binary: string, args: seq<string>, sub: string -> string)
    ensures |RewriteArgs(binary, args, sub)| == |args|
  {}

  // ---- Positional bindings ----

  lemma PositionKeeps(binary: string, args: seq<string>, sub: string -> string, k: nat)
    requires Plain(sub) && k < |args|
    ensures var out := RewriteArgs(binary, args, sub);
            && |out| == |args|
            && (Positional(args[k]) ==> Positional(out[k]))
            && (FlagPrefix(binary, args, 0, k).None? ==> (Positional(out[k]) <==> Positional(args[k])))
            && (FlagPrefix(binary, args, 0, k).Some? && FlagPrefix(binary, args, 0, k).value != "" ==>
              !Positional(out[k]))
            && (FlagPrefix(binary, args, 0, k) == Some("") ==> out[k] == sub(args[k]))
  {
    hide PlaceBound, InlinePrefix, TakesNext, RewriteArgs, Positional;
    RewrittenToken(binary, args, sub, k);
    FlagsKeep(binary, args, sub, 0);
    if FlagPrefix(binary, args, 0, k).Some? {
      FlagKinds(binary, args, 0, k);
      FlagKinds(binary, RewriteArgs(binary, args, sub), 0, k);
      assert args[k][0..] == args[k] && "" + sub(args[k]) == sub(args[k]);
    }
  }

  /** Flag-consumed position `j` was no positional argument and becomes one by its replacement. */
  predicate Promoted(binary: string, args: seq<string>, sub: string -> string, j: nat) {
    && j < |args| && FlagPrefix(binary, args, 0, j) == Some("")
    && !Positional(args[j]) && sub(args[j]) != args[j]
  }

  /** A copy whose destination is bound by its place alone, followed by a promoted flag value. */
  ghost predicate Displaced(binary: string, args: seq<string>, sub: string -> string) {
    && binary in COPY_BINARIES
    && exists k: nat, j: nat | k < j :: PlaceBound(binary, args, k) && FlagPrefix(binary, args, 0, k).None?
                                        && Promoted(binary, args, sub, j)
  }

  lemma PromotedIff(binary: string, args: seq<string>, sub: string -> string, j: nat)
    requires Plain(sub) && j < |args|
    ensures var out := RewriteArgs(binary, args, sub);
            |out| == |args| && (Positional(out[j]) && !Positional(args[j]) <==> Promoted(binary, args, sub, j))
  {
    PositionKeeps(binary, args, sub, j);
    hide RewriteArgs, FlagPrefix;
  }

  lemma PlaceKeepsIff(binary: string, args: seq<string>, sub: string -> string, k: nat)
    requires Plain(sub) && FlagPrefix(binary, args, 0, k).None?
    ensures PlaceBound(binary, RewriteArgs(binary, args, sub), k) <==>
            && PlaceBound(binary, args, k)
            && !(binary in COPY_BINARIES && exists j: nat | k < j :: Promoted(binary, args, sub, j))
  {
    RewriteLength(binary, args, sub);
    hide RewriteArgs, FlagPrefix, Plain, Positional;
    var out := RewriteArgs(binary, args, sub);
    if k < |args| {
      PositionKeeps(binary, args, sub, k);
      forall j | k < j < |args|
        ensures Positional(out[j]) <==> Positional(args[j]) || Promoted(binary, args, sub, j)
      {
        PositionKeeps(binary, args, sub, j);
        PromotedIff(binary, args, sub, j);
      }
    }
  }

  /** The bound positions and their prefixes are the same after rewriting, unless a copy's
      destination is displaced; and then they differ. */
  lemma ShapeKeepsIff(binary: string, args: seq<string>, sub: string -> string)
    requires Plain(sub)
    ensures (forall k: nat :: BoundPrefix(binary, RewriteArgs(binary, args, sub), k) == BoundPrefix(binary, args, k))
            <==> !Displaced(binary, args, sub)
  {
    hide RewriteArgs, FlagPrefix, Plain, PlaceBound, Promoted;
    FlagsKeep(binary, args, sub, 0);
    forall k: nat
      ensures FlagPrefix(binary, args, 0, k).None? ==>
                (PlaceBound(binary, RewriteArgs(binary, args, sub), k) <==>
                   && PlaceBound(binary, args, k)
                   && !(binary in COPY_BINARIES && exists j: nat | k < j :: Promoted(binary, args, sub, j)))
    {
      if FlagPrefix(binary, args, 0, k).None? { PlaceKeepsIff(binary, args, sub, k); }
    }
    if Displaced(binary, args, sub) {
      var k: nat, j: nat :| k < j && PlaceBound(binary, args, k) && FlagPrefix(binary, args, 0, k).None?
                            && Promoted(binary, args, sub, j);
      assert BoundPrefix(binary, RewriteArgs(binary, args, sub), k).None? && BoundPrefix(binary, args, k).Some?;
    }
  }

  // ---- The whole vector ----

  lemma {:induction false} OptionsKeep(argv: seq<string>, out: seq<string>, i: nat)
    requires |out| == |argv| && SkipOptions(argv, i) < |argv|
    requires forall j | 0 <= j <= SkipOptions(argv, i) :: out[j] == argv[j]
    ensures SkipOptions(out, i) == SkipOptions(argv, i)
    decreases |argv| - i
  {
    hide DashLed, SUDO_VALUE_FLAGS;
    OptionsAdvance(argv, i);
    if argv[i] != "--" && DashLed(argv[i]) {
      OptionsKeep(argv, out, i + if argv[i] in SUDO_VALUE_FLAGS then 2 else 1);
    }
  }

  lemma {:induction false} OptionsAdvance(argv: seq<string>, i: nat)
    requires SkipOptions(argv, i) < |argv|
    ensures i <= SkipOptions(argv, i)
    decreases |argv| - i
  {
    hide DashLed, SUDO_VALUE_FLAGS;
    if i < |argv| && argv[i] != "--" && DashLed(argv[i]) {
      OptionsAdvance(argv, i + if argv[i] in SUDO_VALUE_FLAGS then 2 else 1);
    }
  }

  /** Rewriting never touches the command itself or anything `sudo` reads before it. */
  lemma CommandKeeps(argv: seq<string>, replacements: map<string, string>, resolve: string -> string)
    requires InnerStart(argv) < |argv|
    ensures var out := Rewritten(argv, replacements, resolve);
            && |out| == |argv| && InnerStart(out) == InnerStart(argv)
            && CommandOf(out) == CommandOf(argv).(args := RewriteArgs(
                 CommandOf(argv).binary, CommandOf(argv).args, v => Substitute(replacements, resolve, v)))
  {
    hide RewriteArgs, BaseName, Substitute;
    var out := Rewritten(argv, replacements, resolve);
    var start := InnerStart(argv);
    assert forall j | 0 <= j <= start :: out[j] == argv[j];
    if IsSudo(argv) { OptionsKeep(argv, out, 1); }
    assert out[start + 1..]
      == RewriteArgs(CommandOf(argv).binary, CommandOf(argv).args, v => Substitute(replacements, resolve, v)) by {
      RewriteLength(CommandOf(argv).binary, CommandOf(argv).args, v => Substitute(replacements, resolve, v));
    }
  }

  /** A binding as the rewritten vector should show it. */
  function Rebound(replacements: map<string, string>, resolve: string -> string, b: Binding): Binding {
    if b.index.Some? && b.path in replacements then b.(path := resolve(replacements[b.path])) else b
  }

  /** Re-analysing the rewritten vector finds the same outputs at the replaced paths, no others. */
  ghost predicate RoundTrips(argv: seq<string>, replacements: map<string, string>, cwd: string,
      resolve: string -> string)
  {
    forall b :: IsBinding(Rewritten(argv, replacements, resolve), cwd, resolve, b) <==>
      exists a :: IsBinding(argv, cwd, resolve, a) && b == Rebound(replacements, resolve, a)
  }

  ghost predicate DisplacedIn(argv: seq<string>, replacements: map<string, string>, resolve: string -> string) {
    && InnerStart(argv) < |argv|
    && Displaced(CommandOf(argv).binary, CommandOf(argv).args, v => Substitute(replacements, resolve, v))
  }

  /** What is bound at one position, before and after the rewriting. */
  lemma BindingKeeps(argv: seq<string>, replacements: map<string, string>, cwd: string, resolve: string -> string,
      i: nat)
    requires InnerStart(argv) < |argv| && CommandOf(argv).first <= i < |argv|
    ensures var c := CommandOf(argv);
            var out := Rewritten(argv, replacements, resolve);
            var p := BoundPrefix(c.binary, c.args, i - c.first);
            && |out| == |argv|
            && (p.Some? ==>
                  && Starts(argv[i], p.value) && Starts(out[i], p.value)
                  && out[i][|p.value|..] == Substitute(replacements, resolve, argv[i][|p.value|..]))
  {
    hide RewriteArgs, FlagPrefix, PlaceBound, Substitute;
    var c := CommandOf(argv);
    var sub := v => Substitute(replacements, resolve, v);
    CommandKeeps(argv, replacements, resolve);
    RewrittenToken(c.binary, c.args, sub, i - c.first);
    var out := Rewritten(argv, replacements, resolve);
    assert out[i] == RewriteArgs(c.binary, c.args, sub)[i - c.first];
    var p := BoundPrefix(c.binary, c.args, i - c.first);
    if p.Some? {
      var rest := sub(argv[i][|p.value|..]);
      assert argv[i][0..] == argv[i];
      assert out[i] == p.value + rest;
    }
  }

  lemma ReplacementsArePlain(replacements: map<string, string>, resolve: string -> string)
    requires forall p | p in replacements.Values :: Positional(p)
    ensures Plain(v => Substitute(replacements, resolve, v))
  {}

  /** The bound positions, prefixes and the working-directory output are those of the original. */
  ghost predicate SameShape(argv: seq<string>, replacements: map<string, string>, resolve: string -> string)
    requires InnerStart(argv) < |argv|
  {
    var c := CommandOf(argv);
    var out := Rewritten(argv, replacements, resolve);
    && InnerStart(out) < |out| && CommandOf(out).binary == c.binary && CommandOf(out).first == c.first
    && (forall k: nat :: BoundPrefix(c.binary, CommandOf(out).args, k) == BoundPrefix(c.binary, c.args, k))
    && Implicit(c.binary, CommandOf(out).args, 0) == Implicit(c.binary, c.args, 0)
  }

  lemma SameShapeHolds(argv: seq<string>, replacements: map<string, string>, resolve: string -> string)
    requires forall p | p in replacements.Values :: Positional(p)
    requires InnerStart(argv) < |argv|
    requires var c := CommandOf(argv);
             forall k: nat ::
               BoundPrefix(c.binary, RewriteArgs(c.binary, c.args, v => Substitute(replacements, resolve, v)), k)
                              == BoundPrefix(c.binary, c.args, k)
    ensures SameShape(argv, replacements, resolve)
  {
    hide RewriteArgs, BoundPrefix, Implicit, FlagPrefix, Substitute, Rewritten, Plain;
    var c := CommandOf(argv);
    CommandKeeps(argv, replacements, resolve);
    ReplacementsArePlain(replacements, resolve);
    FlagsKeep(c.binary, c.args, v => Substitute(replacements, resolve, v), 0);
  }

  lemma RoundTripBack(argv: seq<string>, replacements: map<string, string>, cwd: string, resolve: string -> string,
      a: Binding)
    requires forall p | p in replacements.Values :: Positional(p)
    requires InnerStart(argv) < |argv| && SameShape(argv, replacements, resolve)
    requires IsBinding(argv, cwd, resolve, a)
    ensures IsBinding(Rewritten(argv, replacements, resolve), cwd, resolve, Rebound(replacements, resolve, a))
  {
    hide BoundPrefix, Implicit, Starts, Rewritten, CommandOf;
    if a.index.Some? {
      BindingKeeps(argv, replacements, cwd, resolve, a.index.value);
    }
  }

  lemma RoundTripForward(argv: seq<string>, replacements: map<string, string>, cwd: string, resolve: string -> string,
      b: Binding)
    returns (a: Binding)
    requires forall p | p in replacements.Values :: Positional(p)
    requires InnerStart(argv) < |argv| && SameShape(argv, replacements, resolve)
    requires IsBinding(Rewritten(argv, replacements, resolve), cwd, resolve, b)
    ensures IsBinding(argv, cwd, resolve, a) && b == Rebound(replacements, resolve, a)
  {
    hide BoundPrefix, Implicit, Rewritten, CommandOf;
    if b.index.Some? {
      var i := b.index.value;
      BindingKeeps(argv, replacements, cwd, resolve, i);
      a := Binding(resolve(argv[i][|b.prefix|..]), b.index, b.prefix);
    } else {
      a := b;
    }
  }

  lemma RoundTripHolds(argv: seq<string>, replacements: map<string, string>, cwd: string, resolve: string -> string)
    requires forall p | p in replacements.Values :: Positional(p)
    requires InnerStart(argv) < |argv| && SameShape(argv, replacements, resolve)
    ensures RoundTrips(argv, replacements, cwd, resolve)
  {
    hide IsBinding, SameShape, Rebound, CommandOf, Rewritten;
    forall b
      ensures IsBinding(Rewritten(argv, replacements, resolve), cwd, resolve, b) <==>
              exists a :: IsBinding(argv, cwd, resolve, a) && b == Rebound(replacements, resolve, a)
    {
      if IsBinding(Rewritten(argv, replacements, resolve), cwd, resolve, b) {
        var a := RoundTripForward(argv, replacements, cwd, resolve, b);
      }
      if exists a :: IsBinding(argv, cwd, resolve, a) && b == Rebound(replacements, resolve, a) {
        var a :| IsBinding(argv, cwd, resolve, a) && b == Rebound(replacements, resolve, a);
        RoundTripBack(argv, replacements, cwd, resolve, a);
      }
    }
  }

  /** The rewriting round trip, exactly: with replacements that are non-empty and not led by a
      dash, re-analysing the rewritten vector gives the same positions and prefixes with the
      replaced paths, unless the command copies to a destination bound by its place alone and a
      later flag value, empty or led by a dash, was replaced. */
  lemma RewriteRoundTripIff(argv: seq<string>, replacements: map<string, string>, cwd: string,
      resolve: string -> string)
    requires forall p | p in replacements.Values :: Positional(p)
    ensures RoundTrips(argv, replacements, cwd, resolve) <==> !DisplacedIn(argv, replacements, resolve)
  {
    hide RewriteArgs, BoundPrefix, Displaced, IsBinding, FlagPrefix;
    if InnerStart(argv) >= |argv| {
      NothingToBind(argv, cwd, resolve);
    } else {
      var c := CommandOf(argv);
      var sub := v => Substitute(replacements, resolve, v);
      ReplacementsArePlain(replacements, resolve);
      ShapeKeepsIff(c.binary, c.args, sub);
      if !Displaced(c.binary, c.args, sub) {
        SameShapeHolds(argv, replacements, resolve);
        RoundTripHolds(argv, replacements, cwd, resolve);
      } else {
        DisplacementLosesOne(argv, replacements, cwd, resolve);
      }
    }
  }

  lemma DisplacementLosesOne(argv: seq<string>, replacements: map<string, string>, cwd: string,
      resolve: string -> string)
    requires forall p | p in replacements.Values :: Positional(p)
    requires DisplacedIn(argv, replacements, resolve)
    ensures exists a :: IsBinding(argv, cwd, resolve, a)
                        && !IsBinding(Rewritten(argv, replacements, resolve), cwd, resolve,
                          Rebound(replacements, resolve, a))
    ensures !RoundTrips(argv, replacements, cwd, resolve)
  {
    var c := CommandOf(argv);
    var sub := v => Substitute(replacements, resolve, v);
    ReplacementsArePlain(replacements, resolve);
    var k := DisplacedPlace(c.binary, c.args, sub);
    CommandKeeps(argv, replacements, resolve);
    hide RewriteArgs, BoundPrefix, Implicit, CommandOf, Rewritten, Displaced;
    var a := PlaceBinding(argv, cwd, resolve, k);
    UnboundAfter(argv, replacements, cwd, resolve, k, Rebound(replacements, resolve, a));
    hide IsBinding, Rebound;
  }

  lemma PlaceBinding(argv: seq<string>, cwd: string, resolve: string -> string, k: nat) returns (a: Binding)
    requires InnerStart(argv) < |argv| && k < |CommandOf(argv).args|
    requires BoundPrefix(CommandOf(argv).binary, CommandOf(argv).args, k) == Some("")
    ensures IsBinding(argv, cwd, resolve, a) && a.index == Some(CommandOf(argv).first + k)
  {
    hide BoundPrefix, Implicit;
    a := Binding(resolve(argv[CommandOf(argv).first + k][0..]), Some(CommandOf(argv).first + k), "");
  }

  lemma UnboundAfter(argv: seq<string>, replacements: map<string, string>, cwd: string, resolve: string -> string,
      k: nat, b: Binding)
    requires InnerStart(argv) < |argv|
    requires var c := CommandOf(argv);
             BoundPrefix(c.binary, RewriteArgs(c.binary, c.args, v => Substitute(replacements, resolve, v)), k).None?
    requires b.index == Some(CommandOf(argv).first + k)
    ensures !IsBinding(Rewritten(argv, replacements, resolve), cwd, resolve, b)
  {
    CommandKeeps(argv, replacements, resolve);
    hide BoundPrefix, Implicit, RewriteArgs, CommandOf, Rewritten;
  }

  lemma DisplacedPlace(binary: string, args: seq<string>, sub: string -> string) returns (k: nat)
    requires Plain(sub) && Displaced(binary, args, sub)
    ensures k < |args| && BoundPrefix(binary, args, k) == Some("")
    ensures BoundPrefix(binary, RewriteArgs(binary, args, sub), k).None?
  {
    hide RewriteArgs, FlagPrefix, Plain, Promoted;
    var j: nat;
    k, j :| k < j && PlaceBound(binary, args, k) && FlagPrefix(binary, args, 0, k).None?
      && Promoted(binary, args, sub, j);
    PlaceKeepsIff(binary, args, sub, k);
    FlagsKeep(binary, args, sub, 0);
  }

  /** Length and every position that carries no replaced output are untouched. */
  lemma UnboundTokensStay(argv: seq<string>, replacements: map<string, string>, cwd: string, resolve: string -> string,
      i: nat)
    requires i < |argv|
    requires forall b | IsBinding(argv, cwd, resolve, b) && b.index == Some(i) :: b.path !in replacements
    ensures |Rewritten(argv, replacements, resolve)| == |argv| && Rewritten(argv, replacements, resolve)[i] == argv[i]
  {
    hide BoundPrefix, Implicit;
    if InnerStart(argv) < |argv| {
      var c := CommandOf(argv);
      if i >= c.first {
        var p := BoundPrefix(c.binary, c.args, i - c.first);
        if p.Some? && Starts(argv[i], p.value) {
          var b := Binding(resolve(argv[i][|p.value|..]), Some(i), p.value);
          assert IsBinding(argv, cwd, resolve, b);
          RewrittenAt(argv, replacements, cwd, resolve, b);
        }
      }
    }
  }

  /** The exception is real: `cp a b -o -x` with the output `-x` replaced loses the output `b`. */
  lemma DisplacementExample(cwd: string, resolve: string -> string)
    ensures !RoundTrips(["cp", "a", "b", "-o", "-x"], map[resolve("-x") := "/provider/x"], cwd, resolve)
  {
    hide Displaced, RoundTrips, Rewritten, IsBinding, CommandOf, InnerStart;
    assert Positional("/provider/x") by { assert "/provider/x"[..1] == "/"; }
    var argv := ["cp", "a", "b", "-o", "-x"];
    var replacements := map[resolve("-x") := "/provider/x"];
    CpCommand(argv);
    CpDisplaced(v => Substitute(replacements, resolve, v));
    DisplacementLosesOne(argv, replacements, cwd, resolve);
  }

  lemma CpCommand(argv: seq<string>)
    requires argv == ["cp", "a", "b", "-o", "-x"]
    ensures InnerStart(argv) == 0 && CommandOf(argv) == Command("cp", ["a", "b", "-o", "-x"], 1)
  {
    assert LastComponent("cp", "", "") == LastComponent("p", "c", "") == LastComponent("", "cp", "") == "cp";
    assert WordSplitting.Lower("cp") == "cp";
    assert argv[1..] == ["a", "b", "-o", "-x"];
  }

  lemma CpDisplaced(sub: string -> string)
    requires sub("-x") != "-x"
    ensures Displaced("cp", ["a", "b", "-o", "-x"], sub)
  {
    var args := ["a", "b", "-o", "-x"];
    InlineIsDashed("cp", "a");
    InlineIsDashed("cp", "b");
    hide InlinePrefix, Displaced;
    assert "a"[..1] == "a" && "b"[..1] == "b" && "-o"[..1] == "-" && "-x"[..1] == "-";
    assert !DashLed("a") && !DashLed("b") && DashLed(args[2]) && DashLed(args[3]);
    assert !TakesNext("cp", "a") && !TakesNext("cp", "b") && TakesNext("cp", "-o");
    assert FlagPrefix("cp", args, 2, 3) == Some("");
    assert FlagPrefix("cp", args, 1, 3) == Some("") && FlagPrefix("cp", args, 1, 1) == None;
    assert FlagPrefix("cp", args, 0, 3) == Some("") && FlagPrefix("cp", args, 0, 1) == None;
    assert Promoted("cp", args, sub, 3) && PlaceBound("cp", args, 1);
    DisplacedBy("cp", args, sub, 1, 3);
  }

  lemma DisplacedBy(binary: string, args: seq<string>, sub: string -> string, k: nat, j: nat)
    requires binary in COPY_BINARIES && k < j && PlaceBound(binary, args, k)
    requires FlagPrefix(binary, args, 0, k).None? && Promoted(binary, args, sub, j)
    ensures Displaced(binary, args, sub)
  {}
}
