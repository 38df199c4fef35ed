/** Rewriting the output arguments of a command vector, and re-analysing the result. */
module OutputRewriting {
  import opened Prelude
  import opened CommandOutputs
  import WordSplitting

  // ---- Positional outputs ----

  ghost predicate PlacesOf(binary: string, args: seq<string>, raws: seq<Raw>) {
    && (forall r | r in raws ::
      r.pos.Some? && PlaceBound(binary, args, r.pos.value) && r == RawAt(args, r.pos.value, ""))
    && (forall k: nat | PlaceBound(binary, args, k) :: RawAt(args, k, "") in raws)
  }

  /** The last positional argument of a copy, or every one of a creation. */
  method ScanPlaces(binary: string, args: seq<string>) returns (raws: seq<Raw>)
    ensures PlacesOf(binary, args, raws)
  {
    raws := [];
    if binary in COPY_BINARIES {
      for i := |args| downto 0
        invariant forall j | i <= j < |args| :: !Positional(args[j])
      {
        if Positional(args[i]) {
          return [Raw(args[i], Some(i), "")];
        }
      }
    } else if binary in CREATE_BINARIES {
      for i := 0 to |args|
        invariant forall r | r in raws ::
            r.pos.Some? && PlaceBound(binary, args, r.pos.value) && r == RawAt(args, r.pos.value, "")
        invariant forall k: nat | k < i && PlaceBound(binary, args, k) :: RawAt(args, k, "") in raws
      {
        if Positional(args[i]) {
          raws := raws + [Raw(args[i], Some(i), "")];
        }
      }
    }
  }

  // ---- Bindings ----

  datatype Binding = Binding(path: string, index: Option<nat>, prefix: string)

  /** The analysed command: its binary, its arguments, and where they start in the vector. */
  datatype Command = Command(binary: string, args: seq<string>, first: nat)

  function CommandOf(argv: seq<string>): (c: Command)
    requires InnerStart(argv) < |argv|
    ensures c.first <= |argv| && c.args == argv[c.first..]
  {
    var start := InnerStart(argv);
    Command(WordSplitting.Lower(BaseName(argv[start])), argv[start + 1..], start + 1)
  }

  /** What an output binding of the vector is, position by position. `resolve` is the absolute
      form of a path text as seen from the working directory `cwd`. */
  ghost predicate IsBinding(argv: seq<string>, cwd: string, resolve: string -> string, b: Binding) {
    && InnerStart(argv) < |argv|
    && var c := CommandOf(argv);
       || (&& b.index.Some? && c.first <= b.index.value < |argv|
           && BoundPrefix(c.binary, c.args, b.index.value - c.first) == Some(b.prefix)
           && Starts(argv[b.index.value], b.prefix)
           && b.path == resolve(argv[b.index.value][|b.prefix|..]))
       || (b == Binding(resolve(cwd), None, "") && Implicit(c.binary, c.args, 0))
  }

  lemma {:induction false} FlagKinds(binary: string, args: seq<string>, index: nat, k: nat)
    requires FlagPrefix(binary, args, index, k).Some?
    ensures k < |args|
    ensures FlagPrefix(binary, args, index, k).value != "" ==> !Positional(args[k])
    decreases |args| - index
  {
    hide TakesNext, PrefixFlags, ValueFlags, NMAP_FLAGS;
    FlagPrefixFits(binary, args, index, k);
    if TakesNext(binary, args[index]) && index + 1 < |args| {
      if k > index + 1 { FlagKinds(binary, args, index + 2, k); }
    } else if k == index {
      InlineIsDashed(binary, args[k]);
    } else {
      FlagKinds(binary, args, index + 1, k);
    }
  }

  lemma InlineIsDashed(binary: string, token: string)
    ensures InlinePrefix(binary, token).Some? ==> DashLed(token) && InlinePrefix(binary, token).value != ""
    ensures TakesNext(binary, token) ==> DashLed(token)
  {
    PrefixFormIsLong(binary, token);
    FirstMatchStarts(PrefixFlags(binary), token);
    if Starts(token, "-o") { assert token[..2][0] == token[0]; }
    if |token| > 3 { assert token[..3][0] == token[0]; }
  }

  /** `r` is the raw binding of a bound position, or of the working directory. */
  ghost predicate Due(binary: string, args: seq<string>, cwd: string, r: Raw) {
    || (&& r.pos.Some? && r.pos.value < |args| && BoundPrefix(binary, args, r.pos.value) == Some(r.prefix)
        && Starts(args[r.pos.value], r.prefix) && r == RawAt(args, r.pos.value, r.prefix))
    || (r == Raw(cwd, None, "") && Implicit(binary, args, 0))
  }

  lemma RawIsDue(binary: string, args: seq<string>, cwd: string, flags: seq<Raw>, places: seq<Raw>, r: Raw)
    requires FlagsBelow(binary, args, |args|, flags) && ImplicitBelow(binary, args, |args|, cwd, flags)
    requires PlacesOf(binary, args, places) && r in flags + places
    ensures Due(binary, args, cwd, r)
  {
    hide TakesNext, InlinePrefix, PlaceBound, NMAP_FLAGS;
    if r.pos.Some? {
      var k := r.pos.value;
      PlaceNeedsPositional(binary, args, k);
      if FlagPrefix(binary, args, 0, k).Some? {
        FlagPrefixFits(binary, args, 0, k);
        FlagKinds(binary, args, 0, k);
      }
      if r in places { assert args[k][..0] == ""; }
    }
  }

  lemma DueIsRaw(binary: string, args: seq<string>, cwd: string, flags: seq<Raw>, places: seq<Raw>, r: Raw)
    requires FlagsBelow(binary, args, |args|, flags) && ImplicitBelow(binary, args, |args|, cwd, flags)
    requires PlacesOf(binary, args, places) && Due(binary, args, cwd, r)
    ensures r in flags + places
  {
    hide TakesNext, InlinePrefix, PlaceBound, NMAP_FLAGS;
    if r.pos.Some? {
      var k := r.pos.value;
      if FlagPrefix(binary, args, 0, k).Some? {
        var f :| f in flags && f.pos == Some(k);
        assert f == r;
      } else {
        assert RawAt(args, k, "") in places;
      }
    }
  }

  lemma PlaceNeedsPositional(binary: string, args: seq<string>, k: nat)
    ensures PlaceBound(binary, args, k) ==> k < |args| && Positional(args[k])
  {}

  function BindingOf(resolve: string -> string, first: nat, r: Raw): Binding {
    Binding(resolve(r.value), if r.pos.Some? then Some(first + r.pos.value) else None, r.prefix)
  }

  /** Resolve the raw bindings, keeping the first of equal ones. */
  method Resolve(raws: seq<Raw>, first: nat, resolve: string -> string) returns (bindings: seq<Binding>)
    ensures forall b :: b in bindings <==> exists r | r in raws :: b == BindingOf(resolve, first, r)
    ensures forall i, j | 0 <= i < j < |bindings| :: bindings[i] != bindings[j]
  {
    bindings := [];
    for i := 0 to |raws|
      invariant forall b :: b in bindings <==> exists r | r in raws[..i] :: b == BindingOf(resolve, first, r)
      invariant forall i, j | 0 <= i < j < |bindings| :: bindings[i] != bindings[j]
    {
      assert raws[..i + 1] == raws[..i] + [raws[i]];
      var binding := BindingOf(resolve, first, raws[i]);
      if binding !in bindings {
        bindings := bindings + [binding];
      }
    }
    assert raws[..|raws|] == raws;
  }

  /** `command_output_bindings`: exactly the bindings of the vector, each once. */
  method OutputBindings(argv: seq<string>, cwd: string, resolve: string -> string) returns (bindings: seq<Binding>)
    ensures forall b :: b in bindings <==> IsBinding(argv, cwd, resolve, b)
    ensures forall i, j | 0 <= i < j < |bindings| :: bindings[i] != bindings[j]
    ensures forall b, c | b in bindings && c in bindings && b.index == c.index && b.index.Some? :: b == c
  {
    hide IsBinding, FlagsBelow, ImplicitBelow, PlacesOf, BaseName, WordSplitting.Lower, BindingOf;
    var sudo, inner := StripSudo(argv);
    if inner == [] {
      NothingToBind(argv, cwd, resolve);
      return [];
    }
    var c := CommandOf(argv);
    assert c.first == |argv| - |inner| + 1;
    assert c.binary == WordSplitting.Lower(BaseName(inner[0])) && c.args == inner[1..];
    var flags := ScanFlags(c.binary, c.args, cwd);
    var places := ScanPlaces(c.binary, c.args);
    bindings := Resolve(flags + places, c.first, resolve);
    forall b ensures b in bindings <==> IsBinding(argv, cwd, resolve, b) {
      BindingsFromRaws(argv, cwd, resolve, flags, places, b);
    }
    forall b, c | b in bindings && c in bindings && b.index == c.index && b.index.Some? ensures b == c {
      OnePerIndex(argv, cwd, resolve, b, c);
    }
  }

  /** Where the arguments of the command are written as these items, a position is bound exactly when
      an item puts an output there, behind the item's prefix, or when it stands in an output's place. */
  lemma BindingsAsWritten(argv: seq<string>, cwd: string, resolve: string -> string, items: seq<Item>, k: nat,
      prefix: string, path: string)
    requires InnerStart(argv) < |argv| && Written(items) == argv[InnerStart(argv) + 1..]
    requires AllFit(CommandOf(argv).binary, items) && k < |Written(items)|
    ensures |AllOutputs(items)| == |Written(items)|
    ensures IsBinding(argv, cwd, resolve, Binding(path, Some(InnerStart(argv) + 1 + k), prefix)) <==>
            && (|| AllOutputs(items)[k] == Some(prefix)
                || (AllOutputs(items)[k] == None && prefix == ""
                    && PlaceBound(CommandOf(argv).binary, Written(items), k)))
            && |prefix| <= |Written(items)[k]| && path == resolve(Written(items)[k][|prefix|..])
  {
    hide PlaceBound, AllFit, AllOutputs, Written;
    var c := CommandOf(argv);
    assert c.args[0..] == c.args;
    ReadsAsWritten(c.binary, items, c.args, 0);
    assert argv[c.first + k] == c.args[k];
    if FlagPrefix(c.binary, c.args, 0, k).Some? { FlagPrefixFits(c.binary, c.args, 0, k); }
  }

  lemma NothingToBind(argv: seq<string>, cwd: string, resolve: string -> string)
    ensures InnerStart(argv) >= |argv| ==> forall b :: !IsBinding(argv, cwd, resolve, b)
  {}

  /** Each position of the vector carries at most one binding, and it lies inside the vector. */
  lemma OnePerIndex(argv: seq<string>, cwd: string, resolve: string -> string, b: Binding, c: Binding)
    requires IsBinding(argv, cwd, resolve, b) && IsBinding(argv, cwd, resolve, c)
    requires b.index == c.index && b.index.Some?
    ensures b == c && InnerStart(argv) < b.index.value < |argv|
  {
    hide BoundPrefix, Implicit;
  }

  lemma BindingHasRaw(argv: seq<string>, cwd: string, resolve: string -> string, b: Binding) returns (r: Raw)
    requires IsBinding(argv, cwd, resolve, b)
    ensures Due(CommandOf(argv).binary, CommandOf(argv).args, cwd, r)
        && b == BindingOf(resolve, CommandOf(argv).first, r)
  {
    hide BoundPrefix, Implicit;
    var c := CommandOf(argv);
    r := if b.index.None? then Raw(cwd, None, "")
         else Raw(argv[b.index.value][|b.prefix|..], Some(b.index.value - c.first), b.prefix);
  }

  lemma RawGivesBinding(argv: seq<string>, cwd: string, resolve: string -> string, r: Raw)
    requires InnerStart(argv) < |argv| && Due(CommandOf(argv).binary, CommandOf(argv).args, cwd, r)
    ensures IsBinding(argv, cwd, resolve, BindingOf(resolve, CommandOf(argv).first, r))
  {
    hide BoundPrefix, Implicit;
  }

  lemma BindingsFromRaws(argv: seq<string>, cwd: string, resolve: string -> string, flags: seq<Raw>, places: seq<Raw>,
      b: Binding)
    requires InnerStart(argv) < |argv|
    requires var c := CommandOf(argv);
             FlagsBelow(c.binary, c.args, |c.args|, flags) && ImplicitBelow(c.binary, c.args, |c.args|, cwd, flags)
             && PlacesOf(c.binary, c.args, places)
    ensures IsBinding(argv, cwd, resolve, b) <==>
            exists r | r in flags + places :: b == BindingOf(resolve, CommandOf(argv).first, r)
  {
    var c := CommandOf(argv);
    hide FlagsBelow, ImplicitBelow, PlacesOf, IsBinding, Due, CommandOf, BindingOf;
    if IsBinding(argv, cwd, resolve, b) {
      var r := BindingHasRaw(argv, cwd, resolve, b);
      DueIsRaw(c.binary, c.args, cwd, flags, places, r);
    }
    if exists r | r in flags + places :: b == BindingOf(resolve, c.first, r) {
      var r :| r in flags + places && b == BindingOf(resolve, c.first, r);
      RawIsDue(c.binary, c.args, cwd, flags, places, r);
      RawGivesBinding(argv, cwd, resolve, r);
    }
  }

  // ---- Rewriting ----

  /** The text an output is rewritten to; texts whose path has no replacement stay. */
  function Substitute(replacements: map<string, string>, resolve: string -> string, value: string): string {
    if resolve(value) in replacements then replacements[resolve(value)] else value
  }

  /** One argument with its output text, if it is bound, substituted behind its prefix. */
  function RewriteArg(binary: string, args: seq<string>, sub: string -> string, k: nat): string
    requires k < |args|
  {
    var p := BoundPrefix(binary, args, k);
    if p.Some? && Starts(args[k], p.value) then p.value + sub(args[k][|p.value|..]) else args[k]
  }

  function RewriteArgs(binary: string, args: seq<string>, sub: string -> string): seq<string> {
    seq(|args|, k requires 0 <= k < |args| => RewriteArg(binary, args, sub, k))
  }

  function Rewritten(argv: seq<string>, replacements: map<string, string>, resolve: string -> string): (r: seq<string>)
    ensures |r| == |argv|
  {
    if InnerStart(argv) >= |argv| then argv
    else
      var c := CommandOf(argv);
      argv[..c.first] + RewriteArgs(c.binary, c.args, v => Substitute(replacements, resolve, v))
  }

  /** `rewrite_command_output_paths`, with the replacements keyed by resolved host path. */
  method RewriteOutputs(argv: seq<string>, replacements: map<string, string>, cwd: string, resolve: string -> string)
    returns (rewritten: seq<string>)
    ensures rewritten == Rewritten(argv, replacements, resolve)
  {
    hide IsBinding, Rewritten;
    var bindings := OutputBindings(argv, cwd, resolve);
    rewritten := argv;
    for n := 0 to |bindings|
      invariant |rewritten| == |argv|
      invariant forall i | 0 <= i < |argv| ::
          rewritten[i] == if Touched(bindings[..n], replacements, i) then Rewritten(argv, replacements, resolve)[i]
            else argv[i]
    {
      var binding := bindings[n];
      assert bindings[..n + 1] == bindings[..n] + [binding];
      RewrittenAt(argv, replacements, cwd, resolve, binding);
      if binding.index.None? || binding.path !in replacements {
        continue;
      }
      rewritten := rewritten[binding.index.value := binding.prefix + replacements[binding.path]];
    }
    assert bindings[..|bindings|] == bindings;
    forall i | 0 <= i < |argv| ensures rewritten[i] == Rewritten(argv, replacements, resolve)[i] {
      UntouchedAt(argv, replacements, cwd, resolve, bindings, i);
    }
  }

  ghost predicate Touched(bindings: seq<Binding>, replacements: map<string, string>, i: nat) {
    exists b | b in bindings :: b.index == Some(i) && b.path in replacements
  }

  lemma RewrittenAt(argv: seq<string>, replacements: map<string, string>, cwd: string, resolve: string -> string,
      b: Binding)
    requires IsBinding(argv, cwd, resolve, b)
    ensures b.index.Some? ==>
              && b.index.value < |argv|
              && Rewritten(argv, replacements, resolve)[b.index.value] ==
                 if b.path in replacements then b.prefix + replacements[b.path] else argv[b.index.value]
  {
    hide BoundPrefix, Implicit, InnerStart, BaseName, WordSplitting.Lower;
    if b.index.Some? {
      var t := argv[b.index.value];
      assert t == b.prefix + t[|b.prefix|..];
    }
  }

  lemma UntouchedAt(argv: seq<string>, replacements: map<string, string>, cwd: string, resolve: string -> string,
                    bindings: seq<Binding>, i: nat)
    requires i < |argv| && forall b :: b in bindings <==> IsBinding(argv, cwd, resolve, b)
    ensures !Touched(bindings, replacements, i) ==> Rewritten(argv, replacements, resolve)[i] == argv[i]
  {
    hide BoundPrefix, Implicit, InnerStart, BaseName, WordSplitting.Lower;
    if InnerStart(argv) < |argv| {
      var c := CommandOf(argv);
      if i >= c.first {
        var p := BoundPrefix(c.binary, c.args, i - c.first);
        if p.Some? && Starts(argv[i], p.value) {
          var b := Binding(resolve(argv[i][|p.value|..]), Some(i), p.value);
          assert b in bindings;
          RewrittenAt(argv, replacements, cwd, resolve, b);
        }
      }
    }
  }
}
