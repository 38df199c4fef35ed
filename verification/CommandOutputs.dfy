/** Output arguments of a command vector: finding them, and rewriting exactly those. */
module CommandOutputs {
  import opened Prelude

  // ---- Text helpers ----

  predicate Starts(s: string, prefix: string) {
    |prefix| <= |s| && s[..|prefix|] == prefix
  }

  predicate DashLed(s: string) { Starts(s, "-") }

  /** The last path component: what is left after dropping empty and `.` components. */
  function BaseName(path: string): string {
    LastComponent(path, "", "")
  }

  function LastComponent(path: string, current: string, last: string): string
    decreases |path|
  {
    var kept := if current == "" || current == "." then last else current;
    if path == "" then kept
    else if path[0] == '/' then LastComponent(path[1..], "", kept)
    else LastComponent(path[1..], current + [path[0]], last)
  }

  // ---- sudo ----

  const SUDO_VALUE_FLAGS := {
    "-u", "--user", "-g", "--group", "-p", "--prompt", "-C", "--close-from", "-h", "--host", "-R", "--chroot",
    "-D", "--chdir", "-T", "--command-timeout", "-r", "--role", "-t", "--type" }

  /** Where the wrapped command starts, from position `i` among sudo's own options. */
  function SkipOptions(argv: seq<string>, i: nat): (r: nat)
    ensures r <= |argv|
    decreases |argv| - i
  {
    if i >= |argv| then |argv|
    else if argv[i] == "--" then i + 1
    else if DashLed(argv[i]) then SkipOptions(argv, i + if argv[i] in SUDO_VALUE_FLAGS then 2 else 1)
    else i
  }

  predicate IsSudo(argv: seq<string>) {
    argv != [] && BaseName(argv[0]) == "sudo"
  }

  function InnerStart(argv: seq<string>): (r: nat)
    ensures r <= |argv|
  {
    if IsSudo(argv) then SkipOptions(argv, 1) else 0
  }

  /** `strip_sudo`. */
  method StripSudo(argv: seq<string>) returns (sudo: bool, inner: seq<string>)
    ensures sudo == IsSudo(argv) && inner == argv[InnerStart(argv)..]
  {
    if argv == [] || BaseName(argv[0]) != "sudo" {
      return false, argv;
    }
    var i := 1;
    while i < |argv|
      invariant SkipOptions(argv, i) == SkipOptions(argv, 1)
      decreases |argv| - i
    {
      var tok := argv[i];
      if tok == "--" {
        i := i + 1;
        return true, argv[i..];
      }
      if DashLed(tok) {
        i := i + if tok in SUDO_VALUE_FLAGS then 2 else 1;
      } else {
        return true, argv[i..];
      }
    }
    return true, [];
  }

  // ---- Which flags a binary gives an output ----

  const NMAP_FLAGS := {"-oN", "-oX", "-oG", "-oA"}
  const COPY_BINARIES := {"cp", "mv", "install"}
  const CREATE_BINARIES := {"touch", "mkdir", "tee"}

  function ValueFlags(binary: string): set<string> {
    {"--output", "--output-file"} +
    if binary == "curl" then {"-o", "--output-dir"}
    else if binary == "wget" then {"-O", "--output-document", "-P", "--directory-prefix"}
    else {"-o"}
  }

  function PrefixFlags(binary: string): seq<string> {
    ["--output=", "--output-file="] +
    if binary == "curl" then ["--output-dir="]
    else if binary == "wget" then ["--output-document=", "--directory-prefix="]
    else []
  }

  /** The first prefix flag that the token starts with. */
  function FirstMatch(prefixes: seq<string>, token: string): Option<string>
    decreases |prefixes|
  {
    if prefixes == [] then None
    else if Starts(token, prefixes[0]) then Some(prefixes[0])
    else FirstMatch(prefixes[1..], token)
  }

  // ---- The meaning of each argument position ----

  /** The flag takes the next argument as its value. */
  predicate TakesNext(binary: string, token: string) {
    token in ValueFlags(binary) || (binary == "nmap" && token in NMAP_FLAGS)
  }

  /** The part of a token in front of an output that the token carries itself. */
  function InlinePrefix(binary: string, token: string): Option<string> {
    var matched := FirstMatch(PrefixFlags(binary), token);
    if matched.Some? && |token| > |matched.value| then matched
    else if binary == "curl" && Starts(token, "-o") && token != "-o" then Some("-o")
    else if binary == "nmap" && |token| > 3 && token[..3] in NMAP_FLAGS then Some(token[..3])
    else None
  }

  /** Scanning from `index`, the prefix of the output bound at position `k` by a flag. */
  function FlagPrefix(binary: string, args: seq<string>, index: nat, k: nat): Option<string>
    decreases |args| - index
  {
    if index >= |args| || k < index then None
    else if TakesNext(binary, args[index]) && index + 1 < |args| then
      if k == index then None else if k == index + 1 then Some("") else FlagPrefix(binary, args, index + 2, k)
    else if k == index then InlinePrefix(binary, args[index])
    else FlagPrefix(binary, args, index + 1, k)
  }

  /** Scanning from `index`, some token asks curl to write into the working directory. */
  predicate Implicit(binary: string, args: seq<string>, index: nat)
    decreases |args| - index
  {
    if binary != "curl" || index >= |args| then false
    else if TakesNext(binary, args[index]) && index + 1 < |args| then Implicit(binary, args, index + 2)
    else args[index] == "-O" || Implicit(binary, args, index + 1)
  }

  predicate Positional(value: string) {
    value != "" && !DashLed(value)
  }

  /** Position `k` is an output because of where it stands. */
  predicate PlaceBound(binary: string, args: seq<string>, k: nat) {
    && k < |args| && Positional(args[k])
    && (|| binary in CREATE_BINARIES
        || (binary in COPY_BINARIES && forall j | k < j < |args| :: !Positional(args[j])))
  }

  /** The prefix of the output bound at position `k`, if any: flags first, then position. */
  function BoundPrefix(binary: string, args: seq<string>, k: nat): Option<string> {
    var flag := FlagPrefix(binary, args, 0, k);
    if flag.Some? then flag else if PlaceBound(binary, args, k) then Some("") else None
  }

  /** A bound position holds its prefix followed by the output text. */
  lemma {:induction false} FlagPrefixFits(binary: string, args: seq<string>, index: nat, k: nat)
    requires FlagPrefix(binary, args, index, k).Some?
    ensures k < |args| && Starts(args[k], FlagPrefix(binary, args, index, k).value)
    decreases |args| - index
  {
    hide PrefixFlags, ValueFlags, TakesNext;
    if TakesNext(binary, args[index]) && index + 1 < |args| {
      if k > index + 1 { FlagPrefixFits(binary, args, index + 2, k); }
    } else if k == index {
      FirstMatchStarts(PrefixFlags(binary), args[k]);
    } else {
      FlagPrefixFits(binary, args, index + 1, k);
    }
  }

  lemma {:induction false} FirstMatchStarts(prefixes: seq<string>, token: string)
    ensures FirstMatch(prefixes, token).Some? ==>
              FirstMatch(prefixes, token).value in prefixes && Starts(token, FirstMatch(prefixes, token).value)
    decreases |prefixes|
  {
    if prefixes != [] { FirstMatchStarts(prefixes[1..], token); }
  }

  // ---- The scan ----

  datatype Raw = Raw(value: string, pos: Option<nat>, prefix: string)

  /** The raw binding that belongs at position `k`. */
  function RawAt(args: seq<string>, k: nat, prefix: string): Raw
    requires k < |args| && |prefix| <= |args[k]|
  {
    Raw(args[k][|prefix|..], Some(k), prefix)
  }

  /** The list holds exactly the flag bindings of the positions below `index`. */
  ghost predicate FlagsBelow(binary: string, args: seq<string>, index: nat, raws: seq<Raw>) {
    && (forall r | r in raws && r.pos.Some? ::
          && r.pos.value < |args| && r.pos.value < index
          && FlagPrefix(binary, args, 0, r.pos.value) == Some(r.prefix)
          && |r.prefix| <= |args[r.pos.value]| && r == RawAt(args, r.pos.value, r.prefix))
    && (forall k | 0 <= k < index && k < |args| && FlagPrefix(binary, args, 0, k).Some? ::
          exists r | r in raws :: r.pos == Some(k))
  }

  ghost predicate SuffixScan(binary: string, args: seq<string>, index: nat) {
    forall k | index <= k :: FlagPrefix(binary, args, 0, k) == FlagPrefix(binary, args, index, k)
  }

  /** The list holds the working directory exactly when a token before `index` asked for it. */
  ghost predicate ImplicitBelow(binary: string, args: seq<string>, index: nat, cwd: string, raws: seq<Raw>) {
    && (forall r | r in raws && r.pos.None? :: r == Raw(cwd, None, ""))
    && (Implicit(binary, args, 0) <==> Raw(cwd, None, "") in raws || Implicit(binary, args, index))
  }

  /** One scanned token consumed the next argument. */
  lemma TookNext(binary: string, args: seq<string>, index: nat, cwd: string, raws: seq<Raw>)
    requires index + 1 < |args| && TakesNext(binary, args[index])
    requires FlagsBelow(binary, args, index, raws) && SuffixScan(binary, args, index)
    requires ImplicitBelow(binary, args, index, cwd, raws)
    ensures var longer := raws + [RawAt(args, index + 1, "")];
            && FlagsBelow(binary, args, index + 2, longer) && SuffixScan(binary, args, index + 2)
            && ImplicitBelow(binary, args, index + 2, cwd, longer)
  {
    hide TakesNext, InlinePrefix, ValueFlags;
    var longer := raws + [RawAt(args, index + 1, "")];
    assert FlagPrefix(binary, args, 0, index).None? && FlagPrefix(binary, args, 0, index + 1) == Some("");
    forall k | 0 <= k < index + 2 && k < |args| && FlagPrefix(binary, args, 0, k).Some?
      ensures exists r | r in longer :: r.pos == Some(k)
    {
      if k < index {
        var r :| r in raws && r.pos == Some(k);
        assert r in longer;
      } else {
        assert RawAt(args, index + 1, "") in longer;
      }
    }
  }

  /** One scanned token stood alone: it binds inline or not at all. */
  lemma StoodAlone(binary: string, args: seq<string>, index: nat, cwd: string, raws: seq<Raw>, added: seq<Raw>)
    requires index < |args| && !(TakesNext(binary, args[index]) && index + 1 < |args|)
    requires FlagsBelow(binary, args, index, raws) && SuffixScan(binary, args, index)
    requires ImplicitBelow(binary, args, index, cwd, raws)
    requires var p := InlinePrefix(binary, args[index]);
             added == (if p.Some? then [Raw(args[index][|p.value|..], Some(index), p.value)] else [])
                    + (if binary == "curl" && args[index] == "-O" then [Raw(cwd, None, "")] else [])
    ensures FlagsBelow(binary, args, index + 1, raws + added) && SuffixScan(binary, args, index + 1)
            && ImplicitBelow(binary, args, index + 1, cwd, raws + added)
  {
    assert FlagPrefix(binary, args, 0, index) == InlinePrefix(binary, args[index]);
    if InlinePrefix(binary, args[index]).Some? { FlagPrefixFits(binary, args, 0, index); }
    hide TakesNext, InlinePrefix, ValueFlags;
    var longer := raws + added;
    forall k | 0 <= k < index + 1 && FlagPrefix(binary, args, 0, k).Some?
      ensures exists r | r in longer :: r.pos == Some(k)
    {
      if k < index {
        var r :| r in raws && r.pos == Some(k);
        assert r in longer;
      } else {
        var r :| r in added && r.pos == Some(k);
        assert r in longer;
      }
    }
  }

  predicate LongForm(token: string) {
    |token| >= 2 && token[0] == '-' && token[1] == '-'
  }

  lemma PrefixFormIsLong(binary: string, token: string)
    ensures FirstMatch(PrefixFlags(binary), token).Some? ==> LongForm(token)
  {
    FirstMatchStarts(PrefixFlags(binary), token);
    var m := FirstMatch(PrefixFlags(binary), token);
    if m.Some? {
      assert m.value[0] == '-' && m.value[1] == '-';
      assert token[..|m.value|][1] == '-' && token[..|m.value|][0] == '-';
    }
  }

  lemma ShortForms(token: string)
    ensures Starts(token, "-o") ==> !LongForm(token) && token != "-O"
    ensures |token| >= 3 && token[..3] in NMAP_FLAGS ==> !LongForm(token) && (|token| == 3 ==> token in NMAP_FLAGS)
    ensures token in NMAP_FLAGS ==> |token| == 3 && token[..3] == token
    ensures !LongForm("-O")
  {
    if |token| >= 3 {
      assert token[..3][1] == token[1];
      if |token| == 3 { assert token[..3] == token; }
    }
    if Starts(token, "-o") { assert token[..2][1] == token[1]; }
  }

  /** The inline forms exclude one another. */
  lemma InlineFormsExclusive(binary: string, token: string)
    ensures FirstMatch(PrefixFlags(binary), token).Some? ==>
              !Starts(token, "-o") && token != "-O" && !(|token| >= 3 && token[..3] in NMAP_FLAGS)
    ensures Starts(token, "-o") ==> token != "-O"
    ensures |token| >= 3 && token[..3] in NMAP_FLAGS ==> token != "-O" && (|token| == 3 ==> token in NMAP_FLAGS)
    ensures token in NMAP_FLAGS ==> |token| == 3 && token[..3] == token
  {
    hide Starts, PrefixFlags;
    PrefixFormIsLong(binary, token);
    ShortForms(token);
  }

  lemma NoEquals(binary: string, token: string)
    requires TakesNext(binary, token)
    ensures '=' !in token
    ensures binary == "curl" ==> token == "-o" || LongForm(token)
    ensures binary == "nmap" ==> token == "-o" || LongForm(token) || token in NMAP_FLAGS
  {}

  lemma PrefixHasEquals(binary: string, token: string)
    ensures FirstMatch(PrefixFlags(binary), token).Some? ==> '=' in token
  {
    FirstMatchStarts(PrefixFlags(binary), token);
    var m := FirstMatch(PrefixFlags(binary), token);
    if m.Some? {
      var n := |m.value|;
      assert m.value[n - 1] == '=';
      assert token[..n][n - 1] == token[n - 1];
    }
  }

  /** A value flag that ends the vector binds nothing by itself. */
  lemma LoneFlagBindsNothing(binary: string, token: string)
    requires TakesNext(binary, token)
    ensures InlinePrefix(binary, token).None? && (binary == "curl" ==> token != "-O")
  {
    NoEquals(binary, token);
    PrefixHasEquals(binary, token);
    ShortForms(token);
    hide PrefixFlags, ValueFlags, TakesNext;
  }

  /** The flag loop of `command_output_bindings`. */
  method ScanFlags(binary: string, args: seq<string>, cwd: string) returns (raws: seq<Raw>)
    ensures FlagsBelow(binary, args, |args|, raws)
    ensures ImplicitBelow(binary, args, |args|, cwd, raws)
  {
    hide FlagsBelow, SuffixScan, ImplicitBelow;
    raws := [];
    var index := 0;
    ScanStart(binary, args, cwd);
    while index < |args|
      invariant index <= |args|
      invariant FlagsBelow(binary, args, index, raws) && SuffixScan(binary, args, index)
      invariant ImplicitBelow(binary, args, index, cwd, raws)
      decreases |args| - index
    {
      var token := args[index];
      if token in ValueFlags(binary) && index + 1 < |args| {
        TookNext(binary, args, index, cwd, raws);
        raws := raws + [Raw(args[index + 1], Some(index + 1), "")];
        index := index + 2;
        continue;
      }
      ghost var before := raws;
      ghost var at := index;
      InlineFormsExclusive(binary, token);
      if token in ValueFlags(binary) { LoneFlagBindsNothing(binary, token); }
      var matched := FirstMatch(PrefixFlags(binary), token);
      if matched.Some? {
        FirstMatchStarts(PrefixFlags(binary), token);
        if token[|matched.value|..] != "" {
          raws := raws + [Raw(token[|matched.value|..], Some(index), matched.value)];
        }
      }
      if binary == "curl" && token == "-O" {
        raws := raws + [Raw(cwd, None, "")];
      }
      if binary == "curl" && Starts(token, "-o") && token != "-o" {
        raws := raws + [Raw(token[2..], Some(index), "-o")];
      }
      if binary == "nmap" && (if |token| < 3 then token else token[..3]) in NMAP_FLAGS {
        if |token| > 3 {
          raws := raws + [Raw(token[3..], Some(index), token[..3])];
        } else if index + 1 < |args| {
          raws := raws + [Raw(args[index + 1], Some(index + 1), "")];
          index := index + 1;
        }
      }
      index := index + 1;
      if TakesNext(binary, token) && at + 1 < |args| {
        TookNext(binary, args, at, cwd, before);
      } else {
        if TakesNext(binary, token) { LoneFlagBindsNothing(binary, token); }
        StoodAlone(binary, args, at, cwd, before, raws[|before|..]);
        assert raws == before + raws[|before|..];
      }
    }
  }

  lemma ScanStart(binary: string, args: seq<string>, cwd: string)
    ensures FlagsBelow(binary, args, 0, []) && SuffixScan(binary, args, 0) && ImplicitBelow(binary, args, 0, cwd, [])
  {}

  // ---- What the name of a command and the options of sudo are ----

  /** The name of a path is its last component that is neither empty nor a dot. */
  lemma BaseNameMeans(path: string, part: string)
    requires '/' !in part
    ensures BaseName(part) == if part == "" || part == "." then "" else part
    ensures BaseName(path + "/" + part) == if part == "" || part == "." then BaseName(path) else part
  {
    hide LastComponent;
    SlashSplits(path, part, "", "");
    OneComponent(part, "", "");
    OneComponent(part, "", LastComponent(path, "", ""));
    assert "" + part == part;
  }

  lemma {:induction false} SlashSplits(a: string, b: string, current: string, last: string)
    ensures LastComponent(a + "/" + b, current, last) == LastComponent(b, "", LastComponent(a, current, last))
    decreases |a|
  {
    var kept := if current == "" || current == "." then last else current;
    if a == "" {
      assert a + "/" + b == "/" + b && ("/" + b)[1..] == b;
    } else {
      assert (a + "/" + b)[1..] == a[1..] + "/" + b;
      if a[0] == '/' {
        SlashSplits(a[1..], b, "", kept);
      } else {
        SlashSplits(a[1..], b, current + [a[0]], last);
      }
    }
  }

  lemma {:induction false} OneComponent(part: string, current: string, last: string)
    requires '/' !in part
    ensures LastComponent(part, current, last)
         == if current + part == "" || current + part == "." then last else current + part
    decreases |part|
  {
    if part == "" {
      assert current + part == current;
    } else {
      assert current + [part[0]] + part[1..] == current + part;
      OneComponent(part[1..], current + [part[0]], last);
    }
  }

  /** The options of sudo that take a value. */
  predicate SudoTakesValue(flag: string) {
    || flag == "-u" || flag == "--user" || flag == "-g" || flag == "--group" || flag == "-p" || flag == "--prompt"
    || flag == "-C" || flag == "--close-from" || flag == "-h" || flag == "--host" || flag == "-R"
    || flag == "--chroot" || flag == "-D" || flag == "--chdir" || flag == "-T" || flag == "--command-timeout"
    || flag == "-r" || flag == "--role" || flag == "-t" || flag == "--type"
  }

  /** An option of sudo: one on its own, or one with its value. */
  datatype SudoOption = Alone(token: string) | Valued(flag: string, value: string)

  predicate SudoFits(o: SudoOption, last: bool) {
    match o
    case Alone(token) => token != "" && token[0] == '-' && token != "--" && (SudoTakesValue(token) ==> last)
    case Valued(flag, _) => SudoTakesValue(flag)
  }

  function SudoWritten(options: seq<SudoOption>): seq<string> {
    if options == [] then []
    else (match options[0] case Alone(token) => [token] case Valued(flag, value) => [flag, value])
         + SudoWritten(options[1..])
  }

  lemma SudoFlagsMean(token: string)
    ensures token in SUDO_VALUE_FLAGS <==> SudoTakesValue(token)
    ensures SudoTakesValue(token) ==> DashLed(token) && token != "--"
    ensures DashLed(token) <==> token != "" && token[0] == '-'
  {}

  /** Behind sudo and its options the command starts at the first other argument, or behind a `--`. */
  lemma {:induction false} SudoReadsAsWritten(argv: seq<string>, i: nat, options: seq<SudoOption>, rest: seq<string>)
    requires i <= |argv| && argv[i..] == SudoWritten(options) + rest
    requires forall k | 0 <= k < |options| :: SudoFits(options[k], rest == [] && k == |options| - 1)
    requires rest == [] || rest[0] == "--" || rest[0] == "" || rest[0][0] != '-'
    ensures SkipOptions(argv, i)
         == i + |SudoWritten(options)| + if rest != [] && rest[0] == "--" then 1 else 0
    decreases |options|
  {
    hide SudoTakesValue, DashLed, SUDO_VALUE_FLAGS;
    if i < |argv| {
      assert argv[i] == argv[i..][0];
      SudoFlagsMean(argv[i]);
    }
    if options != [] {
      var n := if options[0].Alone? then 1 else 2;
      assert SudoFits(options[0], rest == [] && 0 == |options| - 1);
      assert argv[i..][n..] == SudoWritten(options[1..]) + rest;
      assert argv[i + n..] == SudoWritten(options[1..]) + rest;
      forall k | 0 <= k < |options[1..]| ensures SudoFits(options[1..][k], rest == [] && k == |options[1..]| - 1) {
        assert SudoFits(options[k + 1], rest == [] && k + 1 == |options| - 1);
      }
      SudoReadsAsWritten(argv, i + n, options[1..], rest);
    }
  }

  /** The positions that are outputs because of where they stand. */
  lemma PlaceMeans(binary: string, args: seq<string>, k: nat)
    ensures PlaceBound(binary, args, k) <==>
            && k < |args| && args[k] != "" && args[k][0] != '-'
            && (|| binary == "touch" || binary == "mkdir" || binary == "tee"
                || ((binary == "cp" || binary == "mv" || binary == "install")
                    && forall j | k < j < |args| :: args[j] == "" || args[j][0] == '-'))
  {
    forall j | 0 <= j < |args| ensures Positional(args[j]) <==> args[j] != "" && args[j][0] != '-' {
      SudoFlagsMean(args[j]);
    }
  }

  // ---- Reading a vector as it is written ----

  /** The flags that take the next argument as an output, tool by tool. */
  predicate OutputFlag(binary: string, flag: string) {
    || flag == "--output" || flag == "--output-file"
    || (binary == "curl" && (flag == "-o" || flag == "--output-dir"))
    || (binary == "wget" &&
          (flag == "-O" || flag == "--output-document" || flag == "-P" || flag == "--directory-prefix"))
    || (binary == "nmap" && (flag == "-oN" || flag == "-oX" || flag == "-oG" || flag == "-oA"))
    || (binary != "curl" && binary != "wget" && flag == "-o")
  }

  /** The beginnings of an argument that carries its output itself. */
  predicate OutputPrefix(binary: string, prefix: string) {
    || prefix == "--output=" || prefix == "--output-file="
    || (binary == "curl" && (prefix == "-o" || prefix == "--output-dir="))
    || (binary == "wget" && (prefix == "--output-document=" || prefix == "--directory-prefix="))
    || (binary == "nmap" && (prefix == "-oN" || prefix == "-oX" || prefix == "-oG" || prefix == "-oA"))
  }

  /** The token is the prefix with an output behind it. */
  predicate Carries(token: string, prefix: string) {
    |prefix| < |token| && token[..|prefix|] == prefix
  }

  /** An output behind its flag, an output in one argument with its prefix, or any other argument. */
  datatype Item = Spaced(flag: string, value: string) | Attached(prefix: string, value: string) | Other(token: string)

  /** The item may stand where it does; a flag that takes a value is an argument like any other
      when none follows it. */
  ghost predicate Fits(binary: string, item: Item, last: bool) {
    match item
    case Spaced(flag, _) => OutputFlag(binary, flag)
    case Attached(prefix, value) => OutputPrefix(binary, prefix) && value != ""
    case Other(token) =>
      (OutputFlag(binary, token) ==> last) && forall p | OutputPrefix(binary, p) :: !Carries(token, p)
  }

  ghost predicate AllFit(binary: string, items: seq<Item>) {
    forall i | 0 <= i < |items| :: Fits(binary, items[i], i == |items| - 1)
  }

  function Tokens(item: Item): seq<string> {
    match item
    case Spaced(flag, value) => [flag, value]
    case Attached(prefix, value) => [prefix + value]
    case Other(token) => [token]
  }

  function Written(items: seq<Item>): seq<string> {
    if items == [] then [] else Tokens(items[0]) + Written(items[1..])
  }

  /** Which arguments of an item hold an output, and behind which prefix. */
  function Outputs(item: Item): seq<Option<string>> {
    match item
    case Spaced(_, _) => [None, Some("")]
    case Attached(prefix, _) => [Some(prefix)]
    case Other(_) => [None]
  }

  function AllOutputs(items: seq<Item>): seq<Option<string>> {
    if items == [] then [] else Outputs(items[0]) + AllOutputs(items[1..])
  }

  lemma TakesNextMeans(binary: string, token: string)
    ensures TakesNext(binary, token) <==> OutputFlag(binary, token)
  {}

  lemma {:induction false} FirstMatchOnly(prefixes: seq<string>, token: string, p: string)
    requires forall a, b | a in prefixes && b in prefixes && Starts(token, a) && Starts(token, b) :: a == b
    ensures FirstMatch(prefixes, token) == Some(p) <==> p in prefixes && Starts(token, p)
    decreases |prefixes|
  {
    hide Starts;
    if prefixes != [] {
      assert prefixes == [prefixes[0]] + prefixes[1..];
      FirstMatchOnly(prefixes[1..], token, p);
    }
  }

  lemma PrefixesApart(binary: string, token: string)
    ensures forall a, b | && a in PrefixFlags(binary) && b in PrefixFlags(binary)
                          && Starts(token, a) && Starts(token, b) :: a == b
  {
    forall a, b | a in PrefixFlags(binary) && b in PrefixFlags(binary) && Starts(token, a) && Starts(token, b)
      ensures a == b
    {
      LongPrefixesDiffer(binary, a, b);
      BothStart(token, a, b);
    }
  }

  lemma LongPrefixesDiffer(binary: string, a: string, b: string)
    requires a in PrefixFlags(binary) && b in PrefixFlags(binary)
    ensures a == b || (|a| > 8 && |b| > 8 && (a[2] != b[2] || a[8] != b[8]))
            || (|a| > 9 && |b| > 9 && a[9] != b[9])
  {}

  lemma BothStart(token: string, a: string, b: string)
    requires Starts(token, a) && Starts(token, b)
    ensures forall i | 0 <= i < |a| && i < |b| :: a[i] == b[i]
  {
    forall i | 0 <= i < |a| && i < |b| ensures a[i] == b[i] {
      assert token[..|a|][i] == token[i] == token[..|b|][i];
    }
  }

  lemma LongPrefixes(binary: string, p: string)
    ensures p in PrefixFlags(binary) <==> OutputPrefix(binary, p) && LongForm(p)
  {}

  lemma InlineMeans(binary: string, token: string, p: string)
    ensures InlinePrefix(binary, token) == Some(p) <==> OutputPrefix(binary, p) && Carries(token, p)
  {
    PrefixesApart(binary, token);
    FirstMatchOnly(PrefixFlags(binary), token, p);
    LongPrefixes(binary, p);
    InlineFormsExclusive(binary, token);
    hide PrefixFlags, FirstMatch;
    assert NMAP_FLAGS == {"-oN", "-oX", "-oG", "-oA"};
  }

  lemma AttachedMeans(binary: string, prefix: string, value: string)
    requires OutputPrefix(binary, prefix) && value != ""
    ensures InlinePrefix(binary, prefix + value) == Some(prefix) && !TakesNext(binary, prefix + value)
    ensures prefix + value != "-O"
  {
    hide InlinePrefix, TakesNext;
    var token := prefix + value;
    assert token[..|prefix|] == prefix;
    InlineMeans(binary, token, prefix);
    if TakesNext(binary, token) { LoneFlagBindsNothing(binary, token); }
    if token == "-O" { InlineOutputIsLong(binary, token, prefix); }
  }

  lemma InlineOutputIsLong(binary: string, token: string, prefix: string)
    requires OutputPrefix(binary, prefix) && Carries(token, prefix)
    ensures |token| > 2
  {}

  lemma OtherMeans(binary: string, token: string)
    requires forall p | OutputPrefix(binary, p) :: !Carries(token, p)
    ensures InlinePrefix(binary, token) == None
  {
    hide InlinePrefix;
    var p := InlinePrefix(binary, token);
    if p.Some? { InlineMeans(binary, token, p.value); }
  }

  /** The scan reads one item and goes on behind it. */
  lemma ReadsItem(binary: string, item: Item, last: bool, args: seq<string>, index: nat)
    requires Fits(binary, item, last)
    requires index + |Tokens(item)| <= |args| && args[index..index + |Tokens(item)|] == Tokens(item)
    requires last ==> index + |Tokens(item)| == |args|
    ensures |Outputs(item)| == |Tokens(item)|
    ensures forall k | 0 <= k < |Tokens(item)| :: FlagPrefix(binary, args, index, index + k) == Outputs(item)[k]
    ensures forall k | index + |Tokens(item)| <= k ::
              FlagPrefix(binary, args, index, k) == FlagPrefix(binary, args, index + |Tokens(item)|, k)
    ensures Implicit(binary, args, index) <==>
            (binary == "curl" && item == Other("-O")) || Implicit(binary, args, index + |Tokens(item)|)
  {
    hide InlinePrefix, TakesNext, OutputFlag, OutputPrefix, Carries;
    assert args[index] == args[index..index + |Tokens(item)|][0];
    match item
    case Spaced(flag, value) => TakesNextMeans(binary, flag);
    case Attached(prefix, value) => AttachedMeans(binary, prefix, value);
    case Other(token) =>
      TakesNextMeans(binary, token);
      OtherMeans(binary, token);
  }

  /** The scan reads a vector as it is written: at every position it finds the output that the items
      put there, behind its prefix, and no other; and curl's own `-O` exactly where it stands as an
      argument of its own. */
  lemma {:induction false} ReadsAsWritten(binary: string, items: seq<Item>, args: seq<string>, index: nat)
    requires AllFit(binary, items) && index <= |args| && args[index..] == Written(items)
    ensures |AllOutputs(items)| == |Written(items)|
    ensures forall k | 0 <= k < |Written(items)| :: FlagPrefix(binary, args, index, index + k) == AllOutputs(items)[k]
    ensures Implicit(binary, args, index) <==> binary == "curl" && Other("-O") in items
    decreases |items|
  {
    hide FlagPrefix, Implicit, Fits, Outputs, Tokens;
    if items == [] {
      NothingToRead(binary, args, index);
    } else {
      var (item, rest) := (items[0], items[1..]);
      var n := |Tokens(item)|;
      assert AllFit(binary, rest) by {
        forall i | 0 <= i < |rest| ensures Fits(binary, rest[i], i == |rest| - 1) {
          assert Fits(binary, items[i + 1], i + 1 == |items| - 1);
        }
      }
      assert args[index..][..n] == Tokens(item) && args[index..][n..] == Written(rest);
      assert args[index + n..] == Written(rest) && args[index..index + n] == Tokens(item);
      assert |items| == 1 ==> Written(rest) == [];
      ReadsItem(binary, item, 0 == |items| - 1, args, index);
      ReadsAsWritten(binary, rest, args, index + n);
      assert items == [item] + rest;
      forall k | 0 <= k < |Written(items)|
        ensures FlagPrefix(binary, args, index, index + k) == AllOutputs(items)[k]
      {
        if k >= n {
          assert FlagPrefix(binary, args, index + n, index + n + (k - n)) == AllOutputs(rest)[k - n];
        }
      }
    }
  }

  lemma NothingToRead(binary: string, args: seq<string>, index: nat)
    requires index <= |args|
    ensures args[index..] == [] ==> !Implicit(binary, args, index)
  {}

  /** Every vector can be written so. */
  lemma {:induction false} EveryVectorIsWritten(binary: string, args: seq<string>) returns (items: seq<Item>)
    ensures AllFit(binary, items) && Written(items) == args
    decreases |args|
  {
    hide OutputFlag, OutputPrefix, Carries;
    if args == [] {
      return [];
    }
    var token := args[0];
    var item: Item;
    if OutputFlag(binary, token) && |args| > 1 {
      item := Spaced(token, args[1]);
    } else if exists p :: OutputPrefix(binary, p) && Carries(token, p) {
      var p :| OutputPrefix(binary, p) && Carries(token, p);
      CarriedRest(token, p);
      item := Attached(p, token[|p|..]);
    } else {
      item := Other(token);
    }
    var n := |Tokens(item)|;
    assert Tokens(item) == args[..n];
    var rest := EveryVectorIsWritten(binary, args[n..]);
    items := [item] + rest;
    assert items[1..] == rest && args == args[..n] + args[n..];
    assert rest == [] <==> args[n..] == [] by { WrittenIsLong(rest); }
    forall i | 0 <= i < |items| ensures Fits(binary, items[i], i == |items| - 1) {
      if i > 0 { assert Fits(binary, rest[i - 1], i - 1 == |rest| - 1); }
    }
  }

  lemma CarriedRest(token: string, p: string)
    requires Carries(token, p)
    ensures |p| < |token| && token == p + token[|p|..]
  {}

  lemma WrittenIsLong(items: seq<Item>)
    ensures items != [] ==> Written(items) != []
    ensures Written([]) == []
  {}
}
