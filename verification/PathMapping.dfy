/**
  * Mapping a host path into an execution provider (src/decode/execution/base.py:415-458). A path is
  * the sequence of its components, already absolute, normalised and free of links.
  */
module PathMapping {
  import opened Prelude
  import WordSplitting

  type Parts = seq<string>

  // A component of a POSIX host path.
  predicate IsComponent(c: string) {
    c != "" && c != "." && '/' !in c
  }

  predicate IsHostPath(p: Parts) {
    forall i :: 0 <= i < |p| ==> IsComponent(p[i])
  }

  datatype ProviderPath =
    | Posix(parts: Parts)
    | Windows(drive: string, rooted: bool, parts: Parts)

  datatype Mapping = Mapping(hostRoot: Parts, providerRoot: ProviderPath, writable: bool)

  datatype Filesystem = NoFiles | Shared | Mapped(mappings: seq<Mapping>)

  datatype Resolved = Resolved(host: Parts, provider: ProviderPath, writable: bool, mapping: Option<Mapping>)

  // ----- Joining components onto a Windows path -----

  const SEP := '\\'

  // The pieces of `text` between backslashes, without empty ones and single dots.
  function Pieces(text: string, piece: string): Parts
    decreases |text|
  {
    var kept := if piece == "" || piece == "." then [] else [piece];
    if text == "" then kept
    else if text[0] == SEP then kept + Pieces(text[1..], "")
    else Pieces(text[1..], piece + [text[0]])
  }

  function IndexFrom(text: string, i: nat): (n: nat)
    ensures n == |text| || (i <= n < |text| && text[n] == SEP)
    decreases |text| - i
  {
    if i >= |text| then |text| else if text[i] == SEP then i else IndexFrom(text, i + 1)
  }

  // Drive or share, whether a root follows, and the rest.
  function SplitRoot(c: string): (string, bool, string) {
    if |c| >= 2 && c[0] == SEP && c[1] == SEP then
      var server := IndexFrom(c, 2);
      var share := if server < |c| then IndexFrom(c, server + 1) else |c|;
      if share < |c| then (c[..share], true, c[share + 1..]) else (c, false, "")
    else if |c| >= 1 && c[0] == SEP then ("", true, c[1..])
    else if |c| >= 3 && c[1] == ':' && c[2] == SEP then (c[..2], true, c[3..])
    else if |c| >= 2 && c[1] == ':' then (c[..2], false, c[2..])
    else ("", false, c)
  }

  predicate SameDrive(a: string, b: string) {
    |a| == |b| && forall i :: 0 <= i < |a| ==> WordSplitting.LowerChar(a[i]) == WordSplitting.LowerChar(b[i])
  }

  // A rooted component replaces the path, one on another drive replaces drive and path, any other is appended.
  function JoinOne(base: ProviderPath, c: string): (r: ProviderPath)
    requires base.Windows?
    ensures r.Windows?
  {
    var (drive, rooted, rest) := SplitRoot(c);
    if rooted then Windows(if drive != "" || base.drive == "" then drive else base.drive, true, Pieces(rest, ""))
    else if drive != "" && !SameDrive(drive, base.drive) then Windows(drive, false, Pieces(rest, ""))
    else Windows(if drive != "" then drive else base.drive, base.rooted, base.parts + Pieces(rest, ""))
  }

  /** `joinpath` of a provider root with the components of a relative path. */
  function Joined(root: ProviderPath, relative: Parts): (r: ProviderPath)
    ensures r.Windows? <==> root.Windows?
    decreases |relative|
  {
    if relative == [] then root
    else
      var base := Joined(root, relative[..|relative| - 1]);
      match root
      case Posix(_) => Posix(base.parts + [relative[|relative| - 1]])
      case Windows(_, _, _) => JoinOne(base, relative[|relative| - 1])
  }

  // ----- Selecting a mapping -----

  predicate Matches(m: Mapping, candidate: Parts) {
    m.hostRoot <= candidate
  }

  function Matching(mappings: seq<Mapping>, candidate: Parts): seq<Mapping>
    decreases |mappings|
  {
    if mappings == [] then []
    else
      var n := |mappings| - 1;
      Matching(mappings[..n], candidate) + if Matches(mappings[n], candidate) then [mappings[n]] else []
  }

  // The first of the mappings with the deepest root.
  function Deepest(ms: seq<Mapping>): (m: Mapping)
    requires ms != []
    ensures m in ms
    decreases |ms|
  {
    if |ms| == 1 then ms[0]
    else
      var (best, last) := (Deepest(ms[..|ms| - 1]), ms[|ms| - 1]);
      if |last.hostRoot| > |best.hostRoot| then last else best
  }

  // Position `i` holds the first of the deepest matching mappings.
  ghost predicate FirstDeepest(i: nat, mappings: seq<Mapping>, candidate: Parts) {
    && i < |mappings| && Matches(mappings[i], candidate)
    && (forall j :: 0 <= j < i && Matches(mappings[j], candidate) ==> |mappings[j].hostRoot| < |mappings[i].hostRoot|)
    && (forall j :: i < j < |mappings| && Matches(mappings[j], candidate) ==>
      |mappings[j].hostRoot| <= |mappings[i].hostRoot|)
  }

  ghost predicate Answers(m: Mapping, mappings: seq<Mapping>, candidate: Parts) {
    exists i: nat :: FirstDeepest(i, mappings, candidate) && mappings[i] == m
  }

  /** The mapping that answers is one, and every other matching root is its ancestor or the same directory. */
  lemma AnswersAlone(m: Mapping, m': Mapping, mappings: seq<Mapping>, candidate: Parts)
    requires Answers(m, mappings, candidate) && Answers(m', mappings, candidate)
    ensures m == m'
    ensures forall o :: o in mappings && Matches(o, candidate) ==>
      o.hostRoot <= m.hostRoot && (|o.hostRoot| == |m.hostRoot| ==> o.hostRoot == m.hostRoot)
  {
    hide Matches;
    var i: nat :| FirstDeepest(i, mappings, candidate) && mappings[i] == m;
    var k: nat :| FirstDeepest(k, mappings, candidate) && mappings[k] == m';
    assert !(i < k) && !(k < i);
    forall o | o in mappings && Matches(o, candidate)
      ensures o.hostRoot <= m.hostRoot && (|o.hostRoot| == |m.hostRoot| ==> o.hostRoot == m.hostRoot)
    {
      var j: nat :| 0 <= j < |mappings| && mappings[j] == o;
      RootsNest(o, m, candidate);
    }
  }

  lemma RootsNest(o: Mapping, m: Mapping, candidate: Parts)
    requires Matches(o, candidate) && Matches(m, candidate) && |o.hostRoot| <= |m.hostRoot|
    ensures o.hostRoot <= m.hostRoot && (|o.hostRoot| == |m.hostRoot| ==> o.hostRoot == m.hostRoot)
  {}

  lemma {:induction false} MatchingAt(mappings: seq<Mapping>, candidate: Parts)
    ensures forall m :: m in Matching(mappings, candidate) <==> m in mappings && Matches(m, candidate)
    decreases |mappings|
  {
    if mappings != [] {
      MatchingAt(mappings[..|mappings| - 1], candidate);
      assert mappings == mappings[..|mappings| - 1] + [mappings[|mappings| - 1]];
    }
  }

  lemma {:induction false} DeepestAt(mappings: seq<Mapping>, candidate: Parts) returns (i: nat)
    requires Matching(mappings, candidate) != []
    ensures FirstDeepest(i, mappings, candidate) && mappings[i] == Deepest(Matching(mappings, candidate))
    decreases |mappings|
  {
    hide Matches;
    var n := |mappings| - 1;
    var front := mappings[..n];
    var ms := Matching(mappings, candidate);
    if Matching(front, candidate) == [] {
      MatchingAt(front, candidate);
      forall j | 0 <= j < n ensures !Matches(mappings[j], candidate) {
        assert mappings[j] in front;
      }
      i := n;
    } else {
      i := DeepestAt(front, candidate);
      if Matches(mappings[n], candidate) {
        assert ms[..|ms| - 1] == Matching(front, candidate);
        StillFirstDeepest(i, mappings, candidate);
        if |mappings[n].hostRoot| > |mappings[i].hostRoot| {
          i := n;
        }
      } else {
        assert ms == Matching(front, candidate);
        StillFirstDeepest(i, mappings, candidate);
      }
    }
  }

  lemma StillFirstDeepest(i: nat, mappings: seq<Mapping>, candidate: Parts)
    requires mappings != [] && FirstDeepest(i, mappings[..|mappings| - 1], candidate)
    ensures var last := |mappings| - 1;
      FirstDeepest(
        if Matches(mappings[last], candidate) && |mappings[last].hostRoot| > |mappings[i].hostRoot| then last else i,
        mappings, candidate)
  {
    hide Matches;
    assert forall j :: 0 <= j < |mappings| - 1 ==> mappings[j] == mappings[..|mappings| - 1][j];
  }

  lemma AnswersFrom(i: nat, mappings: seq<Mapping>, candidate: Parts)
    requires FirstDeepest(i, mappings, candidate)
    ensures Answers(mappings[i], mappings, candidate)
  {}

  /**
    * `map_path`: the deepest mapping whose root holds the path answers for it, alone; a write is
    * refused when that mapping is read-only, whatever an outer mapping allows.
    */
  method MapPath(files: Filesystem, candidate: Parts, write: bool) returns (r: Result<Resolved>)
    ensures files.NoFiles? ==> r.Raised?
    ensures files.Shared? ==> r == Ok(Resolved(candidate, Posix(candidate), true, None))
    ensures files.Mapped? && r.Ok? ==> exists m ::
      && Answers(m, files.mappings, candidate) && (write ==> m.writable)
      && r.value == Resolved(candidate, Joined(m.providerRoot, candidate[|m.hostRoot|..]), m.writable, Some(m))
    ensures files.Mapped? && r.Raised? ==> forall m ::
      m in files.mappings && Matches(m, candidate) ==>
        write && exists d :: Answers(d, files.mappings, candidate) && !d.writable
  {
    hide Joined, Answers;
    if files.NoFiles? {
      return Raised;
    }
    if files.Shared? {
      return Ok(Resolved(candidate, Posix(candidate), true, None));
    }
    var mappings := files.mappings;
    var matches: seq<Mapping> := [];
    for i := 0 to |mappings|
      invariant matches == Matching(mappings[..i], candidate)
    {
      assert mappings[..i + 1][..i] == mappings[..i];
      if !Matches(mappings[i], candidate) { continue; }
      matches := matches + [mappings[i]];
    }
    assert mappings[..|mappings|] == mappings;
    MatchingAt(mappings, candidate);
    if matches == [] {
      return Raised;
    }
    assert Answers(Deepest(matches), mappings, candidate) by {
      ghost var at := DeepestAt(mappings, candidate);
      AnswersFrom(at, mappings, candidate);
    }
    var mapping := Deepest(matches);
    if write && !mapping.writable {
      return Raised;
    }
    return Ok(Resolved(candidate, Joined(mapping.providerRoot, candidate[|mapping.hostRoot|..]), mapping.writable,
      Some(mapping)));
  }

  // ----- What a provider path tells about the host path -----

  // The components of `p` below `root`, when it lies below it.
  function Stripped(root: ProviderPath, p: ProviderPath): Option<Parts> {
    if Below(root, p) then Some(p.parts[|root.parts|..]) else None
  }

  predicate Below(root: ProviderPath, p: ProviderPath) {
    && root.Windows? == p.Windows?
    && (root.Windows? ==> root.drive == p.drive && root.rooted == p.rooted)
    && root.parts <= p.parts
  }

  // A host component that a Windows path keeps as one component.
  predicate IsPlain(c: string) {
    SEP !in c && !(|c| >= 2 && c[1] == ':')
  }

  predicate AllPlain(p: Parts) {
    forall i :: 0 <= i < |p| ==> IsPlain(p[i])
  }

  predicate NoSep(p: Parts) {
    forall i :: 0 <= i < |p| ==> SEP !in p[i]
  }

  function Weight(p: Parts): nat
    decreases |p|
  {
    if p == [] then 0 else Weight(p[..|p| - 1]) + |p[|p| - 1]| + 1
  }

  lemma {:induction false} WeightOfSum(a: Parts, b: Parts)
    ensures Weight(a + b) == Weight(a) + Weight(b)
    decreases |b|
  {
    if b == [] {
      assert a + b == a;
    } else {
      WeightOfSum(a, b[..|b| - 1]);
      assert (a + b)[..|a + b| - 1] == a + b[..|b| - 1];
    }
  }

  lemma {:induction false} PiecesBounded(text: string, piece: string)
    requires SEP !in piece
    ensures NoSep(Pieces(text, piece)) && Weight(Pieces(text, piece)) <= |text| + |piece| + 1
    decreases |text|
  {
    if text != "" {
      if text[0] == SEP {
        PiecesBounded(text[1..], "");
        var kept := if piece == "" || piece == "." then [] else [piece];
        WeightOfSum(kept, Pieces(text[1..], ""));
        assert Weight(kept) <= |piece| + 1;
      } else {
        PiecesBounded(text[1..], piece + [text[0]]);
      }
    }
  }

  lemma SplitRootShrinks(c: string)
    ensures var (drive, rooted, rest) := SplitRoot(c);
      && |rest| <= |c|
      && (IsPlain(c) ==> drive == "" && !rooted && rest == c)
      && (!IsPlain(c) && SEP !in c ==> |rest| < |c|)
  {}

  lemma JoinOnePlain(base: ProviderPath, c: string)
    requires base.Windows? && IsComponent(c) && IsPlain(c)
    ensures JoinOne(base, c) == base.(parts := base.parts + [c])
  {
    hide SplitRoot, Pieces;
    SplitRootShrinks(c);
    PiecesOfOne(c, "");
    assert "" + c == c;
  }

  lemma JoinOneBounded(base: ProviderPath, c: string)
    requires base.Windows? && NoSep(base.parts)
    ensures NoSep(JoinOne(base, c).parts)
    ensures Weight(JoinOne(base, c).parts) <= Weight(base.parts) + |c| + 1
    ensures !IsPlain(c) && SEP !in c ==> Weight(JoinOne(base, c).parts) < Weight(base.parts) + |c| + 1
  {
    hide SplitRoot, Pieces, Weight, IsPlain, SameDrive;
    SplitRootShrinks(c);
    var (drive, rooted, rest) := SplitRoot(c);
    PiecesBounded(rest, "");
    WeightOfSum(base.parts, Pieces(rest, ""));
  }

  lemma {:induction false} JoinedBounded(root: ProviderPath, relative: Parts)
    requires root.Windows? && NoSep(root.parts)
    ensures NoSep(Joined(root, relative).parts)
    ensures Weight(Joined(root, relative).parts) <= Weight(root.parts) + Weight(relative)
    ensures NoSep(relative) && !AllPlain(relative) ==>
      Weight(Joined(root, relative).parts) < Weight(root.parts) + Weight(relative)
    decreases |relative|
  {
    hide JoinOne, IsPlain;
    if relative != [] {
      var n := |relative| - 1;
      JoinedBounded(root, relative[..n]);
      JoinOneBounded(Joined(root, relative[..n]), relative[n]);
      if NoSep(relative) && !AllPlain(relative) && IsPlain(relative[n]) {
        assert !AllPlain(relative[..n]);
      }
    }
  }

  lemma {:induction false} JoinedPlain(root: ProviderPath, relative: Parts)
    requires root.Posix? || (IsHostPath(relative) && AllPlain(relative))
    ensures Joined(root, relative) == root.(parts := root.parts + relative)
    decreases |relative|
  {
    hide JoinOne, IsPlain;
    if relative != [] {
      var n := |relative| - 1;
      JoinedPlain(root, relative[..n]);
      assert relative == relative[..n] + [relative[n]];
      if root.Windows? {
        JoinOnePlain(Joined(root, relative[..n]), relative[n]);
      }
    }
  }

  /** A path mapped into a POSIX provider decodes back by stripping the provider root. */
  lemma PosixDecodes(root: ProviderPath, relative: Parts)
    requires root.Posix?
    ensures Stripped(root, Joined(root, relative)) == Some(relative)
  {
    hide Joined;
    JoinedPlain(root, relative);
  }

  /**
    * A path mapped into a Windows provider decodes back exactly when no component holds a
    * backslash and none has a colon as its second character.
    */
  lemma WindowsDecodesIff(root: ProviderPath, relative: Parts)
    requires root.Windows? && NoSep(root.parts) && IsHostPath(relative)
    ensures Stripped(root, Joined(root, relative)) == Some(relative) <==> AllPlain(relative)
  {
    hide Joined, Weight, IsComponent;
    var p := Joined(root, relative);
    JoinedBounded(root, relative);
    if AllPlain(relative) {
      JoinedPlain(root, relative);
    }
    if Stripped(root, p) == Some(relative) {
      assert p.parts == root.parts + relative;
      WeightOfSum(root.parts, relative);
      assert NoSep(relative) by {
        forall i | 0 <= i < |relative| ensures SEP !in relative[i] {
          assert p.parts[|root.parts| + i] == relative[i];
        }
      }
    }
  }

  // ----- What splitting a component off its root means -----

  /** A share of a server: two separators, then two names with a separator between them. */
  predicate IsShare(drive: string) {
    && |drive| >= 3 && drive[0] == SEP && drive[1] == SEP
    && exists n :: 2 <= n < |drive| && drive[n] == SEP && SEP !in drive[2..n] && SEP !in drive[n + 1..]
  }

  /** The three parts make up the component. The drive is empty, a character with a colon, a whole
      share, or a share without its end, which has no root. */
  lemma SplitRootMeans(c: string)
    ensures var (drive, rooted, rest) := SplitRoot(c);
      && c == drive + (if rooted then [SEP] else []) + rest
      && (|c| >= 2 && c[0] == SEP && c[1] == SEP ==>
            if rooted then IsShare(drive) else drive == c && (SEP !in c[2..] || IsShare(c)))
      && (c != [] && c[0] == SEP && !(|c| >= 2 && c[1] == SEP) ==> drive == "" && rooted)
      && (|c| >= 2 && c[0] != SEP && c[1] == ':' ==>
            drive == c[..2] && (rooted <==> |c| >= 3 && c[2] == SEP))
      && (c == [] || (c[0] != SEP && !(|c| >= 2 && c[1] == ':')) ==> drive == "" && !rooted)
  {
    if |c| >= 2 && c[0] == SEP && c[1] == SEP {
      ShareMeans(c);
    }
  }

  lemma {:induction false} IndexFromMeans(text: string, i: nat)
    requires i <= |text|
    ensures i <= IndexFrom(text, i) <= |text| && SEP !in text[i..IndexFrom(text, i)]
    decreases |text| - i
  {
    if i < |text| && text[i] != SEP {
      IndexFromMeans(text, i + 1);
      var n := IndexFrom(text, i);
      assert text[i..n] == [text[i]] + text[i + 1..n];
    }
  }

  lemma ShareMeans(c: string)
    requires |c| >= 2 && c[0] == SEP && c[1] == SEP
    ensures var (drive, rooted, rest) := SplitRoot(c);
      && c == drive + (if rooted then [SEP] else []) + rest
      && if rooted then IsShare(drive) else drive == c && (SEP !in c[2..] || IsShare(c))
  {
    hide IndexFrom, IsShare;
    IndexFromMeans(c, 2);
    var server := IndexFrom(c, 2);
    if server < |c| {
      IndexFromMeans(c, server + 1);
      ShareEnds(c, server, IndexFrom(c, server + 1));
    } else {
      assert c[2..] == c[2..server];
    }
  }

  lemma ShareEnds(c: string, server: nat, share: nat)
    requires 2 <= server < |c| && server + 1 <= share <= |c| && c[0] == SEP && c[1] == SEP && c[server] == SEP
    requires SEP !in c[2..server] && SEP !in c[server + 1..share]
    ensures IsShare(c[..share])
    ensures share == |c| ==> c[..share] == c
  {
    var drive := c[..share];
    assert drive[2..server] == c[2..server] && drive[server + 1..] == c[server + 1..share];
    assert drive[server] == SEP;
  }

  /** Splitting at a separator: the pieces of a text are those of its parts, a part without a
      separator is one piece, and an empty part or a single dot is none. */
  lemma PiecesMean(a: string, b: string)
    ensures Pieces(a + [SEP] + b, "") == Pieces(a, "") + Pieces(b, "")
    ensures SEP !in a ==> Pieces(a, "") == if a == "" || a == "." then [] else [a]
  {
    hide Pieces;
    PiecesJoin(a, b, "");
    if SEP !in a {
      PiecesOfOne(a, "");
      assert "" + a == a;
    }
  }

  lemma {:induction false} PiecesJoin(a: string, b: string, piece: string)
    ensures Pieces(a + [SEP] + b, piece) == Pieces(a, piece) + Pieces(b, "")
    decreases |a|
  {
    if a == "" {
      assert a + [SEP] + b == [SEP] + b && ([SEP] + b)[1..] == b;
    } else {
      assert (a + [SEP] + b)[1..] == a[1..] + [SEP] + b;
      if a[0] == SEP {
        PiecesJoin(a[1..], b, "");
      } else {
        PiecesJoin(a[1..], b, piece + [a[0]]);
      }
    }
  }

  lemma {:induction false} PiecesOfOne(a: string, piece: string)
    requires SEP !in a
    ensures Pieces(a, piece) == if piece + a == "" || piece + a == "." then [] else [piece + a]
    decreases |a|
  {
    if a == "" {
      assert piece + a == piece;
    } else {
      assert piece + [a[0]] + a[1..] == piece + a;
      PiecesOfOne(a[1..], piece + [a[0]]);
    }
  }

  /** Joining a component: one with a root starts over, on its own drive where it names one; one on
      another drive starts over there, without a root; and any other goes on where the path is. */
  lemma JoinOneMeans(base: ProviderPath, c: string)
    requires base.Windows?
    ensures var (drive, rooted, rest) := SplitRoot(c);
      var (joined, other) := (JoinOne(base, c), drive != "" && !SameDrive(drive, base.drive));
      && joined.drive == (if drive == "" then base.drive else drive)
      && joined.rooted == (rooted || (base.rooted && !other))
      && joined.parts == (if rooted || other then [] else base.parts) + Pieces(rest, "")
  {
    hide SplitRoot, Pieces, SameDrive;
  }

  predicate Decodable(m: Mapping, candidate: Parts)
    requires Matches(m, candidate)
  {
    m.providerRoot.Posix? || AllPlain(candidate[|m.hostRoot|..])
  }

  /**
    * Within one mapping and on decodable paths, mapping is injective and keeps the ancestor
    * relation both ways.
    */
  lemma MappingKeepsAncestors(m: Mapping, a: Parts, b: Parts)
    requires Matches(m, a) && Matches(m, b) && IsHostPath(a) && IsHostPath(b)
    requires Decodable(m, a) && Decodable(m, b)
    ensures var (pa, pb) := (Joined(m.providerRoot, a[|m.hostRoot|..]), Joined(m.providerRoot, b[|m.hostRoot|..]));
      && (pa == pb <==> a == b)
      && (Below(pa, pb) <==> a <= b)
  {
    hide Joined, IsComponent, IsPlain;
    var n := |m.hostRoot|;
    JoinedPlain(m.providerRoot, a[n..]);
    JoinedPlain(m.providerRoot, b[n..]);
    assert a == m.hostRoot + a[n..] && b == m.hostRoot + b[n..];
    PrefixBehind(m.hostRoot, a[n..], b[n..]);
    PrefixBehind(m.providerRoot.parts, a[n..], b[n..]);
  }

  lemma PrefixBehind(front: Parts, a: Parts, b: Parts)
    ensures front + a <= front + b <==> a <= b
    ensures front + a == front + b <==> a == b
  {
    if front + a <= front + b {
      assert a == (front + a)[|front|..] && (front + b)[..|front + a|][|front|..] == b[..|a|];
    }
    if a <= b {
      assert b == a + b[|a|..];
      assert front + b == front + a + b[|a|..];
    }
    assert (front + a)[|front|..] == a && (front + b)[|front|..] == b;
  }

  /** A backslash in a host name makes two host paths one Windows path, and a colon leaves the mapped root. */
  lemma WindowsCollapses(root: ProviderPath)
    requires root == Windows("C:", true, ["work"])
    ensures Joined(root, ["a\\b"]) == Joined(root, ["a", "b"])
    ensures !Below(root, Joined(root, ["d:x"]))
  {
    assert ["a", "b"][..1] == ["a"] && ["a"][..0] == [] && ["a\\b"][..0] == [] && ["d:x"][..0] == [];
    JoinOnePlain(root, "a");
    JoinOnePlain(root.(parts := ["work", "a"]), "b");
    assert Joined(root, ["a"]) == root.(parts := ["work", "a"]);
    assert Joined(root, ["a", "b"]) == root.(parts := ["work", "a", "b"]);
    PiecesAroundBackslash();
    assert Joined(root, ["a\\b"]) == JoinOne(root, "a\\b");
    assert "d:x"[..2] == "d:" && "d:x"[2..] == "x";
    assert Joined(root, ["d:x"]) == JoinOne(root, "d:x");
    assert WordSplitting.LowerChar("d:"[0]) != WordSplitting.LowerChar("C:"[0]);
  }

  lemma PiecesAroundBackslash()
    ensures Pieces("a\\b", "") == ["a", "b"]
  {
    var c := "a\\b";
    assert c[1..] == "\\b" && "\\b"[1..] == "b" && "" + "b" == "b" && "" + [c[0]] == "a";
    PiecesOfOne("b", "");
    assert Pieces("\\b", "a") == ["a", "b"];
  }
}
