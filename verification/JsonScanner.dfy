/**
  * The string-aware brace scanner (src/decode/utils.py:45-70), which finds the top-level balanced
  * `{…}` pieces of a model's reply. Strings and escapes follow section 7 of RFC 8259.
  */
module JsonScanner {

  // ----- The scanner's state -----

  datatype Mode = Outside | InString | Escaped

  datatype State = State(depth: nat, mode: Mode)

  const IDLE := State(0, Outside)

  function Next(st: State, c: char): State {
    match st.mode
    case Escaped => st.(mode := InString)
    case InString => if c == '\\' then st.(mode := Escaped) else if c == '"' then st.(mode := Outside) else st
    case Outside =>
      if c == '"' then st.(mode := InString)
      else if c == '{' then st.(depth := st.depth + 1)
      else if c == '}' && st.depth > 0 then st.(depth := st.depth - 1)
      else st
  }

  /** The state before character `i`. */
  function StateAt(text: string, i: nat): State
    requires i <= |text|
  {
    if i == 0 then IDLE else Next(StateAt(text, i - 1), text[i - 1])
  }

  datatype Span = Span(start: nat, end: nat)

  // Where the depth last rose from zero before position `i`.
  function OpenedAt(text: string, i: nat): (s: nat)
    requires i <= |text|
    ensures s <= i && (StateAt(text, i).depth > 0 ==> s < i)
  {
    if i == 0 then 0
    else if StateAt(text, i - 1).depth == 0 && StateAt(text, i).depth > 0 then i - 1
    else OpenedAt(text, i - 1)
  }

  predicate ClosesAt(text: string, i: nat)
    requires i < |text|
  {
    StateAt(text, i).depth > 0 && StateAt(text, i + 1).depth == 0
  }

  /** The spans closed within the first `n` characters. */
  function Spans(text: string, n: nat): seq<Span>
    requires n <= |text|
  {
    if n == 0 then []
    else Spans(text, n - 1) + if ClosesAt(text, n - 1) then [Span(OpenedAt(text, n - 1), n)] else []
  }

  function Pieces(text: string, spans: seq<Span>): seq<string>
    requires forall s :: s in spans ==> s.start <= s.end <= |text|
  {
    if spans == [] then []
    else Pieces(text, spans[..|spans| - 1]) + [text[spans[|spans| - 1].start..spans[|spans| - 1].end]]
  }

  lemma {:induction false} SpansInText(text: string, n: nat)
    requires n <= |text|
    ensures forall s :: s in Spans(text, n) ==> s.start < s.end <= n
  {
    if n > 0 {
      SpansInText(text, n - 1);
    }
  }

  // What was yielded within the first `n` characters.
  function Yielded(text: string, n: nat): seq<string>
    requires n <= |text|
  {
    SpansInText(text, n);
    Pieces(text, Spans(text, n))
  }

  /** What the generator yields, in order. */
  function Objects(text: string): seq<string> {
    Yielded(text, |text|)
  }

  method IterJsonObjects(text: string) returns (found: seq<string>)
    ensures found == Objects(text)
  {
    hide Spans, Pieces, OpenedAt;
    var depth, start, inString, escaped := 0, -1, false, false;
    found := [];
    PiecesNone(text);
    for i := 0 to |text|
      invariant depth >= 0
      invariant StateAt(text, i) == State(depth, if escaped then Escaped else if inString then InString else Outside)
      invariant escaped ==> inString
      invariant if depth > 0 then start == OpenedAt(text, i) else start == -1
      invariant (forall s :: s in Spans(text, i) ==> s.start <= s.end <= |text|)
          && found == Pieces(text, Spans(text, i))
    {
      var c := text[i];
      OpenedNext(text, i);
      PiecesNext(text, i);
      if inString {
        if escaped {
          escaped := false;
        } else if c == '\\' {
          escaped := true;
        } else if c == '"' {
          inString := false;
        }
        continue;
      }
      if c == '"' {
        inString := true;
      } else if c == '{' {
        if depth == 0 {
          start := i;
        }
        depth := depth + 1;
      } else if c == '}' && depth > 0 {
        depth := depth - 1;
        if depth == 0 && start != -1 {
          found := found + [text[start..i + 1]];
          start := -1;
        }
      }
    }
  }

  lemma OpenedNext(text: string, i: nat)
    requires i < |text|
    ensures OpenedAt(text, i + 1) ==
      if StateAt(text, i).depth == 0 && StateAt(text, i + 1).depth > 0 then i else OpenedAt(text, i)
  {}

  lemma PiecesNone(text: string)
    ensures Spans(text, 0) == [] && Pieces(text, []) == []
  {}

  lemma PiecesNext(text: string, i: nat)
    requires i < |text|
    ensures forall s :: s in Spans(text, i) ==> s.start <= s.end <= |text|
    ensures forall s :: s in Spans(text, i + 1) ==> s.start <= s.end <= |text|
    ensures Pieces(text, Spans(text, i + 1)) ==
      Pieces(text, Spans(text, i)) + if ClosesAt(text, i) then [text[OpenedAt(text, i)..i + 1]] else []
  {
    hide StateAt, OpenedAt;
    SpansInText(text, i);
    SpansInText(text, i + 1);
    if ClosesAt(text, i) {
      assert Spans(text, i + 1)[..|Spans(text, i)|] == Spans(text, i);
    } else {
      assert Spans(text, i + 1) == Spans(text, i);
    }
  }

  // ----- What the spans are -----

  // A maximal stretch on which the depth, counted outside strings, is above zero.
  ghost predicate IsObjectSpan(text: string, s: Span) {
    && s.start < s.end <= |text|
    && StateAt(text, s.start).depth == 0
    && (forall k :: s.start < k < s.end ==> StateAt(text, k).depth > 0)
    && StateAt(text, s.end).depth == 0
    && s.start + 1 < s.end
  }

  lemma DepthStep(text: string, i: nat)
    requires i < |text|
    ensures var (a, b) := (StateAt(text, i), StateAt(text, i + 1));
      && a.depth <= b.depth + 1 && b.depth <= a.depth + 1
      && (b.depth > a.depth ==> a.mode == Outside && text[i] == '{' && b.mode == Outside)
      && (b.depth < a.depth ==> a.mode == Outside && text[i] == '}' && b.mode == Outside)
  {}

  lemma {:induction false} OpenedIs(text: string, i: nat)
    requires i <= |text| && StateAt(text, i).depth > 0
    ensures var s := OpenedAt(text, i);
      s < i && StateAt(text, s).depth == 0 && forall k :: s < k <= i ==> StateAt(text, k).depth > 0
  {
    hide StateAt;
    assert StateAt(text, 0) == IDLE by { StartsIdle(text); }
    if StateAt(text, i - 1).depth > 0 {
      OpenedIs(text, i - 1);
    }
  }

  lemma StartsIdle(text: string)
    ensures StateAt(text, 0) == IDLE
  {}

  /**
    * The spans are exactly the maximal stretches at positive depth, so each begins with a brace
    * outside any string and ends with the brace that balances it, and they are listed in order
    * without overlap.
    */
  lemma {:induction false} SpansMean(text: string, n: nat)
    requires n <= |text|
    ensures forall s :: s in Spans(text, n) <==> IsObjectSpan(text, s) && s.end <= n
    ensures forall i, j :: 0 <= i < j < |Spans(text, n)| ==> Spans(text, n)[i].end <= Spans(text, n)[j].start
  {
    hide StateAt;
    if n > 0 {
      SpansMean(text, n - 1);
      forall s | IsObjectSpan(text, s) && s.end == n ensures ClosesAt(text, n - 1) && s.start == OpenedAt(text, n - 1) {
        assert StateAt(text, n - 1).depth > 0;
        OpenedIs(text, n - 1);
        var o := OpenedAt(text, n - 1);
        assert !(o < s.start) && !(s.start < o);
      }
      if ClosesAt(text, n - 1) {
        OpenedIs(text, n - 1);
        var o := OpenedAt(text, n - 1);
        assert IsObjectSpan(text, Span(o, n));
        forall s | s in Spans(text, n - 1) ensures s.end <= o {
          assert StateAt(text, s.end).depth == 0;
        }
      }
    }
  }

  /** Each yielded piece opens and closes with a brace and is scanned, alone, as itself and nothing else. */
  lemma YieldedPiece(text: string, s: Span)
    requires s in Spans(text, |text|)
    ensures s.start + 1 < s.end <= |text| && text[s.start] == '{' && text[s.end - 1] == '}'
    ensures Objects(text[s.start..s.end]) == [text[s.start..s.end]]
  {
    hide StateAt, Objects, Spans, IsWhole;
    SpansMean(text, |text|);
    DepthStep(text, s.start);
    DepthStep(text, s.end - 1);
    SpanIsWhole(text, s);
    WholeYieldsItself(text[s.start..s.end]);
  }

  // ----- Scanning a concatenation -----

  // The text is one object: it rises from depth zero at once and returns to it only at the end.
  ghost predicate IsWhole(s: string) {
    && |s| > 1
    && (forall k :: 0 < k < |s| ==> StateAt(s, k).depth > 0)
    && StateAt(s, |s|) == IDLE
  }

  lemma {:induction false} StateInPrefix(a: string, b: string, i: nat)
    requires i <= |a|
    ensures StateAt(a + b, i) == StateAt(a, i)
  {
    if i > 0 {
      StateInPrefix(a, b, i - 1);
      assert (a + b)[i - 1] == a[i - 1];
    }
  }

  lemma {:induction false} StateInSuffix(a: string, b: string, i: nat)
    requires i <= |b| && StateAt(a, |a|) == IDLE
    ensures StateAt(a + b, |a| + i) == StateAt(b, i)
  {
    if i == 0 {
      StateInPrefix(a, b, |a|);
    } else {
      StateInSuffix(a, b, i - 1);
      assert (a + b)[|a| + i - 1] == b[i - 1];
    }
  }

  lemma {:induction false} OpenedInSuffix(a: string, b: string, i: nat)
    requires i <= |b| && StateAt(a, |a|) == IDLE && StateAt(b, i).depth > 0
    ensures OpenedAt(a + b, |a| + i) == |a| + OpenedAt(b, i)
  {
    hide StateAt;
    StartsIdle(b);
    StateInSuffix(a, b, i);
    StateInSuffix(a, b, i - 1);
    if StateAt(b, i - 1).depth > 0 {
      OpenedInSuffix(a, b, i - 1);
    }
  }

  lemma {:induction false} OpenedInPrefix(a: string, b: string, i: nat)
    requires i <= |a|
    ensures OpenedAt(a + b, i) == OpenedAt(a, i)
  {
    hide StateAt;
    if i > 0 {
      StateInPrefix(a, b, i);
      StateInPrefix(a, b, i - 1);
      OpenedInPrefix(a, b, i - 1);
    }
  }

  lemma {:induction false} YieldedInPrefix(a: string, b: string, n: nat)
    requires n <= |a|
    ensures Yielded(a + b, n) == Yielded(a, n)
  {
    hide StateAt, OpenedAt, Spans, Pieces;
    if n == 0 {
      PiecesNone(a);
      PiecesNone(a + b);
    } else {
      var i := n - 1;
      YieldedInPrefix(a, b, i);
      PiecesNext(a, i);
      PiecesNext(a + b, i);
      StateInPrefix(a, b, i);
      StateInPrefix(a, b, n);
      OpenedInPrefix(a, b, i);
      if ClosesAt(a, i) {
        assert (a + b)[OpenedAt(a, i)..n] == a[OpenedAt(a, i)..n];
      }
    }
  }

  lemma {:induction false} YieldedInSuffix(a: string, b: string, n: nat)
    requires n <= |b| && StateAt(a, |a|) == IDLE
    ensures Yielded(a + b, |a| + n) == Yielded(a, |a|) + Yielded(b, n)
  {
    hide StateAt, OpenedAt, Spans, Pieces;
    if n == 0 {
      PiecesNone(b);
      YieldedInPrefix(a, b, |a|);
    } else {
      var i := n - 1;
      YieldedInSuffix(a, b, i);
      PiecesNext(b, i);
      PiecesNext(a + b, |a| + i);
      StateInSuffix(a, b, i);
      StateInSuffix(a, b, n);
      if ClosesAt(b, i) {
        OpenedInSuffix(a, b, i);
        var o := OpenedAt(b, i);
        assert (a + b)[|a| + o..|a| + n] == b[o..n];
      }
    }
  }

  /** After a text that ends outside strings and at depth zero, scanning starts afresh. */
  lemma ScanConcatenation(a: string, b: string)
    requires StateAt(a, |a|) == IDLE
    ensures Objects(a + b) == Objects(a) + Objects(b)
  {
    hide StateAt, Yielded;
    YieldedInSuffix(a, b, |b|);
  }

  lemma WholeYieldsItself(s: string)
    requires IsWhole(s)
    ensures Objects(s) == [s]
  {
    hide StateAt;
    var whole := Span(0, |s|);
    StartsIdle(s);
    SpansMean(s, |s|);
    assert IsObjectSpan(s, whole);
    var spans := Spans(s, |s|);
    forall t | t in spans ensures t == whole {
      assert StateAt(s, t.start).depth == 0 && StateAt(s, t.end).depth == 0;
    }
    OnlyOne(spans, whole);
    assert Pieces(s, spans[..0]) == [];
    assert s[0..|s|] == s;
  }

  lemma OnlyOne(spans: seq<Span>, whole: Span)
    requires whole in spans && whole.start < whole.end && forall t :: t in spans ==> t == whole
    requires forall i, j :: 0 <= i < j < |spans| ==> spans[i].end <= spans[j].start
    ensures spans == [whole]
  {
    forall i | 0 <= i < |spans| ensures spans[i] == whole {
      assert spans[i] in spans;
    }
    assert |spans| <= 1 || spans[0].end <= spans[1].start;
  }

  // The state inside a span is that of the span's own text.
  lemma {:induction false} StateInSpan(text: string, start: nat, end: nat, k: nat)
    requires start <= end <= |text| && k <= end - start && StateAt(text, start) == IDLE
    ensures StateAt(text[start..end], k) == StateAt(text, start + k)
  {
    if k > 0 {
      StateInSpan(text, start, end, k - 1);
      assert text[start..end][k - 1] == text[start + k - 1];
    }
  }

  lemma SpanIsWhole(text: string, s: Span)
    requires IsObjectSpan(text, s)
    ensures IsWhole(text[s.start..s.end])
  {
    hide StateAt;
    DepthStep(text, s.start);
    DepthStep(text, s.end - 1);
    assert StateAt(text, s.start) == IDLE;
    var t := text[s.start..s.end];
    forall k | 0 <= k <= |t| ensures StateAt(t, k) == StateAt(text, s.start + k) {
      StateInSpan(text, s.start, s.end, k);
    }
  }

  function Concat(parts: seq<string>): string {
    if parts == [] then "" else parts[0] + Concat(parts[1..])
  }

  lemma {:induction false} WholesRescan(parts: seq<string>)
    requires forall p :: p in parts ==> IsWhole(p)
    ensures Objects(Concat(parts)) == parts
  {
    hide StateAt, Objects;
    if parts == [] {
      EmptyYieldsNothing();
    } else {
      assert IsWhole(parts[0]);
      WholesRescan(parts[1..]);
      WholeYieldsItself(parts[0]);
      ScanConcatenation(parts[0], Concat(parts[1..]));
      assert parts == [parts[0]] + parts[1..];
    }
  }

  lemma EmptyYieldsNothing()
    ensures Objects("") == []
  {}

  lemma {:induction false} YieldedAreWhole(text: string, n: nat)
    requires n <= |text|
    ensures forall p :: p in Yielded(text, n) ==> IsWhole(p)
  {
    hide StateAt, Spans, Pieces, IsWhole, OpenedAt;
    if n == 0 {
      PiecesNone(text);
    } else {
      YieldedAreWhole(text, n - 1);
      PiecesNext(text, n - 1);
      if ClosesAt(text, n - 1) {
        OpenedIs(text, n - 1);
        SpanIsWhole(text, Span(OpenedAt(text, n - 1), n));
      }
    }
  }

  /** Scanning the concatenation of what a scan yielded yields the same list again, for every text. */
  lemma RescanIsStable(text: string)
    ensures Objects(Concat(Objects(text))) == Objects(text)
  {
    hide StateAt, Spans, Pieces, IsWhole;
    YieldedAreWhole(text, |text|);
    WholesRescan(Objects(text));
  }

  // ----- What a reply means to the scanner -----

  // Text as a reader of JSON sees it: plain characters, quoted strings, and braces around more text.
  datatype Part = Plain(c: char) | Quoted(body: seq<StringPart>) | Braces(inside: seq<Part>)

  // Inside a string, a character on its own or a backslash with the character it escapes.
  datatype StringPart = Char(c: char) | Escape(c: char)

  predicate StringPartValid(u: StringPart) {
    u.Char? ==> u.c != '"' && u.c != '\\'
  }

  // Within braces no plain character is a quote or a brace.
  predicate PartValid(p: Part)
    decreases p
  {
    match p
    case Plain(c) => c != '"' && c != '{' && c != '}'
    case Quoted(body) => forall i :: 0 <= i < |body| ==> StringPartValid(body[i])
    case Braces(inside) => forall i :: 0 <= i < |inside| ==> PartValid(inside[i])
  }

  function BodyText(body: seq<StringPart>): string {
    if body == [] then ""
    else (if body[0].Char? then [body[0].c] else ['\\', body[0].c]) + BodyText(body[1..])
  }

  function PartText(p: Part): string
    decreases p, 0
  {
    match p
    case Plain(c) => [c]
    case Quoted(body) => "\"" + BodyText(body) + "\""
    case Braces(inside) => "{" + Text(inside) + "}"
  }

  function Text(parts: seq<Part>): string
    decreases parts, 1
  {
    if parts == [] then "" else PartText(parts[0]) + Text(parts[1..])
  }

  function Through(st: State, s: string): State
    decreases |s|
  {
    if s == "" then st else Through(Next(st, s[0]), s[1..])
  }

  lemma {:induction false} ThroughConcat(st: State, a: string, b: string)
    ensures Through(st, a + b) == Through(Through(st, a), b)
    decreases |a|
  {
    if a == "" {
      assert a + b == b;
    } else {
      assert (a + b)[0] == a[0] && (a + b)[1..] == a[1..] + b;
      ThroughConcat(Next(st, a[0]), a[1..], b);
    }
  }

  lemma {:induction false} StateIsThrough(s: string, i: nat)
    requires i <= |s|
    ensures StateAt(s, i) == Through(IDLE, s[..i])
  {
    if i > 0 {
      StateIsThrough(s, i - 1);
      assert s[..i] == s[..i - 1] + [s[i - 1]];
      ThroughConcat(IDLE, s[..i - 1], [s[i - 1]]);
      assert Through(StateAt(s, i - 1), [s[i - 1]]) == Next(StateAt(s, i - 1), s[i - 1]);
    }
  }

  // Reading `s` from `st` ends in `st` again and never goes below its depth, nor above it when `level`.
  ghost predicate Returns(st: State, s: string, level: bool) {
    && Through(st, s) == st
    && forall i :: 0 <= i <= |s| ==>
         Through(st, s[..i]).depth >= st.depth && (level ==> Through(st, s[..i]).depth == st.depth)
  }

  lemma ReturnsConcat(st: State, a: string, b: string, level: bool)
    requires Returns(st, a, level) && Returns(st, b, level)
    ensures Returns(st, a + b, level)
  {
    hide Next;
    ThroughConcat(st, a, b);
    forall i | 0 <= i <= |a + b|
      ensures Through(st, (a + b)[..i]).depth >= st.depth
      ensures level ==> Through(st, (a + b)[..i]).depth == st.depth
    {
      if i <= |a| {
        assert (a + b)[..i] == a[..i];
      } else {
        assert (a + b)[..i] == a + b[..i - |a|];
        ThroughConcat(st, a, b[..i - |a|]);
      }
    }
  }

  lemma ThroughOne(st: State, c: char)
    ensures Through(st, "") == st && Through(st, [c]) == Next(st, c)
  {
    assert [c][1..] == "";
  }

  // Between an opening and a closing character that lead to `mid` and back.
  lemma Enclosed(st: State, mid: State, open: char, s: string, close: char, level: bool)
    requires Next(st, open) == mid && Next(mid, close) == st && Returns(mid, s, level)
    requires mid.depth >= st.depth && (level ==> mid.depth == st.depth)
    ensures var t := [open] + s + [close];
      && Returns(st, t, level)
      && forall i :: 0 < i < |t| ==> Through(st, t[..i]).depth >= mid.depth
  {
    hide Next, Through;
    var t := [open] + s + [close];
    ThroughOne(st, open);
    ThroughOne(mid, close);
    ThroughConcat(st, [open], s);
    ThroughConcat(st, [open] + s, [close]);
    assert t[..0] == "" && t[..|t|] == t;
    forall i | 0 < i < |t| ensures Through(st, t[..i]) == Through(mid, s[..i - 1]) {
      assert t[..i] == [open] + s[..i - 1];
      ThroughConcat(st, [open], s[..i - 1]);
    }
  }

  lemma {:induction false} BodyReturns(depth: nat, body: seq<StringPart>)
    requires forall i :: 0 <= i < |body| ==> StringPartValid(body[i])
    ensures Returns(State(depth, InString), BodyText(body), true)
  {
    hide Returns, BodyText, StringPartValid;
    var st := State(depth, InString);
    BodyUnfolds(body);
    if body == [] {
      EmptyReturns(st);
    } else {
      BodyReturns(depth, body[1..]);
      OneReturns(depth, body[0]);
      ReturnsConcat(st, if body[0].Char? then [body[0].c] else ['\\', body[0].c], BodyText(body[1..]), true);
    }
  }

  lemma BodyUnfolds(body: seq<StringPart>)
    ensures BodyText([]) == ""
    ensures body != [] ==>
      BodyText(body) == (if body[0].Char? then [body[0].c] else ['\\', body[0].c]) + BodyText(body[1..])
  {}

  lemma EmptyReturns(st: State)
    ensures Returns(st, "", true)
  {
    assert ""[..0] == "";
  }

  lemma OneReturns(depth: nat, u: StringPart)
    requires StringPartValid(u)
    ensures Returns(State(depth, InString), if u.Char? then [u.c] else ['\\', u.c], true)
  {
    var st := State(depth, InString);
    if u.Char? {
      assert [u.c][..0] == "" && [u.c][..1] == [u.c];
      assert Through(st, [u.c]) == st;
    } else {
      var s := ['\\', u.c];
      assert s[..0] == "" && s[..1] == ['\\'] && s[..2] == s && s[1..] == [u.c];
      assert Through(st, ['\\']) == State(depth, Escaped);
      assert Through(State(depth, Escaped), [u.c]) == st;
    }
  }

  // A quote or plain character keeps the depth level; braces only raise it in between.
  lemma {:induction false} PartReturns(depth: nat, p: Part)
    requires PartValid(p) || (depth == 0 && p == Plain('}'))
    ensures Returns(State(depth, Outside), PartText(p), !p.Braces?)
    ensures p.Braces? ==> forall i :: 0 < i < |PartText(p)| ==>
      Through(State(depth, Outside), PartText(p)[..i]).depth > depth
    decreases p, 0
  {
    hide Returns, Through, Text, BodyText;
    var st := State(depth, Outside);
    match p
    case Plain(c) => PlainReturns(depth, c);
    case Quoted(body) =>
      BodyReturns(depth, body);
      Enclosed(st, State(depth, InString), '"', BodyText(body), '"', true);
    case Braces(inside) =>
      TextReturns(depth + 1, inside);
      Enclosed(st, State(depth + 1, Outside), '{', Text(inside), '}', false);
  }

  lemma PlainReturns(depth: nat, c: char)
    requires c != '"' && c != '{' && (c == '}' ==> depth == 0)
    ensures Returns(State(depth, Outside), [c], true)
  {
    assert [c][..0] == "" && [c][..1] == [c];
    assert Through(State(depth, Outside), [c]) == State(depth, Outside);
  }

  lemma LevelIsEnough(st: State, s: string, level: bool)
    requires Returns(st, s, level)
    ensures Returns(st, s, false)
  {}

  lemma {:induction false} TextReturns(depth: nat, parts: seq<Part>)
    requires forall i :: 0 <= i < |parts| ==> PartValid(parts[i])
    ensures Returns(State(depth, Outside), Text(parts), false)
    decreases parts, 1
  {
    hide Returns, PartValid, PartText;
    var st := State(depth, Outside);
    if parts == [] {
      EmptyReturns(st);
      LevelIsEnough(st, "", true);
    } else {
      PartReturns(depth, parts[0]);
      LevelIsEnough(st, PartText(parts[0]), !parts[0].Braces?);
      TextReturns(depth, parts[1..]);
      ReturnsConcat(st, PartText(parts[0]), Text(parts[1..]), false);
    }
  }

  // Outside all braces a stray closing brace is plain text too.
  predicate TopValid(p: Part) {
    PartValid(p) || p == Plain('}')
  }

  function BracesTexts(parts: seq<Part>): seq<string> {
    if parts == [] then []
    else (if parts[0].Braces? then [PartText(parts[0])] else []) + BracesTexts(parts[1..])
  }

  /**
    * Of any reply made of plain text, quoted strings and nested braces, the scanner yields exactly
    * the texts of its top-level braces in order, whatever braces and quotes its strings hold.
    */
  lemma {:induction false} YieldsTopLevelBraces(parts: seq<Part>)
    requires forall i :: 0 <= i < |parts| ==> TopValid(parts[i])
    ensures Objects(Text(parts)) == BracesTexts(parts)
  {
    hide Objects, PartText, TopValid;
    if parts == [] {
      EmptyYieldsNothing();
    } else {
      YieldsTopLevelBraces(parts[1..]);
      OnePart(parts[0]);
      ScanConcatenation(PartText(parts[0]), Text(parts[1..]));
    }
  }

  lemma OnePart(p: Part)
    requires TopValid(p)
    ensures StateAt(PartText(p), |PartText(p)|) == IDLE
    ensures Objects(PartText(p)) == if p.Braces? then [PartText(p)] else []
  {
    hide Through, Objects, PartText, StateAt;
    PartReturns(0, p);
    var s := PartText(p);
    forall i | 0 <= i <= |s| ensures StateAt(s, i) == Through(IDLE, s[..i]) {
      StateIsThrough(s, i);
    }
    assert s[..|s|] == s;
    if p.Braces? {
      BracesAreLong(p);
      WholeYieldsItself(s);
    } else {
      LevelYieldsNothing(s, |s|);
      AllOfIt(s);
    }
  }

  lemma AllOfIt(s: string)
    ensures Objects(s) == Yielded(s, |s|)
  {}

  lemma BracesAreLong(p: Part)
    requires p.Braces?
    ensures |PartText(p)| > 1
  {}

  lemma {:induction false} LevelYieldsNothing(s: string, n: nat)
    requires n <= |s| && forall i :: 0 <= i <= |s| ==> StateAt(s, i).depth == 0
    ensures Yielded(s, n) == []
  {
    hide StateAt, Spans, Pieces;
    if n == 0 {
      PiecesNone(s);
    } else {
      LevelYieldsNothing(s, n - 1);
      PiecesNext(s, n - 1);
    }
  }
}
