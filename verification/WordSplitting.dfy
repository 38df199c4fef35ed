/** Lower-casing and whitespace splitting, as the inverted index uses them (ASCII). */
module WordSplitting {
  predicate IsSpace(c: char) {
    '\t' <= c <= '\r' || '\U{1C}' <= c <= ' '
  }

  function LowerChar(c: char): char {
    if 'A' <= c <= 'Z' then c + 32 as char else c
  }

  function Lower(text: string): string {
    seq(|text|, i requires 0 <= i < |text| => LowerChar(text[i]))
  }

  function Flush(word: string): seq<string> {
    if word == "" then [] else [word]
  }

  /** The words of `text`, where `word` has been read so far without a space. */
  function SplitFrom(text: string, word: string): seq<string>
    decreases |text|
  {
    if text == "" then Flush(word)
    else if IsSpace(text[0]) then Flush(word) + SplitFrom(text[1..], "")
    else SplitFrom(text[1..], word + [text[0]])
  }

  function Words(text: string): seq<string> {
    SplitFrom(Lower(text), "")
  }

  lemma {:induction false} SplitAtSpace(a: string, b: string, word: string)
    ensures SplitFrom(a + " " + b, word) == SplitFrom(a, word) + SplitFrom(b, "")
    decreases |a|
  {
    if a == "" {
      assert a + " " + b == " " + b;
      assert (" " + b)[1..] == b;
    } else {
      var rest := a[1..];
      assert (a + " " + b)[1..] == rest + " " + b;
      if IsSpace(a[0]) {
        SplitAtSpace(rest, b, "");
        assert Flush(word) + (SplitFrom(rest, "") + SplitFrom(b, ""))
            == (Flush(word) + SplitFrom(rest, "")) + SplitFrom(b, "");
      } else {
        SplitAtSpace(rest, b, word + [a[0]]);
      }
    }
  }

  /** Joining two texts by a space never merges or splits a word of either. */
  lemma WordsOfJoin(a: string, b: string)
    ensures Words(a + " " + b) == Words(a) + Words(b)
  {
    assert Lower(a + " " + b) == Lower(a) + " " + Lower(b);
    SplitAtSpace(Lower(a), Lower(b), "");
  }

  // ---- Which characters, and what the words of a text are ----

  /** Spaces are tab to carriage return, the four separator controls and the blank; of the letters
      exactly the upper-case ones are replaced, each by the one at its place among the lower-case. */
  lemma CharactersMean(c: char)
    ensures IsSpace(c) <==> c as int in {9, 10, 11, 12, 13, 28, 29, 30, 31, 32}
    ensures 65 <= c as int < 65 + 26 ==> LowerChar(c) as int == 97 + (c as int - 65)
    ensures !(65 <= c as int < 65 + 26) ==> LowerChar(c) == c
  {}

  predicate IsWord(w: string) {
    w != "" && forall i | 0 <= i < |w| :: !IsSpace(w[i])
  }

  predicate IsGap(g: string) {
    forall i | 0 <= i < |g| :: IsSpace(g[i])
  }

  /** The words with the gaps around and between them. */
  function Interleaved(words: seq<string>, gaps: seq<string>): string
    requires |gaps| == |words| + 1
  {
    if words == [] then gaps[0] else gaps[0] + words[0] + Interleaved(words[1..], gaps[1..])
  }

  lemma {:induction false} SkipsGap(gap: string, rest: string)
    requires IsGap(gap)
    ensures SplitFrom(gap + rest, "") == SplitFrom(rest, "")
    decreases |gap|
  {
    if gap == "" {
      assert gap + rest == rest;
    } else {
      assert (gap + rest)[1..] == gap[1..] + rest;
      SkipsGap(gap[1..], rest);
    }
  }

  lemma {:induction false} ReadsWord(read: string, w: string, rest: string)
    requires (forall i | 0 <= i < |w| :: !IsSpace(w[i])) && read + w != "" && (rest == "" || IsSpace(rest[0]))
    ensures SplitFrom(w + rest, read) == [read + w] + SplitFrom(rest, "")
    decreases |w|
  {
    if w == "" {
      assert w + rest == rest && read + w == read;
    } else {
      assert (w + rest)[1..] == w[1..] + rest && read + [w[0]] + w[1..] == read + w;
      ReadsWord(read + [w[0]], w[1..], rest);
    }
  }

  /** A text made of words with spaces between them, and any around them, splits into those words. */
  lemma {:induction false} SplitsAsWritten(words: seq<string>, gaps: seq<string>)
    requires |gaps| == |words| + 1 && (forall w | w in words :: IsWord(w)) && (forall g | g in gaps :: IsGap(g))
    requires forall i | 0 < i < |words| :: gaps[i] != ""
    ensures SplitFrom(Interleaved(words, gaps), "") == words
    decreases |words|
  {
    hide SplitFrom, IsSpace;
    if words == [] {
      SkipsGap(gaps[0], "");
      assert gaps[0] + "" == gaps[0];
      assert SplitFrom("", "") == [] by { NothingToSplit(); }
    } else {
      var rest := Interleaved(words[1..], gaps[1..]);
      assert gaps[0] + words[0] + rest == gaps[0] + (words[0] + rest);
      SkipsGap(gaps[0], words[0] + rest);
      assert rest == "" || IsSpace(rest[0]) by {
        assert gaps[1..][0] == gaps[1] && IsGap(gaps[1]);
        StartsWithGap(words[1..], gaps[1..]);
      }
      assert IsWord(words[0]);
      ReadsWord("", words[0], rest);
      assert "" + words[0] == words[0];
      SplitsAsWritten(words[1..], gaps[1..]);
    }
  }

  lemma NothingToSplit()
    ensures SplitFrom("", "") == []
  {}

  lemma StartsWithGap(words: seq<string>, gaps: seq<string>)
    requires |gaps| == |words| + 1 && IsGap(gaps[0]) && (words != [] ==> gaps[0] != "")
    ensures Interleaved(words, gaps) == "" || IsSpace(Interleaved(words, gaps)[0])
  {}
}
