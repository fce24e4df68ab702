/** The Python string operations the table readers rely on: strip, split, split(' '), slicing and `in`. */
module Text {

  /** Python's str.isspace() for one character: the characters str.split() and str.strip() discard. */
  predicate IsSpace(c: char) {
    c == ' ' || ('\t' <= c <= '\r') || ('\U{1C}' <= c <= '\U{1F}') || c == '\U{85}' || c == '\U{A0}'
    || c == '\U{1680}' || ('\U{2000}' <= c <= '\U{200A}') || c == '\U{2028}' || c == '\U{2029}'
    || c == '\U{202F}' || c == '\U{205F}' || c == '\U{3000}'
  }

  /** Every character of `s` is whitespace. */
  predicate AllSpace(s: string) {
    forall i :: 0 <= i < |s| ==> IsSpace(s[i])
  }

  /** `s` has no whitespace at either end, which is what strip() leaves behind. */
  predicate Stripped(s: string) {
    s == [] || (!IsSpace(s[0]) && !IsSpace(s[|s| - 1]))
  }

  /** A token of str.split(): non-empty and free of whitespace. */
  predicate IsWord(s: string) {
    s != [] && forall i :: 0 <= i < |s| ==> !IsSpace(s[i])
  }

  /** Python's s.lstrip(): drop the leading whitespace. */
  function StripStart(s: string): (r: string)
    ensures |r| <= |s| && r == s[|s| - |r|..]
    ensures AllSpace(s[..|s| - |r|])
    ensures r == [] || !IsSpace(r[0])
  {
    if |s| > 0 && IsSpace(s[0]) then
      var r := StripStart(s[1..]);
      StripStartStep(s, r);
      r
    else s
  }

  /** Whitespace in front of what strip leaves of the rest is whitespace in front of it in the whole. */
  lemma StripStartStep(s: string, r: string)
    requires s != [] && IsSpace(s[0])
    requires |r| <= |s| - 1 && r == s[1..][|s| - 1 - |r|..] && AllSpace(s[1..][..|s| - 1 - |r|])
    ensures r == s[|s| - |r|..] && AllSpace(s[..|s| - |r|])
  {
    var k := |s| - |r|;
    assert s[1..][k - 1..] == s[k..];
    forall i | 0 <= i < k
      ensures IsSpace(s[..k][i])
    {
      if i > 0 {
        assert s[..k][i] == s[1..][..k - 1][i - 1];
      }
    }
  }

  /** Python's s.rstrip(): drop the trailing whitespace. */
  function StripEnd(s: string): (r: string)
    ensures |r| <= |s| && r == s[..|r|]
    ensures AllSpace(s[|r|..])
    ensures r == [] || !IsSpace(r[|r| - 1])
  {
    if |s| > 0 && IsSpace(s[|s| - 1]) then
      var r := StripEnd(s[..|s| - 1]);
      StripEndStep(s, r);
      r
    else s
  }

  /** Whitespace after what rstrip leaves of the front is whitespace after it in the whole. */
  lemma StripEndStep(s: string, r: string)
    requires s != [] && IsSpace(s[|s| - 1])
    requires |r| <= |s| - 1 && r == s[..|s| - 1][..|r|] && AllSpace(s[..|s| - 1][|r|..])
    ensures r == s[..|r|] && AllSpace(s[|r|..])
  {
    assert s[..|s| - 1][..|r|] == s[..|r|];
    forall i | 0 <= i < |s| - |r|
      ensures IsSpace(s[|r|..][i])
    {
      if |r| + i < |s| - 1 {
        assert s[|r|..][i] == s[..|s| - 1][|r|..][i];
      }
    }
  }

  /** Python's s.strip(). */
  function Strip(s: string): (r: string)
    ensures Stripped(r)
    ensures |r| <= |s|
  {
    var t := StripStart(s);
    var r := StripEnd(t);
    assert r != [] ==> r[0] == t[0];
    r
  }

  /** Stripping a stripped text padded with whitespace on both sides gives the text back. */
  lemma {:induction false} StripPadded(pre: string, t: string, post: string)
    requires AllSpace(pre) && AllSpace(post) && Stripped(t)
    ensures Strip(pre + t + post) == t
  {
    var s := pre + t + post;
    if t == [] {
      assert s == pre + post + [];
      AllSpaceConcat(pre, post);
      StripStartPadded(pre + post, []);
      assert StripStart(s) == [];
    } else {
      assert s == pre + (t + post);
      assert (t + post)[0] == t[0];
      StripStartPadded(pre, t + post);
      StripEndPadded(t, post);
      assert StripEnd(StripStart(s)) == t;
    }
  }

  lemma AllSpaceConcat(a: string, b: string)
    requires AllSpace(a) && AllSpace(b)
    ensures AllSpace(a + b)
  {
    forall i | 0 <= i < |a + b|
      ensures IsSpace((a + b)[i])
    {
      if i < |a| {
        assert (a + b)[i] == a[i];
      } else {
        assert (a + b)[i] == b[i - |a|];
      }
    }
  }

  lemma {:induction false} StripStartPadded(pre: string, t: string)
    requires AllSpace(pre) && (t == [] || !IsSpace(t[0]))
    ensures StripStart(pre + t) == t
  {
    if pre != [] {
      assert (pre + t)[1..] == pre[1..] + t;
      StripStartPadded(pre[1..], t);
    } else {
      assert pre + t == t;
    }
  }

  lemma {:induction false} StripEndPadded(t: string, post: string)
    requires AllSpace(post) && (t == [] || !IsSpace(t[|t| - 1]))
    ensures StripEnd(t + post) == t
    decreases |post|
  {
    if post != [] {
      var n := |t + post|;
      assert (t + post)[..n - 1] == t + post[..|post| - 1];
      StripEndPadded(t, post[..|post| - 1]);
    } else {
      assert t + post == t;
    }
  }

  /** Python's s[n:]: everything from index n on, or "" when `s` is shorter. */
  function SliceFrom(s: string, n: nat): (r: string)
    ensures |s| <= n ==> r == []
    ensures n <= |s| ==> s == s[..n] + r
  {
    if |s| <= n then [] else s[n..]
  }

  /** Position of the first occurrence of `c` in `s` (Python's s.index(c)). */
  function IndexOf(s: string, c: char): (i: nat)
    requires c in s
    ensures i < |s| && s[i] == c && c !in s[..i]
  {
    if s[0] == c then 0 else 1 + IndexOf(s[1..], c)
  }

  /** Python's s.replace(c, ''): `s` with every `c` removed. */
  function RemoveAll(s: string, c: char): (r: string)
    ensures c !in r
    ensures forall x :: x != c ==> (x in r <==> x in s)
  {
    if s == [] then [] else (if s[0] == c then [] else [s[0]]) + RemoveAll(s[1..], c)
  }

  lemma {:induction false} RemoveAllConcat(a: string, b: string, c: char)
    ensures RemoveAll(a + b, c) == RemoveAll(a, c) + RemoveAll(b, c)
  {
    if a != [] {
      assert (a + b)[1..] == a[1..] + b;
      RemoveAllConcat(a[1..], b, c);
    } else {
      assert a + b == b;
    }
  }

  /** `s` is `c`-free, so removing `c` changes nothing. */
  lemma {:induction false} RemoveAllAbsent(s: string, c: char)
    requires c !in s
    ensures RemoveAll(s, c) == s
  {
    if s != [] {
      assert s[1..] == s[|s| - |s[1..]|..];
      assert c !in s[1..] by {
        forall i | 0 <= i < |s[1..]| ensures s[1..][i] != c {
          assert s[1..][i] == s[i + 1];
        }
      }
      RemoveAllAbsent(s[1..], c);
      assert s == [s[0]] + s[1..];
    }
  }

  /** Python's `sub in s` for strings. */
  predicate IsSubstring(sub: string, s: string)
    decreases |s|
  {
    (|sub| <= |s| && s[..|sub|] == sub) || (s != [] && IsSubstring(sub, s[1..]))
  }

  /** Length of the run of non-whitespace characters at the start of `s`. */
  function WordEnd(s: string): (k: nat)
    ensures k <= |s|
    ensures k < |s| ==> IsSpace(s[k])
    ensures forall i :: 0 <= i < k ==> !IsSpace(s[i])
  {
    if s == [] || IsSpace(s[0]) then 0 else 1 + WordEnd(s[1..])
  }

  /** Python's s.split() with no argument: the maximal runs of non-whitespace characters, in order. */
  function SplitWhitespace(s: string): (r: seq<string>)
    ensures forall i :: 0 <= i < |r| ==> IsWord(r[i])
    decreases |s|
  {
    var t := StripStart(s);
    if t == [] then []
    else
      var k := WordEnd(t);
      FirstWord(t);
      var rest := SplitWhitespace(t[k..]);
      WordsCons(t[..k], rest);
      [t[..k]] + rest
  }

  lemma FirstWord(t: string)
    requires t != [] && !IsSpace(t[0])
    ensures 0 < WordEnd(t) && IsWord(t[..WordEnd(t)])
  {
    var k := WordEnd(t);
    assert forall i :: 0 <= i < k ==> t[..k][i] == t[i];
  }

  lemma WordsCons(w: string, rest: seq<string>)
    requires IsWord(w) && forall i :: 0 <= i < |rest| ==> IsWord(rest[i])
    ensures forall i :: 0 <= i < |[w] + rest| ==> IsWord(([w] + rest)[i])
  {
    forall i | 0 <= i < |[w] + rest|
      ensures IsWord(([w] + rest)[i])
    {
      if i > 0 {
        assert ([w] + rest)[i] == rest[i - 1];
      }
    }
  }

  /** `ts` joined with `sep` between consecutive elements (Python's sep.join(ts)). */
  function Join(ts: seq<string>, sep: string): string
  {
    if |ts| == 0 then []
    else if |ts| == 1 then ts[0]
    else ts[0] + sep + Join(ts[1..], sep)
  }

  /** Splitting words joined by single spaces gives the words back. */
  lemma {:induction false} SplitWhitespaceJoin(ws: seq<string>)
    requires forall i :: 0 <= i < |ws| ==> IsWord(ws[i])
    ensures SplitWhitespace(Join(ws, " ")) == ws
  {
    if |ws| == 0 {
      assert StripStart([]) == [];
    } else if |ws| == 1 {
      SplitOneWord(ws[0]);
    } else {
      var rest := Join(ws[1..], " ");
      assert Join(ws, " ") == ws[0] + " " + rest;
      SplitWhitespaceJoin(ws[1..]);
      JoinOfWordsStartsWithWord(ws[1..]);
      SplitWordThenSpace(ws[0], rest);
      assert ws == [ws[0]] + ws[1..];
    }
  }

  lemma SplitOneWord(w: string)
    requires IsWord(w)
    ensures SplitWhitespace(w) == [w]
  {
    WordEndOfWord(w, []);
    assert w + [] == w;
    assert StripStart(w) == w;
    assert w[WordEnd(w)..] == [];
  }

  lemma SplitLeadingSpace(x: string)
    ensures SplitWhitespace(" " + x) == SplitWhitespace(x)
  {
    assert (" " + x)[1..] == x;
    assert StripStart(" " + x) == StripStart(x);
  }

  lemma SplitWordThenSpace(w: string, rest: string)
    requires IsWord(w) && rest != [] && !IsSpace(rest[0])
    ensures SplitWhitespace(w + " " + rest) == [w] + SplitWhitespace(rest)
  {
    assert w + " " + rest == w + (" " + rest);
    SplitWordThenSpaces(w, " " + rest);
    SplitLeadingSpace(rest);
  }

  /** A word followed by whitespace or by nothing is split off whole. */
  lemma SplitWordThenSpaces(w: string, rest: string)
    requires IsWord(w) && (rest == [] || IsSpace(rest[0]))
    ensures SplitWhitespace(w + rest) == [w] + SplitWhitespace(rest)
  {
    var s := w + rest;
    assert [] + s == s;
    StripStartPadded([], s);
    WordEndOfWord(w, rest);
    assert s[..|w|] == w;
    assert s[|w|..] == rest;
  }

  /** Leading whitespace, however much, does not change what split() gives. */
  lemma SplitLeadingSpaces(g: string, x: string)
    requires AllSpace(g)
    ensures SplitWhitespace(g + x) == SplitWhitespace(x)
  {
    StripStartSpaces(g, x);
    SplitSameStart(g + x, x);
  }

  /** split() looks at a text only through what lstrip() leaves of it. */
  lemma SplitSameStart(a: string, b: string)
    requires StripStart(a) == StripStart(b)
    ensures SplitWhitespace(a) == SplitWhitespace(b)
  {
  }

  lemma StripStartSpace(s: string, y: string)
    requires s != [] && IsSpace(s[0]) && s[1..] == y
    ensures StripStart(s) == StripStart(y)
  {
  }

  lemma {:induction false} StripStartSpaces(g: string, x: string)
    requires AllSpace(g)
    ensures StripStart(g + x) == StripStart(x)
    decreases |g|
  {
    if g == [] {
      assert g + x == x;
    } else {
      var y := g[1..] + x;
      assert StripStart(y) == StripStart(x) by {
        assert AllSpace(g[1..]) by {
          forall i | 0 <= i < |g[1..]| ensures IsSpace(g[1..][i]) {
            assert g[1..][i] == g[i + 1];
          }
        }
        StripStartSpaces(g[1..], x);
      }
      StripStartSpace(g + x, y);
    }
  }

  /** The words laid out with whitespace around them: gaps[0], ws[0], gaps[1], …, ws[n - 1], gaps[n]. */
  function Spaced(ws: seq<string>, gaps: seq<string>): string
    requires |gaps| == |ws| + 1
    decreases |ws|
  {
    if ws == [] then gaps[0] else gaps[0] + ws[0] + Spaced(ws[1..], gaps[1..])
  }

  /** Whitespace that can lay out words: every gap is whitespace, and a gap between two words is not empty. */
  predicate Gaps(gaps: seq<string>) {
    && (forall i :: 0 <= i < |gaps| ==> AllSpace(gaps[i]))
    && (forall i :: 0 < i < |gaps| - 1 ==> gaps[i] != [])
  }

  /**
   * split() drops whitespace at either end and takes any run of whitespace for one separator:
   * words laid out with any such gaps split back into the same words.
   */
  lemma {:induction false} SplitWhitespaceSpaced(ws: seq<string>, gaps: seq<string>)
    requires |gaps| == |ws| + 1 && Gaps(gaps)
    requires forall i :: 0 <= i < |ws| ==> IsWord(ws[i])
    ensures SplitWhitespace(Spaced(ws, gaps)) == ws
    decreases |ws|
  {
    if ws == [] {
      assert gaps[0] + [] == gaps[0];
      SplitLeadingSpaces(gaps[0], []);
      assert StripStart([]) == [];
    } else {
      GapsTail(gaps);
      WordsTail(ws);
      SplitWhitespaceSpaced(ws[1..], gaps[1..]);
      SplitSpacedStep(ws, gaps);
    }
  }

  /** One word more: its leading gap is dropped and the word is split off whole. */
  lemma SplitSpacedStep(ws: seq<string>, gaps: seq<string>)
    requires ws != [] && |gaps| == |ws| + 1 && IsWord(ws[0]) && AllSpace(gaps[0]) && AllSpace(gaps[1])
    requires |ws| > 1 ==> gaps[1] != []
    requires SplitWhitespace(Spaced(ws[1..], gaps[1..])) == ws[1..]
    ensures SplitWhitespace(Spaced(ws, gaps)) == ws
  {
    var rest := Spaced(ws[1..], gaps[1..]);
    var x := ws[0] + rest;
    assert Spaced(ws, gaps) == gaps[0] + x;
    assert SplitWhitespace(gaps[0] + x) == SplitWhitespace(x) by {
      SplitLeadingSpaces(gaps[0], x);
    }
    assert SplitWhitespace(x) == [ws[0]] + ws[1..] by {
      SpacedStart(ws[1..], gaps[1..]);
      SplitWordThenSpaces(ws[0], rest);
    }
    HeadTail(ws);
  }

  lemma HeadTail(ws: seq<string>)
    requires ws != []
    ensures [ws[0]] + ws[1..] == ws
  {
  }

  lemma GapsTail(gaps: seq<string>)
    requires |gaps| > 1 && Gaps(gaps)
    ensures Gaps(gaps[1..]) && AllSpace(gaps[1]) && (|gaps| > 2 ==> gaps[1] != [])
  {
    var tail := gaps[1..];
    forall i | 0 <= i < |tail| ensures AllSpace(tail[i]) {
      assert tail[i] == gaps[i + 1];
    }
    forall i | 0 < i < |tail| - 1 ensures tail[i] != [] {
      assert tail[i] == gaps[i + 1];
    }
  }

  lemma WordsTail(ws: seq<string>)
    requires ws != [] && forall i :: 0 <= i < |ws| ==> IsWord(ws[i])
    ensures IsWord(ws[0]) && forall i :: 0 <= i < |ws[1..]| ==> IsWord(ws[1..][i])
  {
    forall i | 0 <= i < |ws[1..]| ensures IsWord(ws[1..][i]) {
      assert ws[1..][i] == ws[i + 1];
    }
  }

  /** A layout with whitespace in front, or with no words, starts with whitespace if with anything. */
  lemma SpacedStart(ws: seq<string>, gaps: seq<string>)
    requires |gaps| == |ws| + 1 && AllSpace(gaps[0]) && (ws == [] || gaps[0] != [])
    ensures var s := Spaced(ws, gaps); s == [] || IsSpace(s[0])
  {
    if ws != [] {
      assert Spaced(ws, gaps)[0] == gaps[0][0];
    }
  }

  lemma {:induction false} WordEndOfWord(w: string, tail: string)
    requires IsWord(w) && (tail == [] || IsSpace(tail[0]))
    ensures WordEnd(w + tail) == |w|
  {
    if |w| > 1 {
      assert (w + tail)[1..] == w[1..] + tail;
      WordEndOfWord(w[1..], tail);
    } else {
      assert (w + tail)[1..] == tail;
    }
  }

  lemma {:induction false} JoinOfWordsStartsWithWord(ws: seq<string>)
    requires |ws| > 0 && forall i :: 0 <= i < |ws| ==> IsWord(ws[i])
    ensures Join(ws, " ") != [] && !IsSpace(Join(ws, " ")[0])
  {
    if |ws| > 1 {
      assert Join(ws, " ") == ws[0] + " " + Join(ws[1..], " ");
      assert Join(ws, " ")[0] == ws[0][0];
    }
  }

  /** Python's s.split(sep) for a one-character separator: the pieces between separators, empty ones included. */
  function SplitOn(s: string, sep: char): (r: seq<string>)
    ensures |r| >= 1
    ensures forall i :: 0 <= i < |r| ==> sep !in r[i]
    decreases |s|
  {
    if sep in s then
      var i := IndexOf(s, sep);
      [s[..i]] + SplitOn(s[i + 1..], sep)
    else [s]
  }

  /** Joining the pieces of split(sep) with sep restores the text. */
  lemma {:induction false} JoinSplitOn(s: string, sep: char)
    ensures Join(SplitOn(s, sep), [sep]) == s
    decreases |s|
  {
    if sep in s {
      var i := IndexOf(s, sep);
      var rest := SplitOn(s[i + 1..], sep);
      JoinSplitOn(s[i + 1..], sep);
      JoinCons(s[..i], rest, [sep]);
      assert s == s[..i] + [sep] + s[i + 1..];
    }
  }

  lemma JoinCons(a: string, rest: seq<string>, sep: string)
    requires |rest| >= 1
    ensures Join([a] + rest, sep) == a + sep + Join(rest, sep)
  {
    assert ([a] + rest)[1..] == rest;
  }

  /** Splitting separator-free pieces joined by sep gives the pieces back. */
  lemma {:induction false} SplitOnJoin(ts: seq<string>, sep: char)
    requires |ts| >= 1
    requires forall i :: 0 <= i < |ts| ==> sep !in ts[i]
    ensures SplitOn(Join(ts, [sep]), sep) == ts
  {
    if |ts| > 1 {
      var rest := Join(ts[1..], [sep]);
      assert Join(ts, [sep]) == ts[0] + [sep] + rest;
      assert forall i :: 0 <= i < |ts[1..]| ==> ts[1..][i] == ts[i + 1];
      SplitOnJoin(ts[1..], sep);
      SplitOnCons(ts[0], rest, sep);
      assert [ts[0]] + ts[1..] == ts;
    } else {
      assert Join(ts, [sep]) == ts[0];
    }
  }

  lemma SplitOnCons(a: string, b: string, sep: char)
    requires sep !in a
    ensures SplitOn(a + [sep] + b, sep) == [a] + SplitOn(b, sep)
  {
    var s := a + [sep] + b;
    assert s[|a|] == sep;
    var i := IndexOf(s, sep);
    assert s[..i] == a;
    assert s[i + 1..] == b;
  }
}
