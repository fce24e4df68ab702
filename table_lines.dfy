/**
 * The line reader of the CMIP5 text tables: comment lines are skipped, anything after a `!` is
 * a comment, and every other line is a `key: value` pair (a blank line is the empty pair).
 * A table file is the sequence of its lines as `readline` returns them, each still ending in
 * its `\n` where it has one; the reader removes every `\n` itself.
 */
module Cmip5Lines {
  import opened Outcomes
  import opened Text

  /** One `key: value` line, both sides stripped. */
  datatype Pair = Pair(key: string, value: string)

  /** A line `_read_line` skips entirely: it begins with `!`. */
  predicate IsComment(line: string) {
    |line| > 0 && line[0] == '!'
  }

  /** Stripping only removes characters, so it adds none. */
  lemma StripKeepsOut(s: string, c: char)
    requires c !in s
    ensures c !in Strip(s)
  {
    var t := StripStart(s);
    assert t == s[|s| - |t|..];
    assert Strip(s) == t[..|Strip(s)|];
  }

  /** Stripping a text that is already stripped changes nothing. */
  lemma StripStripped(s: string)
    requires Stripped(s)
    ensures Strip(s) == s
  {
    StripPadded([], s, []);
    assert [] + s + [] == s;
  }

  /**
   * The text `_read_line` splits: line terminators removed, everything from the first `!` on
   * dropped, and the rest stripped.
   */
  function Clean(line: string): (r: string)
    ensures Stripped(r) && '\n' !in r && '!' !in r
  {
    var l := RemoveAll(line, '\n');
    var uncommented := if '!' in l then l[..IndexOf(l, '!')] else l;
    StripKeepsOut(uncommented, '!');
    StripKeepsOut(uncommented, '\n');
    Strip(uncommented)
  }

  /**
   * The pair `_read_line` makes of a line that is not a comment line: the empty pair for a blank
   * line, otherwise the stripped text before and after the first `:`; a non-blank line without
   * a `:` fails.
   */
  function SplitLine(line: string): (r: Result<Pair>)
    ensures r.Err? <==> Clean(line) != [] && ':' !in Clean(line)
    ensures r.Ok? && Clean(line) == [] ==> r.value == Pair("", "")
    ensures r.Ok? ==> Stripped(r.value.key) && Stripped(r.value.value) && ':' !in r.value.key
  {
    SplitClean(Clean(line))
  }

  /** The pair made of the cleaned text `l` of a line. */
  function SplitClean(l: string): (r: Result<Pair>)
    ensures r.Err? <==> l != [] && ':' !in l
    ensures r.Ok? && l == [] ==> r.value == Pair("", "")
    ensures r.Ok? ==> Stripped(r.value.key) && Stripped(r.value.value) && ':' !in r.value.key
  {
    if l == [] then Ok(Pair("", ""))
    else if ':' in l then
      var i := IndexOf(l, ':');
      StripKeepsOut(l[..i], ':');
      Ok(Pair(Strip(l[..i]), Strip(l[i + 1..])))
    else Err(MissingColon(l))
  }

  /** Neither side of a pair holds a `!` or a line terminator. */
  lemma SplitLineClean(line: string)
    requires SplitLine(line).Ok?
    ensures var p := SplitLine(line).value;
      '!' !in p.key && '!' !in p.value && '\n' !in p.key && '\n' !in p.value
  {
    var l := Clean(line);
    if l != [] {
      var i := IndexOf(l, ':');
      assert forall c :: c in l[..i] ==> c in l;
      assert forall c :: c in l[i + 1..] ==> c in l;
      StripKeepsOut(l[..i], '!');
      StripKeepsOut(l[..i], '\n');
      StripKeepsOut(l[i + 1..], '!');
      StripKeepsOut(l[i + 1..], '\n');
    }
  }

  /** Python's s.index(c) is the position of the first `c`. */
  lemma {:induction false} IndexOfAt(s: string, c: char, n: nat)
    requires n < |s| && s[n] == c && c !in s[..n]
    ensures IndexOf(s, c) == n
  {
    if n > 0 {
      assert s[0] == s[..n][0];
      assert s[1..][..n - 1] == s[..n][1..];
      IndexOfAt(s[1..], c, n - 1);
    }
  }

  /** A line with neither a terminator nor a comment is only stripped. */
  lemma CleanPlain(line: string)
    requires '\n' !in line && '!' !in line
    ensures Clean(line) == Strip(line)
  {
    RemoveAllAbsent(line, '\n');
  }

  /** SplitLine depends on the line only through its cleaned text. */
  lemma SplitLineSameClean(a: string, b: string)
    requires Clean(a) == Clean(b)
    ensures SplitLine(a) == SplitLine(b)
  {
  }

  /** A line splits at the first `:` of its cleaned text into the stripped text before it and after it. */
  lemma SplitLineAt(line: string, i: nat)
    requires i < |Clean(line)| && Clean(line)[i] == ':' && ':' !in Clean(line)[..i]
    ensures SplitLine(line) == Ok(Pair(Strip(Clean(line)[..i]), Strip(Clean(line)[i + 1..])))
  {
    IndexOfAt(Clean(line), ':', i);
  }

  lemma PairLinePlain(k: string, v: string)
    requires '!' !in k && '!' !in v && '\n' !in k && '\n' !in v
    ensures '\n' !in k + ": " + v && '!' !in k + ": " + v
  {
    assert '\n' !in ": " && '!' !in ": ";
  }

  lemma StripKeyColon(k: string)
    requires Stripped(k)
    ensures Strip(k + ": ") == k + ":"
  {
    assert k + ": " == [] + (k + ":") + " ";
    StripPadded([], k + ":", " ");
  }

  lemma PairLineStripped(k: string, v: string)
    requires Stripped(k) && Stripped(v) && v != []
    ensures Stripped(k + ": " + v)
  {
    var line := k + ": " + v;
    assert line[0] == if k == [] then ':' else k[0];
    assert line[|line| - 1] == v[|v| - 1];
  }

  /** The cleaned text of `key: value`: the value's separating space goes when the value is empty. */
  lemma CleanPairLine(k: string, v: string)
    requires Stripped(k) && Stripped(v)
    requires '!' !in k && '!' !in v && '\n' !in k && '\n' !in v
    ensures v == [] ==> Clean(k + ": " + v) == k + ":"
    ensures v != [] ==> Clean(k + ": " + v) == k + ": " + v
  {
    PairLinePlain(k, v);
    CleanPlain(k + ": " + v);
    if v == [] {
      assert k + ": " + v == k + ": ";
      StripKeyColon(k);
    } else {
      PairLineStripped(k, v);
      StripStripped(k + ": " + v);
    }
  }

  /** The first `:` of the cleaned text of `key: value` follows the key. */
  lemma PairColon(k: string, rest: string, l: string)
    requires ':' !in k && l == k + ":" + rest
    ensures |k| < |l| && l[|k|] == ':' && ':' !in l[..|k|]
  {
    assert l[..|k|] == k;
  }

  /** The key is read back from the cleaned text of `key: value`. */
  lemma PairKey(k: string, rest: string, l: string)
    requires Stripped(k) && l == k + ":" + rest
    ensures Strip(l[..|k|]) == k
  {
    assert l[..|k|] == k;
    StripStripped(k);
  }

  /** The value is read back from the cleaned text of `key: value`. */
  lemma PairValue(k: string, v: string, l: string)
    requires Stripped(v) && l == k + ": " + v
    ensures |k| < |l| && Strip(l[|k| + 1..]) == v
  {
    assert l[|k| + 1..] == " " + v + [];
    StripPadded(" ", v, []);
  }

  /** Key and value are read back from the cleaned text of `key: value`. */
  lemma SplitCleanPair(k: string, v: string, l: string)
    requires Stripped(k) && Stripped(v) && ':' !in k && v != [] && l == k + ": " + v
    ensures |k| < |l| && l[|k|] == ':' && ':' !in l[..|k|]
    ensures Strip(l[..|k|]) == k && Strip(l[|k| + 1..]) == v
  {
    assert l == k + ":" + (" " + v);
    PairColon(k, " " + v, l);
    PairKey(k, " " + v, l);
    PairValue(k, v, l);
  }

  /** The key and the empty value are read back from the cleaned text of `key: `. */
  lemma SplitCleanKey(k: string, l: string)
    requires Stripped(k) && ':' !in k && l == k + ":"
    ensures |k| < |l| && l[|k|] == ':' && ':' !in l[..|k|]
    ensures Strip(l[..|k|]) == k && Strip(l[|k| + 1..]) == []
  {
    assert l[..|k|] == k;
    StripStripped(k);
    assert l[|k| + 1..] == [];
  }

  /** Writing a pair as `key: value` and reading the line back gives the pair. */
  lemma SplitLineRoundTrip(k: string, v: string)
    requires Stripped(k) && Stripped(v) && ':' !in k
    requires '!' !in k && '!' !in v && '\n' !in k && '\n' !in v
    ensures SplitLine(k + ": " + v) == Ok(Pair(k, v))
  {
    var line := k + ": " + v;
    var l := Clean(line);
    assert |k| < |l| && l[|k|] == ':' && ':' !in l[..|k|]
           && Strip(l[..|k|]) == k && Strip(l[|k| + 1..]) == v by {
      CleanPairLine(k, v);
      if v == [] {
        SplitCleanKey(k, l);
      } else {
        SplitCleanPair(k, v, l);
      }
    }
    SplitLineAt(line, |k|);
  }

  /** Cutting at the first `!` removes the comment and everything after it. */
  lemma CleanComment(x: string, tail: string)
    requires '!' !in x
    ensures Clean(x + "!" + tail) == Clean(x)
  {
    RemoveAllConcat(x + "!", tail, '\n');
    RemoveAllConcat(x, "!", '\n');
    var rx := RemoveAll(x, '\n');
    assert RemoveAll("!", '\n') == "!";
    var l := RemoveAll(x + "!" + tail, '\n');
    assert l == rx + "!" + RemoveAll(tail, '\n');
    assert '!' !in rx;
    assert l[..|rx|] == rx;
    IndexOfAt(l, '!', |rx|);
  }

  /** Everything from the first `!` on is a comment: it does not change what the line reads as. */
  lemma SplitLineComment(x: string, tail: string)
    requires '!' !in x
    ensures SplitLine(x + "!" + tail) == SplitLine(x)
  {
    CleanComment(x, tail);
    SplitLineSameClean(x + "!" + tail, x);
  }

  /** A line of nothing but whitespace reads as the empty pair. */
  lemma SplitLineBlank(s: string)
    requires AllSpace(s)
    ensures SplitLine(s) == Ok(Pair("", ""))
  {
    CleanBlank(s);
  }

  /** The cleaned text of a line of nothing but whitespace is empty. */
  lemma CleanBlank(s: string)
    requires AllSpace(s)
    ensures Clean(s) == []
  {
    var l := RemoveAll(s, '\n');
    assert forall c :: c in l ==> c in s;
    assert AllSpace(l) by {
      forall i | 0 <= i < |l|
        ensures IsSpace(l[i])
      {
        assert l[i] in s;
      }
    }
    assert !IsSpace('!');
    assert '!' !in l;
    StripPadded(l, [], []);
    assert l + [] + [] == l;
  }

  /** What one call of `_read_line` finds from a position on. */
  datatype Read =
    | Eof                            // nothing but comment lines left: it returns False
    | Line(pair: Pair, next: nat)    // the pair of the first other line, and the position after it
    | Bad(error: Error, next: nat)   // that line is not blank and has no `:`

  /** The read of line i, a line that is not a comment line. */
  function ReadAt(lines: seq<string>, i: nat): (r: Read)
    requires i < |lines|
    ensures !r.Eof? && r.next == i + 1
  {
    match SplitLine(lines[i])
    case Ok(p) => Line(p, i + 1)
    case Err(e) => Bad(e, i + 1)
  }

  /** The first line from `cursor` on that is not a comment line, or |lines| when there is none. */
  function FirstContent(lines: seq<string>, cursor: nat): (i: nat)
    ensures i == |lines| || (cursor <= i < |lines| && !IsComment(lines[i]))
    ensures forall j :: cursor <= j < i ==> IsComment(lines[j])
    decreases |lines| - cursor
  {
    if cursor >= |lines| then |lines|
    else if IsComment(lines[cursor]) then FirstContent(lines, cursor + 1)
    else cursor
  }

  /**
   * CMIP5Info._read_line from line `cursor` of `lines`: comment lines are skipped, the first
   * other line is split; only comment lines left is the end of the file.
   */
  function NextLine(lines: seq<string>, cursor: nat): (r: Read)
    ensures r.Eof? <==> forall j :: cursor <= j < |lines| ==> IsComment(lines[j])
    ensures !r.Eof? ==> cursor < r.next <= |lines| && !IsComment(lines[r.next - 1])
                        && r == ReadAt(lines, r.next - 1)
                        && forall j :: cursor <= j < r.next - 1 ==> IsComment(lines[j])
  {
    var i := FirstContent(lines, cursor);
    if i >= |lines| then Eof
    else
      assert !IsComment(lines[i]);
      ReadAt(lines, i)
  }

  /** The end of the lines: nothing is left to read. */
  lemma NextLineAtEnd(lines: seq<string>)
    ensures NextLine(lines, |lines|) == Eof
  {
  }

  /** A line that is not a comment is the one read. */
  lemma NextLineReadsContent(lines: seq<string>, cursor: nat)
    requires cursor < |lines| && !IsComment(lines[cursor])
    ensures NextLine(lines, cursor) == ReadAt(lines, cursor)
  {
    assert FirstContent(lines, cursor) == cursor;
  }

  /** A comment line is skipped: reading from it reads from the line after it. */
  lemma NextLineSkipsComment(lines: seq<string>, cursor: nat)
    requires cursor < |lines| && IsComment(lines[cursor])
    ensures NextLine(lines, cursor) == NextLine(lines, cursor + 1)
  {
    assert FirstContent(lines, cursor) == FirstContent(lines, cursor + 1);
  }
}
