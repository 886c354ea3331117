/**
 * The string operations of Rust's standard library that walk_entities relies on:
 * `str::rfind`, `str::lines`, `str::starts_with` and `str::split_whitespace`,
 * over strings seen as sequences of Unicode scalar values.
 */
module Text {
  import opened Common

  /** Rust's `char::is_whitespace`: the Unicode White_Space property. */
  predicate IsWhitespace(c: char) {
    || ('\t' <= c <= '\r')
    || c == ' '
    || c == '\U{85}'
    || c == '\U{A0}'
    || c == '\U{1680}'
    || ('\U{2000}' <= c <= '\U{200A}')
    || c == '\U{2028}'
    || c == '\U{2029}'
    || c == '\U{202F}'
    || c == '\U{205F}'
    || c == '\U{3000}'
  }

  predicate StartsWith(s: string, prefix: string) {
    |prefix| <= |s| && s[..|prefix|] == prefix
  }

  // ---------------------------------------------------------------------------
  // rfind

  /** `pat` occurs in `s` starting at index `i`. */
  predicate OccursAt(s: string, pat: string, i: nat) {
    i + |pat| <= |s| && s[i..i + |pat|] == pat
  }

  /** `str::rfind`: the start of the last occurrence of `pat` in `s`, if any. */
  function RFind(s: string, pat: string): (r: Option<nat>)
    ensures r.Some? ==> OccursAt(s, pat, r.value)
    ensures r.Some? ==> forall j: nat :: r.value < j ==> !OccursAt(s, pat, j)
    ensures r.None? ==> forall j: nat :: !OccursAt(s, pat, j)
    decreases |s|
  {
    if |s| < |pat| then None
    else if s[|s| - |pat|..] == pat then Some(|s| - |pat|)
    else
      var r := RFind(s[..|s| - 1], pat);
      assert forall j: nat :: OccursAt(s, pat, j) ==> OccursAt(s[..|s| - 1], pat, j) by {
        forall j: nat | OccursAt(s, pat, j) ensures OccursAt(s[..|s| - 1], pat, j) {
          assert s[..|s| - 1][j..j + |pat|] == s[j..j + |pat|];
        }
      }
      r
  }

  /** An occurrence inside `b` is an occurrence inside `a + b`, shifted by `|a|`, and back. */
  lemma OccursShift(a: string, b: string, pat: string, j: nat)
    ensures OccursAt(a + b, pat, |a| + j) <==> OccursAt(b, pat, j)
  {
    if j + |pat| <= |b| {
      assert (a + b)[|a| + j..|a| + j + |pat|] == b[j..j + |pat|];
    }
  }

  /** rfind finds an occurrence at or after any occurrence there is. */
  lemma RFindAtLeast(s: string, pat: string, k: nat)
    requires OccursAt(s, pat, k)
    ensures RFind(s, pat).Some? && k <= RFind(s, pat).value
  {
  }

  /** An occurrence of `pat` in `s == a + b` that starts inside `b` is one of `b`'s. */
  lemma OccursInSuffix(s: string, a: string, b: string, pat: string, m: nat)
    requires s == a + b
    requires |a| <= m && OccursAt(s, pat, m)
    ensures RFind(b, pat).Some? && m - |a| <= RFind(b, pat).value
  {
    OccursShift(a, b, pat, m - |a|);
    RFindAtLeast(b, pat, m - |a|);
  }

  /** Text placed in front of `b` cannot move the last occurrence of a pattern that `b` contains. */
  lemma RFindAppend(s: string, a: string, b: string, pat: string)
    requires s == a + b
    requires RFind(b, pat).Some?
    ensures RFind(s, pat).Some? && RFind(s, pat).value == |a| + RFind(b, pat).value
  {
    var k := RFind(b, pat).value;
    var r := RFind(s, pat);
    assert r.Some? && |a| + k <= r.value by {
      OccursShift(a, b, pat, k);
      RFindAtLeast(s, pat, |a| + k);
    }
    OccursInSuffix(s, a, b, pat, r.value);
  }

  /** ... so the text from the last occurrence on is the same with or without it. */
  lemma RFindSuffix(s: string, a: string, b: string, pat: string)
    requires s == a + b
    requires RFind(b, pat).Some?
    ensures RFind(s, pat).Some? && s[RFind(s, pat).value..] == b[RFind(b, pat).value..]
  {
    var k := RFind(b, pat).value;
    RFindAppend(s, a, b, pat);
    assert s[|a| + k..] == b[k..];
  }

  // ---------------------------------------------------------------------------
  // lines

  /** Drops one carriage return that ended a line before its line feed. */
  function StripCarriageReturn(line: string): string {
    if |line| > 0 && line[|line| - 1] == '\r' then line[..|line| - 1] else line
  }

  /** The lines of `s`, where `cur` is the part of the current line already read. */
  function LinesFrom(s: string, cur: string): (r: seq<string>)
    requires '\n' !in cur
    ensures forall line :: line in r ==> '\n' !in line
    ensures |r| <= |s| + 1
    decreases |s|
  {
    if s == [] then (if cur == [] then [] else [cur])
    else if s[0] == '\n' then [StripCarriageReturn(cur)] + LinesFrom(s[1..], [])
    else LinesFrom(s[1..], cur + [s[0]])
  }

  /**
   * `str::lines`: split at each line feed, dropping a carriage return just before it;
   * a final line is produced only when it is not empty.
   */
  function Lines(s: string): seq<string> {
    LinesFrom(s, [])
  }

  /** A line feed ends the current line; what follows is split on its own. */
  lemma {:induction false} LinesFromBreak(l: string, rest: string, cur: string)
    requires '\n' !in cur && '\n' !in l
    ensures LinesFrom(l + "\n" + rest, cur) == [StripCarriageReturn(cur + l)] + LinesFrom(rest, [])
    decreases |l|
  {
    if l == [] {
      assert l + "\n" + rest == "\n" + rest;
      assert ("\n" + rest)[1..] == rest;
      assert cur + l == cur;
    } else {
      assert (l + "\n" + rest)[0] == l[0];
      assert (l + "\n" + rest)[1..] == l[1..] + "\n" + rest;
      LinesFromBreak(l[1..], rest, cur + [l[0]]);
      assert cur + [l[0]] + l[1..] == cur + l;
    }
  }

  /** Text without a line feed is one line, unless it is empty. */
  lemma {:induction false} LinesFromLast(l: string, cur: string)
    requires '\n' !in cur && '\n' !in l && cur + l != []
    ensures LinesFrom(l, cur) == [cur + l]
    decreases |l|
  {
    if l == [] {
      assert cur + l == cur;
    } else {
      LinesFromLast(l[1..], cur + [l[0]]);
      assert cur + [l[0]] + l[1..] == cur + l;
    }
  }

  lemma LinesBreak(l: string, rest: string)
    requires '\n' !in l
    ensures Lines(l + "\n" + rest) == [StripCarriageReturn(l)] + Lines(rest)
  {
    LinesFromBreak(l, rest, []);
    assert [] + l == l;
  }

  lemma LinesLast(l: string)
    requires '\n' !in l && l != []
    ensures Lines(l) == [l]
  {
    LinesFromLast(l, []);
    assert [] + l == l;
  }

  // ---------------------------------------------------------------------------
  // split_whitespace

  function Flush(word: string): seq<string> {
    if word == [] then [] else [word]
  }

  predicate NoWhitespace(w: string) {
    forall i :: 0 <= i < |w| ==> !IsWhitespace(w[i])
  }

  /** The words of `s`, where `word` is the part of the current word already read. */
  function WordsFrom(s: string, word: string): (r: seq<string>)
    requires NoWhitespace(word)
    ensures forall w :: w in r ==> |w| > 0 && NoWhitespace(w)
    decreases |s|
  {
    if s == [] then Flush(word)
    else if IsWhitespace(s[0]) then Flush(word) + WordsFrom(s[1..], [])
    else WordsFrom(s[1..], word + [s[0]])
  }

  /** `str::split_whitespace`: the maximal runs of non-whitespace characters, in order. */
  function SplitWhitespace(s: string): seq<string> {
    WordsFrom(s, [])
  }

  /** Length of the run of whitespace that `s` starts with. */
  function SpaceLen(s: string): (n: nat)
    ensures n <= |s|
    ensures forall i :: 0 <= i < n ==> IsWhitespace(s[i])
    ensures n < |s| ==> !IsWhitespace(s[n])
    decreases |s|
  {
    if s != [] && IsWhitespace(s[0]) then 1 + SpaceLen(s[1..]) else 0
  }

  /** Length of the run of non-whitespace characters that `s` starts with. */
  function WordLen(s: string): (n: nat)
    ensures n <= |s|
    ensures forall i :: 0 <= i < n ==> !IsWhitespace(s[i])
    ensures n < |s| ==> IsWhitespace(s[n])
    decreases |s|
  {
    if s != [] && !IsWhitespace(s[0]) then 1 + WordLen(s[1..]) else 0
  }

  /** The first whitespace-delimited word of `s`: skip the leading blanks, take the next run. */
  function FirstWord(s: string): Option<string> {
    var k := SpaceLen(s);
    if k == |s| then None else Some(s[k..k + WordLen(s[k..])])
  }

  /** Splitting text that ends in whitespace, then more text, splits the two parts separately. */
  lemma {:induction false} WordsFromAppend(a: string, b: string, word: string)
    requires NoWhitespace(word)
    requires |a| > 0 && IsWhitespace(a[|a| - 1])
    ensures WordsFrom(a + b, word) == WordsFrom(a, word) + WordsFrom(b, [])
    decreases |a|
  {
    assert (a + b)[0] == a[0];
    if |a| == 1 {
      assert (a + b)[1..] == b;
    } else {
      assert (a + b)[1..] == a[1..] + b;
      if IsWhitespace(a[0]) {
        WordsFromAppend(a[1..], b, []);
      } else {
        WordsFromAppend(a[1..], b, word + [a[0]]);
      }
    }
  }

  /** A word followed by a blank is read as that one word. */
  lemma {:induction false} WordThenSpace(w: string, c: char, word: string)
    requires NoWhitespace(word) && NoWhitespace(w) && IsWhitespace(c)
    ensures WordsFrom(w + [c], word) == Flush(word + w)
    decreases |w|
  {
    if w == [] {
      assert w + [c] == [c] && [c][1..] == [];
      assert word + w == word;
    } else {
      assert (w + [c])[1..] == w[1..] + [c];
      WordThenSpace(w[1..], c, word + [w[0]]);
      assert word + [w[0]] + w[1..] == word + w;
    }
  }

  /** A started word extends up to the next blank. */
  lemma {:induction false} WordsFromFirst(s: string, word: string)
    requires NoWhitespace(word) && word != []
    ensures |WordsFrom(s, word)| > 0 && WordsFrom(s, word)[0] == word + s[..WordLen(s)]
    decreases |s|
  {
    if s != [] && !IsWhitespace(s[0]) {
      WordsFromFirst(s[1..], word + [s[0]]);
      assert s[..WordLen(s)] == [s[0]] + s[1..][..WordLen(s[1..])];
    }
  }

  /** Leading blanks do not change the first word. */
  lemma FirstWordSkip(s: string)
    requires s != [] && IsWhitespace(s[0])
    ensures FirstWord(s) == FirstWord(s[1..])
  {
    var k := SpaceLen(s[1..]);
    assert SpaceLen(s) == k + 1;
    assert s[1..][k..] == s[k + 1..];
    if k < |s[1..]| {
      var n := WordLen(s[k + 1..]);
      assert s[1..][k..k + n] == s[k + 1..k + 1 + n];
    }
  }

  /** The first token of `split_whitespace` is the first word, and there is one iff `s` is not all blank. */
  lemma {:induction false} SplitWhitespaceFirst(s: string)
    ensures SplitWhitespace(s) == [] <==> FirstWord(s).None?
    ensures FirstWord(s).Some? ==> SplitWhitespace(s)[0] == FirstWord(s).value
    decreases |s|
  {
    if s == [] {
    } else if IsWhitespace(s[0]) {
      assert SplitWhitespace(s) == SplitWhitespace(s[1..]);
      SplitWhitespaceFirst(s[1..]);
      FirstWordSkip(s);
    } else {
      assert [] + [s[0]] == [s[0]];
      assert SplitWhitespace(s) == WordsFrom(s[1..], [s[0]]);
      WordsFromFirst(s[1..], [s[0]]);
      assert SpaceLen(s) == 0;
      assert s[0..] == s;
      assert s[..WordLen(s)] == [s[0]] + s[1..][..WordLen(s[1..])];
    }
  }
}
