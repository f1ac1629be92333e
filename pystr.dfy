/**
 The three Python string built-ins that the summarization library relies on,
 modelled on `string` (a sequence of Unicode code points):

 - `str.isspace()` on one character, as `IsSpace`;
 - `str.split()` with no separator, as `Split` and `WordCount`;
 - `str.strip()` with no argument, as `Strip`.

 `Split` follows CPython's algorithm (skip whitespace, take a maximal run of
 non-whitespace, repeat). The lemmas tie it to independent descriptions of a
 "word": the set of positions where a word starts, the text with its
 whitespace removed, and `' '.join`, of which it is the inverse.
 */
module PyStr {

  /** Python's `str.isspace()` for a single code point: the characters whose
      bidirectional class is WS, B or S, or whose category is Zs. */
  predicate IsSpace(c: char) {
    var n := c as int;
    || n == 0x20
    || 0x09 <= n <= 0x0D
    || 0x1C <= n <= 0x1F
    || n == 0x85
    || n == 0xA0
    || n == 0x1680
    || 0x2000 <= n <= 0x200A
    || n == 0x2028
    || n == 0x2029
    || n == 0x202F
    || n == 0x205F
    || n == 0x3000
  }

  /** In ASCII, `str.isspace()` holds for the six C whitespace characters
      and the four information separators, and for nothing else; no letter
      or digit is whitespace. */
  lemma IsSpaceInAscii(c: char)
    ensures c as int < 0x80 ==>
      (IsSpace(c) <==> c in {' ', '\t', '\n', '\U{0B}', '\U{0C}', '\r', '\U{1C}', '\U{1D}', '\U{1E}', '\U{1F}'})
    ensures IsSpace(c) ==> !('0' <= c <= '9' || 'a' <= c <= 'z' || 'A' <= c <= 'Z')
  {
  }

  predicate AllSpace(s: string) {
    forall i :: 0 <= i < |s| ==> IsSpace(s[i])
  }

  predicate NoSpace(s: string) {
    forall i :: 0 <= i < |s| ==> !IsSpace(s[i])
  }

  /** No whitespace at either end, as `str.strip()` leaves a string. */
  predicate NoOuterSpace(s: string) {
    |s| > 0 ==> !IsSpace(s[0]) && !IsSpace(s[|s| - 1])
  }

  /** A word as `str.split()` produces it: non-empty, no whitespace inside. */
  predicate IsWord(w: string) {
    |w| > 0 && NoSpace(w)
  }

  // ---------------------------------------------------------------------
  // str.split()
  // ---------------------------------------------------------------------

  /** Length of the maximal run of non-whitespace characters that begins
      the string. */
  function RunLength(s: string): (n: nat)
    ensures n <= |s|
    ensures NoSpace(s[..n])
    ensures n < |s| ==> IsSpace(s[n])
  {
    if |s| == 0 || IsSpace(s[0]) then 0 else 1 + RunLength(s[1..])
  }

  /** `s.split()`: the maximal runs of non-whitespace, in order. Leading,
      trailing and repeated whitespace produce no empty words. */
  function Split(s: string): (words: seq<string>)
    ensures forall k :: 0 <= k < |words| ==> IsWord(words[k])
    ensures |words| <= |s|
    decreases |s|
  {
    if |s| == 0 then []
    else if IsSpace(s[0]) then Split(s[1..])
    else
      var n := RunLength(s);
      [s[..n]] + Split(s[n..])
  }

  /** `len(s.split())`. */
  function WordCount(s: string): (count: nat)
    ensures count == |WordStarts(s)|
    ensures count == 0 <==> AllSpace(s)
    ensures 2 * count <= |s| + 1
  {
    WordCountIsWordStarts(s);
    NoWordsIffAllSpace(s);
    WordsAreSeparated(s);
    |Split(s)|
  }

  /** Position `i` starts a word: it holds a non-whitespace character and is
      either the first position or follows a whitespace character. */
  predicate IsWordStart(s: string, i: nat) {
    i < |s| && !IsSpace(s[i]) && (i == 0 || IsSpace(s[i - 1]))
  }

  /** The positions at which the maximal non-whitespace runs of `s` begin;
      there is exactly one per run. */
  function WordStarts(s: string): set<nat> {
    set i: nat | i < |s| && IsWordStart(s, i)
  }

  function Shift(a: set<nat>, k: nat): set<nat> {
    set i | i in a :: i + k
  }

  lemma {:induction false} ShiftCard(a: set<nat>, k: nat)
    ensures |Shift(a, k)| == |a|
    decreases |a|
  {
    if a != {} {
      var x :| x in a;
      ShiftCard(a - {x}, k);
      forall y | y in Shift(a, k) ensures y in Shift(a - {x}, k) + {x + k} {
        var z :| z in a && y == z + k;
        if z != x { assert z in a - {x}; }
      }
      assert Shift(a, k) == Shift(a - {x}, k) + {x + k};
      assert x + k !in Shift(a - {x}, k);
    }
  }

  /** Word starts of `s` when its first character is whitespace: those of
      the tail, one position further on. */
  lemma LeadingSpaceStarts(s: string)
    requires |s| > 0 && IsSpace(s[0])
    ensures WordStarts(s) == Shift(WordStarts(s[1..]), 1)
  {
    var tail := WordStarts(s[1..]);
    forall i | i in WordStarts(s) ensures i in Shift(tail, 1) {
      assert IsWordStart(s[1..], i - 1);
      assert (i - 1) in tail;
    }
    forall i | i in Shift(tail, 1) ensures i in WordStarts(s) {
      var j :| j in tail && i == j + 1;
      assert IsWordStart(s, i);
    }
  }

  /** Word starts of `s` when it begins with a word of length `n`: position
      0, then those of the rest, `n` positions further on. */
  lemma LeadingWordStarts(s: string, n: nat)
    requires n == RunLength(s) && n > 0
    ensures WordStarts(s) == {0} + Shift(WordStarts(s[n..]), n)
  {
    var rest := WordStarts(s[n..]);
    forall i | i in WordStarts(s) && i != 0 ensures i in Shift(rest, n) {
      assert i > n;
      assert IsWordStart(s[n..], i - n);
      assert (i - n) in rest;
    }
    forall i | i in Shift(rest, n) ensures i in WordStarts(s) {
      var j :| j in rest && i == j + n;
      assert j > 0;
      assert IsWordStart(s, i);
    }
    assert 0 in WordStarts(s);
  }

  /** `len(s.split())` is the number of maximal non-whitespace runs. */
  lemma {:induction false} WordCountIsWordStarts(s: string)
    ensures |Split(s)| == |WordStarts(s)|
    decreases |s|
  {
    if |s| == 0 {
      assert WordStarts(s) == {};
    } else if IsSpace(s[0]) {
      WordCountIsWordStarts(s[1..]);
      LeadingSpaceStarts(s);
      ShiftCard(WordStarts(s[1..]), 1);
    } else {
      var n := RunLength(s);
      WordCountIsWordStarts(s[n..]);
      LeadingWordStarts(s, n);
      ShiftCard(WordStarts(s[n..]), n);
      assert 0 !in Shift(WordStarts(s[n..]), n);
    }
  }

  /** A string has no words exactly when it is empty or all whitespace. */
  lemma {:induction false} NoWordsIffAllSpace(s: string)
    ensures |Split(s)| == 0 <==> AllSpace(s)
    decreases |s|
  {
    if |s| > 0 {
      NoWordsIffAllSpace(s[1..]);
      if IsSpace(s[0]) {
        assert AllSpace(s) <==> AllSpace(s[1..]) by {
          if AllSpace(s[1..]) {
            forall i | 0 <= i < |s| ensures IsSpace(s[i]) {
              if i > 0 { assert s[i] == s[1..][i - 1]; }
            }
          }
        }
      } else {
        assert !AllSpace(s);
      }
    }
  }

  /** Words are separated by at least one whitespace character, so a
      string of length L holds at most (L + 1) / 2 words. */
  lemma {:induction false} WordsAreSeparated(s: string)
    ensures 2 * |Split(s)| <= |s| + 1
    decreases |s|
  {
    if |s| > 0 {
      if IsSpace(s[0]) {
        WordsAreSeparated(s[1..]);
      } else {
        var n := RunLength(s);
        var rest := s[n..];
        if |rest| > 0 {
          assert IsSpace(rest[0]);
          assert Split(rest) == Split(rest[1..]);
          WordsAreSeparated(rest[1..]);
        }
      }
    }
  }

  /** The characters of `s` that are not whitespace, in order. */
  function RemoveSpace(s: string): (r: string)
    ensures |r| <= |s|
    ensures NoSpace(r)
  {
    if |s| == 0 then []
    else if IsSpace(s[0]) then RemoveSpace(s[1..])
    else [s[0]] + RemoveSpace(s[1..])
  }

  function Concat(ws: seq<string>): string {
    if |ws| == 0 then [] else ws[0] + Concat(ws[1..])
  }

  lemma {:induction false} RemoveSpaceAppend(a: string, b: string)
    ensures RemoveSpace(a + b) == RemoveSpace(a) + RemoveSpace(b)
    decreases |a|
  {
    if |a| > 0 {
      assert (a + b)[1..] == a[1..] + b;
      RemoveSpaceAppend(a[1..], b);
    } else {
      assert a + b == b;
    }
  }

  lemma {:induction false} RemoveSpaceOfWord(w: string)
    requires NoSpace(w)
    ensures RemoveSpace(w) == w
    decreases |w|
  {
    if |w| > 0 {
      RemoveSpaceOfWord(w[1..]);
      assert w == [w[0]] + w[1..];
    }
  }

  /** `''.join(s.split())` is `s` with every whitespace character removed:
      splitting loses the whitespace and nothing else, and keeps the order. */
  lemma {:induction false} SplitKeepsText(s: string)
    ensures Concat(Split(s)) == RemoveSpace(s)
    decreases |s|
  {
    if |s| > 0 && !IsSpace(s[0]) {
      var n := RunLength(s);
      SplitKeepsText(s[n..]);
      var ws := [s[..n]] + Split(s[n..]);
      assert ws[0] == s[..n] && ws[1..] == Split(s[n..]);
      assert s == s[..n] + s[n..];
      RemoveSpaceAppend(s[..n], s[n..]);
      RemoveSpaceOfWord(s[..n]);
    } else if |s| > 0 {
      SplitKeepsText(s[1..]);
    }
  }

  /** `' '.join(ws)`. */
  function JoinWords(ws: seq<string>): string {
    if |ws| == 0 then []
    else if |ws| == 1 then ws[0]
    else ws[0] + " " + JoinWords(ws[1..])
  }

  lemma {:induction false} RunLengthOfWord(w: string, rest: string)
    requires NoSpace(w)
    requires rest == [] || IsSpace(rest[0])
    ensures RunLength(w + rest) == |w|
    decreases |w|
  {
    if |w| > 0 {
      assert (w + rest)[1..] == w[1..] + rest;
      RunLengthOfWord(w[1..], rest);
    } else {
      assert w + rest == rest;
    }
  }

  /** Splitting a word followed by nothing or by whitespace yields that
      word first. */
  lemma SplitAfterWord(w: string, rest: string)
    requires IsWord(w)
    requires rest == [] || IsSpace(rest[0])
    ensures Split(w + rest) == [w] + Split(rest)
  {
    RunLengthOfWord(w, rest);
    var s := w + rest;
    assert s[..|w|] == w && s[|w|..] == rest;
  }

  /** `str.split()` undoes `' '.join` on a list of words: the words are
      recovered exactly. */
  lemma {:induction false} SplitJoinWords(ws: seq<string>)
    requires forall k :: 0 <= k < |ws| ==> IsWord(ws[k])
    ensures Split(JoinWords(ws)) == ws
    decreases |ws|
  {
    if |ws| == 1 {
      SplitAfterWord(ws[0], []);
      assert ws[0] + [] == ws[0];
    } else if |ws| > 1 {
      var rest := JoinWords(ws[1..]);
      SplitJoinWords(ws[1..]);
      var tail := " " + rest;
      assert ws[0] + " " + rest == ws[0] + tail;
      SplitAfterWord(ws[0], tail);
      assert tail[1..] == rest;
      assert ws == [ws[0]] + ws[1..];
    }
  }

  // ---------------------------------------------------------------------
  // str.strip()
  // ---------------------------------------------------------------------

  /** `s.lstrip()`: the suffix left after dropping leading whitespace. */
  function LStrip(s: string): (r: string)
    ensures |r| <= |s| && r == s[|s| - |r|..]
    ensures AllSpace(s[..|s| - |r|])
    ensures |r| > 0 ==> !IsSpace(r[0])
    decreases |s|
  {
    if |s| > 0 && IsSpace(s[0]) then LStrip(s[1..]) else s
  }

  /** `s.rstrip()`: the prefix left after dropping trailing whitespace. */
  function RStrip(s: string): (r: string)
    ensures |r| <= |s| && r == s[..|r|]
    ensures AllSpace(s[|r|..])
    ensures |r| > 0 ==> !IsSpace(r[|r| - 1])
    decreases |s|
  {
    if |s| > 0 && IsSpace(s[|s| - 1]) then RStrip(s[..|s| - 1]) else s
  }

  /** `s.strip()`: no whitespace at either end, and empty exactly when `s`
      is all whitespace. */
  function Strip(s: string): (r: string)
    ensures |r| <= |s|
    ensures |r| == 0 <==> AllSpace(s)
    ensures NoOuterSpace(r)
  {
    LStrip(RStrip(s))
  }

  /** `r` sits at position `i` of `s` with only whitespace around it. */
  predicate StrippedAt(s: string, r: string, i: nat) {
    i + |r| <= |s| && s[i..i + |r|] == r && AllSpace(s[..i]) && AllSpace(s[i + |r|..])
  }

  /** `s.strip()` is an infix of `s` with only whitespace before and after
      it: stripping removes whitespace at the ends and nothing else. */
  lemma StripIsInfix(s: string)
    ensures exists i :: StrippedAt(s, Strip(s), i)
  {
    var right := RStrip(s);
    var r := LStrip(right);
    assert r == Strip(s);
    var i := |right| - |r|;
    assert right == s[..|right|] && AllSpace(s[|right|..]);
    assert r == right[i..] && AllSpace(right[..i]);
    assert i + |r| == |right|;
    assert s[..i] == right[..i];
    assert s[i..i + |r|] == r;
    assert s[i + |r|..] == s[|right|..];
    assert StrippedAt(s, r, i);
  }

  lemma {:induction false} SplitAfterSpace(a: string, b: string)
    requires AllSpace(a)
    ensures Split(a + b) == Split(b)
    decreases |a|
  {
    if |a| > 0 {
      assert (a + b)[1..] == a[1..] + b;
      SplitAfterSpace(a[1..], b);
    } else {
      assert a + b == b;
    }
  }

  lemma {:induction false} SplitBeforeSpace(b: string, c: string)
    requires AllSpace(c)
    ensures Split(b + c) == Split(b)
    decreases |b|
  {
    if |b| == 0 {
      assert b + c == c;
      NoWordsIffAllSpace(c);
    } else if IsSpace(b[0]) {
      assert (b + c)[1..] == b[1..] + c;
      SplitBeforeSpace(b[1..], c);
    } else {
      var n := RunLength(b);
      var rest := b[n..];
      RunLengthOfWord(b[..n], rest + c);
      assert b + c == b[..n] + (rest + c);
      assert (b + c)[..n] == b[..n] && (b + c)[n..] == rest + c;
      SplitBeforeSpace(rest, c);
    }
  }

  lemma SplitIgnoresTrailingSpace(s: string)
    ensures Split(RStrip(s)) == Split(s)
  {
    var right := RStrip(s);
    var tail := s[|right|..];
    assert s == right + tail;
    SplitBeforeSpace(right, tail);
  }

  lemma SplitIgnoresLeadingSpace(s: string)
    ensures Split(LStrip(s)) == Split(s)
  {
    var left := LStrip(s);
    var head := s[..|s| - |left|];
    assert s == head + left;
    SplitAfterSpace(head, left);
  }

  /** `s.split()` ignores leading and trailing whitespace: it gives the same
      words as `s.strip().split()`. */
  lemma SplitIgnoresOuterSpace(s: string)
    ensures Split(Strip(s)) == Split(s)
  {
    SplitIgnoresTrailingSpace(s);
    SplitIgnoresLeadingSpace(RStrip(s));
  }
}
