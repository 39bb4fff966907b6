/** String operations of the two runtimes the system runs on: Python's
    `str.strip`, `str.replace`, `str.lower` and `str(int)`, and JavaScript's
    `String.prototype.trim`, `toLowerCase` and `includes`. Strings are
    sequences of Unicode scalar values. */
module Text {

  /** The characters Python's `str.strip()` removes when it is given no
      argument (those for which `str.isspace()` holds). */
  predicate IsPySpace(c: char) {
    ('\t' <= c <= '\r') || ('\U{1C}' <= c <= ' ') || c == '\U{85}' || c == '\U{A0}'
    || c == '\U{1680}' || ('\U{2000}' <= c <= '\U{200A}') || c == '\U{2028}' || c == '\U{2029}'
    || c == '\U{202F}' || c == '\U{205F}' || c == '\U{3000}'
  }

  /** The characters JavaScript's `trim()` removes: WhiteSpace and LineTerminator. */
  predicate IsJsSpace(c: char) {
    ('\t' <= c <= '\r') || c == ' ' || c == '\U{A0}' || c == '\U{1680}'
    || ('\U{2000}' <= c <= '\U{200A}') || c == '\U{2028}' || c == '\U{2029}'
    || c == '\U{202F}' || c == '\U{205F}' || c == '\U{3000}' || c == '\U{FEFF}'
  }

  /** `s` without the `ws` characters at either end. */
  function Trim(s: string, ws: char -> bool): string
    decreases |s|
  {
    if s == [] then s
    else if ws(s[0]) then Trim(s[1..], ws)
    else if ws(s[|s| - 1]) then Trim(s[..|s| - 1], ws)
    else s
  }

  /** Trimming never lengthens `s`, and what it keeps neither starts nor ends
      with a `ws` character. */
  lemma {:induction false} TrimPiece(s: string, ws: char -> bool)
    ensures |Trim(s, ws)| <= |s|
    ensures Trim(s, ws) != [] ==> !ws(Trim(s, ws)[0]) && !ws(Trim(s, ws)[|Trim(s, ws)| - 1])
    decreases |s|
  {
    if s != [] {
      if ws(s[0]) {
        TrimPiece(s[1..], ws);
      } else if ws(s[|s| - 1]) {
        TrimPiece(s[..|s| - 1], ws);
      }
    }
  }

  /** Trimming leaves nothing exactly when `s` holds only `ws` characters. */
  lemma {:induction false} TrimEmpty(s: string, ws: char -> bool)
    ensures Trim(s, ws) == [] <==> forall k :: 0 <= k < |s| ==> ws(s[k])
    decreases |s|
  {
    if s != [] {
      if ws(s[0]) {
        var t := s[1..];
        TrimEmpty(t, ws);
        assert (forall k :: 0 <= k < |s| ==> ws(s[k])) <==> (forall k :: 0 <= k < |t| ==> ws(t[k]));
      } else if ws(s[|s| - 1]) {
        TrimEmpty(s[..|s| - 1], ws);
      }
    }
  }

  /** Every character of `s` is a `ws` character. */
  predicate AllWs(s: string, ws: char -> bool) {
    forall k :: 0 <= k < |s| ==> ws(s[k])
  }

  lemma AllWsConcat(a: string, b: string, ws: char -> bool)
    requires AllWs(a, ws) && AllWs(b, ws)
    ensures AllWs(a + b, ws)
  {
    assert forall k :: 0 <= k < |a + b| ==> (a + b)[k] == if k < |a| then a[k] else b[k - |a|];
  }

  /** Trimming removes `ws` characters only: what it drops from each end is
      made of them, and what it keeps is the piece `s[i..j]` between the two. */
  lemma {:induction false} TrimBounds(s: string, ws: char -> bool) returns (i: nat, j: nat)
    ensures i <= j <= |s| && Trim(s, ws) == s[i..j]
    ensures AllWs(s[..i], ws) && AllWs(s[j..], ws)
    decreases |s|
  {
    if s == [] {
      i, j := 0, 0;
    } else if ws(s[0]) {
      var t := s[1..];
      var i', j' := TrimBounds(t, ws);
      i, j := i' + 1, j' + 1;
      assert t[i'..j'] == s[i..j];
      assert s[..i] == [s[0]] + t[..i'];
      AllWsConcat([s[0]], t[..i'], ws);
      assert s[j..] == t[j'..];
    } else if ws(s[|s| - 1]) {
      var t := s[..|s| - 1];
      i, j := TrimBounds(t, ws);
      assert t[i..j] == s[i..j];
      assert s[..i] == t[..i];
      assert s[j..] == t[j..] + [s[|s| - 1]];
      AllWsConcat(t[j..], [s[|s| - 1]], ws);
    } else {
      i, j := 0, |s|;
    }
  }

  /** All of the above: trimming keeps the piece of `s` between its leading
      and its trailing `ws` characters, and removes nothing else. */
  lemma TrimMeaning(s: string, ws: char -> bool)
    ensures var r := Trim(s, ws);
      |r| <= |s|
      && (r != [] ==> !ws(r[0]) && !ws(r[|r| - 1]))
      && (r == [] <==> forall k :: 0 <= k < |s| ==> ws(s[k]))
      && exists i :: 0 <= i <= |s| && r <= s[i..]
    ensures exists i, j :: (0 <= i <= j <= |s| && Trim(s, ws) == s[i..j] && AllWs(s[..i], ws) && AllWs(s[j..], ws))
  {
    TrimPiece(s, ws);
    TrimEmpty(s, ws);
    var i, j := TrimBounds(s, ws);
    assert Trim(s, ws) <= s[i..];
  }

  function Min(a: int, b: int): int {
    if a <= b then a else b
  }

  /** Python's slice `s[a:b]` for non-negative bounds: bounds past the end are
      cut back to the end, and an empty or inverted range gives "". */
  function PySlice(s: string, a: nat, b: nat): (r: string)
    ensures |r| <= b - a || (|r| == 0 && b <= a)
    ensures a < b && a < |s| ==> r == s[a..Min(b, |s|)]
    ensures !(a < b && a < |s|) ==> r == []
  {
    if a < b && a < |s| then s[a..Min(b, |s|)] else []
  }

  /** A slice that ends by position `n` reads nothing at or past `n`. */
  lemma PySliceIgnoresTail(s: string, a: nat, b: nat, n: nat)
    requires b <= n
    ensures PySlice(s, a, b) == PySlice(s[..Min(n, |s|)], a, b)
  {
    var t := s[..Min(n, |s|)];
    if a < b && a < |s| {
      assert a < |t| && Min(b, |t|) == Min(b, |s|);
      assert t[a..Min(b, |t|)] == s[a..Min(b, |s|)];
    }
  }

  /** Python's `s.strip()`. */
  function Strip(s: string): string {
    Trim(s, IsPySpace)
  }

  /** Python's `len(s.strip()) == 0`. */
  predicate IsBlank(s: string) {
    Strip(s) == []
  }

  /** JavaScript's `s.trim()`. */
  function JsTrim(s: string): string {
    Trim(s, IsJsSpace)
  }

  /** Lower-casing of one character, on the ASCII letters only. */
  function LowerChar(c: char): char {
    if 'A' <= c <= 'Z' then (c as int + 32) as char else c
  }

  /** `s.toLowerCase()` (JavaScript) and `s.lower()` (Python), on ASCII letters. */
  function Lower(s: string): string {
    seq(|s|, i requires 0 <= i < |s| => LowerChar(s[i]))
  }

  /** JavaScript's `s.includes(t)`: `t` occurs in `s` as a contiguous piece. */
  predicate Contains(s: string, t: string) {
    exists i :: 0 <= i <= |s| && t <= s[i..]
  }

  /** Python's `s.replace(pat, rep)` for a non-empty `pat`: scans left to right
      and replaces every non-overlapping occurrence. */
  function ReplaceAll(s: string, pat: string, rep: string): string
    requires pat != []
    decreases |s|
  {
    if |s| < |pat| then s
    else if pat <= s then rep + ReplaceAll(s[|pat|..], pat, rep)
    else [s[0]] + ReplaceAll(s[1..], pat, rep)
  }

  /** Python's `s.count(pat)` for a non-empty `pat`: the number of
      non-overlapping occurrences found scanning left to right. */
  function CountOccurrences(s: string, pat: string): nat
    requires pat != []
    decreases |s|
  {
    if |s| < |pat| then 0
    else if pat <= s then 1 + CountOccurrences(s[|pat|..], pat)
    else CountOccurrences(s[1..], pat)
  }

  /** A string in which `pat` does not occur comes back from `replace` unchanged. */
  lemma {:induction false} ReplaceAllAbsent(s: string, pat: string, rep: string)
    requires pat != [] && !Contains(s, pat)
    ensures ReplaceAll(s, pat, rep) == s
    decreases |s|
  {
    if |s| >= |pat| {
      assert !(pat <= s[0..]);
      assert !Contains(s[1..], pat) by {
        forall i | 0 <= i <= |s[1..]| ensures !(pat <= s[1..][i..]) {
          assert s[1..][i..] == s[i + 1..];
        }
      }
      ReplaceAllAbsent(s[1..], pat, rep);
    }
  }

  /** Each replaced occurrence changes the length by `|rep| - |pat|`. */
  lemma {:induction false} ReplaceAllLength(s: string, pat: string, rep: string)
    requires pat != []
    ensures |ReplaceAll(s, pat, rep)| == |s| + CountOccurrences(s, pat) * (|rep| - |pat|)
    decreases |s|
  {
    if |s| >= |pat| {
      if pat <= s {
        var rest := s[|pat|..];
        ReplaceAllLength(rest, pat, rep);
        MulSucc(CountOccurrences(rest, pat), |rep| - |pat|);
      } else {
        ReplaceAllLength(s[1..], pat, rep);
      }
    }
  }

  lemma MulSucc(c: int, d: int)
    ensures (1 + c) * d == d + c * d
  {}

  /** Replacing a pattern by itself changes nothing. */
  lemma {:induction false} ReplaceAllSelf(s: string, pat: string)
    requires pat != []
    ensures ReplaceAll(s, pat, pat) == s
    decreases |s|
  {
    if |s| >= |pat| {
      if pat <= s {
        ReplaceAllSelf(s[|pat|..], pat);
        assert s == pat + s[|pat|..];
      } else {
        ReplaceAllSelf(s[1..], pat);
        assert s == [s[0]] + s[1..];
      }
    }
  }

  /** A separator that the pattern does not hold splits the replacement: each
      side is replaced on its own, since no occurrence can straddle it. */
  lemma {:induction false} ReplaceAllSplit(a: string, sep: char, b: string, pat: string, rep: string)
    requires pat != [] && sep !in pat
    ensures ReplaceAll(a + [sep] + b, pat, rep) == ReplaceAll(a, pat, rep) + [sep] + ReplaceAll(b, pat, rep)
    decreases |a|
  {
    var s := a + [sep] + b;
    if |s| < |pat| {
      assert ReplaceAll(a, pat, rep) == a && ReplaceAll(b, pat, rep) == b;
    } else if pat <= s {
      ReplaceAllSplitMatch(a, sep, b, pat, rep);
    } else if a == [] {
      assert s[1..] == b;
      assert ReplaceAll(s, pat, rep) == [sep] + ReplaceAll(s[1..], pat, rep);
    } else {
      ReplaceAllSplit(a[1..], sep, b, pat, rep);
      ReplaceAllSplitSkip(a, sep, b, pat, rep);
    }
  }

  /** The step of ReplaceAllSplit where the pattern starts the joined string: it lies within `a`. */
  lemma {:induction false} ReplaceAllSplitMatch(a: string, sep: char, b: string, pat: string, rep: string)
    requires pat != [] && sep !in pat && pat <= a + [sep] + b
    ensures ReplaceAll(a + [sep] + b, pat, rep) == ReplaceAll(a, pat, rep) + [sep] + ReplaceAll(b, pat, rep)
    decreases |a|, 0
  {
    var s := a + [sep] + b;
    assert |pat| <= |a| by {
      assert forall k :: 0 <= k < |pat| ==> s[k] == pat[k] && pat[k] != sep;
      assert s[|a|] == sep;
    }
    assert pat <= a;
    assert s[|pat|..] == a[|pat|..] + [sep] + b;
    ReplaceAllSplit(a[|pat|..], sep, b, pat, rep);
    assert ReplaceAll(s, pat, rep) == rep + ReplaceAll(s[|pat|..], pat, rep);
    assert ReplaceAll(a, pat, rep) == rep + ReplaceAll(a[|pat|..], pat, rep);
  }

  /** The step of ReplaceAllSplit where a non-empty `a` does not start with the pattern. */
  lemma ReplaceAllSplitSkip(a: string, sep: char, b: string, pat: string, rep: string)
    requires pat != [] && a != [] && !(pat <= a + [sep] + b)
    requires ReplaceAll(a[1..] + [sep] + b, pat, rep) == ReplaceAll(a[1..], pat, rep) + [sep] + ReplaceAll(b, pat, rep)
    ensures ReplaceAll(a + [sep] + b, pat, rep) == ReplaceAll(a, pat, rep) + [sep] + ReplaceAll(b, pat, rep)
  {
    JoinNoMatch(a, sep, b, pat);
    ReplaceAllNoMatchHead(a + [sep] + b, pat, rep);
    ReplaceAllNoMatchHead(a, pat, rep);
    var x, y := ReplaceAll(a[1..], pat, rep), ReplaceAll(b, pat, rep);
    assert [a[0]] + (x + [sep] + y) == ([a[0]] + x) + [sep] + y;
  }

  /** Dropping the first character of `a + [sep] + b` drops it from `a`; a pattern not starting the join does not start `a`. */
  lemma JoinNoMatch(a: string, sep: char, b: string, pat: string)
    requires a != [] && !(pat <= a + [sep] + b)
    ensures (a + [sep] + b)[0] == a[0] && (a + [sep] + b)[1..] == a[1..] + [sep] + b
    ensures !(pat <= a)
  {
    var s := a + [sep] + b;
    assert s[1..] == a[1..] + [sep] + b;
    assert |pat| <= |a| ==> a[..|pat|] == s[..|pat|];
  }


  /** A string that does not start with the pattern keeps its first character. */
  lemma ReplaceAllNoMatchHead(t: string, pat: string, rep: string)
    requires pat != [] && t != [] && !(pat <= t)
    ensures ReplaceAll(t, pat, rep) == [t[0]] + ReplaceAll(t[1..], pat, rep)
  {
    if |t| < |pat| {
      assert ReplaceAll(t[1..], pat, rep) == t[1..];
      assert t == [t[0]] + t[1..];
    }
  }



  /** A string that is exactly the pattern becomes exactly the replacement. */
  lemma ReplaceAllWhole(pat: string, rep: string)
    requires pat != []
    ensures ReplaceAll(pat, pat, rep) == rep
  {
    assert pat[|pat|..] == [];
  }

  /** The line boundaries of Python's `str.splitlines`. */
  predicate IsLineBreak(c: char) {
    c == '\n' || c == '\r' || c == '\U{B}' || c == '\U{C}' || c == '\U{1C}' || c == '\U{1D}'
    || c == '\U{1E}' || c == '\U{85}' || c == '\U{2028}' || c == '\U{2029}'
  }

  /** The position of the first line boundary in `s`, or `|s|` when there is none. */
  function FirstBreak(s: string): (k: nat)
    ensures k <= |s|
    ensures forall j :: 0 <= j < k ==> !IsLineBreak(s[j])
    ensures k < |s| ==> IsLineBreak(s[k])
  {
    if s == [] || IsLineBreak(s[0]) then 0 else 1 + FirstBreak(s[1..])
  }

  /** Python's `s.splitlines()`: the text between line boundaries, where "\r\n"
      is one boundary and a final boundary does not open an empty last line. */
  function SplitLines(s: string): (lines: seq<string>)
    ensures forall k, j :: 0 <= k < |lines| && 0 <= j < |lines[k]| ==> !IsLineBreak(lines[k][j])
    decreases |s|
  {
    if s == [] then []
    else
      var k := FirstBreak(s);
      if k == |s| then [s]
      else
        var next := if s[k] == '\r' && k + 1 < |s| && s[k + 1] == '\n' then k + 2 else k + 1;
        [s[..k]] + SplitLines(s[next..])
  }

  /** A non-empty text with no line boundary is a single line. */
  lemma SplitLinesSingle(s: string)
    requires s != [] && forall j :: 0 <= j < |s| ==> !IsLineBreak(s[j])
    ensures SplitLines(s) == [s]
  {
    assert FirstBreak(s) == |s|;
  }

  /** `s` holds no line boundary. */
  predicate NoBreak(s: string) {
    forall j :: 0 <= j < |s| ==> !IsLineBreak(s[j])
  }

  /** The first boundary of `l + rest` is the one that starts `rest` when `l` has none. */
  lemma {:induction false} FirstBreakAt(l: string, rest: string)
    requires NoBreak(l) && rest != [] && IsLineBreak(rest[0])
    ensures FirstBreak(l + rest) == |l|
    decreases |l|
  {
    if l != [] {
      assert (l + rest)[1..] == l[1..] + rest;
      FirstBreakAt(l[1..], rest);
    }
  }

  /** A break-free line followed by one boundary character (other than the "\r" of a
      "\r\n" pair) is the first line; splitting goes on with the text after it. */
  lemma SplitLinesStep(l: string, c: char, t: string)
    requires NoBreak(l) && IsLineBreak(c) && !(c == '\r' && t != [] && t[0] == '\n')
    ensures SplitLines(l + [c] + t) == [l] + SplitLines(t)
  {
    var s := l + [c] + t;
    assert l + [c] + t == l + ([c] + t);
    FirstBreakAt(l, [c] + t);
    assert s[..|l|] == l && s[|l|] == c && s[|l| + 1..] == t;
  }

  /** "\r\n" after a break-free line is one boundary: it opens no empty line. */
  lemma SplitLinesCrLf(l: string, t: string)
    requires NoBreak(l)
    ensures SplitLines(l + "\r\n" + t) == [l] + SplitLines(t)
  {
    var s := l + "\r\n" + t;
    assert l + "\r\n" + t == l + ("\r\n" + t);
    FirstBreakAt(l, "\r\n" + t);
    assert s[..|l|] == l && s[|l|] == '\r' && s[|l| + 1] == '\n' && s[|l| + 2..] == t;
  }

  /** The decimal digit character for `d`. */
  function DigitChar(d: nat): char
    requires d < 10
  {
    ('0' as int + d) as char
  }

  predicate IsDigit(c: char) {
    '0' <= c <= '9'
  }

  /** The number a non-empty string of decimal digits denotes. */
  function DigitsValue(s: string): nat
    requires forall k :: 0 <= k < |s| ==> IsDigit(s[k])
  {
    if s == [] then 0
    else
      assert IsDigit(s[|s| - 1]);
      DigitsValue(s[..|s| - 1]) * 10 + (s[|s| - 1] as int - '0' as int)
  }

  /** Python's `str(n)` for a natural number `n`. */
  function NatToString(n: nat): (r: string)
    ensures r != [] && forall k :: 0 <= k < |r| ==> IsDigit(r[k])
    ensures DigitsValue(r) == n
    ensures r[0] == '0' <==> n == 0
    ensures |r| == 1 || r[0] != '0'
  {
    if n < 10 then [DigitChar(n)]
    else
      var r := NatToString(n / 10) + [DigitChar(n % 10)];
      assert r[..|r| - 1] == NatToString(n / 10);
      r
  }

  /** Distinct numbers are written differently. */
  lemma NatToStringInjective(a: nat, b: nat)
    requires NatToString(a) == NatToString(b)
    ensures a == b
  {
    assert DigitsValue(NatToString(a)) == a;
  }
}
