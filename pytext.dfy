/**
 * The Python `str` operations the pipeline relies on, over `string`
 * (a sequence of Unicode scalar values, as a Python 3 `str` is).
 */
module PyText {

  /** `c.isspace()`: the characters that `strip()` and `split()` treat as whitespace. */
  predicate IsSpace(c: char) {
    c == ' ' || ('\t' <= c <= '\r') || ('\U{1C}' <= c <= '\U{1F}')
    || c == '\U{85}' || c == '\U{A0}' || c == '\U{1680}' || ('\U{2000}' <= c <= '\U{200A}')
    || c == '\U{2028}' || c == '\U{2029}' || c == '\U{202F}' || c == '\U{205F}' || c == '\U{3000}'
  }

  /** The characters at which `str.splitlines()` ends a line (`\r\n` is one terminator). */
  predicate IsLineBreak(c: char) {
    ('\n' <= c <= '\r') || ('\U{1C}' <= c <= '\U{1E}')
    || c == '\U{85}' || c == '\U{2028}' || c == '\U{2029}'
  }

  predicate NoLineBreak(s: string) {
    forall i :: 0 <= i < |s| ==> !IsLineBreak(s[i])
  }

  predicate NoSpace(s: string) {
    forall i :: 0 <= i < |s| ==> !IsSpace(s[i])
  }

  // ---------------------------------------------------------------------------
  // Prefixes and substrings
  // ---------------------------------------------------------------------------

  /** `s.startswith(p)` */
  predicate StartsWith(s: string, p: string) {
    |p| <= |s| && s[..|p|] == p
  }

  /** `s.endswith(p)` */
  predicate EndsWith(s: string, p: string) {
    |p| <= |s| && s[|s| - |p|..] == p
  }

  /** `p` occurs in `s` starting at index `i`. */
  predicate MatchAt(s: string, p: string, i: int) {
    0 <= i <= |s| - |p| && s[i..i + |p|] == p
  }

  /** `p in s` */
  predicate Contains(s: string, p: string) {
    exists i | 0 <= i <= |s| - |p| :: MatchAt(s, p, i)
  }

  lemma ContainsAt(s: string, p: string, i: int)
    requires MatchAt(s, p, i)
    ensures Contains(s, p)
  {
  }

  /** A string contains whatever occurs in a string it contains. */
  lemma ContainsTransitive(s: string, r: string, p: string)
    requires Contains(s, r) && Contains(r, p)
    ensures Contains(s, p)
  {
    var i :| 0 <= i <= |s| - |r| && MatchAt(s, r, i);
    var j :| 0 <= j <= |r| - |p| && MatchAt(r, p, j);
    forall k | 0 <= k < |p| ensures s[i + j..i + j + |p|][k] == p[k] {
      assert r[j + k] == s[i + j + k];
    }
    assert s[i + j..i + j + |p|] == p;
    assert MatchAt(s, p, i + j);
  }

  /** A string that occurs in `s` cannot contain what `s` does not contain. */
  lemma NoneInFactor(s: string, r: string, p: string)
    requires Contains(s, r) && !Contains(s, p)
    ensures !Contains(r, p)
  {
    var i :| 0 <= i <= |s| - |r| && MatchAt(s, r, i);
    forall j | 0 <= j <= |r| - |p| ensures !MatchAt(r, p, j) {
      var w1, w2 := r[j..j + |p|], s[i + j..i + j + |p|];
      forall k | 0 <= k < |p| ensures w1[k] == w2[k] {
        assert r[j + k] == s[i..i + |r|][j + k];
      }
      assert w1 == w2;
      assert !MatchAt(s, p, i + j);
    }
  }

  /** A string that lacks the first character of `p` does not contain `p`. */
  lemma NoFirstCharNoMatch(s: string, p: string)
    requires p != [] && p[0] !in s
    ensures !Contains(s, p)
  {
    forall i | 0 <= i <= |s| - |p| ensures !MatchAt(s, p, i) {
      assert s[i..i + |p|][0] == s[i];
    }
  }

  /** What a string contains, any extension of it contains. */
  lemma ContainsExtended(s: string, p: string, t: string)
    requires Contains(s, p)
    ensures Contains(s + t, p)
  {
    var i :| 0 <= i <= |s| - |p| && MatchAt(s, p, i);
    assert (s + t)[i..i + |p|] == s[i..i + |p|];
    assert MatchAt(s + t, p, i);
  }

  /** A prefix of a string is a prefix of any extension of it. */
  lemma StartsWithExtended(s: string, p: string, t: string)
    requires StartsWith(s, p)
    ensures StartsWith(s + t, p)
  {
    assert (s + t)[..|p|] == s[..|p|];
  }

  /** The middle part of a concatenation occurs in it. */
  lemma ContainsMiddle(a: string, b: string, c: string)
    ensures Contains(a + b + c, b)
  {
    assert (a + b + c)[|a|..|a| + |b|] == b;
    assert MatchAt(a + b + c, b, |a|);
  }

  /**
   * A pattern that occurs neither in `a` nor in `b` does not occur in `a + [c] + b`
   * when the character `c` is not part of the pattern.
   */
  lemma NoMatchAcrossSeparator(a: string, c: char, b: string, p: string)
    requires !Contains(a, p) && !Contains(b, p) && c !in p
    ensures !Contains(a + [c] + b, p)
  {
    var s := a + [c] + b;
    forall i | 0 <= i <= |s| - |p| ensures !MatchAt(s, p, i) {
      if i + |p| <= |a| {
        assert s[i..i + |p|] == a[i..i + |p|];
        assert !MatchAt(a, p, i);
      } else if i > |a| {
        assert s[i..i + |p|] == b[i - |a| - 1..i - |a| - 1 + |p|];
        assert !MatchAt(b, p, i - |a| - 1);
      } else {
        assert s[i..i + |p|][|a| - i] == c;
      }
    }
  }

  // ---------------------------------------------------------------------------
  // strip()
  // ---------------------------------------------------------------------------

  /** `s.lstrip()` */
  function LStrip(s: string): (r: string)
    ensures |r| <= |s| && r == s[|s| - |r|..]
    ensures r == [] || !IsSpace(r[0])
    ensures forall i :: 0 <= i < |s| - |r| ==> IsSpace(s[i])
  {
    if s != [] && IsSpace(s[0]) then LStrip(s[1..]) else s
  }

  /** `s.rstrip()` */
  function RStrip(s: string): (r: string)
    ensures |r| <= |s| && r == s[..|r|]
    ensures r == [] || !IsSpace(r[|r| - 1])
    ensures forall i :: |r| <= i < |s| ==> IsSpace(s[i])
  {
    if s != [] && IsSpace(s[|s| - 1]) then RStrip(s[..|s| - 1]) else s
  }

  /** `s.strip()`: `s` without its leading and trailing whitespace. */
  function Strip(s: string): (r: string)
    ensures r == [] || (!IsSpace(r[0]) && !IsSpace(r[|r| - 1]))
  {
    RStrip(LStrip(s))
  }

  /** What `strip` leaves is a piece of its input. */
  lemma StripIsPiece(s: string)
    ensures Contains(s, Strip(s))
  {
    var l := LStrip(s);
    var r := RStrip(l);
    assert s[|s| - |l|..|s| - |l| + |r|] == r;
    ContainsAt(s, r, |s| - |l|);
  }

  /** Text with no whitespace at either end is its own strip. */
  lemma StripOfTrimmed(s: string)
    requires s == [] || (!IsSpace(s[0]) && !IsSpace(s[|s| - 1]))
    ensures Strip(s) == s
  {
    assert LStrip(s) == s;
    assert RStrip(s) == s;
  }

  /** Stripping twice strips nothing more. */
  lemma StripIdempotent(s: string)
    ensures Strip(Strip(s)) == Strip(s)
  {
    var t := Strip(s);
    assert LStrip(t) == t;
    assert RStrip(t) == t;
  }

  // ---------------------------------------------------------------------------
  // lower(), count(), replace()
  // ---------------------------------------------------------------------------

  function LowerChar(c: char): char {
    if 'A' <= c <= 'Z' then (c as int + 32) as char else c
  }

  /** `s.lower()` on the ASCII letters. */
  function Lower(s: string): (r: string)
    ensures |r| == |s|
  {
    seq(|s|, i requires 0 <= i < |s| => LowerChar(s[i]))
  }

  /** `s.count(c)` for a one-character pattern. */
  function CountChar(s: string, c: char): nat {
    if s == [] then 0 else (if s[0] == c then 1 else 0) + CountChar(s[1..], c)
  }

  /** `s.replace(pat, rep)`: left-most, non-overlapping occurrences, scanning left to right. */
  function Replace(s: string, pat: string, rep: string): string
    requires pat != []
    decreases |s|
  {
    if |s| < |pat| then s
    else if s[..|pat|] == pat then rep + Replace(s[|pat|..], pat, rep)
    else [s[0]] + Replace(s[1..], pat, rep)
  }

  // ---------------------------------------------------------------------------
  // splitlines() and join()
  // ---------------------------------------------------------------------------

  /** Index of the first line boundary of `s`, or `|s|` when there is none. */
  function LineEnd(s: string): (k: nat)
    ensures k <= |s|
    ensures NoLineBreak(s[..k])
    ensures k < |s| ==> IsLineBreak(s[k])
  {
    if s == [] || IsLineBreak(s[0]) then 0
    else
      var k := 1 + LineEnd(s[1..]);
      assert s[..k] == [s[0]] + s[1..][..k - 1];
      k
  }

  /** What follows the first line of a non-empty `s` and its terminator. */
  function AfterLine(s: string): (rest: string)
    requires s != []
    ensures |rest| < |s| && rest == s[|s| - |rest|..]
  {
    var k := LineEnd(s);
    if k == |s| then []
    else if s[k] == '\r' && k + 1 < |s| && s[k + 1] == '\n' then s[k + 2..]
    else s[k + 1..]
  }

  /** `s.splitlines()`: no trailing empty line, `"".splitlines() == []`. */
  function SplitLines(s: string): seq<string>
    decreases |s|
  {
    if s == [] then [] else [s[..LineEnd(s)]] + SplitLines(AfterLine(s))
  }

  /** Every line that `splitlines` returns is a line-break-free piece of its input. */
  lemma {:induction false} SplitLinesPieces(s: string)
    ensures forall l :: l in SplitLines(s) ==> NoLineBreak(l) && Contains(s, l)
    decreases |s|
  {
    if s != [] {
      var rest := AfterLine(s);
      SplitLinesPieces(rest);
      ContainsAt(s, s[..LineEnd(s)], 0);
      ContainsAt(s, rest, |s| - |rest|);
      forall l | l in SplitLines(rest) ensures Contains(s, l) {
        ContainsTransitive(s, rest, l);
      }
    }
  }

  /** `sep.join(items)` */
  function Join(items: seq<string>, sep: string): string {
    if items == [] then []
    else if |items| == 1 then items[0]
    else items[0] + sep + Join(items[1..], sep)
  }

  /** The first line of joined break-free lines is the first of them (when it is not the empty last line). */
  lemma FirstLineOfJoin(items: seq<string>)
    requires items != [] && NoLineBreak(items[0])
    requires |items| == 1 ==> items[0] != []
    ensures SplitLines(Join(items, "\n")) != []
    ensures SplitLines(Join(items, "\n"))[0] == items[0]
  {
    var s := Join(items, "\n");
    if |items| == 1 {
      LineEndOfBreakFree(items[0], []);
      assert items[0] + [] == items[0];
    } else {
      var rest := "\n" + Join(items[1..], "\n");
      assert s == items[0] + rest;
      LineEndOfBreakFree(items[0], rest);
      assert s[..|items[0]|] == items[0];
    }
  }

  /** Every item occurs in the joined string. */
  lemma {:induction false} JoinContainsItem(items: seq<string>, sep: string, k: nat)
    requires k < |items|
    ensures Contains(Join(items, sep), items[k])
  {
    if |items| == 1 {
      ContainsMiddle([], items[0], []);
      assert [] + items[0] + [] == items[0];
    } else if k == 0 {
      ContainsMiddle([], items[0], sep + Join(items[1..], sep));
      assert [] + items[0] + (sep + Join(items[1..], sep)) == Join(items, sep);
    } else {
      var rest := Join(items[1..], sep);
      JoinContainsItem(items[1..], sep, k - 1);
      ContainsMiddle(items[0] + sep, rest, []);
      assert items[0] + sep + rest + [] == Join(items, sep);
      ContainsTransitive(Join(items, sep), rest, items[k]);
    }
  }

  /** Joining with a one-character separator that is not part of `p` creates no occurrence of `p`. */
  lemma {:induction false} JoinAvoids(items: seq<string>, c: char, p: string)
    requires forall l :: l in items ==> !Contains(l, p)
    requires c !in p && p != []
    ensures !Contains(Join(items, [c]), p)
  {
    if items == [] {
    } else if |items| == 1 {
    } else {
      JoinAvoids(items[1..], c, p);
      NoMatchAcrossSeparator(items[0], c, Join(items[1..], [c]), p);
    }
  }

  /**
   * `splitlines` undoes `"\n".join` on break-free lines whose last line is not
   * empty (a trailing empty line has no text to split off).
   */
  lemma {:induction false} SplitLinesJoin(lines: seq<string>)
    requires forall l :: l in lines ==> NoLineBreak(l)
    requires lines != [] ==> lines[|lines| - 1] != []
    ensures SplitLines(Join(lines, "\n")) == lines
  {
    if lines == [] {
    } else if |lines| == 1 {
      var l := lines[0];
      LineEndOfBreakFree(l, []);
      assert l[..LineEnd(l)] == l;
    } else {
      var l := lines[0];
      var tail := Join(lines[1..], "\n");
      var s := l + "\n" + tail;
      assert s == l + (['\n'] + tail);
      LineEndOfBreakFree(l, ['\n'] + tail);
      assert LineEnd(s) == |l|;
      assert s[..|l|] == l;
      assert AfterLine(s) == tail;
      SplitLinesJoin(lines[1..]);
    }
  }

  /**
   * Without the last-line condition, `splitlines` gives back the joined lines
   * except a trailing empty one, so never more lines than were joined.
   */
  lemma {:induction false} SplitLinesJoinLength(lines: seq<string>)
    requires forall l :: l in lines ==> NoLineBreak(l)
    ensures SplitLines(Join(lines, "\n")) == DropEmptyLast(lines)
    ensures |SplitLines(Join(lines, "\n"))| <= |lines|
  {
    if lines == [] {
    } else if |lines| == 1 {
      if lines[0] != [] {
        SplitLinesJoin(lines);
      }
    } else {
      var l := lines[0];
      var rest := lines[1..];
      assert NoLineBreak(l) by { assert l in lines; }
      forall m | m in rest ensures NoLineBreak(m) { assert m in lines; }
      SplitLinesJoinLength(rest);
      SplitLinesCons(l, Join(rest, "\n"));
      assert Join(lines, "\n") == l + "\n" + Join(rest, "\n");
      DropEmptyLastCons(l, rest);
    }
  }

  /** The lines without a trailing empty one. */
  function DropEmptyLast(lines: seq<string>): (r: seq<string>)
    ensures |r| <= |lines|
  {
    if lines != [] && lines[|lines| - 1] == [] then lines[..|lines| - 1] else lines
  }

  lemma DropEmptyLastCons(l: string, rest: seq<string>)
    requires rest != []
    ensures DropEmptyLast([l] + rest) == [l] + DropEmptyLast(rest)
  {
    var lines := [l] + rest;
    if rest[|rest| - 1] == [] {
      assert lines[..|lines| - 1] == [l] + rest[..|rest| - 1];
    }
  }

  /** A break-free line followed by a newline splits off as the first line. */
  lemma SplitLinesCons(l: string, tail: string)
    requires NoLineBreak(l)
    ensures SplitLines(l + "\n" + tail) == [l] + SplitLines(tail)
  {
    var s := l + "\n" + tail;
    assert s == l + (['\n'] + tail);
    LineEndOfBreakFree(l, ['\n'] + tail);
    assert s[..|l|] == l;
    assert AfterLine(s) == tail;
  }

  /** The first line of `l + rest` ends exactly where a break-free `l` ends. */
  lemma {:induction false} LineEndOfBreakFree(l: string, rest: string)
    requires NoLineBreak(l)
    requires rest != [] ==> IsLineBreak(rest[0])
    ensures LineEnd(l + rest) == |l|
  {
    if l != [] {
      assert (l + rest)[1..] == l[1..] + rest;
      LineEndOfBreakFree(l[1..], rest);
    }
  }

  // ---------------------------------------------------------------------------
  // split()
  // ---------------------------------------------------------------------------

  /** Length of the leading run of non-whitespace characters. */
  function WordLen(s: string): (n: nat)
    ensures n <= |s| && NoSpace(s[..n])
    ensures n < |s| ==> IsSpace(s[n])
  {
    if s == [] || IsSpace(s[0]) then 0
    else
      var n := 1 + WordLen(s[1..]);
      assert s[..n] == [s[0]] + s[1..][..n - 1];
      n
  }

  /** `s.split()`: the maximal runs of non-whitespace characters, in order. */
  function Words(s: string): seq<string>
    decreases |s|
  {
    if s == [] then []
    else if IsSpace(s[0]) then Words(s[1..])
    else var n := WordLen(s); [s[..n]] + Words(s[n..])
  }

  predicate AllSpace(s: string) {
    forall i :: 0 <= i < |s| ==> IsSpace(s[i])
  }

  /** `s.split()` is empty exactly when `s` is all whitespace; otherwise each word is a non-empty, space-free run. */
  lemma {:induction false} WordsShape(s: string)
    ensures Words(s) == [] <==> AllSpace(s)
    ensures forall w :: w in Words(s) ==> w != [] && NoSpace(w)
    decreases |s|
  {
    if s == [] {
    } else if IsSpace(s[0]) {
      WordsShape(s[1..]);
      if AllSpace(s[1..]) {
        forall i | 0 <= i < |s| ensures IsSpace(s[i]) {
          if i > 0 { assert s[i] == s[1..][i - 1]; }
        }
      }
    } else {
      WordsShape(s[WordLen(s)..]);
    }
  }

  /** `" ".join(words).split() == words` for non-empty, space-free words. */
  lemma {:induction false} WordsJoin(words: seq<string>)
    requires forall w :: w in words ==> w != [] && NoSpace(w)
    ensures Words(Join(words, " ")) == words
  {
    if words == [] {
    } else {
      var w := words[0];
      var rest := if |words| == 1 then [] else " " + Join(words[1..], " ");
      assert Join(words, " ") == w + rest;
      WordLenOfSpaceFree(w, rest);
      assert (w + rest)[..|w|] == w;
      assert (w + rest)[|w|..] == rest;
      if |words| > 1 {
        forall w | w in words[1..] ensures w != [] && NoSpace(w) { assert w in words; }
        WordsJoin(words[1..]);
        assert rest[1..] == Join(words[1..], " ");
      }
    }
  }

  lemma {:induction false} WordLenOfSpaceFree(w: string, rest: string)
    requires NoSpace(w)
    requires rest != [] ==> IsSpace(rest[0])
    ensures WordLen(w + rest) == |w|
  {
    if w != [] {
      assert (w + rest)[1..] == w[1..] + rest;
      WordLenOfSpaceFree(w[1..], rest);
    }
  }

  /** The concatenation of a sequence of strings. */
  function Concat(parts: seq<string>): string {
    if parts == [] then [] else parts[0] + Concat(parts[1..])
  }

  // ---------------------------------------------------------------------------
  // str(n) for a non-negative integer
  // ---------------------------------------------------------------------------

  function Digit(d: nat): char
    requires d < 10
  {
    "0123456789"[d]
  }

  /** `str(n)`: decimal digits, most significant first, no leading zeros. */
  function Decimal(n: nat): (r: string)
    ensures r != []
    ensures forall i :: 0 <= i < |r| ==> '0' <= r[i] <= '9'
  {
    if n < 10 then [Digit(n)] else Decimal(n / 10) + [Digit(n % 10)]
  }

  /** `int(s)` for a string of decimal digits. */
  function ParseDecimal(s: string): nat
    requires forall i :: 0 <= i < |s| ==> '0' <= s[i] <= '9'
  {
    if s == [] then 0
    else ParseDecimal(s[..|s| - 1]) * 10 + ((s[|s| - 1] as int) - ('0' as int))
  }

  /** `int(str(n)) == n`, so `str` is injective on non-negative integers. */
  lemma {:induction false} DecimalRoundTrip(n: nat)
    ensures ParseDecimal(Decimal(n)) == n
  {
    var r := Decimal(n);
    if n < 10 {
      assert r[..|r| - 1] == [];
    } else {
      DecimalRoundTrip(n / 10);
      assert r[..|r| - 1] == Decimal(n / 10);
    }
  }
}
