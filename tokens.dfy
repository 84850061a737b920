/**
  The string primitives the parsers rely on, with Python's semantics: `str.isspace`,
  `strip()`, `rstrip()`, `split()` (no argument: runs of whitespace separate fields and
  leading or trailing whitespace yields no empty field), `split(" ", 1)` and `int(text)`.
 */
module Tokens {
  import opened Wrappers

  /** Python's `str.isspace` on one character. */
  predicate IsSpace(c: char) {
    || c == ' '
    || ('\t' <= c <= '\r')
    || ('\U{1C}' <= c <= '\U{1F}')
    || c == '\U{85}' || c == '\U{A0}' || c == '\U{1680}'
    || ('\U{2000}' <= c <= '\U{200A}')
    || c == '\U{2028}' || c == '\U{2029}' || c == '\U{202F}' || c == '\U{205F}' || c == '\U{3000}'
  }

  predicate AllSpace(s: string) {
    forall i | 0 <= i < |s| :: IsSpace(s[i])
  }

  predicate NoSpace(s: string) {
    forall i | 0 <= i < |s| :: !IsSpace(s[i])
  }

  /** `s.rstrip()`: the longest prefix of `s` not ending in whitespace. */
  function RStrip(s: string): (r: string)
    ensures |r| <= |s| && r == s[..|r|]
    ensures r == [] || !IsSpace(r[|r| - 1])
    ensures AllSpace(s[|r|..])
  {
    if s != [] && IsSpace(s[|s| - 1]) then
      var n := |s| - 1;
      var r := RStrip(s[..n]);
      assert s[|r|..] == s[..n][|r|..] + [s[n]];
      r
    else s
  }

  /** `s.lstrip()`: the longest suffix of `s` not starting with whitespace. */
  function LStrip(s: string): (r: string)
    ensures |r| <= |s| && r == s[|s| - |r|..]
    ensures r == [] || !IsSpace(r[0])
    ensures AllSpace(s[..|s| - |r|])
  {
    if s != [] && IsSpace(s[0]) then
      var r := LStrip(s[1..]);
      assert s[..|s| - |r|] == [s[0]] + s[1..][..|s| - 1 - |r|];
      r
    else s
  }

  /** `s.strip()`. */
  function Strip(s: string): string {
    LStrip(RStrip(s))
  }

  /** Length of the leading run of non-whitespace characters. */
  function WordLength(s: string): (n: nat)
    ensures n <= |s| && NoSpace(s[..n])
    ensures n < |s| ==> IsSpace(s[n])
    ensures s != [] && !IsSpace(s[0]) ==> n > 0
  {
    if s == [] || IsSpace(s[0]) then 0 else 1 + WordLength(s[1..])
  }

  /** `s.split()`: the maximal runs of non-whitespace characters, left to right. */
  function Split(s: string): (fields: seq<string>)
    ensures forall k | 0 <= k < |fields| :: fields[k] != [] && NoSpace(fields[k])
    decreases |s|
  {
    if s == [] then []
    else if IsSpace(s[0]) then Split(s[1..])
    else
      var n := WordLength(s);
      [s[..n]] + Split(s[n..])
  }

  /** A line made only of whitespace (a blank line) has no fields, and only such a line. */
  lemma {:induction false} SplitEmpty(s: string)
    ensures Split(s) == [] <==> AllSpace(s)
    decreases |s|
  {
    if s != [] && IsSpace(s[0]) {
      SplitEmpty(s[1..]);
      assert AllSpace(s) <==> AllSpace(s[1..]) by {
        if AllSpace(s[1..]) {
          forall i | 0 <= i < |s| ensures IsSpace(s[i]) { if i > 0 { assert s[i] == s[1..][i - 1]; } }
        }
      }
    }
  }

  /** `gaps[0] + fields[0] + gaps[1] + ... + fields[n - 1] + gaps[n]`. */
  function Interleave(gaps: seq<string>, fields: seq<string>): string
    requires |gaps| == |fields| + 1
  {
    if fields == [] then gaps[0] else gaps[0] + fields[0] + Interleave(gaps[1..], fields[1..])
  }

  /** `s` is `fields` with whitespace `gaps` around and between them, non-empty between two fields. */
  predicate Separates(s: string, gaps: seq<string>, fields: seq<string>) {
    && |gaps| == |fields| + 1
    && s == Interleave(gaps, fields)
    && (forall i | 0 <= i < |gaps| :: AllSpace(gaps[i]))
    && (forall i | 0 < i < |fields| :: gaps[i] != [])
  }

  /** A leading whitespace character joins the first gap. */
  lemma SeparatesSpace(c: char, t: string, g: seq<string>, fields: seq<string>)
    requires IsSpace(c) && Separates(t, g, fields)
    ensures Separates([c] + t, [[c] + g[0]] + g[1..], fields)
  {
    var gaps := [[c] + g[0]] + g[1..];
    assert gaps[1..] == g[1..];
    forall i | 0 <= i < |gaps| ensures AllSpace(gaps[i]) {
      if i == 0 {
        forall j | 0 <= j < |gaps[0]| ensures IsSpace(gaps[0][j]) {
          if j > 0 { assert gaps[0][j] == g[0][j - 1]; }
        }
      } else {
        assert gaps[i] == g[i];
      }
    }
    forall i | 0 < i < |fields| ensures gaps[i] != [] { assert gaps[i] == g[i]; }
  }

  /** A leading word followed by whitespace (or nothing) becomes the first field. */
  lemma SeparatesWord(w: string, rest: string, g: seq<string>, more: seq<string>)
    requires w != [] && NoSpace(w) && (rest == [] || IsSpace(rest[0]))
    requires Separates(rest, g, more) && (forall k | 0 <= k < |more| :: more[k] != [] && NoSpace(more[k]))
    ensures Separates(w + rest, [[]] + g, [w] + more)
  {
    var gaps := [[]] + g;
    var fields := [w] + more;
    assert gaps[1..] == g && fields[1..] == more;
    if more != [] {
      var after := more[0] + Interleave(g[1..], more[1..]);
      assert rest == g[0] + after;
      assert after[0] == more[0][0] && !IsSpace(after[0]);
      assert IsSpace(rest[0]);
    }
    forall i | 0 < i < |fields| ensures gaps[i] != [] { assert gaps[i] == g[i - 1]; }
  }

  /**
    The fields of `split()` are exactly the text's runs of non-whitespace, in order: the
    text is the fields with whitespace between them, where the whitespace at either end
    may be empty and the whitespace between two fields is not.
   */
  lemma {:induction false} SplitRuns(s: string)
    ensures exists gaps :: Separates(s, gaps, Split(s))
    decreases |s|
  {
    if s == [] {
      assert Separates(s, [[]], Split(s));
    } else if IsSpace(s[0]) {
      SplitRuns(s[1..]);
      var g :| Separates(s[1..], g, Split(s[1..]));
      SeparatesSpace(s[0], s[1..], g, Split(s[1..]));
      assert s == [s[0]] + s[1..];
      assert Separates(s, [[s[0]] + g[0]] + g[1..], Split(s));
    } else {
      var n := WordLength(s);
      SplitRuns(s[n..]);
      var g :| Separates(s[n..], g, Split(s[n..]));
      SeparatesWord(s[..n], s[n..], g, Split(s[n..]));
      assert s == s[..n] + s[n..];
      assert Separates(s, [[]] + g, Split(s));
    }
  }

  /** The words joined by single spaces: `" ".join(words)`. */
  function JoinSpaced(words: seq<string>): string {
    if words == [] then []
    else if |words| == 1 then words[0]
    else words[0] + " " + JoinSpaced(words[1..])
  }

  lemma {:induction false} WordLengthOfPrefix(w: string, rest: string)
    requires NoSpace(w)
    requires rest == [] || IsSpace(rest[0])
    ensures WordLength(w + rest) == |w|
    decreases |w|
  {
    if w != [] {
      assert (w + rest)[1..] == w[1..] + rest;
      WordLengthOfPrefix(w[1..], rest);
    } else {
      assert w + rest == rest;
    }
  }

  /** A word followed by whitespace, or by nothing, is the first field. */
  lemma SplitWordThen(w: string, rest: string)
    requires w != [] && NoSpace(w)
    requires rest == [] || IsSpace(rest[0])
    ensures Split(w + rest) == [w] + Split(rest)
  {
    WordLengthOfPrefix(w, rest);
    assert (w + rest)[0] == w[0];
    assert (w + rest)[..|w|] == w;
    assert (w + rest)[|w|..] == rest;
  }

  /** `split()` undoes `" ".join(...)` on non-empty, whitespace-free words. */
  lemma {:induction false} SplitJoinSpaced(words: seq<string>)
    requires forall k | 0 <= k < |words| :: words[k] != [] && NoSpace(words[k])
    ensures Split(JoinSpaced(words)) == words
  {
    if words != [] {
      var w := words[0];
      if |words| == 1 {
        SplitWordThen(w, []);
        assert w + [] == w;
      } else {
        var tail := JoinSpaced(words[1..]);
        assert JoinSpaced(words) == w + (" " + tail);
        SplitWordThen(w, " " + tail);
        assert (" " + tail)[1..] == tail;
        SplitJoinSpaced(words[1..]);
        assert words == [w] + words[1..];
      }
    }
  }

  /** `s.split(" ", 1)`: `None` when `s` holds no space, the one-element result. */
  function SplitAtSpace(s: string): (r: Option<(string, string)>)
    ensures r.None? <==> ' ' !in s
    ensures r.Some? ==> s == r.value.0 + " " + r.value.1 && ' ' !in r.value.0
  {
    if s == [] then None
    else if s[0] == ' ' then Some(([], s[1..]))
    else
      match SplitAtSpace(s[1..])
      case None => None
      case Some((before, after)) =>
        assert s == [s[0]] + s[1..];
        Some(([s[0]] + before, after))
  }

  predicate IsDigit(c: char) {
    '0' <= c <= '9'
  }

  /** Python's integer literal body: digits, single underscores only between digits. */
  predicate IsDigitGroup(s: string) {
    && s != [] && IsDigit(s[0]) && IsDigit(s[|s| - 1])
    && (forall i | 0 <= i < |s| :: IsDigit(s[i]) || s[i] == '_')
    && (forall i | 0 <= i < |s| - 1 :: !(s[i] == '_' && s[i + 1] == '_'))
  }

  /** The value of digits (underscores skipped), most significant first. */
  function DigitsValue(s: string): nat {
    if s == [] then 0
    else
      var n := |s| - 1;
      if IsDigit(s[n]) then DigitsValue(s[..n]) * 10 + (s[n] as int - '0' as int)
      else DigitsValue(s[..n])
  }

  /** `int(text)` for decimal text: `None` where Python raises `ValueError`. */
  function ParseInt(text: string): Option<int> {
    var t := Strip(text);
    if t != [] && (t[0] == '-' || t[0] == '+') then
      if IsDigitGroup(t[1..]) then
        var magnitude: int := DigitsValue(t[1..]);
        Some(if t[0] == '-' then -magnitude else magnitude)
      else None
    else if IsDigitGroup(t) then Some(DigitsValue(t))
    else None
  }

  /** `str(n)` for a natural number. */
  function Decimal(n: nat): (s: string)
    ensures s != [] && forall i | 0 <= i < |s| :: IsDigit(s[i])
  {
    var last := [('0' as int + n % 10) as char];
    if n < 10 then last else Decimal(n / 10) + last
  }

  lemma {:induction false} DecimalValue(n: nat)
    ensures DigitsValue(Decimal(n)) == n
  {
    var s := Decimal(n);
    var k := |s| - 1;
    if n >= 10 {
      assert s[..k] == Decimal(n / 10);
      DecimalValue(n / 10);
    }
  }

  /** `int(str(n)) == n`. */
  lemma DecimalRoundTrip(n: nat)
    ensures ParseInt(Decimal(n)) == Some(n)
  {
    var s := Decimal(n);
    assert RStrip(s) == s by { assert !IsSpace(s[|s| - 1]); }
    assert LStrip(s) == s by { assert !IsSpace(s[0]); }
    DecimalValue(n);
  }
}
