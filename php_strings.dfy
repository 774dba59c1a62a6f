/**
 * The PHP string primitives the description engine calls: integer to string
 * conversion, numeric-string recognition (`is_numeric`), `rtrim`, `ltrim` and
 * the literal placeholder replacement done with `preg_replace`.
 * Strings are sequences of Unicode characters; PHP holds them as UTF-8 bytes.
 * Every pattern these functions look for is ASCII, and on ASCII patterns
 * matching characters and matching UTF-8 bytes agree.
 */
module PhpStrings {
  import opened Wrappers

  predicate IsDigit(c: char)
  {
    '0' <= c <= '9'
  }

  predicate AllDigits(s: string)
  {
    forall k :: 0 <= k < |s| ==> IsDigit(s[k])
  }

  function DigitChar(d: nat): (c: char)
    requires d < 10
    ensures IsDigit(c) && c as int - '0' as int == d
  {
    ('0' as int + d) as char
  }

  /** Decimal digits of `n`, most significant first, without leading zeros. */
  function NatToString(n: nat): (s: string)
    ensures |s| > 0 && AllDigits(s)
    ensures |s| > 1 ==> s[0] != '0'
  {
    if n < 10 then [DigitChar(n)] else NatToString(n / 10) + [DigitChar(n % 10)]
  }

  /** PHP's `(string)$i` for an integer. */
  function IntToString(i: int): string
  {
    if i < 0 then "-" + NatToString(-i) else NatToString(i)
  }

  /** The number a run of decimal digits denotes. */
  function DigitsValue(s: string): nat
    requires AllDigits(s)
  {
    if s == [] then 0
    else DigitsValue(s[..|s| - 1]) * 10 + (s[|s| - 1] as int - '0' as int)
  }

  /**
   * The integer an optionally signed run of at least one decimal digit
   * denotes; any other string has none.
   */
  function ParseInt(s: string): Option<int>
  {
    if |s| > 0 && (s[0] == '-' || s[0] == '+') then
      var t := s[1..];
      if |t| > 0 && AllDigits(t) then
        var n: int := DigitsValue(t);
        Some(if s[0] == '-' then -n else n)
      else None
    else if |s| > 0 && AllDigits(s) then Some(DigitsValue(s))
    else None
  }

  lemma {:induction false} DigitsValueOfNatToString(n: nat)
    ensures DigitsValue(NatToString(n)) == n
  {
    if n >= 10 {
      var s := NatToString(n);
      DigitsValueOfNatToString(n / 10);
      assert s[..|s| - 1] == NatToString(n / 10);
    }
  }

  /** Reading back the decimal form of an integer gives the integer. */
  lemma ParseIntOfIntToString(i: int)
    ensures ParseInt(IntToString(i)) == Some(i)
  {
    var s := IntToString(i);
    if i < 0 {
      var t := NatToString(-i);
      DigitsValueOfNatToString(-i);
      assert s[0] == '-' && s[1..] == t;
      assert |t| > 0 && AllDigits(t);
    } else {
      DigitsValueOfNatToString(i);
      assert IsDigit(s[0]);
    }
  }

  // ---- is_numeric on strings (PHP 8) ----

  /** The whitespace `is_numeric` allows before and after the number. */
  predicate IsNumericSpace(c: char)
  {
    c == ' ' || c == '\t' || c == '\n' || c == '\r' || c as int == 11 || c as int == 12
  }

  /** Position of the first character satisfying `p`, or |s|. */
  function FindFirst(s: string, p: char -> bool): (k: nat)
    ensures k <= |s|
    ensures forall j :: 0 <= j < k ==> !p(s[j])
    ensures k < |s| ==> p(s[k])
  {
    if s == [] then 0
    else if p(s[0]) then 0
    else 1 + FindFirst(s[1..], p)
  }

  /** `s` with the leading and trailing characters satisfying `p` removed. */
  function StripBoth(s: string, p: char -> bool): string
  {
    var a := FindFirst(s, c => !p(c));
    var t := s[a..];
    if |t| > 0 && p(t[|t| - 1]) then StripTrailing(t, p) else t
  }

  function StripTrailing(s: string, p: char -> bool): (r: string)
    ensures |r| <= |s| && r == s[..|r|]
    ensures forall k :: |r| <= k < |s| ==> p(s[k])
    ensures |r| > 0 ==> !p(r[|r| - 1])
  {
    if |s| > 0 && p(s[|s| - 1]) then StripTrailing(s[..|s| - 1], p) else s
  }

  /** Digits, with at most one decimal point, and at least one digit. */
  predicate IsMantissa(m: string)
  {
    var d := FindFirst(m, c => c == '.');
    if d == |m| then |m| > 0 && AllDigits(m)
    else |m| > 1 && AllDigits(m[..d]) && AllDigits(m[d + 1..])
  }

  predicate IsSignedDigits(s: string)
  {
    var t := if |s| > 0 && (s[0] == '+' || s[0] == '-') then s[1..] else s;
    |t| > 0 && AllDigits(t)
  }

  /**
   * `is_numeric` on a string in PHP 8: optional surrounding whitespace, an
   * optional sign, a decimal mantissa and an optional exponent.
   */
  predicate IsNumericString(s: string)
  {
    var core := StripBoth(s, IsNumericSpace);
    var unsigned := if |core| > 0 && (core[0] == '+' || core[0] == '-') then core[1..] else core;
    var e := FindFirst(unsigned, c => c == 'e' || c == 'E');
    IsMantissa(unsigned[..e]) && (e == |unsigned| || IsSignedDigits(unsigned[e + 1..]))
  }

  // ---- rtrim / ltrim ----

  /** `rtrim($s, $c)`: every trailing `c` removed. */
  function RTrimChar(s: string, c: char): (r: string)
    ensures |r| <= |s| && r == s[..|r|]
    ensures forall k :: |r| <= k < |s| ==> s[k] == c
    ensures |r| > 0 ==> r[|r| - 1] != c
  {
    StripTrailing(s, x => x == c)
  }

  /** `rtrim` removes exactly the trailing run of `c`, and nothing before it. */
  lemma RTrimCharExact(x: string, t: string, c: char)
    requires |x| > 0 ==> x[|x| - 1] != c
    requires forall k :: 0 <= k < |t| ==> t[k] == c
    ensures RTrimChar(x + t, c) == x
  {
    var s := x + t;
    var r := RTrimChar(s, c);
    assert r == s[..|x|] == x;
  }

  /** The characters `ltrim` strips when given no character list. */
  predicate IsTrimSpace(c: char)
  {
    c == ' ' || c == '\t' || c == '\n' || c == '\r' || c == '\0' || c as int == 11
  }

  /** `ltrim($s)`: leading whitespace (not slashes) removed. */
  function LTrim(s: string): (r: string)
    ensures |r| <= |s| && r == s[|s| - |r|..]
    ensures forall k :: 0 <= k < |s| - |r| ==> IsTrimSpace(s[k])
    ensures |r| > 0 ==> !IsTrimSpace(r[0])
  {
    if |s| > 0 && IsTrimSpace(s[0]) then LTrim(s[1..]) else s
  }

  // ---- placeholder replacement ----

  /**
   * Replace every occurrence of `pat` in `s` by `rep`, scanning left to right
   * and never rescanning replaced text: what `preg_replace` does with a
   * pattern made of literal characters.
   */
  function ReplaceAll(s: string, pat: string, rep: string): string
    requires |pat| > 0
  {
    if |s| < |pat| then s
    else if s[..|pat|] == pat then rep + ReplaceAll(s[|pat|..], pat, rep)
    else [s[0]] + ReplaceAll(s[1..], pat, rep)
  }

  /** Text containing no `{` is copied unchanged ahead of a `{`-placeholder. */
  lemma {:induction false} ReplaceAllSkipsPrefix(x: string, s: string, pat: string, rep: string)
    requires |pat| > 0 && pat[0] == '{' && '{' !in x
    ensures ReplaceAll(x + s, pat, rep) == x + ReplaceAll(s, pat, rep)
  {
    if x != [] {
      var xs := x + s;
      if |xs| < |pat| {
        assert ReplaceAll(s, pat, rep) == s;
      } else {
        assert xs[..|pat|][0] == x[0] != '{';
        assert xs[..|pat|] != pat;
        assert xs[1..] == x[1..] + s;
        ReplaceAllSkipsPrefix(x[1..], s, pat, rep);
        calc {
          ReplaceAll(xs, pat, rep);
          [xs[0]] + ReplaceAll(xs[1..], pat, rep);
          [x[0]] + (x[1..] + ReplaceAll(s, pat, rep));
          ([x[0]] + x[1..]) + ReplaceAll(s, pat, rep);
          { assert [x[0]] + x[1..] == x; }
          x + ReplaceAll(s, pat, rep);
        }
      }
    } else {
      assert x + s == s;
    }
  }

  /** A template without `{` has no `{`-placeholder to substitute. */
  lemma ReplaceAllWithoutBrace(s: string, pat: string, rep: string)
    requires |pat| > 0 && pat[0] == '{' && '{' !in s
    ensures ReplaceAll(s, pat, rep) == s
  {
    ReplaceAllSkipsPrefix(s, [], pat, rep);
    assert s + [] == s;
  }

  /**
   * A template holding one placeholder `{name}`, and no other `{`, gets the
   * replacement exactly where the placeholder stood.
   */
  lemma SubstituteSinglePlaceholder(x: string, pat: string, y: string, rep: string)
    requires |pat| > 0 && pat[0] == '{' && '{' !in x && '{' !in y
    ensures ReplaceAll(x + pat + y, pat, rep) == x + rep + y
  {
    ReplaceAllSkipsPrefix(x, pat + y, pat, rep);
    assert x + pat + y == x + (pat + y);
    assert (pat + y)[..|pat|] == pat && (pat + y)[|pat|..] == y;
    ReplaceAllWithoutBrace(y, pat, rep);
  }

  /** `pieces[0] + sep + pieces[1] + … + sep + pieces[n]`. */
  function Interleave(pieces: seq<string>, sep: string): string
    requires |pieces| > 0
  {
    if |pieces| == 1 then pieces[0] else pieces[0] + sep + Interleave(pieces[1..], sep)
  }

  /** `pat` occurs in `s` at position `i`. */
  predicate OccursAt(pat: string, s: string, i: nat)
  {
    i + |pat| <= |s| && s[i..i + |pat|] == pat
  }

  /** `pat` occurs nowhere in `s`. */
  predicate Absent(pat: string, s: string)
  {
    forall i: nat | i <= |s| :: !OccursAt(pat, s, i)
  }

  /** A placeholder opens with `{` and holds no other `{`, as `{name}` does for a `{`-free name. */
  predicate IsPlaceholder(pat: string)
  {
    |pat| > 0 && pat[0] == '{' && '{' !in pat[1..]
  }

  /**
   * Text holding no placeholder is copied unchanged ahead of text that is
   * empty or opens with `{`: no match can straddle the boundary, because it
   * would need a `{` inside the placeholder.
   */
  lemma {:induction false} ReplaceAllSkipsAbsent(x: string, s: string, pat: string, rep: string)
    requires IsPlaceholder(pat) && Absent(pat, x)
    requires s == [] || s[0] == '{'
    ensures ReplaceAll(x + s, pat, rep) == x + ReplaceAll(s, pat, rep)
  {
    if x == [] {
      assert x + s == s;
    } else {
      var tail := ReplaceAll(s, pat, rep);
      ReplaceAllFirstChar(x, s, pat, rep);
      AbsentTail(pat, x);
      ReplaceAllSkipsAbsent(x[1..], s, pat, rep);
      assert [x[0]] + (x[1..] + tail) == x + tail;
    }
  }

  /** The first character of a piece without the placeholder is copied, whatever follows the piece. */
  lemma ReplaceAllFirstChar(x: string, s: string, pat: string, rep: string)
    requires IsPlaceholder(pat) && Absent(pat, x) && |x| > 0
    requires s == [] || s[0] == '{'
    ensures ReplaceAll(x + s, pat, rep) == [x[0]] + ReplaceAll(x[1..] + s, pat, rep)
  {
    var xs := x + s;
    assert xs[0] == x[0] && xs[1..] == x[1..] + s;
    if |xs| < |pat| {
      assert ReplaceAll(xs[1..], pat, rep) == xs[1..];
      assert [xs[0]] + xs[1..] == xs;
    } else {
      NoMatchAtFront(x, s, pat);
    }
  }

  /** A placeholder cannot start inside a piece that does not hold it, even running on into text that opens with `{`. */
  lemma NoMatchAtFront(x: string, s: string, pat: string)
    requires IsPlaceholder(pat) && Absent(pat, x) && |x| > 0
    requires s == [] || s[0] == '{'
    requires |x + s| >= |pat|
    ensures (x + s)[..|pat|] != pat
  {
    var xs := x + s;
    if |x| >= |pat| {
      assert !OccursAt(pat, x, 0);
      assert xs[..|pat|] == x[..|pat|];
    } else {
      assert xs[..|pat|][|x|] == s[0] == '{';
      assert pat[|x|] == pat[1..][|x| - 1];
    }
  }

  lemma AbsentTail(pat: string, x: string)
    requires Absent(pat, x) && |x| > 0
    ensures Absent(pat, x[1..])
  {
    forall i: nat | i <= |x[1..]| ensures !OccursAt(pat, x[1..], i) {
      if OccursAt(pat, x[1..], i) {
        assert x[1..][i..i + |pat|] == x[i + 1..i + 1 + |pat|];
        assert OccursAt(pat, x, i + 1);
      }
    }
  }

  /** The placeholder after a piece that holds none is replaced, and the scan goes on behind it. */
  lemma ReplaceAllStep(x: string, pat: string, rest: string, rep: string)
    requires IsPlaceholder(pat) && Absent(pat, x)
    ensures ReplaceAll(x + pat + rest, pat, rep) == x + rep + ReplaceAll(rest, pat, rep)
  {
    ReplaceAllSkipsAbsent(x, pat + rest, pat, rep);
    assert x + pat + rest == x + (pat + rest);
    assert (pat + rest)[..|pat|] == pat && (pat + rest)[|pat|..] == rest;
  }

  /** Text holding no placeholder is unchanged by replacing it. */
  lemma ReplaceAllAbsent(x: string, pat: string, rep: string)
    requires IsPlaceholder(pat) && Absent(pat, x)
    ensures ReplaceAll(x, pat, rep) == x
  {
    ReplaceAllSkipsAbsent(x, [], pat, rep);
    assert x + [] == x;
  }

  /**
   * A template made of pieces joined by the placeholder, none of which holds
   * the placeholder itself, gets the replacement at every place the
   * placeholder stood, and nowhere else. The pieces may hold other
   * placeholders, as `items/{id}/sub/{sub}` does for `{id}`.
   */
  lemma {:induction false} ReplaceEveryPlaceholder(pieces: seq<string>, pat: string, rep: string)
    requires |pieces| > 0 && IsPlaceholder(pat)
    requires forall k :: 0 <= k < |pieces| ==> Absent(pat, pieces[k])
    ensures ReplaceAll(Interleave(pieces, pat), pat, rep) == Interleave(pieces, rep)
  {
    if |pieces| == 1 {
      ReplaceAllAbsent(pieces[0], pat, rep);
    } else {
      ReplaceEveryPlaceholder(pieces[1..], pat, rep);
      ReplaceAllStep(pieces[0], pat, Interleave(pieces[1..], pat), rep);
    }
  }
}
