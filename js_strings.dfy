/**
 * The few JavaScript string operations the scraper's decisions rest on:
 * `includes`, `startsWith`, `trim`, the `/^\d+$/` test, `parseInt(text, 10)`
 * and the decimal text that a template literal gives a number.
 */
module JsStrings {

  /** `s.startsWith(p)`. */
  predicate StartsWith(s: string, p: string)
  {
    p <= s
  }

  /** `s.includes(sub)`: `sub` occurs somewhere in `s`. */
  predicate Contains(s: string, sub: string)
  {
    sub <= s || (s != [] && Contains(s[1..], sub))
  }

  /** The characters `String.prototype.trim` removes: ECMAScript WhiteSpace and LineTerminator. */
  predicate IsSpace(c: char)
  {
    c == '\t' || c == '\n' || c == '\U{000B}' || c == '\U{000C}' || c == '\r' || c == ' '
    || c == '\U{00A0}' || c == '\U{1680}' || ('\U{2000}' <= c <= '\U{200A}')
    || c == '\U{2028}' || c == '\U{2029}' || c == '\U{202F}' || c == '\U{205F}'
    || c == '\U{3000}' || c == '\U{FEFF}'
  }

  predicate AllSpace(s: string)
  {
    forall i | 0 <= i < |s| :: IsSpace(s[i])
  }

  /** `s` without its leading white space. */
  function TrimStart(s: string): string
  {
    if s != [] && IsSpace(s[0]) then TrimStart(s[1..]) else s
  }

  /** `TrimStart` keeps a suffix that does not start with white space, and drops only white space. */
  lemma {:induction false} TrimStartDropsSpace(s: string)
    ensures var r := TrimStart(s);
      |r| <= |s| && r == s[|s| - |r|..] && (r != [] ==> !IsSpace(r[0])) && AllSpace(s[..|s| - |r|])
  {
    if s != [] && IsSpace(s[0]) {
      TrimStartDropsSpace(s[1..]);
      var r := TrimStart(s[1..]);
      assert s[..|s| - |r|] == [s[0]] + s[1..][..|s| - 1 - |r|];
    }
  }

  /** `s` without its trailing white space. */
  function TrimEnd(s: string): string
  {
    if s != [] && IsSpace(s[|s| - 1]) then TrimEnd(s[..|s| - 1]) else s
  }

  /** `TrimEnd` keeps a prefix that does not end with white space, and drops only white space. */
  lemma {:induction false} TrimEndDropsSpace(s: string)
    ensures var r := TrimEnd(s);
      |r| <= |s| && r == s[..|r|] && (r != [] ==> !IsSpace(r[|r| - 1])) && AllSpace(s[|r|..])
  {
    if s != [] && IsSpace(s[|s| - 1]) {
      TrimEndDropsSpace(s[..|s| - 1]);
      var r := TrimEnd(s[..|s| - 1]);
      assert s[..|s| - 1][|r|..] + [s[|s| - 1]] == s[|r|..];
    }
  }

  /** `s.trim()`: `s` without its leading and trailing white space. */
  function Trim(s: string): (r: string)
  {
    TrimEnd(TrimStart(s))
  }

  /** The trimmed text is a piece of `s` that has only white space around it. */
  lemma TrimIsCore(s: string)
    ensures var r := Trim(s);
      exists i | 0 <= i <= |s| - |r| ::
        r == s[i..i + |r|] && AllSpace(s[..i]) && AllSpace(s[i + |r|..])
  {
    var t := TrimStart(s);
    var r := TrimEnd(t);
    var i := |s| - |t|;
    TrimStartDropsSpace(s);
    TrimEndDropsSpace(t);
    assert s[i + |r|..] == t[|r|..];
    assert r == s[i..i + |r|];
  }

  /** `includes` on a prefix of `s` implies `includes` on `s`. */
  lemma {:induction false} ContainsInPrefix(s: string, j: nat, sub: string)
    requires j <= |s| && Contains(s[..j], sub)
    ensures Contains(s, sub)
  {
    if sub <= s[..j] {
    } else {
      assert s[..j][1..] == s[1..][..j - 1];
      ContainsInPrefix(s[1..], j - 1, sub);
    }
  }

  /** `includes` on a suffix of `s` implies `includes` on `s`. */
  lemma {:induction false} ContainsInSuffix(s: string, i: nat, sub: string)
    requires i <= |s| && Contains(s[i..], sub)
    ensures Contains(s, sub)
  {
    if i > 0 {
      assert s[1..][i - 1..] == s[i..];
      ContainsInSuffix(s[1..], i - 1, sub);
    }
  }

  /** Whatever the trimmed text includes, the untrimmed text includes too. */
  lemma TrimKeepsContains(s: string, sub: string)
    requires Contains(Trim(s), sub)
    ensures Contains(s, sub)
  {
    TrimIsCore(s);
    var r := Trim(s);
    var i :| 0 <= i <= |s| - |r| && r == s[i..i + |r|] && AllSpace(s[..i]) && AllSpace(s[i + |r|..]);
    assert s[i..][..|r|] == r;
    ContainsInPrefix(s[i..], |r|, sub);
    ContainsInSuffix(s, i, sub);
  }

  /** Trimming finds nothing to keep exactly when `s` is all white space. */
  lemma TrimEmptyIff(s: string)
    ensures Trim(s) == "" <==> AllSpace(s)
  {
    var t := TrimStart(s);
    TrimStartDropsSpace(s);
    TrimEndDropsSpace(t);
    assert t != [] ==> t[0] == s[|s| - |t|] && !IsSpace(t[0]);
    assert s[..|s|] == s;
  }

  /** `trim` leaves no white space at either end. */
  lemma TrimmedEnds(s: string)
    ensures var r := Trim(s); r != [] ==> !IsSpace(r[0]) && !IsSpace(r[|r| - 1])
  {
    var t := TrimStart(s);
    TrimStartDropsSpace(s);
    TrimEndDropsSpace(t);
  }

  /** `trim` applied to its own result changes nothing. */
  lemma TrimIdempotent(s: string)
    ensures Trim(Trim(s)) == Trim(s)
  {
    TrimmedEnds(s);
    TrimOfTrimmed(Trim(s));
  }

  /** A string without white space at either end is left alone by `trim`. */
  lemma TrimOfTrimmed(s: string)
    requires s != [] ==> !IsSpace(s[0]) && !IsSpace(s[|s| - 1])
    ensures Trim(s) == s
  {
  }

  predicate IsDigit(c: char)
  {
    '0' <= c <= '9'
  }

  /** The value `parseInt` gives an ASCII decimal digit. */
  function DigitValue(c: char): nat
    requires IsDigit(c)
  {
    c as int - '0' as int
  }

  /** `/^\d+$/.test(s)` (without the `u` flag `\d` is exactly `[0-9]`). */
  predicate AllDigits(s: string)
  {
    |s| > 0 && forall i | 0 <= i < |s| :: IsDigit(s[i])
  }

  /** `parseInt(s, 10)` on a string that passed the `/^\d+$/` test. */
  function ParseDigits(s: string): (n: nat)
    requires forall i | 0 <= i < |s| :: IsDigit(s[i])
  {
    if s == [] then 0
    else ParseDigits(s[..|s| - 1]) * 10 + DigitValue(s[|s| - 1])
  }

  /** The text a template literal gives a non-negative integer. */
  function NatToString(n: nat): (s: string)
    ensures AllDigits(s)
  {
    if n < 10 then [('0' as int + n) as char]
    else NatToString(n / 10) + [('0' as int + n % 10) as char]
  }

  /** The text a template literal gives an integer: `${n}`. */
  function IntToString(n: int): string
  {
    if n < 0 then "-" + NatToString(-n) else NatToString(n)
  }

  /** Reading back the decimal text of a number gives the number. */
  lemma {:induction false} ParseNatToString(n: nat)
    ensures ParseDigits(NatToString(n)) == n
  {
    if n >= 10 {
      ParseNatToString(n / 10);
      var s := NatToString(n);
      assert s[..|s| - 1] == NatToString(n / 10);
    }
  }

  /** The decimal text of a number passes the `/^\d+$/` test after `trim`, and reads back as that number. */
  lemma PageLabelRoundTrip(n: nat)
    ensures Trim(NatToString(n)) == NatToString(n)
    ensures AllDigits(Trim(NatToString(n)))
    ensures ParseDigits(Trim(NatToString(n))) == n
  {
    var s := NatToString(n);
    TrimOfTrimmed(s);
    ParseNatToString(n);
  }
}
