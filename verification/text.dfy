/** String helpers with the meaning the Python standard library gives them:
    substring test (`sub in s`), ASCII case mapping (`upper`, `lower`,
    `title`), single-character `replace`, `str(int)` and `os.path.join`. */
module Text {

  /** `sub in s` for Python strings. */
  predicate Contains(s: string, sub: string)
    decreases |s|
  {
    |sub| <= |s| && (s[..|sub|] == sub || Contains(s[1..], sub))
  }

  /** A string always contains anything it has as an infix. */
  lemma {:induction false} ContainsInfix(a: string, sub: string, b: string)
    ensures Contains(a + sub + b, sub)
    decreases |a|
  {
    var s := a + sub + b;
    if a == [] {
      assert s[..|sub|] == sub;
    } else {
      assert s[1..] == a[1..] + sub + b;
      ContainsInfix(a[1..], sub, b);
    }
  }

  /** A string that contains `sub` is at least as long as it. */
  lemma {:induction false} ContainsLength(s: string, sub: string)
    requires Contains(s, sub)
    ensures |sub| <= |s|
  {
  }

  /** An occurrence at a known position is an occurrence. */
  lemma {:induction false} ContainsAt(s: string, sub: string, i: nat)
    requires i + |sub| <= |s| && s[i..i + |sub|] == sub
    ensures Contains(s, sub)
    decreases i
  {
    if i > 0 {
      assert s[1..][i - 1..i - 1 + |sub|] == sub;
      ContainsAt(s[1..], sub, i - 1);
    }
  }

  /** Where an occurrence sits. */
  lemma {:induction false} ContainsWitness(s: string, sub: string) returns (i: nat)
    requires Contains(s, sub)
    ensures i + |sub| <= |s| && s[i..i + |sub|] == sub
    decreases |s|
  {
    if s[..|sub|] == sub {
      i := 0;
    } else {
      var j := ContainsWitness(s[1..], sub);
      assert s[1 + j..1 + j + |sub|] == s[1..][j..j + |sub|];
      i := j + 1;
    }
  }

  /** Text around a string keeps every occurrence inside it. */
  lemma ContainsWithin(a: string, s: string, c: string, sub: string)
    requires Contains(s, sub)
    ensures Contains(a + s + c, sub)
  {
    var i := ContainsWitness(s, sub);
    var t := a + s + c;
    assert t[|a| + i..|a| + i + |sub|] == s[i..i + |sub|];
    ContainsAt(t, sub, |a| + i);
  }

  /** Two strings with the same prefix and suffix around them are equal. */
  lemma AffixInjective(head: string, x: string, y: string, tail: string)
    requires head + x + tail == head + y + tail
    ensures x == y
  {
    var s, t := head + x + tail, head + y + tail;
    assert |x| == |y|;
    assert s[|head|..|head| + |x|] == x;
    assert t[|head|..|head| + |y|] == y;
  }

  /** Appending to a string keeps every occurrence in it. */
  lemma ContainsExtend(s: string, rest: string, sub: string)
    requires Contains(s, sub)
    ensures Contains(s + rest, sub)
  {
    ContainsWithin([], s, rest, sub);
    assert [] + s + rest == s + rest;
  }

  /** An occurrence in any of three parts is an occurrence in their concatenation. */
  lemma ContainsInOneOfThree(a: string, b: string, c: string, sub: string)
    requires Contains(a, sub) || Contains(b, sub) || Contains(c, sub)
    ensures Contains(a + b + c, sub)
  {
    if Contains(a, sub) {
      ContainsWithin([], a, b + c, sub);
      assert [] + a + (b + c) == a + b + c;
    } else if Contains(b, sub) {
      ContainsWithin(a, b, c, sub);
    } else {
      ContainsWithin(a + b, c, [], sub);
      assert a + b + c + [] == a + b + c;
    }
  }

  /** A character never found in `s` rules out every pattern that holds it. */
  lemma {:induction false} NotContainsChar(s: string, sub: string, k: nat)
    requires k < |sub|
    requires sub[k] !in s
    ensures !Contains(s, sub)
    decreases |s|
  {
    if |sub| <= |s| {
      assert s[..|sub|][k] == s[k];
      assert s[..|sub|] != sub;
      NotContainsChar(s[1..], sub, k);
    }
  }

  // ---------------------------------------------------------------------
  // ASCII case mapping (`str.upper`, `str.lower`, `str.title`)

  predicate IsLower(c: char) { 'a' <= c <= 'z' }
  predicate IsUpper(c: char) { 'A' <= c <= 'Z' }
  predicate IsLetter(c: char) { IsLower(c) || IsUpper(c) }

  function UpperChar(c: char): (r: char)
    ensures IsLetter(r) <==> IsLetter(c)
    ensures !IsLower(r)
    ensures IsLower(c) ==> r as int == c as int - 32
    ensures !IsLower(c) ==> r == c
  {
    if IsLower(c) then (c as int - 32) as char else c
  }

  function LowerChar(c: char): (r: char)
    ensures IsLetter(r) <==> IsLetter(c)
    ensures !IsUpper(r)
    ensures IsUpper(c) ==> r as int == c as int + 32
    ensures !IsUpper(c) ==> r == c
  {
    if IsUpper(c) then (c as int + 32) as char else c
  }

  function Upper(s: string): (r: string)
    ensures |r| == |s|
    ensures forall i :: 0 <= i < |s| ==> r[i] == UpperChar(s[i])
  {
    seq(|s|, i requires 0 <= i < |s| => UpperChar(s[i]))
  }

  function Lower(s: string): (r: string)
    ensures |r| == |s|
    ensures forall i :: 0 <= i < |s| ==> r[i] == LowerChar(s[i])
  {
    seq(|s|, i requires 0 <= i < |s| => LowerChar(s[i]))
  }

  /** Upper-casing twice is upper-casing once, so a normalised language code stays put. */
  lemma UpperIdempotent(s: string)
    ensures Upper(Upper(s)) == Upper(s)
  {
  }

  /** Lower-casing forgets a previous upper-casing. */
  lemma LowerOfUpper(s: string)
    ensures Lower(Upper(s)) == Lower(s)
  {
  }

  /** `str.title` on ASCII: a letter is upper-cased when the previous character
      is not a letter and lower-cased when it is; other characters stay. */
  function TitleFrom(s: string, previousCased: bool): (r: string)
    ensures |r| == |s|
    decreases |s|
  {
    if s == [] then []
    else
      var c := s[0];
      [if previousCased then LowerChar(c) else UpperChar(c)] + TitleFrom(s[1..], IsLetter(c))
  }

  function Title(s: string): (r: string)
    ensures |r| == |s|
  {
    TitleFrom(s, false)
  }

  /** Every word of a title-cased string starts upper-case and goes on lower-case. */
  lemma {:induction false} TitleShape(s: string, previousCased: bool, i: nat)
    requires i < |s|
    ensures var r := TitleFrom(s, previousCased);
      var before := if i == 0 then previousCased else IsLetter(s[i - 1]);
      && (IsLetter(s[i]) && !before ==> IsUpper(r[i]))
      && (IsLetter(s[i]) && before ==> IsLower(r[i]))
      && (!IsLetter(s[i]) ==> r[i] == s[i])
      && r[i] == (if before then LowerChar(s[i]) else UpperChar(s[i]))
    decreases i
  {
    if i > 0 {
      TitleShape(s[1..], IsLetter(s[0]), i - 1);
    }
  }

  // ---------------------------------------------------------------------
  // `str.replace` with a one-character pattern, and `str.split(c)[0]`

  /** `s.replace(c, t)` where the pattern is the single character `c`. */
  function ReplaceChar(s: string, c: char, t: string): (r: string)
    ensures c !in s ==> r == s
  {
    if s == [] then [] else (if s[0] == c then t else [s[0]]) + ReplaceChar(s[1..], c, t)
  }

  lemma {:induction false} ReplaceCharConcat(a: string, b: string, c: char, t: string)
    ensures ReplaceChar(a + b, c, t) == ReplaceChar(a, c, t) + ReplaceChar(b, c, t)
  {
    if a == [] {
      assert a + b == b;
    } else {
      assert (a + b)[1..] == a[1..] + b;
      ReplaceCharConcat(a[1..], b, c, t);
    }
  }

  /** After replacing `c` by a text without `c`, no `c` is left. */
  lemma {:induction false} ReplaceCharRemoves(s: string, c: char, t: string)
    requires c !in t
    ensures c !in ReplaceChar(s, c, t)
  {
    if s != [] {
      ReplaceCharRemoves(s[1..], c, t);
    }
  }

  /** Replacing `c` neither removes nor introduces a character `d` other than `c` that `t` lacks. */
  lemma {:induction false} ReplaceCharKeepsAbsent(s: string, c: char, t: string, d: char)
    requires d !in s && d !in t
    ensures d !in ReplaceChar(s, c, t)
  {
    if s != [] {
      ReplaceCharKeepsAbsent(s[1..], c, t, d);
    }
  }

  /** Replacing in a one-character string. */
  lemma ReplaceCharSingle(x: char, c: char, t: string)
    ensures ReplaceChar([x], c, t) == if x == c then t else [x]
  {
    assert [x][1..] == [];
  }

  /** Replacing `c` by a single character `d` works position by position. */
  lemma {:induction false} ReplaceCharPointwise(s: string, c: char, d: char)
    ensures |ReplaceChar(s, c, [d])| == |s|
    ensures forall i :: 0 <= i < |s| ==> ReplaceChar(s, c, [d])[i] == if s[i] == c then d else s[i]
  {
    if s != [] {
      ReplaceCharPointwise(s[1..], c, d);
      assert forall i :: 1 <= i < |s| ==> s[i] == s[1..][i - 1];
    }
  }

  /** `s.split(c)[0]`: everything before the first `c`, or all of `s`. */
  function BeforeFirst(s: string, c: char): (r: string)
    ensures c !in r
    ensures |r| <= |s| && r == s[..|r|]
    ensures |r| < |s| ==> s[|r|] == c
  {
    if s == [] || s[0] == c then [] else [s[0]] + BeforeFirst(s[1..], c)
  }

  // ---------------------------------------------------------------------
  // Decimal numerals: `str(n)` and its inverse

  predicate IsDigit(c: char) { '0' <= c <= '9' }

  function DigitChar(d: nat): (c: char)
    requires d < 10
    ensures IsDigit(c)
  {
    ('0' as int + d) as char
  }

  function DigitValue(c: char): (d: nat)
    requires IsDigit(c)
    ensures d < 10 && DigitChar(d) == c
  {
    c as int - '0' as int
  }

  /** A canonical decimal numeral: digits only, no superfluous leading zero. */
  predicate IsNumeral(s: string)
  {
    && |s| > 0
    && (forall i :: 0 <= i < |s| ==> IsDigit(s[i]))
    && (|s| > 1 ==> s[0] != '0')
  }

  /** `str(n)` for a non-negative integer. */
  function NatToString(n: nat): (r: string)
    ensures IsNumeral(r)
    decreases n
  {
    if n < 10 then [DigitChar(n)] else NatToString(n / 10) + [DigitChar(n % 10)]
  }

  /** The value of a string of decimal digits (`int(s)` on such a string). */
  function ParseDigits(s: string): nat
    requires forall i :: 0 <= i < |s| ==> IsDigit(s[i])
  {
    if s == [] then 0 else 10 * ParseDigits(s[..|s| - 1]) + DigitValue(s[|s| - 1])
  }

  /** Rendering a number and reading it back gives the number. */
  lemma {:induction false} ParseNatToString(n: nat)
    ensures ParseDigits(NatToString(n)) == n
    decreases n
  {
    if n >= 10 {
      var s := NatToString(n);
      assert s[..|s| - 1] == NatToString(n / 10);
      ParseNatToString(n / 10);
    }
  }

  lemma {:induction false} ParseDigitsPositive(s: string)
    requires IsNumeral(s) && s[0] != '0'
    ensures ParseDigits(s) >= 1
    decreases |s|
  {
    if |s| > 1 {
      var init := s[..|s| - 1];
      assert init[0] == s[0];
      ParseDigitsPositive(init);
    }
  }

  /** Reading a canonical numeral and rendering it back gives the numeral. */
  lemma {:induction false} NatToStringParse(s: string)
    requires IsNumeral(s)
    ensures NatToString(ParseDigits(s)) == s
    decreases |s|
  {
    if |s| > 1 {
      var init := s[..|s| - 1];
      assert init[0] == s[0];
      ParseDigitsPositive(init);
      NatToStringParse(init);
      assert s == init + [s[|s| - 1]];
    }
  }

  /** `str(i)` for any integer: a minus sign before the magnitude when negative. */
  function IntToString(i: int): (r: string)
    ensures |r| > 0
    ensures i < 0 <==> r[0] == '-'
    ensures i >= 0 ==> IsNumeral(r)
    ensures i < 0 ==> IsNumeral(r[1..])
  {
    if i < 0 then "-" + NatToString(-i) else NatToString(i)
  }

  /** Different integers print differently. */
  lemma IntToStringInjective(i: int, j: int)
    requires IntToString(i) == IntToString(j)
    ensures i == j
  {
    if i < 0 {
      assert IntToString(i)[1..] == NatToString(-i);
      assert IntToString(j)[1..] == NatToString(-j);
      ParseNatToString(-i);
      ParseNatToString(-j);
    } else {
      ParseNatToString(i);
      ParseNatToString(j);
    }
  }

  // ---------------------------------------------------------------------
  // Paths and repetition

  /** `os.path.join(dir, name)` on POSIX. */
  function PathJoin(dir: string, name: string): (r: string)
    ensures |name| > 0 && name[0] == '/' ==> r == name
    ensures |name| > 0 && name[0] != '/' ==> |name| <= |r| && r[|r| - |name|..] == name
  {
    if |name| > 0 && name[0] == '/' then name
    else if dir == [] || dir[|dir| - 1] == '/' then dir + name
    else dir + "/" + name
  }

  /** `c * n` in Python. */
  function Repeat(c: char, n: nat): (r: string)
    ensures |r| == n
    ensures forall i :: 0 <= i < n ==> r[i] == c
  {
    seq(n, _ => c)
  }
}
