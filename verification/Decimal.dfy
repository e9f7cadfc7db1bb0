/**
 Decimal printing and parsing of integers, and splitting of strings at a separator:
 what every key built with "%d" rests on.
 */
module Decimal {
  datatype Option<T> = None | Some(value: T)

  const MAX_INT64: int := 0x7FFF_FFFF_FFFF_FFFF
  const MIN_INT64: int := -0x8000_0000_0000_0000

  predicate IsInt64(i: int) {
    MIN_INT64 <= i <= MAX_INT64
  }

  predicate IsDigit(c: char) {
    '0' <= c <= '9'
  }

  predicate AllDigits(s: string) {
    forall i :: 0 <= i < |s| ==> IsDigit(s[i])
  }

  function DigitChar(d: nat): (c: char)
    requires d < 10
    ensures IsDigit(c)
  {
    '0' + d as char
  }

  function Digits(n: nat): (s: string)
    ensures |s| > 0 && AllDigits(s)
  {
    if n < 10 then [DigitChar(n)] else Digits(n / 10) + [DigitChar(n % 10)]
  }

  /** What "%d" prints. */
  function Print(i: int): (s: string)
    ensures |s| > 0
    ensures forall k :: 0 <= k < |s| ==> IsDigit(s[k]) || s[k] == '-'
  {
    if i < 0 then "-" + Digits(-i) else Digits(i)
  }

  function DigitsValue(s: string): nat
    requires AllDigits(s)
  {
    if s == [] then 0
    else 10 * DigitsValue(s[..|s| - 1]) + (s[|s| - 1] as nat - '0' as nat)
  }

  /** Parsing a signed 64-bit integer: one optional sign, at least one digit, nothing else, no overflow. */
  function Parse(s: string): Option<int> {
    if s == "" then None
    else
      var body := if s[0] == '-' || s[0] == '+' then s[1..] else s;
      if body == "" || !AllDigits(body) then None
      else
        var n: int := DigitsValue(body);
        var v := if s[0] == '-' then -n else n;
        if IsInt64(v) then Some(v) else None
  }

  lemma {:induction false} DigitsRoundTrip(n: nat)
    ensures DigitsValue(Digits(n)) == n
  {
    var s := Digits(n);
    if n < 10 {
      assert s[..|s| - 1] == [];
    } else {
      DigitsRoundTrip(n / 10);
      assert s[..|s| - 1] == Digits(n / 10);
    }
  }

  /** Parsing what was printed gives the number back. */
  lemma PrintRoundTrip(i: int)
    requires IsInt64(i)
    ensures Parse(Print(i)) == Some(i)
  {
    DigitsRoundTrip(if i < 0 then -i else i);
    if i < 0 {
      assert Print(i)[1..] == Digits(-i);
    } else {
      assert IsDigit(Print(i)[0]);
    }
  }

  // ---- what is parsed ----

  function Pow10(n: nat): nat {
    if n == 0 then 1 else 10 * Pow10(n - 1)
  }

  /** Digits are read with the most significant one first. */
  lemma {:induction false} LeadingDigit(c: char, s: string)
    requires IsDigit(c) && AllDigits(s)
    ensures AllDigits([c] + s) && DigitsValue([c] + s) == (c as nat - '0' as nat) * Pow10(|s|) + DigitsValue(s)
  {
    var t := [c] + s;
    if s == "" {
      assert t == [c] && t[..0] == "";
    } else {
      LeadingDigit(c, s[..|s| - 1]);
      assert t[..|t| - 1] == [c] + s[..|s| - 1];
      TenTimes(c as nat - '0' as nat, Pow10(|s| - 1));
    }
  }

  lemma TenTimes(d: nat, p: nat)
    ensures 10 * (d * p) == d * (10 * p)
  {}

  function Nulls(k: nat): (s: string)
    ensures |s| == k && AllDigits(s)
  {
    seq(k, _ => '0')
  }

  lemma {:induction false} NullsCountNothing(k: nat, s: string)
    requires AllDigits(s)
    ensures AllDigits(Nulls(k) + s) && DigitsValue(Nulls(k) + s) == DigitsValue(s)
  {
    var t := Nulls(k) + s;
    if s != "" {
      NullsCountNothing(k, s[..|s| - 1]);
      assert t[..|t| - 1] == Nulls(k) + s[..|s| - 1];
    } else if k > 0 {
      NullsCountNothing(k - 1, s);
      assert t[..|t| - 1] == Nulls(k - 1) + s;
    }
  }

  /** A run of digits is the number it stands for, as it is printed, behind leading zeros. */
  lemma {:induction false} DigitsAreSpelled(s: string) returns (k: nat)
    requires s != "" && AllDigits(s)
    ensures s == Nulls(k) + Print(DigitsValue(s))
  {
    var front, last := s[..|s| - 1], s[|s| - 1];
    k := 0;
    if front == "" {
      assert s == [last] && DigitsValue(front) == 0;
    } else {
      k := DigitsAreSpelled(front);
      if DigitsValue(front) == 0 {
        assert front == Nulls(k + 1);
        k := k + 1;
      }
      assert s == front + [last];
    }
  }

  /** A spelling of a number: a sign that fits, leading zeros, and its digits. */
  ghost predicate Spells(s: string, i: int, sign: string, k: nat) {
    && s == sign + (Nulls(k) + Print(if i < 0 then -i else i))
    && if sign == "-" then i <= 0 else sign in {"", "+"} && i >= 0
  }

  /** How a string is parsed, its sign being known. */
  lemma ParseSigned(sign: string, body: string)
    requires sign in {"", "+", "-"} && body != "" && AllDigits(body)
    ensures
      var n: int := DigitsValue(body);
      var v := if sign == "-" then -n else n;
      Parse(sign + body) == if IsInt64(v) then Some(v) else None
  {
    var s := sign + body;
    assert IsDigit(body[0]);
    if sign == "" {
      assert s == body;
    } else {
      assert s[0] == sign[0] && s[1..] == body;
    }
  }

  lemma SpelledIsParsed(s: string, i: int, sign: string, k: nat)
    requires IsInt64(i) && Spells(s, i, sign, k)
    ensures Parse(s) == Some(i)
  {
    var n := if i < 0 then -i else i;
    DigitsRoundTrip(n);
    NullsCountNothing(k, Print(n));
    ParseSigned(sign, Nulls(k) + Print(n));
  }

  lemma ParsedIsSpelled(s: string, i: int) returns (sign: string, k: nat)
    requires Parse(s) == Some(i)
    ensures Spells(s, i, sign, k)
  {
    sign := if s[0] == '-' then "-" else if s[0] == '+' then "+" else "";
    var body := s[|sign|..];
    k := DigitsAreSpelled(body);
    assert s == sign + body;
  }

  /** A string is parsed to a number exactly when it is a spelling of it and the number fits 64 bits. */
  lemma ParseExactly(s: string, i: int)
    ensures Parse(s) == Some(i) <==> IsInt64(i) && exists sign, k :: Spells(s, i, sign, k)
  {
    if Parse(s) == Some(i) {
      var sign, k := ParsedIsSpelled(s, i);
    }
    forall sign, k | IsInt64(i) && Spells(s, i, sign, k) ensures Parse(s) == Some(i) {
      SpelledIsParsed(s, i, sign, k);
    }
  }

  /** Distinct numbers print differently. */
  lemma PrintInjective(i: int, j: int)
    requires Print(i) == Print(j)
    ensures i == j
  {
    DigitsRoundTrip(if i < 0 then -i else i);
    DigitsRoundTrip(if j < 0 then -j else j);
    assert i >= 0 ==> IsDigit(Print(i)[0]);
    assert j >= 0 ==> IsDigit(Print(j)[0]);
    if i < 0 {
      assert Print(i)[1..] == Digits(-i);
    }
    if j < 0 {
      assert Print(j)[1..] == Digits(-j);
    }
  }

  /** A string splits in one way at the first occurrence of a separator. */
  lemma SplitUnique(a: string, x: string, b: string, y: string, c: char)
    requires c !in a && c !in b
    requires a + [c] + x == b + [c] + y
    ensures a == b && x == y
  {
    var s := a + [c] + x;
    assert s[|a|] == c && s[|b|] == c;
    assert s[..|a|] == a && s[..|b|] == b;
    assert s[|a| + 1..] == x && s[|b| + 1..] == y;
  }

  /** A common prefix can be dropped. */
  lemma DropPrefix(p: string, x: string, y: string)
    requires p + x == p + y
    ensures x == y
  {
    assert (p + x)[|p|..] == x;
    assert (p + y)[|p|..] == y;
  }
}
