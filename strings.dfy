/**
 * The parts of java.lang.String and java.lang.Integer the core relies on:
 * trim, ASCII case mapping, equalsIgnoreCase, startsWith, joining,
 * Integer.parseInt (new Integer(String)) and Integer.toString.
 */
module Strings {
  import opened Results

  /** String.trim strips every character whose code is at most U+0020. */
  predicate IsTrimmable(c: char) { c <= ' ' }

  function TrimStart(s: string): (r: string)
    ensures |r| <= |s| && r == s[|s| - |r|..]
    ensures r == [] || !IsTrimmable(r[0])
    ensures forall i :: 0 <= i < |s| - |r| ==> IsTrimmable(s[i])
  {
    if |s| > 0 && IsTrimmable(s[0]) then TrimStart(s[1..]) else s
  }

  function TrimEnd(s: string): (r: string)
    ensures |r| <= |s| && r == s[..|r|]
    ensures r == [] || !IsTrimmable(r[|r| - 1])
    ensures forall i :: |r| <= i < |s| ==> IsTrimmable(s[i])
  {
    if |s| > 0 && IsTrimmable(s[|s| - 1]) then TrimEnd(s[..|s| - 1]) else s
  }

  /** String.trim(): the input without its leading and trailing blanks. */
  function Trim(s: string): (r: string)
    ensures |r| <= |s|
    ensures r == [] || (!IsTrimmable(r[0]) && !IsTrimmable(r[|r| - 1]))
  {
    TrimEnd(TrimStart(s))
  }

  /** Trimming twice is trimming once. */
  lemma {:induction false} TrimIdempotent(s: string)
    ensures Trim(Trim(s)) == Trim(s)
  {
    var t := Trim(s);
    TrimStartStops(t);
    TrimEndStops(t);
  }

  lemma TrimStartStops(t: string)
    requires t == [] || !IsTrimmable(t[0])
    ensures TrimStart(t) == t
  {
  }

  lemma TrimEndStops(t: string)
    requires t == [] || !IsTrimmable(t[|t| - 1])
    ensures TrimEnd(t) == t
  {
  }

  /** Character.toLowerCase, for the ASCII letters. */
  function LowerChar(c: char): char {
    if 'A' <= c <= 'Z' then (c as int + 32) as char else c
  }

  /** Character.toUpperCase, for the ASCII letters. */
  function UpperChar(c: char): char {
    if 'a' <= c <= 'z' then (c as int - 32) as char else c
  }

  /** String.toLowerCase(), for the ASCII letters. */
  function ToLower(s: string): (r: string)
    ensures |r| == |s|
    ensures forall i :: 0 <= i < |s| ==> r[i] == LowerChar(s[i])
  {
    seq(|s|, i requires 0 <= i < |s| => LowerChar(s[i]))
  }

  /** The per-character test of String.equalsIgnoreCase. */
  predicate CharEqualsIgnoreCase(a: char, b: char) {
    a == b || UpperChar(a) == UpperChar(b) || LowerChar(a) == LowerChar(b)
  }

  /** String.equalsIgnoreCase: same length, and each pair of characters equal up to case. */
  predicate EqualsIgnoreCase(a: string, b: string) {
    |a| == |b| && forall i :: 0 <= i < |a| ==> CharEqualsIgnoreCase(a[i], b[i])
  }

  /** Two strings are equal up to case exactly when their lower-case forms are equal. */
  lemma EqualsIgnoreCaseIsLowerEquality(a: string, b: string)
    ensures EqualsIgnoreCase(a, b) <==> ToLower(a) == ToLower(b)
  {
    if EqualsIgnoreCase(a, b) {
      forall i | 0 <= i < |a| ensures ToLower(a)[i] == ToLower(b)[i] {
        assert CharEqualsIgnoreCase(a[i], b[i]);
      }
    }
    if ToLower(a) == ToLower(b) {
      forall i | 0 <= i < |a| ensures CharEqualsIgnoreCase(a[i], b[i]) {
        assert LowerChar(a[i]) == ToLower(a)[i] == ToLower(b)[i] == LowerChar(b[i]);
      }
    }
  }

  /** Lower-casing leaves blanks alone, so it commutes with trimming a trimmed string. */
  lemma {:induction false} LowerOfTrimmedIsTrimmed(t: string)
    requires t == Trim(t)
    ensures Trim(ToLower(t)) == ToLower(t)
  {
    var l := ToLower(t);
    if |l| > 0 {
      assert !IsTrimmable(l[0]) && !IsTrimmable(l[|l| - 1]) by {
        assert l[0] == LowerChar(t[0]) && l[|l| - 1] == LowerChar(t[|t| - 1]);
      }
    }
    TrimStartStops(l);
    TrimEndStops(l);
  }

  lemma ToLowerIdempotent(s: string)
    ensures ToLower(ToLower(s)) == ToLower(s)
  {
  }

  /** String.startsWith. */
  predicate StartsWith(s: string, prefix: string) {
    |prefix| <= |s| && s[..|prefix|] == prefix
  }

  /** The items joined by the delimiter, with no delimiter before the first or after the last. */
  function Join(items: seq<string>, delim: char): (r: string)
    ensures |items| == 1 ==> r == items[0]
    ensures |items| > 1 ==> r == items[0] + [delim] + Join(items[1..], delim)
  {
    if |items| == 0 then ""
    else if |items| == 1 then items[0]
    else items[0] + [delim] + Join(items[1..], delim)
  }

  /** The number of delimiters in a join of delimiter-free items is one less than the items. */
  lemma {:induction false} JoinCount(items: seq<string>, delim: char)
    requires |items| > 0
    requires forall i :: 0 <= i < |items| ==> delim !in items[i]
    ensures multiset(Join(items, delim))[delim] == |items| - 1
  {
    if |items| > 1 {
      JoinCount(items[1..], delim);
      assert multiset(items[0])[delim] == 0;
      calc {
        multiset(Join(items, delim))[delim];
        multiset(items[0] + [delim] + Join(items[1..], delim))[delim];
        multiset(items[0])[delim] + multiset([delim])[delim] + multiset(Join(items[1..], delim))[delim];
        0 + 1 + (|items| - 2);
      }
    }
  }

  // ----- java.lang.Integer -----

  const MinInt: int := -0x8000_0000
  const MaxInt: int := 0x7fff_ffff

  predicate IsDigit(c: char) { '0' <= c <= '9' }

  function DigitValue(c: char): (d: nat)
    requires IsDigit(c)
    ensures d < 10
  {
    c as int - '0' as int
  }

  function DigitChar(d: nat): (c: char)
    requires d < 10
    ensures IsDigit(c) && DigitValue(c) == d
  {
    ('0' as int + d) as char
  }

  predicate AllDigits(s: string) { forall i :: 0 <= i < |s| ==> IsDigit(s[i]) }

  /** The value of a string of decimal digits, read left to right. */
  function DigitsValue(s: string): nat
    requires AllDigits(s)
  {
    if |s| == 0 then 0 else 10 * DigitsValue(s[..|s| - 1]) + DigitValue(s[|s| - 1])
  }

  /** Integer.toString for a non-negative value: its decimal digits, no leading zero. */
  function NatToString(n: nat): (r: string)
    ensures |r| > 0 && AllDigits(r)
    ensures |r| > 1 ==> r[0] != '0'
  {
    if n < 10 then [DigitChar(n)] else NatToString(n / 10) + [DigitChar(n % 10)]
  }

  /** Integer.toString: an optional minus sign, then the digits of the magnitude. */
  function IntToString(n: int): string {
    if n < 0 then "-" + NatToString(-n) else NatToString(n)
  }

  /**
   * Integer.parseInt (and new Integer(String)): an optional sign, then at
   * least one decimal digit, and a value within the 32-bit range.
   */
  function ParseInt(s: string): (r: Option<int>)
    ensures r.Some? ==> MinInt <= r.value <= MaxInt
    ensures r.Some? ==> |s| > 0
  {
    if |s| == 0 then None
    else
      var negative := s[0] == '-';
      var digits := if s[0] == '-' || s[0] == '+' then s[1..] else s;
      if |digits| == 0 || !AllDigits(digits) then None
      else
        var v: int := if negative then 0 - DigitsValue(digits) else DigitsValue(digits);
        if MinInt <= v <= MaxInt then Some(v) else None
  }

  lemma {:induction false} DigitsOfNatToString(n: nat)
    ensures DigitsValue(NatToString(n)) == n
  {
    var r := NatToString(n);
    if n >= 10 {
      DigitsOfNatToString(n / 10);
      assert r[..|r| - 1] == NatToString(n / 10);
    }
  }

  /** Integer.parseInt reads back every 32-bit value Integer.toString writes. */
  lemma ParseIntToString(n: int)
    requires MinInt <= n <= MaxInt
    ensures ParseInt(IntToString(n)) == Some(n)
  {
    if n < 0 {
      DigitsOfNatToString(-n);
      assert IntToString(n)[1..] == NatToString(-n);
    } else {
      DigitsOfNatToString(n);
      assert NatToString(n)[0] != '-' && NatToString(n)[0] != '+';
    }
  }

  /** Two decimal digits parse to their two-digit value. */
  lemma ParseTwoDigits(s: string)
    requires |s| == 2 && AllDigits(s)
    ensures ParseInt(s) == Some(10 * DigitValue(s[0]) + DigitValue(s[1]))
  {
    assert s[0] != '-' && s[0] != '+';
    assert s[..1][..0] == [];
    assert DigitsValue(s[..1]) == DigitValue(s[0]);
    assert DigitsValue(s) == 10 * DigitValue(s[0]) + DigitValue(s[1]);
  }
}
