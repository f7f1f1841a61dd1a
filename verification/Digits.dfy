/** Printing a natural number in decimal, and Python's `int` on text. */
module Digits {
  import opened Rows

  predicate IsDigit(c: char) { '0' <= c <= '9' }

  predicate AllDigits(s: string) { forall i :: 0 <= i < |s| ==> IsDigit(s[i]) }

  predicate IsUpper(c: char) { 'A' <= c <= 'Z' }

  predicate AllUpper(s: string) { forall i :: 0 <= i < |s| ==> IsUpper(s[i]) }

  function DigitChar(d: int): (c: char)
    requires 0 <= d < 10
    ensures IsDigit(c) && DigitValue(c) == d
  {
    '0' + d as char
  }

  function DigitValue(c: char): (d: int)
    requires IsDigit(c)
    ensures 0 <= d < 10
  {
    c as int - '0' as int
  }

  function PrintNat(n: nat): (s: string)
    ensures s != "" && AllDigits(s)
  {
    if n < 10 then [DigitChar(n)] else PrintNat(n / 10) + [DigitChar(n % 10)]
  }

  function ParseDigits(s: string): nat
    requires AllDigits(s)
  {
    if s == "" then 0 else 10 * ParseDigits(s[..|s| - 1]) + DigitValue(s[|s| - 1])
  }

  lemma {:induction false} ParsePrint(n: nat)
    ensures ParseDigits(PrintNat(n)) == n
  {
    var s := PrintNat(n);
    if n < 10 {
      assert s[..0] == "";
    } else {
      ParsePrint(n / 10);
      assert s[..|s| - 1] == PrintNat(n / 10);
    }
  }

  predicate IsSpace(c: char) { c == ' ' || '\t' <= c <= '\r' }

  function StripLeft(s: string): string {
    if s != "" && IsSpace(s[0]) then StripLeft(s[1..]) else s
  }

  function StripRight(s: string): string {
    if s != "" && IsSpace(s[|s| - 1]) then StripRight(s[..|s| - 1]) else s
  }

  /** Digits, with single underscores allowed between two of them. */
  function ParseGroups(s: string): Option<nat> {
    if s == "" || !IsDigit(s[|s| - 1]) then None
    else
      var d, rest := DigitValue(s[|s| - 1]), s[..|s| - 1];
      if rest == "" then Some(d)
      else
        var head := ParseGroups(if rest[|rest| - 1] == '_' then rest[..|rest| - 1] else rest);
        if head.None? then None else Some(10 * head.value + d)
  }

  function WithSign(sign: int, n: Option<nat>): Option<int> {
    if n.None? then None else Some(sign * n.value)
  }

  /** `int(text)`: surrounding space, one sign, digit groups; anything else raises. */
  function PyInt(s: string): Option<int> {
    var t := StripRight(StripLeft(s));
    if t == "" then None
    else if t[0] == '-' then WithSign(-1, ParseGroups(t[1..]))
    else WithSign(1, ParseGroups(if t[0] == '+' then t[1..] else t))
  }

  lemma {:induction false} GroupsOfDigits(s: string)
    requires s != "" && AllDigits(s)
    ensures ParseGroups(s) == Some(ParseDigits(s))
  {
    var rest := s[..|s| - 1];
    if rest != "" {
      GroupsOfDigits(rest);
      assert IsDigit(rest[|rest| - 1]);
    } else {
      assert ParseDigits(rest) == 0;
    }
  }

  /** `int(str(n)) == n`. */
  lemma PyIntPrint(n: nat)
    ensures PyInt(PrintNat(n)) == Some(n)
  {
    var s := PrintNat(n);
    assert IsDigit(s[0]) && IsDigit(s[|s| - 1]);
    assert StripLeft(s) == s && StripRight(s) == s;
    GroupsOfDigits(s);
    ParsePrint(n);
  }

  /** One sign is read through; two are not. */
  lemma PyIntSigned(n: int)
    ensures n >= 0 ==> PyInt("+" + PrintNat(n)) == Some(n) && PyInt("-" + PrintNat(n)) == Some(-n)
    ensures n >= 0 ==> PyInt("--" + PrintNat(n)) == None
  {
    if n >= 0 {
      var s := PrintNat(n);
      GroupsOfDigits(s);
      ParsePrint(n);
      Unpadded("-", s);
      Unpadded("+", s);
      Unpadded("--", s);
      assert ("-" + s)[1..] == s && ("+" + s)[1..] == s && ("--" + s)[1..] == "-" + s;
      DashIsNoDigit(s);
    }
  }

  lemma {:induction false} Unpadded(sign: string, s: string)
    requires sign != "" && !IsSpace(sign[0]) && s != "" && AllDigits(s)
    ensures StripRight(StripLeft(sign + s)) == sign + s
  {
    assert IsDigit((sign + s)[|sign + s| - 1]);
  }

  lemma {:induction false} DashIsNoDigit(s: string)
    requires s != "" && AllDigits(s)
    ensures ParseGroups("-" + s) == None
  {
    var t := "-" + s;
    assert t[..|t| - 1] == "-" + s[..|s| - 1];
    if |s| > 1 {
      DashIsNoDigit(s[..|s| - 1]);
      assert IsDigit(t[|t| - 2]);
    } else {
      assert t[..|t| - 1] == "-";
      assert ParseGroups("-") == None;
    }
  }

  function UpperChar(c: char): char { if 'a' <= c <= 'z' then c - 'a' + 'A' else c }

  /** `upper()` on ASCII text. */
  function Upper(s: string): (t: string)
    ensures |t| == |s| && forall i :: 0 <= i < |s| ==> t[i] == UpperChar(s[i])
  {
    seq(|s|, i requires 0 <= i < |s| => UpperChar(s[i]))
  }

  lemma UpperIsStable(s: string)
    requires forall i :: 0 <= i < |s| ==> IsUpper(s[i]) || IsDigit(s[i])
    ensures Upper(s) == s
  {
  }
}
