/** Integers as text, as Python's `str` and `int` have them: `int` takes surrounding white
    space, a sign, leading zeros and single underscores between digits. */
module Decimal {
  import opened Common
  import opened Text

  predicate IsDigit(c: char) {
    '0' <= c <= '9'
  }

  function DigitChar(d: nat): char
    requires d < 10
  {
    '0' + d as char
  }

  function DigitValue(c: char): nat
    requires IsDigit(c)
  {
    (c - '0') as nat
  }

  function PrintNat(n: nat): (s: string)
    ensures s != "" && forall c | c in s :: IsDigit(c)
  {
    if n < 10 then [DigitChar(n)] else PrintNat(n / 10) + [DigitChar(n % 10)]
  }

  /** `str(i)` */
  function Print(i: int): string {
    if i < 0 then "-" + PrintNat(-i) else PrintNat(i)
  }

  function ParseDigits(s: string): Option<nat> {
    if s == "" || !IsDigit(s[|s| - 1]) then None
    else
      var d := DigitValue(s[|s| - 1]);
      var front := s[..|s| - 1];
      if front == "" then Some(d)
      else
        var higher := if front[|front| - 1] == '_' then front[..|front| - 1] else front;
        match ParseDigits(higher)
        case None => None
        case Some(n) => Some(10 * n + d)
  }

  /** The separators U+001C to U+001F are spaces to `strip` but not to `int`. */
  predicate IsNumberSpace(c: char) {
    IsSpace(c) && !('\U{1C}' <= c <= '\U{1F}')
  }

  /** `int(s)`, with None for the ValueError. */
  function Parse(s: string): Option<int> {
    var t := StripBoth(s, IsNumberSpace);
    if t == "" then None
    else if t[0] == '-' then Signed(-1, ParseDigits(t[1..]))
    else Signed(1, ParseDigits(if t[0] == '+' then t[1..] else t))
  }

  function Signed(sign: int, digits: Option<nat>): Option<int> {
    match digits
    case None => None
    case Some(n) => Some(sign * n)
  }

  lemma {:induction false} ParsePrintNat(n: nat)
    ensures ParseDigits(PrintNat(n)) == Some(n)
  {
    if n >= 10 {
      ParsePrintNat(n / 10);
      var front := PrintNat(n / 10);
      assert PrintNat(n)[..|front|] == front;
      assert IsDigit(front[|front| - 1]);
    }
  }

  lemma DigitsAreTrimmed(digits: string)
    requires digits != "" && forall c | c in digits :: IsDigit(c)
    ensures StripBoth(digits, IsNumberSpace) == digits
    ensures StripBoth("-" + digits, IsNumberSpace) == "-" + digits
  {
    assert digits[0] in digits && digits[|digits| - 1] in digits;
    assert ("-" + digits)[|digits|] == digits[|digits| - 1];
    StripBothTrims(digits, IsNumberSpace);
    StripBothTrims("-" + digits, IsNumberSpace);
  }

  /** Whatever is printed is read back. */
  lemma ParsePrint(i: int)
    ensures Parse(Print(i)) == Some(i)
  {
    var n := if i < 0 then -i else i;
    var digits := PrintNat(n);
    assert digits[0] in digits;
    DigitsAreTrimmed(digits);
    ParsePrintNat(n);
    assert ("-" + digits)[1..] == digits;
  }

  // ---- Which texts are numbers -------------------------------------------------------------------

  /** Digits, with single underscores between them. */
  predicate IsNumeral(t: string) {
    && t != "" && IsDigit(t[0]) && IsDigit(t[|t| - 1])
    && (forall i | 0 <= i < |t| :: IsDigit(t[i]) || t[i] == '_')
    && (forall i | 0 <= i < |t| - 1 :: IsDigit(t[i]) || IsDigit(t[i + 1]))
  }

  /** What the digits are worth, the last one least; the underscores nothing. */
  function Worth(t: string): nat {
    if t == "" then 0
    else if IsDigit(t[|t| - 1]) then 10 * Worth(t[..|t| - 1]) + (t[|t| - 1] as int - '0' as int)
    else Worth(t[..|t| - 1])
  }

  lemma {:induction false} DigitsVerdict(t: string)
    ensures ParseDigits(t) == if IsNumeral(t) then Some(Worth(t)) else None
  {
    if t != "" && IsDigit(t[|t| - 1]) {
      var front := t[..|t| - 1];
      if front == "" {
        assert Worth(front) == 0;
      } else {
        var higher := if front[|front| - 1] == '_' then front[..|front| - 1] else front;
        DigitsVerdict(higher);
        assert Worth(front) == Worth(higher);
        NumeralWithoutLast(t, front, higher);
      }
    }
  }

  lemma NumeralWithoutLast(t: string, front: string, higher: string)
    requires |t| >= 2 && IsDigit(t[|t| - 1]) && front == t[..|t| - 1]
    requires higher == if front[|front| - 1] == '_' then front[..|front| - 1] else front
    ensures IsNumeral(t) <==> IsNumeral(higher)
  {
    if IsNumeral(higher) {
      assert forall i | 0 <= i < |higher| :: t[i] == higher[i];
      forall i | 0 <= i < |t| - 1 ensures IsDigit(t[i]) || IsDigit(t[i + 1]) {
        assert i < |higher| - 1 ==> IsDigit(higher[i]) || IsDigit(higher[i + 1]);
      }
    }
    if IsNumeral(t) {
      assert forall i | 0 <= i < |higher| :: t[i] == higher[i];
      forall i | 0 <= i < |higher| - 1 ensures IsDigit(higher[i]) || IsDigit(higher[i + 1]) {
        assert IsDigit(t[i]) || IsDigit(t[i + 1]);
      }
      assert IsDigit(t[|t| - 2]) || t[|t| - 2] == '_';
    }
  }

  /** A numeral with or without a sign, worth `i`. */
  predicate IsInteger(t: string, i: int) {
    && t != ""
    && if t[0] == '-' then IsNumeral(t[1..]) && -i == Worth(t[1..])
       else if t[0] == '+' then IsNumeral(t[1..]) && i == Worth(t[1..])
       else IsNumeral(t) && i == Worth(t)
  }

  ghost predicate IntegerWithin(s: string, left: string, t: string, right: string, i: int) {
    s == left + t + right && AllSpace(left, IsNumberSpace) && AllSpace(right, IsNumberSpace) && IsInteger(t, i)
  }

  /** The text is an integer with spaces around it. */
  ghost predicate Reads(s: string, i: int) {
    exists left, t, right :: IntegerWithin(s, left, t, right, i)
  }

  lemma CoreVerdict(s: string, i: int)
    ensures Parse(s) == Some(i) <==> IsInteger(StripBoth(s, IsNumberSpace), i)
  {
    var t := StripBoth(s, IsNumberSpace);
    if t != "" {
      DigitsVerdict(t);
      DigitsVerdict(t[1..]);
    }
  }

  lemma IntegersAreTrimmed(t: string, i: int)
    requires IsInteger(t, i)
    ensures Trimmed(t, IsNumberSpace)
  {
    assert t[0] in {'-', '+'} ==> t[1..][|t| - 2] == t[|t| - 1];
  }

  /** `int(s)` succeeds exactly on integers with spaces around them, and gives their worth. */
  lemma ParseVerdict(s: string, i: int)
    ensures Parse(s) == Some(i) <==> Reads(s, i)
  {
    CoreVerdict(s, i);
    var left := StripLeftCuts(s, IsNumberSpace);
    var right := StripRightCuts(StripLeft(s, IsNumberSpace), IsNumberSpace);
    assert s == left + StripBoth(s, IsNumberSpace) + right;
    if Parse(s) == Some(i) {
      assert IntegerWithin(s, left, StripBoth(s, IsNumberSpace), right, i);
    }
    if l, t, r :| IntegerWithin(s, l, t, r, i) {
      IntegersAreTrimmed(t, i);
      StripBothIs(l, t, r, IsNumberSpace);
    }
  }

  /** Digits only, none of them a zero in front of another. */
  predicate PlainDigits(t: string) {
    t != "" && (forall i | 0 <= i < |t| :: IsDigit(t[i])) && (|t| > 1 ==> t[0] != '0')
  }

  /** Plain digits, after a minus when they are not zero. */
  predicate IsPlain(s: string) {
    if s != "" && s[0] == '-' then PlainDigits(s[1..]) && s[1] != '0' else PlainDigits(s)
  }

  lemma {:induction false} PlainIsPositive(t: string)
    requires PlainDigits(t) && t[0] != '0'
    ensures Worth(t) > 0
  {
    if |t| > 1 {
      PlainIsPositive(t[..|t| - 1]);
    } else {
      assert Worth(t[..|t| - 1]) == 0;
    }
  }

  lemma {:induction false} PlainIsPrinted(t: string)
    requires PlainDigits(t)
    ensures t == PrintNat(Worth(t))
  {
    var front := t[..|t| - 1];
    if |t| == 1 {
      assert Worth(front) == 0;
    } else {
      PlainIsPositive(front);
      PlainIsPrinted(front);
    }
  }

  lemma {:induction false} PrintedIsPlain(n: nat)
    ensures PlainDigits(PrintNat(n)) && Worth(PrintNat(n)) == n
    ensures n > 0 ==> PrintNat(n)[0] != '0'
  {
    if n >= 10 {
      PrintedIsPlain(n / 10);
      var front := PrintNat(n / 10);
      assert PrintNat(n)[..|front|] == front;
    } else {
      assert Worth(PrintNat(n)[..0]) == 0;
    }
  }

  lemma PlainIsNumeral(t: string)
    requires PlainDigits(t)
    ensures IsNumeral(t)
  {
  }

  /** A number is printed as the one plain text worth it. */
  lemma PrintVerdict(i: int, s: string)
    ensures s == Print(i) <==> IsPlain(s) && IsInteger(s, i)
  {
    var n := if i < 0 then -i else i;
    var digits := PrintNat(n);
    PrintedIsPlain(n);
    PlainIsNumeral(digits);
    assert ("-" + digits)[1..] == digits;
    if IsPlain(s) && IsInteger(s, i) {
      var t := if s[0] == '-' then s[1..] else s;
      PlainIsPrinted(t);
      if s[0] == '-' {
        PlainIsPositive(t);
        assert s == "-" + t;
      }
    }
  }
}
