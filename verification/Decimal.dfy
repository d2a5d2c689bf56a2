/** Decimal numerals, as Python's `str`, the `03d` format and `int` write and read them. */
module Decimal {
  import opened Wrappers
  import opened Text

  predicate IsDigit(c: char) {
    '0' <= c <= '9'
  }

  function DigitValue(c: char): (d: nat)
    requires IsDigit(c)
    ensures d < 10
  {
    (c - '0') as nat
  }

  function Digit(d: nat): (c: char)
    requires d < 10
    ensures IsDigit(c) && DigitValue(c) == d
  {
    '0' + d as char
  }

  /** `str(n)` */
  function Print(n: nat): (s: string)
    ensures s != "" && forall i :: 0 <= i < |s| ==> IsDigit(s[i])
  {
    if n < 10 then [Digit(n)] else Print(n / 10) + [Digit(n % 10)]
  }

  function ZeroPad(s: string, width: nat): string
    decreases width - |s|
  {
    if |s| >= width then s else ZeroPad("0" + s, width)
  }

  /** `f"{n:03d}"`; the sign counts towards the width. */
  function Print03(n: int): string {
    if n < 0 then "-" + ZeroPad(Print(-n), 2) else ZeroPad(Print(n), 3)
  }

  /** The value of a numeral with one more digit. */
  function Extended(prefix: Option<nat>, c: char): Option<nat>
    requires IsDigit(c)
  {
    match prefix
    case Some(v) => Some(10 * v + DigitValue(c))
    case None => None
  }

  function DropSeparator(s: string): (r: string)
    requires s != ""
    ensures |r| <= |s| && (s[|s| - 1] != '_' ==> r == s)
  {
    if s[|s| - 1] == '_' then s[..|s| - 1] else s
  }

  /** Digits, with single underscores allowed between them. */
  function ParseNat(s: string): Option<nat> {
    if s == "" || !IsDigit(s[|s| - 1]) then None
    else
      var init, c := s[..|s| - 1], s[|s| - 1];
      if init == "" then Some(DigitValue(c)) else Extended(ParseNat(DropSeparator(init)), c)
  }

  /** `int(s)` on ASCII digits; None stands for the ValueError. */
  function ParseInt(s: string): Option<int> {
    var t := Strip(s);
    if t != "" && t[0] == '-' then
      match ParseNat(t[1..])
      case Some(v) => Some(0 - (v as int))
      case None => None
    else
      match ParseNat(if t != "" && t[0] == '+' then t[1..] else t)
      case Some(v) => Some(v)
      case None => None
  }

  lemma {:induction false} ParsePrint(n: nat)
    ensures ParseNat(Print(n)) == Some(n)
  {
    if n >= 10 {
      ParsePrint(n / 10);
      ParseSnoc(Print(n / 10), Digit(n % 10));
    }
  }

  lemma ParseSnoc(init: string, c: char)
    requires init != "" && IsDigit(init[|init| - 1]) && IsDigit(c)
    ensures ParseNat(init + [c]) == Extended(ParseNat(init), c)
  {
    var s := init + [c];
    assert s[..|s| - 1] == init && s[|s| - 1] == c;
    assert DropSeparator(init) == init;
  }

  /** A leading zero does not change the value of a run of digits. */
  lemma {:induction false} ParseLeadingZero(s: string)
    requires s != "" && forall i :: 0 <= i < |s| ==> IsDigit(s[i])
    ensures ParseNat("0" + s) == ParseNat(s)
    decreases |s|
  {
    var init, c := s[..|s| - 1], s[|s| - 1];
    assert s == init + [c];
    assert "0" + s == ("0" + init) + [c];
    ParseSnoc("0" + init, c);
    if init != "" {
      ParseLeadingZero(init);
      ParseSnoc(init, c);
    } else {
      assert "0" + init == "0";
    }
  }

  lemma {:induction false} ParsePadded(s: string, width: nat)
    requires s != "" && forall i :: 0 <= i < |s| ==> IsDigit(s[i])
    ensures ParseNat(ZeroPad(s, width)) == ParseNat(s)
    ensures ZeroPad(s, width) != "" && forall i :: 0 <= i < |ZeroPad(s, width)| ==> IsDigit(ZeroPad(s, width)[i])
    decreases width - |s|
  {
    if |s| < width {
      ParseLeadingZero(s);
      ParsePadded("0" + s, width);
    }
  }

  lemma StripNothing(s: string)
    requires s != "" && !IsSpace(s[0]) && !IsSpace(s[|s| - 1])
    ensures Strip(s) == s
  {
  }

  predicate AllDigits(s: string) {
    s != "" && forall i :: 0 <= i < |s| ==> IsDigit(s[i])
  }

  lemma ParseUnsigned(digits: string)
    requires AllDigits(digits) && ParseNat(digits).Some?
    ensures ParseInt(digits) == Some(ParseNat(digits).value)
  {
    StripNothing(digits);
  }

  lemma ParseNegative(digits: string)
    requires AllDigits(digits) && ParseNat(digits).Some?
    ensures ParseInt("-" + digits) == Some(0 - (ParseNat(digits).value as int))
  {
    var s := "-" + digits;
    assert s[1..] == digits && s[0] == '-' && s[|s| - 1] == digits[|digits| - 1];
    StripNothing(s);
  }

  lemma PaddedReads(n: nat, width: nat)
    ensures AllDigits(ZeroPad(Print(n), width)) && ParseNat(ZeroPad(Print(n), width)) == Some(n)
  {
    ParsePadded(Print(n), width);
    ParsePrint(n);
  }

  /** What `03d` prints, `int` reads back, for every integer. */
  lemma ParsePrint03(n: int)
    ensures ParseInt(Print03(n)) == Some(n)
  {
    if n < 0 {
      PaddedReads(-n, 2);
      ParseNegative(ZeroPad(Print(-n), 2));
    } else {
      PaddedReads(n, 3);
      ParseUnsigned(ZeroPad(Print(n), 3));
    }
  }

  lemma {:induction false} PrintLength(n: nat)
    ensures n < 10 ==> |Print(n)| == 1
    ensures 10 <= n < 100 ==> |Print(n)| == 2
    ensures 100 <= n < 1000 ==> |Print(n)| == 3
    ensures n >= 1000 ==> |Print(n)| > 3
  {
    if n >= 10 {
      PrintLength(n / 10);
    }
  }

  lemma {:induction false} ZeroPadLength(s: string, width: nat)
    ensures |ZeroPad(s, width)| == if |s| >= width then |s| else width
    ensures |s| >= width ==> ZeroPad(s, width) == s
    decreases width - |s|
  {
    if |s| < width {
      ZeroPadLength("0" + s, width);
    }
  }

  /** Three digits, with leading zeros, or as many more as the number has. */
  lemma Print03Width(n: int)
    ensures 0 <= n < 1000 ==> |Print03(n)| == 3
    ensures n >= 1000 ==> Print03(n) == Print(n) && |Print(n)| > 3
  {
    if n >= 0 {
      PrintLength(n);
      ZeroPadLength(Print(n), 3);
    }
  }

  /** A plus sign may stand in front. */
  lemma PlusSign(n: nat)
    ensures ParseInt("+" + Print(n)) == Some(n)
  {
    var s := Print(n);
    var t := "+" + s;
    assert !IsSpace(t[0]) && !IsSpace(t[|t| - 1]);
    assert Strip(t) == t;
    assert t[1..] == s;
    ParsePrint(n);
  }

  /** An underscore may stand between digits. */
  lemma SeparatorAllowed(init: string, c: char)
    requires init != "" && IsDigit(init[|init| - 1]) && IsDigit(c)
    ensures ParseNat(init + "_" + [c]) == ParseNat(init + [c])
  {
    ParseSnoc(init, c);
    var s := init + "_" + [c];
    assert s[..|s| - 1] == init + "_";
    assert (init + "_")[..|init|] == init;
  }
}
