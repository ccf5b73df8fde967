/** Decimal text of an integer: std::to_string and the integer form of a JSON dump. */
module Decimal {

  const DIGITS: string := "0123456789"

  predicate IsDigit(c: char) {
    '0' <= c <= '9'
  }

  /** The characters an integer's text is made of. */
  predicate IsNumberChar(c: char) {
    IsDigit(c) || c == '-'
  }

  function Digits(n: nat): (s: string)
    ensures |s| > 0
  {
    if n < 10 then [DIGITS[n]] else Digits(n / 10) + [DIGITS[n % 10]]
  }

  function Text(i: int): (s: string)
    ensures |s| > 0
  {
    if i < 0 then "-" + Digits(-i) else Digits(i)
  }

  /** Reads a run of digits back, most significant first. */
  function Value(s: string): int {
    if s == [] then 0
    else Value(s[..|s| - 1]) * 10 + (s[|s| - 1] as int - '0' as int)
  }

  function Parsed(s: string): int {
    if s != [] && s[0] == '-' then -Value(s[1..]) else Value(s)
  }

  lemma {:induction false} DigitsAreDigits(n: nat)
    ensures forall c | c in Digits(n) :: IsDigit(c)
  {
    if n >= 10 {
      DigitsAreDigits(n / 10);
    }
  }

  lemma TextIsNumber(i: int)
    ensures forall c | c in Text(i) :: IsNumberChar(c)
  {
    if i < 0 { DigitsAreDigits(-i); } else { DigitsAreDigits(i); }
  }

  lemma {:induction false} ValueOfDigits(n: nat)
    ensures Value(Digits(n)) == n
  {
    if n >= 10 {
      ValueOfDigits(n / 10);
      var s := Digits(n);
      assert s[..|s| - 1] == Digits(n / 10);
    } else {
      assert Digits(n)[..0] == [];
    }
  }

  /** Nothing is lost in the text of an integer. */
  lemma ParsedText(i: int)
    ensures Parsed(Text(i)) == i
  {
    var n := if i < 0 then -i else i;
    var s := Digits(n);
    ValueOfDigits(n);
    DigitsAreDigits(n);
    assert s[0] in s;
    assert ("-" + s)[1..] == s;
  }

  lemma TextInjective(a: int, b: int)
    requires Text(a) == Text(b)
    ensures a == b
  {
    ParsedText(a);
    ParsedText(b);
  }

  /** Digit by digit: no leading zeros, no sign but the minus of a negative number. */
  lemma TextMeans(i: int)
    ensures 0 <= i < 10 ==> Text(i) == ["0123456789"[i]]
    ensures i >= 10 ==> Text(i) == Text(i / 10) + ["0123456789"[i % 10]]
    ensures i < 0 ==> Text(i) == "-" + Text(-i)
  {
  }

  /** Two runs of number characters, each closed by some other character, can only spell
      the same text when they are the same run. */
  lemma {:induction false} RunEndsOnce(x: string, y: string, d: char, e: char, r: string, q: string)
    requires forall c | c in x :: IsNumberChar(c)
    requires forall c | c in y :: IsNumberChar(c)
    requires !IsNumberChar(d) && !IsNumberChar(e)
    requires x + [d] + r == y + [e] + q
    ensures x == y && d == e && r == q
  {
    var s, t := x + [d] + r, y + [e] + q;
    assert s[|x|] == d && t[|y|] == e;
    assert forall k | 0 <= k < |x| :: s[k] == x[k] && x[k] in x;
    assert forall k | 0 <= k < |y| :: t[k] == y[k] && y[k] in y;
    assert |x| == |y|;
    assert s[..|x|] == x && t[..|y|] == y;
    assert s[|x| + 1..] == r && t[|y| + 1..] == q;
  }

  /** An integer's text followed by a character no number contains is read in one way. */
  lemma SelfDelimiting(a: int, b: int, d: char, e: char, r: string, q: string)
    requires !IsNumberChar(d) && !IsNumberChar(e)
    requires Text(a) + [d] + r == Text(b) + [e] + q
    ensures a == b && d == e && r == q
  {
    TextIsNumber(a);
    TextIsNumber(b);
    RunEndsOnce(Text(a), Text(b), d, e, r, q);
    TextInjective(a, b);
  }
}
