/** Which byte strings are UTF-8 text as RFC 3629 has it, section 4: the JSON dump of a text
    throws on every other one. A `char` stands for one byte. */
module Utf8 {

  predicate Within(c: char, low: int, high: int) {
    low <= c as int <= high
  }

  predicate IsTail(c: char) {
    Within(c, 0x80, 0xBF)
  }

  /** The second byte a lead byte allows: neither overlong forms nor surrogates nor anything
      above U+10FFFF. */
  predicate IsSecond(lead: char, c: char) {
    if lead as int == 0xE0 then Within(c, 0xA0, 0xBF)
    else if lead as int == 0xED then Within(c, 0x80, 0x9F)
    else if lead as int == 0xF0 then Within(c, 0x90, 0xBF)
    else if lead as int == 0xF4 then Within(c, 0x80, 0x8F)
    else IsTail(c)
  }

  /** How many bytes a character with this lead byte takes; 0 if none starts with it. */
  function Width(lead: char): (n: nat)
    ensures n <= 4
  {
    if Within(lead, 0, 0x7F) then 1
    else if Within(lead, 0xC2, 0xDF) then 2
    else if Within(lead, 0xE0, 0xEF) then 3
    else if Within(lead, 0xF0, 0xF4) then 4
    else 0
  }

  /** The text starts with a whole character. */
  predicate Starts(s: string) {
    && s != [] && 0 < Width(s[0]) <= |s|
    && (Width(s[0]) > 1 ==> IsSecond(s[0], s[1]))
    && (Width(s[0]) > 2 ==> IsTail(s[2]))
    && (Width(s[0]) > 3 ==> IsTail(s[3]))
  }

  predicate Valid(s: string) {
    s == [] || (Starts(s) && Valid(s[Width(s[0])..]))
  }

  lemma StartsAgain(s: string, t: string)
    requires s != [] && Starts(s) && Width(s[0]) <= |t| && t[..Width(s[0])] == s[..Width(s[0])]
    ensures Starts(t) && t[0] == s[0]
  {
    var n := Width(s[0]);
    assert forall i | 0 <= i < n :: t[i] == t[..n][i] == s[..n][i] == s[i];
  }

  /** The bytes no text holds: C0, C1 and everything from F5 on. */
  predicate NeverUsed(c: char) {
    Within(c, 0xC0, 0xC1) || c as int >= 0xF5
  }

  lemma {:induction false} NoForeignByte(s: string, i: nat)
    requires Valid(s) && i < |s|
    ensures !NeverUsed(s[i])
  {
    var n := Width(s[0]);
    if i >= n {
      NoForeignByte(s[n..], i - n);
    }
  }

  lemma {:induction false} PlainIsValid(s: string)
    requires forall i | 0 <= i < |s| :: s[i] as int < 0x80
    ensures Valid(s)
  {
    if s != [] {
      PlainIsValid(s[1..]);
    }
  }

  // ---- what the definition means -----------------------------------------------------------

  /** A Unicode scalar value: a code point that is no surrogate. */
  type Scalar = x: int | 0 <= x < 0xD800 || 0xE000 <= x < 0x110000

  /** Its bytes: 7 bits in one, 11 in two, 16 in three, 21 in four, the most significant first. */
  function Encoded(x: Scalar): string {
    if x < 0x80 then [x as char]
    else if x < 0x800 then [(0xC0 + x / 0x40) as char, Tail(x)]
    else if x < 0x1_0000 then [(0xE0 + x / 0x40 / 0x40) as char, Tail(x / 0x40), Tail(x)]
    else [(0xF0 + x / 0x40 / 0x40 / 0x40) as char, Tail(x / 0x40 / 0x40), Tail(x / 0x40), Tail(x)]
  }

  /** The lowest six bits, in a byte that starts no character. */
  function Tail(x: nat): char {
    (0x80 + x % 0x40) as char
  }

  function AllEncoded(xs: seq<Scalar>): string {
    if xs == [] then [] else Encoded(xs[0]) + AllEncoded(xs[1..])
  }

  /** Six more bits. */
  function Joined(high: nat, c: char): nat
    requires IsTail(c)
  {
    high * 0x40 + (c as int - 0x80)
  }

  lemma JoinedSplits(high: nat, c: char)
    requires IsTail(c)
    ensures Joined(high, c) / 0x40 == high && Tail(Joined(high, c)) == c
  {
  }

  /** The scalar value a text starts with. */
  lemma FirstScalar(s: string) returns (x: Scalar)
    requires Starts(s)
    ensures Encoded(x) == s[..Width(s[0])]
  {
    var n := Width(s[0]);
    var lead := s[0] as int;
    if n == 1 {
      x := lead;
    } else {
      x := FirstOfMore(s);
    }
  }

  lemma FirstOfMore(s: string) returns (x: Scalar)
    requires Starts(s) && Width(s[0]) > 1
    ensures Encoded(x) == s[..Width(s[0])]
  {
    hide Joined, Tail;
    var n := Width(s[0]);
    var lead := s[0] as int;
    var a := Joined(lead - (if n == 2 then 0xC0 else if n == 3 then 0xE0 else 0xF0), s[1]);
    JoinedSplits(lead - (if n == 2 then 0xC0 else if n == 3 then 0xE0 else 0xF0), s[1]);
    if n == 2 {
      TwoBytes(s);
      x := a;
    } else {
      var b := Joined(a, s[2]);
      JoinedSplits(a, s[2]);
      if n == 3 {
        ThreeBytes(s);
        x := b;
      } else {
        JoinedSplits(b, s[3]);
        FourBytes(s);
        x := Joined(b, s[3]);
      }
    }
  }

  lemma TwoBytes(s: string)
    requires Starts(s) && Width(s[0]) == 2
    ensures 0x80 <= Joined(s[0] as int - 0xC0, s[1]) < 0x800
  {
  }

  lemma ThreeBytes(s: string)
    requires Starts(s) && Width(s[0]) == 3
    ensures var x := Joined(Joined(s[0] as int - 0xE0, s[1]), s[2]);
            0x800 <= x < 0x1_0000 && !(0xD800 <= x < 0xE000)
  {
  }

  lemma FourBytes(s: string)
    requires Starts(s) && Width(s[0]) == 4
    ensures var x := Joined(Joined(Joined(s[0] as int - 0xF0, s[1]), s[2]), s[3]);
            0x1_0000 <= x < 0x110000
  {
  }

  lemma EncodedStarts(x: Scalar, rest: string)
    ensures Starts(Encoded(x) + rest) && Width(Encoded(x)[0]) == |Encoded(x)|
    ensures (Encoded(x) + rest)[|Encoded(x)|..] == rest
  {
  }

  /** The valid texts are exactly the encodings of sequences of scalar values. */
  lemma {:induction false} ValidIsEncoded(s: string) returns (xs: seq<Scalar>)
    requires Valid(s)
    ensures AllEncoded(xs) == s
  {
    if s == [] {
      xs := [];
    } else {
      var n := Width(s[0]);
      var x := FirstScalar(s);
      var more := ValidIsEncoded(s[n..]);
      xs := [x] + more;
      OneMore(x, more);
      assert s == s[..n] + s[n..];
    }
  }

  lemma OneMore(x: Scalar, more: seq<Scalar>)
    ensures AllEncoded([x] + more) == Encoded(x) + AllEncoded(more)
  {
    assert ([x] + more)[1..] == more;
  }

  lemma {:induction false} EncodedIsValid(xs: seq<Scalar>)
    ensures Valid(AllEncoded(xs))
  {
    if xs != [] {
      EncodedIsValid(xs[1..]);
      EncodedStarts(xs[0], AllEncoded(xs[1..]));
    }
  }

  lemma ValidMeans(s: string)
    ensures Valid(s) <==> exists xs :: AllEncoded(xs) == s
  {
    if Valid(s) {
      var xs := ValidIsEncoded(s);
    }
    if xs :| AllEncoded(xs) == s {
      EncodedIsValid(xs);
    }
  }
}
