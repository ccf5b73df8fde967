/** Hex text of a byte string, as the audit database keeps its chain cursor. */
module Hex {

  type byte = x: int | 0 <= x < 256
  type Blob = seq<byte>

  const HEX: string := "0123456789abcdef"

  function NibbleOf(c: char): (v: int)
    ensures -1 <= v < 16
  {
    if '0' <= c <= '9' then c as int - '0' as int
    else if 'a' <= c <= 'f' then c as int - 'a' as int + 10
    else if 'A' <= c <= 'F' then c as int - 'A' as int + 10
    else -1
  }

  /** A character a reader of hex accepts. */
  predicate IsHex(c: char) {
    NibbleOf(c) >= 0
  }

  predicate AllHex(s: string) {
    forall i | 0 <= i < |s| :: IsHex(s[i])
  }

  function HexPair(x: byte): (s: string)
    ensures |s| == 2
  {
    [HEX[x / 16], HEX[x % 16]]
  }

  function ByteOf(hi: char, lo: char): byte
    requires IsHex(hi) && IsHex(lo)
  {
    NibbleOf(hi) * 16 + NibbleOf(lo)
  }

  function Encoded(b: Blob): (s: string)
    ensures |s| == 2 * |b|
  {
    if b == [] then []
    else Encoded(b[..|b| - 1]) + HexPair(b[|b| - 1])
  }

  function Pairs(s: string): (b: Blob)
    requires |s| % 2 == 0 && AllHex(s)
    ensures |b| == |s| / 2
  {
    if s == [] then []
    else
      var n := |s|;
      Pairs(s[..n - 2]) + [ByteOf(s[n - 2], s[n - 1])]
  }

  /** What the text says; an odd length or a foreign character reads as nothing at all. */
  function Decoded(s: string): Blob {
    if |s| % 2 == 0 && AllHex(s) then Pairs(s) else []
  }

  lemma HexPairReads(x: byte)
    ensures AllHex(HexPair(x)) && IsHex(HexPair(x)[0]) && IsHex(HexPair(x)[1])
    ensures ByteOf(HexPair(x)[0], HexPair(x)[1]) == x
  {
    NibbleOfDigit(x / 16);
    NibbleOfDigit(x % 16);
  }

  lemma NibbleOfDigit(d: nat)
    requires d < 16
    ensures NibbleOf(HEX[d]) == d
  {
  }

  lemma NoPairs()
    ensures Pairs([]) == []
  {
  }

  lemma {:induction false} PairsOfEncoded(b: Blob)
    ensures AllHex(Encoded(b)) && Pairs(Encoded(b)) == b
  {
    hide ByteOf, HexPair, Pairs, IsHex;
    NoPairs();
    if b != [] {
      var front, x := b[..|b| - 1], b[|b| - 1];
      PairsOfEncoded(front);
      HexPairReads(x);
      PairsStep(Encoded(front), HexPair(x));
      assert b == front + [x];
    }
  }

  lemma PairsStep(s: string, p: string)
    requires |s| % 2 == 0 && |p| == 2 && AllHex(s) && AllHex(p)
    ensures AllHex(s + p) && IsHex(p[0]) && IsHex(p[1])
    ensures Pairs(s + p) == Pairs(s) + [ByteOf(p[0], p[1])]
  {
    assert (s + p)[..|s|] == s;
    assert p == [p[0], p[1]];
  }

  /** The cursor survives its text: what is written as hex is read back byte for byte. */
  lemma RoundTrip(b: Blob)
    ensures Decoded(Encoded(b)) == b
  {
    PairsOfEncoded(b);
  }

  method ToHex(b: Blob) returns (s: string)
    ensures s == Encoded(b)
    ensures |s| == 2 * |b|
    ensures forall i | 0 <= i < |b| ::
              s[2 * i] == "0123456789abcdef"[b[i] / 16] && s[2 * i + 1] == "0123456789abcdef"[b[i] % 16]
  {
    s := [];
    for i := 0 to |b|
      invariant s == Encoded(b[..i]) && |s| == 2 * i
      invariant forall k | 0 <= k < i :: s[2 * k] == HEX[b[k] / 16] && s[2 * k + 1] == HEX[b[k] % 16]
    {
      s := s + [HEX[b[i] / 16]];
      s := s + [HEX[b[i] % 16]];
      assert b[..i + 1][..i] == b[..i];
      assert s == Encoded(b[..i]) + HexPair(b[i]);
    }
    assert b[..|b|] == b;
  }

  lemma ForeignCharacter(s: string, i: nat)
    requires i < |s| && !IsHex(s[i])
    ensures Decoded(s) == []
  {
    assert !AllHex(s);
  }

  /** Which characters are read, and as what: both cases of the sixteen digits. */
  lemma NibblesMean(v: nat, c: char)
    ensures v < 16 ==> NibbleOf("0123456789abcdef"[v]) == v && NibbleOf("0123456789ABCDEF"[v]) == v
    ensures IsHex(c) <==> c in "0123456789abcdefABCDEF"
  {
    if v < 16 {
      NibbleOfDigit(v);
    }
    if IsHex(c) {
      var n := NibbleOf(c);
      assert c == "0123456789abcdefABCDEF"[if c < 'a' && c >= 'A' then n + 6 else n];
    }
  }

  lemma {:induction false} PairsAt(s: string, i: nat)
    requires |s| % 2 == 0 && AllHex(s) && i < |s| / 2
    ensures Pairs(s)[i] == NibbleOf(s[2 * i]) * 16 + NibbleOf(s[2 * i + 1])
  {
    var n := |s|;
    if i < n / 2 - 1 {
      PairsAt(s[..n - 2], i);
    }
  }

  /** A text of an even number of such characters reads as one byte for each two, the high half
      first; any other text reads as nothing. */
  lemma DecodedMeans(s: string)
    ensures |s| % 2 != 0 || !(forall i | 0 <= i < |s| :: s[i] in "0123456789abcdefABCDEF") ==> Decoded(s) == []
    ensures |s| % 2 == 0 && (forall i | 0 <= i < |s| :: s[i] in "0123456789abcdefABCDEF") ==>
              && |Decoded(s)| == |s| / 2
              && (forall i | 0 <= i < |s| / 2 :: Decoded(s)[i] == NibbleOf(s[2 * i]) * 16 + NibbleOf(s[2 * i + 1]))
  {
    hide Pairs, NibbleOf;
    forall i | 0 <= i < |s| ensures IsHex(s[i]) <==> s[i] in "0123456789abcdefABCDEF" {
      NibblesMean(0, s[i]);
    }
    if |s| % 2 == 0 && AllHex(s) {
      forall i | 0 <= i < |s| / 2 ensures Decoded(s)[i] == NibbleOf(s[2 * i]) * 16 + NibbleOf(s[2 * i + 1]) {
        PairsAt(s, i);
      }
    }
  }

  method FromHex(s: string) returns (out: Blob)
    ensures out == Decoded(s)
  {
    hide Pairs, NibbleOf;
    out := [];
    if |s| % 2 != 0 { return; }
    NoPairs();
    var i := 0;
    while i + 1 < |s|
      invariant 0 <= i <= |s| && i % 2 == 0
      invariant AllHex(s[..i])
      invariant out == Pairs(s[..i])
    {
      var hi := NibbleOf(s[i]);
      var lo := NibbleOf(s[i + 1]);
      if hi < 0 || lo < 0 {
        ForeignCharacter(s, if hi < 0 then i else i + 1);
        out := [];
        return;
      }
      var x: byte := hi * 16 + lo;
      out := out + [x];
      PairsStep(s[..i], [s[i], s[i + 1]]);
      assert s[..i + 2] == s[..i] + [s[i], s[i + 1]];
      i := i + 2;
    }
    assert s[..i] == s;
  }
}
