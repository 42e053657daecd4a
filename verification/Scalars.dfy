/** UTF-8 as section 3 of RFC 3629 defines it, and that text is exactly runs of encoded scalar values. */
module Scalars {
  import opened Codec

  /** A code point that is not a surrogate. */
  predicate IsScalar(c: nat) {
    c < 0xd800 || 0xe000 <= c < 0x11_0000
  }

  /** The one to four bytes of a scalar value: a lead byte, then six bits a byte, the high ones first. */
  function EncodedScalar(c: nat): (b: Bytes)
    requires IsScalar(c)
    ensures 1 <= |b| <= 4
  {
    if c < 0x80 then [c]
    else if c < 0x800 then [0xc0 + c / 0x40, 0x80 + c % 0x40]
    else if c < 0x1_0000 then [0xe0 + c / 0x1000, 0x80 + c / 0x40 % 0x40, 0x80 + c % 0x40]
    else [0xf0 + c / 0x4_0000, 0x80 + c / 0x1000 % 0x40, 0x80 + c / 0x40 % 0x40, 0x80 + c % 0x40]
  }

  ghost predicate AllScalars(cs: seq<nat>) {
    forall i :: 0 <= i < |cs| ==> IsScalar(cs[i])
  }

  function EncodedText(cs: seq<nat>): Bytes
    requires AllScalars(cs)
  {
    if cs == [] then [] else EncodedScalar(cs[0]) + EncodedText(cs[1..])
  }

  /** Six more bits. */
  function Widened(high: nat, low: nat): (n: nat)
    requires 0x80 <= low < 0xc0
    ensures n / 0x40 == high && 0x80 + n % 0x40 == low
  {
    0x40 * high + (low - 0x80)
  }

  /** The scalar value of a well-formed character. */
  function ScalarOf(b: Bytes): (c: nat)
    requires CharWidth(b) > 0
  {
    match CharWidth(b)
    case 1 => b[0]
    case 2 => Widened((b[0] as int) - 0xc0, b[1])
    case 3 => Widened(Widened((b[0] as int) - 0xe0, b[1]), b[2])
    case _ => Widened(Widened(Widened((b[0] as int) - 0xf0, b[1]), b[2]), b[3])
  }

  lemma Halving(n: nat)
    ensures n / 0x1000 == n / 0x40 / 0x40 && n / 0x4_0000 == n / 0x40 / 0x40 / 0x40
  {
  }

  lemma WidenedBounds(high: nat, low: nat, most: nat)
    requires 0x80 <= low < 0xc0
    ensures 0x40 * high <= Widened(high, low) < 0x40 * high + 0x40
    ensures most <= low ==> Widened(high, low) >= 0x40 * high + (most - 0x80)
    ensures low < most ==> Widened(high, low) < 0x40 * high + (most - 0x80)
  {
  }

  lemma TwoBytes(b: Bytes)
    requires CharWidth(b) == 2
    ensures IsScalar(ScalarOf(b)) && EncodedScalar(ScalarOf(b)) == b[..2]
  {
    hide Widened;
    WidenedBounds((b[0] as int) - 0xc0, b[1], 0x80);
    assert b[..2] == [b[0], b[1]];
  }

  lemma ThreeBytes(b: Bytes)
    requires CharWidth(b) == 3
    ensures IsScalar(ScalarOf(b)) && EncodedScalar(ScalarOf(b)) == b[..3]
  {
    hide Widened;
    var lead: nat := (b[0] as int) - 0xe0;
    var high := Widened(lead, b[1]);
    WidenedBounds(lead, b[1], 0xa0);
    WidenedBounds(high, b[2], 0x80);
    Halving(ScalarOf(b));
    assert b[..3] == [b[0], b[1], b[2]];
  }

  lemma FourBytes(b: Bytes)
    requires CharWidth(b) == 4
    ensures IsScalar(ScalarOf(b)) && EncodedScalar(ScalarOf(b)) == b[..4]
  {
    hide Widened;
    var lead: nat := (b[0] as int) - 0xf0;
    var high := Widened(lead, b[1]);
    WidenedBounds(lead, b[1], 0x90);
    WidenedBounds(high, b[2], 0x80);
    WidenedBounds(Widened(high, b[2]), b[3], 0x80);
    Halving(ScalarOf(b));
    assert b[..4] == [b[0], b[1], b[2], b[3]];
  }

  lemma WellFormedIsScalar(b: Bytes)
    requires CharWidth(b) > 0
    ensures IsScalar(ScalarOf(b)) && EncodedScalar(ScalarOf(b)) == b[..CharWidth(b)]
  {
    if CharWidth(b) == 1 {
      assert b[..1] == [b[0]];
    } else if CharWidth(b) == 2 {
      TwoBytes(b);
    } else if CharWidth(b) == 3 {
      ThreeBytes(b);
    } else {
      FourBytes(b);
    }
  }

  lemma ScalarIsWellFormed(c: nat, rest: Bytes)
    requires IsScalar(c)
    ensures CharWidth(EncodedScalar(c) + rest) == |EncodedScalar(c)|
  {
  }

  lemma {:induction false} EncodedIsUtf8(cs: seq<nat>)
    requires AllScalars(cs)
    ensures IsUtf8(EncodedText(cs))
  {
    if cs != [] {
      hide EncodedScalar, CharWidth;
      var first, rest := EncodedScalar(cs[0]), EncodedText(cs[1..]);
      ScalarIsWellFormed(cs[0], rest);
      EncodedIsUtf8(cs[1..]);
      assert (first + rest)[|first|..] == rest;
    }
  }

  lemma {:induction false} Utf8IsEncoded(b: Bytes) returns (cs: seq<nat>)
    requires IsUtf8(b)
    ensures AllScalars(cs) && EncodedText(cs) == b
    decreases |b|
  {
    hide EncodedScalar, CharWidth, ScalarOf, IsScalar;
    if b == [] {
      cs := [];
    } else {
      var n := CharWidth(b);
      WellFormedIsScalar(b);
      var rest := Utf8IsEncoded(b[n..]);
      cs := [ScalarOf(b)] + rest;
      assert cs[1..] == rest && b == b[..n] + b[n..];
    }
  }

  /** Bytes are text exactly when they are the encodings of some scalar values, one after another. */
  lemma TextExactly(b: Bytes)
    ensures IsUtf8(b) <==> exists cs :: AllScalars(cs) && EncodedText(cs) == b
  {
    hide IsUtf8, EncodedText, AllScalars;
    if IsUtf8(b) {
      var cs := Utf8IsEncoded(b);
    }
    if cs :| AllScalars(cs) && EncodedText(cs) == b {
      EncodedIsUtf8(cs);
    }
  }
}
