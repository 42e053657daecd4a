/** The bits of a key, first to last, and how they agree with the order of keys. */
module Bits {
  import opened Prelude
  import opened Types
  import opened Orders

  const DEPTH: nat := 256

  /** Shifting right is halving. */
  function Shifted(b: nat, places: nat): nat {
    if places == 0 then b else Shifted(b, places - 1) / 2
  }

  /** Shifting left is doubling. */
  function Scaled(n: nat, places: nat): nat {
    if places == 0 then n else 2 * Scaled(n, places - 1)
  }

  /** Bit `index` of a digest, from the most significant bit of byte 0; past the end, unset. */
  predicate Bit(h: Hash, index: nat) {
    index < DEPTH && Shifted(h.bytes[index / 8], 7 - index % 8) % 2 == 1
  }

  /** The number the first `depth` bits spell. */
  function Prefix(h: Hash, depth: nat): nat {
    if depth == 0 then 0 else 2 * Prefix(h, depth - 1) + if Bit(h, depth - 1) then 1 else 0
  }

  lemma ByteWidth(b: u8)
    ensures Shifted(b, 8) == 0
  {
    assert Shifted(b, 2) == Shifted(b, 1) / 2 < 64;
    assert Shifted(b, 4) == Shifted(b, 3) / 2 < 16;
    assert Shifted(b, 6) == Shifted(b, 5) / 2 < 4;
  }

  lemma NoShift(b: u8)
    ensures Shifted(b, 0) == b
  {
  }

  lemma ByteScale(n: nat)
    ensures Scaled(n, 8) == 256 * n
  {
    assert Scaled(n, 2) == 2 * Scaled(n, 1) == 4 * n;
    assert Scaled(n, 4) == 2 * Scaled(n, 3) == 16 * n;
    assert Scaled(n, 6) == 2 * Scaled(n, 5) == 64 * n;
  }

  /** The first bits of a byte, after what the bytes before it spell. */
  lemma {:induction false} PrefixWithinByte(h: Hash, k: nat, bits: nat)
    requires k < 32 && bits <= 8
    ensures Prefix(h, 8 * k + bits) == Scaled(Prefix(h, 8 * k), bits) + Shifted(h.bytes[k], 8 - bits)
    decreases bits
  {
    if bits == 0 {
      ByteWidth(h.bytes[k]);
    } else {
      PrefixWithinByte(h, k, bits - 1);
      var i := 8 * k + bits - 1;
      assert i / 8 == k && 7 - i % 8 == 8 - bits;
      assert Shifted(h.bytes[k], 9 - bits) == Shifted(h.bytes[k], 8 - bits) / 2;
    }
  }

  /** Whole bytes of bits spell what the bytes spell. */
  lemma {:induction false} PrefixOfBytes(h: Hash, k: nat)
    requires k <= 32
    ensures Prefix(h, 8 * k) == Spelled(h.bytes[..k])
  {
    if k == 0 {
      assert h.bytes[..0] == [];
    } else {
      hide Prefix, Scaled, Shifted;
      PrefixOfBytes(h, k - 1);
      PrefixWithinByte(h, k - 1, 8);
      ByteScale(Prefix(h, 8 * (k - 1)));
      NoShift(h.bytes[k - 1]);
      assert h.bytes[..k][..k - 1] == h.bytes[..k - 1];
    }
  }

  /** All the bits of a key spell its rank, so they determine it. */
  lemma AllBits(h: Hash)
    ensures Prefix(h, DEPTH) == RankHash(h)
  {
    PrefixOfBytes(h, 32);
    assert h.bytes[..32] == h.bytes;
  }

  lemma {:induction false} PrefixMonotone(a: Hash, b: Hash, depth: nat, more: nat)
    requires Prefix(a, depth + more) <= Prefix(b, depth + more)
    ensures Prefix(a, depth) <= Prefix(b, depth)
    decreases more
  {
    if more != 0 {
      PrefixMonotone(a, b, depth, more - 1);
    }
  }

  lemma RankOrdersPrefixes(a: Hash, b: Hash, depth: nat)
    requires depth <= DEPTH && RankHash(a) <= RankHash(b)
    ensures Prefix(a, depth) <= Prefix(b, depth)
  {
    AllBits(a);
    AllBits(b);
    PrefixMonotone(a, b, depth, DEPTH - depth);
  }

  /** Two keys agree on their first bits exactly when those bits spell the same number. */
  lemma {:induction false} PrefixIsBits(a: Hash, b: Hash, depth: nat)
    ensures Prefix(a, depth) == Prefix(b, depth) <==> forall i: nat :: i < depth ==> (Bit(a, i) <==> Bit(b, i))
  {
    if depth != 0 {
      PrefixIsBits(a, b, depth - 1);
    }
  }

  /** Among keys with the same first bits, those whose next bit is unset come first. */
  lemma BitsFollowOrder(a: Hash, b: Hash, depth: nat)
    requires depth < DEPTH && RankHash(a) <= RankHash(b)
    requires Prefix(a, depth) == Prefix(b, depth)
    ensures Bit(a, depth) ==> Bit(b, depth)
  {
    RankOrdersPrefixes(a, b, depth + 1);
  }

  /** Byte strings compared the way arrays of bytes are: at the first difference. */
  predicate Before(a: seq<u8>, b: seq<u8>)
    requires |a| == |b|
  {
    a != [] && (a[0] < b[0] || (a[0] == b[0] && Before(a[1..], b[1..])))
  }

  lemma {:induction false} BeforeAtTheEnd(a: seq<u8>, b: seq<u8>)
    requires |a| == |b| && a != []
    ensures var n := |a| - 1; Before(a, b) <==> Before(a[..n], b[..n]) || (a[..n] == b[..n] && a[n] < b[n])
    decreases |a|
  {
    var n := |a| - 1;
    if n == 0 {
      assert a[..n] == [] && b[..n] == [];
    } else {
      BeforeAtTheEnd(a[1..], b[1..]);
      assert a[1..][..n - 1] == a[..n][1..] && b[1..][..n - 1] == b[..n][1..];
      assert a[..n] == [a[0]] + a[..n][1..] && b[..n] == [b[0]] + b[..n][1..];
    }
  }

  /** The order of keys as bytes is the order of the numbers they spell. */
  lemma {:induction false} OrderIsNumeric(a: seq<u8>, b: seq<u8>)
    requires |a| == |b|
    ensures Before(a, b) <==> Spelled(a) < Spelled(b)
    decreases |a|
  {
    if a != [] {
      var n := |a| - 1;
      OrderIsNumeric(a[..n], b[..n]);
      OrderIsNumeric(b[..n], a[..n]);
      BeforeAtTheEnd(a, b);
      if Spelled(a[..n]) == Spelled(b[..n]) {
        SpelledInjective(a[..n], b[..n]);
      }
    }
  }
}
