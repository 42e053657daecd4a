/** Regrouping bits: the same bits in groups of another width, padded with zeros. */
module BitGroups {
  import opened Prelude
  import opened Arithmetic
  import opened Bits

  datatype PaddingError = BadPadding

  const ACCUMULATOR_LIMIT: nat := 0x1_0000

  /** The low `width` bits of a number, most significant first. */
  function BitsOf(n: nat, width: nat): (bits: seq<bool>)
    ensures |bits| == width
  {
    if width == 0 then [] else BitsOf(n / 2, width - 1) + [n % 2 == 1]
  }

  /** The number some bits spell. */
  function NumberOf(bits: seq<bool>): nat {
    if bits == [] then 0 else 2 * NumberOf(bits[..|bits| - 1]) + if bits[|bits| - 1] then 1 else 0
  }

  function Zeros(n: nat): (bits: seq<bool>)
    ensures |bits| == n && (forall i :: 0 <= i < n ==> !bits[i])
  {
    if n == 0 then [] else Zeros(n - 1) + [false]
  }

  /** All the bits of some values, each `width` wide. */
  function Flattened(data: seq<nat>, width: nat): seq<bool> {
    if data == [] then [] else BitsOf(data[0], width) + Flattened(data[1..], width)
  }

  /** The whole groups of `width` bits, as numbers. */
  function Grouped(bits: seq<bool>, width: nat): seq<nat>
    requires width > 0
    decreases |bits|
  {
    if |bits| < width then [] else [NumberOf(bits[..width])] + Grouped(bits[width..], width)
  }

  /** The bits after the last whole group. */
  function Leftover(bits: seq<bool>, width: nat): (rest: seq<bool>)
    requires width > 0
    ensures |rest| < width
    decreases |bits|
  {
    if |bits| < width then bits else Leftover(bits[width..], width)
  }

  ghost predicate AllBelow(data: seq<nat>, limit: nat) {
    forall i :: 0 <= i < |data| ==> data[i] < limit
  }

  /** Padding completes a last partial group with zeros; without it the leftover is short and zero. */
  function Regrouped(data: seq<nat>, from: nat, to: nat, pad: bool): Result<seq<nat>, PaddingError>
    requires to > 0
  {
    var bits := Flattened(data, from);
    var rest := Leftover(bits, to);
    if pad then
      Success(Grouped(bits, to) + if rest == [] then [] else [NumberOf(rest + Zeros(to - |rest|))])
    else if |rest| >= from || true in rest then Failure(BadPadding)
    else Success(Grouped(bits, to))
  }

  // Bits and numbers

  lemma {:induction false} BitsOfNumber(bits: seq<bool>)
    ensures BitsOf(NumberOf(bits), |bits|) == bits
    ensures NumberOf(bits) < Scaled(1, |bits|)
  {
    if bits != [] {
      BitsOfNumber(bits[..|bits| - 1]);
    }
  }

  lemma {:induction false} NumberOfBits(n: nat, width: nat)
    requires n < Scaled(1, width)
    ensures NumberOf(BitsOf(n, width)) == n
  {
    if width > 0 {
      NumberOfBits(n / 2, width - 1);
      var bits := BitsOf(n, width);
      assert bits[..width - 1] == BitsOf(n / 2, width - 1);
    }
  }

  lemma {:induction false} ZeroBits(width: nat)
    ensures BitsOf(0, width) == Zeros(width)
  {
    if width > 0 {
      ZeroBits(width - 1);
    }
  }

  /** The high bits of a number are those of its quotient. */
  lemma {:induction false} BitsSplit(n: nat, high: nat, low: nat)
    ensures BitsOf(n, high + low) == BitsOf(Shifted(n, low), high) + BitsOf(n, low)
  {
    if low == 0 {
      assert Shifted(n, 0) == n && BitsOf(n, 0) == [];
    } else {
      assert BitsOf(n, high + low) == BitsOf(n / 2, high + (low - 1)) + [n % 2 == 1];
      assert BitsOf(n, low) == BitsOf(n / 2, low - 1) + [n % 2 == 1];
      hide BitsOf, Shifted;
      BitsSplit(n / 2, high, low - 1);
      ShiftedInside(n, low - 1);
    }
  }

  lemma {:induction false} ShiftedInside(n: nat, places: nat)
    ensures Shifted(n, places + 1) == Shifted(n / 2, places)
  {
    if places > 0 {
      ShiftedInside(n, places - 1);
    }
  }

  /** Appending a value's bits, as shifting it in does. */
  lemma {:induction false} BitsShiftedIn(n: nat, v: nat, kept: nat, width: nat)
    requires v < Scaled(1, width)
    ensures BitsOf(Scaled(n, width) + v, kept + width) == BitsOf(n, kept) + BitsOf(v, width)
    decreases width
  {
    if width > 0 {
      BitsShiftedIn(n, v / 2, kept, width - 1);
    }
  }

  /** Only the low bits matter: what a mask above them removes is never read. */
  lemma {:induction false} BitsMasked(n: nat, width: nat, places: nat)
    requires width <= places
    ensures Scaled(1, places) > 0 && BitsOf(n % Scaled(1, places), width) == BitsOf(n, width)
    decreases width
  {
    ScaledPositive(places);
    if width > 0 {
      MaskHalves(n, places - 1);
      BitsMasked(n / 2, width - 1, places - 1);
    }
  }

  lemma {:induction false} ScaledPositive(places: nat)
    ensures Scaled(1, places) > 0
  {
    if places > 0 {
      ScaledPositive(places - 1);
    }
  }

  lemma MaskHalves(n: nat, places: nat)
    ensures Scaled(1, places) > 0
    ensures n % Scaled(1, places + 1) / 2 == n / 2 % Scaled(1, places)
    ensures n % Scaled(1, places + 1) % 2 == n % 2
  {
    ScaledPositive(places);
    HalvedRemainder(n, Scaled(1, places));
  }

  lemma HalvedRemainder(n: nat, d: nat)
    requires d > 0
    ensures n % (2 * d) / 2 == n / 2 % d && n % (2 * d) % 2 == n % 2
  {
    var q, r := n / 2 / d, n / 2 % d;
    assert n / 2 == q * d + r;
    assert n == q * (2 * d) + (2 * r + n % 2);
    RemainderUnique(n, q, 2 * r + n % 2, 2 * d);
  }

  // Groups and values

  lemma {:induction false} FlattenedAppend(data: seq<nat>, v: nat, width: nat)
    ensures Flattened(data + [v], width) == Flattened(data, width) + BitsOf(v, width)
  {
    if data != [] {
      FlattenedAppend(data[1..], v, width);
      assert (data + [v])[1..] == data[1..] + [v];
    } else {
      assert (data + [v])[1..] == [];
      assert Flattened([], width) == [];
    }
  }

  /** One value in front: its bits are the first group. */
  lemma GroupInFront(v: nat, bits: seq<bool>, width: nat)
    requires width > 0 && v < Scaled(1, width)
    ensures Grouped(BitsOf(v, width) + bits, width) == [v] + Grouped(bits, width)
    ensures Leftover(BitsOf(v, width) + bits, width) == Leftover(bits, width)
  {
    hide Scaled, BitsOf, NumberOf;
    NumberOfBits(v, width);
    var all := BitsOf(v, width) + bits;
    assert all[..width] == BitsOf(v, width) && all[width..] == bits;
  }

  /** Grouping what follows whole groups. */
  lemma {:induction false} GroupedAfter(groups: seq<nat>, bits: seq<bool>, to: nat)
    requires to > 0 && AllBelow(groups, Scaled(1, to))
    ensures Grouped(Flattened(groups, to) + bits, to) == groups + Grouped(bits, to)
    ensures Leftover(Flattened(groups, to) + bits, to) == Leftover(bits, to)
    decreases |groups|
  {
    if groups == [] {
      assert Flattened(groups, to) + bits == bits;
    } else {
      assert Flattened(groups, to) + bits == BitsOf(groups[0], to) + (Flattened(groups[1..], to) + bits);
      hide Scaled, BitsOf, NumberOf, Flattened, Grouped, Leftover;
      GroupedAfter(groups[1..], bits, to);
      GroupInFront(groups[0], Flattened(groups[1..], to) + bits, to);
      assert groups == [groups[0]] + groups[1..];
    }
  }

  lemma NothingGrouped(bits: seq<bool>, to: nat)
    requires |bits| < to
    ensures Grouped(bits, to) == [] && Leftover(bits, to) == bits
  {
  }

  /** Grouping the bits of values gives the values, and leaves what follows them. */
  lemma GroupedFlattened(data: seq<nat>, width: nat, more: seq<bool>)
    requires width > 0 && AllBelow(data, Scaled(1, width)) && |more| < width
    ensures Grouped(Flattened(data, width) + more, width) == data
    ensures Leftover(Flattened(data, width) + more, width) == more
  {
    hide Scaled, Flattened, Grouped, Leftover;
    GroupedAfter(data, more, width);
    NothingGrouped(more, width);
    assert data + [] == data;
  }

  /** The groups spell the bits, up to what they leave over. */
  lemma {:induction false} FlattenedGrouped(bits: seq<bool>, width: nat)
    requires width > 0
    ensures Flattened(Grouped(bits, width), width) + Leftover(bits, width) == bits
    ensures AllBelow(Grouped(bits, width), Scaled(1, width))
    decreases |bits|
  {
    hide Scaled, BitsOf, NumberOf;
    if |bits| >= width {
      FlattenedGrouped(bits[width..], width);
      BitsOfNumber(bits[..width]);
      var groups := Grouped(bits, width);
      assert groups[1..] == Grouped(bits[width..], width);
      assert bits == bits[..width] + bits[width..];
    }
  }

  lemma {:induction false} FlattenedLength(data: seq<nat>, width: nat)
    ensures |Flattened(data, width)| == |data| * width
  {
    if data != [] {
      FlattenedLength(data[1..], width);
      OneMore(|data| - 1, width);
    }
  }

  lemma {:induction false} GroupedLength(bits: seq<bool>, width: nat)
    requires width > 0
    ensures |Grouped(bits, width)| == |bits| / width && |Leftover(bits, width)| == |bits| % width
  {
    hide Grouped, Leftover, Flattened;
    FlattenedGrouped(bits, width);
    FlattenedLength(Grouped(bits, width), width);
    RemainderUnique(|bits|, |Grouped(bits, width)|, |Leftover(bits, width)|, width);
  }

  /** One byte in two groups of five bits: the high five first, then the low three and two zeros. */
  lemma OneByteRegrouped(b: u8)
    ensures Regrouped([b], 8, 5, true) == Success([b / 8, b % 8 * 4])
  {
    assert Scaled(1, 3) == 2 * Scaled(1, 2) == 8 && Scaled(1, 5) == 4 * Scaled(1, 3);
    assert Shifted(b, 3) == Shifted(b, 1) / 4 == b / 8;
    hide BitsOf, NumberOf, Grouped, Leftover, Scaled, Shifted;
    var low := BitsOf(b, 3);
    BitsSplit(b, 5, 3);
    GroupInFront(b / 8, low, 5);
    NothingGrouped(low, 5);
    LowBitsShifted(b);
    NothingFlattened(8);
    assert [b][1..] == [] && Flattened([b], 8) == BitsOf(b, 8);
    assert Grouped(BitsOf(b, 8), 5) == [b / 8];
    assert low != [] && NumberOf(low + Zeros(5 - |low|)) == b % 8 * 4;
    assert [b / 8] + [b % 8 * 4] == [b / 8, b % 8 * 4];
  }

  lemma LowBitsShifted(b: u8)
    ensures NumberOf(BitsOf(b, 3) + Zeros(2)) == b % 8 * 4
  {
    assert Scaled(1, 3) == 2 * Scaled(1, 2) == 8 && Scaled(1, 5) == 4 * Scaled(1, 3);
    assert Scaled(b % 8, 2) == 2 * Scaled(b % 8, 1) == b % 8 * 4;
    hide BitsOf, NumberOf, Scaled;
    ScaledPositive(2);
    BitsMasked(b, 3, 3);
    BitsShiftedIn(b % 8, 0, 3, 2);
    ZeroBits(2);
    NumberOfBits(b % 8 * 4, 5);
  }

  /** Regrouping with padding and regrouping back without are inverse, and no other padding is accepted. */
  lemma PaddingIsExact(x: seq<nat>, y: seq<nat>, from: nat, to: nat)
    requires 0 < to <= from
    requires AllBelow(x, Scaled(1, from)) && AllBelow(y, Scaled(1, to))
    ensures Regrouped(x, from, to, true) == Success(y) <==> Regrouped(y, to, from, false) == Success(x)
  {
    if Regrouped(x, from, to, true) == Success(y) {
      PaddedComesBack(x, from, to);
    }
    if Regrouped(y, to, from, false) == Success(x) {
      UnpaddedGoesForth(y, from, to);
    }
  }

  lemma PaddedComesBack(x: seq<nat>, from: nat, to: nat)
    requires 0 < to <= from && AllBelow(x, Scaled(1, from))
    ensures Regrouped(x, from, to, true).Success?
    ensures Regrouped(Regrouped(x, from, to, true).value, to, from, false) == Success(x)
    ensures AllBelow(Regrouped(x, from, to, true).value, Scaled(1, to))
  {
    hide Scaled, BitsOf, NumberOf, Flattened, Grouped, Leftover, Zeros;
    var bits, groups, rest := Flattened(x, from), Grouped(Flattened(x, from), to), Leftover(Flattened(x, from), to);
    FlattenedGrouped(bits, to);
    if rest == [] {
      assert Flattened(groups, to) == bits + [];
      assert groups + [] == groups;
      GroupedFlattened(x, from, []);
    } else {
      var zeros := Zeros(to - |rest|);
      var last := NumberOf(rest + zeros);
      FlattenedAppend(groups, last, to);
      BitsOfNumber(rest + zeros);
      assert Flattened(groups + [last], to) == bits + zeros;
      GroupedFlattened(x, from, zeros);
    }
  }

  lemma UnpaddedGoesForth(y: seq<nat>, from: nat, to: nat)
    requires 0 < to <= from && AllBelow(y, Scaled(1, to))
    requires Regrouped(y, to, from, false).Success?
    ensures Regrouped(Regrouped(y, to, from, false).value, from, to, true) == Success(y)
  {
    hide Scaled, BitsOf, NumberOf, Flattened, Grouped, Leftover, Zeros;
    var bits := Flattened(y, to);
    var x, rest := Grouped(bits, from), Leftover(bits, from);
    FlattenedGrouped(bits, from);
    if rest == [] {
      assert Flattened(x, from) == bits;
      assert bits + [] == bits;
      GroupedFlattened(y, to, []);
      assert y + [] == y;
    } else {
      NothingFlattened(to);
      PartialGroup(y, Flattened(x, from), rest, to);
    }
  }

  /** Bits that lack a few zeros of being whole groups are the groups, once padded. */
  lemma PartialGroup(y: seq<nat>, bits: seq<bool>, rest: seq<bool>, to: nat)
    requires y != [] && 0 < |rest| < to && true !in rest && AllBelow(y, Scaled(1, to))
    requires bits + rest == Flattened(y, to)
    ensures 0 < |Leftover(bits, to)|
    ensures Grouped(bits, to) + [NumberOf(Leftover(bits, to) + Zeros(to - |Leftover(bits, to)|))] == y
  {
    hide Scaled, BitsOf, NumberOf, Flattened, Grouped, Leftover, Zeros;
    var n := |y| - 1;
    assert y == y[..n] + [y[n]];
    FlattenedAppend(y[..n], y[n], to);
    var tail := BitsOf(y[n], to);
    var more := tail[..to - |rest|];
    PrefixOfSum(bits, rest, Flattened(y[..n], to), tail);
    GroupedFlattened(y[..n], to, more);
    NumberOfBits(y[n], to);
    assert more + Zeros(|rest|) == tail by {
      forall i | 0 <= i < |rest|
        ensures !rest[i]
      {
        assert rest[i] in rest;
      }
      assert more + rest == tail;
      assert rest == Zeros(|rest|);
    }
  }

  lemma NothingFlattened(width: nat)
    ensures Flattened([], width) == [] == BitsOf(0, 0)
  {
  }

  /** Dropping a short tail from a sum leaves the first part and what remains of the second. */
  lemma PrefixOfSum(a: seq<bool>, rest: seq<bool>, front: seq<bool>, tail: seq<bool>)
    requires a + rest == front + tail && |rest| <= |tail|
    ensures a == front + tail[..|tail| - |rest|]
    ensures rest == tail[|tail| - |rest|..]
  {
    assert a == (a + rest)[..|a|];
    assert rest == (a + rest)[|a|..];
  }

  /** A group is zero exactly when none of its bits is set. */
  lemma {:induction false} ZeroNumber(bits: seq<bool>)
    ensures NumberOf(bits) == 0 <==> true !in bits
  {
    if bits != [] {
      var n := |bits| - 1;
      ZeroNumber(bits[..n]);
      assert bits == bits[..n] + [bits[n]];
    }
  }

  // The loop

  lemma LimitIsSixteenBits()
    ensures Scaled(1, 16) == ACCUMULATOR_LIMIT
  {
    ByteScale(1);
    ByteScale(256);
    assert Scaled(1, 10) == 2 * Scaled(1, 9) == 4 * Scaled(1, 8);
    assert Scaled(1, 12) == 2 * Scaled(1, 11) == 4 * Scaled(1, 10);
    assert Scaled(1, 14) == 2 * Scaled(1, 13) == 4 * Scaled(1, 12);
    assert Scaled(1, 16) == 2 * Scaled(1, 15) == 4 * Scaled(1, 14);
  }

  /** Bit by bit, as the accumulator takes a value in. */
  function Or(a: nat, b: nat): nat {
    if a == 0 && b == 0 then 0 else 2 * Or(a / 2, b / 2) + if a % 2 == 1 || b % 2 == 1 then 1 else 0
  }

  function OrBits(a: seq<bool>, b: seq<bool>): (r: seq<bool>)
    requires |a| == |b|
    ensures |r| == |a|
  {
    seq(|a|, i requires 0 <= i < |a| => a[i] || b[i])
  }

  lemma {:induction false} BitsOfOr(a: nat, b: nat, width: nat)
    ensures BitsOf(Or(a, b), width) == OrBits(BitsOf(a, width), BitsOf(b, width))
  {
    if width > 0 {
      OrStep(a, b);
      BitsOfOr(a / 2, b / 2, width - 1);
    }
  }

  lemma OrStep(a: nat, b: nat)
    ensures Or(a, b) / 2 == Or(a / 2, b / 2) && (Or(a, b) % 2 == 1 <==> a % 2 == 1 || b % 2 == 1)
  {
    if a == 0 && b == 0 {
      assert Or(0, 0) == 0;
    }
  }

  /** The pending bits once a value is shifted in: a value wider than `from` bits overlaps them. */
  function Entered(pending: seq<bool>, v: nat, from: nat): (bits: seq<bool>)
    ensures |bits| == |pending| + from
  {
    OrBits(pending + Zeros(from), BitsOf(v, |pending| + from))
  }

  /** The groups that leave while values of any width are shifted in, and the bits still pending. */
  function Overlapped(data: seq<nat>, from: nat, to: nat): (r: (seq<nat>, seq<bool>))
    requires to > 0
    ensures |r.1| < to
  {
    if data == [] then ([], [])
    else
      var (groups, pending) := Overlapped(data[..|data| - 1], from, to);
      var bits := Entered(pending, data[|data| - 1], from);
      (groups + Grouped(bits, to), Leftover(bits, to))
  }

  /** What groups and pending bits come to at the end. */
  function Ended(groups: seq<nat>, rest: seq<bool>, from: nat, to: nat, pad: bool): Result<seq<nat>, PaddingError>
    requires |rest| < to
  {
    if pad then Success(groups + if rest == [] then [] else [NumberOf(rest + Zeros(to - |rest|))])
    else if |rest| >= from || true in rest then Failure(BadPadding)
    else Success(groups)
  }

  lemma {:induction false} HighBitsUnset(v: nat, extra: nat, width: nat)
    requires v < Scaled(1, width)
    ensures BitsOf(v, extra + width) == Zeros(extra) + BitsOf(v, width)
    decreases width
  {
    if width == 0 {
      ZeroBits(extra);
    } else {
      HighBitsUnset(v / 2, extra, width - 1);
    }
  }

  /** A value that fits only appends its bits. */
  lemma FittingEnters(pending: seq<bool>, v: nat, from: nat)
    requires v < Scaled(1, from)
    ensures Entered(pending, v, from) == pending + BitsOf(v, from)
  {
    hide Scaled, BitsOf;
    HighBitsUnset(v, |pending|, from);
  }

  /** Values that fit do not overlap: what leaves is their bits, regrouped. */
  lemma {:induction false} FittingOverlapsNothing(data: seq<nat>, from: nat, to: nat)
    requires to > 0 && AllBelow(data, Scaled(1, from))
    ensures Overlapped(data, from, to) == (Grouped(Flattened(data, from), to), Leftover(Flattened(data, from), to))
  {
    if data != [] {
      var n := |data| - 1;
      FittingOverlapsNothing(data[..n], from, to);
      assert data == data[..n] + [data[n]];
      hide Scaled, BitsOf, Grouped, Leftover, Flattened, Entered;
      FlattenedAppend(data[..n], data[n], from);
      OneMoreFits(Flattened(data[..n], from), data[n], from, to);
    }
  }

  lemma OneMoreFits(before: seq<bool>, v: nat, from: nat, to: nat)
    requires to > 0 && v < Scaled(1, from)
    ensures var bits, all := Entered(Leftover(before, to), v, from), before + BitsOf(v, from);
      Grouped(before, to) + Grouped(bits, to) == Grouped(all, to) && Leftover(bits, to) == Leftover(all, to)
  {
    hide Scaled, BitsOf, Grouped, Leftover, Flattened, Entered;
    var groups, pending := Grouped(before, to), Leftover(before, to);
    FittingEnters(pending, v, from);
    FlattenedGrouped(before, to);
    GroupedAfter(groups, pending + BitsOf(v, from), to);
    assert Flattened(groups, to) + (pending + BitsOf(v, from)) == before + BitsOf(v, from);
  }

  lemma FittingEnds(data: seq<nat>, from: nat, to: nat, pad: bool)
    requires to > 0 && AllBelow(data, Scaled(1, from))
    ensures var (groups, rest) := Overlapped(data, from, to);
      Ended(groups, rest, from, to, pad) == Regrouped(data, from, to, pad)
  {
    hide Scaled, Overlapped, Grouped, Leftover, Flattened;
    FittingOverlapsNothing(data, from, to);
  }

  /** Shifting a value into the masked accumulator enters its bits among the pending ones. */
  lemma ValueEnters(acc: nat, v: nat, bits: nat, from: nat)
    requires bits + from <= 16
    ensures BitsOf(Or(Scaled(acc, from), v) % ACCUMULATOR_LIMIT, bits + from) == Entered(BitsOf(acc, bits), v, from)
  {
    hide Or, OrBits;
    LimitIsSixteenBits();
    ScaledPositive(from);
    BitsShiftedIn(acc, 0, bits, from);
    ZeroBits(from);
    BitsOfOr(Scaled(acc, from), v, bits + from);
    BitsMasked(Or(Scaled(acc, from), v), bits + from, 16);
  }

  /** Taking the topmost pending group leaves the others. */
  lemma GroupLeaves(acc: nat, bits: nat, to: nat)
    requires to <= bits
    ensures Scaled(1, to) > 0
    ensures BitsOf(acc, bits) == BitsOf(Shifted(acc, bits - to) % Scaled(1, to), to) + BitsOf(acc, bits - to)
    ensures Shifted(acc, bits - to) % Scaled(1, to) < Scaled(1, to)
  {
    BitsSplit(acc, to, bits - to);
    BitsMasked(Shifted(acc, bits - to), to, to);
  }

  /** The last partial group, moved up and masked, is what is pending followed by zeros. */
  lemma LastGroup(acc: nat, bits: nat, to: nat)
    requires bits <= to
    ensures Scaled(1, to) > 0
    ensures Scaled(acc, to - bits) % Scaled(1, to) == NumberOf(BitsOf(acc, bits) + Zeros(to - bits)) < Scaled(1, to)
    ensures Scaled(acc, to - bits) % Scaled(1, to) == 0 <==> true !in BitsOf(acc, bits)
  {
    hide *;
    ScaledPositive(to - bits);
    BitsShiftedIn(acc, 0, bits, to - bits);
    ZeroBits(to - bits);
    BitsMasked(Scaled(acc, to - bits), to, to);
    NumberOfBits(Scaled(acc, to - bits) % Scaled(1, to), to);
    ZeroNumber(BitsOf(acc, bits) + Zeros(to - bits));
  }

  /** Values wider than `from` bits overlap the ones before; those that fit are regrouped. */
  method ConvertBits(data: seq<nat>, from: nat, to: nat, pad: bool) returns (r: Result<seq<nat>, PaddingError>)
    requires 1 <= from <= 8 && 1 <= to <= 8
    ensures r == Ended(Overlapped(data, from, to).0, Overlapped(data, from, to).1, from, to, pad)
    ensures AllBelow(data, Scaled(1, from)) ==> r == Regrouped(data, from, to, pad)
    ensures r.Success? ==> AllBelow(r.value, Scaled(1, to))
  {
    hide Scaled, Shifted, BitsOf, NumberOf, Flattened, Grouped, Leftover, Zeros, Regrouped, Or, OrBits, Entered;
    var acc: nat, bits: nat, out: seq<nat> := 0, 0, [];
    ScaledPositive(to);
    NothingFlattened(from);
    assert data[..0] == [];
    for i := 0 to |data|
      invariant bits < to && AllBelow(out, Scaled(1, to))
      invariant Overlapped(data[..i], from, to) == (out, BitsOf(acc, bits))
    {
      ValueEnters(acc, data[i], bits, from);
      assert data[..i + 1][..i] == data[..i];
      ghost var entered := Entered(BitsOf(acc, bits), data[i], from);
      acc := Or(Scaled(acc, from), data[i]) % ACCUMULATOR_LIMIT;
      bits := bits + from;
      ghost var before := out;
      assert before + Grouped(entered, to) == out + Grouped(BitsOf(acc, bits), to);
      while bits >= to
        invariant bits < to + from && AllBelow(out, Scaled(1, to))
        invariant before + Grouped(entered, to) == out + Grouped(BitsOf(acc, bits), to)
        invariant Leftover(entered, to) == Leftover(BitsOf(acc, bits), to)
      {
        GroupLeaves(acc, bits, to);
        bits := bits - to;
        var group := Shifted(acc, bits) % Scaled(1, to);
        GroupInFront(group, BitsOf(acc, bits), to);
        out := out + [group];
      }
      NothingGrouped(BitsOf(acc, bits), to);
      assert out + [] == out;
    }
    assert data[..|data|] == data;
    LastGroup(acc, bits, to);
    var group := Scaled(acc, to - bits) % Scaled(1, to);
    if AllBelow(data, Scaled(1, from)) {
      FittingEnds(data, from, to, pad);
    }
    assert out + [] == out;
    if pad {
      if bits > 0 {
        out := out + [group];
      }
    } else if bits >= from || group != 0 {
      return Failure(BadPadding);
    }
    r := Success(out);
  }
}
