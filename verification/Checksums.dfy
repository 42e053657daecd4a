/** The Bech32 checksum: a linear code over five-bit symbols, computed on 32-bit words. */
module Checksums {

  const BECH32M_CONST: bv32 := 0x2bc8_30a3
  const BECH32_CONST: bv32 := 1

  /** Addition in the code. */
  function Plus(x: bv32, y: bv32): bv32 {
    x ^ y
  }

  /** The low twenty-five bits, moved up by one symbol. */
  function MovedUp(c: bv32): bv32 {
    (c & 0x01ff_ffff) << 5
  }

  /** A generator word, if its bit of the state is set. */
  function Fed(c: bv32, bit: bv32, generator: bv32): bv32 {
    if c & bit != 0 then generator else 0
  }

  /** The generator words that the top five bits select. */
  function Feedback(c: bv32): bv32 {
    Plus(Plus(Plus(Plus(
      Fed(c, 0x0200_0000, 0x3b6a_57b2),
      Fed(c, 0x0400_0000, 0x2650_8e6d)),
      Fed(c, 0x0800_0000, 0x1ea1_19fa)),
      Fed(c, 0x1000_0000, 0x3d42_33dd)),
      Fed(c, 0x2000_0000, 0x2a14_62b3))
  }

  /** One symbol enters: the top symbol leaves and is fed back through the generator words. */
  function Step(c: bv32, v: bv32): bv32 {
    Plus(Plus(MovedUp(c), v), Feedback(c))
  }

  function Polymod(c: bv32, vs: seq<bv32>): bv32
    decreases |vs|
  {
    if vs == [] then c else Polymod(Step(c, vs[0]), vs[1..])
  }

  predicate Symbol(v: bv32) {
    v <= 31
  }

  ghost predicate Symbols(vs: seq<bv32>) {
    forall i :: 0 <= i < |vs| ==> Symbol(vs[i])
  }

  /** The state never leaves thirty bits. */
  predicate State(c: bv32) {
    c < 0x4000_0000
  }

  function Sum(vs: seq<bv32>, ws: seq<bv32>): (r: seq<bv32>)
    requires |vs| == |ws|
    ensures |r| == |vs|
  {
    seq(|vs|, i requires 0 <= i < |vs| => Plus(vs[i], ws[i]))
  }

  // One step

  lemma PlusAssociates(a: bv32, b: bv32, c: bv32)
    ensures Plus(Plus(a, b), c) == Plus(a, Plus(b, c))
  {
  }

  lemma PlusCommutes(a: bv32, b: bv32)
    ensures Plus(a, b) == Plus(b, a)
  {
  }

  lemma Rearranged(a: bv32, b: bv32, x: bv32, y: bv32)
    ensures Plus(Plus(a, b), Plus(x, y)) == Plus(Plus(a, x), Plus(b, y))
  {
    hide Plus;
    PlusAssociates(a, b, Plus(x, y));
    PlusAssociates(b, x, y);
    PlusCommutes(b, x);
    PlusAssociates(x, b, y);
    PlusAssociates(a, x, Plus(b, y));
  }

  lemma PlusCancels(x: bv32, y: bv32)
    ensures Plus(x, y) == 0 <==> x == y
  {
    assert x ^ y == 0 <==> x == y;
  }

  lemma PlusZero(x: bv32)
    ensures Plus(x, 0) == x == Plus(0, x)
  {
  }

  lemma PlusSmall(x: bv32, y: bv32)
    ensures State(x) && State(y) ==> State(Plus(x, y))
  {
  }

  lemma MovedUpLinear(c: bv32, d: bv32)
    ensures MovedUp(Plus(c, d)) == Plus(MovedUp(c), MovedUp(d))
  {
  }

  /** A bit of a sum is set when it is set in exactly one of the two. */
  lemma BitOfSum(c: bv32, d: bv32)
    ensures (Plus(c, d) & 0x0200_0000 != 0) == ((c & 0x0200_0000 != 0) != (d & 0x0200_0000 != 0))
    ensures (Plus(c, d) & 0x0400_0000 != 0) == ((c & 0x0400_0000 != 0) != (d & 0x0400_0000 != 0))
    ensures (Plus(c, d) & 0x0800_0000 != 0) == ((c & 0x0800_0000 != 0) != (d & 0x0800_0000 != 0))
    ensures (Plus(c, d) & 0x1000_0000 != 0) == ((c & 0x1000_0000 != 0) != (d & 0x1000_0000 != 0))
    ensures (Plus(c, d) & 0x2000_0000 != 0) == ((c & 0x2000_0000 != 0) != (d & 0x2000_0000 != 0))
  {
  }

  lemma FedLinear(c: bv32, d: bv32, bit: bv32, g: bv32)
    requires (Plus(c, d) & bit != 0) == ((c & bit != 0) != (d & bit != 0))
    ensures Fed(Plus(c, d), bit, g) == Plus(Fed(c, bit, g), Fed(d, bit, g))
  {
    hide Plus;
    PlusZero(g);
    PlusZero(0);
    PlusCancels(g, g);
  }

  /** A sum of five sums, term by term. */
  lemma FiveRearranged(a0: bv32, a1: bv32, a2: bv32, a3: bv32, a4: bv32, b0: bv32, b1: bv32, b2: bv32, b3: bv32,
      b4: bv32)
    ensures Plus(Plus(Plus(Plus(Plus(a0, b0), Plus(a1, b1)), Plus(a2, b2)), Plus(a3, b3)), Plus(a4, b4))
         == Plus(Plus(Plus(Plus(Plus(a0, a1), a2), a3), a4), Plus(Plus(Plus(Plus(b0, b1), b2), b3), b4))
  {
    hide Plus;
    Rearranged(a0, b0, a1, b1);
    Rearranged(Plus(a0, a1), Plus(b0, b1), a2, b2);
    Rearranged(Plus(Plus(a0, a1), a2), Plus(Plus(b0, b1), b2), a3, b3);
    Rearranged(Plus(Plus(Plus(a0, a1), a2), a3), Plus(Plus(Plus(b0, b1), b2), b3), a4, b4);
  }

  lemma FeedbackLinear(c: bv32, d: bv32)
    ensures Feedback(Plus(c, d)) == Plus(Feedback(c), Feedback(d))
  {
    hide Plus, Fed;
    BitOfSum(c, d);
    FedLinear(c, d, 0x0200_0000, 0x3b6a_57b2);
    FedLinear(c, d, 0x0400_0000, 0x2650_8e6d);
    FedLinear(c, d, 0x0800_0000, 0x1ea1_19fa);
    FedLinear(c, d, 0x1000_0000, 0x3d42_33dd);
    FedLinear(c, d, 0x2000_0000, 0x2a14_62b3);
    FiveRearranged(
      Fed(c, 0x0200_0000, 0x3b6a_57b2), Fed(c, 0x0400_0000, 0x2650_8e6d), Fed(c, 0x0800_0000, 0x1ea1_19fa),
      Fed(c, 0x1000_0000, 0x3d42_33dd), Fed(c, 0x2000_0000, 0x2a14_62b3),
      Fed(d, 0x0200_0000, 0x3b6a_57b2), Fed(d, 0x0400_0000, 0x2650_8e6d), Fed(d, 0x0800_0000, 0x1ea1_19fa),
      Fed(d, 0x1000_0000, 0x3d42_33dd), Fed(d, 0x2000_0000, 0x2a14_62b3));
  }

  lemma StepLinear(c: bv32, d: bv32, v: bv32, w: bv32)
    ensures Step(Plus(c, d), Plus(v, w)) == Plus(Step(c, v), Step(d, w))
  {
    hide Plus, MovedUp, Feedback;
    MovedUpLinear(c, d);
    FeedbackLinear(c, d);
    Rearranged(MovedUp(c), MovedUp(d), v, w);
    Rearranged(Plus(MovedUp(c), v), Plus(MovedUp(d), w), Feedback(c), Feedback(d));
  }

  lemma StepKeepsState(c: bv32, v: bv32)
    requires State(c) && Symbol(v)
    ensures State(Step(c, v))
  {
  }

  /** A difference between states never disappears. */
  lemma StepKeepsDifference(c: bv32)
    requires State(c) && Step(c, 0) == 0
    ensures c == 0
  {
  }

  lemma NothingFedBack(c: bv32)
    requires c < 0x0200_0000
    ensures Feedback(c) == 0 && MovedUp(c) == c << 5
  {
  }

  lemma StepWithRoom(c: bv32, v: bv32)
    requires c < 0x0200_0000 && Symbol(v)
    ensures Step(c, v) == Beside(c, v)
  {
    hide Feedback, MovedUp;
    NothingFedBack(c);
    PlusZero(Plus(c << 5, v));
  }

  // Whole sequences

  lemma {:induction false} PolymodLinear(c: bv32, d: bv32, vs: seq<bv32>, ws: seq<bv32>)
    requires |vs| == |ws|
    ensures Polymod(Plus(c, d), Sum(vs, ws)) == Plus(Polymod(c, vs), Polymod(d, ws))
    decreases |vs|
  {
    hide Plus, Step;
    if vs != [] {
      StepLinear(c, d, vs[0], ws[0]);
      PolymodLinear(Step(c, vs[0]), Step(d, ws[0]), vs[1..], ws[1..]);
      assert Sum(vs, ws)[1..] == Sum(vs[1..], ws[1..]);
    }
  }

  lemma {:induction false} PolymodAppend(c: bv32, vs: seq<bv32>, ws: seq<bv32>)
    ensures Polymod(c, vs + ws) == Polymod(Polymod(c, vs), ws)
    decreases |vs|
  {
    hide Step;
    if vs == [] {
      assert vs + ws == ws;
    } else {
      PolymodAppend(Step(c, vs[0]), vs[1..], ws);
      assert (vs + ws)[1..] == vs[1..] + ws;
    }
  }

  lemma {:induction false} PolymodKeepsState(c: bv32, vs: seq<bv32>)
    requires State(c) && Symbols(vs)
    ensures State(Polymod(c, vs))
    decreases |vs|
  {
    hide Step;
    if vs != [] {
      StepKeepsState(c, vs[0]);
      PolymodKeepsState(Step(c, vs[0]), vs[1..]);
    }
  }

  /** Different states stay different under the same symbols. */
  lemma {:induction false} PolymodKeepsDifference(c: bv32, d: bv32, vs: seq<bv32>)
    requires State(c) && State(d) && Symbols(vs)
    ensures Polymod(c, vs) == Polymod(d, vs) ==> c == d
    decreases |vs|
  {
    hide Step, Plus, State, Symbol;
    if vs != [] {
      var v := vs[0];
      StepKeepsState(c, v);
      StepKeepsState(d, v);
      PolymodKeepsDifference(Step(c, v), Step(d, v), vs[1..]);
      StepLinear(c, d, v, v);
      PlusCancels(v, v);
      PlusCancels(Step(c, v), Step(d, v));
      PlusCancels(c, d);
      PlusSmall(c, d);
      if Step(Plus(c, d), 0) == 0 {
        StepKeepsDifference(Plus(c, d));
      }
    }
  }

  // The six check symbols

  /** One symbol after the others, in the low five bits. */
  function Beside(c: bv32, v: bv32): bv32 {
    (c << 5) ^ v
  }

  /** Six symbols side by side in one word. */
  function Packed(vs: seq<bv32>): bv32
    requires |vs| == 6
  {
    Beside(Beside(Beside(Beside(Beside(vs[0], vs[1]), vs[2]), vs[3]), vs[4]), vs[5])
  }

  /** The six symbols of a word. */
  function Unpacked(c: bv32): (vs: seq<bv32>)
    ensures |vs| == 6
  {
    [(c >> 25) & 31, (c >> 20) & 31, (c >> 15) & 31, (c >> 10) & 31, (c >> 5) & 31, c & 31]
  }

  lemma PackedUnpacked(c: bv32)
    requires State(c)
    ensures Packed(Unpacked(c)) == c && Symbols(Unpacked(c))
  {
  }

  lemma UnpackedPacked(vs: seq<bv32>)
    requires |vs| == 6 && Symbols(vs)
    ensures Unpacked(Packed(vs)) == vs && State(Packed(vs))
  {
  }

  /** From nothing, six symbols only line up: none is fed back. */
  lemma SixFromNothing(vs: seq<bv32>)
    requires |vs| == 6 && Symbols(vs)
    ensures Polymod(0, vs) == Packed(vs)
  {
    hide Step;
    var c1 := Step(0, vs[0]);
    StepWithRoom(0, vs[0]);
    StepWithRoom(c1, vs[1]);
    var c2 := Step(c1, vs[1]);
    StepWithRoom(c2, vs[2]);
    var c3 := Step(c2, vs[2]);
    StepWithRoom(c3, vs[3]);
    var c4 := Step(c3, vs[3]);
    StepWithRoom(c4, vs[4]);
    var c5 := Step(c4, vs[4]);
    StepWithRoom(c5, vs[5]);
    SixSteps(0, vs);
  }

  lemma PolymodOnce(c: bv32, vs: seq<bv32>)
    requires vs != []
    ensures Polymod(c, vs) == Polymod(Step(c, vs[0]), vs[1..])
  {
  }

  lemma SixSteps(c: bv32, vs: seq<bv32>)
    requires |vs| == 6
    ensures Polymod(c, vs) == Step(Step(Step(Step(Step(Step(c, vs[0]), vs[1]), vs[2]), vs[3]), vs[4]), vs[5])
  {
    hide Step;
    PolymodOnce(c, vs);
    var c1 := Step(c, vs[0]);
    PolymodOnce(c1, vs[1..]);
    var c2 := Step(c1, vs[1]);
    PolymodOnce(c2, vs[2..]);
    var c3 := Step(c2, vs[2]);
    PolymodOnce(c3, vs[3..]);
    var c4 := Step(c3, vs[3]);
    PolymodOnce(c4, vs[4..]);
    PolymodOnce(Step(c4, vs[4]), vs[5..]);
  }

  /** Whatever came before, exactly one choice of six symbols reaches a given state. */
  lemma CheckExactly(c: bv32, goal: bv32, check: seq<bv32>)
    requires State(c) && State(goal) && |check| == 6 && Symbols(check)
    ensures Polymod(c, check) == goal <==> check == Unpacked(Plus(Polymod(c, [0, 0, 0, 0, 0, 0]), goal))
  {
    hide Plus, Step, State, Symbol, Packed, Unpacked;
    var zeros: seq<bv32> := [0, 0, 0, 0, 0, 0];
    SmallestSymbol();
    var reached := Polymod(c, zeros);
    PolymodKeepsState(c, zeros);
    PlusSmall(reached, goal);
    PlusZero(c);
    PolymodLinear(c, 0, zeros, check);
    SumWithZeros(zeros, check);
    SixFromNothing(check);
    assert Polymod(c, check) == Plus(reached, Packed(check));
    UnpackedPacked(check);
    PackedUnpacked(Plus(reached, goal));
    Solved(reached, Packed(check), goal);
  }

  lemma SmallestSymbol()
    ensures Symbol(0)
  {
  }

  lemma Solved(a: bv32, x: bv32, goal: bv32)
    ensures Plus(a, x) == goal <==> x == Plus(a, goal)
  {
    hide Plus;
    PlusAssociates(a, a, x);
    PlusAssociates(a, a, goal);
    PlusCancels(a, a);
    PlusZero(x);
    PlusZero(goal);
  }

  lemma SumWithZeros(zeros: seq<bv32>, vs: seq<bv32>)
    requires |zeros| == |vs| && forall i :: 0 <= i < |zeros| ==> zeros[i] == 0
    ensures Sum(zeros, vs) == vs
  {
    hide Plus;
    forall i | 0 <= i < |vs|
      ensures Plus(zeros[i], vs[i]) == vs[i]
    {
      PlusZero(vs[i]);
    }
  }

  /** Two symbol strings that agree outside six consecutive places and check alike are the same. */
  lemma BurstIsSeen(c: bv32, before: seq<bv32>, vs: seq<bv32>, ws: seq<bv32>, after: seq<bv32>)
    requires State(c) && |vs| == |ws| == 6
    requires Symbols(before) && Symbols(vs) && Symbols(ws) && Symbols(after)
    requires Polymod(c, before + vs + after) == Polymod(c, before + ws + after)
    ensures vs == ws
  {
    hide Step, State, Symbol, Unpacked, Plus;
    var d := Polymod(c, before);
    PolymodKeepsState(c, before);
    PolymodKeepsState(d, vs);
    PolymodKeepsState(d, ws);
    PolymodAppend(c, before + vs, after);
    PolymodAppend(c, before, vs);
    PolymodAppend(c, before + ws, after);
    PolymodAppend(c, before, ws);
    PolymodKeepsDifference(Polymod(d, vs), Polymod(d, ws), after);
    CheckExactly(d, Polymod(d, vs), vs);
    CheckExactly(d, Polymod(d, vs), ws);
  }
}
