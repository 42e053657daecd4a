/** Known answers: one string of BIP 350 and one of BIP 173, and the shapes of small trees. */
module Vectors {
  import opened Prelude
  import opened Types
  import opened Checksums
  import opened Bech32
  import opened MerkleList

  // ----- Bech32m text

  /** Six data characters behind the prefix "a". */
  function Text(values: seq<u8>): seq<u8>
    requires AllSymbols(values)
  {
    [97] + [SEPARATOR] + Chars(values)
  }

  lemma PrefixWords()
    ensures Expanded([97]) == [3, 0, 1]
  {
  }

  /** The words a prefix "a" and six symbols check, one state a step. */
  predicate Traced(v: seq<u8>, c: seq<bv32>)
    requires |v| == 6
  {
    && |c| == 10 && c[0] == 1
    && c[1] == Step(c[0], SymbolOf(3)) && c[2] == Step(c[1], SymbolOf(0)) && c[3] == Step(c[2], SymbolOf(1))
    && forall i :: 0 <= i < 6 ==> c[i + 4] == Step(c[i + 3], SymbolOf(v[i]))
  }

  lemma NineSteps(v: seq<u8>, c: seq<bv32>)
    requires |v| == 6 && AllSymbols(v) && Traced(v, c)
    ensures Checked([97], v) == c[9]
  {
    hide Step, SymbolOf;
    PrefixWords();
    hide Expanded, Polymod;
    var words := Words(Expanded([97]) + v);
    assert words[0] == SymbolOf(3) && words[1] == SymbolOf(0) && words[2] == SymbolOf(1);
    forall i | 0 <= i < 9
      ensures c[i + 1] == Step(c[i], words[i])
    {
      if i >= 3 {
        assert words[i] == SymbolOf(v[i - 3]);
        assert c[i - 3 + 4] == Step(c[i - 3 + 3], SymbolOf(v[i - 3]));
      }
    }
    Chained(c, words, 9);
    assert words[0..] == words;
  }

  lemma {:induction false} Chained(c: seq<bv32>, words: seq<bv32>, n: nat)
    requires |c| == |words| + 1 && n <= |words|
    requires forall i :: 0 <= i < |words| ==> c[i + 1] == Step(c[i], words[i])
    ensures Polymod(c[|words| - n], words[|words| - n..]) == c[|words|]
    decreases n
  {
    hide Step;
    if n > 0 {
      var i := |words| - n;
      assert words[i..][0] == words[i] && words[i..][1..] == words[i + 1..];
      Chained(c, words, n - 1);
    }
  }

  /** No character is upper case, and only the second is a separator. */
  lemma TextCharacters(values: seq<u8>)
    requires |values| == 6 && AllSymbols(values)
    ensures |Text(values)| == 8 && Text(values)[0] == 97 && Text(values)[1] == SEPARATOR
    ensures Text(values)[..1] == [97] && Text(values)[2..] == Chars(values)
    ensures forall i :: 0 <= i < 8 ==> !IsUpper(Text(values)[i])
    ensures forall i :: 0 <= i < 8 && Text(values)[i] == SEPARATOR ==> i == 1
  {
    CharsAreData(values);
    hide Chars, CharsetValue, Values;
    var text, chars := Text(values), Chars(values);
    assert text[2..] == chars;
    forall i | 0 <= i < 8
      ensures !IsUpper(text[i]) && (text[i] == SEPARATOR ==> i == 1)
    {
      if i >= 2 {
        assert text[i] == chars[i - 2];
      }
    }
  }

  lemma TextIsPlain(values: seq<u8>)
    requires |values| == 6 && AllSymbols(values)
    ensures Lower(Text(values)) == Text(values) && !IsMixed(Text(values)) && LastSeparator(Text(values)) == Some(1)
  {
    TextCharacters(values);
    hide Text, Chars, LastSeparator, HasLower;
    var text := Text(values);
    assert Lower(text) == text;
    assert SEPARATOR in text;
  }

  lemma PartsDecode(values: seq<u8>)
    requires |values| == 6 && AllSymbols(values)
    ensures DecodedParts([97], Chars(values)) ==
      if Checked([97], values) == BECH32M_CONST then Success(([97], []))
      else if Checked([97], values) == BECH32_CONST then Failure(WrongVariantBech32)
      else Failure(BadChecksum)
  {
    CharsAreData(values);
    hide Checked, CharsetValue, Chars;
    assert values[..0] == [];
  }

  lemma TextDecodes(values: seq<u8>)
    requires |values| == 6 && AllSymbols(values)
    ensures Decoded(Text(values)) ==
      if Checked([97], values) == BECH32M_CONST then Success(([97], []))
      else if Checked([97], values) == BECH32_CONST then Failure(WrongVariantBech32)
      else Failure(BadChecksum)
  {
    hide Checked, DecodedParts, Chars, Lower, IsMixed, Text, LastSeparator;
    TextCharacters(values);
    TextIsPlain(values);
    PartsDecode(values);
  }

  lemma ShortestChecks()
    ensures Checked([97], [31, 0, 9, 19, 17, 29]) == 0x2bc830a3
  {
    hide Step, SymbolOf, Checked;
    FirstStates();
    NineSteps([31, 0, 9, 19, 17, 29],
              [1, 0x23, 0x460, 0x8c01, 0x11803f, 0x23007e0, 0x3d6aabbb, 0x2f2b18a, 0x253c66e3, 0x2bc830a3]);
  }

  lemma ShortestText()
    ensures Text([31, 0, 9, 19, 17, 29]) == [97, 49, 108, 113, 102, 110, 51, 97]
  {
  }

  /** "a1lqfn3a", the shortest valid string of BIP 350, decodes to an empty payload. */
  lemma ShortestDecodes()
    ensures Decoded([97, 49, 108, 113, 102, 110, 51, 97]) == Success(([97], []))
  {
    hide Checked, Decoded, Text;
    ShortestText();
    ShortestChecks();
    TextDecodes([31, 0, 9, 19, 17, 29]);
  }

  lemma FirstStates()
    ensures Step(1, SymbolOf(3)) == 0x23 && Step(0x23, SymbolOf(0)) == 0x460 && Step(0x460, SymbolOf(1)) == 0x8c01
    ensures Step(0x8c01, SymbolOf(31)) == 0x11803f && Step(0x11803f, SymbolOf(0)) == 0x23007e0
    ensures Step(0x23007e0, SymbolOf(9)) == 0x3d6aabbb && Step(0x3d6aabbb, SymbolOf(19)) == 0x2f2b18a
    ensures Step(0x2f2b18a, SymbolOf(17)) == 0x253c66e3 && Step(0x253c66e3, SymbolOf(29)) == 0x2bc830a3
  {
  }

  lemma OlderChecks()
    ensures Checked([97], [10, 28, 25, 31, 20, 31]) == 1
  {
    hide Step, SymbolOf, Checked;
    FirstStates();
    SecondStates();
    LastStates();
    NineSteps([10, 28, 25, 31, 20, 31],
              [1, 0x23, 0x460, 0x8c01, 0x11802a, 0x230055c, 0x3d6afc2b, 0x2f84386, 0x24622766, 1]);
  }

  lemma OlderText()
    ensures Text([10, 28, 25, 31, 20, 31]) == [97, 49, 50, 117, 101, 108, 53, 108]
  {
  }

  /** "a12uel5l" is valid under the older checksum only, and is told apart from a typing error. */
  lemma OlderIsTold()
    ensures Decoded([97, 49, 50, 117, 101, 108, 53, 108]) == Failure(WrongVariantBech32)
  {
    hide Checked, Decoded, Text;
    OlderText();
    OlderChecks();
    TextDecodes([10, 28, 25, 31, 20, 31]);
  }

  lemma SecondStates()
    ensures Step(0x8c01, SymbolOf(10)) == 0x11802a && Step(0x11802a, SymbolOf(28)) == 0x230055c
    ensures Step(0x230055c, SymbolOf(25)) == 0x3d6afc2b
  {
  }

  lemma LastStates()
    ensures Step(0x3d6afc2b, SymbolOf(31)) == 0x2f84386 && Step(0x2f84386, SymbolOf(20)) == 0x24622766
    ensures Step(0x24622766, SymbolOf(31)) == 1
  {
  }

  // ----- List trees

  lemma PairTops(l: Digest, m: Digest)
    ensures Top([l, m]) == Digest.Node(l, m)
  {
    assert [l, m][2..] == [];
    assert Folded([l, m]) == [Digest.Node(l, m)];
  }

  /** No items, one, two, and three, the third promoted. */
  lemma SmallLists(a: Digest, b: Digest, c: Digest)
    ensures ListRoot([]) == Zero && ListRoot([a]) == ListLeaf(a)
    ensures ListRoot([a, b]) == Digest.Node(ListLeaf(a), ListLeaf(b))
    ensures ListRoot([a, b, c]) == Digest.Node(Digest.Node(ListLeaf(a), ListLeaf(b)), ListLeaf(c))
  {
    var x, y, z := ListLeaf(a), ListLeaf(b), ListLeaf(c);
    assert LeafLevel([]) == [];
    assert LeafLevel([a]) == [x];
    assert LeafLevel([a, b]) == [x, y];
    assert LeafLevel([a, b, c]) == [x, y, z];
    assert [x, y, z][2..] == [z];
    assert Folded([x, y, z]) == [Digest.Node(x, y), z];
    PairTops(x, y);
    PairTops(Digest.Node(x, y), z);
  }
}
