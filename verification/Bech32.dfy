/** Bech32m text: a prefix, a separator, and five-bit symbols that end in a six-symbol checksum. */
module Bech32 {
  import opened Prelude
  import opened Checksums

  const MAX_LENGTH: nat := 90
  const SEPARATOR: u8 := 49
  const QUESTION_MARK: u8 := 63

  /** "qpzry9x8gf2tvdw0s3jn54khce6mua7l", five bits a character. */
  const CHARSET: seq<u8> := [
    113, 112, 122, 114, 121, 57, 120, 56, 103, 102, 50, 116, 118, 100, 119, 48,
    115, 51, 106, 110, 53, 52, 107, 104, 99, 101, 54, 109, 117, 97, 55, 108
  ]

  datatype Bech32Error =
    | MixedCase
    | TooLong(length: nat)
    | NoSeparator
    | EmptyHrp
    | BadHrpChar(byte: u8)
    | DataTooShort(length: nat)
    | BadDataChar(character: int)
    | BadChecksum
    | WrongVariantBech32
    | BadPadding

  // ----- Bytes and words

  function Place(on: bool, bit: bv32): bv32 {
    if on then bit else 0
  }

  /** A byte as a word. */
  function SymbolOf(v: u8): bv32 {
    Place(v / 128 % 2 == 1, 128) | Place(v / 64 % 2 == 1, 64) | Place(v / 32 % 2 == 1, 32) | Place(v / 16 % 2 == 1, 16)
    | Place(v / 8 % 2 == 1, 8) | Place(v / 4 % 2 == 1, 4) | Place(v / 2 % 2 == 1, 2) | Place(v % 2 == 1, 1)
  }

  function Units(on: bool, bit: u8): u8 {
    if on then bit else 0
  }

  /** The number a symbol is. */
  function IndexOf(s: bv32): (v: u8)
    ensures v < 32
  {
    Units(s & 16 != 0, 16) + Units(s & 8 != 0, 8) + Units(s & 4 != 0, 4) + Units(s & 2 != 0, 2) + Units(s & 1 != 0, 1)
  }

  /** The places of five bits, read back. */
  lemma PlacesRead(b16: bool, b8: bool, b4: bool, b2: bool, b1: bool, s: bv32)
    requires s == Place(b16, 16) | Place(b8, 8) | Place(b4, 4) | Place(b2, 2) | Place(b1, 1)
    ensures Symbol(s)
    ensures (s & 16 != 0) == b16 && (s & 8 != 0) == b8 && (s & 4 != 0) == b4 && (s & 2 != 0) == b2 && (s & 1 != 0) == b1
  {
  }

  /** The places of a symbol's own bits are the symbol. */
  lemma PlacesWritten(s: bv32)
    requires Symbol(s)
    ensures Place(s & 16 != 0, 16) | Place(s & 8 != 0, 8) | Place(s & 4 != 0, 4) | Place(s & 2 != 0, 2)
      | Place(s & 1 != 0, 1) == s
  {
  }

  /** Halving five units reads them back. */
  lemma UnitsRead(b16: bool, b8: bool, b4: bool, b2: bool, b1: bool, v: u8)
    requires v == Units(b16, 16) + Units(b8, 8) + Units(b4, 4) + Units(b2, 2) + Units(b1, 1)
    ensures (v / 16 % 2 == 1) == b16 && (v / 8 % 2 == 1) == b8 && (v / 4 % 2 == 1) == b4
    ensures (v / 2 % 2 == 1) == b2 && (v % 2 == 1) == b1
  {
  }

  lemma UnitsWritten(v: u8)
    requires v < 32
    ensures v == Units(v / 16 % 2 == 1, 16) + Units(v / 8 % 2 == 1, 8) + Units(v / 4 % 2 == 1, 4)
                 + Units(v / 2 % 2 == 1, 2) + Units(v % 2 == 1, 1)
  {
  }

  lemma SymbolIsLow(v: u8)
    requires v < 32
    ensures SymbolOf(v) == Place(v / 16 % 2 == 1, 16) | Place(v / 8 % 2 == 1, 8) | Place(v / 4 % 2 == 1, 4)
                           | Place(v / 2 % 2 == 1, 2) | Place(v % 2 == 1, 1)
  {
    assert v / 128 % 2 == 0 && v / 64 % 2 == 0 && v / 32 % 2 == 0;
  }

  lemma SymbolBits(v: u8)
    requires v < 32
    ensures Symbol(SymbolOf(v)) && IndexOf(SymbolOf(v)) == v
  {
    hide Place, Units, SymbolOf, Symbol;
    SymbolIsLow(v);
    PlacesRead(v / 16 % 2 == 1, v / 8 % 2 == 1, v / 4 % 2 == 1, v / 2 % 2 == 1, v % 2 == 1, SymbolOf(v));
    UnitsWritten(v);
  }

  lemma IndexBits(s: bv32)
    requires Symbol(s)
    ensures SymbolOf(IndexOf(s)) == s
  {
    hide Place, Units, SymbolOf, Symbol;
    UnitsRead(s & 16 != 0, s & 8 != 0, s & 4 != 0, s & 2 != 0, s & 1 != 0, IndexOf(s));
    SymbolIsLow(IndexOf(s));
    PlacesWritten(s);
  }

  // ----- Characters

  /** The first place of a character in the character set. */
  function PositionFrom(b: u8, from: nat): (r: Option<u8>)
    requires from <= 32
    ensures r.Some? ==> from <= r.value < 32 && CHARSET[r.value] == b
    ensures r.None? <==> b !in CHARSET[from..]
    decreases 32 - from
  {
    if from == 32 then None else if CHARSET[from] == b then Some(from) else PositionFrom(b, from + 1)
  }

  function CharsetValue(b: u8): Option<u8> {
    PositionFrom(b, 0)
  }

  lemma CharsetDistinct(v: nat, w: nat)
    requires v < w < 32
    ensures CHARSET[v] != CHARSET[w]
  {
  }

  lemma CharsetPlain(v: nat)
    requires v < 32
    ensures CHARSET[v] != SEPARATOR && !IsUpper(CHARSET[v])
  {
  }

  predicate IsLower(b: u8) {
    97 <= b <= 122
  }

  predicate IsUpper(b: u8) {
    65 <= b <= 90
  }

  function LowerByte(b: u8): u8 {
    if IsUpper(b) then b + 32 else b
  }

  function Lower(t: seq<u8>): (r: seq<u8>)
    ensures |r| == |t|
  {
    seq(|t|, i requires 0 <= i < |t| => LowerByte(t[i]))
  }

  predicate HasLower(t: seq<u8>) {
    exists i :: 0 <= i < |t| && IsLower(t[i])
  }

  predicate HasUpper(t: seq<u8>) {
    exists i :: 0 <= i < |t| && IsUpper(t[i])
  }

  predicate IsMixed(t: seq<u8>) {
    HasLower(t) && HasUpper(t)
  }

  /** The last separator: a prefix may contain one. */
  function LastSeparator(t: seq<u8>): (r: Option<nat>)
    ensures r.Some? ==> r.value < |t| && t[r.value] == SEPARATOR && SEPARATOR !in t[r.value + 1..]
    ensures r.None? <==> SEPARATOR !in t
  {
    if t == [] then None
    else if t[|t| - 1] == SEPARATOR then Some(|t| - 1)
    else
      assert t == t[..|t| - 1] + [t[|t| - 1]];
      LastSeparator(t[..|t| - 1])
  }

  predicate PrefixByte(b: u8) {
    33 <= b <= 126
  }

  /** The first byte a prefix may not have. */
  function BadByte(hrp: seq<u8>, upperAllowed: bool): (r: Option<u8>)
    ensures r.None? <==> forall i :: 0 <= i < |hrp| ==> PrefixByte(hrp[i]) && (upperAllowed || !IsUpper(hrp[i]))
  {
    if hrp == [] then None
    else if !PrefixByte(hrp[0]) || (!upperAllowed && IsUpper(hrp[0])) then Some(hrp[0])
    else
      assert hrp == [hrp[0]] + hrp[1..];
      BadByte(hrp[1..], upperAllowed)
  }

  /** The high bits of every prefix byte, a zero, and the low bits of every one. */
  function Expanded(hrp: seq<u8>): (r: seq<u8>)
    ensures |r| == 2 * |hrp| + 1 && AllSymbols(r)
  {
    seq(|hrp|, i requires 0 <= i < |hrp| => hrp[i] / 32)
    + [0]
    + seq(|hrp|, i requires 0 <= i < |hrp| => hrp[i] % 32)
  }

  predicate AllSymbols(data: seq<u8>) {
    forall i :: 0 <= i < |data| ==> data[i] < 32
  }

  function Words(data: seq<u8>): (r: seq<bv32>)
    ensures |r| == |data|
  {
    seq(|data|, i requires 0 <= i < |data| => SymbolOf(data[i]))
  }

  function Indices(words: seq<bv32>): (r: seq<u8>)
    ensures |r| == |words| && AllSymbols(r)
  {
    seq(|words|, i requires 0 <= i < |words| => IndexOf(words[i]))
  }

  /** What a prefix and some symbols check to. */
  function Checked(hrp: seq<u8>, values: seq<u8>): bv32 {
    Polymod(1, Words(Expanded(hrp) + values))
  }

  /** The six symbols that make a prefix and its data check. */
  function CheckSymbols(hrp: seq<u8>, data: seq<u8>): (r: seq<u8>)
    ensures |r| == 6 && AllSymbols(r)
  {
    Indices(Unpacked(Plus(Checked(hrp, data + [0, 0, 0, 0, 0, 0]), BECH32M_CONST)))
  }

  function Chars(values: seq<u8>): (r: seq<u8>)
    requires AllSymbols(values)
    ensures |r| == |values|
  {
    seq(|values|, i requires 0 <= i < |values| => CHARSET[values[i]])
  }

  predicate AllChars(part: seq<u8>) {
    forall i :: 0 <= i < |part| ==> CharsetValue(part[i]).Some?
  }

  /** The first place that holds no data character. */
  function FirstBad(part: seq<u8>): (i: nat)
    ensures i <= |part|
  {
    if part == [] || CharsetValue(part[0]).None? then 0 else FirstBad(part[1..]) + 1
  }

  lemma {:induction false} BadIsHere(part: seq<u8>, i: nat)
    requires i < |part| && AllChars(part[..i]) && CharsetValue(part[i]).None?
    ensures !AllChars(part) && FirstBad(part) == i
  {
    hide CharsetValue;
    assert !AllChars(part);
    if i > 0 {
      assert part[..i][0] == part[0];
      assert AllChars(part[1..][..i - 1]) by {
        assert part[1..][..i - 1] == part[..i][1..];
      }
      BadIsHere(part[1..], i - 1);
    }
  }

  /** The character whose UTF-8 form is at the front. */
  function Scalar(b: seq<int>): int {
    if b == [] then 0
    else if b[0] >= 0xf0 && |b| >= 4 then
      b[0] % 0x08 * 0x4_0000 + b[1] % 0x40 * 0x1000 + b[2] % 0x40 * 0x40 + b[3] % 0x40
    else if 0xe0 <= b[0] < 0xf0 && |b| >= 3 then b[0] % 0x10 * 0x1000 + b[1] % 0x40 * 0x40 + b[2] % 0x40
    else if 0xc0 <= b[0] < 0xe0 && |b| >= 2 then b[0] % 0x20 * 0x40 + b[1] % 0x40
    else b[0]
  }

  function Values(part: seq<u8>): (r: seq<u8>)
    requires AllChars(part)
    ensures |r| == |part| && AllSymbols(r)
  {
    seq(|part|, i requires 0 <= i < |part| => CharsetValue(part[i]).value)
  }

  function Encoded(hrp: seq<u8>, data: seq<u8>): Result<seq<u8>, Bech32Error> {
    if hrp == [] then Failure(EmptyHrp)
    else
      var bad := BadByte(hrp, false);
      if bad.Some? then Failure(BadHrpChar(bad.value))
      else if !AllSymbols(data) then Failure(BadDataChar(QUESTION_MARK))
      else
        var text := hrp + [SEPARATOR] + Chars(data + CheckSymbols(hrp, data));
        if |text| > MAX_LENGTH then Failure(TooLong(|text|)) else Success(text)
  }

  function Decoded(text: seq<u8>): Result<(seq<u8>, seq<u8>), Bech32Error> {
    if |text| > MAX_LENGTH then Failure(TooLong(|text|))
    else if IsMixed(text) then Failure(MixedCase)
    else
      var lowered := Lower(text);
      var separator := LastSeparator(lowered);
      if separator.None? then Failure(NoSeparator)
      else DecodedParts(lowered[..separator.value], lowered[separator.value + 1..])
  }

  function DecodedParts(hrp: seq<u8>, part: seq<u8>): Result<(seq<u8>, seq<u8>), Bech32Error> {
    if hrp == [] then Failure(EmptyHrp)
    else
      var bad := BadByte(hrp, true);
      if bad.Some? then Failure(BadHrpChar(bad.value))
      else if |part| < 6 then Failure(DataTooShort(|part|))
      else if !AllChars(part) then Failure(BadDataChar(Scalar(part[FirstBad(part)..])))
      else
        var values := Values(part);
        var check := Checked(hrp, values);
        if check == BECH32M_CONST then Success((hrp, values[..|values| - 6]))
        else if check == BECH32_CONST then Failure(WrongVariantBech32)
        else Failure(BadChecksum)
  }

  // ----- The checksum on symbols

  lemma WordsAreSymbols(data: seq<u8>)
    requires AllSymbols(data)
    ensures Symbols(Words(data)) && Indices(Words(data)) == data
  {
    hide SymbolOf, IndexOf, Symbol;
    forall i | 0 <= i < |data|
      ensures Symbol(SymbolOf(data[i])) && IndexOf(SymbolOf(data[i])) == data[i]
    {
      SymbolBits(data[i]);
    }
  }

  lemma IndicesAreWords(words: seq<bv32>)
    requires Symbols(words)
    ensures Words(Indices(words)) == words
  {
    hide SymbolOf, IndexOf, Symbol;
    forall i | 0 <= i < |words|
      ensures SymbolOf(IndexOf(words[i])) == words[i]
    {
      assert Symbol(words[i]);
      IndexBits(words[i]);
    }
  }

  lemma WordsAppend(a: seq<u8>, b: seq<u8>)
    ensures Words(a + b) == Words(a) + Words(b)
  {
    hide SymbolOf;
  }

  lemma ZeroWords()
    ensures Words([0, 0, 0, 0, 0, 0]) == [0, 0, 0, 0, 0, 0]
  {
  }

  lemma GoalIsState()
    ensures State(BECH32M_CONST) && State(1)
  {
  }

  /** The check symbols, and no others, make a prefix and its data check. */
  lemma ChecksExactly(hrp: seq<u8>, data: seq<u8>, check: seq<u8>)
    requires AllSymbols(data) && AllSymbols(check) && |check| == 6
    ensures Checked(hrp, data + check) == BECH32M_CONST <==> check == CheckSymbols(hrp, data)
  {
    hide SymbolOf, IndexOf, Symbol, State, Plus, Step, Polymod, Unpacked, Expanded, Words, Indices;
    var front, zeros: seq<u8> := Expanded(hrp) + data, [0, 0, 0, 0, 0, 0];
    var c := Polymod(1, Words(front));
    assert front + check == Expanded(hrp) + (data + check);
    assert front + zeros == Expanded(hrp) + (data + zeros);
    WordsAppend(front, check);
    WordsAppend(front, zeros);
    PolymodAppend(1, Words(front), Words(check));
    PolymodAppend(1, Words(front), Words(zeros));
    ZeroWords();
    GoalIsState();
    WordsAreSymbols(front);
    WordsAreSymbols(check);
    PolymodKeepsState(1, Words(front));
    CheckExactly(c, BECH32M_CONST, Words(check));
    var goal := Plus(Polymod(c, Words(zeros)), BECH32M_CONST);
    UnpackedAreSymbols(goal);
    IndicesAreWords(Unpacked(goal));
  }

  lemma UnpackedAreSymbols(c: bv32)
    ensures Symbols(Unpacked(c))
  {
    hide Symbol;
    MaskedIsSymbol(c >> 25);
    MaskedIsSymbol(c >> 20);
    MaskedIsSymbol(c >> 15);
    MaskedIsSymbol(c >> 10);
    MaskedIsSymbol(c >> 5);
    MaskedIsSymbol(c);
  }

  lemma MaskedIsSymbol(c: bv32)
    ensures Symbol(c & 31)
  {
  }

  // ----- Text and symbols

  lemma CharsAreData(values: seq<u8>)
    requires AllSymbols(values)
    ensures AllChars(Chars(values)) && Values(Chars(values)) == values
    ensures SEPARATOR !in Chars(values) && !HasUpper(Chars(values))
  {
    forall i | 0 <= i < |values|
      ensures CharsetValue(Chars(values)[i]) == Some(values[i])
      ensures Chars(values)[i] != SEPARATOR && !IsUpper(Chars(values)[i])
    {
      hide IsUpper;
      var v := values[i];
      CharsetPlain(v);
      assert CHARSET[v] in CHARSET[0..];
      var w := CharsetValue(CHARSET[v]).value;
      if v < w {
        CharsetDistinct(v, w);
      } else if w < v {
        CharsetDistinct(w, v);
      }
    }
  }

  lemma DataAreChars(part: seq<u8>)
    requires AllChars(part)
    ensures Chars(Values(part)) == part && SEPARATOR !in part
  {
    CharsAreData(Values(part));
    assert Chars(Values(part)) == part;
  }

  lemma SeparatorAt(t: seq<u8>, at: nat)
    requires at < |t| && t[at] == SEPARATOR && SEPARATOR !in t[at + 1..]
    ensures LastSeparator(t) == Some(at)
  {
  }

  lemma SeparatorFound(front: seq<u8>, part: seq<u8>)
    requires SEPARATOR !in part
    ensures LastSeparator(front + [SEPARATOR] + part) == Some(|front|)
  {
    var text := front + [SEPARATOR] + part;
    assert text[|front| + 1..] == part;
    SeparatorAt(text, |front|);
  }

  lemma LowerIsPlain(t: seq<u8>)
    ensures !HasUpper(Lower(t))
    ensures !HasUpper(t) ==> Lower(t) == t
  {
    forall i | 0 <= i < |t|
      ensures !IsUpper(Lower(t)[i]) && (!IsUpper(t[i]) ==> Lower(t)[i] == t[i])
    {
    }
  }

  /** A prefix fit for encoding is one fit for decoding that has no capitals. */
  lemma PrefixFit(hrp: seq<u8>)
    ensures BadByte(hrp, false).None? <==> BadByte(hrp, true).None? && !HasUpper(hrp)
  {
  }

  /** Parts decode to exactly the data whose encoding has those parts. */
  lemma PartsExactly(hrp: seq<u8>, part: seq<u8>, data: seq<u8>)
    requires !HasUpper(hrp) && |hrp| + 1 + |part| <= MAX_LENGTH
    ensures DecodedParts(hrp, part) == Success((hrp, data))
      <==> Encoded(hrp, data) == Success(hrp + [SEPARATOR] + part)
  {
    hide Checked, CheckSymbols, CharsetValue, HasUpper, BadByte;
    PrefixFit(hrp);
    var text := hrp + [SEPARATOR] + part;
    if DecodedParts(hrp, part) == Success((hrp, data)) {
      var values := Values(part);
      var check := values[|values| - 6..];
      assert values == data + check;
      ChecksExactly(hrp, data, check);
      DataAreChars(part);
    }
    if Encoded(hrp, data) == Success(text) {
      var check := CheckSymbols(hrp, data);
      CharsAreData(data + check);
      assert text[|hrp| + 1..] == part;
      assert (hrp + [SEPARATOR] + Chars(data + check))[|hrp| + 1..] == Chars(data + check);
      ChecksExactly(hrp, data, check);
      assert (data + check)[..|data|] == data;
    }
  }

  /** Encoding succeeds exactly for a prefix of printable characters without capitals and for
      five-bit data, when prefix, separator, data and checksum take at most 90 characters. */
  lemma EncodesExactly(hrp: seq<u8>, data: seq<u8>)
    ensures Encoded(hrp, data).Success? <==>
      && hrp != [] && (forall i :: 0 <= i < |hrp| ==> 33 <= hrp[i] <= 126 && !(65 <= hrp[i] <= 90))
      && (forall i :: 0 <= i < |data| ==> data[i] < 32)
      && |hrp| + |data| + 7 <= 90
  {
    hide Chars, CheckSymbols;
  }

  /** Text decodes exactly when, cases aside, it is what encoding the result gives. */
  lemma DecodesExactly(text: seq<u8>, hrp: seq<u8>, data: seq<u8>)
    ensures Decoded(text) == Success((hrp, data)) <==> !IsMixed(text) && Encoded(hrp, data) == Success(Lower(text))
  {
    hide DecodedParts, Encoded, Lower, IsMixed;
    var lowered := Lower(text);
    LowerIsPlain(text);
    if Decoded(text).Success? && !IsMixed(text) {
      var at := LastSeparator(lowered).value;
      PlainParts(lowered, at);
      PartsKept(lowered[..at], lowered[at + 1..]);
      PartsExactly(lowered[..at], lowered[at + 1..], data);
    }
    if Encoded(hrp, data) == Success(lowered) && !IsMixed(text) {
      EncodedParts(hrp, data);
      var part := lowered[|hrp| + 1..];
      PlainParts(lowered, |hrp|);
      PartsExactly(hrp, part, data);
      SeparatorFound(hrp, part);
    }
  }

  lemma PlainParts(lowered: seq<u8>, at: nat)
    requires !HasUpper(lowered) && at < |lowered| && lowered[at] == SEPARATOR
    ensures !HasUpper(lowered[..at]) && lowered == lowered[..at] + [SEPARATOR] + lowered[at + 1..]
  {
  }

  lemma PartsKept(hrp: seq<u8>, part: seq<u8>)
    ensures DecodedParts(hrp, part).Success? ==> DecodedParts(hrp, part).value.0 == hrp
  {
  }

  lemma EncodedParts(hrp: seq<u8>, data: seq<u8>)
    requires Encoded(hrp, data).Success?
    ensures var text := Encoded(hrp, data).value;
      && |hrp| < |text| <= MAX_LENGTH && text[..|hrp|] == hrp && text[|hrp|] == SEPARATOR
      && SEPARATOR !in text[|hrp| + 1..] && !HasUpper(text)
  {
    CharsAreData(data + CheckSymbols(hrp, data));
    var chars := Chars(data + CheckSymbols(hrp, data));
    var text := hrp + [SEPARATOR] + chars;
    assert text[|hrp| + 1..] == chars;
    PrefixFit(hrp);
    forall i | 0 <= i < |text|
      ensures !IsUpper(text[i])
    {
      if i > |hrp| {
        assert text[i] == chars[i - |hrp| - 1];
      }
    }
  }

  /** What encoding gives, decoding takes back. */
  lemma EncodedComesBack(hrp: seq<u8>, data: seq<u8>)
    requires Encoded(hrp, data).Success?
    ensures Decoded(Encoded(hrp, data).value) == Success((hrp, data))
  {
    hide Encoded, Decoded, Lower;
    EncodedParts(hrp, data);
    var text := Encoded(hrp, data).value;
    LowerIsPlain(text);
    DecodesExactly(text, hrp, data);
  }

  // ----- Errors are seen

  /** Text that decodes, differently written within six consecutive data characters, no longer decodes. */
  lemma BurstIsRejected(s: seq<u8>, t: seq<u8>, at: nat)
    requires Decoded(s).Success? && |t| == |s|
    requires LastSeparator(Lower(s)).Some? && LastSeparator(Lower(s)).value < at && at + 6 <= |s|
    requires Lower(t)[..at] == Lower(s)[..at] && Lower(t)[at + 6..] == Lower(s)[at + 6..]
    requires SEPARATOR !in Lower(t)[at..at + 6] && Lower(t) != Lower(s)
    ensures Decoded(t).Failure?
  {
    hide Lower, Decoded, AllChars, Checked, LastSeparator;
    var a, b := Lower(s), Lower(t);
    var sep := LastSeparator(a).value;
    SeparatorStays(a, b, sep, at);
    if Decoded(t).Success? {
      DecodedMeans(s, sep);
      DecodedMeans(t, sep);
      AgreeOutside(a, b, at);
      var p, q, k := a[sep + 1..], b[sep + 1..], at - sep - 1;
      assert a[..sep] == b[..sep] && p[..k] == q[..k] && p[k + 6..] == q[k + 6..];
      SameCheckSameData(a[..sep], p, q, k);
    }
  }

  /** Decoded text checks: its parts are characters, and their symbols meet the constant. */
  lemma DecodedMeans(t: seq<u8>, sep: nat)
    requires Decoded(t).Success? && LastSeparator(Lower(t)) == Some(sep)
    ensures AllChars(Lower(t)[sep + 1..])
    ensures Checked(Lower(t)[..sep], Values(Lower(t)[sep + 1..])) == BECH32M_CONST
  {
    hide Lower, IsMixed, BadByte, Checked, AllChars, LastSeparator;
  }

  lemma AgreeOutside(a: seq<u8>, b: seq<u8>, at: nat)
    requires at + 6 <= |a| == |b|
    requires a[..at] == b[..at] && a[at + 6..] == b[at + 6..]
    ensures forall i :: 0 <= i < |a| && !(at <= i < at + 6) ==> a[i] == b[i]
  {
    forall i | 0 <= i < |a| && !(at <= i < at + 6)
      ensures a[i] == b[i]
    {
      if i < at {
        assert a[i] == a[..at][i] && b[i] == b[..at][i];
      } else {
        assert a[i] == a[at + 6..][i - at - 6] && b[i] == b[at + 6..][i - at - 6];
      }
    }
  }

  lemma SeparatorStays(a: seq<u8>, b: seq<u8>, sep: nat, at: nat)
    requires LastSeparator(a) == Some(sep) && sep < at && at + 6 <= |a| == |b|
    requires a[..at] == b[..at] && a[at + 6..] == b[at + 6..] && SEPARATOR !in b[at..at + 6]
    ensures LastSeparator(b) == Some(sep)
  {
    hide LastSeparator;
    NoneIn(a, sep + 1, |a|);
    NoneIn(b, at, at + 6);
    AgreeOutside(a, b, at);
    assert forall i :: sep < i < |b| ==> b[i] != SEPARATOR;
    assert b[sep] == SEPARATOR;
    SeparatorAt(b, sep);
  }

  lemma NoneIn(t: seq<u8>, from: nat, to: nat)
    requires from <= to <= |t| && SEPARATOR !in t[from..to]
    ensures forall i :: from <= i < to ==> t[i] != SEPARATOR
  {
    forall i | from <= i < to
      ensures t[i] != SEPARATOR
    {
      assert t[from..to][i - from] == t[i];
    }
  }

  lemma SameCheckSameData(hrp: seq<u8>, p: seq<u8>, q: seq<u8>, k: nat)
    requires AllChars(p) && AllChars(q) && k + 6 <= |p| == |q|
    requires p[..k] == q[..k] && p[k + 6..] == q[k + 6..]
    requires Checked(hrp, Values(p)) == Checked(hrp, Values(q))
    ensures p == q
  {
    hide CharsetValue, SymbolOf, IndexOf, Symbol, State, Step, Polymod, Expanded, Words, Indices;
    var v, w := Values(p), Values(q);
    assert v[..k] == w[..k] by {
      assert forall i :: 0 <= i < k ==> p[i] == p[..k][i] == q[..k][i] == q[i];
    }
    assert v[k + 6..] == w[k + 6..] by {
      assert forall i :: k + 6 <= i < |p| ==> p[i] == p[k + 6..][i - k - 6] == q[k + 6..][i - k - 6] == q[i];
    }
    var front, x, y, after := Expanded(hrp) + v[..k], v[k..k + 6], w[k..k + 6], v[k + 6..];
    assert Expanded(hrp) + v == front + x + after;
    assert Expanded(hrp) + w == front + y + after;
    WordsAppend(front + x, after);
    WordsAppend(front, x);
    WordsAppend(front + y, after);
    WordsAppend(front, y);
    WordsAreSymbols(front);
    WordsAreSymbols(x);
    WordsAreSymbols(y);
    WordsAreSymbols(after);
    GoalIsState();
    BurstIsSeen(1, Words(front), Words(x), Words(y), Words(after));
    assert v == v[..k] + x + after && w == w[..k] + y + w[k + 6..];
    DataAreChars(p);
    DataAreChars(q);
  }

  /** Replacing any one data character by another, or swapping two neighbours, is always rejected. */
  lemma SlipsAreRejected(s: seq<u8>, t: seq<u8>, at: nat)
    requires Decoded(s).Success? && |t| == |s| && Lower(t) != Lower(s)
    requires LastSeparator(Lower(s)).Some? && LastSeparator(Lower(s)).value < at < |s|
    requires
      || (Lower(t) == Lower(s)[at := Lower(t)[at]] && Lower(t)[at] != SEPARATOR)
      || (at + 1 < |s| && Lower(t) == Lower(s)[at := Lower(s)[at + 1]][at + 1 := Lower(s)[at]])
    ensures Decoded(t).Failure?
  {
    hide Lower, IsMixed, BadByte, DecodedParts;
    var a, b := Lower(s), Lower(t);
    var sep := LastSeparator(a).value;
    DecodedIsLong(s);
    var from := if at + 6 <= |s| then at else |s| - 6;
    assert a[sep + 1..][at - sep - 1] == a[at];
    if at + 1 < |s| {
      assert a[sep + 1..][at - sep] == a[at + 1];
    }
    forall i | from <= i < from + 6
      ensures b[i] != SEPARATOR
    {
      assert a[sep + 1..][i - sep - 1] == a[i];
    }
    assert b[..from] == a[..from] && b[from + 6..] == a[from + 6..];
    BurstIsRejected(s, t, from);
  }

  lemma DecodedIsLong(s: seq<u8>)
    requires Decoded(s).Success?
    ensures LastSeparator(Lower(s)).Some? && LastSeparator(Lower(s)).value + 7 <= |s|
  {
  }

  // ----- The loops

  const GENERATOR: seq<bv32> := [0x3b6a_57b2, 0x2650_8e6d, 0x1ea1_19fa, 0x3d42_33dd, 0x2a14_62b3]

  /** The state after the first `count` generator words have been fed back. */
  function FedBack(c: bv32, base: bv32, count: nat): bv32
    requires count <= 5
  {
    if count == 0 then base
    else Plus(FedBack(c, base, count - 1), if ((c >> 25) >> (count - 1)) & 1 == 1 then GENERATOR[count - 1] else 0)
  }

  lemma TopBits(c: bv32)
    ensures (((c >> 25) >> 0) & 1 == 1) == (c & 0x0200_0000 != 0)
    ensures (((c >> 25) >> 1) & 1 == 1) == (c & 0x0400_0000 != 0)
    ensures (((c >> 25) >> 2) & 1 == 1) == (c & 0x0800_0000 != 0)
    ensures (((c >> 25) >> 3) & 1 == 1) == (c & 0x1000_0000 != 0)
    ensures (((c >> 25) >> 4) & 1 == 1) == (c & 0x2000_0000 != 0)
  {
  }

  /** Feeding the words back one by one is one step. */
  lemma FedBackIsStep(c: bv32, v: bv32)
    ensures FedBack(c, Plus(MovedUp(c), v), 5) == Step(c, v)
  {
    hide Plus, MovedUp;
    var base := Plus(MovedUp(c), v);
    TopBits(c);
    var f0, f1 := Fed(c, 0x0200_0000, GENERATOR[0]), Fed(c, 0x0400_0000, GENERATOR[1]);
    var f2, f3 := Fed(c, 0x0800_0000, GENERATOR[2]), Fed(c, 0x1000_0000, GENERATOR[3]);
    assert FedBack(c, base, 1) == Plus(base, f0);
    assert FedBack(c, base, 2) == Plus(Plus(base, f0), f1);
    assert FedBack(c, base, 3) == Plus(Plus(Plus(base, f0), f1), f2);
    assert FedBack(c, base, 4) == Plus(Plus(Plus(Plus(base, f0), f1), f2), f3);
    PlusAssociates(base, f0, f1);
    PlusAssociates(base, Plus(f0, f1), f2);
    PlusAssociates(base, Plus(Plus(f0, f1), f2), f3);
    PlusAssociates(base, Plus(Plus(Plus(f0, f1), f2), f3), Fed(c, 0x2000_0000, GENERATOR[4]));
  }

  /** The inner loop: every generator word whose bit of the top symbol is set is added in. */
  method FeedBack(top: bv32, c: bv32, base: bv32) returns (checksum: bv32)
    requires top == c >> 25
    ensures checksum == FedBack(c, base, 5)
  {
    checksum := base;
    for index := 0 to 5
      invariant checksum == FedBack(c, base, index)
    {
      if (top >> index) & 1 == 1 {
        checksum := Plus(checksum, GENERATOR[index]);
      } else {
        PlusZero(checksum);
      }
    }
  }

  method ComputePolymod(values: seq<u8>) returns (checksum: bv32)
    ensures checksum == Polymod(1, Words(values))
  {
    hide SymbolOf, Step, FedBack, Plus, MovedUp;
    checksum := 1;
    assert values[0..] == values;
    for i := 0 to |values|
      invariant Polymod(checksum, Words(values[i..])) == Polymod(1, Words(values))
    {
      FedBackIsStep(checksum, SymbolOf(values[i]));
      assert Words(values[i..])[0] == SymbolOf(values[i]);
      assert Words(values[i..])[1..] == Words(values[i + 1..]);
      checksum := FeedBack(checksum >> 25, checksum, Plus(MovedUp(checksum), SymbolOf(values[i])));
    }
    assert Words(values[|values|..]) == [];
  }

  method ExpandHrp(hrp: seq<u8>) returns (expanded: seq<u8>)
    ensures expanded == Expanded(hrp)
  {
    expanded := [];
    for i := 0 to |hrp|
      invariant expanded == seq(i, k requires 0 <= k < i => hrp[k] / 32)
    {
      expanded := expanded + [hrp[i] / 32];
    }
    expanded := expanded + [0];
    ghost var high := expanded;
    for i := 0 to |hrp|
      invariant expanded == high + seq(i, k requires 0 <= k < i => hrp[k] % 32)
    {
      expanded := expanded + [hrp[i] % 32];
    }
  }

  method FindBadByte(hrp: seq<u8>, upperAllowed: bool) returns (bad: Option<u8>)
    ensures bad == BadByte(hrp, upperAllowed)
  {
    assert hrp[0..] == hrp;
    for i := 0 to |hrp|
      invariant BadByte(hrp[i..], upperAllowed) == BadByte(hrp, upperAllowed)
    {
      assert hrp[i..][1..] == hrp[i + 1..];
      if !PrefixByte(hrp[i]) {
        return Some(hrp[i]);
      }
      if !upperAllowed && IsUpper(hrp[i]) {
        return Some(hrp[i]);
      }
    }
    bad := None;
  }

  method Encode(hrp: seq<u8>, data: seq<u8>) returns (r: Result<seq<u8>, Bech32Error>)
    ensures r == Encoded(hrp, data)
  {
    hide Polymod, Words, Expanded, Plus, Unpacked, BadByte, IndexOf;
    if hrp == [] {
      return Failure(EmptyHrp);
    }
    var bad := FindBadByte(hrp, false);
    if bad.Some? {
      return Failure(BadHrpChar(bad.value));
    }
    var input := ExpandHrp(hrp);
    input := input + data;
    input := input + [0, 0, 0, 0, 0, 0];
    assert input == Expanded(hrp) + (data + [0, 0, 0, 0, 0, 0]);
    var polymod := ComputePolymod(input);
    var checksum := Plus(polymod, BECH32M_CONST);
    var out := hrp + [SEPARATOR];
    for i := 0 to |data|
      invariant AllSymbols(data[..i]) && out == hrp + [SEPARATOR] + Chars(data[..i])
    {
      if data[i] >= 32 {
        return Failure(BadDataChar(QUESTION_MARK));
      }
      assert Chars(data[..i + 1]) == Chars(data[..i]) + [CHARSET[data[i]]];
      out := out + [CHARSET[data[i]]];
    }
    assert data[..|data|] == data;
    ghost var check := CheckSymbols(hrp, data);
    assert check == Indices(Unpacked(checksum));
    for index := 0 to 6
      invariant out == hrp + [SEPARATOR] + Chars(data + check[..index])
    {
      var value := IndexOf(Unpacked(checksum)[index]);
      assert value == check[index];
      assert Chars(data + check[..index + 1]) == Chars(data + check[..index]) + [CHARSET[value]];
      out := out + [CHARSET[value]];
    }
    assert check[..6] == check;
    if |out| > MAX_LENGTH {
      return Failure(TooLong(|out|));
    }
    r := Success(out);
  }

  method Decode(text: seq<u8>) returns (r: Result<(seq<u8>, seq<u8>), Bech32Error>)
    ensures r == Decoded(text)
  {
    hide Polymod, Words, Expanded, BadByte, CharsetValue, Lower, IsMixed;
    if |text| > MAX_LENGTH {
      return Failure(TooLong(|text|));
    }
    if IsMixed(text) {
      return Failure(MixedCase);
    }
    var lowered := Lower(text);
    var separator := LastSeparator(lowered);
    if separator.None? {
      return Failure(NoSeparator);
    }
    var hrp := lowered[..separator.value];
    var part := lowered[separator.value + 1..];
    if hrp == [] {
      return Failure(EmptyHrp);
    }
    var bad := FindBadByte(hrp, true);
    if bad.Some? {
      return Failure(BadHrpChar(bad.value));
    }
    if |part| < 6 {
      return Failure(DataTooShort(|part|));
    }
    var values: seq<u8> := [];
    for i := 0 to |part|
      invariant AllChars(part[..i]) && values == Values(part[..i])
    {
      var value := CharsetValue(part[i]);
      if value.None? {
        BadIsHere(part, i);
        return Failure(BadDataChar(Scalar(part[i..])));
      }
      values := values + [value.value];
      assert values == Values(part[..i + 1]);
    }
    assert part[..|part|] == part;
    var input := ExpandHrp(hrp);
    input := input + values;
    var check := ComputePolymod(input);
    if check == BECH32M_CONST {
      return Success((hrp, values[..|values| - 6]));
    }
    if check == BECH32_CONST {
      return Failure(WrongVariantBech32);
    }
    r := Failure(BadChecksum);
  }
}
