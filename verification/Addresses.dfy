/** Account addresses as text: a network prefix, a version symbol and thirty-two bytes. */
module Addresses {
  import opened Prelude
  import opened Types
  import opened Bits
  import opened BitGroups
  import opened Bech32

  const ADDRESS_VERSION: u8 := 0

  datatype Network = Mainnet | Testnet {
    /** "van" and "tvan". */
    function Hrp(): seq<u8> {
      if Mainnet? then [118, 97, 110] else [116, 118, 97, 110]
    }

    static function FromHrp(hrp: seq<u8>): Option<Network> {
      if hrp == Mainnet.Hrp() then Some(Mainnet) else if hrp == Testnet.Hrp() then Some(Testnet) else None
    }
  }

  datatype Address = Address(network: Network, account: AccountId)

  datatype AddressError =
    | Text(error: Bech32Error)
    | UnknownNetwork(hrp: seq<u8>)
    | WrongNetwork(expected: Network, found: Network)
    | UnknownVersion(version: u8)
    | MissingVersion
    | BadPayloadLength(length: nat)

  lemma SymbolWidth()
    ensures Scaled(1, 5) == 32 && Scaled(1, 8) == 256
  {
    ByteScale(1);
    assert Scaled(1, 3) == 2 * Scaled(1, 2) == 8 * Scaled(1, 0);
    assert Scaled(1, 5) == 2 * Scaled(1, 4) == 4 * Scaled(1, 3);
  }

  /** The thirty-two bytes in five-bit symbols, the last one padded. */
  function Payload(bytes: seq<u8>): (r: seq<u8>)
    ensures AllSymbols(r)
  {
    SymbolWidth();
    PaddedComesBack(bytes, 8, 5);
    var groups := Regrouped(bytes, 8, 5, true).value;
    assert forall i :: 0 <= i < |groups| ==> groups[i] < 32;
    groups
  }

  function ToText(a: Address): Result<seq<u8>, Bech32Error> {
    Encoded(a.network.Hrp(), [ADDRESS_VERSION] + Payload(a.account.raw.bytes))
  }

  function FromText(text: seq<u8>): Result<Address, AddressError> {
    var decoded := Decoded(text);
    if decoded.Failure? then Failure(Text(decoded.error))
    else FromParts(decoded.value.0, decoded.value.1)
  }

  function FromParts(hrp: seq<u8>, data: seq<u8>): Result<Address, AddressError> {
    var network := Network.FromHrp(hrp);
    if network.None? then Failure(UnknownNetwork(hrp))
    else if data == [] then Failure(MissingVersion)
    else if data[0] != ADDRESS_VERSION then Failure(UnknownVersion(data[0]))
    else
      var bytes := Regrouped(data[1..], 5, 8, false);
      if bytes.Failure? then Failure(Text(Bech32Error.BadPadding))
      else if |bytes.value| != 32 then Failure(BadPayloadLength(|bytes.value|))
      else
        SymbolWidth();
        FlattenedGrouped(Flattened(data[1..], 5), 8);
        assert forall i :: 0 <= i < 32 ==> bytes.value[i] < 256;
        Success(Address(network.value, AccountId(Bytes32(bytes.value))))
  }

  function ParseOn(expected: Network, text: seq<u8>): Result<Address, AddressError> {
    var r := FromText(text);
    if r.Success? && r.value.network != expected then Failure(WrongNetwork(expected, r.value.network)) else r
  }

  /** Text parses to exactly the address whose printed form it is, cases aside. */
  lemma ParsesExactly(text: seq<u8>, a: Address)
    ensures FromText(text) == Success(a) <==> !IsMixed(text) && ToText(a) == Success(Lower(text))
  {
    hide Decoded, Encoded, Lower, IsMixed, Regrouped, Payload, FromParts;
    var data := [ADDRESS_VERSION] + Payload(a.account.raw.bytes);
    DecodesExactly(text, a.network.Hrp(), data);
    if Decoded(text).Success? {
      var (hrp, found) := Decoded(text).value;
      DecodesExactly(text, hrp, found);
      EncodedSymbols(hrp, found);
      PartsParseExactly(hrp, found, a);
    }
  }

  lemma EncodedSymbols(hrp: seq<u8>, data: seq<u8>)
    ensures Encoded(hrp, data).Success? ==> AllSymbols(data)
  {
  }

  lemma PartsParseExactly(hrp: seq<u8>, data: seq<u8>, a: Address)
    requires AllSymbols(data)
    ensures FromParts(hrp, data) == Success(a)
      <==> hrp == a.network.Hrp() && data == [ADDRESS_VERSION] + Payload(a.account.raw.bytes)
  {
    hide Regrouped, Scaled, Flattened, Grouped, Leftover;
    var bytes := a.account.raw.bytes;
    SymbolWidth();
    PaddedComesBack(bytes, 8, 5);
    if data != [] && data[0] == ADDRESS_VERSION {
      assert data == [ADDRESS_VERSION] + data[1..];
      PaddingIsExact(bytes, data[1..], 8, 5);
      assert data == [ADDRESS_VERSION] + Payload(bytes) ==> data[1..] == Payload(bytes);
    }
  }

  /** Printing never fails, and gives sixty characters after the prefix. */
  lemma AlwaysPrints(a: Address)
    ensures ToText(a).Success? && |ToText(a).value| == |a.network.Hrp()| + 60
  {
    hide CheckSymbols, Payload;
    PayloadLength(a.account.raw.bytes);
    assert forall i :: 0 <= i < |a.network.Hrp()| ==> PrefixByte(a.network.Hrp()[i]) && !IsUpper(a.network.Hrp()[i]);
  }

  /** It begins with the network's prefix, the separator and the version: "van1q" or "tvan1q". */
  lemma PrintedBegins(a: Address)
    ensures ToText(a).Success?
    ensures a.network.Mainnet? ==> ToText(a).value[..5] == [118, 97, 110, 49, 113]
    ensures a.network.Testnet? ==> ToText(a).value[..6] == [116, 118, 97, 110, 49, 113]
  {
    AlwaysPrints(a);
    hide CheckSymbols, Payload;
    var symbols := [ADDRESS_VERSION] + Payload(a.account.raw.bytes);
    var chars := Chars(symbols + CheckSymbols(a.network.Hrp(), symbols));
    assert chars[0] == 113;
    assert ToText(a).value == a.network.Hrp() + [SEPARATOR] + chars;
    hide Chars, Encoded;
  }

  lemma PayloadLength(bytes: seq<u8>)
    requires |bytes| == 32
    ensures |Payload(bytes)| == 52
  {
    hide Flattened, Grouped, Leftover, Scaled, NumberOf;
    SymbolWidth();
    FlattenedLength(bytes, 8);
    GroupedLength(Flattened(bytes, 8), 5);
  }

  /** A printed address parses back to itself, and in capitals too. */
  lemma PrintedComesBack(a: Address, text: seq<u8>)
    requires ToText(a) == Success(Lower(text)) && !IsMixed(text)
    ensures FromText(text) == Success(a)
    ensures ParseOn(a.network, text) == Success(a)
    ensures forall other :: other != a.network ==> ParseOn(other, text) == Failure(WrongNetwork(other, a.network))
  {
    hide FromText, ToText, IsMixed, Lower;
    ParsesExactly(text, a);
  }

  /** Different addresses never print alike. */
  lemma PrintsApart(a: Address, b: Address)
    requires ToText(a) == ToText(b)
    ensures a == b
  {
    hide ToText, FromText, Lower, IsMixed;
    AlwaysPrints(a);
    var text := ToText(a).value;
    PrintedIsPlain(a);
    ParsesExactly(text, a);
    ParsesExactly(text, b);
  }

  lemma PrintedIsPlain(a: Address)
    requires ToText(a).Success?
    ensures Lower(ToText(a).value) == ToText(a).value && !IsMixed(ToText(a).value)
  {
    hide Lower, Encoded, HasUpper, HasLower;
    EncodedParts(a.network.Hrp(), [ADDRESS_VERSION] + Payload(a.account.raw.bytes));
    LowerIsPlain(ToText(a).value);
  }

  /** An address with one character mistyped, or two neighbours swapped, after the separator is never accepted. */
  lemma SlipsNeverPay(a: Address, text: seq<u8>, at: nat)
    requires ToText(a).Success?
    requires var s := ToText(a).value;
      && |text| == |s| && |a.network.Hrp()| < at < |s| && Lower(text) != s
      && (|| (Lower(text) == s[at := Lower(text)[at]] && Lower(text)[at] != SEPARATOR)
          || (at + 1 < |s| && Lower(text) == s[at := s[at + 1]][at + 1 := s[at]]))
    ensures FromText(text).Failure?
  {
    hide Lower, Encoded, Decoded, HasUpper, HasLower, FromParts, IsMixed;
    var s := ToText(a).value;
    var data := [ADDRESS_VERSION] + Payload(a.account.raw.bytes);
    PrintedIsPlain(a);
    EncodedComesBack(a.network.Hrp(), data);
    EncodedParts(a.network.Hrp(), data);
    assert s == s[..|a.network.Hrp()|] + [SEPARATOR] + s[|a.network.Hrp()| + 1..];
    SeparatorFound(s[..|a.network.Hrp()|], s[|a.network.Hrp()| + 1..]);
    SlipsAreRejected(s, text, at);
  }

  method Print(a: Address) returns (r: Result<seq<u8>, Bech32Error>)
    ensures r == ToText(a) && r.Success?
  {
    hide Scaled, Regrouped, Encoded;
    SymbolWidth();
    AlwaysPrints(a);
    var payload := ConvertBits(a.account.raw.bytes, 8, 5, true);
    PaddedComesBack(a.account.raw.bytes, 8, 5);
    r := Encode(a.network.Hrp(), [ADDRESS_VERSION] + payload.value);
  }

  method Parse(text: seq<u8>) returns (r: Result<Address, AddressError>)
    ensures r == FromText(text)
  {
    hide Scaled, Regrouped, Encoded, Decoded, Lower, IsMixed;
    var decoded := Decode(text);
    if decoded.Failure? {
      return Failure(Text(decoded.error));
    }
    var (hrp, data) := decoded.value;
    DecodesExactly(text, hrp, data);
    EncodedSymbols(hrp, data);
    var network := Network.FromHrp(hrp);
    if network.None? {
      return Failure(UnknownNetwork(hrp));
    }
    if data == [] {
      return Failure(MissingVersion);
    }
    if data[0] != ADDRESS_VERSION {
      return Failure(UnknownVersion(data[0]));
    }
    SymbolWidth();
    var bytes := ConvertBits(data[1..], 5, 8, false);
    if bytes.Failure? {
      return Failure(Text(Bech32Error.BadPadding));
    }
    if |bytes.value| != 32 {
      return Failure(BadPayloadLength(|bytes.value|));
    }
    assert forall i :: 0 <= i < 32 ==> bytes.value[i] < 256;
    r := Success(Address(network.value, AccountId(Bytes32(bytes.value))));
  }
}
