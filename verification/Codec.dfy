/**
  The canonical encoding. A codec is lawful when encoding then decoding gives the value
  back, whatever follows it, and when decoding accepts nothing but the encoding of
  what it returns. Laws compose, so records inherit them from their fields.
 */
module Codec {
  import opened Prelude
  import opened Orders

  type Bytes = seq<u8>

  const MAX_OBJECT_SIZE: nat := 1_048_576
  const MAX_SEQ_LEN: nat := 65_536
  const MAX_BYTES_LEN: nat := 1_048_576
  const MAX_NESTING: nat := 32
  const MAX_VARINT_BYTES: nat := 10

  datatype CodecError =
    | UnexpectedEnd
    | TrailingBytes(count: nat)
    | NonCanonicalVarint
    | VarintTooWide
    | VarintOverflow
    | NonCanonicalBool(byte: u8)
    | BadOptionTag(tag: u8)
    | LimitExceeded(max: nat, got: nat)
    | LengthBeyondInput(declared: nat, remaining: nat)
    | InvalidUtf8
    | UnorderedSet
    | TooDeep
    | Invalid

  /** A value and the bytes after it. */
  type Parse<T> = Result<(T, Bytes), CodecError>

  // ----- Varints

  /** Unsigned LEB128 in shortest form. */
  function EncVarint(value: nat): Bytes {
    if value < 128 then [value] else [value % 128 + 128] + EncVarint(value / 128)
  }

  /** How many values a varint may still take once `read` bytes are behind it. */
  function Room(read: nat): nat
    decreases MAX_VARINT_BYTES - read
  {
    if read >= 9 then 2 else 128 * Room(read + 1)
  }

  /** Decodes the rest of a varint, `read` of whose bytes are behind. */
  function DecVarint(b: Bytes, read: nat): Parse<nat>
    requires read < MAX_VARINT_BYTES
    decreases MAX_VARINT_BYTES - read
  {
    if b == [] then Failure(UnexpectedEnd)
    else
      var payload := b[0] % 128;
      if payload >= Room(read) then Failure(VarintOverflow)
      else if b[0] < 128 then
        if read > 0 && b[0] == 0 then Failure(NonCanonicalVarint) else Success((payload, b[1..]))
      else if read == 9 then Failure(VarintTooWide)
      else
        match DecVarint(b[1..], read + 1)
        case Failure(e) => Failure(e)
        case Success((high, rest)) => Success((payload + 128 * high, rest))
  }

  lemma RoomStep(read: nat)
    requires read < 9
    ensures Room(read) == 128 * Room(read + 1) && Room(read) >= 256
    decreases 9 - read
  {
    if read < 8 {
      RoomStep(read + 1);
    }
  }

  lemma MoreToRead(byte: u8, tail: Bytes, read: nat)
    requires byte >= 128 && read < 9
    ensures DecVarint([byte] + tail, read) == match DecVarint(tail, read + 1)
      case Failure(e) => Failure(e)
      case Success((high, rest)) => Success((byte - 128 + 128 * high, rest))
  {
    RoomStep(read);
    assert ([byte] + tail)[1..] == tail;
  }

  lemma {:induction false} VarintReads(value: nat, read: nat, rest: Bytes)
    requires read < MAX_VARINT_BYTES && value < Room(read) && (read > 0 ==> value > 0)
    ensures DecVarint(EncVarint(value) + rest, read) == Success((value, rest))
    decreases value
  {
    if value < 128 {
      assert ([value] + rest)[1..] == rest;
    } else {
      RoomStep(read);
      VarintReads(value / 128, read + 1, rest);
      MoreToRead(value % 128 + 128, EncVarint(value / 128) + rest, read);
      hide DecVarint;
      assert EncVarint(value) + rest == [value % 128 + 128] + (EncVarint(value / 128) + rest);
    }
  }

  lemma {:induction false} VarintOnly(b: Bytes, read: nat)
    requires read < MAX_VARINT_BYTES && DecVarint(b, read).Success?
    ensures var (value, rest) := DecVarint(b, read).value;
      && value < Room(read) && (read > 0 ==> value > 0)
      && b == EncVarint(value) + rest
    decreases MAX_VARINT_BYTES - read
  {
    if b[0] >= 128 {
      RoomStep(read);
      VarintOnly(b[1..], read + 1);
      var (high, rest) := DecVarint(b[1..], read + 1).value;
      var value := DecVarint(b, read).value.0;
      assert value % 128 == b[0] - 128 && value / 128 == high;
      assert b == [b[0]] + (EncVarint(high) + rest);
    }
  }

  lemma RoomIsU64()
    ensures Room(0) == U64_LIMIT
  {
    assert Room(6) == 128 * Room(7) && Room(7) == 128 * Room(8) && Room(8) == 256;
    assert Room(3) == 128 * Room(4) && Room(4) == 128 * Room(5) && Room(5) == 128 * Room(6);
    assert Room(0) == 128 * Room(1) && Room(1) == 128 * Room(2) && Room(2) == 128 * Room(3);
  }

  /** Reading accepts a byte string exactly when it is what writing the value returned gives. */
  lemma VarintExactly(b: Bytes, value: nat, rest: Bytes)
    ensures DecVarint(b, 0) == Success((value, rest)) <==> value < U64_LIMIT && b == EncVarint(value) + rest
  {
    RoomIsU64();
    if DecVarint(b, 0) == Success((value, rest)) {
      VarintOnly(b, 0);
    }
    if value < U64_LIMIT && b == EncVarint(value) + rest {
      VarintReads(value, 0, rest);
    }
  }

  lemma {:induction false} VarintNonEmpty(value: nat)
    ensures |EncVarint(value)| >= 1
  {
  }

  /** A length, saturating rather than wrapping. */
  function EncLen(length: nat): Bytes {
    EncVarint(Min(length, U64_LIMIT - 1))
  }

  // ----- Codecs and their laws

  /** How one type is written and read: `depth` is how many composites are open around it,
      `height` how many more it may open. */
  datatype Codec<!T> = Codec(
    valid: T -> bool,
    enc: T -> Bytes,
    dec: (nat, Bytes) -> Parse<T>,
    height: nat)

  ghost predicate RoundTrips<T(!new)>(c: Codec<T>) {
    forall x, rest, depth: nat :: c.valid(x) && depth + c.height <= MAX_NESTING ==>
      c.dec(depth, c.enc(x) + rest) == Success((x, rest))
  }

  ghost predicate AcceptsOnlyImages<T(!new)>(c: Codec<T>) {
    forall b, depth: nat :: c.dec(depth, b).Success? ==>
      c.valid(c.dec(depth, b).value.0) && b == c.enc(c.dec(depth, b).value.0) + c.dec(depth, b).value.1
  }

  ghost predicate NeverEmpty<T(!new)>(c: Codec<T>) {
    forall x :: c.valid(x) ==> |c.enc(x)| >= 1
  }

  ghost predicate Lawful<T(!new)>(c: Codec<T>) {
    RoundTrips(c) && AcceptsOnlyImages(c) && NeverEmpty(c)
  }

  lemma Reads<T(!new)>(c: Codec<T>, x: T, rest: Bytes, depth: nat)
    requires Lawful(c) && c.valid(x) && depth + c.height <= MAX_NESTING
    ensures c.dec(depth, c.enc(x) + rest) == Success((x, rest))
  {
  }

  lemma Accepts<T(!new)>(c: Codec<T>, b: Bytes, depth: nat)
    requires Lawful(c) && c.dec(depth, b).Success?
    ensures c.valid(c.dec(depth, b).value.0) && b == c.enc(c.dec(depth, b).value.0) + c.dec(depth, b).value.1
  {
  }

  lemma WritesSomething<T(!new)>(c: Codec<T>, x: T)
    requires Lawful(c) && c.valid(x)
    ensures |c.enc(x)| >= 1
  {
  }

  /** Encodings are uniquely decodable even inside a longer byte string. */
  lemma PrefixFree<T(!new)>(c: Codec<T>, x: T, rest: Bytes, y: T, more: Bytes)
    requires Lawful(c) && c.height <= MAX_NESTING && c.valid(x) && c.valid(y)
    requires c.enc(x) + rest == c.enc(y) + more
    ensures x == y && rest == more
  {
    Reads(c, x, rest, 0);
    Reads(c, y, more, 0);
  }

  // ----- Top level

  ghost function FromCanonicalBytes<T(!new)>(c: Codec<T>, b: Bytes): Result<T, CodecError> {
    if |b| > MAX_OBJECT_SIZE then Failure(LimitExceeded(MAX_OBJECT_SIZE, |b|))
    else
      match c.dec(0, b)
      case Failure(e) => Failure(e)
      case Success((x, rest)) => if rest == [] then Success(x) else Failure(TrailingBytes(|rest|))
  }

  /** Decoding succeeds exactly on the image of encoding within the size limit: every object
      has one encoding and every accepted byte string one object. */
  lemma Bijective<T(!new)>(c: Codec<T>, b: Bytes, x: T)
    requires Lawful(c) && c.height <= 32
    ensures FromCanonicalBytes(c, b) == Success(x) <==> |b| <= 1_048_576 && c.valid(x) && b == c.enc(x)
  {
    if c.valid(x) && b == c.enc(x) {
      Reads(c, x, [], 0);
      assert b == c.enc(x) + [];
    }
    if c.dec(0, b).Success? {
      Accepts(c, b, 0);
      var (y, rest) := c.dec(0, b).value;
      assert rest == [] ==> c.enc(y) + rest == c.enc(y);
    }
  }

  // ----- Numbers, flags and fixed-width bytes

  ghost function Varint(limit: nat): Codec<int> {
    Codec(
      (x: int) => 0 <= x < limit && x < U64_LIMIT,
      (x: int) => if x >= 0 then EncVarint(x) else [],
      (depth: nat, b: Bytes) => DecNumber(limit, b),
      0)
  }

  function DecNumber(limit: nat, b: Bytes): Parse<int> {
    match DecVarint(b, 0)
    case Failure(e) => Failure(e)
    case Success((value, rest)) => if value < limit then Success((value, rest)) else Failure(VarintOverflow)
  }

  lemma VarintLawful(limit: nat)
    ensures Lawful(Varint(limit))
  {
    hide EncVarint, DecVarint;
    var c := Varint(limit);
    forall x, rest, depth: nat | c.valid(x) ensures c.dec(depth, c.enc(x) + rest) == Success((x, rest)) {
      VarintExactly(EncVarint(x) + rest, x, rest);
    }
    forall b, depth: nat | c.dec(depth, b).Success?
      ensures c.valid(c.dec(depth, b).value.0) && b == c.enc(c.dec(depth, b).value.0) + c.dec(depth, b).value.1
    {
      VarintExactly(b, c.dec(depth, b).value.0, c.dec(depth, b).value.1);
    }
    forall x | c.valid(x) ensures |c.enc(x)| >= 1 {
      VarintNonEmpty(x);
    }
  }

  function DecFlag(b: Bytes): Parse<bool> {
    if b == [] then Failure(UnexpectedEnd)
    else if b[0] == 0 then Success((false, b[1..]))
    else if b[0] == 1 then Success((true, b[1..]))
    else Failure(NonCanonicalBool(b[0]))
  }

  ghost function Flag(): Codec<bool> {
    Codec(
      (x: bool) => true,
      (x: bool) => if x then [1] else [0],
      (depth: nat, b: Bytes) => DecFlag(b),
      0)
  }

  lemma FlagLawful()
    ensures Lawful(Flag())
  {
    var c := Flag();
    forall x, rest, depth: nat ensures c.dec(depth, c.enc(x) + rest) == Success((x, rest)) {
      assert (c.enc(x) + rest)[1..] == rest;
    }
    forall b, depth: nat | c.dec(depth, b).Success? ensures b == c.enc(c.dec(depth, b).value.0)
        + c.dec(depth, b).value.1 {
      assert b == [b[0]] + b[1..];
    }
  }

  /** Exactly `n` raw bytes. */
  ghost function FixedBytes(n: nat): Codec<Bytes>
    requires n >= 1
  {
    Codec(
      (x: Bytes) => |x| == n,
      (x: Bytes) => x,
      (depth: nat, b: Bytes) => if |b| < n then Failure(UnexpectedEnd) else Success((b[..n], b[n..])),
      0)
  }

  lemma FixedBytesLawful(n: nat)
    requires n >= 1
    ensures Lawful(FixedBytes(n))
  {
    var c := FixedBytes(n);
    forall x, rest, depth: nat | c.valid(x) ensures c.dec(depth, c.enc(x) + rest) == Success((x, rest)) {
      assert (x + rest)[..n] == x && (x + rest)[n..] == rest;
    }
    forall b, depth: nat | c.dec(depth, b).Success? ensures b == c.enc(c.dec(depth, b).value.0)
        + c.dec(depth, b).value.1 {
      assert b == b[..n] + b[n..];
    }
  }

  function DecBytes(b: Bytes): Parse<Bytes> {
    match DecVarint(b, 0)
    case Failure(e) => Failure(e)
    case Success((n, rest)) =>
      if n > MAX_BYTES_LEN then Failure(LimitExceeded(MAX_BYTES_LEN, n))
      else if n > |rest| then Failure(LengthBeyondInput(n, |rest|))
      else Success((rest[..n], rest[n..]))
  }

  /** A length-prefixed byte string. */
  ghost function Prefixed(): Codec<Bytes> {
    Codec(
      (x: Bytes) => |x| <= MAX_BYTES_LEN,
      (x: Bytes) => EncLen(|x|) + x,
      (depth: nat, b: Bytes) => DecBytes(b),
      0)
  }

  lemma PrefixedLawful()
    ensures Lawful(Prefixed())
  {
    hide EncVarint, DecVarint;
    var c := Prefixed();
    forall x, rest, depth: nat | c.valid(x) ensures c.dec(depth, c.enc(x) + rest) == Success((x, rest)) {
      assert EncLen(|x|) + x + rest == EncVarint(|x|) + (x + rest);
      VarintExactly(c.enc(x) + rest, |x|, x + rest);
      assert (x + rest)[..|x|] == x && (x + rest)[|x|..] == rest;
    }
    forall b, depth: nat | c.dec(depth, b).Success?
      ensures c.valid(c.dec(depth, b).value.0) && b == c.enc(c.dec(depth, b).value.0) + c.dec(depth, b).value.1
    {
      var (n, rest) := DecVarint(b, 0).value;
      VarintExactly(b, n, rest);
      assert rest == rest[..n] + rest[n..];
      assert EncVarint(n) + rest == EncVarint(n) + rest[..n] + rest[n..];
    }
    forall x | c.valid(x) ensures |c.enc(x)| >= 1 {
      VarintNonEmpty(Min(|x|, U64_LIMIT - 1));
    }
  }

  predicate Continuation(b: u8) {
    0x80 <= b <= 0xbf
  }

  /** How many bytes the character at the front takes, or none if they are ill-formed. */
  function CharWidth(b: Bytes): (n: nat)
    ensures n <= |b| && n <= 4
  {
    if b == [] then 0
    else if b[0] < 0x80 then 1
    else if |b| >= 2 && 0xc2 <= b[0] <= 0xdf && Continuation(b[1]) then 2
    else if |b| >= 3 && 0xe0 <= b[0] <= 0xef && Continuation(b[1]) && Continuation(b[2])
            && (b[0] == 0xe0 ==> b[1] >= 0xa0) && (b[0] == 0xed ==> b[1] <= 0x9f) then 3
    else if |b| >= 4 && 0xf0 <= b[0] <= 0xf4 && Continuation(b[1]) && Continuation(b[2]) && Continuation(b[3])
            && (b[0] == 0xf0 ==> b[1] >= 0x90) && (b[0] == 0xf4 ==> b[1] <= 0x8f) then 4
    else 0
  }

  /** Well-formed UTF-8, as table 3-7 of the Unicode standard lists it. */
  predicate IsUtf8(b: Bytes) {
    b == [] || (CharWidth(b) > 0 && IsUtf8(b[CharWidth(b)..]))
  }

  lemma {:induction false} AsciiIsUtf8(b: Bytes)
    requires forall i :: 0 <= i < |b| ==> b[i] < 0x80
    ensures IsUtf8(b)
    decreases |b|
  {
    if b != [] {
      AsciiIsUtf8(b[1..]);
    }
  }

  function DecStr(b: Bytes): Parse<Bytes> {
    match DecBytes(b)
    case Failure(e) => Failure(e)
    case Success((text, rest)) => if IsUtf8(text) then Success((text, rest)) else Failure(InvalidUtf8)
  }

  /** A length-prefixed string, as its bytes. */
  ghost function Text(): Codec<Bytes> {
    Codec(
      (x: Bytes) => |x| <= MAX_BYTES_LEN && IsUtf8(x),
      (x: Bytes) => EncLen(|x|) + x,
      (depth: nat, b: Bytes) => DecStr(b),
      0)
  }

  lemma TextLawful()
    ensures Lawful(Text())
    ensures forall x :: Text().valid(x) <==> |x| <= 1_048_576 && IsUtf8(x)
  {
    PrefixedLawful();
    hide DecBytes, IsUtf8, EncLen, Lawful;
    var c, p := Text(), Prefixed();
    forall x, rest, depth: nat | c.valid(x) ensures c.dec(depth, c.enc(x) + rest) == Success((x, rest)) {
      Reads(p, x, rest, 0);
    }
    forall b, depth: nat | c.dec(depth, b).Success?
      ensures c.valid(c.dec(depth, b).value.0) && b == c.enc(c.dec(depth, b).value.0) + c.dec(depth, b).value.1
    {
      Accepts(p, b, depth);
    }
    forall x | c.valid(x) ensures |c.enc(x)| >= 1 {
      WritesSomething(p, x);
    }
    LawfulFromLaws(c);
  }

  // ----- Pairs and refinements

  ghost function DecPair<A(!new), B(!new)>(c: Codec<A>, d: Codec<B>, depth: nat, b: Bytes): Parse<(A, B)> {
    match c.dec(depth, b)
    case Failure(e) => Failure(e)
    case Success((x, rest)) =>
      match d.dec(depth, rest)
      case Failure(e) => Failure(e)
      case Success((y, more)) => Success(((x, y), more))
  }

  ghost function Pair<A(!new), B(!new)>(c: Codec<A>, d: Codec<B>): Codec<(A, B)> {
    Codec(
      (p: (A, B)) => c.valid(p.0) && d.valid(p.1),
      (p: (A, B)) => c.enc(p.0) + d.enc(p.1),
      (depth: nat, b: Bytes) => DecPair(c, d, depth, b),
      if c.height >= d.height then c.height else d.height)
  }

  lemma PairLawful<A(!new), B(!new)>(c: Codec<A>, d: Codec<B>)
    requires Lawful(c) && Lawful(d)
    ensures Lawful(Pair(c, d))
  {
    hide Lawful;
    var p := Pair(c, d);
    forall x: (A, B), rest, depth: nat | p.valid(x) && depth + p.height <= MAX_NESTING
      ensures p.dec(depth, p.enc(x) + rest) == Success((x, rest))
    {
      assert p.enc(x) + rest == c.enc(x.0) + (d.enc(x.1) + rest);
      Reads(c, x.0, d.enc(x.1) + rest, depth);
      Reads(d, x.1, rest, depth);
    }
    forall b, depth: nat | p.dec(depth, b).Success?
      ensures p.valid(p.dec(depth, b).value.0) && b == p.enc(p.dec(depth, b).value.0) + p.dec(depth, b).value.1
    {
      Accepts(c, b, depth);
      var (x, rest) := c.dec(depth, b).value;
      Accepts(d, rest, depth);
      var (y, more) := d.dec(depth, rest).value;
      assert c.enc(x) + (d.enc(y) + more) == c.enc(x) + d.enc(y) + more;
    }
    forall x: (A, B) | p.valid(x) ensures |p.enc(x)| >= 1 {
      WritesSomething(c, x.0);
    }
    LawfulFromLaws(p);
  }

  lemma LawfulFromLaws<T(!new)>(c: Codec<T>)
    requires RoundTrips(c) && AcceptsOnlyImages(c) && NeverEmpty(c)
    ensures Lawful(c)
  {
  }

  /** A type seen through another: reading refuses what does not refine. */
  ghost function Refine<A(!new), B(!new)>(c: Codec<A>, to: A -> Option<B>, from: B -> A): Codec<B> {
    Codec(
      (y: B) => c.valid(from(y)) && to(from(y)) == Some(y),
      (y: B) => c.enc(from(y)),
      (depth: nat, b: Bytes) => DecRefined(c, to, depth, b),
      c.height)
  }

  ghost function DecRefined<A(!new), B(!new)>(c: Codec<A>, to: A -> Option<B>, depth: nat, b: Bytes): Parse<B> {
    match c.dec(depth, b)
    case Failure(e) => Failure(e)
    case Success((x, rest)) =>
      match to(x)
      case None => Failure(Invalid)
      case Some(y) => Success((y, rest))
  }

  lemma RefineLawful<A(!new), B(!new)>(c: Codec<A>, to: A -> Option<B>, from: B -> A)
    requires Lawful(c)
    requires forall x :: c.valid(x) && to(x).Some? ==> from(to(x).value) == x
    ensures Lawful(Refine(c, to, from))
  {
    hide Lawful;
    var r := Refine(c, to, from);
    forall y, rest, depth: nat | r.valid(y) && depth + r.height <= MAX_NESTING
      ensures r.dec(depth, r.enc(y) + rest) == Success((y, rest))
    {
      Reads(c, from(y), rest, depth);
    }
    forall b, depth: nat | r.dec(depth, b).Success?
      ensures r.valid(r.dec(depth, b).value.0) && b == r.enc(r.dec(depth, b).value.0) + r.dec(depth, b).value.1
    {
      Accepts(c, b, depth);
    }
    forall y | r.valid(y) ensures |r.enc(y)| >= 1 {
      WritesSomething(c, from(y));
    }
    LawfulFromLaws(r);
  }

  // ----- Options

  ghost function DecOption<T(!new)>(c: Codec<T>, depth: nat, b: Bytes): Parse<Option<T>> {
    if b == [] then Failure(UnexpectedEnd)
    else if b[0] == 0 then Success((None, b[1..]))
    else if b[0] != 1 then Failure(BadOptionTag(b[0]))
    else if depth >= MAX_NESTING then Failure(TooDeep)
    else
      match c.dec(depth + 1, b[1..])
      case Failure(e) => Failure(e)
      case Success((x, rest)) => Success((Some(x), rest))
  }

  ghost function Optional<T(!new)>(c: Codec<T>): Codec<Option<T>> {
    Codec(
      (x: Option<T>) => x.Some? ==> c.valid(x.value),
      (x: Option<T>) => if x.Some? then [1] + c.enc(x.value) else [0],
      (depth: nat, b: Bytes) => DecOption(c, depth, b),
      c.height + 1)
  }

  lemma OptionalLawful<T(!new)>(c: Codec<T>)
    requires Lawful(c)
    ensures Lawful(Optional(c))
  {
    hide Lawful;
    var p := Optional(c);
    forall x: Option<T>, rest, depth: nat | p.valid(x) && depth + p.height <= MAX_NESTING
      ensures p.dec(depth, p.enc(x) + rest) == Success((x, rest))
    {
      if x.Some? {
        assert (p.enc(x) + rest)[1..] == c.enc(x.value) + rest;
        Reads(c, x.value, rest, depth + 1);
      } else {
        assert (p.enc(x) + rest)[1..] == rest;
      }
    }
    forall b, depth: nat | p.dec(depth, b).Success?
      ensures p.valid(p.dec(depth, b).value.0) && b == p.enc(p.dec(depth, b).value.0) + p.dec(depth, b).value.1
    {
      assert b == [b[0]] + b[1..];
      if b[0] == 1 {
        Accepts(c, b[1..], depth + 1);
        var (x, rest) := c.dec(depth + 1, b[1..]).value;
        assert [1] + (c.enc(x) + rest) == [1] + c.enc(x) + rest;
      }
    }
    LawfulFromLaws(p);
  }

  // ----- Ascending lists, the form of every set and map

  /** A list whose ranks ascend strictly, from `least` on. */
  ghost predicate AscendsFrom<T(!new)>(rank: T -> nat, least: nat, xs: seq<T>)
    decreases |xs|
  {
    xs == [] || (rank(xs[0]) >= least && AscendsFrom(rank, rank(xs[0]) + 1, xs[1..]))
  }

  ghost predicate AllValid<T(!new)>(c: Codec<T>, xs: seq<T>) {
    forall x :: x in xs ==> c.valid(x)
  }

  ghost function EncItems<T(!new)>(c: Codec<T>, xs: seq<T>): Bytes
    decreases |xs|
  {
    if xs == [] then [] else c.enc(xs[0]) + EncItems(c, xs[1..])
  }

  ghost function DecItems<T(!new)>(c: Codec<T>, rank: T -> nat, depth: nat, count: nat, least: nat,
      b: Bytes): Parse<seq<T>>
    decreases count
  {
    if count == 0 then Success(([], b))
    else
      match c.dec(depth, b)
      case Failure(e) => Failure(e)
      case Success((x, rest)) =>
        if rank(x) < least then Failure(UnorderedSet)
        else
          match DecItems(c, rank, depth, count - 1, rank(x) + 1, rest)
          case Failure(e) => Failure(e)
          case Success((xs, more)) => Success(([x] + xs, more))
  }

  lemma {:induction false} ItemsRead<T(!new)>(c: Codec<T>, rank: T -> nat, depth: nat, least: nat, xs: seq<T>,
      rest: Bytes)
    requires Lawful(c) && depth + c.height <= MAX_NESTING
    requires AllValid(c, xs) && AscendsFrom(rank, least, xs)
    ensures DecItems(c, rank, depth, |xs|, least, EncItems(c, xs) + rest) == Success((xs, rest))
    decreases |xs|
  {
    hide Lawful;
    if xs == [] {
      assert EncItems(c, xs) + rest == rest;
    } else {
      assert EncItems(c, xs) + rest == c.enc(xs[0]) + (EncItems(c, xs[1..]) + rest);
      assert xs[0] in xs;
      Reads(c, xs[0], EncItems(c, xs[1..]) + rest, depth);
      ItemsRead(c, rank, depth, rank(xs[0]) + 1, xs[1..], rest);
      assert xs == [xs[0]] + xs[1..];
    }
  }

  lemma {:induction false} ItemsOnly<T(!new)>(c: Codec<T>, rank: T -> nat, depth: nat, count: nat, least: nat, b: Bytes)
    requires Lawful(c) && DecItems(c, rank, depth, count, least, b).Success?
    ensures var (xs, rest) := DecItems(c, rank, depth, count, least, b).value;
      && |xs| == count && AllValid(c, xs) && AscendsFrom(rank, least, xs)
      && b == EncItems(c, xs) + rest
    decreases count
  {
    hide Lawful;
    if count != 0 {
      Accepts(c, b, depth);
      var (x, more) := c.dec(depth, b).value;
      ItemsOnly(c, rank, depth, count - 1, rank(x) + 1, more);
      var (tail, rest) := DecItems(c, rank, depth, count - 1, rank(x) + 1, more).value;
      var xs := [x] + tail;
      assert xs[1..] == tail;
      assert c.enc(x) + (EncItems(c, tail) + rest) == c.enc(x) + EncItems(c, tail) + rest;
    }
  }

  /** Each item takes at least one byte, so a count beyond the remaining bytes is a lie. */
  lemma {:induction false} ItemsTakeRoom<T(!new)>(c: Codec<T>, xs: seq<T>)
    requires Lawful(c) && AllValid(c, xs)
    ensures |EncItems(c, xs)| >= |xs|
    decreases |xs|
  {
    hide Lawful;
    if xs != [] {
      assert xs[0] in xs;
      WritesSomething(c, xs[0]);
      ItemsTakeRoom(c, xs[1..]);
    }
  }

  /** A sequence count, checked against the limit and against the bytes that remain. */
  function DecCount(limit: nat, b: Bytes): Parse<nat> {
    match DecVarint(b, 0)
    case Failure(e) => Failure(e)
    case Success((n, rest)) =>
      if n > limit then Failure(LimitExceeded(limit, n))
      else if n > |rest| then Failure(LengthBeyondInput(n, |rest|))
      else Success((n, rest))
  }

  ghost function DecAscending<T(!new)>(c: Codec<T>, rank: T -> nat, limit: nat, nested: nat, depth: nat,
      b: Bytes): Parse<seq<T>> {
    match DecCount(limit, b)
    case Failure(e) => Failure(e)
    case Success((n, rest)) =>
      if n > 0 && depth + nested > MAX_NESTING then Failure(TooDeep)
      else DecItems(c, rank, depth + nested, n, 0, rest)
  }

  /** A counted, strictly ascending list; `nested` is 1 where each item opens a composite. */
  ghost function AscendingList<T(!new)>(c: Codec<T>, rank: T -> nat, limit: nat, nested: nat): Codec<seq<T>> {
    Codec(
      (xs: seq<T>) => |xs| <= limit && |xs| < U64_LIMIT && AllValid(c, xs) && AscendsFrom(rank, 0, xs),
      (xs: seq<T>) => EncLen(|xs|) + EncItems(c, xs),
      (depth: nat, b: Bytes) => DecAscending(c, rank, limit, nested, depth, b),
      c.height + nested)
  }

  lemma AscendingListLawful<T(!new)>(c: Codec<T>, rank: T -> nat, limit: nat, nested: nat)
    requires Lawful(c)
    ensures Lawful(AscendingList(c, rank, limit, nested))
  {
    hide Lawful, EncVarint, DecVarint, EncItems, DecItems, AllValid, AscendsFrom;
    var p := AscendingList(c, rank, limit, nested);
    forall xs: seq<T>, rest, depth: nat | p.valid(xs) && depth + p.height <= MAX_NESTING
      ensures p.dec(depth, p.enc(xs) + rest) == Success((xs, rest))
    {
      assert p.enc(xs) + rest == EncVarint(|xs|) + (EncItems(c, xs) + rest);
      VarintExactly(p.enc(xs) + rest, |xs|, EncItems(c, xs) + rest);
      ItemsTakeRoom(c, xs);
      ItemsRead(c, rank, depth + nested, 0, xs, rest);
    }
    forall b, depth: nat | p.dec(depth, b).Success?
      ensures p.valid(p.dec(depth, b).value.0) && b == p.enc(p.dec(depth, b).value.0) + p.dec(depth, b).value.1
    {
      var (n, rest) := DecVarint(b, 0).value;
      VarintExactly(b, n, rest);
      ItemsOnly(c, rank, depth + nested, n, 0, rest);
      var (xs, more) := DecItems(c, rank, depth + nested, n, 0, rest).value;
      assert EncVarint(n) + (EncItems(c, xs) + more) == EncVarint(n) + EncItems(c, xs) + more;
    }
    forall xs: seq<T> | p.valid(xs) ensures |p.enc(xs)| >= 1 {
      VarintNonEmpty(Min(|xs|, U64_LIMIT - 1));
    }
    LawfulFromLaws(p);
  }

  // ----- Sets and maps

  lemma {:induction false} AscendingFromLeast<T(!new)>(rank: T -> nat, least: nat, xs: seq<T>)
    ensures AscendsFrom(rank, least, xs) <==> Ascending(rank, xs) && (xs != [] ==> least <= rank(xs[0]))
    decreases |xs|
  {
    if xs != [] {
      AscendingFromLeast(rank, rank(xs[0]) + 1, xs[1..]);
      if Ascending(rank, xs) {
        forall i, j | 0 <= i < j < |xs[1..]| ensures rank(xs[1..][i]) < rank(xs[1..][j]) {
          assert rank(xs[i + 1]) < rank(xs[j + 1]);
        }
        if |xs| > 1 {
          assert rank(xs[0]) < rank(xs[1]);
        }
      }
      if AscendsFrom(rank, least, xs) {
        forall i, j | 0 <= i < j < |xs| ensures rank(xs[i]) < rank(xs[j]) {
          if i > 0 {
            assert rank(xs[1..][i - 1]) < rank(xs[1..][j - 1]);
          } else if j > 1 {
            assert rank(xs[1..][0]) < rank(xs[1..][j - 1]);
          }
        }
      }
    }
  }

  ghost predicate Injective<K(!new)>(rank: K -> nat) {
    forall a, b :: rank(a) == rank(b) ==> a == b
  }

  ghost function Items<K(!new)>(rank: K -> nat, s: set<K>): seq<K>
    requires Injective(rank)
  {
    Sorted(rank, s)
  }

  ghost function Members<K(!new)>(xs: seq<K>): set<K> {
    set x | x in xs
  }

  lemma ItemsOfMembers<K(!new)>(rank: K -> nat, xs: seq<K>)
    requires Injective(rank) && Ascending(rank, xs)
    ensures Items(rank, Members(xs)) == xs
  {
    var ys := Items(rank, Members(xs));
    AscendingLength(rank, xs);
    AscendingUnique(rank, ys, xs);
  }

  lemma TailAscends<T(!new)>(rank: T -> nat, xs: seq<T>)
    requires xs != [] && Ascending(rank, xs)
    ensures Ascending(rank, xs[1..])
    ensures forall x :: x in xs[1..] ==> rank(xs[0]) < rank(x)
  {
    forall i, j | 0 <= i < j < |xs[1..]| ensures rank(xs[1..][i]) < rank(xs[1..][j]) {
      assert rank(xs[i + 1]) < rank(xs[j + 1]);
    }
    forall x | x in xs[1..] ensures rank(xs[0]) < rank(x) {
      var j :| 0 <= j < |xs[1..]| && xs[1..][j] == x;
      assert rank(xs[0]) < rank(xs[j + 1]);
    }
  }

  lemma {:induction false} AscendingLength<K(!new)>(rank: K -> nat, xs: seq<K>)
    requires Ascending(rank, xs)
    ensures |Members(xs)| == |xs|
    decreases |xs|
  {
    if xs == [] {
      assert Members(xs) == {};
    } else {
      TailAscends(rank, xs);
      hide Ascending;
      AscendingLength(rank, xs[1..]);
      assert xs == [xs[0]] + xs[1..];
      assert Members(xs) == {xs[0]} + Members(xs[1..]);
    }
  }

  /** A set, written as its elements in ascending order. */
  ghost function SetOf<K(!new)>(c: Codec<K>, rank: K -> nat, limit: nat): Codec<set<K>>
    requires Injective(rank)
  {
    Refine(AscendingList(c, rank, limit, 1), (xs: seq<K>) => Some(Members(xs)), (s: set<K>) => Items(rank, s))
  }

  lemma SetOfLawful<K(!new)>(c: Codec<K>, rank: K -> nat, limit: nat)
    requires Lawful(c) && Injective(rank)
    ensures Lawful(SetOf(c, rank, limit))
  {
    hide Lawful, Members, Items;
    var list := AscendingList(c, rank, limit, 1);
    AscendingListLawful(c, rank, limit, 1);
    forall xs: seq<K> | list.valid(xs) ensures Items(rank, Members(xs)) == xs {
      AscendingFromLeast(rank, 0, xs);
      ItemsOfMembers(rank, xs);
    }
    RefineLawful(list, (xs: seq<K>) => Some(Members(xs)), (s: set<K>) => Items(rank, s));
  }

  lemma SetOfValid<K(!new)>(c: Codec<K>, rank: K -> nat, limit: nat, s: set<K>)
    requires Injective(rank)
    requires forall k :: k in s ==> c.valid(k)
    ensures SetOf(c, rank, limit).valid(s) <==> |s| <= limit && |s| < U64_LIMIT
  {
    hide Ascending, AscendsFrom;
    AscendingFromLeast(rank, 0, Items(rank, s));
    assert Members(Items(rank, s)) == s;
  }

  ghost function KeyRank<K(!new), V(!new)>(rank: K -> nat): ((K, V)) -> nat {
    (e: (K, V)) => rank(e.0)
  }

  ghost function EntriesIn<K(!new), V(!new)>(rank: K -> nat, m: map<K, V>): (entries: seq<(K, V)>)
    requires Injective(rank)
  {
    var keys := Items(rank, m.Keys);
    seq(|keys|, i requires 0 <= i < |keys| => (keys[i], m[keys[i]]))
  }

  ghost function MapFrom<K(!new), V(!new)>(entries: seq<(K, V)>): map<K, V>
    decreases |entries|
  {
    if entries == [] then map[] else MapFrom(entries[1..])[entries[0].0 := entries[0].1]
  }

  ghost function KeysOf<K(!new), V(!new)>(entries: seq<(K, V)>): (keys: seq<K>)
    ensures |keys| == |entries| && forall i :: 0 <= i < |keys| ==> keys[i] == entries[i].0
  {
    seq(|entries|, i requires 0 <= i < |entries| => entries[i].0)
  }

  lemma {:induction false} MapFromKeys<K(!new), V(!new)>(entries: seq<(K, V)>)
    ensures MapFrom(entries).Keys == Members(KeysOf(entries))
    decreases |entries|
  {
    if entries != [] {
      MapFromKeys(entries[1..]);
      assert KeysOf(entries) == [entries[0].0] + KeysOf(entries[1..]);
    }
  }

  lemma {:induction false} MapFromGets<K(!new), V(!new)>(rank: K -> nat, entries: seq<(K, V)>)
    requires Ascending(KeyRank(rank), entries)
    ensures forall e :: e in entries ==> e.0 in MapFrom(entries) && MapFrom(entries)[e.0] == e.1
    decreases |entries|
  {
    if entries != [] {
      TailAscends(KeyRank(rank), entries);
      hide Ascending;
      MapFromGets(rank, entries[1..]);
      assert entries == [entries[0]] + entries[1..];
      forall e | e in entries[1..] ensures e.0 != entries[0].0 {
        assert KeyRank(rank)(entries[0]) < KeyRank(rank)(e);
      }
    }
  }

  lemma KeysAscend<K(!new), V(!new)>(rank: K -> nat, entries: seq<(K, V)>)
    requires Ascending(KeyRank(rank), entries)
    ensures Ascending(rank, KeysOf(entries))
  {
    var keys := KeysOf(entries);
    forall i, j | 0 <= i < j < |keys| ensures rank(keys[i]) < rank(keys[j]) {
      assert KeyRank(rank)(entries[i]) < KeyRank(rank)(entries[j]);
    }
  }

  lemma EntriesOfMapFrom<K(!new), V(!new)>(rank: K -> nat, entries: seq<(K, V)>)
    requires Injective(rank) && Ascending(KeyRank(rank), entries)
    ensures EntriesIn(rank, MapFrom(entries)) == entries
  {
    MapFromKeys(entries);
    MapFromGets(rank, entries);
    KeysAscend(rank, entries);
    ItemsOfMembers(rank, KeysOf(entries));
    hide MapFrom, Ascending, Items, Members;
    forall i | 0 <= i < |entries| ensures EntriesIn(rank, MapFrom(entries))[i] == entries[i] {
      assert entries[i] in entries;
    }
  }

  lemma EntriesAscend<K(!new), V(!new)>(rank: K -> nat, m: map<K, V>)
    requires Injective(rank)
    ensures Ascending(KeyRank(rank), EntriesIn(rank, m)) && |EntriesIn(rank, m)| == |m|
    ensures KeysOf(EntriesIn(rank, m)) == Items(rank, m.Keys)
  {
    var keys := Items(rank, m.Keys);
    var entries := EntriesIn(rank, m);
    forall i, j | 0 <= i < j < |entries| ensures KeyRank(rank)(entries[i]) < KeyRank(rank)(entries[j]) {
      assert rank(keys[i]) < rank(keys[j]);
    }
  }

  lemma EntriesAreTheMap<K(!new), V(!new)>(rank: K -> nat, m: map<K, V>)
    requires Injective(rank)
    ensures forall e :: e in EntriesIn(rank, m) <==> e.0 in m && m[e.0] == e.1
  {
    var keys := Items(rank, m.Keys);
    var entries := EntriesIn(rank, m);
    forall e ensures e in entries <==> e.0 in m && m[e.0] == e.1 {
      if e in entries {
        var i :| 0 <= i < |entries| && entries[i] == e;
        assert keys[i] in keys;
      }
      if e.0 in m && m[e.0] == e.1 {
        assert e.0 in keys;
        var i :| 0 <= i < |keys| && keys[i] == e.0;
        assert entries[i] == e;
      }
    }
  }

  lemma EntriesKeys<K(!new), V(!new)>(rank: K -> nat, m: map<K, V>)
    requires Injective(rank)
    ensures MapFrom(EntriesIn(rank, m)).Keys == m.Keys
  {
    MapFromKeys(EntriesIn(rank, m));
    assert KeysOf(EntriesIn(rank, m)) == Items(rank, m.Keys);
    assert Members(Items(rank, m.Keys)) == m.Keys;
  }

  lemma EntriesGet<K(!new), V(!new)>(rank: K -> nat, m: map<K, V>, k: K)
    requires Injective(rank) && k in m
    ensures k in MapFrom(EntriesIn(rank, m)) && MapFrom(EntriesIn(rank, m))[k] == m[k]
  {
    hide MapFrom, EntriesIn, Ascending;
    EntriesAscend(rank, m);
    EntryIsListed(rank, m, k);
    MapFromGets(rank, EntriesIn(rank, m));
  }

  lemma MapFromEntries<K(!new), V(!new)>(rank: K -> nat, m: map<K, V>)
    requires Injective(rank)
    ensures MapFrom(EntriesIn(rank, m)) == m
  {
    hide MapFrom, EntriesIn;
    EntriesKeys(rank, m);
    forall k | k in m ensures MapFrom(EntriesIn(rank, m))[k] == m[k] {
      EntriesGet(rank, m, k);
    }
  }

  lemma EntryIsListed<K(!new), V(!new)>(rank: K -> nat, m: map<K, V>, k: K)
    requires Injective(rank) && k in m
    ensures (k, m[k]) in EntriesIn(rank, m)
  {
    EntriesAreTheMap(rank, m);
  }

  /** Entries are read key by key: the order of the keys is checked before the value is read. */
  ghost function DecEntries<K(!new), V(!new)>(c: Codec<K>, d: Codec<V>, rank: K -> nat, depth: nat, count: nat,
                                              least: nat, b: Bytes)
    : Parse<seq<(K, V)>>
    decreases count
  {
    if count == 0 then Success(([], b))
    else
      match c.dec(depth, b)
      case Failure(e) => Failure(e)
      case Success((k, afterKey)) =>
        if rank(k) < least then Failure(UnorderedSet)
        else
          match d.dec(depth, afterKey)
          case Failure(e) => Failure(e)
          case Success((v, rest)) =>
            match DecEntries(c, d, rank, depth, count - 1, rank(k) + 1, rest)
            case Failure(e) => Failure(e)
            case Success((entries, more)) => Success(([(k, v)] + entries, more))
  }

  /** Which fault is reported first aside, that is reading a list of pairs. */
  lemma {:induction false} EntriesAreItems<K(!new), V(!new)>(c: Codec<K>, d: Codec<V>, rank: K -> nat, depth: nat,
                                                             count: nat, least: nat, b: Bytes)
    ensures var p, q := DecEntries(c, d, rank, depth, count, least, b),
      DecItems(Pair(c, d), KeyRank(rank), depth, count, least, b);
      p.Success? == q.Success? && (p.Success? ==> p.value == q.value)
    decreases count
  {
    if count > 0 && c.dec(depth, b).Success? {
      var (k, afterKey) := c.dec(depth, b).value;
      if rank(k) >= least && d.dec(depth, afterKey).Success? {
        var (v, rest) := d.dec(depth, afterKey).value;
        EntriesAreItems(c, d, rank, depth, count - 1, rank(k) + 1, rest);
      }
    }
  }

  ghost function DecMap<K(!new), V(!new)>(c: Codec<K>, d: Codec<V>, rank: K -> nat, limit: nat, depth: nat, b: Bytes)
    : Parse<map<K, V>>
  {
    match DecCount(limit, b)
    case Failure(e) => Failure(e)
    case Success((n, rest)) =>
      if n > 0 && depth > MAX_NESTING then Failure(TooDeep)
      else
        match DecEntries(c, d, rank, depth, n, 0, rest)
        case Failure(e) => Failure(e)
        case Success((entries, more)) => Success((MapFrom(entries), more))
  }

  ghost function EntryList<K(!new), V(!new)>(c: Codec<K>, d: Codec<V>, rank: K -> nat, limit: nat): Codec<map<K, V>>
    requires Injective(rank)
  {
    Refine(AscendingList(Pair(c, d), KeyRank(rank), limit, 0),
           (entries: seq<(K, V)>) => Some(MapFrom(entries)), (m: map<K, V>) => EntriesIn(rank, m))
  }

  /** A map, written as keys and values interleaved, keys ascending. */
  ghost function MapOf<K(!new), V(!new)>(c: Codec<K>, d: Codec<V>, rank: K -> nat, limit: nat): Codec<map<K, V>>
    requires Injective(rank)
  {
    EntryList(c, d, rank, limit).(dec := (depth: nat, b: Bytes) => DecMap(c, d, rank, limit, depth, b))
  }

  lemma MapDecodesAsList<K(!new), V(!new)>(c: Codec<K>, d: Codec<V>, rank: K -> nat, limit: nat, depth: nat, b: Bytes)
    requires Injective(rank)
    ensures var p, q := MapOf(c, d, rank, limit).dec(depth, b), EntryList(c, d, rank, limit).dec(depth, b);
      p.Success? == q.Success? && (p.Success? ==> p.value == q.value)
  {
    hide DecItems, DecEntries, MapFrom, EntriesIn, DecVarint;
    var count := DecCount(limit, b);
    if count.Success? {
      EntriesAreItems(c, d, rank, depth, count.value.0, 0, count.value.1);
    }
  }

  lemma EntryListLawful<K(!new), V(!new)>(c: Codec<K>, d: Codec<V>, rank: K -> nat, limit: nat)
    requires Lawful(c) && Lawful(d) && Injective(rank)
    ensures Lawful(EntryList(c, d, rank, limit))
  {
    hide Lawful, MapFrom, EntriesIn;
    PairLawful(c, d);
    AscendingListLawful(Pair(c, d), KeyRank(rank), limit, 0);
    var list := AscendingList(Pair(c, d), KeyRank(rank), limit, 0);
    forall entries: seq<(K, V)> | list.valid(entries) ensures EntriesIn(rank, MapFrom(entries)) == entries {
      AscendingFromLeast(KeyRank(rank), 0, entries);
      EntriesOfMapFrom(rank, entries);
    }
    RefineLawful(list, (entries: seq<(K, V)>) => Some(MapFrom(entries)), (m: map<K, V>) => EntriesIn(rank, m));
  }

  lemma MapOfLawful<K(!new), V(!new)>(c: Codec<K>, d: Codec<V>, rank: K -> nat, limit: nat)
    requires Lawful(c) && Lawful(d) && Injective(rank)
    ensures Lawful(MapOf(c, d, rank, limit))
  {
    hide Lawful, EntryList, DecMap;
    EntryListLawful(c, d, rank, limit);
    var m, list := MapOf(c, d, rank, limit), EntryList(c, d, rank, limit);
    forall depth: nat, b
      ensures m.dec(depth, b).Success? == list.dec(depth, b).Success?
      ensures m.dec(depth, b).Success? ==> m.dec(depth, b).value == list.dec(depth, b).value
    {
      MapDecodesAsList(c, d, rank, limit, depth, b);
    }
    SameSuccess(list, m);
  }

  /** Laws speak of what is read, not of which fault is reported. */
  lemma SameSuccess<T(!new)>(c: Codec<T>, d: Codec<T>)
    requires Lawful(c) && d == c.(dec := d.dec)
    requires forall depth: nat, b :: d.dec(depth, b).Success? == c.dec(depth, b).Success?
    requires forall depth: nat, b :: d.dec(depth, b).Success? ==> d.dec(depth, b).value == c.dec(depth, b).value
    ensures Lawful(d)
  {
    hide Lawful;
    forall x, rest, depth: nat | d.valid(x) && depth + d.height <= MAX_NESTING
      ensures d.dec(depth, d.enc(x) + rest) == Success((x, rest))
    {
      Reads(c, x, rest, depth);
    }
    forall b, depth: nat | d.dec(depth, b).Success?
      ensures d.valid(d.dec(depth, b).value.0) && b == d.enc(d.dec(depth, b).value.0) + d.dec(depth, b).value.1
    {
      Accepts(c, b, depth);
    }
    forall x | d.valid(x) ensures |d.enc(x)| >= 1 {
      WritesSomething(c, x);
    }
    LawfulFromLaws(d);
  }

  lemma MapOfValid<K(!new), V(!new)>(c: Codec<K>, d: Codec<V>, rank: K -> nat, limit: nat, m: map<K, V>)
    requires Injective(rank)
    requires forall k :: k in m ==> c.valid(k) && d.valid(m[k])
    ensures MapOf(c, d, rank, limit).valid(m) <==> |m| <= limit && |m| < U64_LIMIT
  {
    hide MapFrom, EntriesIn;
    EntriesAscend(rank, m);
    EntriesAreTheMap(rank, m);
    MapFromEntries(rank, m);
    AscendingFromLeast(KeyRank(rank), 0, EntriesIn(rank, m));
  }
}
