/** The encoder and decoder as the node runs them: a growing buffer and a moving cursor. */
module Wire {
  import opened Prelude
  import opened Arithmetic
  import opened Codec

  // ----- Writing

  class Encoder {
    var buf: Bytes

    constructor ()
      ensures buf == []
    {
      buf := [];
    }

    method WriteU8(value: u8)
      modifies this
      ensures buf == old(buf) + [value]
    {
      buf := buf + [value];
    }

    method WriteBool(value: bool)
      modifies this
      ensures buf == old(buf) + Flag().enc(value)
    {
      buf := buf + [if value then 1 else 0];
    }

    method WriteRaw(bytes: Bytes)
      modifies this
      ensures buf == old(buf) + bytes
    {
      buf := buf + bytes;
    }

    /** Seven bits at a time, the high bit saying that more follow. */
    method WriteVarint(value: u64)
      modifies this
      ensures buf == old(buf) + EncVarint(value)
    {
      var left := value;
      while left >= 128
        invariant 0 <= left
        invariant buf + EncVarint(left) == old(buf) + EncVarint(value)
        decreases left
      {
        assert buf + ([left % 128 + 128] + EncVarint(left / 128)) == (buf + [left % 128 + 128]) + EncVarint(left / 128);
        buf := buf + [left % 128 + 128];
        left := left / 128;
      }
      buf := buf + [left];
    }

    method WriteLen(length: nat)
      modifies this
      ensures buf == old(buf) + EncLen(length)
    {
      WriteVarint(Min(length, U64_LIMIT - 1));
    }

    method WriteBytes(bytes: Bytes)
      modifies this
      ensures buf == old(buf) + (EncLen(|bytes|) + bytes)
    {
      WriteLen(|bytes|);
      buf := buf + bytes;
    }
  }

  // ----- Reading

  class Decoder {
    const input: Bytes
    var position: nat
    var depth: nat

    ghost predicate Valid()
      reads this
    {
      position <= |input| && depth <= MAX_NESTING
    }

    /** The bytes not yet consumed. */
    function Rest(): Bytes
      requires position <= |input|
      reads this
    {
      input[position..]
    }

    constructor (input: Bytes)
      requires |input| <= MAX_OBJECT_SIZE
      ensures Valid() && this.input == input && position == 0 && depth == 0
    {
      this.input := input;
      position := 0;
      depth := 0;
    }

    /** Wraps an input, unless it is larger than any object may be. */
    static method Over(input: Bytes) returns (r: Result<Decoder, CodecError>)
      ensures r.Success? <==> |input| <= MAX_OBJECT_SIZE
      ensures r.Failure? ==> r.error == LimitExceeded(MAX_OBJECT_SIZE, |input|)
      ensures r.Success? ==> fresh(r.value) && r.value.Valid() && r.value.Rest() == input && r.value.depth == 0
    {
      if |input| > MAX_OBJECT_SIZE {
        return Failure(LimitExceeded(MAX_OBJECT_SIZE, |input|));
      }
      var d := new Decoder(input);
      return Success(d);
    }

    method Finish() returns (r: Outcome<CodecError>)
      requires Valid()
      ensures r == if Rest() == [] then Pass else Fail(TrailingBytes(|Rest()|))
    {
      if position == |input| {
        return Pass;
      }
      return Fail(TrailingBytes(|input| - position));
    }

    method Take(count: nat) returns (r: Result<Bytes, CodecError>)
      requires Valid()
      modifies this`position
      ensures Valid()
      ensures r.Success? <==> count <= |old(Rest())|
      ensures r.Success? ==> r.value == old(Rest())[..count] && Rest() == old(Rest())[count..]
      ensures r.Failure? ==> r.error == UnexpectedEnd && position == old(position)
    {
      if position + count > |input| {
        return Failure(UnexpectedEnd);
      }
      var slice := input[position..position + count];
      assert slice == input[position..][..count];
      assert input[position + count..] == input[position..][count..];
      position := position + count;
      return Success(slice);
    }

    /** Raw bytes of a width fixed elsewhere. */
    method ReadRaw(count: nat) returns (r: Result<Bytes, CodecError>)
      requires Valid()
      modifies this`position
      ensures Valid()
      ensures r.Success? <==> count <= |old(Rest())|
      ensures r.Success? ==> r.value == old(Rest())[..count] && Rest() == old(Rest())[count..]
      ensures r.Failure? ==> r.error == LengthBeyondInput(count, |old(Rest())|) && position == old(position)
    {
      if count > |input| - position {
        return Failure(LengthBeyondInput(count, |input| - position));
      }
      r := Take(count);
    }

    method ReadU8() returns (r: Result<u8, CodecError>)
      requires Valid()
      modifies this`position
      ensures Valid()
      ensures r.Success? <==> old(Rest()) != []
      ensures r.Success? ==> r.value == old(Rest())[0] && Rest() == old(Rest())[1..]
      ensures r.Failure? ==> r.error == UnexpectedEnd
    {
      var slice :- Take(1);
      return Success(slice[0]);
    }

    method ReadBool() returns (r: Result<bool, CodecError>)
      requires Valid()
      modifies this`position
      ensures Valid()
      ensures Agrees(DecFlag(old(Rest())), r, Rest())
    {
      var byte :- ReadU8();
      if byte == 0 {
        return Success(false);
      } else if byte == 1 {
        return Success(true);
      }
      return Failure(NonCanonicalBool(byte));
    }

    /** Reads a varint, enforcing shortest form, width and overflow. */
    method ReadVarint() returns (r: Result<u64, CodecError>)
      requires Valid()
      modifies this`position
      ensures Valid()
      ensures Agrees(DecVarint(old(Rest()), 0), r, Rest())
    {
      ghost var start := Rest();
      var value: nat := 0;
      var weight: nat := 1;
      var bytesRead: nat := 0;
      Unshifted(DecVarint(start, 0));
      hide DecVarint, Weighed, Balanced, Continued;
      while true
        invariant Valid()
        invariant bytesRead < MAX_VARINT_BYTES && value < weight && Balanced(weight, bytesRead)
        invariant DecVarint(start, 0) == Continued(DecVarint(Rest(), bytesRead), value, weight)
        decreases MAX_VARINT_BYTES - bytesRead
      {
        NextByte(start, Rest(), value, weight, bytesRead);
        var byte :- ReadU8();
        var payload := byte % 128;
        if Weighed(payload, weight) >= U64_LIMIT {
          return Failure(VarintOverflow);
        }
        value := value + Weighed(payload, weight);
        if byte < 128 {
          if bytesRead > 0 && byte == 0 {
            return Failure(NonCanonicalVarint);
          }
          return Success(value);
        }
        if bytesRead + 1 >= MAX_VARINT_BYTES {
          return Failure(VarintTooWide);
        }
        weight := 128 * weight;
        bytesRead := bytesRead + 1;
      }
    }

    method ReadVarintBelow(limit: nat) returns (r: Result<int, CodecError>)
      requires Valid()
      modifies this`position
      ensures Valid()
      ensures Agrees(DecNumber(limit, old(Rest())), r, Rest())
      ensures r.Success? ==> 0 <= r.value < limit
    {
      var value :- ReadVarint();
      if value >= limit {
        return Failure(VarintOverflow);
      }
      return Success(value);
    }

    /** A count, checked against its limit and against the bytes that remain. */
    method ReadSeqLen() returns (r: Result<nat, CodecError>)
      requires Valid()
      modifies this`position
      ensures Valid()
      ensures Agrees(DecCount(MAX_SEQ_LEN, old(Rest())), r, Rest())
    {
      var declared :- ReadVarint();
      if declared > MAX_SEQ_LEN {
        return Failure(LimitExceeded(MAX_SEQ_LEN, declared));
      }
      if declared > |input| - position {
        return Failure(LengthBeyondInput(declared, |input| - position));
      }
      return Success(declared);
    }

    method ReadBytes() returns (r: Result<Bytes, CodecError>)
      requires Valid()
      modifies this`position
      ensures Valid()
      ensures Agrees(DecBytes(old(Rest())), r, Rest())
    {
      var length :- ReadVarint();
      if length > MAX_BYTES_LEN {
        return Failure(LimitExceeded(MAX_BYTES_LEN, length));
      }
      if length > |input| - position {
        return Failure(LengthBeyondInput(length, |input| - position));
      }
      r := Take(length);
    }

    method ReadStr() returns (r: Result<Bytes, CodecError>)
      requires Valid()
      modifies this`position
      ensures Valid()
      ensures Agrees(DecStr(old(Rest())), r, Rest())
    {
      hide IsUtf8;
      var bytes :- ReadBytes();
      if !IsUtf8(bytes) {
        return Failure(InvalidUtf8);
      }
      return Success(bytes);
    }
  }

  /** A reading method agrees with what the bytes before it parse to. */
  predicate Agrees<T(==)>(expected: Parse<T>, r: Result<T, CodecError>, rest: Bytes) {
    match expected
    case Success((value, after)) => r == Success(value) && rest == after
    case Failure(e) => r == Failure(e)
  }

  /** A payload shifted left to where its seven bits stand. */
  function Weighed(payload: nat, weight: nat): nat {
    payload * weight
  }

  /** The weight of the next byte and the room left for it make up 64 bits. */
  predicate Balanced(weight: nat, read: nat) {
    weight * Room(read) == U64_LIMIT
  }

  /** What a varint parses to once `value` is behind and the next byte weighs `weight`. */
  function Continued(p: Parse<nat>, value: nat, weight: nat): Parse<nat> {
    match p
    case Success((high, rest)) => Success((value + Weighed(high, weight), rest))
    case Failure(e) => Failure(e)
  }

  lemma Unshifted(p: Parse<nat>)
    ensures Balanced(1, 0) && Continued(p, 0, 1) == p
  {
    RoomIsU64();
  }

  lemma VarintStep(b: Bytes, read: nat)
    requires read < MAX_VARINT_BYTES
    ensures DecVarint(b, read) ==
      (if b == [] then Failure(UnexpectedEnd)
       else if b[0] % 128 >= Room(read) then Failure(VarintOverflow)
       else if b[0] < 128 then
         if read > 0 && b[0] == 0 then Failure(NonCanonicalVarint) else Success((b[0] % 128, b[1..]))
       else if read == 9 then Failure(VarintTooWide)
       else
         match DecVarint(b[1..], read + 1)
         case Failure(e) => Failure(e)
         case Success((high, rest)) => Success((b[0] % 128 + 128 * high, rest)))
  {
    hide Room;
  }

  lemma FitsExactly(payload: nat, weight: nat, read: nat)
    requires Balanced(weight, read)
    ensures Weighed(payload, weight) >= U64_LIMIT <==> payload >= Room(read)
  {
    hide Room;
    if payload >= Room(read) {
      ProductGrows(weight, Room(read), payload);
    } else {
      StrictlyFewer(payload, Room(read), weight);
    }
  }

  lemma ValueFits(value: nat, weight: nat, payload: nat, read: nat)
    requires value < weight && payload < Room(read) && Balanced(weight, read)
    ensures 0 <= value + Weighed(payload, weight) < U64_LIMIT
  {
    hide Room;
    StrictlyFewer(payload, Room(read), weight);
  }

  lemma ContinueStep(p: Parse<nat>, value: nat, weight: nat, payload: nat)
    ensures Continued(match p case Failure(e) => Failure(e) case Success((high,
      rest)) => Success((payload + 128 * high, rest)), value, weight)
              == Continued(p, value + Weighed(payload, weight), 128 * weight)
  {
    if p.Success? {
      var high := p.value.0;
      assert (payload + 128 * high) * weight == payload * weight + high * (128 * weight);
    }
  }

  lemma WeightStep(value: nat, weight: nat, payload: nat, read: nat)
    requires value < weight && payload < 128 && read < 9 && Balanced(weight, read)
    ensures value + Weighed(payload, weight) < 128 * weight
    ensures Balanced(128 * weight, read + 1)
  {
    RoomStep(read);
    hide Room;
    StrictlyFewer(payload, 128, weight);
    assert weight * (128 * Room(read + 1)) == (128 * weight) * Room(read + 1);
  }

  /** What the next byte decides about the whole varint. */
  lemma NextByte(start: Bytes, here: Bytes, value: nat, weight: nat, read: nat)
    requires read < MAX_VARINT_BYTES && value < weight && Balanced(weight, read)
    requires DecVarint(start, 0) == Continued(DecVarint(here, read), value, weight)
    ensures here == [] ==> DecVarint(start, 0) == Failure(UnexpectedEnd)
    ensures here != [] ==>
      var more := value + Weighed(here[0] % 128, weight);
      if Weighed(here[0] % 128, weight) >= U64_LIMIT then DecVarint(start, 0) == Failure(VarintOverflow)
      else if here[0] < 128 then
        if read > 0 && here[0] == 0 then DecVarint(start, 0) == Failure(NonCanonicalVarint)
        else more < U64_LIMIT && DecVarint(start, 0) == Success((more, here[1..]))
      else if read == 9 then DecVarint(start, 0) == Failure(VarintTooWide)
      else
        && more < 128 * weight && Balanced(128 * weight, read + 1)
        && DecVarint(start, 0) == Continued(DecVarint(here[1..], read + 1), more, 128 * weight)
  {
    VarintStep(here, read);
    if here != [] {
      var payload := here[0] % 128;
      FitsExactly(payload, weight, read);
      hide DecVarint, Balanced;
      if payload < Room(read) && here[0] < 128 {
        ValueFits(value, weight, payload, read);
      }
      if here[0] >= 128 && read < 9 {
        ContinueStep(DecVarint(here[1..], read + 1), value, weight, payload);
        WeightStep(value, weight, payload, read);
        RoomStep(read);
      }
      hide Room, Weighed;
    }
  }
}
