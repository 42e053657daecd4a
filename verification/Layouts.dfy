/** The order of bytes: shortest-form varints, records field by field, and the keys of state. */
module Layouts {
  import opened Prelude
  import opened Types
  import opened Accounts
  import opened Purses
  import opened PurseBooks
  import opened Codec
  import opened Records
  import opened StateRoot

  // ----- Varints

  /** What some bytes spell, seven bits each, the low ones first. */
  function Spells(b: Bytes): nat {
    if b == [] then 0 else b[0] % 128 + 128 * Spells(b[1..])
  }

  /** Every byte but the last carries on, and the last is zero only when it is alone. */
  ghost predicate Shortest(b: Bytes) {
    && b != [] && b[|b| - 1] < 128 && (|b| > 1 ==> b[|b| - 1] != 0)
    && forall i :: 0 <= i < |b| - 1 ==> b[i] >= 128
  }

  lemma {:induction false} SpellsSomething(b: Bytes)
    requires Shortest(b) && |b| > 1
    ensures Spells(b[1..]) > 0
    decreases |b|
  {
    var rest := b[1..];
    if |b| > 2 {
      SpellsSomething(rest);
    } else {
      assert rest[1..] == [];
    }
  }

  /** A number is written as the one shortest run of bytes that spells it, low bits first. */
  lemma {:induction false} VarintIsShortest(b: Bytes, value: nat)
    ensures b == EncVarint(value) <==> Shortest(b) && Spells(b) == value
    decreases value + |b|
  {
    if value < 128 {
      if Shortest(b) && Spells(b) == value && |b| > 1 {
        SpellsSomething(b);
        assert false;
      }
      if b == [value] {
        assert b[1..] == [];
      } else if |b| == 1 {
        assert b[1..] == [] && b == [b[0]];
      }
    } else {
      if |b| > 1 {
        var rest := b[1..];
        assert b == [b[0]] + rest;
        VarintIsShortest(rest, value / 128);
        CarriesOn(b[0], rest);
      } else {
        ManyBytes(value);
        if |b| == 1 {
          assert b[1..] == [];
        }
      }
    }
  }

  lemma CarriesOn(byte: u8, rest: Bytes)
    requires rest != []
    ensures Shortest([byte] + rest) <==> byte >= 128 && Shortest(rest) && Spells(rest) > 0
    ensures Spells([byte] + rest) == byte % 128 + 128 * Spells(rest)
  {
    var b := [byte] + rest;
    assert b[1..] == rest;
    if Shortest(b) {
      SpellsSomething(b);
      assert b[0] >= 128;
      forall i | 0 <= i < |rest| - 1
        ensures rest[i] >= 128
      {
        assert b[i + 1] >= 128;
      }
    }
    if |rest| == 1 {
      assert rest[1..] == [];
    }
  }

  lemma ManyBytes(value: nat)
    requires value >= 128
    ensures |EncVarint(value)| > 1
  {
    VarintNonEmpty(value / 128);
  }

  // ----- Records

  lemma Together(a: Bytes, b: Bytes, c: Bytes)
    ensures a + (b + c) == a + b + c
  {
  }

  function OptionalId(asset: Asset): Bytes {
    if asset.None? then [0] else [1] + asset.value.raw.bytes
  }

  /** Who claimed, how much, the window's opening and length, and whether it was disputed. */
  ghost function ClosureBytes(c: PendingClosure): Bytes {
    c.claimant.raw.bytes + EncVarint(c.claimedTranches) + EncVarint(c.window.openedAtFinalized)
    + EncVarint(c.window.duration) + [if c.disputed then 1 else 0]
  }

  lemma ClosureInOrder(c: PendingClosure)
    ensures ClosureCodec().enc(c) == ClosureBytes(c)
  {
  }

  lemma NumberBytes(x: u64, y: u32)
    ensures U64().enc(x) == EncVarint(x) && U32().enc(y) == EncVarint(y)
  {
    hide EncVarint;
  }

  lemma IdBytes(id: AccountId, h: Hash, asset: Asset)
    ensures AccountIdCodec().enc(id) == id.raw.bytes && HashCodec().enc(h) == h.bytes
    ensures AssetCodec().enc(asset) == OptionalId(asset)
  {
  }

  /** What is left of a channel after its parties, asset and deposit. */
  ghost function TermsBytes(p: LedgerPurse): Bytes {
    p.paywordRoot.bytes + EncVarint(p.trancheValue) + EncVarint(p.capacity) + EncVarint(p.expiryFinalizedHeight)
    + (if p.closing.None? then [0] else [1] + ClosureBytes(p.closing.value))
  }

  lemma TermsInOrder(p: LedgerPurse)
    ensures PurseTailCodec().enc(FieldsOfPurse(p).1.1.1.1) == TermsBytes(p)
  {
    IdBytes(p.payer, p.paywordRoot, p.asset);
    NumberBytes(p.trancheValue, p.capacity);
    NumberBytes(p.expiryFinalizedHeight, p.capacity);
    hide EncVarint, ClosureCodec, ClosureBytes, U64, U32, HashCodec;
    if p.closing.Some? {
      ClosureInOrder(p.closing.value);
    }
    var closing := if p.closing.None? then [0] else [1] + ClosureBytes(p.closing.value);
    assert Optional(ClosureCodec()).enc(p.closing) == closing;
    var root, value, capacity, expiry := p.paywordRoot.bytes, EncVarint(p.trancheValue), EncVarint(p.capacity),
      EncVarint(p.expiryFinalizedHeight);
    Together(root, value, capacity + (expiry + closing));
    Together(root + value, capacity, expiry + closing);
    Together(root + value + capacity, expiry, closing);
  }

  /** A channel's fields, one after another. */
  lemma PurseInOrder(p: LedgerPurse)
    ensures PurseCodec().enc(p) ==
      p.payer.raw.bytes + p.payee.raw.bytes + OptionalId(p.asset) + EncVarint(p.deposit) + TermsBytes(p)
  {
    TermsInOrder(p);
    IdBytes(p.payer, p.paywordRoot, p.asset);
    IdBytes(p.payee, p.paywordRoot, p.asset);
    NumberBytes(p.deposit, p.capacity);
    hide EncVarint, TermsBytes, PurseTailCodec, U64, U32, AccountIdCodec, AssetCodec, OptionalId;
    var payer, payee, asset, deposit := p.payer.raw.bytes, p.payee.raw.bytes, OptionalId(p.asset), EncVarint(p.deposit);
    Together(payer, payee, asset + (deposit + TermsBytes(p)));
    Together(payer + payee, asset, deposit + TermsBytes(p));
    Together(payer + payee + asset, deposit, TermsBytes(p));
  }

  /** A device's key, lane, share and what it spent of it. */
  lemma DeviceInOrder(d: Device)
    ensures DeviceCodec().enc(d) ==
      KeyCodec().enc(d.key) + EncVarint(d.lane) + EncVarint(d.nomadShare) + EncVarint(d.nomadSpent)
  {
    hide EncVarint, KeyCodec;
  }

  /** What is left of an account after its revoked devices. */
  ghost function StandingBytes(a: Account, limit: nat): Bytes {
    EncVarint(a.nextLane) + LanesCodec(limit).enc(a.lanes) + GuardiansCodec(limit).enc(a.guardians)
    + EncVarint(a.guardianThreshold) + EncVarint(a.bonded)
    + (if a.name.None? then [0] else [1] + NameCodec().enc(a.name.value))
  }

  lemma StandingInOrder(a: Account, limit: nat)
    ensures AccountTailCodec(limit).enc(FieldsOfAccount(a).1.1.1.1.1) == StandingBytes(a, limit)
  {
    NumberBytes(a.bonded, a.nextLane);
    NumberBytes(a.bonded, a.guardianThreshold);
    hide EncVarint, LanesCodec, GuardiansCodec, NameCodec, U64, U32;
    var name := if a.name.None? then [0] else [1] + NameCodec().enc(a.name.value);
    assert Optional(NameCodec()).enc(a.name) == name;
    var next, lanes, guardians := EncVarint(a.nextLane), LanesCodec(limit).enc(a.lanes),
      GuardiansCodec(limit).enc(a.guardians);
    var threshold, bonded := EncVarint(a.guardianThreshold), EncVarint(a.bonded);
    Together(next, lanes, guardians + (threshold + (bonded + name)));
    Together(next + lanes, guardians, threshold + (bonded + name));
    Together(next + lanes + guardians, threshold, bonded + name);
    Together(next + lanes + guardians + threshold, bonded, name);
  }

  /** An account's fields, one after another. */
  lemma AccountInOrder(a: Account, limit: nat)
    ensures AccountCodec(limit).enc(a) ==
      BalancesCodec(limit).enc(a.balances) + EncVarint(a.nomadCredit) + EncVarint(a.nomadMargin)
      + DevicesCodec(limit).enc(a.devices) + RevokedCodec(limit).enc(a.revokedDevices) + StandingBytes(a, limit)
  {
    StandingInOrder(a, limit);
    NumberBytes(a.nomadCredit, a.nextLane);
    NumberBytes(a.nomadMargin, a.nextLane);
    hide EncVarint, BalancesCodec, DevicesCodec, RevokedCodec, AccountTailCodec, StandingBytes, U64;
    var balances, devices, revoked := BalancesCodec(limit).enc(a.balances), DevicesCodec(limit).enc(a.devices),
      RevokedCodec(limit).enc(a.revokedDevices);
    var credit, margin, rest := EncVarint(a.nomadCredit), EncVarint(a.nomadMargin), StandingBytes(a, limit);
    Together(balances, credit, margin + (devices + (revoked + rest)));
    Together(balances + credit, margin, devices + (revoked + rest));
    Together(balances + credit + margin, devices, revoked + rest);
    Together(balances + credit + margin + devices, revoked, rest);
  }

  // ----- Keys of state

  lemma NamespacesSpelled(id: Hash, purse: PurseId, name: Name)
    ensures Ascii(Namespace(AccountKey(AccountId(id)))) == [97, 99, 99, 111, 117, 110, 116]
    ensures Ascii(Namespace(PurseKey(purse))) == [112, 117, 114, 115, 101]
    ensures Ascii(Namespace(AssetKey(AssetId(id)))) == [97, 115, 115, 101, 116]
    ensures Ascii(Namespace(TickerKey(name))) == [116, 105, 99, 107, 101, 114]
    ensures Ascii(Namespace(NameKey(name))) == [110, 97, 109, 101]
  {
  }

  lemma OtherNamespacesSpelled(id: Hash)
    ensures Ascii(Namespace(CommitmentKey(id))) == [99, 111, 109, 109, 105, 116, 109, 101, 110, 116]
    ensures Ascii(Namespace(RecoveryKey(AccountId(id)))) == [114, 101, 99, 111, 118, 101, 114, 121]
    ensures Ascii(Namespace(OffenceKey(id))) == [111, 102, 102, 101, 110, 99, 101]
    ensures Ascii(Namespace(CountersKey)) == [114, 101, 115, 101, 114, 118, 101, 100]
  {
  }

  /** What each key of the state tree is the hash of: the length of a namespace, its letters,
      and the identifier or name. */
  lemma KeysSpelled(id: Hash, purse: PurseId, name: Name)
    ensures Preimage(AccountKey(AccountId(id))) == [7, 97, 99, 99, 111, 117, 110, 116] + id.bytes
    ensures Preimage(PurseKey(purse)) == [5, 112, 117, 114, 115, 101] + purse.raw.bytes
    ensures Preimage(AssetKey(AssetId(id))) == [5, 97, 115, 115, 101, 116] + id.bytes
    ensures Preimage(TickerKey(name)) == [6, 116, 105, 99, 107, 101, 114] + NameBytes(name)
    ensures Preimage(NameKey(name)) == [4, 110, 97, 109, 101] + NameBytes(name)
    ensures Preimage(CommitmentKey(id)) == [10, 99, 111, 109, 109, 105, 116, 109, 101, 110, 116] + id.bytes
    ensures Preimage(RecoveryKey(AccountId(id))) == [8, 114, 101, 99, 111, 118, 101, 114, 121] + id.bytes
    ensures Preimage(OffenceKey(id)) == [7, 111, 102, 102, 101, 110, 99, 101] + id.bytes
  {
    hide NameBytes, Ascii;
    NamespacesSpelled(id, purse, name);
    OtherNamespacesSpelled(id);
  }
}
