/**
 The stored forms of coins, names, name deltas and name undo records.
 */
module Codecs {
  import opened Primitives
  import opened Bytes32
  import opened Bits
  import opened Names

  /** What a reader gets: a value and the bytes behind it. */
  datatype Parsed<+T> = Got(value: T, rest: Bytes) | Short {
    predicate IsFailure() { Short? }

    function PropagateFailure<U>(): Parsed<U>
      requires Short?
    {
      Short
    }

    function Extract(): (T, Bytes)
      requires Got?
    {
      (value, rest)
    }
  }

  const U64_SAFE := 0x20_0000_0000_0000

  // ---------------------------------------------------------------------
  // Integers and byte strings
  // ---------------------------------------------------------------------

  function U16(n: nat): (s: Bytes)
    ensures |s| == 2
  {
    [n % 256, n / 0x100 % 256]
  }

  function Read8(s: Bytes): Parsed<nat> {
    if |s| < 1 then Short else Got(s[0], s[1..])
  }

  function Read16(s: Bytes): Parsed<nat> {
    if |s| < 2 then Short else Got((s[0] as int) + 0x100 * (s[1] as int), s[2..])
  }

  function Read32(s: Bytes): Parsed<nat> {
    if |s| < 4 then Short else Got(ReadU32(s), s[4..])
  }

  function Varint(n: nat): (s: Bytes)
    ensures |s| == VarintSize(n)
  {
    if n < 0xfd then [n]
    else if n <= 0xffff then [0xfd] + U16(n)
    else if n <= 0xffff_ffff then [0xfe] + U32(n)
    else [0xff] + U32(n % U32_LIMIT) + U32(n / U32_LIMIT)
  }

  function VarintSize(n: nat): nat {
    if n < 0xfd then 1 else if n <= 0xffff then 3 else if n <= 0xffff_ffff then 5 else 9
  }

  function ReadVarint(s: Bytes): Parsed<nat> {
    if |s| < 1 then Short
    else if s[0] < 0xfd then Got(s[0], s[1..])
    else if s[0] == 0xfd then Read16(s[1..])
    else if s[0] == 0xfe then Read32(s[1..])
    else
      var (low, more) :- Read32(s[1..]);
      var (high, rest) :- Read32(more);
      Got(low + U32_LIMIT * high, rest)
  }

  function ReadBytes(n: nat, s: Bytes): Parsed<Bytes> {
    if |s| < n then Short else Got(s[..n], s[n..])
  }

  lemma Trip16(n: nat, rest: Bytes)
    requires n < 0x1_0000
    ensures Read16(U16(n) + rest) == Got(n, rest)
  {
  }

  lemma Trip32(n: nat, rest: Bytes)
    requires n < U32_LIMIT
    ensures Read32(U32(n) + rest) == Got(n, rest)
  {
    U32RoundTrip(n, rest);
    assert (U32(n) + rest)[4..] == rest;
  }

  lemma TripVarint(n: nat, rest: Bytes)
    requires n < U64_SAFE
    ensures ReadVarint(Varint(n) + rest) == Got(n, rest)
  {
    hide U32, ReadU32, Read16, U16;
    var s := Varint(n) + rest;
    if n < 0xfd {
      assert s[1..] == rest;
    } else if n <= 0xffff {
      assert s[1..] == U16(n) + rest;
      Trip16(n, rest);
    } else if n <= 0xffff_ffff {
      assert s[1..] == U32(n) + rest;
      Trip32(n, rest);
    } else {
      var tail := U32(n / U32_LIMIT) + rest;
      assert s[1..] == U32(n % U32_LIMIT) + tail;
      Trip32(n % U32_LIMIT, tail);
      Trip32(n / U32_LIMIT, rest);
    }
  }

  lemma TripBytes(b: Bytes, rest: Bytes)
    ensures ReadBytes(|b|, b + rest) == Got(b, rest)
  {
  }

  // ---------------------------------------------------------------------
  // Flags
  // ---------------------------------------------------------------------

  /** `field |= 1 << i` for every flag that is set. */
  function Pack(flags: seq<bool>): nat {
    if flags == [] then 0
    else
      var k := |flags| - 1;
      if flags[k] then SetBit(Pack(flags[..k]), k) else Pack(flags[..k])
  }

  lemma {:induction false} PackBits(flags: seq<bool>, i: nat)
    ensures Bit(Pack(flags), i) <==> i < |flags| && flags[i]
  {
    hide SetBit, Bit;
    if flags == [] {
      NoBits(i);
    } else {
      var k := |flags| - 1;
      PackBits(flags[..k], i);
      SetBitSets(Pack(flags[..k]), k, i);
    }
  }

  lemma {:induction false} PackSmall(flags: seq<bool>, n: nat)
    requires |flags| <= n
    ensures Pack(flags) < Pow2(n)
  {
    if flags != [] {
      var k := |flags| - 1;
      PackSmall(flags[..k], n);
      SetBitStays(Pack(flags[..k]), k, n);
    }
  }

  // ---------------------------------------------------------------------
  // Coins
  // ---------------------------------------------------------------------

  const MAX_HEIGHT := 0x7fff_ffff

  /** The head of a stored coin: the version, and height and coinbase flag packed
      into 32 bits.  An unconfirmed coin has height -1 and is stored under the
      greatest height. */
  function CoinField(height: int, coinbase: bool): nat {
    var h := if height == -1 then MAX_HEIGHT else height;
    (2 * h + if coinbase then 1 else 0) % U32_LIMIT
  }

  function WriteCoinHead(version: nat, height: int, coinbase: bool, rest: Bytes): Bytes {
    Varint(version) + (U32(CoinField(height, coinbase)) + rest)
  }

  function ReadCoinHead(s: Bytes): Parsed<(nat, int, bool)> {
    var (version, more) :- ReadVarint(s);
    var (field, rest) :- Read32(more);
    var height := field / 2;
    Got((version, if height == MAX_HEIGHT then -1 else height, field % 2 == 1), rest)
  }

  /** A coin comes back as it was stored exactly when its height is -1 or a number
      below the greatest height. */
  lemma CoinRoundTrip(version: nat, height: int, coinbase: bool, rest: Bytes)
    requires version < U64_SAFE
    ensures ReadCoinHead(WriteCoinHead(version, height, coinbase, rest)) == Got((version, height, coinbase), rest)
            <==> -1 <= height < MAX_HEIGHT
  {
    hide Varint, ReadVarint, U32, Read32;
    TripVarint(version, U32(CoinField(height, coinbase)) + rest);
    Trip32(CoinField(height, coinbase), rest);
  }

  // ---------------------------------------------------------------------
  // Optional fields of a delta
  // ---------------------------------------------------------------------

  function Put32(o: Option<nat>, rest: Bytes): Bytes {
    if o.Some? then U32(o.value) + rest else rest
  }

  function PutNonzero32(o: Option<nat>, rest: Bytes): Bytes {
    if o.Some? && o.value != 0 then U32(o.value) + rest else rest
  }

  function PutNonzeroVar(o: Option<nat>, rest: Bytes): Bytes {
    if o.Some? && o.value != 0 then Varint(o.value) + rest else rest
  }

  function PutOwner(o: Option<Outpoint>, rest: Bytes): Bytes {
    if o.Some? && !o.value.IsNull() then o.value.hash + (Varint(o.value.index) + rest) else rest
  }

  function PutData(o: Option<Bytes>, rest: Bytes): Bytes {
    if o.Some? then Varint(|o.value|) + (o.value + rest) else rest
  }

  function Get32(there: bool, s: Bytes): Parsed<Option<nat>> {
    if !there then Got(None, s)
    else
      var (n, rest) :- Read32(s);
      Got(Some(n), rest)
  }

  function GetNonzero32(there: bool, nonzero: bool, s: Bytes): Parsed<Option<nat>> {
    if !there then Got(None, s)
    else if !nonzero then Got(Some(0), s)
    else
      var (n, rest) :- Read32(s);
      Got(Some(n), rest)
  }

  function GetNonzeroVar(there: bool, nonzero: bool, s: Bytes): Parsed<Option<nat>> {
    if !there then Got(None, s)
    else if !nonzero then Got(Some(0), s)
    else
      var (n, rest) :- ReadVarint(s);
      Got(Some(n), rest)
  }

  function GetOwner(there: bool, notNull: bool, s: Bytes): Parsed<Option<Outpoint>> {
    if !there then Got(None, s)
    else if !notNull then Got(Some(NULL_OUTPOINT), s)
    else
      var (hash, more) :- ReadBytes(32, s);
      var (index, rest) :- ReadVarint(more);
      Got(Some(Outpoint(hash, index)), rest)
  }

  function GetData(there: bool, full: bool, s: Bytes): Parsed<Option<Bytes>> {
    if !there then Got(None, s)
    else if !full then Got(Some([]), s)
    else
      var (n, more) :- ReadVarint(s);
      var (data, rest) :- ReadBytes(n, more);
      Got(Some(data), rest)
  }

  function GetFlag(there: bool, set_: bool): Option<bool> {
    if there then Some(set_) else None
  }

  predicate Nonzero(o: Option<nat>) {
    o.Some? && o.value != 0
  }

  predicate On(o: Option<bool>) {
    o.Some? && o.value
  }

  lemma TripOption32(o: Option<nat>, rest: Bytes)
    requires o.Some? ==> o.value < U32_LIMIT
    ensures Get32(o.Some?, Put32(o, rest)) == Got(o, rest)
    ensures GetNonzero32(o.Some?, Nonzero(o), PutNonzero32(o, rest)) == Got(o, rest)
  {
    if o.Some? { Trip32(o.value, rest); }
  }

  lemma TripOptionVar(o: Option<nat>, rest: Bytes)
    requires o.Some? ==> o.value < U64_SAFE
    ensures GetNonzeroVar(o.Some?, Nonzero(o), PutNonzeroVar(o, rest)) == Got(o, rest)
  {
    if o.Some? { TripVarint(o.value, rest); }
  }

  lemma TripOwner(o: Option<Outpoint>, rest: Bytes)
    requires o.Some? ==> o.value.index < U64_SAFE
    ensures GetOwner(o.Some?, o.Some? && !o.value.IsNull(), PutOwner(o, rest)) == Got(o, rest)
  {
    hide Varint, ReadVarint;
    if o.Some? && !o.value.IsNull() {
      TripBytes(o.value.hash, Varint(o.value.index) + rest);
      TripVarint(o.value.index, rest);
    }
  }

  lemma TripData(o: Option<Bytes>, rest: Bytes)
    requires o.Some? ==> |o.value| < U64_SAFE
    ensures GetData(o.Some?, o.Some?, PutData(o, rest)) == Got(o, rest)
  {
    hide Varint, ReadVarint;
    if o.Some? {
      TripVarint(|o.value|, o.value + rest);
      TripBytes(o.value, rest);
    }
  }

  // ---------------------------------------------------------------------
  // Name deltas
  // ---------------------------------------------------------------------

  /** Two flags for every optional field: whether it is there, and whether a
      value follows (or, for a boolean, what it is). */
  function DeltaFlags(d: NameDelta): (fs: seq<bool>)
    ensures |fs| == 24
  {
    [d.height.Some?, d.renewal.Some?,
     d.owner.Some?, d.owner.Some? && !d.owner.value.IsNull(),
     d.value.Some?, Nonzero(d.value), d.highest.Some?, Nonzero(d.highest),
     d.data.Some?, d.data.Some?,
     d.transfer.Some?, Nonzero(d.transfer), d.revoked.Some?, Nonzero(d.revoked),
     d.claimed.Some?, Nonzero(d.claimed), d.renewals.Some?, Nonzero(d.renewals),
     d.registered.Some?, On(d.registered), d.expired.Some?, On(d.expired),
     d.weak.Some?, On(d.weak)]
  }

  /** The fields behind the flags. */
  function DeltaBody(d: NameDelta, rest: Bytes): Bytes {
    PutFront(d, PutMiddle(d, PutBack(d, rest)))
  }

  function PutFront(d: NameDelta, rest: Bytes): Bytes {
    Put32(d.height, Put32(d.renewal, PutOwner(d.owner, PutNonzeroVar(d.value, PutNonzeroVar(d.highest, rest)))))
  }

  function PutMiddle(d: NameDelta, rest: Bytes): Bytes {
    PutData(d.data, PutNonzero32(d.transfer, PutNonzero32(d.revoked, rest)))
  }

  function PutBack(d: NameDelta, rest: Bytes): Bytes {
    PutNonzero32(d.claimed, PutNonzeroVar(d.renewals, rest))
  }

  function WriteDelta(d: NameDelta, rest: Bytes): Bytes {
    U32(Pack(DeltaFlags(d))) + DeltaBody(d, rest)
  }

  function ReadDelta(s: Bytes): Parsed<NameDelta> {
    var (field, body) :- Read32(s);
    ReadDeltaBody(seq(24, i requires 0 <= i < 24 => Bit(field, i)), body)
  }

  function ReadDeltaBody(f: seq<bool>, s: Bytes): Parsed<NameDelta>
    requires |f| == 24
  {
    var (front, more) :- GetFront(f, s);
    var (middle, more) :- GetMiddle(f, front, more);
    GetBack(f, middle, more)
  }

  function GetFront(f: seq<bool>, s: Bytes): Parsed<NameDelta>
    requires |f| == 24
  {
    var (height, s) :- Get32(f[0], s);
    var (renewal, s) :- Get32(f[1], s);
    var (owner, s) :- GetOwner(f[2], f[3], s);
    var (value, s) :- GetNonzeroVar(f[4], f[5], s);
    var (highest, s) :- GetNonzeroVar(f[6], f[7], s);
    Got(NULL_DELTA.(height := height, renewal := renewal, owner := owner, value := value, highest := highest), s)
  }

  function GetMiddle(f: seq<bool>, d: NameDelta, s: Bytes): Parsed<NameDelta>
    requires |f| == 24
  {
    var (data, s) :- GetData(f[8], f[9], s);
    var (transfer, s) :- GetNonzero32(f[10], f[11], s);
    var (revoked, s) :- GetNonzero32(f[12], f[13], s);
    Got(d.(data := data, transfer := transfer, revoked := revoked), s)
  }

  function GetBack(f: seq<bool>, d: NameDelta, s: Bytes): Parsed<NameDelta>
    requires |f| == 24
  {
    var (claimed, s) :- GetNonzero32(f[14], f[15], s);
    var (renewals, s) :- GetNonzeroVar(f[16], f[17], s);
    Got(d.(claimed := claimed, renewals := renewals, registered := GetFlag(f[18], f[19]),
           expired := GetFlag(f[20], f[21]), weak := GetFlag(f[22], f[23])), s)
  }

  predicate Below(o: Option<nat>, limit: nat) {
    o.Some? ==> o.value < limit
  }

  /** Numbers of the widths they are stored in. */
  predicate DeltaFits(d: NameDelta) {
    && Below(d.height, U32_LIMIT) && Below(d.renewal, U32_LIMIT) && Below(d.value, U64_SAFE)
    && Below(d.highest, U64_SAFE) && Below(d.transfer, U32_LIMIT) && Below(d.revoked, U32_LIMIT)
    && Below(d.claimed, U32_LIMIT) && Below(d.renewals, U64_SAFE)
    && (d.owner.Some? ==> d.owner.value.index < U64_SAFE) && (d.data.Some? ==> |d.data.value| < U64_SAFE)
  }

  lemma TripFront(d: NameDelta, rest: Bytes)
    requires DeltaFits(d)
    ensures GetFront(DeltaFlags(d), PutFront(d, rest))
            == Got(NULL_DELTA.(height := d.height, renewal := d.renewal, owner := d.owner, value := d.value,
                               highest := d.highest), rest)
  {
    hide Put32, PutNonzeroVar, PutOwner, Get32, GetNonzeroVar, GetOwner;
    var r4 := PutNonzeroVar(d.highest, rest);
    var r3 := PutNonzeroVar(d.value, r4);
    var r2 := PutOwner(d.owner, r3);
    TripOption32(d.height, Put32(d.renewal, r2));
    TripOption32(d.renewal, r2);
    TripOwner(d.owner, r3);
    TripOptionVar(d.value, r4);
    TripOptionVar(d.highest, rest);
  }

  lemma TripMiddle(d: NameDelta, front: NameDelta, rest: Bytes)
    requires DeltaFits(d)
    ensures GetMiddle(DeltaFlags(d), front, PutMiddle(d, rest))
            == Got(front.(data := d.data, transfer := d.transfer, revoked := d.revoked), rest)
  {
    hide PutNonzero32, PutData, GetNonzero32, GetData;
    var r2 := PutNonzero32(d.revoked, rest);
    var r1 := PutNonzero32(d.transfer, r2);
    TripData(d.data, r1);
    TripOption32(d.transfer, r2);
    TripOption32(d.revoked, rest);
  }

  lemma TripBack(d: NameDelta, middle: NameDelta, rest: Bytes)
    requires DeltaFits(d)
    ensures GetBack(DeltaFlags(d), middle, PutBack(d, rest))
            == Got(middle.(claimed := d.claimed, renewals := d.renewals, registered := d.registered,
                           expired := d.expired, weak := d.weak), rest)
  {
    hide PutNonzero32, PutNonzeroVar, GetNonzero32, GetNonzeroVar, On, GetFlag;
    TripOption32(d.claimed, PutNonzeroVar(d.renewals, rest));
    TripOptionVar(d.renewals, rest);
    TripFlag(d.registered);
    TripFlag(d.expired);
    TripFlag(d.weak);
  }

  lemma TripFlag(o: Option<bool>)
    ensures GetFlag(o.Some?, On(o)) == o
  {
  }

  lemma TripDeltaBody(d: NameDelta, rest: Bytes)
    requires DeltaFits(d)
    ensures ReadDeltaBody(DeltaFlags(d), DeltaBody(d, rest)) == Got(d, rest)
  {
    hide PutFront, PutMiddle, PutBack, GetFront, GetMiddle, GetBack, DeltaFlags, DeltaFits;
    TripFront(d, PutMiddle(d, PutBack(d, rest)));
    var front := GetFront(DeltaFlags(d), DeltaBody(d, rest)).value;
    TripMiddle(d, front, PutBack(d, rest));
    TripBack(d, front.(data := d.data, transfer := d.transfer, revoked := d.revoked), rest);
  }

  /** Every delta comes back from its stored form, also null owners, zeros, empty
      data and flags that were recorded as false. */
  lemma DeltaRoundTrip(d: NameDelta, rest: Bytes)
    requires DeltaFits(d)
    ensures ReadDelta(WriteDelta(d, rest)) == Got(d, rest)
  {
    hide Pack, DeltaBody, ReadDeltaBody, DeltaFlags, Bit, DeltaFits;
    var flags := DeltaFlags(d);
    PackSmall(flags, 24);
    assert Pow2(24) < U32_LIMIT by { SmallPower(); }
    Trip32(Pack(flags), DeltaBody(d, rest));
    forall i | 0 <= i < 24 ensures Bit(Pack(flags), i) <==> flags[i] {
      PackBits(flags, i);
    }
    assert seq(24, i requires 0 <= i < 24 => Bit(Pack(flags), i)) == flags;
    TripDeltaBody(d, rest);
  }

  lemma SmallPower()
    ensures Pow2(24) == 0x100_0000
  {
    BytePower();
    PowerAdds(8, 16);
    PowerAdds(8, 8);
  }

  lemma {:induction false} PowerAdds(a: nat, b: nat)
    ensures Pow2(a + b) == Pow2(a) * Pow2(b)
  {
    if a > 0 {
      PowerAdds(a - 1, b);
      assert Pow2(a + b) == 2 * Pow2(a - 1 + b);
    }
  }

  /** `getSize` of a delta: four bytes of flags, and what follows them. */
  function DeltaSize(d: NameDelta): nat {
    4 + Size32(d.height) + Size32(d.renewal)
    + (if d.owner.Some? && !d.owner.value.IsNull() then 32 + VarintSize(d.owner.value.index) else 0)
    + SizeVar(d.value) + SizeVar(d.highest)
    + (if d.data.Some? then VarintSize(|d.data.value|) + |d.data.value| else 0)
    + SizeNonzero32(d.transfer) + SizeNonzero32(d.revoked) + SizeNonzero32(d.claimed) + SizeVar(d.renewals)
  }

  function Size32(o: Option<nat>): nat { if o.Some? then 4 else 0 }

  function SizeNonzero32(o: Option<nat>): nat { if Nonzero(o) then 4 else 0 }

  function SizeVar(o: Option<nat>): nat { if Nonzero(o) then VarintSize(o.value) else 0 }

  lemma DeltaSized(d: NameDelta, rest: Bytes)
    ensures |WriteDelta(d, rest)| == DeltaSize(d) + |rest|
  {
    hide Varint, U32, Pack, DeltaFlags;
    var back := PutBack(d, rest);
    var middle := PutMiddle(d, back);
    assert |back| == SizeNonzero32(d.claimed) + SizeVar(d.renewals) + |rest|;
    MiddleSized(d, back);
    FrontSized(d, middle);
  }

  lemma MiddleSized(d: NameDelta, rest: Bytes)
    ensures |PutMiddle(d, rest)|
            == (if d.data.Some? then VarintSize(|d.data.value|) + |d.data.value| else 0)
               + SizeNonzero32(d.transfer) + SizeNonzero32(d.revoked) + |rest|
  {
  }

  lemma FrontSized(d: NameDelta, rest: Bytes)
    ensures |PutFront(d, rest)|
            == Size32(d.height) + Size32(d.renewal)
               + (if d.owner.Some? && !d.owner.value.IsNull() then 32 + VarintSize(d.owner.value.index) else 0)
               + SizeVar(d.value) + SizeVar(d.highest) + |rest|
  {
  }

  // ---------------------------------------------------------------------
  // Name undo records
  // ---------------------------------------------------------------------

  function WriteNames(names: NameUndo, rest: Bytes): Bytes {
    if names == [] then rest else names[0].0 + WriteDelta(names[0].1, WriteNames(names[1..], rest))
  }

  /** The reader's loop over the records of an undo entry. */
  method ReadUndo(data: Bytes, ghost names: NameUndo, ghost rest: Bytes) returns (r: Parsed<NameUndo>)
    requires data == U32(|names|) + WriteNames(names, rest) && |names| < U32_LIMIT
    requires forall i :: 0 <= i < |names| ==> DeltaFits(names[i].1)
    ensures r == Got(names, rest)
  {
    hide ReadDelta, WriteDelta, Read32, U32, DeltaFits;
    Trip32(|names|, WriteNames(names, rest));
    var count := Read32(data);
    if count.Short? { return Short; }
    var s, list: NameUndo := count.rest, [];
    for i := 0 to count.value
      invariant |list| == i && list == names[..i] && s == WriteNames(names[i..], rest)
    {
      NextName(names, i, rest);
      var nameHash := ReadBytes(32, s);
      if nameHash.Short? { return Short; }
      var delta := ReadDelta(nameHash.rest);
      if delta.Short? { return Short; }
      list := list + [(nameHash.value, delta.value)];
      s := delta.rest;
    }
    assert names[|names|..] == [] && names[..|names|] == names;
    return Got(list, s);
  }

  lemma NextName(names: NameUndo, i: nat, rest: Bytes)
    requires i < |names| && DeltaFits(names[i].1)
    ensures var after := WriteDelta(names[i].1, WriteNames(names[i + 1..], rest));
            && ReadBytes(32, WriteNames(names[i..], rest)) == Got(names[i].0, after)
            && ReadDelta(after) == Got(names[i].1, WriteNames(names[i + 1..], rest))
  {
    hide WriteDelta, ReadDelta, DeltaFits;
    var tail := WriteNames(names[i + 1..], rest);
    assert names[i..][1..] == names[i + 1..];
    TripBytes(names[i].0, WriteDelta(names[i].1, tail));
    DeltaRoundTrip(names[i].1, tail);
  }

  // ---------------------------------------------------------------------
  // Name states
  // ---------------------------------------------------------------------

  function NameFlags(r: NameRec): (fs: seq<bool>)
    ensures |fs| == 10
  {
    [!r.owner.IsNull(), r.value != 0, r.highest != 0, r.transfer != 0, r.revoked != 0, r.claimed != 0,
     r.renewals != 0, r.registered, r.expired, r.weak]
  }

  function WriteName(r: NameRec, rest: Bytes): Bytes {
    [|r.name| % 256] + (r.name + (U16(|r.data|) + (r.data + (U32(r.height) + (U32(r.renewal)
    + (U16(Pack(NameFlags(r))) + NameBody(r, rest)))))))
  }

  function NameBody(r: NameRec, rest: Bytes): Bytes {
    PutOwner(Some(r.owner), PutNonzeroVar(Some(r.value), PutNonzeroVar(Some(r.highest), NameDates(r, rest))))
  }

  function NameDates(r: NameRec, rest: Bytes): Bytes {
    PutNonzero32(Some(r.transfer), PutNonzero32(Some(r.revoked), PutNonzero32(Some(r.claimed),
    PutNonzeroVar(Some(r.renewals), rest))))
  }

  function ReadName(s: Bytes): Parsed<NameRec> {
    var (n, s) :- Read8(s);
    var (name, s) :- ReadBytes(n, s);
    var (m, s) :- Read16(s);
    var (data, s) :- ReadBytes(m, s);
    var (height, s) :- Read32(s);
    var (renewal, s) :- Read32(s);
    var (field, s) :- Read16(s);
    ReadNameBody(seq(10, i requires 0 <= i < 10 => Bit(field, i)),
                 NULL_REC.(name := name, data := data, height := height, renewal := renewal), s)
  }

  function ReadNameBody(f: seq<bool>, r: NameRec, s: Bytes): Parsed<NameRec>
    requires |f| == 10
  {
    var (owner, s) :- GetOwner(true, f[0], s);
    var (value, s) :- GetNonzeroVar(true, f[1], s);
    var (highest, s) :- GetNonzeroVar(true, f[2], s);
    ReadNameDates(f, r.(owner := Or(owner, r.owner), value := Or(value, 0), highest := Or(highest, 0)), s)
  }

  function ReadNameDates(f: seq<bool>, r: NameRec, s: Bytes): Parsed<NameRec>
    requires |f| == 10
  {
    var (transfer, s) :- GetNonzero32(true, f[3], s);
    var (revoked, s) :- GetNonzero32(true, f[4], s);
    var (claimed, s) :- GetNonzero32(true, f[5], s);
    var (renewals, s) :- GetNonzeroVar(true, f[6], s);
    Got(r.(transfer := Or(transfer, 0), revoked := Or(revoked, 0), claimed := Or(claimed, 0),
           renewals := Or(renewals, 0), registered := f[7], expired := f[8], weak := f[9]), s)
  }

  predicate NameFits(r: NameRec) {
    && |r.name| < 0x100 && |r.data| < 0x1_0000 && r.height < U32_LIMIT && r.renewal < U32_LIMIT
    && r.owner.index < U64_SAFE && r.value < U64_SAFE && r.highest < U64_SAFE && r.transfer < U32_LIMIT
    && r.revoked < U32_LIMIT && r.claimed < U32_LIMIT && r.renewals < U64_SAFE
  }

  lemma TripDates(r: NameRec, q: NameRec, rest: Bytes)
    requires NameFits(r)
    ensures ReadNameDates(NameFlags(r), q, NameDates(r, rest))
            == Got(q.(transfer := r.transfer, revoked := r.revoked, claimed := r.claimed, renewals := r.renewals,
                      registered := r.registered, expired := r.expired, weak := r.weak), rest)
  {
    hide PutNonzero32, PutNonzeroVar, GetNonzero32, GetNonzeroVar;
    var r2 := PutNonzeroVar(Some(r.renewals), rest);
    var r1 := PutNonzero32(Some(r.claimed), r2);
    TripOption32(Some(r.transfer), PutNonzero32(Some(r.revoked), r1));
    TripOption32(Some(r.revoked), r1);
    TripOption32(Some(r.claimed), r2);
    TripOptionVar(Some(r.renewals), rest);
  }

  lemma TripNameBody(r: NameRec, rest: Bytes)
    requires NameFits(r)
    ensures ReadNameBody(NameFlags(r), NULL_REC.(name := r.name, data := r.data, height := r.height,
                                                 renewal := r.renewal), NameBody(r, rest))
            == Got(r, rest)
  {
    hide PutOwner, PutNonzeroVar, GetOwner, GetNonzeroVar, NameDates, ReadNameDates;
    var r2 := NameDates(r, rest);
    var r1 := PutNonzeroVar(Some(r.highest), r2);
    TripOwner(Some(r.owner), PutNonzeroVar(Some(r.value), r1));
    TripOptionVar(Some(r.value), r1);
    TripOptionVar(Some(r.highest), r2);
    TripDates(r, NULL_REC.(name := r.name, data := r.data, height := r.height, renewal := r.renewal,
                           owner := r.owner, value := r.value, highest := r.highest), rest);
  }

  /** Every name state comes back from its stored form. */
  lemma NameRoundTrip(r: NameRec, rest: Bytes)
    requires NameFits(r)
    ensures ReadName(WriteName(r, rest)) == Got(r, rest)
  {
    hide Pack, NameBody, ReadNameBody, NameFlags, Bit, U16, U32, Read16, Read32;
    var flags := NameFlags(r);
    PackSmall(flags, 11);
    BytePower();
    var r6 := NameBody(r, rest);
    var r5 := U16(Pack(flags)) + r6;
    var r4 := U32(r.renewal) + r5;
    var r3 := U32(r.height) + r4;
    var r2 := U16(|r.data|) + (r.data + r3);
    var s := [|r.name|] + (r.name + r2);
    assert Read8(s) == Got(|r.name|, r.name + r2) by { assert s[1..] == r.name + r2; }
    TripBytes(r.name, r2);
    Trip16(|r.data|, r.data + r3);
    TripBytes(r.data, r3);
    Trip32(r.height, r4);
    Trip32(r.renewal, r5);
    Trip16(Pack(flags), r6);
    forall i | 0 <= i < 10 ensures Bit(Pack(flags), i) <==> flags[i] {
      PackBits(flags, i);
    }
    assert seq(10, i requires 0 <= i < 10 => Bit(Pack(flags), i)) == flags;
    TripNameBody(r, rest);
  }
}
