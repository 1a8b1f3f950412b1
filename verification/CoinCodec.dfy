/**
 The stored form of a coin and of the undo coins of a block: outputs with their
 covenants as kinds and items, and a counted list of coins.
 */
module CoinCodec {
  import opened Primitives
  import opened Bytes32
  import opened Codecs

  const MAX_ITEMS := 1000

  // ---------------------------------------------------------------------
  // Covenants as items
  // ---------------------------------------------------------------------

  function KindOf(cov: Covenant): nat {
    match cov
    case NoCovenant => 0
    case Claim(_, _, _, _, _, _) => 1
    case Open(_, _) => 2
    case Bid(_, _, _, _) => 3
    case Reveal(_, _, _) => 4
    case Redeem(_, _) => 5
    case Register(_, _, _, _) => 6
    case Update(_, _, _) => 7
    case Renew(_, _, _) => 8
    case Transfer(_, _, _, _) => 9
    case Finalize(_, _, _, _, _, _, _) => 10
    case Revoke(_, _) => 11
    case UnknownCovenant(kind, _) => kind
  }

  /** The items of a covenant, by position. */
  function ItemsOf(cov: Covenant): seq<Bytes> {
    match cov
    case NoCovenant => []
    case Claim(nameHash, height, name, flags, commitHash, commitHeight) =>
      [nameHash, U32(height), name, [flags], commitHash, U32(commitHeight)]
    case Open(nameHash, name) => [nameHash, U32(0), name]
    case Bid(nameHash, height, name, blind) => [nameHash, U32(height), name, blind]
    case Reveal(nameHash, height, nonce) => [nameHash, U32(height), nonce]
    case Redeem(nameHash, height) => [nameHash, U32(height)]
    case Register(nameHash, height, data, renewalBlock) => [nameHash, U32(height), data, renewalBlock]
    case Update(nameHash, height, data) => [nameHash, U32(height), data]
    case Renew(nameHash, height, renewalBlock) => [nameHash, U32(height), renewalBlock]
    case Transfer(nameHash, height, version, addressHash) =>
      [nameHash, U32(height), [version % 256], addressHash]
    case Finalize(nameHash, height, name, flags, claimed, renewals, renewalBlock) =>
      [nameHash, U32(height), name, [flags], U32(claimed), U32(renewals), renewalBlock]
    case Revoke(nameHash, height) => [nameHash, U32(height)]
    case UnknownCovenant(_, items) => items
  }

  predicate IsHash(item: Bytes) { |item| == 32 }

  predicate IsWord(item: Bytes) { |item| == 4 }

  /** The covenant that items of a kind stand for; none when their number or their
      sizes are not those of the kind. */
  function CovenantOf(kind: nat, items: seq<Bytes>): Option<Covenant> {
    var n := |items|;
    if kind == 0 then if n == 0 then Some(NoCovenant) else None
    else if kind >= 12 then Some(UnknownCovenant(kind, items))
    else if n < 2 || !IsHash(items[0]) || !IsWord(items[1]) then None
    else
      var nameHash: Hash, height := items[0], ReadU32(items[1]);
      if kind == 1 then
        if n == 6 && |items[3]| == 1 && IsHash(items[4]) && IsWord(items[5])
        then Some(Claim(nameHash, height, items[2], items[3][0], items[4], ReadU32(items[5]))) else None
      else if kind == 2 then if n == 3 && height == 0 then Some(Open(nameHash, items[2])) else None
      else if kind == 3 then
        if n == 4 && IsHash(items[3]) then Some(Bid(nameHash, height, items[2], items[3])) else None
      else if kind == 4 then
        if n == 3 && IsHash(items[2]) then Some(Reveal(nameHash, height, items[2])) else None
      else if kind == 5 then if n == 2 then Some(Redeem(nameHash, height)) else None
      else if kind == 6 then
        if n == 4 && IsHash(items[3]) then Some(Register(nameHash, height, items[2], items[3])) else None
      else if kind == 7 then if n == 3 then Some(Update(nameHash, height, items[2])) else None
      else if kind == 8 then
        if n == 3 && IsHash(items[2]) then Some(Renew(nameHash, height, items[2])) else None
      else if kind == 9 then
        if n == 4 && |items[2]| == 1 then Some(Transfer(nameHash, height, items[2][0], items[3])) else None
      else if kind == 10 then
        if n == 7 && |items[3]| == 1 && IsWord(items[4]) && IsWord(items[5]) && IsHash(items[6])
        then Some(Finalize(nameHash, height, items[2], items[3][0], ReadU32(items[4]), ReadU32(items[5]), items[6]))
        else None
      else if n == 2 then Some(Revoke(nameHash, height)) else None
  }

  lemma WordBack(n: nat)
    requires n < WORD
    ensures ReadU32(U32(n)) == n
  {
    U32RoundTrip(n, []);
    assert U32(n) + [] == U32(n);
  }

  /** Kind and items determine the covenant. */
  lemma CovenantItems(cov: Covenant)
    requires cov.Fits()
    ensures CovenantOf(KindOf(cov), ItemsOf(cov)) == Some(cov)
    ensures KindOf(cov) < 256 && |ItemsOf(cov)| <= MAX_ITEMS
    ensures forall item :: item in ItemsOf(cov) ==> |item| < U64_SAFE
  {
    hide U32, ReadU32;
    WordBack(0);
    match cov
    case NoCovenant =>
    case UnknownCovenant(_, _) =>
    case Open(_, _) =>
    case Claim(_, height, _, _, _, commitHeight) => WordBack(height); WordBack(commitHeight);
    case Finalize(_, height, _, _, claimed, renewals, _) =>
      WordBack(height); WordBack(claimed); WordBack(renewals);
    case _ => WordBack(cov.height);
  }

  // ---------------------------------------------------------------------
  // Writing
  // ---------------------------------------------------------------------

  function WriteItems(items: seq<Bytes>, rest: Bytes): Bytes {
    if items == [] then rest else Varint(|items[0]|) + (items[0] + WriteItems(items[1..], rest))
  }

  function WriteCovenant(cov: Covenant, rest: Bytes): Bytes {
    [KindOf(cov) % 256] + (Varint(|ItemsOf(cov)|) + WriteItems(ItemsOf(cov), rest))
  }

  function WriteAddress(a: Address, rest: Bytes): Bytes {
    [a.version % 256] + ([|a.hash| % 256] + (a.hash + rest))
  }

  /** `compress.pack` */
  function WriteOutput(output: Output, rest: Bytes): Bytes {
    Varint(output.value) + WriteAddress(output.address, WriteCovenant(output.covenant, rest))
  }

  function WriteCoin(coin: CoinEntry, rest: Bytes): Bytes {
    WriteCoinHead(coin.version, coin.height, coin.coinbase, WriteOutput(coin.output, rest))
  }

  function WriteCoins(coins: seq<CoinEntry>, rest: Bytes): Bytes {
    if coins == [] then rest else WriteCoin(coins[0], WriteCoins(coins[1..], rest))
  }

  function WriteUndoCoins(coins: seq<CoinEntry>): Bytes {
    U32(|coins|) + WriteCoins(coins, [])
  }

  // ---------------------------------------------------------------------
  // Reading
  // ---------------------------------------------------------------------

  function ReadItems(n: nat, s: Bytes): Parsed<seq<Bytes>> {
    if n == 0 then Got([], s)
    else
      var (size, s) :- ReadVarint(s);
      var (item, s) :- ReadBytes(size, s);
      var (items, s) :- ReadItems(n - 1, s);
      Got([item] + items, s)
  }

  function ReadCovenant(s: Bytes): Parsed<Covenant> {
    var (kind, s) :- Read8(s);
    var (n, s) :- ReadVarint(s);
    if n > MAX_ITEMS then Short
    else
      var (items, s) :- ReadItems(n, s);
      var cov := CovenantOf(kind, items);
      if cov.None? then Short else Got(cov.value, s)
  }

  function ReadAddress(s: Bytes): Parsed<Address> {
    var (version, s) :- Read8(s);
    if version > 31 then Short
    else
      var (size, s) :- Read8(s);
      if size < 2 || size > 40 then Short
      else
        var (hash, s) :- ReadBytes(size, s);
        Got(Address(version, hash), s)
  }

  /** `compress.unpack` */
  function ReadOutput(s: Bytes): Parsed<Output> {
    var (value, s) :- ReadVarint(s);
    var (address, s) :- ReadAddress(s);
    var (cov, s) :- ReadCovenant(s);
    Got(Output(value, address, cov), s)
  }

  function ReadCoin(s: Bytes): Parsed<CoinEntry> {
    var (head, s) :- ReadCoinHead(s);
    var (output, s) :- ReadOutput(s);
    Got(CoinEntry(head.0, head.1, head.2, output), s)
  }

  function ReadCoins(n: nat, s: Bytes): Parsed<seq<CoinEntry>> {
    if n == 0 then Got([], s)
    else
      var (coin, s) :- ReadCoin(s);
      var (coins, s) :- ReadCoins(n - 1, s);
      Got([coin] + coins, s)
  }

  function ReadUndoCoins(s: Bytes): Parsed<seq<CoinEntry>> {
    var (n, s) :- Read32(s);
    ReadCoins(n, s)
  }

  // ---------------------------------------------------------------------
  // Round trips
  // ---------------------------------------------------------------------

  lemma {:induction false} TripItems(items: seq<Bytes>, rest: Bytes)
    requires forall item :: item in items ==> |item| < U64_SAFE
    ensures ReadItems(|items|, WriteItems(items, rest)) == Got(items, rest)
  {
    hide Varint, ReadVarint, ReadBytes;
    if items != [] {
      var tail := WriteItems(items[1..], rest);
      TripVarint(|items[0]|, items[0] + tail);
      TripBytes(items[0], tail);
      TripItems(items[1..], rest);
      assert [items[0]] + items[1..] == items;
    }
  }

  lemma Trip8(b: Byte, rest: Bytes)
    ensures Read8([b] + rest) == Got(b, rest)
  {
    assert ([b] + rest)[1..] == rest;
  }

  lemma TripCovenant(cov: Covenant, rest: Bytes)
    requires cov.Fits()
    ensures ReadCovenant(WriteCovenant(cov, rest)) == Got(cov, rest)
  {
    hide Covenant.Fits, KindOf, ItemsOf, CovenantOf, Varint, ReadVarint, Read8, ReadItems, WriteItems;
    CovenantItems(cov);
    var body := WriteItems(ItemsOf(cov), rest);
    Trip8(KindOf(cov), Varint(|ItemsOf(cov)|) + body);
    TripVarint(|ItemsOf(cov)|, body);
    TripItems(ItemsOf(cov), rest);
  }

  lemma TripAddress(a: Address, rest: Bytes)
    requires a.Fits()
    ensures ReadAddress(WriteAddress(a, rest)) == Got(a, rest)
  {
    hide Read8, ReadBytes;
    Trip8(a.version, [|a.hash|] + (a.hash + rest));
    Trip8(|a.hash|, a.hash + rest);
    TripBytes(a.hash, rest);
  }

  /** Every output comes back from its stored form. */
  lemma OutputRoundTrip(output: Output, rest: Bytes)
    requires output.Fits()
    ensures ReadOutput(WriteOutput(output, rest)) == Got(output, rest)
  {
    hide Covenant.Fits, Varint, ReadVarint, WriteAddress, ReadAddress, WriteCovenant, ReadCovenant;
    var tail := WriteCovenant(output.covenant, rest);
    TripVarint(output.value, WriteAddress(output.address, tail));
    TripAddress(output.address, tail);
    TripCovenant(output.covenant, rest);
  }

  /** What a stored coin is read back as. */
  function Reread(coin: CoinEntry): CoinEntry {
    var field := CoinField(coin.height, coin.coinbase);
    coin.(height := if field / 2 == MAX_HEIGHT then -1 else field / 2, coinbase := field % 2 == 1)
  }

  predicate Storable(coin: CoinEntry) {
    -1 <= coin.height < MAX_HEIGHT
  }

  lemma RereadSame(coin: CoinEntry)
    ensures Reread(coin) == coin <==> Storable(coin)
  {
  }

  predicate CoinFits(coin: CoinEntry) {
    coin.version < U64_SAFE && coin.output.Fits()
  }

  lemma TripCoin(coin: CoinEntry, rest: Bytes)
    requires CoinFits(coin)
    ensures ReadCoin(WriteCoin(coin, rest)) == Got(Reread(coin), rest)
  {
    hide Output.Fits, Varint, ReadVarint, U32, Read32, WriteOutput, ReadOutput, CoinField;
    var tail, field := WriteOutput(coin.output, rest), CoinField(coin.height, coin.coinbase);
    FieldIsWord(coin.height, coin.coinbase);
    TripVarint(coin.version, U32(field) + tail);
    Trip32(field, tail);
    OutputRoundTrip(coin.output, rest);
  }

  lemma FieldIsWord(height: int, coinbase: bool)
    ensures CoinField(height, coinbase) < U32_LIMIT
  {
  }

  function RereadAll(coins: seq<CoinEntry>): seq<CoinEntry> {
    seq(|coins|, i requires 0 <= i < |coins| => Reread(coins[i]))
  }

  lemma {:induction false} TripCoins(coins: seq<CoinEntry>, rest: Bytes)
    requires forall coin :: coin in coins ==> CoinFits(coin)
    ensures ReadCoins(|coins|, WriteCoins(coins, rest)) == Got(RereadAll(coins), rest)
  {
    hide WriteCoin, ReadCoin, Reread, CoinFits;
    if coins != [] {
      TripCoin(coins[0], WriteCoins(coins[1..], rest));
      TripCoins(coins[1..], rest);
      assert [Reread(coins[0])] + RereadAll(coins[1..]) == RereadAll(coins);
    }
  }

  /** The undo coins of a block come back exactly when every height is -1 or a
      number below the greatest height. */
  lemma UndoCoinsRoundTrip(coins: seq<CoinEntry>)
    requires |coins| < U32_LIMIT && forall coin :: coin in coins ==> CoinFits(coin)
    ensures ReadUndoCoins(WriteUndoCoins(coins)) == Got(coins, [])
            <==> forall coin :: coin in coins ==> Storable(coin)
  {
    hide U32, Read32, WriteCoins, ReadCoins, CoinFits, Reread, Storable;
    Trip32(|coins|, WriteCoins(coins, []));
    TripCoins(coins, []);
    var again := RereadAll(coins);
    forall i | 0 <= i < |coins| ensures again[i] == coins[i] <==> Storable(coins[i]) {
      RereadSame(coins[i]);
    }
    if again == coins {
      forall coin | coin in coins ensures Storable(coin) {
        var i :| 0 <= i < |coins| && coins[i] == coin;
        assert again[i] == coins[i];
      }
    }
  }

  // ---------------------------------------------------------------------
  // The program's loops
  // ---------------------------------------------------------------------

  lemma {:induction false} ItemsSplit(items: seq<Bytes>, i: nat, rest: Bytes)
    requires i <= |items|
    ensures WriteItems(items, rest) == WriteItems(items[..i], []) + WriteItems(items[i..], rest)
  {
    hide Varint;
    if i > 0 {
      ItemsSplit(items[1..], i - 1, rest);
      assert items[..i][1..] == items[1..][..i - 1] && items[i..] == items[1..][i - 1..];
    }
  }

  /** `Covenant.write` */
  method EncodeCovenant(cov: Covenant) returns (s: Bytes)
    ensures s == WriteCovenant(cov, [])
  {
    hide Varint, KindOf, ItemsOf;
    var items, body := ItemsOf(cov), [];
    for i := 0 to |items|
      invariant body == WriteItems(items[..i], [])
    {
      ItemsSplit(items[..i + 1], i, []);
      assert items[..i + 1][..i] == items[..i] && items[..i + 1][i..] == [items[i]];
      body := body + (Varint(|items[i]|) + items[i]);
    }
    assert items[..|items|] == items;
    s := [KindOf(cov) % 256] + (Varint(|items|) + body);
  }

  /** `Covenant.read` */
  method DecodeCovenant(data: Bytes) returns (r: Parsed<Covenant>)
    ensures r == ReadCovenant(data)
  {
    hide Read8, ReadVarint, ReadBytes, CovenantOf;
    var kind := Read8(data);
    if kind.Short? { return Short; }
    var count := ReadVarint(kind.rest);
    if count.Short? || count.value > MAX_ITEMS { return Short; }
    var s, items := count.rest, [];
    BehindNothing(ReadItems(count.value, s));
    for i := 0 to count.value
      invariant |items| == i
      invariant ReadItems(count.value, count.rest) == Behind(items, ReadItems(count.value - i, s))
    {
      var size := ReadVarint(s);
      if size.Short? { return Short; }
      var item := ReadBytes(size.value, size.rest);
      if item.Short? { return Short; }
      ReadOneItem(items, count.value - i, s, size.value, size.rest, item.value, item.rest);
      items := items + [item.value];
      s := item.rest;
    }
    NothingBehind(items, s);
    var cov := CovenantOf(kind.value, items);
    return if cov.None? then Short else Got(cov.value, s);
  }

  /** Values read before the others. */
  function Behind<T>(first: seq<T>, more: Parsed<seq<T>>): Parsed<seq<T>> {
    if more.Short? then Short else Got(first + more.value, more.rest)
  }

  lemma BehindNothing<T>(more: Parsed<seq<T>>)
    ensures Behind([], more) == more
  {
    if more.Got? {
      assert [] + more.value == more.value;
    }
  }

  lemma NothingBehind<T>(first: seq<T>, rest: Bytes)
    ensures Behind(first, Got([], rest)) == Got(first, rest)
  {
    assert first + [] == first;
  }

  lemma ReadOneItem(items: seq<Bytes>, n: nat, s: Bytes, size: nat, mid: Bytes, item: Bytes, rest: Bytes)
    requires n > 0 && ReadVarint(s) == Got(size, mid) && ReadBytes(size, mid) == Got(item, rest)
    ensures Behind(items, ReadItems(n, s)) == Behind(items + [item], ReadItems(n - 1, rest))
  {
    hide ReadVarint, ReadBytes;
    var more := ReadItems(n - 1, rest);
    if more.Got? {
      assert items + ([item] + more.value) == items + [item] + more.value;
    }
  }

  /** `CoinEntry.write` */
  method EncodeCoin(coin: CoinEntry) returns (s: Bytes)
    ensures s == WriteCoin(coin, [])
  {
    hide Varint, U32, CoinField, WriteAddress;
    var cov := EncodeCovenant(coin.output.covenant);
    s := Varint(coin.version) + (U32(CoinField(coin.height, coin.coinbase))
         + (Varint(coin.output.value) + WriteAddress(coin.output.address, cov)));
  }

  /** `CoinEntry.read` */
  method DecodeCoin(data: Bytes) returns (r: Parsed<CoinEntry>)
    ensures r == ReadCoin(data)
  {
    hide ReadCoinHead, ReadVarint, ReadAddress, ReadCovenant;
    var head := ReadCoinHead(data);
    if head.Short? { return Short; }
    var value := ReadVarint(head.rest);
    if value.Short? { return Short; }
    var address := ReadAddress(value.rest);
    if address.Short? { return Short; }
    var cov := DecodeCovenant(address.rest);
    if cov.Short? { return Short; }
    var (version, height, coinbase) := head.value;
    return Got(CoinEntry(version, height, coinbase, Output(value.value, address.value, cov.value)), cov.rest);
  }

  lemma {:induction false} ItemsBefore(items: seq<Bytes>, rest: Bytes)
    ensures WriteItems(items, rest) == WriteItems(items, []) + rest
  {
    hide Varint;
    ItemsSplit(items, |items|, rest);
    assert items[..|items|] == items && items[|items|..] == [];
  }

  lemma CoinBefore(coin: CoinEntry, rest: Bytes)
    ensures WriteCoin(coin, rest) == WriteCoin(coin, []) + rest
  {
    hide Varint, U32, CoinField, KindOf, ItemsOf;
    ItemsBefore(ItemsOf(coin.output.covenant), rest);
  }

  lemma {:induction false} CoinsAppend(coins: seq<CoinEntry>, coin: CoinEntry)
    ensures WriteCoins(coins + [coin], []) == WriteCoins(coins, []) + WriteCoin(coin, [])
  {
    hide WriteCoin;
    if coins == [] {
      assert ([] + [coin])[1..] == [];
    } else {
      CoinsAppend(coins[1..], coin);
      assert (coins + [coin])[1..] == coins[1..] + [coin];
      CoinBefore(coins[0], WriteCoins(coins[1..], []));
      CoinBefore(coins[0], WriteCoins(coins[1..] + [coin], []));
    }
  }

  /** `UndoCoins.write` */
  method EncodeUndoCoins(coins: seq<CoinEntry>) returns (s: Bytes)
    ensures s == WriteUndoCoins(coins)
  {
    hide WriteCoin, WriteCoins, U32;
    var body := [];
    assert WriteCoins([], []) == [] by { NoCoins(); }
    for i := 0 to |coins|
      invariant body == WriteCoins(coins[..i], [])
    {
      assert coins[..i + 1] == coins[..i] + [coins[i]];
      CoinsAppend(coins[..i], coins[i]);
      var coin := EncodeCoin(coins[i]);
      body := body + coin;
    }
    assert coins[..|coins|] == coins;
    s := U32(|coins|) + body;
  }

  lemma NoCoins()
    ensures WriteCoins([], []) == []
  {
  }

  /** `UndoCoins.read` */
  method DecodeUndoCoins(data: Bytes) returns (r: Parsed<seq<CoinEntry>>)
    ensures r == ReadUndoCoins(data)
  {
    hide ReadCoin, Read32;
    var count := Read32(data);
    if count.Short? { return Short; }
    var s, coins := count.rest, [];
    BehindNothing(ReadCoins(count.value, s));
    for i := 0 to count.value
      invariant |coins| == i
      invariant ReadCoins(count.value, count.rest) == Behind(coins, ReadCoins(count.value - i, s))
    {
      var coin := DecodeCoin(s);
      if coin.Short? { return Short; }
      ReadOneCoin(coins, count.value - i, s, coin.value, coin.rest);
      coins := coins + [coin.value];
      s := coin.rest;
    }
    NothingBehind(coins, s);
    return Got(coins, s);
  }

  lemma ReadOneCoin(coins: seq<CoinEntry>, n: nat, s: Bytes, coin: CoinEntry, rest: Bytes)
    requires n > 0 && ReadCoin(s) == Got(coin, rest)
    ensures Behind(coins, ReadCoins(n, s)) == Behind(coins + [coin], ReadCoins(n - 1, rest))
  {
    hide ReadCoin;
    var more := ReadCoins(n - 1, rest);
    if more.Got? {
      assert coins + ([coin] + more.value) == coins + [coin] + more.value;
    }
  }
}
