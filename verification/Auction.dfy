/**
 The single-owner guarantee.  The coin-to-output rules know nothing about name
 records and the output-to-record rules know nothing about coins; together, over
 whole runs, they keep one invariant from which the ownership, the price and the
 impossibility of the rules' assertion failures follow.
 */
module Auction {
  import opened Primitives
  import opened Names
  import opened Ledger

  /** Covenants that commit to an auction by name and height. */
  predicate Committing(cov: Covenant) {
    cov.Claim? || cov.Bid? || cov.Reveal? || cov.IsOwnership()
  }

  /** The auction (or claim lockup) of `r` has ended by height `h`. */
  predicate Over(net: NetworkNames, r: NameRec, h: nat) {
    h >= r.height + if r.claimed != 0 then net.lockupPeriod else net.AuctionPeriod()
  }

  predicate NameOk(net: NetworkNames, h: nat, r: NameRec) {
    && 1 <= r.height <= h
    && (r.registered ==> Over(net, r, h) && !r.owner.IsNull())
    && (r.revoked != 0 ==> r.registered && Over(net, r, r.revoked) && r.revoked <= h)
    && (r.transfer != 0 ==> r.registered && r.revoked == 0)
  }

  /** `output` at `op` is what a registered, unrevoked `r` is held by. */
  predicate Holds(r: NameRec, op: Outpoint, output: Output) {
    && r.registered && r.revoked == 0
    && op == r.owner
    && output.value == r.value
    && (output.covenant.Transfer? <==> r.transfer != 0)
  }

  predicate CoinOk(names: NameMap, op: Outpoint, output: Output) {
    var cov := output.covenant;
    Committing(cov) ==>
      && cov.nameHash in names
      && cov.height <= names[cov.nameHash].height
      && (cov.IsOwnership() && cov.height == names[cov.nameHash].height
          ==> Holds(names[cov.nameHash], op, output))
  }

  /** `outs` remembers every output ever created, spendable or not. */
  predicate OwnerOk(n: Hash, r: NameRec, coins: Coins, outs: map<Outpoint, Output>) {
    !r.owner.IsNull() ==>
      && r.owner in outs
      && var o := outs[r.owner];
      && Committing(o.covenant) && !o.covenant.Bid?
      && o.covenant.nameHash == n && o.covenant.height == r.height
      && (r.registered <==> o.covenant.IsOwnership())
      && (r.registered && r.revoked == 0 ==> Holds(r, r.owner, o))
      && (r.revoked == 0 ==> (r.owner in coins <==> !o.IsUnspendable()))
  }

  ghost predicate Inv(net: NetworkNames, h: nat, coins: Coins, names: NameMap,
                      outs: map<Outpoint, Output>) {
    && (forall op :: op in coins ==>
          op in outs && outs[op] == coins[op].output && !outs[op].IsUnspendable())
    && (forall op :: op in coins ==> CoinOk(names, op, coins[op].output))
    && (forall n :: n in names ==> NameOk(net, h, names[n]))
    && (forall n :: n in names ==> OwnerOk(n, names[n], coins, outs))
  }

  // ---------------------------------------------------------------------
  // One input/output pair
  // ---------------------------------------------------------------------

  /** Spend `p` (if any) and create `op`. */
  function Move(coins: Coins, p: Option<Outpoint>, op: Outpoint, entry: CoinEntry): Coins {
    var rest := if p.Some? then coins - {p.value} else coins;
    if entry.output.IsUnspendable() then rest else rest[op := entry]
  }

  /** A coin no name state depends on. */
  predicate Free(cov: Covenant) {
    cov.NoCovenant? || cov.Open? || cov.Redeem? || cov.UnknownCovenant?
  }

  /** What has to be checked when one name changes while a coin moves. */
  ghost predicate NewNameOk(net: NetworkNames, h: nat, coins: Coins, names: NameMap,
                            outs: map<Outpoint, Output>, n: Hash, r: NameRec) {
    && NameOk(net, h, r)
    && (n in names ==> names[n].height <= r.height)
    && OwnerOk(n, r, coins, outs)
    && (forall q :: q in coins && coins[q].output.covenant.IsOwnership()
                    && coins[q].output.covenant.nameHash == n
                    && coins[q].output.covenant.height == r.height
          ==> Holds(r, q, coins[q].output))
  }

  lemma MoveNamed(net: NetworkNames, h: nat, coins: Coins, names: NameMap,
                  outs: map<Outpoint, Output>, p: Option<Outpoint>, op: Outpoint, entry: CoinEntry,
                  n: Hash, r: NameRec)
    requires Inv(net, h, coins, names, outs)
    requires op !in outs
    requires p.Some? ==> p.value in coins
    requires p.Some? && !Free(coins[p.value].output.covenant) ==>
               coins[p.value].output.covenant.nameHash == n
    requires Committing(entry.output.covenant) ==>
               entry.output.covenant.nameHash == n && entry.output.covenant.height <= r.height
    requires NewNameOk(net, h, Move(coins, p, op, entry), names, outs[op := entry.output], n, r)
    ensures Inv(net, h, Move(coins, p, op, entry), names[n := r], outs[op := entry.output])
  {
    var coins', names', outs' := Move(coins, p, op, entry), names[n := r], outs[op := entry.output];
    forall q | q in coins'
      ensures q in outs' && outs'[q] == coins'[q].output && !outs'[q].IsUnspendable()
      ensures CoinOk(names', q, coins'[q].output)
    {
      if q == op {
      } else {
        assert CoinOk(names, q, coins[q].output);
      }
    }
    forall m | m in names'
      ensures NameOk(net, h, names'[m])
      ensures OwnerOk(m, names'[m], coins', outs')
    {
      if m != n {
        assert OwnerOk(m, names[m], coins, outs);
      }
    }
  }

  /** The same when no name changes. */
  lemma MovePlain(net: NetworkNames, h: nat, coins: Coins, names: NameMap,
                  outs: map<Outpoint, Output>, p: Option<Outpoint>, op: Outpoint, entry: CoinEntry)
    requires Inv(net, h, coins, names, outs)
    requires op !in outs
    requires p.Some? ==> p.value in coins && Free(coins[p.value].output.covenant)
    requires !Committing(entry.output.covenant)
    ensures Inv(net, h, Move(coins, p, op, entry), names, outs[op := entry.output])
  {
    var coins', outs' := Move(coins, p, op, entry), outs[op := entry.output];
    forall m | m in names
      ensures OwnerOk(m, names[m], coins', outs')
    {
      assert OwnerOk(m, names[m], coins, outs);
    }
  }

  // ---------------------------------------------------------------------
  // Expiration
  // ---------------------------------------------------------------------

  /** A reset always moves the auction to a strictly greater height, so nothing
      in the coin set commits to the new one. */
  lemma PrepareOk(net: NetworkNames, h: nat, r: NameRec)
    requires NameOk(net, h, r)
    ensures NameOk(net, h, r.MaybeExpire(h, net))
    ensures r.IsExpired(h, net) ==> r.height < h
    ensures r.height <= r.MaybeExpire(h, net).height
  {
  }

  lemma PrepareKeepsInv(c: Context, coins: Coins, names: NameMap, outs: map<Outpoint, Output>,
                        cov: Covenant)
    requires Inv(c.net.names, c.Height(), coins, names, outs) && 1 <= c.Height()
    requires cov.IsName()
    ensures cov.nameHash !in names && !cov.Claim? && !cov.Open? <==>
              !Prepare(c, Find(names, cov.nameHash), cov).Accept?
    ensures !Prepare(c, Find(names, cov.nameHash), cov).AssertFail?
    ensures Prepare(c, Find(names, cov.nameHash), cov).Accept? ==>
              var r := Prepare(c, Find(names, cov.nameHash), cov).value;
              Inv(c.net.names, c.Height(), coins, names[cov.nameHash := r], outs)
  {
    var n, h := cov.nameHash, c.Height();
    if Prepare(c, Find(names, n), cov).Accept? {
      var r := Prepare(c, Find(names, n), cov).value;
      if n in names {
        PrepareOk(c.net.names, h, names[n]);
        assert OwnerOk(n, names[n], coins, outs);
      }
      forall q | q in coins
        ensures CoinOk(names[n := r], q, coins[q].output)
      {
        assert CoinOk(names, q, coins[q].output);
      }
    }
  }

  // ---------------------------------------------------------------------
  // The rules, one covenant at a time.  `names` already holds the prepared
  // record; `coin` is spent from `p` into output `i` of `tx`.
  // ---------------------------------------------------------------------

  /** A linked output of a transaction about to be applied. */
  ghost predicate Step(c: Context, coins: Coins, names: NameMap, outs: map<Outpoint, Output>,
                       p: Outpoint, op: Outpoint, entry: CoinEntry) {
    && 1 <= c.Height()
    && Inv(c.net.names, c.Height(), coins, names, outs)
    && p in coins
    && op !in outs && !op.IsNull()
    && LinkRule(c.net, coins[p].output, Some(entry.output)).Accept?
    && entry.output.covenant.IsName()
    && entry.output.covenant.nameHash in names
  }

  lemma RevealKeepsInv(c: Context, coins: Coins, names: NameMap, outs: map<Outpoint, Output>,
                       p: Outpoint, op: Outpoint, entry: CoinEntry)
    requires Step(c, coins, names, outs, p, op, entry)
    requires entry.output.covenant.Reveal?
    requires RevealRule(c, names[entry.output.covenant.nameHash], entry.output, op).Accept?
    ensures var n := entry.output.covenant.nameHash;
            Inv(c.net.names, c.Height(), Move(coins, Some(p), op, entry),
                names[n := RevealRule(c, names[n], entry.output, op).value],
                outs[op := entry.output])
  {
    var n := entry.output.covenant.nameHash;
    var r := RevealRule(c, names[n], entry.output, op).value;
    assert OwnerOk(n, names[n], coins, outs);
    MoveNamed(c.net.names, c.Height(), coins, names, outs, Some(p), op, entry, n, r);
  }

  lemma RedeemKeepsInv(c: Context, coins: Coins, names: NameMap, outs: map<Outpoint, Output>,
                       p: Outpoint, op: Outpoint, entry: CoinEntry)
    requires Step(c, coins, names, outs, p, op, entry)
    requires entry.output.covenant.Redeem?
    requires RedeemRule(c, names[entry.output.covenant.nameHash], entry.output.covenant, p).Accept?
    ensures Inv(c.net.names, c.Height(), Move(coins, Some(p), op, entry),
                names[entry.output.covenant.nameHash := names[entry.output.covenant.nameHash]],
                outs[op := entry.output])
  {
    var n := entry.output.covenant.nameHash;
    assert OwnerOk(n, names[n], coins, outs);
    MoveNamed(c.net.names, c.Height(), coins, names, outs, Some(p), op, entry, n, names[n]);
  }

  lemma RegisterKeepsInv(c: Context, coins: Coins, names: NameMap, outs: map<Outpoint, Output>,
                         p: Outpoint, op: Outpoint, entry: CoinEntry)
    requires Step(c, coins, names, outs, p, op, entry)
    requires entry.output.covenant.Register?
    requires RegisterRule(c, names[entry.output.covenant.nameHash], entry.output, op, p).Accept?
    ensures var n := entry.output.covenant.nameHash;
            Inv(c.net.names, c.Height(), Move(coins, Some(p), op, entry),
                names[n := RegisterRule(c, names[n], entry.output, op, p).value],
                outs[op := entry.output])
  {
    var n := entry.output.covenant.nameHash;
    var r := RegisterRule(c, names[n], entry.output, op, p).value;
    assert OwnerOk(n, names[n], coins, outs);
    assert CoinOk(names, p, coins[p].output);
    forall q | q in coins && coins[q].output.covenant.IsOwnership()
      ensures coins[q].output.covenant.nameHash != n || coins[q].output.covenant.height != r.height
    {
      assert CoinOk(names, q, coins[q].output);
    }
    MoveNamed(c.net.names, c.Height(), coins, names, outs, Some(p), op, entry, n, r);
  }

  /** UPDATE, RENEW, TRANSFER, FINALIZE: the coin they spend is the owner's, so
      a TRANSFER never finds a transfer pending and a FINALIZE always does. */
  lemma OwnedCoin(c: Context, coins: Coins, names: NameMap, outs: map<Outpoint, Output>,
                  p: Outpoint, op: Outpoint, entry: CoinEntry)
    requires Step(c, coins, names, outs, p, op, entry)
    requires var cov := entry.output.covenant;
             && (cov.Update? || cov.Renew? || cov.Transfer? || cov.Finalize? || cov.Revoke?)
             && cov.height == names[cov.nameHash].height
    ensures var cov := entry.output.covenant;
            && Holds(names[cov.nameHash], p, coins[p].output)
            && entry.output.value == names[cov.nameHash].value
            && (cov.Transfer? ==> names[cov.nameHash].transfer == 0)
            && (cov.Finalize? ==> names[cov.nameHash].transfer != 0)
  {
    assert CoinOk(names, p, coins[p].output);
  }

  function OwnerRule(c: Context, r: NameRec, cov: Covenant, op: Outpoint): Outcome<NameRec>
    requires cov.Update? || cov.Renew? || cov.Transfer? || cov.Finalize?
  {
    match cov
    case Update(_, _, _) => UpdateRule(c, r, cov, op)
    case Renew(_, _, _) => RenewRule(c, r, cov, op)
    case Transfer(_, _, _, _) => TransferRule(c, r, cov, op)
    case Finalize(_, _, _, _, _, _, _) => FinalizeRule(c, r, cov, op)
  }

  lemma OwnerKeepsInv(c: Context, coins: Coins, names: NameMap, outs: map<Outpoint, Output>,
                      p: Outpoint, op: Outpoint, entry: CoinEntry)
    requires Step(c, coins, names, outs, p, op, entry)
    requires var cov := entry.output.covenant;
             cov.Update? || cov.Renew? || cov.Transfer? || cov.Finalize?
    ensures var cov := entry.output.covenant;
            var result := OwnerRule(c, names[cov.nameHash], cov, op);
            && !result.AssertFail? && !result.Throw?
            && (result.Accept? ==>
                  Inv(c.net.names, c.Height(), Move(coins, Some(p), op, entry),
                      names[cov.nameHash := result.value], outs[op := entry.output]))
  {
    var cov := entry.output.covenant;
    var n := cov.nameHash;
    if cov.height == names[n].height {
      OwnedCoin(c, coins, names, outs, p, op, entry);
      if OwnerRule(c, names[n], cov, op).Accept? {
        var r := OwnerRule(c, names[n], cov, op).value;
        assert NameOk(c.net.names, c.Height(), r);
        forall q | q in coins && q != p && coins[q].output.covenant.IsOwnership()
          ensures coins[q].output.covenant.nameHash != n || coins[q].output.covenant.height != r.height
        {
          assert CoinOk(names, q, coins[q].output);
        }
        MoveNamed(c.net.names, c.Height(), coins, names, outs, Some(p), op, entry, n, r);
      }
    }
  }

  lemma RevokeKeepsInv(c: Context, coins: Coins, names: NameMap, outs: map<Outpoint, Output>,
                       p: Outpoint, op: Outpoint, entry: CoinEntry)
    requires Step(c, coins, names, outs, p, op, entry)
    requires entry.output.covenant.Revoke?
    ensures var cov := entry.output.covenant;
            var result := RevokeRule(c, names[cov.nameHash], cov);
            && !result.AssertFail? && !result.Throw?
            && (result.Accept? ==>
                  Inv(c.net.names, c.Height(), Move(coins, Some(p), op, entry),
                      names[cov.nameHash := result.value], outs[op := entry.output]))
  {
    var cov := entry.output.covenant;
    var n := cov.nameHash;
    if cov.height == names[n].height {
      OwnedCoin(c, coins, names, outs, p, op, entry);
      if RevokeRule(c, names[n], cov).Accept? {
        var r := RevokeRule(c, names[n], cov).value;
        assert OwnerOk(n, names[n], coins, outs);
        forall q | q in coins && q != p && coins[q].output.covenant.IsOwnership()
          ensures coins[q].output.covenant.nameHash != n || coins[q].output.covenant.height != r.height
        {
          assert CoinOk(names, q, coins[q].output);
        }
        MoveNamed(c.net.names, c.Height(), coins, names, outs, Some(p), op, entry, n, r);
      }
    }
  }

  /** A CLAIM restarts the name at the current height, leaving every earlier
      claim output behind. */
  lemma ClaimKeepsInv(c: Context, coins: Coins, names: NameMap, outs: map<Outpoint, Output>,
                      op: Outpoint, entry: CoinEntry)
    requires 1 <= c.Height() && Inv(c.net.names, c.Height(), coins, names, outs)
    requires op !in outs && !op.IsNull()
    requires entry.output.covenant.Claim? && entry.output.covenant.height == c.Height()
    requires entry.output.covenant.nameHash in names
    ensures var n := entry.output.covenant.nameHash;
            var result := ClaimRule(c, names[n], entry.output, op);
            && !result.AssertFail? && !result.Throw?
            && (result.Accept? ==>
                  Inv(c.net.names, c.Height(), Move(coins, None, op, entry),
                      names[n := result.value], outs[op := entry.output]))
  {
    var n := entry.output.covenant.nameHash;
    if ClaimRule(c, names[n], entry.output, op).Accept? {
      var r := ClaimRule(c, names[n], entry.output, op).value;
      assert !names[n].registered && names[n].revoked == 0;
      assert NameOk(c.net.names, c.Height(), r);
      forall q | q in coins && coins[q].output.covenant.IsOwnership()
        ensures coins[q].output.covenant.nameHash != n || coins[q].output.covenant.height != r.height
      {
        assert CoinOk(names, q, coins[q].output);
      }
      MoveNamed(c.net.names, c.Height(), coins, names, outs, None, op, entry, n, r);
    }
  }

  lemma OpenBidKeepsInv(c: Context, coins: Coins, names: NameMap, outs: map<Outpoint, Output>,
                        p: Option<Outpoint>, op: Outpoint, entry: CoinEntry)
    requires 1 <= c.Height() && Inv(c.net.names, c.Height(), coins, names, outs)
    requires op !in outs
    requires p.Some? ==> p.value in coins && Free(coins[p.value].output.covenant)
    requires var cov := entry.output.covenant;
             && (cov.Open? || cov.Bid?)
             && cov.nameHash in names
             && (cov.Bid? ==> cov.height == names[cov.nameHash].height)
    ensures var n := entry.output.covenant.nameHash;
            Inv(c.net.names, c.Height(), Move(coins, p, op, entry), names[n := names[n]],
                outs[op := entry.output])
  {
    var n := entry.output.covenant.nameHash;
    assert OwnerOk(n, names[n], coins, outs);
    forall q | q in coins
      ensures CoinOk(names, q, coins[q].output)
    {
    }
    MoveNamed(c.net.names, c.Height(), coins, names, outs, p, op, entry, n, names[n]);
  }

  // ---------------------------------------------------------------------
  // One transaction: input k and output k move together
  // ---------------------------------------------------------------------

  function SpentAt(tx: TX, k: nat): Option<Outpoint> {
    if !tx.IsCoinbase() && k < |tx.inputs| then Some(tx.inputs[k].prevout) else None
  }

  function EntryAt(tx: TX, height: nat, k: nat): CoinEntry
    requires k < |tx.outputs|
  {
    CoinEntry(tx.version, height, tx.IsCoinbase(), tx.outputs[k])
  }

  function SpentUpTo(tx: TX, k: nat): set<Outpoint> {
    set i | 0 <= i < k && i < |tx.inputs| && !tx.IsCoinbase() :: tx.inputs[i].prevout
  }

  function CreatedUpTo(tx: TX, height: nat, k: nat): Coins {
    map i: nat | 0 <= i < k && i < |tx.outputs| && !tx.outputs[i].IsUnspendable()
      :: tx.OutpointAt(i) := EntryAt(tx, height, i)
  }

  function OutsUpTo(tx: TX, k: nat): map<Outpoint, Output> {
    map i: nat | 0 <= i < k && i < |tx.outputs| :: tx.OutpointAt(i) := tx.outputs[i]
  }

  function PairCoins(coins: Coins, tx: TX, height: nat, k: nat): Coins {
    coins - SpentUpTo(tx, k) + CreatedUpTo(tx, height, k)
  }

  ghost predicate FreshFor(outs: map<Outpoint, Output>, coins: Coins, tx: TX) {
    && (forall op :: op in outs ==> op.hash != tx.hash)
    && (forall op :: op in coins ==> op.hash != tx.hash)
  }

  lemma MoveMaps(coins: Coins, spent: set<Outpoint>, created: Coins, p: Option<Outpoint>,
                 op: Outpoint, entry: CoinEntry)
    requires op !in coins && op !in created
    requires p.Some? ==> p.value !in created && p.value in coins
    ensures coins - (spent + if p.Some? then {p.value} else {})
            + (if entry.output.IsUnspendable() then created else created[op := entry])
            == Move(coins - spent + created, p, op, entry)
  {
  }

  lemma CreatedStep(tx: TX, height: nat, k: nat)
    requires k < |tx.outputs|
    ensures tx.OutpointAt(k) !in CreatedUpTo(tx, height, k)
    ensures CreatedUpTo(tx, height, k + 1)
            == if tx.outputs[k].IsUnspendable() then CreatedUpTo(tx, height, k)
               else CreatedUpTo(tx, height, k)[tx.OutpointAt(k) := EntryAt(tx, height, k)]
  {
  }

  lemma PairMove(coins: Coins, tx: TX, height: nat, k: nat)
    requires k < |tx.outputs|
    requires forall op :: op in coins ==> op.hash != tx.hash
    requires forall i :: 0 <= i < |tx.inputs| && !tx.IsCoinbase() ==> tx.inputs[i].prevout in coins
    ensures PairCoins(coins, tx, height, k + 1)
            == Move(PairCoins(coins, tx, height, k), SpentAt(tx, k), tx.OutpointAt(k),
                    EntryAt(tx, height, k))
  {
    var p, op, entry := SpentAt(tx, k), tx.OutpointAt(k), EntryAt(tx, height, k);
    assert SpentUpTo(tx, k + 1) == SpentUpTo(tx, k) + if p.Some? then {p.value} else {};
    CreatedStep(tx, height, k);
    assert p.Some? ==> p.value !in CreatedUpTo(tx, height, k);
    MoveMaps(coins, SpentUpTo(tx, k), CreatedUpTo(tx, height, k), p, op, entry);
  }

  lemma PairDrop(coins: Coins, tx: TX, height: nat, k: nat)
    requires |tx.outputs| <= k < |tx.inputs| && !tx.IsCoinbase()
    requires forall op :: op in coins ==> op.hash != tx.hash
    requires tx.inputs[k].prevout in coins
    ensures PairCoins(coins, tx, height, k + 1)
            == PairCoins(coins, tx, height, k) - {tx.inputs[k].prevout}
  {
    assert SpentUpTo(tx, k + 1) == SpentUpTo(tx, k) + {tx.inputs[k].prevout};
    assert CreatedUpTo(tx, height, k + 1) == CreatedUpTo(tx, height, k);
    assert tx.inputs[k].prevout !in CreatedUpTo(tx, height, k);
  }

  lemma OutsMove(outs: map<Outpoint, Output>, tx: TX, k: nat)
    requires k < |tx.outputs|
    ensures outs + OutsUpTo(tx, k + 1) == (outs + OutsUpTo(tx, k))[tx.OutpointAt(k) := tx.outputs[k]]
  {
  }

  lemma FreeDropKeepsInv(net: NetworkNames, h: nat, coins: Coins, names: NameMap,
                         outs: map<Outpoint, Output>, p: Outpoint)
    requires Inv(net, h, coins, names, outs)
    requires p in coins && Free(coins[p].output.covenant)
    ensures Inv(net, h, coins - {p}, names, outs)
  {
    forall m | m in names
      ensures OwnerOk(m, names[m], coins - {p}, outs)
    {
      assert OwnerOk(m, names[m], coins, outs);
    }
  }

  /** A name output after its record has been prepared. */
  lemma PreparedKeepsInv(c: Context, coins: Coins, names: NameMap, outs: map<Outpoint, Output>,
                         tx: TX, i: nat)
    requires i < |tx.outputs| && tx.outputs[i].covenant.IsName()
    requires 1 <= c.Height() && Inv(c.net.names, c.Height(), coins, names, outs)
    requires tx.outputs[i].covenant.nameHash in names
    requires names[tx.outputs[i].covenant.nameHash].MaybeExpire(c.Height(), c.net.names)
             == names[tx.outputs[i].covenant.nameHash]
    requires tx.OutpointAt(i) !in outs && !tx.OutpointAt(i).IsNull()
    requires tx.IsCoinbase() ==>
               tx.outputs[i].covenant.Claim? && tx.outputs[i].covenant.height == c.Height()
    requires !tx.IsCoinbase() ==>
               !tx.outputs[i].covenant.Claim? && (tx.outputs[i].covenant.IsLinked() ==> i < |tx.inputs|)
    requires SpentAt(tx, i).Some? ==>
               && tx.inputs[i].prevout in coins
               && LinkRule(c.net, coins[tx.inputs[i].prevout].output, Some(tx.outputs[i])).Accept?
    ensures var n := tx.outputs[i].covenant.nameHash;
            var result := OutputRule(c, names[n], tx, i);
            && !result.AssertFail? && !result.Throw?
            && (result.Accept? ==>
                  Inv(c.net.names, c.Height(),
                      Move(coins, SpentAt(tx, i), tx.OutpointAt(i), EntryAt(tx, c.Height(), i)),
                      names[n := result.value], outs[tx.OutpointAt(i) := tx.outputs[i]]))
  {
    var cov, op, entry := tx.outputs[i].covenant, tx.OutpointAt(i), EntryAt(tx, c.Height(), i);
    if cov.Claim? {
      ClaimKeepsInv(c, coins, names, outs, op, entry);
    } else if cov.Open? || cov.Bid? {
      if OutputRule(c, names[cov.nameHash], tx, i).Accept? {
        OpenBidKeepsInv(c, coins, names, outs, SpentAt(tx, i), op, entry);
      }
    } else {
      var p := tx.inputs[i].prevout;
      assert Step(c, coins, names, outs, p, op, entry);
      var result := OutputRule(c, names[cov.nameHash], tx, i);
      if cov.Reveal? {
        if result.Accept? { RevealKeepsInv(c, coins, names, outs, p, op, entry); }
      } else if cov.Redeem? {
        if result.Accept? { RedeemKeepsInv(c, coins, names, outs, p, op, entry); }
      } else if cov.Register? {
        if result.Accept? { RegisterKeepsInv(c, coins, names, outs, p, op, entry); }
      } else if cov.Revoke? {
        RevokeKeepsInv(c, coins, names, outs, p, op, entry);
      } else {
        OwnerKeepsInv(c, coins, names, outs, p, op, entry);
      }
    }
  }

  lemma MaybeExpireIdempotent(r: NameRec, h: nat, net: NetworkNames)
    requires NameOk(net, h, r) || r == NULL_REC.(name := r.name).Reset(h)
    ensures r.MaybeExpire(h, net).MaybeExpire(h, net) == r.MaybeExpire(h, net)
  {
  }

  /** A name output, its record still to be prepared. */
  lemma NamedKeepsInv(c: Context, coins: Coins, names: NameMap, outs: map<Outpoint, Output>,
                      tx: TX, i: nat, prepared: NameRec)
    requires i < |tx.outputs| && tx.outputs[i].covenant.IsName()
    requires 1 <= c.Height() && Inv(c.net.names, c.Height(), coins, names, outs)
    requires tx.OutpointAt(i) !in outs && !tx.OutpointAt(i).IsNull()
    requires tx.IsCoinbase() ==>
               tx.outputs[i].covenant.Claim? && tx.outputs[i].covenant.height == c.Height()
    requires !tx.IsCoinbase() ==>
               !tx.outputs[i].covenant.Claim? && (tx.outputs[i].covenant.IsLinked() ==> i < |tx.inputs|)
    requires SpentAt(tx, i).Some? ==>
               && tx.inputs[i].prevout in coins
               && LinkRule(c.net, coins[tx.inputs[i].prevout].output, Some(tx.outputs[i])).Accept?
    requires Prepare(c, Find(names, tx.outputs[i].covenant.nameHash), tx.outputs[i].covenant)
             == Accept(prepared)
    ensures var n := tx.outputs[i].covenant.nameHash;
            var result := OutputRule(c, Find(names, n), tx, i);
            && !result.AssertFail? && !result.Throw?
            && (result.Accept? ==>
                  Inv(c.net.names, c.Height(),
                      Move(coins, SpentAt(tx, i), tx.OutpointAt(i), EntryAt(tx, c.Height(), i)),
                      names[n := result.value], outs[tx.OutpointAt(i) := tx.outputs[i]]))
  {
    var cov := tx.outputs[i].covenant;
    var n := cov.nameHash;
    PrepareKeepsInv(c, coins, names, outs, cov);
    var names' := names[n := prepared];
    if n in names {
      MaybeExpireIdempotent(names[n], c.Height(), c.net.names);
    } else {
      MaybeExpireIdempotent(NULL_REC.(name := cov.name).Reset(c.Height()), c.Height(), c.net.names);
    }
    assert !prepared.IsNull() by { assert NameOk(c.net.names, c.Height(), names'[n]); }
    PreparedKeepsInv(c, coins, names', outs, tx, i);
    RepreparedRule(c, Find(names, n), prepared, tx, i);
    var result := OutputRule(c, prepared, tx, i);
    if result.Accept? {
      assert names'[n := result.value] == names[n := result.value];
    }
  }

  lemma RepreparedRule(c: Context, r0: NameRec, r: NameRec, tx: TX, i: nat)
    requires i < |tx.outputs| && tx.outputs[i].covenant.IsName()
    requires Prepare(c, r0, tx.outputs[i].covenant) == Accept(r)
    requires !r.IsNull() && r.MaybeExpire(c.Height(), c.net.names) == r
    ensures OutputRule(c, r0, tx, i) == OutputRule(c, r, tx, i)
  {
  }

  lemma OutputKeepsInv(c: Context, coins: Coins, names: NameMap, outs: map<Outpoint, Output>,
                       tx: TX, i: nat)
    requires i < |tx.outputs|
    requires Inv(c.net.names, c.Height(), coins, names, outs)
    requires tx.outputs[i].covenant.IsName() ==> 1 <= c.Height()
    requires tx.OutpointAt(i) !in outs && !tx.OutpointAt(i).IsNull()
    requires tx.IsCoinbase() ==>
               || tx.outputs[i].covenant.NoCovenant?
               || (tx.outputs[i].covenant.Claim? && tx.outputs[i].covenant.height == c.Height())
    requires !tx.IsCoinbase() ==>
               !tx.outputs[i].covenant.Claim? && (tx.outputs[i].covenant.IsLinked() ==> i < |tx.inputs|)
    requires SpentAt(tx, i).Some? ==>
               && tx.inputs[i].prevout in coins
               && LinkRule(c.net, coins[tx.inputs[i].prevout].output, Some(tx.outputs[i])).Accept?
    ensures var result := OutputStep(c, names, tx, i);
            && !result.AssertFail?
            && (result.Throw? ==>
                  tx.outputs[i].covenant.Bid? && tx.outputs[i].covenant.nameHash !in names)
            && (result.Accept? ==>
                  && names.Keys <= result.value.Keys
                  && Inv(c.net.names, c.Height(),
                         Move(coins, SpentAt(tx, i), tx.OutpointAt(i), EntryAt(tx, c.Height(), i)),
                         result.value, outs[tx.OutpointAt(i) := tx.outputs[i]]))
  {
    var cov, op, entry := tx.outputs[i].covenant, tx.OutpointAt(i), EntryAt(tx, c.Height(), i);
    if !cov.IsName() {
      MovePlain(c.net.names, c.Height(), coins, names, outs, SpentAt(tx, i), op, entry);
    } else {
      var n := cov.nameHash;
      PrepareKeepsInv(c, coins, names, outs, cov);
      var prepared := Prepare(c, Find(names, n), cov);
      if prepared.Accept? {
        NamedKeepsInv(c, coins, names, outs, tx, i, prepared.value);
      } else {
        assert n !in names;
      }
    }
  }

  ghost predicate TxReady(c: Context, coins: Coins, outs: map<Outpoint, Output>, tx: TX) {
    && FreshFor(outs, coins, tx)
    && (tx.IsCoinbase() ==>
          && SaneCoinbase(c.net, tx)
          && forall i :: 0 <= i < |tx.outputs| && tx.outputs[i].covenant.Claim? ==>
               tx.outputs[i].covenant.height == c.Height())
    && (!tx.IsCoinbase() ==>
          && SaneTX(c.net, tx)
          && (forall i :: 0 <= i < |tx.inputs| ==>
               && tx.inputs[i].prevout in coins
               && LinkRule(c.net, coins[tx.inputs[i].prevout].output, Linked(tx, i)).Accept?))
    && (forall i :: 0 <= i < |tx.outputs| && tx.outputs[i].covenant.IsName() ==> 1 <= c.Height())
  }

  predicate BidsUnopened(names: NameMap, tx: TX) {
    exists i :: 0 <= i < |tx.outputs| && tx.outputs[i].covenant.Bid?
                && tx.outputs[i].covenant.nameHash !in names
  }

  /** The coin input `k` spends is still there when its turn comes. */
  lemma StillThere(coins: Coins, tx: TX, height: nat, k: nat)
    requires k < |tx.inputs| && !tx.IsCoinbase()
    requires forall op :: op in coins ==> op.hash != tx.hash
    requires forall i :: 0 <= i < |tx.inputs| ==> tx.inputs[i].prevout in coins
    requires forall i, j :: 0 <= i < j < |tx.inputs| ==> tx.inputs[i].prevout != tx.inputs[j].prevout
    ensures tx.inputs[k].prevout in PairCoins(coins, tx, height, k)
    ensures PairCoins(coins, tx, height, k)[tx.inputs[k].prevout] == coins[tx.inputs[k].prevout]
  {
  }

  /** What output `i` of a ready transaction may rely on at its turn. */
  lemma TxReadyAt(c: Context, coins: Coins, outs: map<Outpoint, Output>, tx: TX, i: nat)
    requires i < |tx.outputs| && TxReady(c, coins, outs, tx)
    ensures !tx.OutpointAt(i).IsNull() && tx.OutpointAt(i) !in outs + OutsUpTo(tx, i)
    ensures tx.outputs[i].covenant.IsName() ==> 1 <= c.Height()
    ensures tx.outputs[i].covenant.IsLinked() ==> !tx.IsCoinbase() && i < |tx.inputs|
    ensures tx.IsCoinbase() ==>
              || tx.outputs[i].covenant.NoCovenant?
              || (tx.outputs[i].covenant.Claim? && tx.outputs[i].covenant.height == c.Height())
    ensures !tx.IsCoinbase() ==> !tx.outputs[i].covenant.Claim?
    ensures forall op :: op in coins ==> op.hash != tx.hash
    ensures forall j :: 0 <= j < |tx.inputs| && !tx.IsCoinbase() ==>
              tx.inputs[j].prevout in coins && !tx.inputs[j].prevout.IsNull()
    ensures SpentAt(tx, i).Some? ==>
              && tx.inputs[i].prevout in PairCoins(coins, tx, c.Height(), i)
              && LinkRule(c.net, PairCoins(coins, tx, c.Height(), i)[tx.inputs[i].prevout].output,
                          Some(tx.outputs[i])).Accept?
  {
  }

  lemma {:induction false} OutputsKeepInv(c: Context, coins: Coins, names: NameMap,
                                          outs: map<Outpoint, Output>, tx: TX, k: nat)
    requires k <= |tx.outputs|
    requires Inv(c.net.names, c.Height(), coins, names, outs)
    requires TxReady(c, coins, outs, tx)
    ensures var result := NamesAfter(c, names, tx, k);
            && !result.AssertFail?
            && (result.Throw? ==> BidsUnopened(names, tx))
            && (result.Accept? ==>
                  && names.Keys <= result.value.Keys
                  && Inv(c.net.names, c.Height(), PairCoins(coins, tx, c.Height(), k),
                         result.value, outs + OutsUpTo(tx, k)))
  {
    hide Inv, PairCoins, TxReady, LinkRule, OutputStep, OutsUpTo;
    if k == 0 {
      assert PairCoins(coins, tx, c.Height(), 0) == coins by { PairNone(coins, tx, c.Height()); }
      assert outs + OutsUpTo(tx, 0) == outs by { OutsNone(tx); }
    } else {
      var i := k - 1;
      OutputsKeepInv(c, coins, names, outs, tx, i);
      if NamesAfter(c, names, tx, i).Accept? {
        var mid := NamesAfter(c, names, tx, i).value;
        var now := PairCoins(coins, tx, c.Height(), i);
        TxReadyAt(c, coins, outs, tx, i);
        OutputKeepsInv(c, now, mid, outs + OutsUpTo(tx, i), tx, i);
        PairMove(coins, tx, c.Height(), i);
        OutsMove(outs, tx, i);
      }
    }
  }

  lemma PairNone(coins: Coins, tx: TX, height: nat)
    ensures PairCoins(coins, tx, height, 0) == coins
  {
  }

  lemma OutsNone(tx: TX)
    ensures OutsUpTo(tx, 0) == map[]
  {
  }

  lemma UnlinkedIsFree(net: Network, coin: Output)
    requires LinkRule(net, coin, None).Accept?
    ensures Free(coin.covenant)
  {
  }

  lemma {:induction false} ExtraInputsKeepInv(c: Context, coins: Coins, names: NameMap,
                                              names': NameMap, outs: map<Outpoint, Output>,
                                              tx: TX, k: nat)
    requires !tx.IsCoinbase() && |tx.outputs| <= k <= |tx.inputs|
    requires TxReady(c, coins, outs, tx)
    requires Inv(c.net.names, c.Height(), PairCoins(coins, tx, c.Height(), |tx.outputs|), names',
                 outs + OutsUpTo(tx, |tx.outputs|))
    ensures Inv(c.net.names, c.Height(), PairCoins(coins, tx, c.Height(), k), names',
                outs + OutsUpTo(tx, |tx.outputs|))
  {
    hide Inv, LinkRule, PairCoins;
    if k > |tx.outputs| {
      var i := k - 1;
      ExtraInputsKeepInv(c, coins, names, names', outs, tx, i);
      StillThere(coins, tx, c.Height(), i);
      PairDrop(coins, tx, c.Height(), i);
      UnlinkedIsFree(c.net, coins[tx.inputs[i].prevout].output);
      FreeDropKeepsInv(c.net.names, c.Height(), PairCoins(coins, tx, c.Height(), i), names',
                       outs + OutsUpTo(tx, |tx.outputs|), tx.inputs[i].prevout);
    }
  }

  lemma {:induction false} LinksHold(net: Network, coins: Coins, tx: TX, k: nat)
    requires k <= |tx.inputs|
    requires forall i :: 0 <= i < k ==> tx.inputs[i].prevout in coins
    ensures var result := LinksAfter(net, coins, tx, k);
            && !result.AssertFail?
            && (result.Throw? ==> result.message == "TypeError")
            && (result.Accept? ==> forall i :: 0 <= i < k ==>
                  LinkRule(net, coins[tx.inputs[i].prevout].output, Linked(tx, i)).Accept?)
  {
    if k > 0 {
      LinksHold(net, coins, tx, k - 1);
    }
  }

  /** Outputs of the first `k` transactions on top of `outs`. */
  function OutsAfter(outs: map<Outpoint, Output>, txs: seq<TX>, k: nat): map<Outpoint, Output>
    requires k <= |txs|
  {
    if k == 0 then outs
    else OutsAfter(outs, txs, k - 1) + OutsUpTo(txs[k - 1], |txs[k - 1].outputs|)
  }

  lemma PairAll(coins: Coins, tx: TX, height: nat, k: nat)
    requires k >= |tx.inputs| && k >= |tx.outputs|
    ensures PairCoins(coins, tx, height, k)
            == coins - (if tx.IsCoinbase() then {} else Prevouts(tx)) + CreatedBy(tx, height)
  {
  }

  lemma LinkedTxKeepsInv(c: Context, coins: Coins, names: NameMap, outs: map<Outpoint, Output>, tx: TX)
    requires !tx.IsCoinbase() && TxReady(c, coins, outs, tx)
    requires Inv(c.net.names, c.Height(), coins, names, outs)
    ensures var result := NamesAfter(c, names, tx, |tx.outputs|);
            && !result.AssertFail?
            && (result.Throw? ==> BidsUnopened(names, tx))
            && (result.Accept? ==>
                  && names.Keys <= result.value.Keys
                  && Inv(c.net.names, c.Height(), coins - Prevouts(tx) + CreatedBy(tx, c.Height()),
                         result.value, outs + OutsUpTo(tx, |tx.outputs|)))
  {
    hide Inv, TxReady, PairCoins, CreatedBy, Prevouts;
    OutputsKeepInv(c, coins, names, outs, tx, |tx.outputs|);
    var result := NamesAfter(c, names, tx, |tx.outputs|);
    if result.Accept? {
      var k := if |tx.inputs| > |tx.outputs| then |tx.inputs| else |tx.outputs|;
      if k > |tx.outputs| {
        ExtraInputsKeepInv(c, coins, names, result.value, outs, tx, k);
      }
      PairAll(coins, tx, c.Height(), k);
    }
  }

  lemma SpendKeepsInv(c: Context, w: Work, outs: map<Outpoint, Output>, tx: TX)
    requires SaneTX(c.net, tx)
    requires Inv(c.net.names, c.Height(), w.coins, w.names, outs)
    requires FreshFor(outs, w.coins, tx)
    requires forall i :: 0 <= i < |tx.outputs| && tx.outputs[i].covenant.IsName() ==> 1 <= c.Height()
    ensures var result := SpendStep(c, w, tx);
            && !result.AssertFail?
            && (result.Throw? ==> result.message == "TypeError" || BidsUnopened(w.names, tx))
            && (result.Accept? ==>
                  && w.names.Keys <= result.value.names.Keys
                  && Inv(c.net.names, c.Height(), result.value.coins, result.value.names,
                         outs + OutsUpTo(tx, |tx.outputs|)))
  {
    hide Inv, LinkRule, LinksAfter, NamesAfter, CreatedBy, Prevouts;
    if forall i :: 0 <= i < |tx.inputs| ==> tx.inputs[i].prevout in w.coins {
      LinksHold(c.net, w.coins, tx, |tx.inputs|);
      if LinksAfter(c.net, w.coins, tx, |tx.inputs|).Accept? {
        LinkedTxKeepsInv(c, w.coins, w.names, outs, tx);
      }
    }
  }

  lemma CoinbaseCoins(coins: Coins, tx: TX, height: nat)
    requires tx.IsCoinbase()
    ensures PairCoins(coins, tx, height, |tx.outputs|) == coins + CreatedBy(tx, height)
  {
    assert SpentUpTo(tx, |tx.outputs|) == {} && coins - {} == coins;
    assert CreatedUpTo(tx, height, |tx.outputs|) == CreatedBy(tx, height);
  }

  lemma CoinbaseKeepsInv(c: Context, w: Work, outs: map<Outpoint, Output>, tx: TX)
    requires SaneCoinbase(c.net, tx)
    requires Inv(c.net.names, c.Height(), w.coins, w.names, outs)
    requires FreshFor(outs, w.coins, tx)
    requires forall i :: 0 <= i < |tx.outputs| && tx.outputs[i].covenant.IsName() ==> 1 <= c.Height()
    ensures var result := CoinbaseStep(c, w, tx);
            && !result.AssertFail? && !result.Throw?
            && (result.Accept? ==>
                  && w.names.Keys <= result.value.names.Keys
                  && Inv(c.net.names, c.Height(), result.value.coins, result.value.names,
                         outs + OutsUpTo(tx, |tx.outputs|)))
  {
    hide Inv, FreshFor, NamesAfter, BitsAfter, StatsAddAll, SaneNamed;
    BitsNeverFault(c.net, w.airdrops, tx, |tx.inputs|);
    if forall i :: 0 <= i < |tx.outputs| && tx.outputs[i].covenant.Claim?
                   ==> tx.outputs[i].covenant.height == c.Height() {
      OutputsKeepInv(c, w.coins, w.names, outs, tx, |tx.outputs|);
      CoinbaseCoins(w.coins, tx, c.Height());
    }
  }

  lemma {:induction false} BitsNeverFault(net: Network, bits: set<nat>, tx: TX, k: nat)
    requires k <= |tx.inputs| <= |tx.outputs|
    ensures !BitsAfter(net, bits, tx, k).AssertFail? && !BitsAfter(net, bits, tx, k).Throw?
  {
    if k > 1 {
      BitsNeverFault(net, bits, tx, k - 1);
    }
  }

  // ---------------------------------------------------------------------
  // Blocks and runs
  // ---------------------------------------------------------------------

  ghost predicate FreshTxs(outs: map<Outpoint, Output>, coins: Coins, txs: seq<TX>) {
    && (forall op, i :: op in outs && 0 <= i < |txs| ==> op.hash != txs[i].hash)
    && (forall op, i :: op in coins && 0 <= i < |txs| ==> op.hash != txs[i].hash)
    && (forall i, j :: 0 <= i < j < |txs| ==> txs[i].hash != txs[j].hash)
  }

  lemma FreshTxsParts(outs: map<Outpoint, Output>, coins: Coins, txs: seq<TX>)
    requires FreshTxs(outs, coins, txs)
    ensures forall op, i :: op in outs && 0 <= i < |txs| ==> op.hash != txs[i].hash
    ensures forall i, j :: 0 <= i < j < |txs| ==> txs[i].hash != txs[j].hash
  {
  }

  lemma {:induction false} OutsFromTxs(outs: map<Outpoint, Output>, txs: seq<TX>, k: nat, op: Outpoint)
    requires k <= |txs| && op in OutsAfter(outs, txs, k)
    ensures op in outs || exists i :: 0 <= i < k && op.hash == txs[i].hash
  {
    if k > 0 && op !in OutsUpTo(txs[k - 1], |txs[k - 1].outputs|) {
      OutsFromTxs(outs, txs, k - 1, op);
    }
  }

  lemma CoinsAreOuts(net: NetworkNames, h: nat, coins: Coins, names: NameMap,
                     outs: map<Outpoint, Output>)
    requires Inv(net, h, coins, names, outs)
    ensures forall op :: op in coins ==> op in outs
  {
  }

  lemma RecordsOk(net: NetworkNames, h: nat, coins: Coins, names: NameMap, outs: map<Outpoint, Output>)
    requires Inv(net, h, coins, names, outs)
    ensures forall n :: n in names ==> NameOk(net, h, names[n])
  {
  }

  lemma {:induction false} WorkKeepsInv(c: Context, w: Work, outs: map<Outpoint, Output>,
                                        txs: seq<TX>, k: nat)
    requires k <= |txs|
    requires forall i :: 0 <= i < |txs| ==> SaneAt(c.net, txs, i)
    requires Inv(c.net.names, c.Height(), w.coins, w.names, outs)
    requires FreshTxs(outs, w.coins, txs)
    requires forall i, j :: 0 <= i < |txs| && 0 <= j < |txs[i].outputs| && txs[i].outputs[j].covenant.IsName()
               ==> 1 <= c.Height()
    ensures var result := WorkAfter(c, w, txs, k);
            && !result.AssertFail?
            && (result.Throw? ==>
                  || result.message == "TypeError"
                  || exists i :: 0 <= i < |txs| && BidsUnopened(w.names, txs[i]))
            && (result.Accept? ==>
                  && w.names.Keys <= result.value.names.Keys
                  && Inv(c.net.names, c.Height(), result.value.coins, result.value.names,
                         OutsAfter(outs, txs, k)))
  {
    hide Inv, SpendStep, CoinbaseStep, SaneCoinbase, SaneTX;
    if k > 0 {
      var tx := txs[k - 1];
      WorkKeepsInv(c, w, outs, txs, k - 1);
      if WorkAfter(c, w, txs, k - 1).Accept? {
        var mid, outs' := WorkAfter(c, w, txs, k - 1).value, OutsAfter(outs, txs, k - 1);
        forall op | op in outs'
          ensures op.hash != tx.hash
        {
          OutsFromTxs(outs, txs, k - 1, op);
        }
        assert SaneAt(c.net, txs, k - 1);
        if k - 1 == 0 {
          CoinbaseKeepsInv(c, mid, outs', tx);
        } else {
          CoinsAreOuts(c.net.names, c.Height(), mid.coins, mid.names, outs');
          SpendKeepsInv(c, mid, outs', tx);
          assert BidsUnopened(mid.names, tx) ==> BidsUnopened(w.names, tx);
        }
      }
    }
  }
}
