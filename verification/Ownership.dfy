/**
 The auction invariant over whole runs, and what it says about ownership.
 */
module Ownership {
  import opened Primitives
  import opened Names
  import opened Ledger
  import opened Auction

  function Txids(blocks: seq<Block>): set<Hash> {
    if blocks == [] then {}
    else Txids(blocks[..|blocks| - 1]) + set tx | tx in blocks[|blocks| - 1].txs :: tx.hash
  }

  /** No transaction id occurs in two blocks of the chain. */
  predicate UniqueTxids(blocks: seq<Block>) {
    blocks == [] ||
    (&& UniqueTxids(blocks[..|blocks| - 1])
     && forall tx :: tx in blocks[|blocks| - 1].txs ==> tx.hash !in Txids(blocks[..|blocks| - 1]))
  }

  /** Every output created on the chain, spendable or not. */
  function AllOutputs(blocks: seq<Block>): map<Outpoint, Output> {
    if blocks == [] then map[]
    else
      var last := blocks[|blocks| - 1];
      OutsAfter(AllOutputs(blocks[..|blocks| - 1]), last.txs, |last.txs|)
  }

  lemma {:induction false} OutputsHaveTxids(blocks: seq<Block>, op: Outpoint)
    requires op in AllOutputs(blocks)
    ensures op.hash in Txids(blocks)
  {
    if blocks != [] {
      var init, last := blocks[..|blocks| - 1], blocks[|blocks| - 1];
      OutsFromTxs(AllOutputs(init), last.txs, |last.txs|, op);
      if op in AllOutputs(init) {
        OutputsHaveTxids(init, op);
      } else {
        var i :| 0 <= i < |last.txs| && op.hash == last.txs[i].hash;
        assert last.txs[i] in last.txs;
      }
    }
  }

  lemma InvMonotone(net: NetworkNames, h: nat, h': nat, coins: Coins, names: NameMap,
                    outs: map<Outpoint, Output>)
    requires Inv(net, h, coins, names, outs) && h <= h'
    ensures Inv(net, h', coins, names, outs)
  {
  }

  lemma FreshBlock(net: Network, ledger: LedgerState, block: Block, blocks: seq<Block>)
    requires SaneBlock(net, ledger, block)
    requires UniqueTxids(blocks + [block])
    ensures FreshTxs(AllOutputs(blocks), ledger.coins, block.txs)
  {
    assert (blocks + [block])[..|blocks|] == blocks;
    forall op, i | op in AllOutputs(blocks) && 0 <= i < |block.txs|
      ensures op.hash != block.txs[i].hash
    {
      OutputsHaveTxids(blocks, op);
      assert block.txs[i] in block.txs;
    }
  }

  lemma SaneBlockTxs(net: Network, ledger: LedgerState, block: Block)
    requires SaneBlock(net, ledger, block)
    ensures forall i :: 0 <= i < |block.txs| ==> SaneAt(net, block.txs, i)
    ensures forall i, j :: 0 <= i < |block.txs| && 0 <= j < |block.txs[i].outputs|
                           && block.txs[i].outputs[j].covenant.IsName()
              ==> 1 <= |ledger.main|
  {
  }

  /** One block on top of a chain whose state satisfies the invariant: whatever
      the block, no assertion of the rules fails, and the only errors that are
      not rejections are a BID on a name nobody opened and an unknown-covenant
      coin without a matching output. */
  lemma BlockKeepsInv(net: Network, ledger: LedgerState, block: Block, blocks: seq<Block>)
    requires UniqueTxids(blocks + [block])
    requires Inv(net.names, |ledger.main|, ledger.coins, ledger.names, AllOutputs(blocks))
    ensures var result := ConnectBlock(net, ledger, block);
            && !result.AssertFail?
            && (result.Throw? ==>
                  || result.message == "TypeError"
                  || exists i :: 0 <= i < |block.txs| && BidsUnopened(ledger.names, block.txs[i]))
            && (result.Accept? ==>
                  && result.value.main == ledger.main + [block.hash]
                  && Inv(net.names, |ledger.main|, result.value.coins, result.value.names,
                         AllOutputs(blocks + [block])))
  {
    hide Inv, FreshTxs, WorkAfter;
    if SaneBlock(net, ledger, block) && net.context(ledger, block) && block.treeRoot == ledger.tree {
      FreshBlock(net, ledger, block, blocks);
      SaneBlockTxs(net, ledger, block);
      WorkKeepsInv(ContextOf(net, ledger), WorkOf(ledger, block), AllOutputs(blocks), block.txs, |block.txs|);
      assert (blocks + [block])[..|blocks|] == blocks;
    }
  }

  lemma {:induction false} ReachableInv(net: Network, blocks: seq<Block>)
    requires UniqueTxids(blocks)
    ensures var result := Replay(net, blocks);
            result.Accept? ==>
              && |result.value.main| == |blocks|
              && Inv(net.names, if blocks == [] then 0 else |blocks| - 1,
                     result.value.coins, result.value.names, AllOutputs(blocks))
  {
    if blocks != [] {
      var init, last := blocks[..|blocks| - 1], blocks[|blocks| - 1];
      ReachableInv(net, init);
      assert init + [last] == blocks;
      if Replay(net, init).Accept? {
        var before := Replay(net, init).value;
        InvMonotone(net.names, if init == [] then 0 else |init| - 1, |before.main|,
                    before.coins, before.names, AllOutputs(init));
        BlockKeepsInv(net, before, last, init);
      }
    }
  }

  /** On every chain that connects, no block ever trips an assertion. */
  lemma AssertionsNeverFail(net: Network, blocks: seq<Block>, block: Block)
    requires UniqueTxids(blocks + [block])
    requires Replay(net, blocks).Accept?
    ensures var ledger := Replay(net, blocks).value;
            var result := ConnectBlock(net, ledger, block);
            && !result.AssertFail?
            && (result.Throw? ==>
                  || result.message == "TypeError"
                  || exists i :: 0 <= i < |block.txs| && BidsUnopened(ledger.names, block.txs[i]))
  {
    assert (blocks + [block])[..|blocks|] == blocks;
    ReachableInv(net, blocks);
    var ledger := Replay(net, blocks).value;
    InvMonotone(net.names, if blocks == [] then 0 else |blocks| - 1, |ledger.main|,
                ledger.coins, ledger.names, AllOutputs(blocks));
    BlockKeepsInv(net, ledger, block, blocks);
  }

  /** A coin that carries the ownership of `n` in its current auction. */
  predicate OwnershipCoin(ledger: LedgerState, n: Hash, op: Outpoint)
    requires n in ledger.names
  {
    && op in ledger.coins
    && ledger.coins[op].output.covenant.IsOwnership()
    && ledger.coins[op].output.covenant.nameHash == n
    && ledger.coins[op].output.covenant.height == ledger.names[n].height
  }

  /** The coins carrying the ownership of a registered, unrevoked name are
      exactly the owner's outpoint, provided the output there was spendable;
      that output holds the price paid, and is a TRANSFER exactly while a
      transfer is pending. */
  lemma SingleOwner(net: Network, blocks: seq<Block>, n: Hash)
    requires UniqueTxids(blocks) && Replay(net, blocks).Accept?
    requires var r := Find(Replay(net, blocks).value.names, n); r.registered && r.revoked == 0
    ensures var ledger, outs := Replay(net, blocks).value, AllOutputs(blocks);
            && n in ledger.names
            && var r := ledger.names[n];
            && r.owner in outs
            && (forall op :: OwnershipCoin(ledger, n, op) <==>
                  op == r.owner && !outs[r.owner].IsUnspendable())
            && outs[r.owner].covenant.IsOwnership()
            && outs[r.owner].value == r.value
            && (outs[r.owner].covenant.Transfer? <==> r.transfer != 0)
  {
    ReachableInv(net, blocks);
    var ledger, outs := Replay(net, blocks).value, AllOutputs(blocks);
    assert n in ledger.names;
    assert OwnerOk(n, ledger.names[n], ledger.coins, outs);
    assert NameOk(net.names, if blocks == [] then 0 else |blocks| - 1, ledger.names[n]);
    forall op | OwnershipCoin(ledger, n, op)
      ensures op == ledger.names[n].owner
    {
      assert CoinOk(ledger.names, op, ledger.coins[op].output);
    }
  }

  /** Among the outputs that carry ownership, only a FINALIZE can be unspendable. */
  predicate OnlyFinalizeBurns(outs: map<Outpoint, Output>) {
    forall op :: op in outs && outs[op].covenant.IsOwnership() && !outs[op].covenant.Finalize?
      ==> !outs[op].IsUnspendable()
  }

  /** An owner's output keeps the address of the coin it spends, except that a
      FINALIZE goes to the address its TRANSFER committed to. */
  lemma BurnedByTransfer(net: Network, coin: Output, output: Output)
    requires LinkRule(net, coin, Some(output)).Accept? && !coin.IsUnspendable() && output.covenant.IsOwnership()
    ensures output.IsUnspendable() <==>
              output.covenant.Finalize? && coin.covenant.Transfer? && coin.covenant.version == NULLDATA_VERSION
  {
  }

  lemma TxBurns(net: Network, coins: Coins, outs: map<Outpoint, Output>, tx: TX)
    requires OnlyFinalizeBurns(outs)
    requires forall op :: op in coins ==> !coins[op].output.IsUnspendable()
    requires forall i :: 0 <= i < |tx.outputs| && tx.outputs[i].covenant.IsOwnership() ==>
               && i < |tx.inputs| && tx.inputs[i].prevout in coins
               && LinkRule(net, coins[tx.inputs[i].prevout].output, Some(tx.outputs[i])).Accept?
    ensures OnlyFinalizeBurns(outs + OutsUpTo(tx, |tx.outputs|))
  {
    hide LinkRule, Output.IsUnspendable;
    forall i | 0 <= i < |tx.outputs| && tx.outputs[i].covenant.IsOwnership()
      ensures !tx.outputs[i].covenant.Finalize? ==> !tx.outputs[i].IsUnspendable()
    {
      BurnedByTransfer(net, coins[tx.inputs[i].prevout].output, tx.outputs[i]);
    }
  }

  lemma StepBurns(c: Context, w: Work, outs: map<Outpoint, Output>, txs: seq<TX>, i: nat)
    requires i < |txs| && SaneAt(c.net, txs, i) && TxStep(c, w, txs, i).Accept?
    requires forall op :: op in w.coins ==> !w.coins[op].output.IsUnspendable()
    requires OnlyFinalizeBurns(outs)
    ensures OnlyFinalizeBurns(outs + OutsUpTo(txs[i], |txs[i].outputs|))
  {
    hide LinkRule, NamesAfter, LinksAfter, CreatedBy, BitsAfter, OnlyFinalizeBurns, OutsUpTo, Output.IsUnspendable,
      SaneNamed;
    if i > 0 {
      LinksHold(c.net, w.coins, txs[i], |txs[i].inputs|);
    }
    TxBurns(c.net, w.coins, outs, txs[i]);
  }

  lemma {:induction false} WorkBurns(c: Context, w: Work, outs: map<Outpoint, Output>, txs: seq<TX>, k: nat)
    requires k <= |txs|
    requires forall i :: 0 <= i < |txs| ==> SaneAt(c.net, txs, i)
    requires Inv(c.net.names, c.Height(), w.coins, w.names, outs)
    requires FreshTxs(outs, w.coins, txs)
    requires forall i, j :: 0 <= i < |txs| && 0 <= j < |txs[i].outputs| && txs[i].outputs[j].covenant.IsName()
               ==> 1 <= c.Height()
    requires WorkAfter(c, w, txs, k).Accept? && OnlyFinalizeBurns(outs)
    ensures OnlyFinalizeBurns(OutsAfter(outs, txs, k))
  {
    hide Inv, TxStep, SaneAt, OnlyFinalizeBurns, FreshTxs;
    if k > 0 {
      WorkBurns(c, w, outs, txs, k - 1);
      WorkKeepsInv(c, w, outs, txs, k - 1);
      var mid, outs' := WorkAfter(c, w, txs, k - 1).value, OutsAfter(outs, txs, k - 1);
      StoredSpendable(c.net.names, c.Height(), mid.coins, mid.names, outs');
      StepBurns(c, mid, outs', txs, k - 1);
    }
  }

  lemma StoredSpendable(net: NetworkNames, h: nat, coins: Coins, names: NameMap, outs: map<Outpoint, Output>)
    requires Inv(net, h, coins, names, outs)
    ensures forall op :: op in coins ==> !coins[op].output.IsUnspendable()
  {
  }

  lemma BlockBurns(net: Network, before: LedgerState, init: seq<Block>, last: Block)
    requires UniqueTxids(init + [last]) && OnlyFinalizeBurns(AllOutputs(init))
    requires Inv(net.names, |before.main|, before.coins, before.names, AllOutputs(init))
    requires ConnectBlock(net, before, last).Accept?
    ensures OnlyFinalizeBurns(OutsAfter(AllOutputs(init), last.txs, |last.txs|))
  {
    hide Inv, OnlyFinalizeBurns, WorkAfter, FreshTxs, OutsAfter;
    FreshBlock(net, before, last, init);
    SaneBlockTxs(net, before, last);
    WorkBurns(ContextOf(net, before), WorkOf(before, last), AllOutputs(init), last.txs, |last.txs|);
  }

  /** A chain that connects is one that connects and a block that connects to it. */
  lemma ChainStep(net: Network, blocks: seq<Block>, init: seq<Block>, last: Block)
    requires blocks == init + [last]
    requires UniqueTxids(blocks) && Replay(net, blocks).Accept?
    ensures UniqueTxids(init) && Replay(net, init).Accept?
    ensures ConnectBlock(net, Replay(net, init).value, last) == Replay(net, blocks)
    ensures AllOutputs(blocks) == OutsAfter(AllOutputs(init), last.txs, |last.txs|)
  {
    hide ConnectBlock, OutsAfter;
    assert blocks[..|blocks| - 1] == init;
  }

  lemma ReachableInvNext(net: Network, blocks: seq<Block>)
    requires UniqueTxids(blocks) && Replay(net, blocks).Accept?
    ensures var ledger := Replay(net, blocks).value;
            Inv(net.names, |ledger.main|, ledger.coins, ledger.names, AllOutputs(blocks))
  {
    hide Inv, Replay;
    ReachableInv(net, blocks);
    var ledger := Replay(net, blocks).value;
    InvMonotone(net.names, if blocks == [] then 0 else |blocks| - 1, |ledger.main|,
                ledger.coins, ledger.names, AllOutputs(blocks));
  }

  lemma {:induction false} ReachableBurns(net: Network, blocks: seq<Block>)
    requires UniqueTxids(blocks) && Replay(net, blocks).Accept?
    ensures OnlyFinalizeBurns(AllOutputs(blocks))
  {
    hide *;
    if blocks == [] {
      NothingBurned();
    } else {
      var init, last := blocks[..|blocks| - 1], blocks[|blocks| - 1];
      assert init + [last] == blocks;
      ChainStep(net, blocks, init, last);
      ReachableBurns(net, init);
      ReachableInvNext(net, init);
      BlockBurns(net, Replay(net, init).value, init, last);
    }
  }

  lemma NothingBurned()
    ensures OnlyFinalizeBurns(AllOutputs([]))
  {
  }

  /** A registered, unrevoked name has lost its coin exactly when the last step of
      its owner was a FINALIZE to the version of outputs that hold data. */
  lemma OwnerBurned(net: Network, blocks: seq<Block>, n: Hash)
    requires UniqueTxids(blocks) && Replay(net, blocks).Accept?
    requires var r := Find(Replay(net, blocks).value.names, n); r.registered && r.revoked == 0
    ensures var ledger, outs := Replay(net, blocks).value, AllOutputs(blocks);
            && n in ledger.names && ledger.names[n].owner in outs
            && var o := outs[ledger.names[n].owner];
            && ((exists op :: OwnershipCoin(ledger, n, op)) <==>
                  !(o.covenant.Finalize? && o.address.version == NULLDATA_VERSION))
  {
    hide Replay, AllOutputs;
    SingleOwner(net, blocks, n);
    ReachableBurns(net, blocks);
    var ledger := Replay(net, blocks).value;
    assert OwnershipCoin(ledger, n, ledger.names[n].owner) <==>
             !AllOutputs(blocks)[ledger.names[n].owner].IsUnspendable();
  }

  /** Nobody holds a revoked or unregistered name. */
  lemma NoOwner(net: Network, blocks: seq<Block>, n: Hash, op: Outpoint)
    requires UniqueTxids(blocks) && Replay(net, blocks).Accept?
    requires n in Replay(net, blocks).value.names
    requires OwnershipCoin(Replay(net, blocks).value, n, op)
    ensures var r := Replay(net, blocks).value.names[n]; r.registered && r.revoked == 0
  {
    ReachableInv(net, blocks);
    var ledger := Replay(net, blocks).value;
    assert CoinOk(ledger.names, op, ledger.coins[op].output);
  }
}
