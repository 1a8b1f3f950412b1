/**
 What is spent into what.  The coin-to-output check read from the side of the
 output, and over whole chains: every input spends an output of the chain that
 may become the output beside it, so a REVEAL opens the BID it spends.
 */
module Spending {
  import opened Primitives
  import opened Names
  import opened Ledger
  import opened Auction
  import opened Ownership

  /** Coins that carry no name. */
  predicate Plain(coin: Output) {
    coin.covenant.NoCovenant? || coin.covenant.Open? || coin.covenant.Redeem?
  }

  /** The name passes on with its value and its address. */
  predicate Keeps(coin: Output, o: Output, n: Hash, height: nat) {
    && coin.covenant.IsOwnership() && coin.covenant.nameHash == n && coin.covenant.height == height
    && o.value == coin.value && o.address == coin.address
  }

  /** The coins that output `o` may follow. */
  predicate Follows(net: Network, coin: Output, o: Output) {
    var uc := coin.covenant;
    match o.covenant
    case NoCovenant => Plain(coin) || uc.UnknownCovenant?
    case Open(_, _) => Plain(coin)
    case Bid(_, _, _, _) => Plain(coin)
    case Claim(_, _, _, _, _, _) => false
    case Reveal(n, height, nonce) =>
      && uc.Bid? && uc.nameHash == n && uc.height == height
      && uc.blind == net.blind(o.value, nonce) && o.value <= coin.value
    case Redeem(n, height) => uc.Reveal? && uc.nameHash == n && uc.height == height
    case Register(n, height, _, _) =>
      (uc.Reveal? || uc.Claim?) && uc.nameHash == n && uc.height == height && o.address == coin.address
    case Update(n, height, _) => Keeps(coin, o, n, height)
    case Renew(n, height, _) => Keeps(coin, o, n, height)
    case Revoke(n, height) => Keeps(coin, o, n, height)
    case Transfer(n, height, _, _) => Keeps(coin, o, n, height) && !uc.Transfer?
    case Finalize(n, height, _, _, _, _, _) =>
      && uc.Transfer? && uc.nameHash == n && uc.height == height
      && o.value == coin.value && o.address == Address(uc.version, uc.addressHash)
    case UnknownCovenant(_, _) => uc.UnknownCovenant?
  }

  /** The coin-to-output check accepts exactly the outputs that may follow the coin;
      without an output beside it only a coin that carries no name is spent. */
  lemma LinkFollows(net: Network, coin: Output, o: Output)
    ensures LinkRule(net, coin, Some(o)).Accept? <==> Follows(net, coin, o)
    ensures LinkRule(net, coin, None).Accept? <==> Plain(coin)
  {
    match coin.covenant
    case Bid(_, _, _, _) =>
    case Transfer(_, _, _, _) =>
    case _ =>
  }

  // ---------------------------------------------------------------------
  // Over whole chains
  // ---------------------------------------------------------------------

  /** Every input spends an output made before, and what stands beside it may
      follow that. */
  ghost predicate TxFollows(net: Network, outs: map<Outpoint, Output>, tx: TX) {
    tx.IsCoinbase() || forall i :: 0 <= i < |tx.inputs| ==> InputFollows(net, outs, tx, i)
  }

  predicate InputFollows(net: Network, outs: map<Outpoint, Output>, tx: TX, i: nat)
    requires i < |tx.inputs|
  {
    && tx.inputs[i].prevout in outs
    && var coin := outs[tx.inputs[i].prevout];
       if i < |tx.outputs| then Follows(net, coin, tx.outputs[i]) else Plain(coin)
  }

  lemma StepFollows(c: Context, w: Work, outs: map<Outpoint, Output>, txs: seq<TX>, i: nat)
    requires i < |txs| && SaneAt(c.net, txs, i) && TxStep(c, w, txs, i).Accept?
    requires forall op :: op in w.coins ==> op in outs && outs[op] == w.coins[op].output
    ensures TxFollows(c.net, outs, txs[i])
  {
    hide LinkRule, Follows, NamesAfter, LinksAfter, CreatedBy, BitsAfter, SaneNamed;
    if i > 0 {
      var tx := txs[i];
      LinksHold(c.net, w.coins, tx, |tx.inputs|);
      forall j | 0 <= j < |tx.inputs| ensures InputFollows(c.net, outs, tx, j) {
        var coin := w.coins[tx.inputs[j].prevout].output;
        LinkFollows(c.net, coin, if j < |tx.outputs| then tx.outputs[j] else coin);
      }
    }
  }

  /** Outputs that come later have other outpoints. */
  lemma FollowsMore(net: Network, outs: map<Outpoint, Output>, more: map<Outpoint, Output>, tx: TX)
    requires TxFollows(net, outs, tx) && forall op :: op in outs ==> op in more && more[op] == outs[op]
    ensures TxFollows(net, more, tx)
  {
    hide Follows;
    forall i | 0 <= i < |tx.inputs| && !tx.IsCoinbase() ensures InputFollows(net, more, tx, i) {
      assert InputFollows(net, outs, tx, i);
    }
  }

  lemma {:induction false} OutsGrow(outs: map<Outpoint, Output>, txs: seq<TX>, j: nat, k: nat)
    requires j <= k <= |txs|
    requires forall op, i :: op in outs && 0 <= i < |txs| ==> op.hash != txs[i].hash
    requires forall i, j :: 0 <= i < j < |txs| ==> txs[i].hash != txs[j].hash
    ensures forall op :: op in OutsAfter(outs, txs, j) ==>
              op in OutsAfter(outs, txs, k) && OutsAfter(outs, txs, k)[op] == OutsAfter(outs, txs, j)[op]
  {
    if j < k {
      OutsGrow(outs, txs, j, k - 1);
      forall op | op in OutsAfter(outs, txs, k - 1) ensures op.hash != txs[k - 1].hash {
        OutsFromTxs(outs, txs, k - 1, op);
      }
    }
  }

  lemma {:induction false} WorkFollows(c: Context, w: Work, outs: map<Outpoint, Output>, txs: seq<TX>, k: nat, j: nat)
    requires j < k <= |txs|
    requires forall i :: 0 <= i < |txs| ==> SaneAt(c.net, txs, i)
    requires Inv(c.net.names, c.Height(), w.coins, w.names, outs)
    requires FreshTxs(outs, w.coins, txs)
    requires forall i, j :: 0 <= i < |txs| && 0 <= j < |txs[i].outputs| && txs[i].outputs[j].covenant.IsName()
               ==> 1 <= c.Height()
    requires WorkAfter(c, w, txs, k).Accept?
    ensures TxFollows(c.net, OutsAfter(outs, txs, k), txs[j])
  {
    hide Inv, TxStep, SaneAt, TxFollows;
    FreshTxsParts(outs, w.coins, txs);
    OutsGrow(outs, txs, k - 1, k);
    if j == k - 1 {
      WorkKeepsInv(c, w, outs, txs, j);
      var mid, outs' := WorkAfter(c, w, txs, j).value, OutsAfter(outs, txs, j);
      StoredOuts(c.net.names, c.Height(), mid.coins, mid.names, outs');
      StepFollows(c, mid, outs', txs, j);
    } else {
      WorkFollows(c, w, outs, txs, k - 1, j);
    }
    FollowsMore(c.net, OutsAfter(outs, txs, k - 1), OutsAfter(outs, txs, k), txs[j]);
  }

  lemma StoredOuts(net: NetworkNames, h: nat, coins: Coins, names: NameMap, outs: map<Outpoint, Output>)
    requires Inv(net, h, coins, names, outs)
    ensures forall op :: op in coins ==> op in outs && outs[op] == coins[op].output
  {
  }

  lemma BlockFollows(net: Network, before: LedgerState, init: seq<Block>, last: Block, j: nat)
    requires UniqueTxids(init + [last]) && j < |last.txs|
    requires Inv(net.names, |before.main|, before.coins, before.names, AllOutputs(init))
    requires ConnectBlock(net, before, last).Accept?
    ensures TxFollows(net, OutsAfter(AllOutputs(init), last.txs, |last.txs|), last.txs[j])
  {
    hide Inv, TxFollows, WorkAfter, FreshTxs, OutsAfter;
    FreshBlock(net, before, last, init);
    SaneBlockTxs(net, before, last);
    WorkFollows(ContextOf(net, before), WorkOf(before, last), AllOutputs(init), last.txs, |last.txs|, j);
  }

  lemma BlockGrows(net: Network, before: LedgerState, init: seq<Block>, last: Block)
    requires UniqueTxids(init + [last]) && ConnectBlock(net, before, last).Accept?
    ensures var more := OutsAfter(AllOutputs(init), last.txs, |last.txs|);
            forall op :: op in AllOutputs(init) ==> op in more && more[op] == AllOutputs(init)[op]
  {
    hide WorkAfter, FreshTxs;
    FreshBlock(net, before, last, init);
    FreshTxsParts(AllOutputs(init), before.coins, last.txs);
    OutsGrow(AllOutputs(init), last.txs, 0, |last.txs|);
  }

  /** On every chain, every input of every transaction but the coinbases. */
  lemma {:induction false} ChainFollows(net: Network, blocks: seq<Block>, b: nat, j: nat)
    requires UniqueTxids(blocks) && Replay(net, blocks).Accept?
    requires b < |blocks| && j < |blocks[b].txs|
    ensures TxFollows(net, AllOutputs(blocks), blocks[b].txs[j])
  {
    hide *;
    var init, last := blocks[..|blocks| - 1], blocks[|blocks| - 1];
    assert init + [last] == blocks;
    ChainStep(net, blocks, init, last);
    if b == |init| {
      ReachableInvNext(net, init);
      BlockFollows(net, Replay(net, init).value, init, last, j);
    } else {
      ChainFollows(net, init, b, j);
      BlockGrows(net, Replay(net, init).value, init, last);
      FollowsMore(net, AllOutputs(init), AllOutputs(blocks), blocks[b].txs[j]);
    }
  }

  /** Linked outputs stand beside inputs, in transactions that are no coinbase. */
  lemma LinkedBeside(net: Network, before: LedgerState, block: Block, j: nat, i: nat)
    requires ConnectBlock(net, before, block).Accept? && j < |block.txs| && i < |block.txs[j].outputs|
    requires block.txs[j].outputs[i].covenant.IsLinked()
    ensures !block.txs[j].IsCoinbase() && i < |block.txs[j].inputs|
  {
    hide WorkAfter;
    SaneBlockTxs(net, before, block);
    assert SaneAt(net, block.txs, j);
  }

  lemma {:induction false} ChainLinked(net: Network, blocks: seq<Block>, b: nat, j: nat, i: nat)
    requires UniqueTxids(blocks) && Replay(net, blocks).Accept?
    requires b < |blocks| && j < |blocks[b].txs| && i < |blocks[b].txs[j].outputs|
    requires blocks[b].txs[j].outputs[i].covenant.IsLinked()
    ensures var tx := blocks[b].txs[j];
            && !tx.IsCoinbase() && i < |tx.inputs| && tx.inputs[i].prevout in AllOutputs(blocks)
            && Follows(net, AllOutputs(blocks)[tx.inputs[i].prevout], tx.outputs[i])
  {
    hide Follows, ConnectBlock, OutsAfter;
    var init, last := blocks[..|blocks| - 1], blocks[|blocks| - 1];
    assert init + [last] == blocks;
    ChainStep(net, blocks, init, last);
    ChainFollows(net, blocks, b, j);
    if b == |init| {
      LinkedBeside(net, Replay(net, init).value, last, j, i);
    } else {
      ChainLinked(net, init, b, j, i);
    }
    assert InputFollows(net, AllOutputs(blocks), blocks[b].txs[j], i);
  }

  /** Sealed bids: on every chain, the coin that a REVEAL spends is a BID on the
      same name in the same auction, whose blind is that of the revealed value
      and nonce; and the value was locked with the bid. */
  lemma RevealOpensBid(net: Network, blocks: seq<Block>, b: nat, j: nat, i: nat)
    requires UniqueTxids(blocks) && Replay(net, blocks).Accept?
    requires b < |blocks| && j < |blocks[b].txs| && i < |blocks[b].txs[j].outputs|
    requires blocks[b].txs[j].outputs[i].covenant.Reveal?
    ensures var tx, outs := blocks[b].txs[j], AllOutputs(blocks);
            && i < |tx.inputs| && tx.inputs[i].prevout in outs
            && var bid, shown := outs[tx.inputs[i].prevout], tx.outputs[i];
            && bid.covenant.Bid?
            && bid.covenant.nameHash == shown.covenant.nameHash && bid.covenant.height == shown.covenant.height
            && net.blind(shown.value, shown.covenant.nonce) == bid.covenant.blind
            && shown.value <= bid.value
  {
    hide Replay, AllOutputs;
    ChainLinked(net, blocks, b, j, i);
  }
}
