/**
 The coins of a chain and their stored form.  Every coin of a reachable state, and
 every coin that a connected block spends, has the widths it is stored in and a
 height below that of the next block; so the undo coins of a block read back while
 heights stay below the greatest one.
 */
module StoredCoins {
  import opened Primitives
  import opened Names
  import opened Ledger
  import opened Verify
  import Codecs
  import CoinCodec

  ghost predicate CoinBelow(coin: CoinEntry, limit: nat) {
    CoinCodec.CoinFits(coin) && 0 <= coin.height < limit
  }

  ghost predicate CoinsBelow(coins: Coins, limit: nat) {
    forall op :: op in coins ==> CoinBelow(coins[op], limit)
  }

  predicate TxFits(tx: TX) {
    tx.version < WORD && forall o :: o in tx.outputs ==> o.Fits()
  }

  lemma CreatedFits(tx: TX, height: nat)
    requires TxFits(tx)
    ensures CoinsBelow(CreatedBy(tx, height), height + 1)
  {
    hide Output.Fits;
  }

  lemma StepFits(c: Context, w: Work, txs: seq<TX>, i: nat)
    requires i < |txs| && SaneAt(c.net, txs, i) && TxFits(txs[i])
    requires CoinsBelow(w.coins, c.Height() + 1) && TxStep(c, w, txs, i).Accept?
    ensures CoinsBelow(TxStep(c, w, txs, i).value.coins, c.Height() + 1)
  {
    hide CoinBelow, CreatedBy, Prevouts, LinksAfter, NamesAfter, BitsAfter, StatsAddAll, StatsSpendAll, TxFits;
    CreatedFits(txs[i], c.Height());
  }

  lemma {:induction false} WorkFits(c: Context, w: Work, txs: seq<TX>, k: nat)
    requires k <= |txs| && (forall i :: 0 <= i < |txs| ==> SaneAt(c.net, txs, i) && TxFits(txs[i]))
    requires CoinsBelow(w.coins, c.Height() + 1) && WorkAfter(c, w, txs, k).Accept?
    ensures CoinsBelow(WorkAfter(c, w, txs, k).value.coins, c.Height() + 1)
  {
    hide CoinsBelow, TxStep, SaneAt, TxFits;
    if k > 0 {
      WorkFits(c, w, txs, k - 1);
      StepFits(c, WorkAfter(c, w, txs, k - 1).value, txs, k - 1);
    }
  }

  /** The coins that the first `k` transactions spend. */
  lemma {:induction false} UndoFits(c: Context, w: Work, txs: seq<TX>, k: nat)
    requires k <= |txs| && (forall i :: 0 <= i < |txs| ==> SaneAt(c.net, txs, i) && TxFits(txs[i]))
    requires CoinsBelow(w.coins, c.Height() + 1) && WorkAfter(c, w, txs, k).Accept?
    ensures |UndoFirst(c, w, txs, k)| <= InputCount(txs[..k])
    ensures forall coin :: coin in UndoFirst(c, w, txs, k) ==> CoinBelow(coin, c.Height() + 1)
  {
    hide CoinBelow, TxStep, SaneAt, TxFits;
    if k > 0 {
      UndoFits(c, w, txs, k - 1);
      assert txs[..k][..k - 1] == txs[..k - 1];
      if k > 1 {
        var coins, tx := WorkAfter(c, w, txs, k - 1).value.coins, txs[k - 1];
        WorkFits(c, w, txs, k - 1);
        SpendsHere(c, w, txs, k, tx);
        assert forall j :: 0 <= j < |tx.inputs| ==> CoinBelow(coins[tx.inputs[j].prevout], c.Height() + 1);
      }
    }
  }

  lemma SpendsHere(c: Context, w: Work, txs: seq<TX>, k: nat, tx: TX)
    requires 1 < k <= |txs| && tx == txs[k - 1] && (forall i :: 0 <= i < |txs| ==> SaneAt(c.net, txs, i))
    requires WorkAfter(c, w, txs, k).Accept?
    ensures WorkAfter(c, w, txs, k - 1).Accept?
    ensures forall j :: 0 <= j < |tx.inputs| ==>
              tx.inputs[j].prevout in WorkAfter(c, w, txs, k - 1).value.coins
  {
    assert SaneAt(c.net, txs, k - 1);
  }

  lemma BlockTxsFit(net: Network, ledger: LedgerState, block: Block)
    requires SaneBlock(net, ledger, block)
    ensures forall i :: 0 <= i < |block.txs| ==> SaneAt(net, block.txs, i) && TxFits(block.txs[i])
    ensures InputCount(block.txs) <= MAX_BLOCK_SIZE
  {
    hide Output.Fits;
  }

  lemma BelowMore(coins: Coins, limit: nat, limit': nat)
    requires CoinsBelow(coins, limit) && limit <= limit'
    ensures CoinsBelow(coins, limit')
  {
    hide CoinCodec.CoinFits;
  }

  /** Every coin of a chain has the widths it is stored in and a height on it. */
  lemma {:induction false} ReachableCoins(net: Network, blocks: seq<Block>)
    requires Replay(net, blocks).Accept?
    ensures |Replay(net, blocks).value.main| == |blocks|
    ensures CoinsBelow(Replay(net, blocks).value.coins, |blocks|)
  {
    hide CoinBelow, SaneBlock, WorkAfter;
    if blocks != [] {
      var init, last := blocks[..|blocks| - 1], blocks[|blocks| - 1];
      ReachableCoins(net, init);
      var before := Replay(net, init).value;
      BlockTxsFit(net, before, last);
      BelowMore(before.coins, |init|, |blocks|);
      WorkFits(ContextOf(net, before), WorkOf(before, last), last.txs, |last.txs|);
    }
  }

  /** What a block spends is read back from its undo record as it was, as long as
      the height of the block fits. */
  lemma UndoReadsBack(net: Network, blocks: seq<Block>, block: Block)
    requires Replay(net, blocks).Accept? && SaneBlock(net, Replay(net, blocks).value, block)
    requires forall i :: 0 <= i < |block.txs| ==> SaneAt(net, block.txs, i)
    requires var before := Replay(net, blocks).value;
             WorkAfter(ContextOf(net, before), WorkOf(before, block), block.txs, |block.txs|).Accept?
    requires |blocks| < Codecs.MAX_HEIGHT
    ensures var before := Replay(net, blocks).value;
            var undo := UndoFirst(ContextOf(net, before), WorkOf(before, block), block.txs, |block.txs|);
            CoinCodec.ReadUndoCoins(CoinCodec.WriteUndoCoins(undo)) == Codecs.Got(undo, [])
  {
    hide SaneBlock, WorkAfter, UndoFirst, CoinCodec.ReadUndoCoins, CoinCodec.WriteUndoCoins, Replay, SaneAt,
      CoinsBelow, CoinCodec.CoinFits, TxFits;
    ReachableCoins(net, blocks);
    var before := Replay(net, blocks).value;
    var c, w := ContextOf(net, before), WorkOf(before, block);
    BlockTxsFit(net, before, block);
    BelowMore(before.coins, |blocks|, |blocks| + 1);
    UndoFits(c, w, block.txs, |block.txs|);
    assert block.txs[..|block.txs|] == block.txs;
    CoinCodec.UndoCoinsRoundTrip(UndoFirst(c, w, block.txs, |block.txs|));
  }
}
