/**
 The coin set as a function of the blocks: whatever the chain made that can be
 spent and was not, each coin with the version, height and kind of the transaction
 that made it; and every outpoint is spent at most once.
 */
module CoinSet {
  import opened Primitives
  import opened Names
  import opened Ledger
  import opened Auction
  import opened Ownership

  /** The first `k` outputs of a transaction, spendable or not. */
  function MadeBy(tx: TX, height: nat, first: bool, k: nat): Coins
    requires k <= |tx.outputs|
  {
    map i: nat | 0 <= i < k :: tx.OutpointAt(i) := CoinEntry(tx.version, height, first, tx.outputs[i])
  }

  function MadeAfter(made: Coins, txs: seq<TX>, height: nat, k: nat): Coins
    requires k <= |txs|
  {
    if k == 0 then made
    else MadeAfter(made, txs, height, k - 1) + MadeBy(txs[k - 1], height, k == 1, |txs[k - 1].outputs|)
  }

  /** Everything a chain made; the coinbase is the first transaction of its block. */
  function Made(blocks: seq<Block>): Coins {
    if blocks == [] then map[]
    else
      var last := blocks[|blocks| - 1];
      MadeAfter(Made(blocks[..|blocks| - 1]), last.txs, |blocks| - 1, |last.txs|)
  }

  function PrevoutsOf(tx: TX): seq<Outpoint> {
    seq(|tx.inputs|, i requires 0 <= i < |tx.inputs| => tx.inputs[i].prevout)
  }

  function SpentAfter(spent: seq<Outpoint>, txs: seq<TX>, k: nat): seq<Outpoint>
    requires k <= |txs|
  {
    if k <= 1 then spent else SpentAfter(spent, txs, k - 1) + PrevoutsOf(txs[k - 1])
  }

  /** Everything a chain spent, in order: the inputs of all but the coinbases. */
  function Spent(blocks: seq<Block>): seq<Outpoint> {
    if blocks == [] then []
    else
      var last := blocks[|blocks| - 1];
      SpentAfter(Spent(blocks[..|blocks| - 1]), last.txs, |last.txs|)
  }

  function Unspent(made: Coins, spent: seq<Outpoint>): Coins {
    map op | op in made && !made[op].output.IsUnspendable() && op !in spent :: made[op]
  }

  predicate Once(spent: seq<Outpoint>) {
    forall i, j :: 0 <= i < j < |spent| ==> spent[i] != spent[j]
  }

  ghost predicate CoinSetOk(coins: Coins, made: Coins, spent: seq<Outpoint>, outs: map<Outpoint, Output>) {
    && coins == Unspent(made, spent) && Once(spent)
    && (forall op :: op in spent ==> op in made && !made[op].output.IsUnspendable())
    && made.Keys == outs.Keys && (forall op :: op in made ==> made[op].output == outs[op])
  }

  /** Inputs take coins off. */
  lemma TakeOff(coins: Coins, made: Coins, spent: seq<Outpoint>, outs: map<Outpoint, Output>, tx: TX)
    requires CoinSetOk(coins, made, spent, outs)
    requires forall i :: 0 <= i < |tx.inputs| ==> tx.inputs[i].prevout in coins
    requires forall i, j :: 0 <= i < j < |tx.inputs| ==> tx.inputs[i].prevout != tx.inputs[j].prevout
    ensures CoinSetOk(coins - Prevouts(tx), made, spent + PrevoutsOf(tx), outs)
  {
    var more := spent + PrevoutsOf(tx);
    forall op ensures op in PrevoutsOf(tx) <==> op in Prevouts(tx) {
      if op in Prevouts(tx) {
        var i :| 0 <= i < |tx.inputs| && op == tx.inputs[i].prevout;
        assert PrevoutsOf(tx)[i] == op;
      }
    }
    forall i, j | 0 <= i < j < |more| ensures more[i] != more[j] {
      if i < |spent| <= j {
        assert more[j] == tx.inputs[j - |spent|].prevout && more[i] in spent;
      }
    }
    assert coins - Prevouts(tx) == Unspent(made, more);
  }

  /** Outputs put coins on. */
  lemma PutOn(coins: Coins, made: Coins, spent: seq<Outpoint>, outs: map<Outpoint, Output>, tx: TX, height: nat)
    requires CoinSetOk(coins, made, spent, outs)
    requires forall op :: op in outs ==> op.hash != tx.hash
    ensures CoinSetOk(coins + CreatedBy(tx, height), made + MadeBy(tx, height, tx.IsCoinbase(), |tx.outputs|), spent,
                      outs + OutsUpTo(tx, |tx.outputs|))
  {
    var new', created := MadeBy(tx, height, tx.IsCoinbase(), |tx.outputs|), CreatedBy(tx, height);
    MadeFacts(tx, height);
    hide *;
    PutMaps(coins, made, spent, outs, new', created, OutsUpTo(tx, |tx.outputs|));
  }

  lemma PutMaps(coins: Coins, made: Coins, spent: seq<Outpoint>, outs: map<Outpoint, Output>, new': Coins,
                created: Coins, more: map<Outpoint, Output>)
    requires CoinSetOk(coins, made, spent, outs)
    requires forall op :: op in new' <==> op in more
    requires forall op :: op in new' ==> op !in outs && new'[op].output == more[op]
    requires forall op :: op in created <==> op in new' && !new'[op].output.IsUnspendable()
    requires forall op :: op in created ==> created[op] == new'[op]
    ensures CoinSetOk(coins + created, made + new', spent, outs + more)
  {
    hide Output.IsUnspendable;
    forall op | op in made ensures op !in new' {}
    forall op | op in spent ensures op in made + new' && (made + new')[op] == made[op] {}
    forall op ensures op in coins + created <==> op in Unspent(made + new', spent) {}
  }

  lemma MadeFacts(tx: TX, height: nat)
    ensures var new', created := MadeBy(tx, height, tx.IsCoinbase(), |tx.outputs|), CreatedBy(tx, height);
            && (forall op :: op in new' <==> op in OutsUpTo(tx, |tx.outputs|))
            && (forall op :: op in new' ==> op.hash == tx.hash && new'[op].output == OutsUpTo(tx, |tx.outputs|)[op])
            && (forall op :: op in created <==> op in new' && !new'[op].output.IsUnspendable())
            && (forall op :: op in created ==> created[op] == new'[op])
  {
  }

  lemma StepCoinSet(c: Context, w: Work, made: Coins, spent: seq<Outpoint>, outs: map<Outpoint, Output>, txs: seq<TX>,
                    i: nat)
    requires i < |txs| && SaneAt(c.net, txs, i) && TxStep(c, w, txs, i).Accept?
    requires CoinSetOk(w.coins, made, spent, outs)
    requires forall op :: op in outs ==> op.hash != txs[i].hash
    ensures CoinSetOk(TxStep(c, w, txs, i).value.coins,
                      made + MadeBy(txs[i], c.Height(), i == 0, |txs[i].outputs|),
                      if i == 0 then spent else spent + PrevoutsOf(txs[i]),
                      outs + OutsUpTo(txs[i], |txs[i].outputs|))
  {
    hide CoinSetOk, NamesAfter, LinksAfter, BitsAfter, CreatedBy, MadeBy, OutsUpTo, Prevouts, PrevoutsOf, SaneNamed;
    if i == 0 {
      PutOn(w.coins, made, spent, outs, txs[i], c.Height());
    } else {
      TakeOff(w.coins, made, spent, outs, txs[i]);
      PutOn(w.coins - Prevouts(txs[i]), made, spent + PrevoutsOf(txs[i]), outs, txs[i], c.Height());
    }
  }

  lemma {:induction false} WorkCoinSet(c: Context, w: Work, made: Coins, spent: seq<Outpoint>,
                                       outs: map<Outpoint, Output>, txs: seq<TX>, k: nat)
    requires k <= |txs|
    requires forall i :: 0 <= i < |txs| ==> SaneAt(c.net, txs, i)
    requires forall op, i :: op in outs && 0 <= i < |txs| ==> op.hash != txs[i].hash
    requires forall i, j :: 0 <= i < j < |txs| ==> txs[i].hash != txs[j].hash
    requires CoinSetOk(w.coins, made, spent, outs) && WorkAfter(c, w, txs, k).Accept?
    ensures CoinSetOk(WorkAfter(c, w, txs, k).value.coins, MadeAfter(made, txs, c.Height(), k),
                      SpentAfter(spent, txs, k), OutsAfter(outs, txs, k))
  {
    hide CoinSetOk, TxStep, SaneAt, MadeBy, OutsUpTo, PrevoutsOf;
    if k > 0 {
      var i := k - 1;
      WorkCoinSet(c, w, made, spent, outs, txs, i);
      forall op | op in OutsAfter(outs, txs, i) ensures op.hash != txs[i].hash {
        OutsFromTxs(outs, txs, i, op);
      }
      StepCoinSet(c, WorkAfter(c, w, txs, i).value, MadeAfter(made, txs, c.Height(), i), SpentAfter(spent, txs, i),
                  OutsAfter(outs, txs, i), txs, i);
    }
  }

  lemma BlockCoinSet(net: Network, before: LedgerState, init: seq<Block>, last: Block)
    requires UniqueTxids(init + [last]) && ConnectBlock(net, before, last).Accept?
    requires CoinSetOk(before.coins, Made(init), Spent(init), AllOutputs(init))
    ensures CoinSetOk(ConnectBlock(net, before, last).value.coins,
                      MadeAfter(Made(init), last.txs, |before.main|, |last.txs|),
                      SpentAfter(Spent(init), last.txs, |last.txs|),
                      OutsAfter(AllOutputs(init), last.txs, |last.txs|))
  {
    hide CoinSetOk, WorkAfter, FreshTxs, MadeAfter, SpentAfter, OutsAfter;
    FreshBlock(net, before, last, init);
    SaneBlockTxs(net, before, last);
    FreshTxsParts(AllOutputs(init), before.coins, last.txs);
    WorkCoinSet(ContextOf(net, before), WorkOf(before, last), Made(init), Spent(init), AllOutputs(init), last.txs,
                |last.txs|);
  }

  lemma NothingMade()
    ensures CoinSetOk(map[], Made([]), Spent([]), AllOutputs([]))
  {
  }

  lemma {:induction false} ReachableCoinSet(net: Network, blocks: seq<Block>)
    requires UniqueTxids(blocks) && Replay(net, blocks).Accept?
    ensures CoinSetOk(Replay(net, blocks).value.coins, Made(blocks), Spent(blocks), AllOutputs(blocks))
  {
    hide CoinSetOk, ConnectBlock, MadeAfter, SpentAfter, OutsAfter;
    if blocks == [] {
      NothingMade();
    } else {
      var init, last := blocks[..|blocks| - 1], blocks[|blocks| - 1];
      assert init + [last] == blocks;
      ChainStep(net, blocks, init, last);
      ReachableCoinSet(net, init);
      ReachableInv(net, init);
      BlockCoinSet(net, Replay(net, init).value, init, last);
    }
  }

  /** The coins of a chain are what it made that is spendable and unspent, with the
      version, the height and the kind of the transaction that made it; nothing
      was spent twice, and nothing that was not there to spend. */
  lemma UnspentCoins(net: Network, blocks: seq<Block>)
    requires UniqueTxids(blocks) && Replay(net, blocks).Accept?
    ensures Replay(net, blocks).value.coins == Unspent(Made(blocks), Spent(blocks))
    ensures Once(Spent(blocks))
    ensures forall op :: op in Spent(blocks) ==> op in Made(blocks) && !Made(blocks)[op].output.IsUnspendable()
  {
    hide Replay, Made, Spent, Unspent;
    ReachableCoinSet(net, blocks);
  }

  lemma {:induction false} MadeStays(made: Coins, txs: seq<TX>, height: nat, j: nat, k: nat)
    requires j < k <= |txs|
    requires forall i, j :: 0 <= i < j < |txs| ==> txs[i].hash != txs[j].hash
    ensures var after := MadeAfter(made, txs, height, k);
            forall i :: 0 <= i < |txs[j].outputs| ==>
              && txs[j].OutpointAt(i) in after
              && after[txs[j].OutpointAt(i)] == CoinEntry(txs[j].version, height, j == 0, txs[j].outputs[i])
  {
    if j < k - 1 {
      MadeStays(made, txs, height, j, k - 1);
    }
  }

  lemma {:induction false} MadeElsewhere(made: Coins, txs: seq<TX>, height: nat, k: nat, op: Outpoint)
    requires k <= |txs| && op in made && forall i :: 0 <= i < |txs| ==> op.hash != txs[i].hash
    ensures op in MadeAfter(made, txs, height, k) && MadeAfter(made, txs, height, k)[op] == made[op]
  {
    if k > 0 {
      MadeElsewhere(made, txs, height, k - 1, op);
    }
  }

  /** What output `i` of transaction `j` of block `b` becomes. */
  lemma {:induction false} MadeAt(net: Network, blocks: seq<Block>, b: nat, j: nat, i: nat)
    requires UniqueTxids(blocks) && Replay(net, blocks).Accept?
    requires b < |blocks| && j < |blocks[b].txs| && i < |blocks[b].txs[j].outputs|
    ensures var tx := blocks[b].txs[j];
            && tx.OutpointAt(i) in Made(blocks)
            && Made(blocks)[tx.OutpointAt(i)] == CoinEntry(tx.version, b, j == 0, tx.outputs[i])
  {
    hide ConnectBlock, MadeAfter, OutsAfter, FreshTxs;
    var init, last := blocks[..|blocks| - 1], blocks[|blocks| - 1];
    assert init + [last] == blocks;
    ChainStep(net, blocks, init, last);
    BlockHashes(net, init, last);
    if b == |init| {
      MadeStays(Made(init), last.txs, b, j, |last.txs|);
    } else {
      MadeAt(net, init, b, j, i);
      ReachableCoinSet(net, init);
      MadeElsewhere(Made(init), last.txs, |init|, |last.txs|, init[b].txs[j].OutpointAt(i));
    }
  }

  lemma BlockHashes(net: Network, init: seq<Block>, last: Block)
    requires UniqueTxids(init + [last]) && Replay(net, init).Accept?
    requires ConnectBlock(net, Replay(net, init).value, last).Accept?
    ensures forall op, i :: op in AllOutputs(init) && 0 <= i < |last.txs| ==> op.hash != last.txs[i].hash
    ensures forall i, j :: 0 <= i < j < |last.txs| ==> last.txs[i].hash != last.txs[j].hash
  {
    hide WorkAfter, FreshTxs, Replay;
    FreshBlock(net, Replay(net, init).value, last, init);
    FreshTxsParts(AllOutputs(init), Replay(net, init).value.coins, last.txs);
  }
}
