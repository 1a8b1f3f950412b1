/**
 What the supply counters of the chain state mean, over every run.
 */
module Supply {
  import opened Primitives
  import opened Names
  import opened Ledger
  import opened Verify
  import opened Auction
  import opened Sums

  /** Value a coin contributes to the circulating supply. */
  function Weight(e: CoinEntry): int {
    if e.output.covenant.IsLocked() then 0 else e.output.value
  }

  ghost function Total(coins: Coins): int {
    Sum(coins, Weight)
  }

  /** A coin outside REGISTER..REVOKE is counted once. */
  function Single(e: CoinEntry): int {
    if e.output.covenant.IsLocked() then 0 else 1
  }

  ghost function Number(coins: Coins): int {
    Sum(coins, Single)
  }

  lemma NumberWithout(coins: Coins, op: Outpoint)
    requires op in coins
    ensures Number(coins) == Single(coins[op]) + Number(coins - {op})
  {
    SumWithout(coins, Single, op);
  }

  lemma NumberWith(coins: Coins, op: Outpoint, e: CoinEntry)
    requires op !in coins
    ensures Number(coins[op := e]) == Number(coins) + Single(e)
  {
    SumWith(coins, Single, op, e);
  }

  lemma TotalWithout(coins: Coins, op: Outpoint)
    requires op in coins
    ensures Total(coins) == Weight(coins[op]) + Total(coins - {op})
  {
    SumWithout(coins, Weight, op);
  }

  lemma TotalWith(coins: Coins, op: Outpoint, e: CoinEntry)
    requires op !in coins
    ensures Total(coins[op := e]) == Total(coins) + Weight(e)
  {
    SumWith(coins, Weight, op, e);
  }

  /** CLAIM outputs that replace an earlier claim: not new value. */
  predicate IsReclaim(o: Output) {
    o.covenant.Claim? && o.covenant.commitHeight != 1 && !o.IsUnspendable()
  }

  function Reclaimed(outputs: seq<Output>): nat {
    if outputs == [] then 0
    else
      Reclaimed(outputs[..|outputs| - 1])
      + if IsReclaim(outputs[|outputs| - 1]) then outputs[|outputs| - 1].value else 0
  }

  function Registered(outputs: seq<Output>): nat {
    if outputs == [] then 0
    else
      Registered(outputs[..|outputs| - 1])
      + if outputs[|outputs| - 1].covenant.Register? && !outputs[|outputs| - 1].IsUnspendable()
        then outputs[|outputs| - 1].value else 0
  }

  /** How many outputs replace an earlier claim. */
  function Reclaims(outputs: seq<Output>): nat {
    if outputs == [] then 0
    else Reclaims(outputs[..|outputs| - 1]) + if IsReclaim(outputs[|outputs| - 1]) then 1 else 0
  }

  /** How many outputs register a name. */
  function Registers(outputs: seq<Output>): nat {
    if outputs == [] then 0
    else
      Registers(outputs[..|outputs| - 1])
      + if outputs[|outputs| - 1].covenant.Register? && !outputs[|outputs| - 1].IsUnspendable() then 1 else 0
  }

  /** All outputs of a run of blocks, in order. */
  function OutputsOf(txs: seq<TX>): seq<Output> {
    if txs == [] then [] else OutputsOf(txs[..|txs| - 1]) + txs[|txs| - 1].outputs
  }

  function ChainOutputs(blocks: seq<Block>): seq<Output> {
    if blocks == [] then []
    else ChainOutputs(blocks[..|blocks| - 1]) + OutputsOf(blocks[|blocks| - 1].txs)
  }

  function ChainTXs(blocks: seq<Block>): nat {
    if blocks == [] then 0
    else ChainTXs(blocks[..|blocks| - 1]) + |blocks[|blocks| - 1].txs|
  }

  lemma {:induction false} SumsAppend(a: seq<Output>, b: seq<Output>)
    ensures Reclaimed(a + b) == Reclaimed(a) + Reclaimed(b)
    ensures Registered(a + b) == Registered(a) + Registered(b)
    ensures Reclaims(a + b) == Reclaims(a) + Reclaims(b)
    ensures Registers(a + b) == Registers(a) + Registers(b)
  {
    if b == [] {
      assert a + b == a;
    } else {
      assert (a + b)[..|a + b| - 1] == a + b[..|b| - 1];
      SumsAppend(a, b[..|b| - 1]);
    }
  }

  /** Counting outputs: what they add to the counters. */
  lemma {:induction false} AddAllCounts(stats: ChainStats, tx: TX, k: nat, coins: Coins, height: nat)
    requires k <= |tx.outputs|
    requires forall op :: op in coins ==> op.hash != tx.hash
    ensures var after := StatsAddAll(stats, tx.outputs[..k]);
            && after.tx == stats.tx
            && after.burned == stats.burned + Registered(tx.outputs[..k])
            && after.value == stats.value + Total(coins + CreatedUpTo(tx, height, k)) - Total(coins)
                              - Reclaimed(tx.outputs[..k])
            && after.coin == stats.coin + Number(coins + CreatedUpTo(tx, height, k)) - Number(coins)
                             - Reclaims(tx.outputs[..k]) + Registers(tx.outputs[..k])
  {
    hide Total, Number, CreatedUpTo;
    if k == 0 {
      assert CreatedUpTo(tx, height, 0) == map[] by { NoneCreated(tx, height); }
      assert coins + map[] == coins;
    } else {
      AddAllCounts(stats, tx, k - 1, coins, height);
      assert tx.outputs[..k][..k - 1] == tx.outputs[..k - 1];
      CreateOne(tx, k - 1, coins, height);
    }
  }

  lemma NoneCreated(tx: TX, height: nat)
    ensures CreatedUpTo(tx, height, 0) == map[]
  {
  }

  /** One more created coin. */
  lemma CreateOne(tx: TX, k: nat, coins: Coins, height: nat)
    requires k < |tx.outputs|
    requires forall op :: op in coins ==> op.hash != tx.hash
    ensures Total(coins + CreatedUpTo(tx, height, k + 1))
            == Total(coins + CreatedUpTo(tx, height, k))
               + if tx.outputs[k].IsUnspendable() then 0 else Weight(EntryAt(tx, height, k))
    ensures Number(coins + CreatedUpTo(tx, height, k + 1))
            == Number(coins + CreatedUpTo(tx, height, k))
               + if tx.outputs[k].IsUnspendable() then 0 else Single(EntryAt(tx, height, k))
  {
    hide Total, Number, CreatedUpTo;
    CreatedStep(tx, height, k);
    if !tx.outputs[k].IsUnspendable() {
      var op, e := tx.OutpointAt(k), EntryAt(tx, height, k);
      TotalWith(coins + CreatedUpTo(tx, height, k), op, e);
      NumberWith(coins + CreatedUpTo(tx, height, k), op, e);
      assert coins + CreatedUpTo(tx, height, k + 1) == (coins + CreatedUpTo(tx, height, k))[op := e];
    }
  }

  /** Counting spent coins: what they take away. */
  lemma {:induction false} SpendAllCounts(stats: ChainStats, coins: Coins, tx: TX, k: nat)
    requires k <= |tx.inputs|
    requires forall i :: 0 <= i < |tx.inputs| ==> tx.inputs[i].prevout in coins
    requires forall i, j :: 0 <= i < j < |tx.inputs| ==> tx.inputs[i].prevout != tx.inputs[j].prevout
    ensures var after := StatsSpendAll(stats, SpentFirst(coins, tx, k));
            && after.tx == stats.tx && after.burned == stats.burned
            && after.value == stats.value + Total(coins - PrevoutsFirst(tx, k)) - Total(coins)
            && after.coin == stats.coin + Number(coins - PrevoutsFirst(tx, k)) - Number(coins)
  {
    hide Total, Number;
    if k == 0 {
      assert PrevoutsFirst(tx, 0) == {};
      assert coins - {} == coins;
    } else {
      var p := tx.inputs[k - 1].prevout;
      SpendAllCounts(stats, coins, tx, k - 1);
      assert SpentFirst(coins, tx, k)[..k - 1] == SpentFirst(coins, tx, k - 1);
      assert PrevoutsFirst(tx, k) == PrevoutsFirst(tx, k - 1) + {p};
      assert p !in PrevoutsFirst(tx, k - 1);
      TotalWithout(coins - PrevoutsFirst(tx, k - 1), p);
      NumberWithout(coins - PrevoutsFirst(tx, k - 1), p);
      assert coins - PrevoutsFirst(tx, k) == coins - PrevoutsFirst(tx, k - 1) - {p};
    }
  }

  /** One transaction keeps `value - Total + Reclaimed`, `burned - Registered` and
      `coin - Number + Reclaims - Registers`. */
  lemma TxCounts(c: Context, w: Work, txs: seq<TX>, i: nat)
    requires i < |txs| && SaneAt(c.net, txs, i) && TxStep(c, w, txs, i).Accept?
    requires forall op :: op in w.coins ==> op.hash != txs[i].hash
    ensures var next := TxStep(c, w, txs, i).value;
            && next.stats.tx == w.stats.tx
            && next.stats.burned == w.stats.burned + Registered(txs[i].outputs)
            && next.stats.value - Total(next.coins) + Reclaimed(txs[i].outputs)
               == w.stats.value - Total(w.coins)
            && next.stats.coin - Number(next.coins) + Reclaims(txs[i].outputs) - Registers(txs[i].outputs)
               == w.stats.coin - Number(w.coins)
  {
    hide CoinbaseStep, SpendStep, SaneCoinbase, SaneTX, Total, Number, Reclaimed, Registered, Reclaims, Registers,
      CreatedBy,
      StatsAddAll, StatsSpendAll, SpentFirst;
    var tx, h := txs[i], c.Height();
    var k := |tx.outputs|;
    assert tx.outputs[..k] == tx.outputs;
    assert CreatedUpTo(tx, h, k) == CreatedBy(tx, h) by { AllCreated(tx, h); }
    if i == 0 {
      CoinbaseFacts(c, w, tx);
      AddAllCounts(w.stats, tx, k, w.coins, h);
    } else {
      SpendFacts(c, w, tx);
      SpendAllCounts(w.stats, w.coins, tx, |tx.inputs|);
      AddAllCounts(StatsSpendAll(w.stats, SpentBy(w.coins, tx)), tx, k, w.coins - Prevouts(tx), h);
    }
  }

  lemma AllCreated(tx: TX, height: nat)
    ensures CreatedUpTo(tx, height, |tx.outputs|) == CreatedBy(tx, height)
  {
  }

  lemma {:induction false} WorkCounts(c: Context, w: Work, txs: seq<TX>, k: nat)
    requires k <= |txs| && (forall i :: 0 <= i < |txs| ==> SaneAt(c.net, txs, i))
    requires FreshIn(w.coins, txs) && WorkAfter(c, w, txs, k).Accept?
    ensures var next := WorkAfter(c, w, txs, k).value;
            && next.stats.tx == w.stats.tx
            && next.stats.burned == w.stats.burned + Registered(OutputsOf(txs[..k]))
            && next.stats.value - Total(next.coins) + Reclaimed(OutputsOf(txs[..k]))
               == w.stats.value - Total(w.coins)
            && next.stats.coin - Number(next.coins) + Reclaims(OutputsOf(txs[..k])) - Registers(OutputsOf(txs[..k]))
               == w.stats.coin - Number(w.coins)
  {
    hide TxStep, Total, Number, SaneAt;
    if k == 0 {
      assert txs[..0] == [];
    } else {
      WorkCounts(c, w, txs, k - 1);
      var mid := WorkAfter(c, w, txs, k - 1).value;
      forall op | op in mid.coins
        ensures op.hash != txs[k - 1].hash
      {
        WorkCoins(c, w, txs, k - 1, op);
      }
      TxCounts(c, mid, txs, k - 1);
      assert txs[..k][..k - 1] == txs[..k - 1];
      SumsAppend(OutputsOf(txs[..k - 1]), txs[k - 1].outputs);
    }
  }

  lemma BlockCounts(net: Network, before: LedgerState, block: Block)
    requires ConnectBlock(net, before, block).Accept?
    ensures var after := ConnectBlock(net, before, block).value;
            && after.stats.tx == before.stats.tx + |block.txs|
            && after.stats.burned == before.stats.burned + Registered(OutputsOf(block.txs))
            && after.stats.value - Total(after.coins) + Reclaimed(OutputsOf(block.txs))
               == before.stats.value - Total(before.coins)
            && after.stats.coin - Number(after.coins) + Reclaims(OutputsOf(block.txs)) - Registers(OutputsOf(block.txs))
               == before.stats.coin - Number(before.coins)
  {
    hide WorkAfter, Total, Number, Reclaimed, Registered, Reclaims, Registers;
    SaneTxs(net, before, block);
    WorkCounts(ContextOf(net, before), WorkOf(before, block), block.txs, |block.txs|);
    assert block.txs[..|block.txs|] == block.txs;
  }

  /** On every chain: `value` is the total of the unspent coins outside
      REGISTER..REVOKE less the re-claims ever connected, `burned` is everything
      ever registered, `coin` counts those coins with the re-claims left out and
      every registration in, and `tx` counts the transactions. */
  lemma {:induction false} SupplyAccounts(net: Network, blocks: seq<Block>)
    requires Replay(net, blocks).Accept?
    ensures var ledger := Replay(net, blocks).value;
            && ledger.stats.value == Total(ledger.coins) - Reclaimed(ChainOutputs(blocks))
            && ledger.stats.burned == Registered(ChainOutputs(blocks))
            && ledger.stats.coin == Number(ledger.coins) - Reclaims(ChainOutputs(blocks)) + Registers(ChainOutputs(blocks))
            && ledger.stats.tx == ChainTXs(blocks)
  {
    hide ConnectBlock;
    if blocks != [] {
      var init, last := blocks[..|blocks| - 1], blocks[|blocks| - 1];
      SupplyAccounts(net, init);
      BlockCounts(net, Replay(net, init).value, last);
      SumsAppend(ChainOutputs(init), OutputsOf(last.txs));
    }
  }

  /** The last height at or below `tip` at which the tree is committed. */
  function Boundary(tip: nat, interval: nat): (b: nat)
    requires interval >= 1
    ensures b <= tip && b % interval == 0
    ensures forall h :: b < h <= tip ==> h % interval != 0
  {
    if tip % interval == 0 then tip else Boundary(tip - 1, interval)
  }

  lemma ConnectTree(net: Network, before: LedgerState, block: Block)
    requires ConnectBlock(net, before, block).Accept?
    ensures var after := ConnectBlock(net, before, block).value;
            && after.main == before.main + [block.hash]
            && block.treeRoot == before.tree
            && after.tree == if |before.main| % net.names.treeInterval == 0 then after.names else before.tree
  {
    hide WorkAfter, SaneBlock;
  }

  /** The committed tree is the name map after the last interval boundary, so
      the root a block has to carry depends only on the chain below it. */
  lemma {:induction false} CommittedTree(net: Network, blocks: seq<Block>)
    requires Replay(net, blocks).Accept? && blocks != []
    ensures var b := Boundary(|blocks| - 1, net.names.treeInterval);
            && Replay(net, blocks[..b + 1]).Accept?
            && Replay(net, blocks).value.tree == Replay(net, blocks[..b + 1]).value.names
  {
    hide ConnectBlock;
    var init, last, tip := blocks[..|blocks| - 1], blocks[|blocks| - 1], |blocks| - 1;
    var before := Replay(net, init).value;
    MainLength(net, init);
    ConnectTree(net, before, last);
    var b := Boundary(tip, net.names.treeInterval);
    if tip % net.names.treeInterval == 0 {
      assert blocks[..b + 1] == blocks;
    } else {
      CommittedTree(net, init);
      assert blocks[..b + 1] == init[..b + 1];
    }
  }

  lemma {:induction false} MainLength(net: Network, blocks: seq<Block>)
    requires Replay(net, blocks).Accept?
    ensures |Replay(net, blocks).value.main| == |blocks|
  {
    hide ConnectBlock;
    if blocks != [] {
      var init := blocks[..|blocks| - 1];
      MainLength(net, init);
      ConnectTree(net, Replay(net, init).value, blocks[|blocks| - 1]);
    }
  }
}
