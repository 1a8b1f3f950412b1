/**
 What becomes of the reveals of an auction.  The log of a chain names every
 output once, so the reveal coins of an auction are entries of its list of
 reveals; and from the block that registers a name, the winning reveal is
 spent.  Hence REGISTER and REDEEM split the reveal coins of a chain.
 */
module Settlement {
  import opened Primitives
  import opened Names
  import opened Ledger
  import opened Auction
  import opened Ownership
  import opened Vickrey

  // ---------------------------------------------------------------------
  // The log and the outputs of the chain
  // ---------------------------------------------------------------------

  predicate Distinct(log: seq<Created>) {
    forall a, b :: 0 <= a < b < |log| ==> log[a].op != log[b].op
  }

  /** The log holds exactly the outputs of the chain, each once. */
  ghost predicate LogOk(log: seq<Created>, outs: map<Outpoint, Output>) {
    && Distinct(log)
    && (forall e :: e in log ==> e.op in outs && outs[e.op] == e.output)
    && (forall op :: op in outs ==> Created(op, outs[op]) in log)
  }

  lemma LogMove(log: seq<Created>, outs: map<Outpoint, Output>, op: Outpoint, output: Output)
    requires LogOk(log, outs) && op !in outs
    ensures LogOk(log + [Created(op, output)], outs[op := output])
  {
    var log', outs' := log + [Created(op, output)], outs[op := output];
    forall a, b | 0 <= a < b < |log'| ensures log'[a].op != log'[b].op {
      assert log[a] in log;
    }
    forall q | q in outs' ensures Created(q, outs'[q]) in log' {
      assert q != op ==> Created(q, outs[q]) in log;
      assert log'[|log|] == Created(op, output);
    }
  }

  lemma {:induction false} LogOutputs(log: seq<Created>, outs: map<Outpoint, Output>, tx: TX, k: nat)
    requires LogOk(log, outs) && k <= |tx.outputs|
    requires forall op :: op in outs ==> op.hash != tx.hash
    ensures LogOk(log + LogUpTo(tx, k), outs + OutsUpTo(tx, k))
  {
    hide LogOk, OutsUpTo;
    if k == 0 {
      OutsNone(tx);
      assert log + LogUpTo(tx, 0) == log && outs + map[] == outs;
    } else {
      LogOutputs(log, outs, tx, k - 1);
      OutsMove(outs, tx, k - 1);
      NotYetOut(outs, tx, k - 1);
      LogMove(log + LogUpTo(tx, k - 1), outs + OutsUpTo(tx, k - 1), tx.OutpointAt(k - 1), tx.outputs[k - 1]);
      assert log + LogUpTo(tx, k - 1) + [Created(tx.OutpointAt(k - 1), tx.outputs[k - 1])] == log + LogUpTo(tx, k);
    }
  }

  lemma NotYetOut(outs: map<Outpoint, Output>, tx: TX, k: nat)
    requires k < |tx.outputs| && forall op :: op in outs ==> op.hash != tx.hash
    ensures tx.OutpointAt(k) !in outs + OutsUpTo(tx, k)
  {
  }

  lemma {:induction false} LogTxs(log: seq<Created>, outs: map<Outpoint, Output>, txs: seq<TX>, k: nat)
    requires LogOk(log, outs) && k <= |txs|
    requires forall op, i :: op in outs && 0 <= i < |txs| ==> op.hash != txs[i].hash
    requires forall i, j :: 0 <= i < j < |txs| ==> txs[i].hash != txs[j].hash
    ensures LogOk(LogAfter(log, txs, k), OutsAfter(outs, txs, k))
  {
    hide LogOk, LogUpTo, OutsUpTo;
    if k > 0 {
      LogTxs(log, outs, txs, k - 1);
      forall op | op in OutsAfter(outs, txs, k - 1) ensures op.hash != txs[k - 1].hash {
        OutsFromTxs(outs, txs, k - 1, op);
      }
      LogOutputs(LogAfter(log, txs, k - 1), OutsAfter(outs, txs, k - 1), txs[k - 1], |txs[k - 1].outputs|);
    }
  }

  /** No outpoint is created twice, and the log is complete. */
  lemma {:induction false} ReachableLog(net: Network, blocks: seq<Block>)
    requires UniqueTxids(blocks) && Replay(net, blocks).Accept?
    ensures LogOk(Log(blocks), AllOutputs(blocks))
  {
    hide LogOk, LogAfter, OutsAfter, SaneBlock, WorkAfter, SaneCoinbase, SaneTX;
    if blocks == [] {
      NothingLogged();
    } else {
      var init, last := blocks[..|blocks| - 1], blocks[|blocks| - 1];
      assert init + [last] == blocks;
      ReplayStep(net, blocks, init, last);
      ReachableLog(net, init);
      var before := Replay(net, init).value;
      FreshBlock(net, before, last, init);
      LogTxs(Log(init), AllOutputs(init), last.txs, |last.txs|) by {
        FreshTxsParts(AllOutputs(init), before.coins, last.txs);
      }
    }
  }

  lemma NothingLogged()
    ensures LogOk([], map[])
  {
  }

  lemma {:induction false} RevealsDistinct(log: seq<Created>, n: Hash, height: nat)
    requires Distinct(log)
    ensures Distinct(RevealsOf(log, n, height))
  {
    if log != [] {
      var init, last := log[..|log| - 1], log[|log| - 1];
      RevealsDistinct(init, n, height);
      var shown := RevealsOf(init, n, height);
      forall a | 0 <= a < |shown| ensures shown[a].op != last.op {
        RevealsLogged(init, n, height, shown[a]);
      }
    }
  }

  lemma {:induction false} RevealsComplete(log: seq<Created>, n: Hash, height: nat, e: Created)
    requires e in log && RevealIn(e, n, height)
    ensures e in RevealsOf(log, n, height)
  {
    if e != log[|log| - 1] {
      assert e in log[..|log| - 1];
      RevealsComplete(log[..|log| - 1], n, height, e);
    }
  }

  predicate ShownAs(shown: seq<Created>, j: nat, op: Outpoint) {
    j < |shown| && shown[j].op == op
  }

  ghost predicate IsShown(shown: seq<Created>, op: Outpoint) {
    exists j: nat :: ShownAs(shown, j, op)
  }

  /** A reveal coin of an auction is one of the reveals of that auction, at one
      place. */
  lemma CoinShown(net: NetworkNames, h: nat, coins: Coins, names: NameMap, outs: map<Outpoint, Output>,
                  log: seq<Created>, op: Outpoint, n: Hash, height: nat)
    requires Inv(net, h, coins, names, outs) && LogOk(log, outs) && op in coins
    ensures var cov := coins[op].output.covenant;
            (cov.Reveal? && cov.nameHash == n && cov.height == height)
            <==> IsShown(RevealsOf(log, n, height), op)
    ensures forall j: nat, k: nat :: ShownAs(RevealsOf(log, n, height), j, op) && ShownAs(RevealsOf(log, n, height), k, op)
              ==> j == k
  {
    var e, shown := Created(op, coins[op].output), RevealsOf(log, n, height);
    RevealsDistinct(log, n, height);
    if RevealIn(e, n, height) {
      RevealsComplete(log, n, height, e);
      var j :| 0 <= j < |shown| && shown[j] == e;
      assert ShownAs(shown, j, op);
    }
    forall j: nat | ShownAs(shown, j, op) ensures RevealIn(e, n, height) {
      RevealsLogged(log, n, height, shown[j]);
    }
  }

  // ---------------------------------------------------------------------
  // The winner's coin goes when its name is registered
  // ---------------------------------------------------------------------

  ghost predicate SettledName(coins: Coins, r: NameRec, shown: seq<Created>) {
    r.registered ==> forall j: nat :: Wins(shown, j) ==> shown[j].op !in coins
  }

  ghost predicate Settled(coins: Coins, names: NameMap, log: seq<Created>) {
    forall n :: n in names ==> SettledName(coins, names[n], RevealsOf(log, n, names[n].height))
  }

  lemma SettledFewer(coins: Coins, names: NameMap, log: seq<Created>, fewer: Coins)
    requires Settled(coins, names, log) && fewer.Keys <= coins.Keys
    ensures Settled(fewer, names, log)
  {
    forall n | n in names ensures SettledName(fewer, names[n], RevealsOf(log, n, names[n].height)) {
      assert SettledName(coins, names[n], RevealsOf(log, n, names[n].height));
    }
  }

  /** Which outputs leave a name registered: those that found it so, and the
      REGISTER of its owner. */
  lemma RegisteredHow(c: Context, r0: NameRec, r: NameRec, tx: TX, i: nat, r': NameRec)
    requires i < |tx.outputs| && tx.outputs[i].covenant.IsName()
    requires NameOk(c.net.names, c.Height(), r)
    requires Prepare(c, r0, tx.outputs[i].covenant) == Accept(r)
    requires OutputRule(c, r0, tx, i) == Accept(r') && r'.registered
    ensures r'.height == r.height
    ensures !tx.outputs[i].covenant.Reveal? && !tx.outputs[i].covenant.Claim?
    ensures r.registered || (tx.outputs[i].covenant.Register? && SpentAt(tx, i) == Some(r.owner))
    ensures r.registered ==> r == r0
  {
  }

  lemma OneWinner(shown: seq<Created>, j: nat, k: nat)
    requires Wins(shown, j) && Wins(shown, k)
    ensures j == k
  {
    assert shown[j].output.value <= shown[k].output.value <= shown[j].output.value;
  }

  lemma SettledOthers(coins: Coins, names: NameMap, log: seq<Created>, outs: map<Outpoint, Output>,
                      p: Option<Outpoint>, e: Created, entry: CoinEntry, n: Hash)
    requires Settled(coins, names, log) && n in names && e.op !in outs && LogOk(log, outs)
    requires !RevealIn(e, n, names[n].height)
    ensures SettledName(Move(coins, p, e.op, entry), names[n], RevealsOf(log + [e], n, names[n].height))
  {
    var shown := RevealsOf(log, n, names[n].height);
    assert SettledName(coins, names[n], shown);
    RevealsAppend(log, e, n, names[n].height);
    assert RevealsOf(log + [e], n, names[n].height) == shown;
    forall j: nat | names[n].registered && Wins(shown, j) ensures shown[j].op !in Move(coins, p, e.op, entry) {
      RevealsLogged(log, n, names[n].height, shown[j]);
    }
  }

  /** REGISTER spends the winner. */
  lemma RegisterSettles(net: NetworkNames, h: nat, coins: Coins, r: NameRec, shown: seq<Created>,
                        op: Outpoint, entry: CoinEntry, r': NameRec)
    requires PriceOk(net, h, r, shown) && !r.registered && op != r.owner
    ensures SettledName(Move(coins, Some(r.owner), op, entry), r', shown)
  {
    if shown != [] {
      var k: nat :| Vickrey.Outcome(shown, k, r);
      forall j: nat | Wins(shown, j) ensures shown[j].op == r.owner {
        OneWinner(shown, j, k);
      }
    }
  }

  lemma OutputSettles(c: Context, coins: Coins, names: NameMap, outs: map<Outpoint, Output>,
                      log: seq<Created>, tx: TX, i: nat)
    requires i < |tx.outputs|
    requires Inv(c.net.names, c.Height(), coins, names, outs) && LogOk(log, outs)
    requires PricesOk(c.net.names, c.Height(), names, log) && Settled(coins, names, log)
    requires tx.outputs[i].covenant.IsName() ==> 1 <= c.Height()
    requires tx.OutpointAt(i) !in outs
    requires SpentAt(tx, i).Some? ==> tx.inputs[i].prevout in coins
    requires OutputStep(c, names, tx, i).Accept?
    ensures Settled(Move(coins, SpentAt(tx, i), tx.OutpointAt(i), EntryAt(tx, c.Height(), i)),
                    OutputStep(c, names, tx, i).value, log + [Created(tx.OutpointAt(i), tx.outputs[i])])
  {
    hide Inv, PricesOk, PriceOk, LogOk, Move, SettledName, Prepare, OutputRule;
    var cov, e := tx.outputs[i].covenant, Created(tx.OutpointAt(i), tx.outputs[i]);
    var coins', names' := Move(coins, SpentAt(tx, i), e.op, EntryAt(tx, c.Height(), i)), OutputStep(c, names, tx, i).value;
    forall m | m in names'
      ensures SettledName(coins', names'[m], RevealsOf(log + [e], m, names'[m].height))
    {
      if !cov.IsName() || m != cov.nameHash {
        SettledOthers(coins, names, log, outs, SpentAt(tx, i), e, EntryAt(tx, c.Height(), i), m);
      } else {
        NamedSettles(c, coins, names, outs, log, tx, i);
      }
    }
  }

  lemma NamedSettles(c: Context, coins: Coins, names: NameMap, outs: map<Outpoint, Output>,
                     log: seq<Created>, tx: TX, i: nat)
    requires i < |tx.outputs| && tx.outputs[i].covenant.IsName() && 1 <= c.Height()
    requires Inv(c.net.names, c.Height(), coins, names, outs) && LogOk(log, outs)
    requires PricesOk(c.net.names, c.Height(), names, log) && Settled(coins, names, log)
    requires tx.OutpointAt(i) !in outs
    requires SpentAt(tx, i).Some? ==> tx.inputs[i].prevout in coins
    requires OutputRule(c, Find(names, tx.outputs[i].covenant.nameHash), tx, i).Accept?
    ensures var n, e := tx.outputs[i].covenant.nameHash, Created(tx.OutpointAt(i), tx.outputs[i]);
            var r' := OutputRule(c, Find(names, n), tx, i).value;
            SettledName(Move(coins, SpentAt(tx, i), e.op, EntryAt(tx, c.Height(), i)), r',
                        RevealsOf(log + [e], n, r'.height))
  {
    var cov, e := tx.outputs[i].covenant, Created(tx.OutpointAt(i), tx.outputs[i]);
    var n, entry := cov.nameHash, EntryAt(tx, c.Height(), i);
    var r := Prepare(c, Find(names, n), cov).value;
    var r' := OutputRule(c, Find(names, n), tx, i).value;
    hide Inv, PricesOk, PriceOk, LogOk, Move, OutputRule, Settled, Prepare, Wins;
    if r'.registered {
      PrepareKeepsInv(c, coins, names, outs, cov);
      PreparedRecordOk(c, coins, names[n := r], outs, n);
      RegisteredHow(c, Find(names, n), r, tx, i, r');
      if r.registered {
        assert n in names && names[n] == r;
        SettledOthers(coins, names, log, outs, SpentAt(tx, i), e, entry, n);
      } else {
        RecordsOk(c.net.names, c.Height(), coins, names, outs);
        PreparedPrices(c, names, log, cov, r);
        PriceAt(c.net.names, c.Height(), names[n := r], log, n);
        RevealsAppend(log, e, n, r.height);
        assert RevealsOf(log + [e], n, r.height) == RevealsOf(log, n, r.height);
        CoinsAreOuts(c.net.names, c.Height(), coins, names, outs);
        RegisterSettles(c.net.names, c.Height(), coins, r, RevealsOf(log, n, r.height), e.op, entry, r');
      }
    }
  }

  lemma PreparedRecordOk(c: Context, coins: Coins, names: NameMap, outs: map<Outpoint, Output>, n: Hash)
    requires Inv(c.net.names, c.Height(), coins, names, outs) && n in names
    ensures NameOk(c.net.names, c.Height(), names[n])
  {
  }

  // ---------------------------------------------------------------------
  // Transactions, blocks, runs
  // ---------------------------------------------------------------------

  /** Everything that holds between two outputs of a chain. */
  ghost predicate Settling(net: NetworkNames, h: nat, coins: Coins, names: NameMap, outs: map<Outpoint, Output>,
                           log: seq<Created>) {
    && Inv(net, h, coins, names, outs)
    && PricesOk(net, h, names, log)
    && LogOk(log, outs)
    && Settled(coins, names, log)
  }

  lemma {:induction false} OutputsSettle(c: Context, coins: Coins, names: NameMap, outs: map<Outpoint, Output>,
                                         log: seq<Created>, tx: TX, k: nat)
    requires k <= |tx.outputs|
    requires Settling(c.net.names, c.Height(), coins, names, outs, log)
    requires TxReady(c, coins, outs, tx)
    requires NamesAfter(c, names, tx, k).Accept?
    ensures Settled(PairCoins(coins, tx, c.Height(), k), NamesAfter(c, names, tx, k).value, log + LogUpTo(tx, k))
  {
    hide Inv, PricesOk, PairCoins, TxReady, LinkRule, OutputStep, LogOk, Settled;
    if k == 0 {
      PairNone(coins, tx, c.Height());
      assert log + LogUpTo(tx, 0) == log;
    } else {
      var i := k - 1;
      OutputsSettle(c, coins, names, outs, log, tx, i);
      OutputsKeepInv(c, coins, names, outs, tx, i);
      OutputsPrices(c, coins, names, outs, log, tx, i);
      TxReadyFresh(c, coins, outs, tx);
      LogOutputs(log, outs, tx, i);
      TxReadyAt(c, coins, outs, tx, i);
      PairMove(coins, tx, c.Height(), i);
      OutputSettles(c, PairCoins(coins, tx, c.Height(), i), NamesAfter(c, names, tx, i).value,
                    outs + OutsUpTo(tx, i), log + LogUpTo(tx, i), tx, i);
      assert log + LogUpTo(tx, i) + [Created(tx.OutpointAt(i), tx.outputs[i])] == log + LogUpTo(tx, k);
    }
  }

  lemma TxReadyFresh(c: Context, coins: Coins, outs: map<Outpoint, Output>, tx: TX)
    requires TxReady(c, coins, outs, tx)
    ensures forall op :: op in outs ==> op.hash != tx.hash
    ensures forall op :: op in coins ==> op.hash != tx.hash
  {
  }

  /** The remaining inputs only take coins away. */
  lemma TxCoins(coins: Coins, tx: TX, height: nat)
    requires forall op :: op in coins ==> op.hash != tx.hash
    ensures (coins - (if tx.IsCoinbase() then {} else Prevouts(tx)) + CreatedBy(tx, height)).Keys
            <= PairCoins(coins, tx, height, |tx.outputs|).Keys
  {
    assert CreatedUpTo(tx, height, |tx.outputs|) == CreatedBy(tx, height);
    assert !tx.IsCoinbase() ==> SpentUpTo(tx, |tx.outputs|) <= Prevouts(tx);
  }

  lemma StepSettles(c: Context, w: Work, outs: map<Outpoint, Output>, log: seq<Created>, txs: seq<TX>, i: nat)
    requires i < |txs| && SaneAt(c.net, txs, i)
    requires Settling(c.net.names, c.Height(), w.coins, w.names, outs, log)
    requires FreshFor(outs, w.coins, txs[i])
    requires forall j :: 0 <= j < |txs[i].outputs| && txs[i].outputs[j].covenant.IsName() ==> 1 <= c.Height()
    requires TxStep(c, w, txs, i).Accept?
    ensures var w' := TxStep(c, w, txs, i).value;
            Settled(w'.coins, w'.names, log + LogUpTo(txs[i], |txs[i].outputs|))
  {
    hide Settling, Settled, LinkRule, NamesAfter, LinksAfter, CreatedBy, BitsAfter, Prevouts, PairCoins, LogUpTo;
    if i > 0 {
      LinksHold(c.net, w.coins, txs[i], |txs[i].inputs|);
    }
    var tx := txs[i];
    assert TxReady(c, w.coins, outs, tx);
    OutputsSettle(c, w.coins, w.names, outs, log, tx, |tx.outputs|);
    TxCoins(w.coins, tx, c.Height());
    assert w.coins - {} == w.coins;
    var w' := TxStep(c, w, txs, i).value;
    SettledFewer(PairCoins(w.coins, tx, c.Height(), |tx.outputs|), w'.names, log + LogUpTo(tx, |tx.outputs|), w'.coins);
  }

  /** At every transaction of a block. */
  lemma {:induction false} WorkSettles(c: Context, w: Work, outs: map<Outpoint, Output>, log: seq<Created>,
                                       txs: seq<TX>, k: nat)
    requires k <= |txs|
    requires forall i :: 0 <= i < |txs| ==> SaneAt(c.net, txs, i)
    requires Settling(c.net.names, c.Height(), w.coins, w.names, outs, log)
    requires FreshTxs(outs, w.coins, txs)
    requires forall i, j :: 0 <= i < |txs| && 0 <= j < |txs[i].outputs| && txs[i].outputs[j].covenant.IsName()
               ==> 1 <= c.Height()
    requires WorkAfter(c, w, txs, k).Accept?
    ensures var w' := WorkAfter(c, w, txs, k).value;
            Settling(c.net.names, c.Height(), w'.coins, w'.names, OutsAfter(outs, txs, k), LogAfter(log, txs, k))
  {
    hide Inv, PricesOk, LogOk, Settled, TxStep, SaneAt;
    if k > 0 {
      var i := k - 1;
      WorkSettles(c, w, outs, log, txs, i);
      WorkKeepsInv(c, w, outs, txs, k);
      WorkPrices(c, w, outs, log, txs, k);
      FreshTxsParts(outs, w.coins, txs);
      LogTxs(log, outs, txs, k);
      var mid, outs' := WorkAfter(c, w, txs, i).value, OutsAfter(outs, txs, i);
      forall op | op in outs' ensures op.hash != txs[i].hash {
        OutsFromTxs(outs, txs, i, op);
      }
      CoinsAreOuts(c.net.names, c.Height(), mid.coins, mid.names, outs');
      StepSettles(c, mid, outs', LogAfter(log, txs, i), txs, i);
    }
  }

  lemma SettlingMonotone(net: NetworkNames, h: nat, h': nat, coins: Coins, names: NameMap,
                         outs: map<Outpoint, Output>, log: seq<Created>)
    requires Settling(net, h, coins, names, outs, log) && h <= h'
    ensures Settling(net, h', coins, names, outs, log)
  {
    hide Inv, PricesOk, LogOk, Settled;
    InvMonotone(net, h, h', coins, names, outs);
    PricesMonotone(net, h, h', names, log);
  }

  lemma BlockSettles(net: Network, before: LedgerState, init: seq<Block>, last: Block)
    requires UniqueTxids(init + [last])
    requires Settling(net.names, |before.main|, before.coins, before.names, AllOutputs(init), Log(init))
    requires ConnectBlock(net, before, last).Accept?
    ensures var after := ConnectBlock(net, before, last).value;
            Settling(net.names, |before.main|, after.coins, after.names,
                     OutsAfter(AllOutputs(init), last.txs, |last.txs|), LogAfter(Log(init), last.txs, |last.txs|))
  {
    hide Settling, WorkAfter, FreshTxs, LogAfter, OutsAfter;
    FreshBlock(net, before, last, init);
    SaneBlockTxs(net, before, last);
    WorkSettles(ContextOf(net, before), WorkOf(before, last), AllOutputs(init), Log(init), last.txs, |last.txs|);
  }

  lemma {:induction false} ReachableSettled(net: Network, blocks: seq<Block>)
    requires UniqueTxids(blocks) && Replay(net, blocks).Accept?
    ensures var ledger := Replay(net, blocks).value;
            Settling(net.names, TipHeight(blocks), ledger.coins, ledger.names, AllOutputs(blocks), Log(blocks))
  {
    hide *;
    if blocks == [] {
      NothingSettled(net);
    } else {
      var init, last := blocks[..|blocks| - 1], blocks[|blocks| - 1];
      assert init + [last] == blocks;
      ReplayStep(net, blocks, init, last);
      ChainStep(net, blocks, init, last);
      ReachableSettled(net, init);
      var before := Replay(net, init).value;
      MainLength(net, init);
      TipHeights(blocks, init);
      SettlingMonotone(net.names, TipHeight(init), |before.main|, before.coins, before.names, AllOutputs(init),
                       Log(init));
      BlockSettles(net, before, init, last);
    }
  }

  lemma NothingSettled(net: Network)
    ensures var ledger := Replay(net, []).value;
            Replay(net, []).Accept?
            && Settling(net.names, TipHeight([]), ledger.coins, ledger.names, AllOutputs([]), Log([]))
  {
  }

  lemma MainLength(net: Network, blocks: seq<Block>)
    requires UniqueTxids(blocks) && Replay(net, blocks).Accept?
    ensures |Replay(net, blocks).value.main| == |blocks|
  {
    ReachableInv(net, blocks);
  }

  lemma SettledNext(net: Network, blocks: seq<Block>)
    requires UniqueTxids(blocks) && Replay(net, blocks).Accept?
    ensures var ledger := Replay(net, blocks).value;
            Settling(net.names, |ledger.main|, ledger.coins, ledger.names, AllOutputs(blocks), Log(blocks))
  {
    hide *;
    ReachableSettled(net, blocks);
    MainLength(net, blocks);
    ShortTip(blocks);
    var ledger := Replay(net, blocks).value;
    SettlingMonotone(net.names, TipHeight(blocks), |ledger.main|, ledger.coins, ledger.names, AllOutputs(blocks),
                     Log(blocks));
  }

  lemma ShortTip(blocks: seq<Block>)
    ensures TipHeight(blocks) <= |blocks|
  {
  }

  // ---------------------------------------------------------------------
  // REGISTER and REDEEM
  // ---------------------------------------------------------------------

  /** Output `i` spends the reveal coin `op` and may, by the link rule. */
  predicate SpendsReveal(net: Network, coins: Coins, op: Outpoint, tx: TX, i: nat) {
    && op in coins && coins[op].output.covenant.Reveal?
    && !tx.IsCoinbase() && i < |tx.inputs| && i < |tx.outputs|
    && tx.inputs[i].prevout == op
    && LinkRule(net, coins[op].output, Some(tx.outputs[i])).Accept?
  }

  /** The reveal coin is the winner's exactly while it owns the name. */
  lemma WinnerOwns(net: NetworkNames, h: nat, coins: Coins, names: NameMap, outs: map<Outpoint, Output>,
                   log: seq<Created>, op: Outpoint, j: nat)
    requires Settling(net, h, coins, names, outs, log)
    requires op in coins && coins[op].output.covenant.Reveal?
    requires coins[op].output.covenant.nameHash in names
    requires var n := coins[op].output.covenant.nameHash;
             ShownAs(RevealsOf(log, n, names[n].height), j, op)
    ensures var n := coins[op].output.covenant.nameHash;
            var r, shown := names[n], RevealsOf(log, n, names[n].height);
            && (Wins(shown, j) <==> r.owner == op)
            && (r.owner == op ==> !r.registered)
            && r.claimed == 0
            && (Wins(shown, j) ==> forall price: nat :: SecondPrice(shown, j, price) <==> price == r.value)
  {
    var n := coins[op].output.covenant.nameHash;
    var r, shown := names[n], RevealsOf(log, n, names[n].height);
    SettlingName(net, h, coins, names, outs, log, n);
    hide *;
    RevealsDistinct(log, n, r.height);
    WinnerRecord(net, h, coins, r, shown, op, j);
  }

  /** What holds for one name, and for the coins. */
  lemma SettlingName(net: NetworkNames, h: nat, coins: Coins, names: NameMap, outs: map<Outpoint, Output>,
                     log: seq<Created>, n: Hash)
    requires Settling(net, h, coins, names, outs, log) && n in names
    ensures Distinct(log)
    ensures PriceOk(net, h, names[n], RevealsOf(log, n, names[n].height))
    ensures SettledName(coins, names[n], RevealsOf(log, n, names[n].height))
    ensures names[n].registered ==> forall op :: op in coins && coins[op].output.covenant.Reveal? ==> op != names[n].owner
  {
    hide PriceOk, SettledName, RevealsOf;
    PriceAt(net, h, names, log, n);
    if names[n].registered {
      RegisteredOwner(net, h, coins, names, outs, n);
    }
  }

  lemma WinnerRecord(net: NetworkNames, h: nat, coins: Coins, r: NameRec, shown: seq<Created>, op: Outpoint, j: nat)
    requires PriceOk(net, h, r, shown) && SettledName(coins, r, shown) && Distinct(shown)
    requires op in coins && ShownAs(shown, j, op) && (r.registered ==> r.owner != op)
    ensures && (Wins(shown, j) <==> r.owner == op)
            && (r.owner == op ==> !r.registered)
            && r.claimed == 0
            && (Wins(shown, j) ==> forall price: nat :: SecondPrice(shown, j, price) <==> price == r.value)
  {
    var k: nat :| Vickrey.Outcome(shown, k, r);
    hide SecondPrice;
    if Wins(shown, j) {
      OneWinner(shown, j, k);
      forall price: nat | SecondPrice(shown, j, price) ensures price == r.value {
        SecondPriceUnique(shown, j, price, r.value);
      }
    }
  }

  lemma RegisteredOwner(net: NetworkNames, h: nat, coins: Coins, names: NameMap, outs: map<Outpoint, Output>, n: Hash)
    requires Inv(net, h, coins, names, outs) && n in names && names[n].registered
    ensures names[n].owner in outs && outs[names[n].owner].covenant.IsOwnership()
    ensures forall op :: op in coins ==> op in outs && outs[op] == coins[op].output
  {
    assert NameOk(net, h, names[n]) && OwnerOk(n, names[n], coins, outs);
  }

  /** REGISTER is accepted for the winner at the second price, REDEEM for the
      other reveals, while the auction they belong to is finished and has not
      expired. */
  ghost predicate Spends(c: Context, r: NameRec, shown: seq<Created>, op: Outpoint, tx: TX, i: nat)
    requires i < |tx.outputs|
  {
    var output, h := tx.outputs[i], c.Height();
    var cov, phase := output.covenant, r.Phase(c.Height(), c.net.names);
    && (cov.Register? ==>
          (OutputRule(c, r, tx, i).Accept? <==>
             && phase == CLOSED && !r.IsExpired(h, c.net.names) && VerifyRenewal(c, cov.renewalBlock)
             && exists j: nat :: ShownAs(shown, j, op) && Wins(shown, j) && SecondPrice(shown, j, output.value)))
    && (cov.Redeem? ==>
          (OutputRule(c, r, tx, i).Accept? <==>
             && (phase == CLOSED || phase == REVOKED) && !r.IsExpired(h, c.net.names)
             && exists j: nat :: ShownAs(shown, j, op) && !Wins(shown, j)))
  }

  /** What the link rule makes of the covenants after a REVEAL. */
  lemma RevealLinks(net: Network, coins: Coins, op: Outpoint, tx: TX, i: nat)
    requires SpendsReveal(net, coins, op, tx, i)
    ensures op in coins && coins[op].output.covenant.Reveal?
    ensures !tx.IsCoinbase() && i < |tx.inputs| && i < |tx.outputs| && tx.inputs[i].prevout == op
    ensures var coin, cov := coins[op].output.covenant, tx.outputs[i].covenant;
            (cov.Register? || cov.Redeem?) && cov.nameHash == coin.nameHash && cov.height == coin.height
  {
  }

  /** The reveal of an earlier auction can no longer be used. */
  lemma SpendsOld(c: Context, r: NameRec, shown: seq<Created>, op: Outpoint, tx: TX, i: nat)
    requires NameOk(c.net.names, c.Height(), r)
    requires !tx.IsCoinbase() && i < |tx.inputs| && i < |tx.outputs|
    requires tx.outputs[i].covenant.Register? || tx.outputs[i].covenant.Redeem?
    requires tx.outputs[i].covenant.height < r.height
    requires !IsShown(shown, op)
    ensures Spends(c, r, shown, op, tx, i)
  {
    hide Wins, SecondPrice, VerifyRenewal, ShownAs;
  }

  lemma SpendsCurrent(c: Context, r: NameRec, shown: seq<Created>, op: Outpoint, tx: TX, i: nat, j: nat)
    requires NameOk(c.net.names, c.Height(), r)
    requires !tx.IsCoinbase() && i < |tx.inputs| && i < |tx.outputs| && tx.inputs[i].prevout == op
    requires tx.outputs[i].covenant.Register? || tx.outputs[i].covenant.Redeem?
    requires tx.outputs[i].covenant.height == r.height
    requires ShownAs(shown, j, op) && forall k: nat :: ShownAs(shown, k, op) ==> k == j
    requires (Wins(shown, j) <==> r.owner == op) && r.claimed == 0
    requires Wins(shown, j) ==> forall price: nat :: SecondPrice(shown, j, price) <==> price == r.value
    ensures Spends(c, r, shown, op, tx, i)
  {
    hide Wins, SecondPrice, VerifyRenewal, ShownAs;
    PrepareOk(c.net.names, c.Height(), r);
  }

  /** One output that spends a reveal coin, at any point of a chain. */
  lemma RevealSpent(c: Context, coins: Coins, names: NameMap, outs: map<Outpoint, Output>, log: seq<Created>,
                    op: Outpoint, tx: TX, i: nat)
    requires Settling(c.net.names, c.Height(), coins, names, outs, log)
    requires SpendsReveal(c.net, coins, op, tx, i)
    ensures coins[op].output.covenant.nameHash in names
    ensures var n := coins[op].output.covenant.nameHash;
            Spends(c, names[n], RevealsOf(log, n, names[n].height), op, tx, i)
  {
    var cov := coins[op].output.covenant;
    var n := cov.nameHash;
    RevealLinks(c.net, coins, op, tx, i);
    assert Inv(c.net.names, c.Height(), coins, names, outs) && LogOk(log, outs);
    hide *;
    CoinCommits(c.net.names, c.Height(), coins, names, outs, op);
    var r, shown := names[n], RevealsOf(log, n, names[n].height);
    CoinShown(c.net.names, c.Height(), coins, names, outs, log, op, n, r.height);
    if cov.height == r.height {
      var j := PlaceShown(shown, op);
      WinnerOwns(c.net.names, c.Height(), coins, names, outs, log, op, j);
      SpendsCurrent(c, r, shown, op, tx, i, j);
    } else {
      SpendsOld(c, r, shown, op, tx, i);
    }
  }

  lemma PlaceShown(shown: seq<Created>, op: Outpoint) returns (j: nat)
    requires IsShown(shown, op)
    ensures ShownAs(shown, j, op)
  {
    j :| ShownAs(shown, j, op);
  }

  lemma CoinCommits(net: NetworkNames, h: nat, coins: Coins, names: NameMap, outs: map<Outpoint, Output>, op: Outpoint)
    requires Inv(net, h, coins, names, outs) && op in coins && coins[op].output.covenant.Reveal?
    ensures var cov := coins[op].output.covenant;
            cov.nameHash in names && cov.height <= names[cov.nameHash].height && NameOk(net, h, names[cov.nameHash])
  {
    assert CoinOk(names, op, coins[op].output);
  }

  /** On every chain, for every reveal coin and every output that the link rule
      lets it be spent into next: REGISTER is possible exactly for the winner at the
      second price, REDEEM exactly for the others. */
  lemma RegisterOrRedeemCoins(net: Network, blocks: seq<Block>, op: Outpoint, tx: TX, i: nat)
    requires UniqueTxids(blocks) && Replay(net, blocks).Accept?
    requires SpendsReveal(net, Replay(net, blocks).value.coins, op, tx, i)
    ensures var ledger := Replay(net, blocks).value;
            var n := ledger.coins[op].output.covenant.nameHash;
            && n in ledger.names
            && Spends(ContextOf(net, ledger), ledger.names[n], RevealsOf(Log(blocks), n, ledger.names[n].height),
                      op, tx, i)
  {
    hide Settling, Spends, SpendsReveal;
    SettledNext(net, blocks);
    var ledger := Replay(net, blocks).value;
    RevealSpent(ContextOf(net, ledger), ledger.coins, ledger.names, AllOutputs(blocks), Log(blocks), op, tx, i);
  }

  /** The same at every transaction of a block on top of a chain. */
  lemma RegisterOrRedeemInBlock(net: Network, blocks: seq<Block>, block: Block, k: nat, op: Outpoint, tx: TX, i: nat)
    requires UniqueTxids(blocks + [block]) && Replay(net, blocks).Accept?
    requires SaneBlock(net, Replay(net, blocks).value, block) && k <= |block.txs|
    requires forall i :: 0 <= i < |block.txs| ==> SaneAt(net, block.txs, i)
    requires var ledger := Replay(net, blocks).value;
             var w := WorkAfter(ContextOf(net, ledger), WorkOf(ledger, block), block.txs, k);
             w.Accept? && SpendsReveal(net, w.value.coins, op, tx, i)
    ensures var ledger := Replay(net, blocks).value;
            var c := ContextOf(net, ledger);
            var w := WorkAfter(c, WorkOf(ledger, block), block.txs, k).value;
            var n := w.coins[op].output.covenant.nameHash;
            && n in w.names
            && Spends(c, w.names[n], RevealsOf(LogAfter(Log(blocks), block.txs, k), n, w.names[n].height), op, tx, i)
  {
    hide Settling, Spends, SpendsReveal, WorkAfter;
    assert (blocks + [block])[..|blocks|] == blocks;
    SettledNext(net, blocks);
    var ledger := Replay(net, blocks).value;
    var c := ContextOf(net, ledger);
    FreshBlock(net, ledger, block, blocks);
    SaneBlockTxs(net, ledger, block);
    WorkSettles(c, WorkOf(ledger, block), AllOutputs(blocks), Log(blocks), block.txs, k);
    var w := WorkAfter(c, WorkOf(ledger, block), block.txs, k).value;
    RevealSpent(c, w.coins, w.names, OutsAfter(AllOutputs(blocks), block.txs, k), LogAfter(Log(blocks), block.txs, k),
                op, tx, i);
  }
}
