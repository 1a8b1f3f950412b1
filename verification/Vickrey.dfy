/**
 The price rule.  Reveals arrive one output at a time, in any transaction of
 any block; at every moment the name record holds the outcome of a second-price
 auction over the reveals made so far in the current auction.
 */
module Vickrey {
  import opened Primitives
  import opened Names
  import opened Ledger
  import opened Auction
  import opened Ownership

  datatype Created = Created(op: Outpoint, output: Output)

  predicate RevealIn(e: Created, n: Hash, height: nat) {
    e.output.covenant.Reveal? && e.output.covenant.nameHash == n && e.output.covenant.height == height
  }

  /** The reveals of one auction, in the order they were made. */
  function RevealsOf(log: seq<Created>, n: Hash, height: nat): seq<Created> {
    if log == [] then []
    else
      RevealsOf(log[..|log| - 1], n, height)
      + if RevealIn(log[|log| - 1], n, height) then [log[|log| - 1]] else []
  }

  /** `k` is the earliest of the highest reveals. */
  predicate Wins(shown: seq<Created>, k: nat) {
    && k < |shown|
    && (forall j :: 0 <= j < |shown| ==> shown[j].output.value <= shown[k].output.value)
    && (forall j :: 0 <= j < k ==> shown[j].output.value < shown[k].output.value)
  }

  /** `price` is the highest of the other reveals; nothing to pay when there is
      no other. */
  ghost predicate SecondPrice(shown: seq<Created>, k: nat, price: nat) {
    && (forall j :: 0 <= j < |shown| && j != k ==> shown[j].output.value <= price)
    && if |shown| == 1 then price == 0
       else exists j :: 0 <= j < |shown| && j != k && shown[j].output.value == price
  }

  ghost predicate Outcome(shown: seq<Created>, k: nat, r: NameRec) {
    && Wins(shown, k)
    && r.highest == shown[k].output.value
    && SecondPrice(shown, k, r.value)
    && (!r.registered ==> r.owner == shown[k].op)
  }

  ghost predicate PriceOk(net: NetworkNames, h: nat, r: NameRec, shown: seq<Created>) {
    if shown == [] then
      && r.highest == 0 && r.value == 0
      && (r.claimed == 0 ==> r.owner.IsNull())
    else
      && r.claimed == 0
      && r.height + net.OpenPeriod() + net.biddingPeriod <= h
      && exists k :: Outcome(shown, k, r)
  }

  ghost predicate PricesOk(net: NetworkNames, h: nat, names: NameMap, log: seq<Created>) {
    && (forall k :: 0 <= k < |log| && log[k].output.covenant.Reveal? ==>
          && !log[k].op.IsNull()
          && log[k].output.covenant.nameHash in names
          && log[k].output.covenant.height <= names[log[k].output.covenant.nameHash].height)
    && (forall n :: n in names ==> PriceOk(net, h, names[n], RevealsOf(log, n, names[n].height)))
  }

  lemma {:induction false} NoReveals(log: seq<Created>, n: Hash, height: nat)
    requires forall k :: 0 <= k < |log| ==> !RevealIn(log[k], n, height)
    ensures RevealsOf(log, n, height) == []
  {
    if log != [] {
      NoReveals(log[..|log| - 1], n, height);
    }
  }

  lemma {:induction false} RevealsLogged(log: seq<Created>, n: Hash, height: nat, e: Created)
    requires e in RevealsOf(log, n, height)
    ensures e in log && RevealIn(e, n, height)
  {
    if log != [] && e in RevealsOf(log[..|log| - 1], n, height) {
      RevealsLogged(log[..|log| - 1], n, height, e);
    }
  }

  lemma RevealsAppend(log: seq<Created>, e: Created, n: Hash, height: nat)
    ensures RevealsOf(log + [e], n, height)
            == RevealsOf(log, n, height) + if RevealIn(e, n, height) then [e] else []
  {
  }

  /** The heart of the auction: one more reveal updates the outcome. */
  lemma RevealOutcome(shown: seq<Created>, k: nat, r: NameRec, e: Created) returns (k': nat)
    requires Outcome(shown, k, r) && !r.registered
    ensures var v := e.output.value;
            var r' := if v > r.highest then r.(value := r.highest, owner := e.op, highest := v)
                      else if v > r.value then r.(value := v)
                      else r;
            Outcome(shown + [e], k', r')
  {
    var v, all := e.output.value, shown + [e];
    if v > r.highest {
      k' := |shown|;
      assert all[k].output.value == r.highest;
    } else {
      k' := k;
      if v > r.value || |shown| == 1 {
        assert all[|shown|].output.value == v;
      } else {
        var j :| 0 <= j < |shown| && j != k && shown[j].output.value == r.value;
        assert all[j].output.value == r.value;
      }
    }
  }

  lemma FirstReveal(r: NameRec, e: Created)
    requires !r.registered && r.highest == 0
    ensures Outcome([e], 0, r.(value := r.highest, owner := e.op, highest := e.output.value))
  {
  }

  // ---------------------------------------------------------------------
  // One output
  // ---------------------------------------------------------------------

  lemma PreparedPrices(c: Context, names: NameMap, log: seq<Created>, cov: Covenant, r: NameRec)
    requires cov.IsName()
    requires forall n :: n in names ==> NameOk(c.net.names, c.Height(), names[n])
    requires PricesOk(c.net.names, c.Height(), names, log)
    requires Prepare(c, Find(names, cov.nameHash), cov) == Accept(r)
    ensures PricesOk(c.net.names, c.Height(), names[cov.nameHash := r], log)
  {
    var n := cov.nameHash;
    if n !in names || r != names[n] {
      if n in names {
        PrepareOk(c.net.names, c.Height(), names[n]);
      }
      NoReveals(log, n, r.height);
    }
  }

  lemma ClaimPrices(c: Context, names: NameMap, log: seq<Created>, e: Created)
    requires e.output.covenant.Claim? && e.output.covenant.nameHash in names
    requires NameOk(c.net.names, c.Height(), names[e.output.covenant.nameHash])
    requires PricesOk(c.net.names, c.Height(), names, log)
    requires ClaimRule(c, names[e.output.covenant.nameHash], e.output, e.op).Accept?
    ensures var n := e.output.covenant.nameHash;
            PriceOk(c.net.names, c.Height(), ClaimRule(c, names[n], e.output, e.op).value,
                    RevealsOf(log, n, c.Height()))
  {
    var n := e.output.covenant.nameHash;
    if names[n].height < c.Height() {
      NoReveals(log, n, c.Height());
    }
  }

  lemma RevealPrice(c: Context, r: NameRec, shown: seq<Created>, e: Created)
    requires e.output.covenant.Reveal? && NameOk(c.net.names, c.Height(), r)
    requires PriceOk(c.net.names, c.Height(), r, shown)
    requires forall j :: 0 <= j < |shown| ==> !shown[j].op.IsNull()
    requires RevealRule(c, r, e.output, e.op).Accept?
    ensures PriceOk(c.net.names, c.Height(), RevealRule(c, r, e.output, e.op).value, shown + [e])
  {
    hide Outcome;
    assert !r.registered && r.claimed == 0;
    var r' := RevealRule(c, r, e.output, e.op).value;
    if shown == [] {
      FirstReveal(r, e);
      assert shown + [e] == [e];
      assert Outcome(shown + [e], 0, r');
    } else {
      var k: nat :| Outcome(shown, k, r);
      assert k < |shown| && r.owner == shown[k].op by { OutcomeOwner(shown, k, r); }
      var k' := RevealOutcome(shown, k, r, e);
      assert Outcome(shown + [e], k', r');
    }
  }

  lemma OutcomeOwner(shown: seq<Created>, k: nat, r: NameRec)
    requires Outcome(shown, k, r) && !r.registered
    ensures k < |shown| && r.owner == shown[k].op
  {
  }

  lemma RevealPrices(c: Context, names: NameMap, log: seq<Created>, e: Created)
    requires e.output.covenant.Reveal? && e.output.covenant.nameHash in names && !e.op.IsNull()
    requires NameOk(c.net.names, c.Height(), names[e.output.covenant.nameHash])
    requires PricesOk(c.net.names, c.Height(), names, log)
    requires RevealRule(c, names[e.output.covenant.nameHash], e.output, e.op).Accept?
    ensures var n := e.output.covenant.nameHash;
            PriceOk(c.net.names, c.Height(), RevealRule(c, names[n], e.output, e.op).value,
                    RevealsOf(log + [e], n, names[n].height))
  {
    hide PricesOk, PriceOk, RevealRule, RevealsOf;
    var n := e.output.covenant.nameHash;
    var shown := RevealsOf(log, n, names[n].height);
    assert RevealRule(c, names[n], e.output, e.op).Accept? ==> e.output.covenant.height == names[n].height
      by { RevealLocal(c, names[n], e); }
    RevealsAppend(log, e, n, names[n].height);
    PriceAt(c.net.names, c.Height(), names, log, n);
    forall j | 0 <= j < |shown| ensures !shown[j].op.IsNull() {
      LoggedOpsNonNull(c.net.names, c.Height(), names, log, n, names[n].height, shown[j]);
    }
    RevealPrice(c, names[n], shown, e);
  }

  lemma RevealLocal(c: Context, r: NameRec, e: Created)
    requires e.output.covenant.Reveal?
    ensures RevealRule(c, r, e.output, e.op).Accept? ==> e.output.covenant.height == r.height
  {
  }

  lemma LoggedOpsNonNull(net: NetworkNames, h: nat, names: NameMap, log: seq<Created>, n: Hash,
                         height: nat, e: Created)
    requires PricesOk(net, h, names, log)
    requires e in RevealsOf(log, n, height)
    ensures !e.op.IsNull()
  {
    RevealsLogged(log, n, height, e);
  }

  /** Every other rule leaves the outcome alone; REGISTER and later may move
      the owner, never the prices. */
  predicate SamePrices(r: NameRec, r': NameRec) {
    && r'.height == r.height && r'.claimed == r.claimed
    && r'.highest == r.highest && r'.value == r.value
    && (r' == r || (r'.registered && !r.owner.IsNull()))
  }

  lemma SamePricesOk(net: NetworkNames, h: nat, r: NameRec, r': NameRec, shown: seq<Created>)
    requires PriceOk(net, h, r, shown) && SamePrices(r, r')
    ensures PriceOk(net, h, r', shown)
  {
    if shown != [] {
      var k :| Outcome(shown, k, r);
      assert Outcome(shown, k, r');
    }
  }

  lemma OtherRules(c: Context, r0: NameRec, r: NameRec, tx: TX, i: nat, r': NameRec)
    requires i < |tx.outputs| && tx.outputs[i].covenant.IsName()
    requires !tx.outputs[i].covenant.Claim? && !tx.outputs[i].covenant.Reveal?
    requires Prepare(c, r0, tx.outputs[i].covenant) == Accept(r)
    requires i < |tx.inputs| ==> !tx.inputs[i].prevout.IsNull()
    requires tx.outputs[i].covenant.IsOwnership() && !tx.outputs[i].covenant.Register? ==> r.registered
    requires tx.outputs[i].covenant.Revoke? ==> r.registered
    requires r.registered ==> !r.owner.IsNull()
    requires OutputRule(c, r0, tx, i) == Accept(r')
    ensures SamePrices(r, r')
  {
  }

  /** A linked owner covenant finds its name registered. */
  lemma LinkedIsRegistered(c: Context, coins: Coins, names: NameMap, outs: map<Outpoint, Output>,
                           tx: TX, i: nat, r: NameRec, r': NameRec)
    requires i < |tx.outputs| && i < |tx.inputs| && !tx.IsCoinbase()
    requires Inv(c.net.names, c.Height(), coins, names, outs) && 1 <= c.Height()
    requires var cov := tx.outputs[i].covenant;
             (cov.IsOwnership() && !cov.Register?) || cov.Revoke?
    requires tx.inputs[i].prevout in coins
    requires LinkRule(c.net, coins[tx.inputs[i].prevout].output, Some(tx.outputs[i])).Accept?
    requires Prepare(c, Find(names, tx.outputs[i].covenant.nameHash), tx.outputs[i].covenant) == Accept(r)
    requires OutputRule(c, Find(names, tx.outputs[i].covenant.nameHash), tx, i) == Accept(r')
    ensures r.registered
  {
    var p := tx.inputs[i].prevout;
    PrepareKeepsInv(c, coins, names, outs, tx.outputs[i].covenant);
    var names' := names[tx.outputs[i].covenant.nameHash := r];
    assert CoinOk(names', p, coins[p].output);
    assert r.height == tx.outputs[i].covenant.height;
  }

  lemma LogStep(net: NetworkNames, h: nat, names: NameMap, log: seq<Created>, n: Hash, r: NameRec,
                e: Created)
    requires PricesOk(net, h, names, log)
    requires PriceOk(net, h, r, RevealsOf(log + [e], n, r.height))
    requires n in names ==> names[n].height <= r.height
    requires e.output.covenant.Reveal? ==>
               e.output.covenant.nameHash == n && e.output.covenant.height <= r.height && !e.op.IsNull()
    ensures PricesOk(net, h, names[n := r], log + [e])
  {
    var names', log' := names[n := r], log + [e];
    forall m | m in names'
      ensures PriceOk(net, h, names'[m], RevealsOf(log', m, names'[m].height))
    {
      if m != n {
        RevealsAppend(log, e, m, names[m].height);
        assert RevealsOf(log', m, names[m].height) == RevealsOf(log, m, names[m].height);
      }
    }
    forall k | 0 <= k < |log'| && log'[k].output.covenant.Reveal?
      ensures !log'[k].op.IsNull()
      ensures log'[k].output.covenant.nameHash in names'
      ensures log'[k].output.covenant.height <= names'[log'[k].output.covenant.nameHash].height
    {
      assert k < |log| ==> log'[k] == log[k];
    }
  }

  lemma QuietStep(net: NetworkNames, h: nat, names: NameMap, log: seq<Created>, e: Created)
    requires PricesOk(net, h, names, log)
    requires !e.output.covenant.Reveal?
    ensures PricesOk(net, h, names, log + [e])
  {
    forall m | m in names
      ensures RevealsOf(log + [e], m, names[m].height) == RevealsOf(log, m, names[m].height)
    {
      RevealsAppend(log, e, m, names[m].height);
    }
  }

  /** What a name output does to its (prepared) record. */
  lemma NamedPrices(c: Context, coins: Coins, names: NameMap, outs: map<Outpoint, Output>,
                    log: seq<Created>, tx: TX, i: nat, r: NameRec, r': NameRec)
    requires i < |tx.outputs| && tx.outputs[i].covenant.IsName()
    requires Inv(c.net.names, c.Height(), coins, names, outs) && 1 <= c.Height()
    requires PricesOk(c.net.names, c.Height(), names, log)
    requires !tx.OutpointAt(i).IsNull()
    requires forall j :: 0 <= j < |tx.inputs| && !tx.IsCoinbase() ==> !tx.inputs[j].prevout.IsNull()
    requires tx.outputs[i].covenant.IsLinked() ==> !tx.IsCoinbase() && i < |tx.inputs|
    requires SpentAt(tx, i).Some? ==>
               && tx.inputs[i].prevout in coins
               && LinkRule(c.net, coins[tx.inputs[i].prevout].output, Some(tx.outputs[i])).Accept?
    requires Prepare(c, Find(names, tx.outputs[i].covenant.nameHash), tx.outputs[i].covenant) == Accept(r)
    requires OutputRule(c, Find(names, tx.outputs[i].covenant.nameHash), tx, i) == Accept(r')
    ensures var cov := tx.outputs[i].covenant;
            && PriceOk(c.net.names, c.Height(), r',
                       RevealsOf(log + [Created(tx.OutpointAt(i), tx.outputs[i])], cov.nameHash, r'.height))
            && r.height <= r'.height
            && (cov.Reveal? ==> cov.height <= r'.height)
  {
    hide PricesOk, PriceOk, LinkRule;
    var cov, e := tx.outputs[i].covenant, Created(tx.OutpointAt(i), tx.outputs[i]);
    var n := cov.nameHash;
    var names' := names[n := r];
    PreparedPrices(c, names, log, cov, r);
    PrepareKeepsInv(c, coins, names, outs, cov);
    assert NameOk(c.net.names, c.Height(), names'[n]);
    if cov.Claim? {
      ClaimPrices(c, names', log, e);
      RevealsAppend(log, e, n, c.Height());
      assert RevealsOf(log + [e], n, c.Height()) == RevealsOf(log, n, c.Height());
    } else if cov.Reveal? {
      RevealPrices(c, names', log, e);
    } else {
      if (cov.IsOwnership() && !cov.Register?) || cov.Revoke? {
        LinkedIsRegistered(c, coins, names, outs, tx, i, r, r');
      }
      OtherRules(c, Find(names, n), r, tx, i, r');
      PriceAt(c.net.names, c.Height(), names', log, n);
      RevealsAppend(log, e, n, r.height);
      assert RevealsOf(log + [e], n, r.height) == RevealsOf(log, n, r.height);
      SamePricesOk(c.net.names, c.Height(), r, r', RevealsOf(log, n, r.height));
    }
  }

  lemma PriceAt(net: NetworkNames, h: nat, names: NameMap, log: seq<Created>, n: Hash)
    requires PricesOk(net, h, names, log) && n in names
    ensures PriceOk(net, h, names[n], RevealsOf(log, n, names[n].height))
  {
  }

  lemma OutputPrices(c: Context, coins: Coins, names: NameMap, outs: map<Outpoint, Output>,
                     log: seq<Created>, tx: TX, i: nat)
    requires i < |tx.outputs|
    requires Inv(c.net.names, c.Height(), coins, names, outs)
    requires PricesOk(c.net.names, c.Height(), names, log)
    requires tx.outputs[i].covenant.IsName() ==> 1 <= c.Height()
    requires !tx.OutpointAt(i).IsNull()
    requires forall j :: 0 <= j < |tx.inputs| && !tx.IsCoinbase() ==> !tx.inputs[j].prevout.IsNull()
    requires tx.outputs[i].covenant.IsLinked() ==> !tx.IsCoinbase() && i < |tx.inputs|
    requires SpentAt(tx, i).Some? ==>
               && tx.inputs[i].prevout in coins
               && LinkRule(c.net, coins[tx.inputs[i].prevout].output, Some(tx.outputs[i])).Accept?
    requires OutputStep(c, names, tx, i).Accept?
    ensures PricesOk(c.net.names, c.Height(), OutputStep(c, names, tx, i).value,
                     log + [Created(tx.OutpointAt(i), tx.outputs[i])])
  {
    hide PricesOk, PriceOk, LinkRule;
    var cov, e := tx.outputs[i].covenant, Created(tx.OutpointAt(i), tx.outputs[i]);
    if !cov.IsName() {
      QuietStep(c.net.names, c.Height(), names, log, e);
    } else {
      var n := cov.nameHash;
      var r := Prepare(c, Find(names, n), cov).value;
      var r' := OutputRule(c, Find(names, n), tx, i).value;
      NamedPrices(c, coins, names, outs, log, tx, i, r, r');
      if n in names {
        PrepareOk(c.net.names, c.Height(), names[n]);
      }
      LogStep(c.net.names, c.Height(), names, log, n, r', e);
    }
  }

  // ---------------------------------------------------------------------
  // Transactions, blocks, runs
  // ---------------------------------------------------------------------

  function LogUpTo(tx: TX, k: nat): seq<Created>
    requires k <= |tx.outputs|
  {
    seq(k, i requires 0 <= i < k => Created(tx.OutpointAt(i), tx.outputs[i]))
  }

  function LogAfter(log: seq<Created>, txs: seq<TX>, k: nat): seq<Created>
    requires k <= |txs|
  {
    if k == 0 then log
    else LogAfter(log, txs, k - 1) + LogUpTo(txs[k - 1], |txs[k - 1].outputs|)
  }

  /** All outputs of the chain, in order. */
  function Log(blocks: seq<Block>): seq<Created> {
    if blocks == [] then []
    else
      var last := blocks[|blocks| - 1];
      LogAfter(Log(blocks[..|blocks| - 1]), last.txs, |last.txs|)
  }

  lemma {:induction false} OutputsPrices(c: Context, coins: Coins, names: NameMap,
                                         outs: map<Outpoint, Output>, log: seq<Created>, tx: TX, k: nat)
    requires k <= |tx.outputs|
    requires Inv(c.net.names, c.Height(), coins, names, outs)
    requires PricesOk(c.net.names, c.Height(), names, log)
    requires TxReady(c, coins, outs, tx)
    requires NamesAfter(c, names, tx, k).Accept?
    ensures PricesOk(c.net.names, c.Height(), NamesAfter(c, names, tx, k).value, log + LogUpTo(tx, k))
  {
    hide Inv, PricesOk, PairCoins, TxReady, LinkRule, OutputStep;
    if k == 0 {
      assert log + LogUpTo(tx, 0) == log;
    } else {
      var i := k - 1;
      OutputsPrices(c, coins, names, outs, log, tx, i);
      OutputsKeepInv(c, coins, names, outs, tx, i);
      TxReadyAt(c, coins, outs, tx, i);
      var mid := NamesAfter(c, names, tx, i).value;
      OutputPrices(c, PairCoins(coins, tx, c.Height(), i), mid, outs + OutsUpTo(tx, i),
                   log + LogUpTo(tx, i), tx, i);
      assert log + LogUpTo(tx, i) + [Created(tx.OutpointAt(i), tx.outputs[i])] == log + LogUpTo(tx, k);
    }
  }

  lemma StepPrices(c: Context, w: Work, outs: map<Outpoint, Output>, log: seq<Created>,
                   txs: seq<TX>, i: nat)
    requires i < |txs| && SaneAt(c.net, txs, i)
    requires Inv(c.net.names, c.Height(), w.coins, w.names, outs)
    requires PricesOk(c.net.names, c.Height(), w.names, log)
    requires FreshFor(outs, w.coins, txs[i])
    requires forall j :: 0 <= j < |txs[i].outputs| && txs[i].outputs[j].covenant.IsName() ==> 1 <= c.Height()
    requires TxStep(c, w, txs, i).Accept?
    ensures PricesOk(c.net.names, c.Height(), TxStep(c, w, txs, i).value.names,
                     log + LogUpTo(txs[i], |txs[i].outputs|))
  {
    hide Inv, PricesOk, LinkRule, NamesAfter, LinksAfter, CreatedBy, BitsAfter;
    if i > 0 {
      LinksHold(c.net, w.coins, txs[i], |txs[i].inputs|);
    }
    assert TxReady(c, w.coins, outs, txs[i]);
    OutputsPrices(c, w.coins, w.names, outs, log, txs[i], |txs[i].outputs|);
  }

  lemma {:induction false} WorkPrices(c: Context, w: Work, outs: map<Outpoint, Output>,
                                      log: seq<Created>, txs: seq<TX>, k: nat)
    requires k <= |txs|
    requires forall i :: 0 <= i < |txs| ==> SaneAt(c.net, txs, i)
    requires Inv(c.net.names, c.Height(), w.coins, w.names, outs)
    requires PricesOk(c.net.names, c.Height(), w.names, log)
    requires FreshTxs(outs, w.coins, txs)
    requires forall i, j :: 0 <= i < |txs| && 0 <= j < |txs[i].outputs| && txs[i].outputs[j].covenant.IsName()
               ==> 1 <= c.Height()
    requires WorkAfter(c, w, txs, k).Accept?
    ensures PricesOk(c.net.names, c.Height(), WorkAfter(c, w, txs, k).value.names, LogAfter(log, txs, k))
  {
    hide Inv, PricesOk, TxStep, SaneAt;
    if k > 0 {
      var i := k - 1;
      WorkPrices(c, w, outs, log, txs, i);
      WorkKeepsInv(c, w, outs, txs, i);
      var mid, outs' := WorkAfter(c, w, txs, i).value, OutsAfter(outs, txs, i);
      forall op | op in outs'
        ensures op.hash != txs[i].hash
      {
        OutsFromTxs(outs, txs, i, op);
      }
      CoinsAreOuts(c.net.names, c.Height(), mid.coins, mid.names, outs');
      StepPrices(c, mid, outs', LogAfter(log, txs, i), txs, i);
    }
  }

  lemma PricesMonotone(net: NetworkNames, h: nat, h': nat, names: NameMap, log: seq<Created>)
    requires PricesOk(net, h, names, log) && h <= h'
    ensures PricesOk(net, h', names, log)
  {
  }

  function TipHeight(blocks: seq<Block>): nat {
    if blocks == [] then 0 else |blocks| - 1
  }

  lemma TipHeights(blocks: seq<Block>, init: seq<Block>)
    requires blocks != [] && init == blocks[..|blocks| - 1]
    ensures TipHeight(init) <= |init| == TipHeight(blocks)
    ensures TipHeight(init) == if init == [] then 0 else |init| - 1
  {
  }

  lemma ReplayStep(net: Network, blocks: seq<Block>, init: seq<Block>, last: Block)
    requires blocks == init + [last]
    requires UniqueTxids(blocks) && Replay(net, blocks).Accept?
    ensures UniqueTxids(init) && Replay(net, init).Accept?
    ensures ConnectBlock(net, Replay(net, init).value, last) == Replay(net, blocks)
    ensures Log(blocks) == LogAfter(Log(init), last.txs, |last.txs|)
  {
    hide ConnectBlock, LogAfter;
    assert blocks[..|blocks| - 1] == init;
  }

  lemma BlockPrices(net: Network, before: LedgerState, init: seq<Block>, last: Block)
    requires UniqueTxids(init + [last])
    requires Inv(net.names, |before.main|, before.coins, before.names, AllOutputs(init))
    requires PricesOk(net.names, |before.main|, before.names, Log(init))
    requires ConnectBlock(net, before, last).Accept?
    ensures PricesOk(net.names, |before.main|, ConnectBlock(net, before, last).value.names,
                     LogAfter(Log(init), last.txs, |last.txs|))
  {
    hide Inv, PricesOk, WorkAfter, FreshTxs, LogAfter;
    FreshBlock(net, before, last, init);
    SaneBlockTxs(net, before, last);
    WorkPrices(ContextOf(net, before), WorkOf(before, last), AllOutputs(init), Log(init), last.txs, |last.txs|);
  }

  lemma {:induction false} ReachablePrices(net: Network, blocks: seq<Block>)
    requires UniqueTxids(blocks) && Replay(net, blocks).Accept?
    ensures PricesOk(net.names, TipHeight(blocks), Replay(net, blocks).value.names, Log(blocks))
  {
    if blocks != [] {
      hide *;
      var init, last := blocks[..|blocks| - 1], blocks[|blocks| - 1];
      assert init + [last] == blocks;
      ReplayStep(net, blocks, init, last);
      ReachablePrices(net, init);
      ReachableInv(net, init);
      var before := Replay(net, init).value;
      assert TipHeight(init) <= |before.main| && TipHeight(blocks) == |before.main|
        by { TipHeights(blocks, init); }
      PricesMonotone(net.names, TipHeight(init), |before.main|, before.names, Log(init));
      InvMonotone(net.names, TipHeight(init), |before.main|, before.coins, before.names, AllOutputs(init));
      BlockPrices(net, before, init, last);
    }
  }

  /** Second-price outcome: on every chain, for every name put up for auction,
      the record holds the highest reveal, the second highest as the price, and
      (until it is registered) the earliest highest reveal as its owner. */
  lemma VickreyOutcome(net: Network, blocks: seq<Block>, n: Hash)
    requires UniqueTxids(blocks) && Replay(net, blocks).Accept?
    requires n in Replay(net, blocks).value.names
    ensures var r := Replay(net, blocks).value.names[n];
            var shown := RevealsOf(Log(blocks), n, r.height);
            if shown == [] then r.highest == 0 && r.value == 0
            else r.claimed == 0 && exists k :: Outcome(shown, k, r)
  {
    ReachablePrices(net, blocks);
    PriceAt(net.names, TipHeight(blocks), Replay(net, blocks).value.names, Log(blocks), n);
  }

  /** The value locked in a registered name is what the auction priced it at. */
  lemma OwnerPaidSecondPrice(net: Network, blocks: seq<Block>, n: Hash)
    requires UniqueTxids(blocks) && Replay(net, blocks).Accept?
    requires var r := Find(Replay(net, blocks).value.names, n);
             r.registered && r.revoked == 0 && r.claimed == 0
    ensures n in Replay(net, blocks).value.names
    ensures var r := Replay(net, blocks).value.names[n];
            var shown := RevealsOf(Log(blocks), n, r.height);
            && r.owner in AllOutputs(blocks)
            && exists k :: Wins(shown, k) && SecondPrice(shown, k, AllOutputs(blocks)[r.owner].value)
  {
    SingleOwner(net, blocks, n);
    VickreyOutcome(net, blocks, n);
    ReachablePrices(net, blocks);
    PriceAt(net.names, TipHeight(blocks), Replay(net, blocks).value.names, Log(blocks), n);
    ReachableInv(net, blocks);
    var r := Replay(net, blocks).value.names[n];
    assert NameOk(net.names, TipHeight(blocks), r);
    var shown := RevealsOf(Log(blocks), n, r.height);
    var k: nat :| Outcome(shown, k, r);
  }

  /** REGISTER takes exactly the winning reveal at the second price, REDEEM any
      other: the two rules split the reveals of a finished auction. */
  lemma RegisterOrRedeem(c: Context, r: NameRec, shown: seq<Created>, j: nat, register: Output,
                         redeem: Covenant, op: Outpoint)
    requires PriceOk(c.net.names, c.Height(), r, shown) && j < |shown|
    requires forall a, b :: 0 <= a < b < |shown| ==> shown[a].op != shown[b].op
    requires !r.registered && r.Phase(c.Height(), c.net.names) == CLOSED
    requires register.covenant.Register? && register.covenant.height == r.height
    requires VerifyRenewal(c, register.covenant.renewalBlock)
    requires redeem.Redeem? && redeem.height == r.height
    ensures RegisterRule(c, r, register, op, shown[j].op).Accept? <==>
              Wins(shown, j) && SecondPrice(shown, j, register.value)
    ensures RedeemRule(c, r, redeem, shown[j].op).Accept? <==> !Wins(shown, j)
  {
  }

  lemma SecondPriceUnique(shown: seq<Created>, k: nat, a: nat, b: nat)
    requires k < |shown| && SecondPrice(shown, k, a) && SecondPrice(shown, k, b)
    ensures a == b
  {
  }
}
