/**
 The names of a chain and their stored form: every reachable record has the widths
 it is stored in, and so has every delta that leads back to one.
 */
module StoredNames {
  import opened Primitives
  import opened Names
  import opened Ledger
  import opened Auction
  import opened Ownership
  import opened Views
  import StoredCoins
  import Codecs

  /** Heights up to `h`, amounts that exist, and at most one renewal a block: each
      one is later than the last, and follows the TRANSFER before it. */
  predicate RecBounded(h: nat, r: NameRec) {
    && |r.name| <= 63 && |r.data| <= 512
    && r.height <= h && r.renewal <= h && r.transfer <= h && r.revoked <= h && r.claimed <= h
    && r.owner.index < WORD && r.value <= MAX_MONEY && r.highest <= MAX_MONEY
    && r.renewals <= r.renewal && (r.transfer != 0 ==> r.renewal <= r.transfer)
  }

  ghost predicate NamesBounded(h: nat, names: NameMap) {
    forall n :: n in names ==> RecBounded(h, names[n])
  }

  lemma PreparedBounded(c: Context, names: NameMap, cov: Covenant, r: NameRec)
    requires cov.IsName() && cov.Fits() && NamesBounded(c.Height(), names)
    requires Prepare(c, Find(names, cov.nameHash), cov) == Accept(r)
    ensures RecBounded(c.Height(), r)
  {
  }

  lemma ClaimBounded(c: Context, r: NameRec, output: Output, op: Outpoint)
    requires output.covenant.Claim? && op.index < WORD
    requires NameOk(c.net.names, c.Height(), r) && RecBounded(c.Height(), r)
    ensures ClaimRule(c, r, output, op).Accept? ==> RecBounded(c.Height(), ClaimRule(c, r, output, op).value)
  {
  }

  lemma RegisterBounded(c: Context, r: NameRec, output: Output, op: Outpoint, prevout: Outpoint)
    requires output.covenant.Register? && output.Fits() && op.index < WORD && r.transfer == 0
    requires RecBounded(c.Height(), r)
    ensures var result := RegisterRule(c, r, output, op, prevout);
            result.Accept? ==> RecBounded(c.Height(), result.value)
  {
    hide VerifyRenewal;
  }

  lemma OwnerBounded(c: Context, r: NameRec, cov: Covenant, op: Outpoint)
    requires cov.Fits() && op.index < WORD && RecBounded(c.Height(), r)
    requires cov.Update? || cov.Renew? || cov.Transfer? || cov.Finalize?
    ensures var result := OwnerRule(c, r, cov, op);
            result.Accept? ==> RecBounded(c.Height(), result.value)
  {
    hide VerifyRenewal;
  }

  lemma OtherBounded(c: Context, r: NameRec, tx: TX, i: nat)
    requires i < |tx.outputs| && tx.outputs[i].covenant.IsName() && tx.outputs[i].Fits() && i < WORD
    requires RecBounded(c.Height(), r)
    requires var cov := tx.outputs[i].covenant;
             cov.Open? || cov.Bid? || cov.Reveal? || cov.Redeem? || cov.Revoke?
    ensures PreparedRule(c, r, tx, i).Accept? ==> RecBounded(c.Height(), PreparedRule(c, r, tx, i).value)
  {
    hide IsReserved;
  }

  /** Each rule keeps the bounds. */
  lemma RuleBounded(c: Context, r: NameRec, tx: TX, i: nat)
    requires i < |tx.outputs| < 0xffff_ffff && tx.outputs[i].covenant.IsName() && tx.outputs[i].Fits()
    requires NameOk(c.net.names, c.Height(), r) && RecBounded(c.Height(), r)
    requires tx.outputs[i].covenant.Register? ==> r.transfer == 0
    ensures PreparedRule(c, r, tx, i).Accept? ==> RecBounded(c.Height(), PreparedRule(c, r, tx, i).value)
  {
    hide ClaimRule, RegisterRule, UpdateRule, RenewRule, TransferRule, FinalizeRule, RevokeRule, RedeemRule, RevealRule,
      BidRule, OpenRule, RecBounded, NameOk;
    var output, op := tx.outputs[i], tx.OutpointAt(i);
    var cov := output.covenant;
    if cov.Claim? {
      ClaimBounded(c, r, output, op);
    } else if cov.Register? {
      if i < |tx.inputs| { RegisterBounded(c, r, output, op, tx.inputs[i].prevout); }
    } else if cov.Update? || cov.Renew? || cov.Transfer? || cov.Finalize? {
      OwnerBounded(c, r, cov, op);
    } else {
      OtherBounded(c, r, tx, i);
    }
  }

  /** A REGISTER that is accepted spends the coin of a name not registered yet, for
      which no transfer is pending. */
  lemma NoTransferPending(c: Context, coins: Coins, names: NameMap, outs: map<Outpoint, Output>, tx: TX, i: nat)
    requires Inv(c.net.names, c.Height(), coins, names, outs)
    requires i < |tx.outputs| && i < |tx.inputs| && !tx.IsCoinbase() && tx.inputs[i].prevout in coins
    requires tx.outputs[i].covenant.Register? && tx.outputs[i].covenant.nameHash in names
    requires !tx.inputs[i].prevout.IsNull()
    requires LinkRule(c.net, coins[tx.inputs[i].prevout].output, Some(tx.outputs[i])).Accept?
    requires PreparedRule(c, names[tx.outputs[i].covenant.nameHash], tx, i).Accept?
    ensures names[tx.outputs[i].covenant.nameHash].transfer == 0
  {
    hide VerifyRenewal;
    var n := tx.outputs[i].covenant.nameHash;
    assert NameOk(c.net.names, c.Height(), names[n]) && OwnerOk(n, names[n], coins, outs);
  }

  lemma OutputBounded(c: Context, coins: Coins, names: NameMap, outs: map<Outpoint, Output>, tx: TX, i: nat)
    requires i < |tx.outputs| < 0xffff_ffff && tx.outputs[i].Fits()
    requires Inv(c.net.names, c.Height(), coins, names, outs) && NamesBounded(c.Height(), names)
    requires tx.outputs[i].covenant.IsName() ==> 1 <= c.Height()
    requires forall j :: 0 <= j < |tx.inputs| && !tx.IsCoinbase() ==> !tx.inputs[j].prevout.IsNull()
    requires tx.outputs[i].covenant.IsLinked() ==> !tx.IsCoinbase() && i < |tx.inputs|
    requires SpentAt(tx, i).Some? ==>
               && tx.inputs[i].prevout in coins
               && LinkRule(c.net, coins[tx.inputs[i].prevout].output, Some(tx.outputs[i])).Accept?
    requires OutputStep(c, names, tx, i).Accept?
    ensures NamesBounded(c.Height(), OutputStep(c, names, tx, i).value)
  {
    hide LinkRule, RecBounded, PreparedRule, Prepare, Output.Fits;
    var cov := tx.outputs[i].covenant;
    if cov.IsName() {
      var n := cov.nameHash;
      PrepareKeepsInv(c, coins, names, outs, cov);
      var r := Prepare(c, Find(names, n), cov).value;
      var names' := names[n := r];
      PreparedBounded(c, names, cov, r) by { OutputParts(tx.outputs[i]); }
      assert NameOk(c.net.names, c.Height(), names'[n]);
      if cov.Register? { NoTransferPending(c, coins, names', outs, tx, i); }
      RuleBounded(c, r, tx, i);
    }
  }

  lemma OutputParts(output: Output)
    requires output.Fits()
    ensures output.covenant.Fits()
  {
  }

  lemma {:induction false} OutputsBounded(c: Context, coins: Coins, names: NameMap, outs: map<Outpoint, Output>,
                                          tx: TX, k: nat)
    requires k <= |tx.outputs| && StoredCoins.TxFits(tx)
    requires Inv(c.net.names, c.Height(), coins, names, outs) && NamesBounded(c.Height(), names)
    requires TxReady(c, coins, outs, tx)
    requires NamesAfter(c, names, tx, k).Accept?
    ensures NamesBounded(c.Height(), NamesAfter(c, names, tx, k).value)
  {
    hide Inv, NamesBounded, PairCoins, TxReady, LinkRule, OutputStep, Output.Fits;
    if k > 0 {
      var i := k - 1;
      OutputsBounded(c, coins, names, outs, tx, i);
      OutputsKeepInv(c, coins, names, outs, tx, i);
      TxReadyAt(c, coins, outs, tx, i);
      FewOutputs(c, coins, outs, tx);
      OutputBounded(c, PairCoins(coins, tx, c.Height(), i), NamesAfter(c, names, tx, i).value,
                    outs + OutsUpTo(tx, i), tx, i);
    }
  }

  lemma FewOutputs(c: Context, coins: Coins, outs: map<Outpoint, Output>, tx: TX)
    requires TxReady(c, coins, outs, tx)
    ensures |tx.outputs| < 0xffff_ffff
  {
  }

  lemma StepBounded(c: Context, w: Work, outs: map<Outpoint, Output>, txs: seq<TX>, i: nat)
    requires i < |txs| && SaneAt(c.net, txs, i) && StoredCoins.TxFits(txs[i])
    requires Inv(c.net.names, c.Height(), w.coins, w.names, outs) && NamesBounded(c.Height(), w.names)
    requires FreshFor(outs, w.coins, txs[i])
    requires forall j :: 0 <= j < |txs[i].outputs| && txs[i].outputs[j].covenant.IsName() ==> 1 <= c.Height()
    requires TxStep(c, w, txs, i).Accept?
    ensures NamesBounded(c.Height(), TxStep(c, w, txs, i).value.names)
  {
    hide Inv, NamesBounded, LinkRule, NamesAfter, LinksAfter, CreatedBy, BitsAfter, StoredCoins.TxFits;
    if i > 0 {
      LinksHold(c.net, w.coins, txs[i], |txs[i].inputs|);
    }
    assert TxReady(c, w.coins, outs, txs[i]);
    OutputsBounded(c, w.coins, w.names, outs, txs[i], |txs[i].outputs|);
  }

  lemma {:induction false} WorkBounded(c: Context, w: Work, outs: map<Outpoint, Output>, txs: seq<TX>, k: nat)
    requires k <= |txs|
    requires forall i :: 0 <= i < |txs| ==> SaneAt(c.net, txs, i) && StoredCoins.TxFits(txs[i])
    requires Inv(c.net.names, c.Height(), w.coins, w.names, outs) && NamesBounded(c.Height(), w.names)
    requires FreshTxs(outs, w.coins, txs)
    requires forall i, j :: 0 <= i < |txs| && 0 <= j < |txs[i].outputs| && txs[i].outputs[j].covenant.IsName()
               ==> 1 <= c.Height()
    requires WorkAfter(c, w, txs, k).Accept?
    ensures NamesBounded(c.Height(), WorkAfter(c, w, txs, k).value.names)
  {
    hide Inv, NamesBounded, TxStep, SaneAt, StoredCoins.TxFits;
    if k > 0 {
      var i := k - 1;
      WorkBounded(c, w, outs, txs, i);
      WorkKeepsInv(c, w, outs, txs, i);
      var mid, outs' := WorkAfter(c, w, txs, i).value, OutsAfter(outs, txs, i);
      forall op | op in outs' ensures op.hash != txs[i].hash {
        OutsFromTxs(outs, txs, i, op);
      }
      CoinsAreOuts(c.net.names, c.Height(), mid.coins, mid.names, outs');
      StepBounded(c, mid, outs', txs, i);
    }
  }

  lemma BlockBounded(net: Network, before: LedgerState, init: seq<Block>, last: Block)
    requires UniqueTxids(init + [last])
    requires Inv(net.names, |before.main|, before.coins, before.names, AllOutputs(init))
    requires NamesBounded(|before.main|, before.names)
    requires ConnectBlock(net, before, last).Accept?
    ensures NamesBounded(|before.main|, ConnectBlock(net, before, last).value.names)
  {
    hide Inv, NamesBounded, WorkAfter, FreshTxs, StoredCoins.TxFits;
    FreshBlock(net, before, last, init);
    SaneBlockTxs(net, before, last);
    StoredCoins.BlockTxsFit(net, before, last);
    WorkBounded(ContextOf(net, before), WorkOf(before, last), AllOutputs(init), last.txs, |last.txs|);
  }

  lemma BoundedMore(h: nat, h': nat, names: NameMap)
    requires NamesBounded(h, names) && h <= h'
    ensures NamesBounded(h', names)
  {
  }

  /** On every chain the bounds hold with its number of blocks. */
  lemma {:induction false} ReachableNames(net: Network, blocks: seq<Block>)
    requires UniqueTxids(blocks) && Replay(net, blocks).Accept?
    ensures NamesBounded(|blocks|, Replay(net, blocks).value.names)
  {
    hide *;
    if blocks == [] {
      NoNames(net);
    } else {
      var init, last := blocks[..|blocks| - 1], blocks[|blocks| - 1];
      assert init + [last] == blocks;
      ChainStep(net, blocks, init, last);
      ReachableNames(net, init);
      ReachableInvNext(net, init);
      ReachableLength(net, init);
      BlockBounded(net, Replay(net, init).value, init, last);
      BoundedMore(|init|, |blocks|, Replay(net, blocks).value.names);
    }
  }

  lemma NoNames(net: Network)
    ensures Replay(net, []).Accept? && NamesBounded(0, Replay(net, []).value.names)
  {
  }

  lemma ReachableLength(net: Network, blocks: seq<Block>)
    requires UniqueTxids(blocks) && Replay(net, blocks).Accept?
    ensures |Replay(net, blocks).value.main| == |blocks|
  {
    ReachableInv(net, blocks);
  }

  /** Every name of a chain comes back from its stored form while heights have 32
      bits. */
  lemma NamesReadBack(net: Network, blocks: seq<Block>, n: Hash, rest: Bytes)
    requires UniqueTxids(blocks) && Replay(net, blocks).Accept? && |blocks| < WORD
    requires n in Replay(net, blocks).value.names
    ensures var r := Replay(net, blocks).value.names[n];
            Codecs.ReadName(Codecs.WriteName(r, rest)) == Codecs.Got(r, rest)
  {
    hide Replay, Codecs.ReadName, Codecs.WriteName;
    ReachableNames(net, blocks);
    Codecs.NameRoundTrip(Replay(net, blocks).value.names[n], rest);
  }

  /** So does every delta that a block records against such a chain. */
  lemma DeltasReadBack(net: Network, blocks: seq<Block>, m: map<Hash, Tracked>, n: Hash, rest: Bytes)
    requires UniqueTxids(blocks) && Replay(net, blocks).Accept? && |blocks| < WORD
    requires TrackedOk(Replay(net, blocks).value.names, m) && n in m
    ensures Codecs.ReadDelta(Codecs.WriteDelta(m[n].delta, rest)) == Codecs.Got(m[n].delta, rest)
  {
    hide Replay, Codecs.ReadDelta, Codecs.WriteDelta;
    ReachableNames(net, blocks);
    var names := Replay(net, blocks).value.names;
    assert ApplyDelta(m[n].rec, m[n].delta) == Find(names, n).(name := m[n].rec.name);
    DeltaBounded(m[n].rec, m[n].delta, Find(names, n));
    Codecs.DeltaRoundTrip(m[n].delta, rest);
  }

  /** A delta holds values of the record it leads back to. */
  lemma DeltaBounded(rec: NameRec, delta: NameDelta, before: NameRec)
    requires ApplyDelta(rec, delta) == before.(name := rec.name)
    requires before == NULL_REC || exists h: nat :: h < WORD && RecBounded(h, before)
    ensures Codecs.DeltaFits(delta)
  {
  }
}
