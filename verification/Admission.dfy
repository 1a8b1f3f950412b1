/**
 When a name output is let into a block, in heights: for every covenant, the exact
 conditions on the record of its name, on every chain.
 */
module Admission {
  import opened Primitives
  import opened Names
  import opened Ledger
  import opened Auction
  import opened Ownership
  import opened Spending
  import opened Airdrops

  /** The height at which the auction, or the lockup of a claim, is over. */
  function End(net: NetworkNames, r: NameRec): nat {
    r.height + if r.claimed != 0 then net.lockupPeriod
               else net.treeInterval + 1 + net.biddingPeriod + net.revealPeriod
  }

  /** The name is free again: some time after a REVOKE; or after its last renewal,
      or at once if nobody won it, but not while its claim is protected. */
  predicate Lapsed(net: NetworkNames, r: NameRec, h: nat) {
    if r.revoked != 0 then h >= r.revoked + net.auctionMaturity
    else
      && h >= End(net, r)
      && (h >= r.renewal + net.renewalWindow || r.owner.IsNull())
      && (r.claimed == 0 || net.noReserved || h >= net.claimPeriod)
  }

  /** The auction of `height` goes on, or its outcome stands. */
  predicate Stands(net: NetworkNames, names: NameMap, n: Hash, height: nat, h: nat) {
    n in names && names[n].height == height && !Lapsed(net, names[n], h)
  }

  /** The hash is that of a block of the chain, neither too young nor too old. */
  predicate Renews(net: NetworkNames, main: seq<Hash>, hash: Hash) {
    var h := |main|;
    || h < net.renewalMaturity
    || exists j :: 0 <= j < h && main[j] == hash && j + net.renewalMaturity <= h <= j + net.renewalPeriod
  }

  /** A name on the reserved list, while the list is in force. */
  predicate Listed(net: Network, n: Hash, h: nat) {
    n in net.reserved && !net.names.noReserved && h < net.names.claimPeriod
  }

  predicate OpenAdmitted(c: Context, names: NameMap, cov: Covenant)
    requires cov.Open?
  {
    var n, h := cov.nameHash, c.Height();
    var again := n in names && (Lapsed(c.net.names, names[n], h) || names[n].expired);
    && (n in names && !Lapsed(c.net.names, names[n], h) ==>
          names[n].height == h && names[n].claimed == 0 && names[n].revoked == 0)
    && (Listed(c.net, n, h) ==> again)
    && !(c.flags.lockup && c.net.lockedUp(n, h))
    && c.net.rollout(n) <= h
  }

  predicate ClaimAdmitted(c: Context, names: NameMap, output: Output)
    requires output.covenant.Claim?
  {
    var cov, h := output.covenant, c.Height();
    var n := cov.nameHash;
    && Listed(c.net, n, h)
    && !(c.flags.hardened && cov.IsWeak())
    && 1 <= cov.commitHeight < h && c.main[cov.commitHeight] == cov.commitHash
    && (n in names ==>
          var r := names[n];
          && !Lapsed(c.net.names, r, h) && !r.expired && r.revoked == 0 && r.claimed < cov.commitHeight
          && (if r.claimed == 0 && h < End(c.net.names, r) then h <= r.height + c.net.names.treeInterval
              else !r.registered))
    && (h >= c.net.deflationHeight ==>
          if n in names && !names[n].owner.IsNull() then
            && h >= names[n].height + c.net.names.claimFrequency
            && names[n].owner in c.coins && c.coins[names[n].owner].output.value == output.value
          else cov.commitHeight == 1)
  }

  /** The conditions on the record and the height, for an output whose coin may
      become it. */
  predicate Admitted(c: Context, names: NameMap, tx: TX, i: nat)
    requires i < |tx.outputs|
    requires tx.outputs[i].covenant.IsLinked() ==> i < |tx.inputs|
  {
    var output, net, h := tx.outputs[i], c.net.names, c.Height();
    var bidding := net.treeInterval + 1;
    match output.covenant
    case NoCovenant => true
    case UnknownCovenant(_, _) => true
    case Open(_, _) => OpenAdmitted(c, names, output.covenant)
    case Claim(_, _, _, _, _, _) => ClaimAdmitted(c, names, output)
    case Bid(n, height, _, _) =>
      && Stands(net, names, n, height, h) && names[n].claimed == 0 && names[n].revoked == 0
      && height + bidding <= h < height + bidding + net.biddingPeriod
    case Reveal(n, height, _) =>
      && Stands(net, names, n, height, h) && names[n].claimed == 0 && names[n].revoked == 0
      && height + bidding + net.biddingPeriod <= h < End(net, names[n])
    case Redeem(n, height) =>
      && Stands(net, names, n, height, h) && h >= End(net, names[n])
      && tx.inputs[i].prevout != names[n].owner
    case Register(n, height, _, block) =>
      && Stands(net, names, n, height, h) && h >= End(net, names[n]) && names[n].revoked == 0
      && tx.inputs[i].prevout == names[n].owner && output.value == names[n].value
      && Renews(net, c.main, block)
      && !(c.flags.hardened && names[n].weak && names[n].claimed != 0 && !net.noReserved && h < net.claimPeriod)
    case Update(n, height, _) => Stands(net, names, n, height, h)
    case Transfer(n, height, _, _) => Stands(net, names, n, height, h)
    case Revoke(n, height) => Stands(net, names, n, height, h)
    case Renew(n, height, block) =>
      Stands(net, names, n, height, h) && h >= names[n].renewal + net.treeInterval && Renews(net, c.main, block)
    case Finalize(n, height, _, _, claimed, renewals, block) =>
      && Stands(net, names, n, height, h) && h >= names[n].transfer + net.transferLockup
      && output.covenant.IsWeak() == names[n].weak && claimed == names[n].claimed && renewals == names[n].renewals
      && Renews(net, c.main, block)
  }

  predicate Distinct(main: seq<Hash>) {
    forall i, j :: 0 <= i < j < |main| ==> main[i] != main[j]
  }

  lemma LapsedExpires(net: NetworkNames, r: NameRec, h: nat)
    ensures r.IsExpired(h, net) <==> Lapsed(net, r, h)
  {
  }

  lemma HeightIs(main: seq<Hash>, hash: Hash, j: nat)
    requires Distinct(main) && j < |main|
    ensures main[j] == hash <==> MainHeight(main, hash) == j
  {
  }

  lemma RenewsIs(c: Context, hash: Hash)
    requires Distinct(c.main)
    ensures VerifyRenewal(c, hash) <==> Renews(c.net.names, c.main, hash)
  {
    hide Distinct, MainHeight;
    var net, h := c.net.names, |c.main|;
    forall j | 0 <= j < h && c.main[j] == hash ensures MainHeight(c.main, hash) == j {
      HeightIs(c.main, hash, j);
    }
    var k := MainHeight(c.main, hash);
    if k != -1 {
      HeightIs(c.main, hash, k);
    }
  }

  /** What stands beside an output, and the invariant of the chain below it. */
  ghost predicate Placed(c: Context, coins: Coins, names: NameMap, outs: map<Outpoint, Output>, tx: TX, i: nat) {
    && i < |tx.outputs| && Distinct(c.main)
    && Inv(c.net.names, c.Height(), coins, names, outs)
    && (tx.outputs[i].covenant.IsName() ==> 1 <= c.Height())
    && (tx.IsCoinbase() ==> tx.outputs[i].covenant.NoCovenant? || tx.outputs[i].covenant.Claim?)
    && (!tx.IsCoinbase() ==> !tx.outputs[i].covenant.Claim?)
    && (tx.outputs[i].covenant.IsLinked() ==> !tx.IsCoinbase() && i < |tx.inputs|)
    && (SpentAt(tx, i).Some? ==>
          && tx.inputs[i].prevout in coins
          && LinkRule(c.net, coins[tx.inputs[i].prevout].output, Some(tx.outputs[i])).Accept?)
  }

  lemma OpenAdmits(c: Context, names: NameMap, tx: TX, i: nat)
    requires i < |tx.outputs| && tx.outputs[i].covenant.Open? && !tx.IsCoinbase() && 1 <= c.Height()
    requires forall n :: n in names ==> NameOk(c.net.names, c.Height(), names[n])
    ensures OutputRule(c, Find(names, tx.outputs[i].covenant.nameHash), tx, i).Accept?
            <==> OpenAdmitted(c, names, tx.outputs[i].covenant)
  {
    var n := tx.outputs[i].covenant.nameHash;
    if n in names {
      LapsedExpires(c.net.names, names[n], c.Height());
      hide Lapsed, NameRec.IsExpired;
      assert NameOk(c.net.names, c.Height(), names[n]);
    }
  }

  lemma ClaimAdmits(c: Context, names: NameMap, tx: TX, i: nat)
    requires i < |tx.outputs| && tx.outputs[i].covenant.Claim? && 1 <= c.Height() && Distinct(c.main)
    requires forall n :: n in names ==> NameOk(c.net.names, c.Height(), names[n])
    ensures OutputRule(c, Find(names, tx.outputs[i].covenant.nameHash), tx, i).Accept?
            <==> ClaimAdmitted(c, names, tx.outputs[i])
  {
    var cov := tx.outputs[i].covenant;
    var n := cov.nameHash;
    hide Lapsed, NameRec.IsExpired, MainHeight, Distinct;
    if cov.commitHeight < c.Height() {
      HeightIs(c.main, cov.commitHash, cov.commitHeight);
    }
    if n in names {
      LapsedExpires(c.net.names, names[n], c.Height());
      assert NameOk(c.net.names, c.Height(), names[n]);
      if Lapsed(c.net.names, names[n], c.Height()) {
        assert !OutputRule(c, names[n], tx, i).Accept?;
      } else {
        assert Prepare(c, names[n], cov) == Accept(names[n]);
      }
    }
  }

  /** A record that goes on is the one the rule sees; one that has lapsed, or that
      does not exist, lets only an OPEN or a CLAIM in. */
  lemma SeenRecord(c: Context, names: NameMap, tx: TX, i: nat)
    requires i < |tx.outputs| && tx.outputs[i].covenant.IsName()
    requires !tx.outputs[i].covenant.Open? && !tx.outputs[i].covenant.Claim?
    requires forall n :: n in names ==> NameOk(c.net.names, c.Height(), names[n])
    ensures var n := tx.outputs[i].covenant.nameHash;
            OutputRule(c, Find(names, n), tx, i).Accept? <==>
              n in names && !Lapsed(c.net.names, names[n], c.Height()) && PreparedRule(c, names[n], tx, i).Accept?
  {
    var cov, h := tx.outputs[i].covenant, c.Height();
    var n := cov.nameHash;
    hide PreparedRule, Lapsed, NameRec.IsExpired;
    if n in names {
      LapsedExpires(c.net.names, names[n], h);
      assert NameOk(c.net.names, h, names[n]);
      if Lapsed(c.net.names, names[n], h) {
        var r := names[n].MaybeExpire(h, c.net.names);
        if PreparedRule(c, r, tx, i).Accept? {
          LateRejected(c, r, tx, i);
        }
      }
    }
  }

  lemma LateRejected(c: Context, r: NameRec, tx: TX, i: nat)
    requires i < |tx.outputs| && tx.outputs[i].covenant.IsName()
    requires r.height == c.Height() && r.revoked == 0 && r.claimed == 0
    requires PreparedRule(c, r, tx, i).Accept?
    ensures tx.outputs[i].covenant.Open? || tx.outputs[i].covenant.Claim?
  {
    hide IsReserved, VerifyRenewal;
  }

  lemma AuctionAdmits(c: Context, r: NameRec, tx: TX, i: nat)
    requires i < |tx.outputs| && NameOk(c.net.names, c.Height(), r) && !tx.IsCoinbase()
    requires tx.outputs[i].covenant.IsLinked() ==> i < |tx.inputs|
    ensures var cov, net, h := tx.outputs[i].covenant, c.net.names, c.Height();
            var bidding := r.height + net.treeInterval + 1;
            && (cov.Bid? ==>
                  (PreparedRule(c, r, tx, i).Accept? <==>
                     && cov.height == r.height && r.claimed == 0 && r.revoked == 0
                     && bidding <= h < bidding + net.biddingPeriod))
            && (cov.Reveal? ==>
                  (PreparedRule(c, r, tx, i).Accept? <==>
                     && cov.height == r.height && r.claimed == 0 && r.revoked == 0
                     && bidding + net.biddingPeriod <= h < End(net, r)))
            && (cov.Redeem? ==>
                  (PreparedRule(c, r, tx, i).Accept? <==>
                     cov.height == r.height && h >= End(net, r) && tx.inputs[i].prevout != r.owner))
  {
  }

  lemma RegisterAdmits(c: Context, r: NameRec, tx: TX, i: nat)
    requires i < |tx.outputs| && i < |tx.inputs| && !tx.IsCoinbase() && Distinct(c.main)
    requires tx.outputs[i].covenant.Register?
    ensures var output, net, h := tx.outputs[i], c.net.names, c.Height();
            PreparedRule(c, r, tx, i).Accept? <==>
              && output.covenant.height == r.height && h >= End(net, r) && r.revoked == 0
              && tx.inputs[i].prevout == r.owner && output.value == r.value
              && Renews(net, c.main, output.covenant.renewalBlock)
              && !(c.flags.hardened && r.weak && r.claimed != 0 && !net.noReserved && h < net.claimPeriod)
  {
    RenewsIs(c, tx.outputs[i].covenant.renewalBlock);
    hide VerifyRenewal, Renews;
  }

  /** UPDATE, RENEW, TRANSFER, FINALIZE and REVOKE of the coin that holds the name. */
  lemma OwnerAdmits(c: Context, r: NameRec, coin: Output, p: Outpoint, tx: TX, i: nat)
    requires i < |tx.outputs| && i < |tx.inputs| && !tx.IsCoinbase() && Distinct(c.main)
    requires NameOk(c.net.names, c.Height(), r) && LinkRule(c.net, coin, Some(tx.outputs[i])).Accept?
    requires tx.outputs[i].covenant.IsLocked() && !tx.outputs[i].covenant.Register?
    requires tx.outputs[i].covenant.height == r.height ==> Holds(r, p, coin)
    ensures var cov, net, h := tx.outputs[i].covenant, c.net.names, c.Height();
            PreparedRule(c, r, tx, i).Accept? <==>
              && cov.height == r.height
              && (cov.Renew? ==> h >= r.renewal + net.treeInterval && Renews(net, c.main, cov.renewalBlock))
              && (cov.Finalize? ==>
                    && h >= r.transfer + net.transferLockup
                    && cov.IsWeak() == r.weak && cov.claimed == r.claimed && cov.renewals == r.renewals
                    && Renews(net, c.main, cov.renewalBlock))
  {
    var cov := tx.outputs[i].covenant;
    if cov.Renew? || cov.Finalize? {
      RenewsIs(c, cov.renewalBlock);
    }
    hide VerifyRenewal, Renews;
  }

  /** The coin of an owner covenant and its record. */
  lemma OwnerCoin(c: Context, coins: Coins, names: NameMap, outs: map<Outpoint, Output>, tx: TX, i: nat)
    requires Placed(c, coins, names, outs, tx, i)
    requires tx.outputs[i].covenant.IsLocked() && !tx.outputs[i].covenant.Register?
    ensures var p, cov := tx.inputs[i].prevout, tx.outputs[i].covenant;
            && cov.nameHash in names
            && (cov.height == names[cov.nameHash].height ==> Holds(names[cov.nameHash], p, coins[p].output))
  {
    assert CoinOk(names, tx.inputs[i].prevout, coins[tx.inputs[i].prevout].output);
  }

  /** An output beside a coin that may become it, in a block on any chain: it is
      accepted exactly when it is admitted. */
  lemma Admits(c: Context, coins: Coins, names: NameMap, outs: map<Outpoint, Output>, tx: TX, i: nat)
    requires Placed(c, coins, names, outs, tx, i)
    ensures OutputStep(c, names, tx, i).Accept? <==> Admitted(c, names, tx, i)
  {
    hide Inv, NameOk, LinkRule, OutputRule, PreparedRule, Lapsed, Renews, Distinct, OpenAdmitted, ClaimAdmitted, Holds;
    var cov := tx.outputs[i].covenant;
    if cov.IsName() {
      RecordsOk(c.net.names, c.Height(), coins, names, outs);
      var n := cov.nameHash;
      if cov.Open? {
        OpenAdmits(c, names, tx, i);
      } else if cov.Claim? {
        ClaimAdmits(c, names, tx, i);
      } else {
        SeenRecord(c, names, tx, i);
        if n in names {
          if cov.Register? {
            RegisterAdmits(c, names[n], tx, i);
          } else if cov.IsLocked() {
            OwnerCoin(c, coins, names, outs, tx, i);
            OwnerAdmits(c, names[n], coins[tx.inputs[i].prevout].output, tx.inputs[i].prevout, tx, i);
          } else {
            AuctionAdmits(c, names[n], tx, i);
          }
        }
      }
    }
  }

  // ---------------------------------------------------------------------
  // Transactions and blocks
  // ---------------------------------------------------------------------

  predicate OutputAdmitted(c: Context, names: NameMap, tx: TX, i: nat)
    requires i < |tx.outputs|
  {
    (tx.outputs[i].covenant.IsLinked() ==> i < |tx.inputs|) && Admitted(c, names, tx, i)
  }

  /** Each output is admitted on the names that those before it left. */
  predicate OutputsAdmitted(c: Context, names: NameMap, tx: TX, k: nat)
    requires k <= |tx.outputs|
  {
    forall i :: 0 <= i < k && NamesAfter(c, names, tx, i).Accept? ==>
      OutputAdmitted(c, NamesAfter(c, names, tx, i).value, tx, i)
  }

  lemma {:induction false} OutputsAdmit(c: Context, coins: Coins, names: NameMap, outs: map<Outpoint, Output>, tx: TX,
                                        k: nat)
    requires k <= |tx.outputs| && Distinct(c.main)
    requires Inv(c.net.names, c.Height(), coins, names, outs) && TxReady(c, coins, outs, tx)
    ensures NamesAfter(c, names, tx, k).Accept? <==> OutputsAdmitted(c, names, tx, k)
  {
    hide Inv, PairCoins, TxReady, LinkRule, OutputStep, Admitted, Distinct;
    if k > 0 {
      var i := k - 1;
      OutputsAdmit(c, coins, names, outs, tx, i);
      if NamesAfter(c, names, tx, i).Accept? {
        OutputsKeepInv(c, coins, names, outs, tx, i);
        TxReadyAt(c, coins, outs, tx, i);
        Admits(c, PairCoins(coins, tx, c.Height(), i), NamesAfter(c, names, tx, i).value, outs + OutsUpTo(tx, i), tx, i);
      }
    }
  }

  /** Every input finds its coin, and what stands beside it may follow that. */
  predicate InputsAdmitted(net: Network, coins: Coins, tx: TX, k: nat)
    requires k <= |tx.inputs|
  {
    forall i :: 0 <= i < k ==>
      && tx.inputs[i].prevout in coins
      && var coin := coins[tx.inputs[i].prevout].output;
         if i < |tx.outputs| then Follows(net, coin, tx.outputs[i]) else Plain(coin)
  }

  lemma {:induction false} LinksAdmit(net: Network, coins: Coins, tx: TX, k: nat)
    requires k <= |tx.inputs| && forall i :: 0 <= i < k ==> tx.inputs[i].prevout in coins
    ensures LinksAfter(net, coins, tx, k).Accept? <==> InputsAdmitted(net, coins, tx, k)
    ensures LinksAfter(net, coins, tx, k).Accept? ==>
              forall i :: 0 <= i < k ==> LinkRule(net, coins[tx.inputs[i].prevout].output, Linked(tx, i)).Accept?
  {
    hide LinkRule, Follows, Plain;
    if k > 0 {
      LinksAdmit(net, coins, tx, k - 1);
      var coin := coins[tx.inputs[k - 1].prevout].output;
      LinkFollows(net, coin, if k - 1 < |tx.outputs| then tx.outputs[k - 1] else coin);
    }
  }

  /** A claim names the height it is made at. */
  predicate ClaimsDated(tx: TX, h: nat) {
    forall i :: 0 <= i < |tx.outputs| && tx.outputs[i].covenant.Claim? ==> tx.outputs[i].covenant.height == h
  }

  /** What a transaction has to meet: the first one on the airdrop positions that
      were claimed before, the others on the coins. */
  predicate TxAdmitted(c: Context, w: Work, claimed: seq<nat>, txs: seq<TX>, i: nat)
    requires i < |txs| && SaneAt(c.net, txs, i)
  {
    var tx := txs[i];
    && (if i == 0 then Fresh(c.net, claimed + PositionsUpTo(tx, |tx.inputs|)) && ClaimsDated(tx, c.Height())
        else InputsAdmitted(c.net, w.coins, tx, |tx.inputs|))
    && OutputsAdmitted(c, w.names, tx, |tx.outputs|)
  }

  lemma SpendAdmits(c: Context, w: Work, outs: map<Outpoint, Output>, tx: TX)
    requires SaneTX(c.net, tx) && Distinct(c.main) && FreshFor(outs, w.coins, tx)
    requires Inv(c.net.names, c.Height(), w.coins, w.names, outs)
    requires forall j :: 0 <= j < |tx.outputs| && tx.outputs[j].covenant.IsName() ==> 1 <= c.Height()
    ensures SpendStep(c, w, tx).Accept? <==>
              InputsAdmitted(c.net, w.coins, tx, |tx.inputs|) && OutputsAdmitted(c, w.names, tx, |tx.outputs|)
  {
    hide Inv, LinkRule, NamesAfter, LinksAfter, CreatedBy, SaneNamed, Distinct, OutputsAdmitted, Follows, Plain,
      Prevouts, SpentBy, StatsAddAll, StatsSpendAll;
    if forall i :: 0 <= i < |tx.inputs| ==> tx.inputs[i].prevout in w.coins {
      LinksAdmit(c.net, w.coins, tx, |tx.inputs|);
      if LinksAfter(c.net, w.coins, tx, |tx.inputs|).Accept? {
        assert TxReady(c, w.coins, outs, tx);
        OutputsAdmit(c, w.coins, w.names, outs, tx, |tx.outputs|);
      }
    }
  }

  lemma CoinbaseAdmits(c: Context, w: Work, outs: map<Outpoint, Output>, claimed: seq<nat>, tx: TX)
    requires SaneCoinbase(c.net, tx) && Distinct(c.main) && FreshFor(outs, w.coins, tx)
    requires Inv(c.net.names, c.Height(), w.coins, w.names, outs)
    requires w.airdrops == SetOf(claimed) && Fresh(c.net, claimed)
    requires forall j :: 0 <= j < |tx.outputs| && tx.outputs[j].covenant.IsName() ==> 1 <= c.Height()
    ensures CoinbaseStep(c, w, tx).Accept? <==>
              && Fresh(c.net, claimed + PositionsUpTo(tx, |tx.inputs|)) && ClaimsDated(tx, c.Height())
              && OutputsAdmitted(c, w.names, tx, |tx.outputs|)
  {
    hide Inv, NamesAfter, BitsAfter, CreatedBy, SaneNamed, Distinct, OutputsAdmitted, SetOf, Fresh, PositionsUpTo,
      StatsAddAll;
    ClaimsOnce(c.net, claimed, tx, |tx.inputs|);
    if ClaimsDated(tx, c.Height()) {
      assert TxReady(c, w.coins, outs, tx);
      OutputsAdmit(c, w.coins, w.names, outs, tx, |tx.outputs|);
    }
  }

  lemma StepAdmits(c: Context, w: Work, outs: map<Outpoint, Output>, claimed: seq<nat>, txs: seq<TX>, i: nat)
    requires i < |txs| && SaneAt(c.net, txs, i) && Distinct(c.main) && FreshFor(outs, w.coins, txs[i])
    requires Inv(c.net.names, c.Height(), w.coins, w.names, outs)
    requires i == 0 ==> w.airdrops == SetOf(claimed) && Fresh(c.net, claimed)
    requires forall j :: 0 <= j < |txs[i].outputs| && txs[i].outputs[j].covenant.IsName() ==> 1 <= c.Height()
    ensures TxStep(c, w, txs, i).Accept? <==> TxAdmitted(c, w, claimed, txs, i)
  {
    hide Inv, SpendStep, CoinbaseStep, SaneCoinbase, SaneTX, Distinct, OutputsAdmitted, InputsAdmitted, SetOf, Fresh;
    if i == 0 {
      CoinbaseAdmits(c, w, outs, claimed, txs[i]);
    } else {
      SpendAdmits(c, w, outs, txs[i]);
    }
  }

  /** Each transaction is admitted on what those before it left. */
  ghost predicate TxsAdmitted(c: Context, w: Work, claimed: seq<nat>, txs: seq<TX>, k: nat)
    requires k <= |txs| && forall i :: 0 <= i < |txs| ==> SaneAt(c.net, txs, i)
  {
    forall i :: 0 <= i < k && WorkAfter(c, w, txs, i).Accept? ==>
      TxAdmitted(c, WorkAfter(c, w, txs, i).value, claimed, txs, i)
  }

  lemma {:induction false} WorkAdmits(c: Context, w: Work, outs: map<Outpoint, Output>, claimed: seq<nat>, txs: seq<TX>,
                                      k: nat)
    requires k <= |txs| && Distinct(c.main)
    requires forall i :: 0 <= i < |txs| ==> SaneAt(c.net, txs, i)
    requires Inv(c.net.names, c.Height(), w.coins, w.names, outs)
    requires FreshTxs(outs, w.coins, txs)
    requires forall i, j :: 0 <= i < |txs| && 0 <= j < |txs[i].outputs| && txs[i].outputs[j].covenant.IsName()
               ==> 1 <= c.Height()
    requires w.airdrops == SetOf(claimed) && Fresh(c.net, claimed)
    ensures WorkAfter(c, w, txs, k).Accept? <==> TxsAdmitted(c, w, claimed, txs, k)
  {
    hide Inv, TxStep, SaneAt, Distinct, TxAdmitted, SetOf, Fresh;
    if k > 0 {
      var i := k - 1;
      WorkAdmits(c, w, outs, claimed, txs, i);
      if WorkAfter(c, w, txs, i).Accept? {
        WorkKeepsInv(c, w, outs, txs, i);
        var mid, outs' := WorkAfter(c, w, txs, i).value, OutsAfter(outs, txs, i);
        forall op | op in outs' ensures op.hash != txs[i].hash {
          OutsFromTxs(outs, txs, i, op);
        }
        CoinsAreOuts(c.net.names, c.Height(), mid.coins, mid.names, outs');
        StepAdmits(c, mid, outs', claimed, txs, i);
      }
    }
  }

  lemma {:induction false} MainDistinct(net: Network, blocks: seq<Block>)
    requires Replay(net, blocks).Accept?
    ensures Distinct(Replay(net, blocks).value.main)
  {
    hide WorkAfter;
    if blocks != [] {
      var before := Replay(net, blocks[..|blocks| - 1]).value;
      MainDistinct(net, blocks[..|blocks| - 1]);
      assert SaneBlock(net, before, blocks[|blocks| - 1]);
    }
  }

  /** On every chain, a block connects exactly when its shape and its context are
      right, it commits to the tree, and each of its transactions is admitted on
      what those before it left. */
  lemma BlockAdmits(net: Network, blocks: seq<Block>, block: Block)
    requires UniqueTxids(blocks + [block]) && Replay(net, blocks).Accept?
    ensures var ledger := Replay(net, blocks).value;
            ConnectBlock(net, ledger, block).Accept? <==>
              && SaneBlock(net, ledger, block) && net.context(ledger, block) && block.treeRoot == ledger.tree
              && (forall i :: 0 <= i < |block.txs| ==> SaneAt(net, block.txs, i))
              && TxsAdmitted(ContextOf(net, ledger), WorkOf(ledger, block), Positions(blocks), block.txs, |block.txs|)
  {
    hide Inv, Replay, SaneBlock, WorkAfter, FreshTxs, TxsAdmitted, SetOf, Fresh, Distinct, AllOutputs, SaneAt;
    assert (blocks + [block])[..|blocks|] == blocks;
    var ledger := Replay(net, blocks).value;
    if SaneBlock(net, ledger, block) {
      ReachableInvNext(net, blocks);
      ClaimedOnce(net, blocks);
      MainDistinct(net, blocks);
      FreshBlock(net, ledger, block, blocks);
      SaneBlockTxs(net, ledger, block);
      WorkAdmits(ContextOf(net, ledger), WorkOf(ledger, block), AllOutputs(blocks), Positions(blocks), block.txs,
                 |block.txs|);
    }
  }
}
