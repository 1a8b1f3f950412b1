/**
 Contextual verification of a block as the chain performs it: transaction by
 transaction over a view, name states updated by their setters.
 */
module Verify {
  import opened Primitives
  import opened Names
  import opened Ledger
  import opened Views

  /** An outcome without its value. */
  function Done<T>(o: Outcome<T>): Outcome<()> {
    match o
    case Accept(_) => Accept(())
    case Reject(reason) => Reject(reason)
    case Throw(message) => Throw(message)
    case AssertFail => AssertFail
  }

  // ---------------------------------------------------------------------
  // The name rules, on a name state
  // ---------------------------------------------------------------------

  method CheckClaim(c: Context, rec: NameRec, output: Output, op: Outpoint) returns (o: Outcome<()>)
    requires output.covenant.Claim?
    ensures o == Done(ClaimRule(c, rec, output, op))
  {
    var cov, height := output.covenant, c.Height();
    var phase := rec.Phase(height, c.net.names);
    if !(phase == OPENING || phase == LOCKED || (phase == CLOSED && !rec.registered)) {
      return Reject("bad-claim-state");
    }
    if rec.expired || !IsReserved(c.net, cov.nameHash, height) {
      return Reject("bad-claim-notreserved");
    }
    if c.flags.hardened && cov.IsWeak() {
      return Reject("bad-claim-algorithm");
    }
    var claimed := MainHeight(c.main, cov.commitHash);
    if claimed != cov.commitHeight {
      return Reject("bad-claim-commit-height");
    }
    if claimed <= rec.claimed {
      return Reject("bad-claim-commit-hash");
    }
    if claimed < 1 {
      return AssertFail;
    }
    if height >= c.net.deflationHeight {
      if rec.owner.IsNull() {
        if claimed != 1 {
          return Reject("bad-claim-height");
        }
      }
      if !rec.owner.IsNull() && height < rec.height + c.net.names.claimFrequency {
        return Reject("bad-claim-frequency");
      }
      if !rec.owner.IsNull() {
        if rec.owner !in c.coins || output.value != c.coins[rec.owner].output.value {
          return Reject("bad-claim-value");
        }
      }
    }
    return Accept(());
  }

  method ApplyClaim(c: Context, ns: NameState, output: Output, op: Outpoint) returns (o: Outcome<()>)
    requires ns.Valid() && output.covenant.Claim?
    modifies ns
    ensures ns.Valid()
    ensures o == Done(ClaimRule(c, old(ns.rec), output, op))
    ensures o.Accept? ==> ns.rec == ClaimRule(c, old(ns.rec), output, op).value
  {
    o := CheckClaim(c, ns.rec, output, op);
    if !o.Accept? {
      return;
    }
    ns.SetHeight(c.Height());
    ns.SetRenewal(c.Height());
    ns.SetClaimed(output.covenant.commitHeight);
    ns.SetValue(0);
    ns.SetOwner(op);
    ns.SetHighest(0);
    ns.SetWeak(output.covenant.IsWeak());
  }

  method ApplyReveal(c: Context, ns: NameState, output: Output, op: Outpoint) returns (o: Outcome<()>)
    requires ns.Valid() && output.covenant.Reveal?
    modifies ns
    ensures ns.Valid()
    ensures o == Done(RevealRule(c, old(ns.rec), output, op))
    ensures o.Accept? ==> ns.rec == RevealRule(c, old(ns.rec), output, op).value
  {
    if output.covenant.height != ns.rec.height {
      return Reject("bad-reveal-nonlocal");
    }
    if ns.rec.Phase(c.Height(), c.net.names) != REVEAL {
      return Reject("bad-reveal-state");
    }
    if ns.rec.owner.IsNull() || output.value > ns.rec.highest {
      ns.SetValue(ns.rec.highest);
      ns.SetOwner(op);
      ns.SetHighest(output.value);
    } else if output.value > ns.rec.value {
      ns.SetValue(output.value);
    }
    return Accept(());
  }

  method ApplyRedeem(c: Context, ns: NameState, cov: Covenant, prevout: Outpoint)
      returns (o: Outcome<()>)
    requires ns.Valid() && cov.Redeem?
    ensures o == Done(RedeemRule(c, ns.rec, cov, prevout))
    ensures o.Accept? ==> ns.rec == RedeemRule(c, ns.rec, cov, prevout).value
  {
    if cov.height != ns.rec.height {
      return Reject("bad-redeem-nonlocal");
    }
    var phase := ns.rec.Phase(c.Height(), c.net.names);
    if phase != CLOSED && phase != REVOKED {
      return Reject("bad-redeem-state");
    }
    if prevout == ns.rec.owner {
      return Reject("bad-redeem-owner");
    }
    return Accept(());
  }

  method ApplyOpen(c: Context, ns: NameState, cov: Covenant) returns (o: Outcome<()>)
    requires ns.Valid() && cov.Open?
    ensures o == Done(OpenRule(c, ns.rec, cov))
    ensures o.Accept? ==> ns.rec == OpenRule(c, ns.rec, cov).value
  {
    var height := c.Height();
    if ns.rec.Phase(height, c.net.names) != OPENING {
      return Reject("bad-open-state");
    }
    if ns.rec.height != height {
      return Reject("bad-open-multiple");
    }
    if !ns.rec.expired && IsReserved(c.net, cov.nameHash, height) {
      return Reject("bad-open-reserved");
    }
    if c.flags.lockup && c.net.lockedUp(cov.nameHash, height) {
      return Reject("bad-open-lockedup");
    }
    if height < c.net.rollout(cov.nameHash) {
      return Reject("bad-open-rollout");
    }
    return Accept(());
  }

  method ApplyBid(c: Context, ns: NameState, cov: Covenant) returns (o: Outcome<()>)
    requires ns.Valid() && cov.Bid?
    ensures o == Done(BidRule(c, ns.rec, cov))
    ensures o.Accept? ==> ns.rec == BidRule(c, ns.rec, cov).value
  {
    if ns.rec.Phase(c.Height(), c.net.names) != BIDDING {
      return Reject("bad-bid-state");
    }
    if cov.height != ns.rec.height {
      return Reject("bad-bid-height");
    }
    return Accept(());
  }

  method ApplyRegister(c: Context, ns: NameState, output: Output, op: Outpoint, prevout: Outpoint)
      returns (o: Outcome<()>)
    requires ns.Valid() && output.covenant.Register?
    modifies ns
    ensures ns.Valid()
    ensures o == Done(RegisterRule(c, old(ns.rec), output, op, prevout))
    ensures o.Accept? ==> ns.rec == RegisterRule(c, old(ns.rec), output, op, prevout).value
  {
    var cov, height := output.covenant, c.Height();
    if cov.height != ns.rec.height {
      return Reject("bad-register-nonlocal");
    }
    if ns.rec.Phase(height, c.net.names) != CLOSED {
      return Reject("bad-register-state");
    }
    if !VerifyRenewal(c, cov.renewalBlock) {
      return Reject("bad-register-renewal");
    }
    if prevout != ns.rec.owner {
      return Reject("bad-register-owner");
    }
    if output.value != ns.rec.value {
      return Reject("bad-register-value");
    }
    if ns.rec.IsClaimable(height, c.net.names) {
      if c.flags.hardened && ns.rec.weak {
        return Reject("bad-register-state");
      }
    }
    ns.SetRegistered(true);
    ns.SetOwner(op);
    if |cov.data| > 0 {
      ns.SetData(cov.data);
    }
    ns.SetRenewal(height);
    return Accept(());
  }

  method ApplyUpdate(c: Context, ns: NameState, cov: Covenant, op: Outpoint) returns (o: Outcome<()>)
    requires ns.Valid() && cov.Update?
    modifies ns
    ensures ns.Valid()
    ensures o == Done(UpdateRule(c, old(ns.rec), cov, op))
    ensures o.Accept? ==> ns.rec == UpdateRule(c, old(ns.rec), cov, op).value
  {
    if cov.height != ns.rec.height {
      return Reject("bad-update-nonlocal");
    }
    if ns.rec.Phase(c.Height(), c.net.names) != CLOSED {
      return Reject("bad-update-state");
    }
    ns.SetOwner(op);
    if |cov.data| > 0 {
      ns.SetData(cov.data);
    }
    ns.SetTransfer(0);
    return Accept(());
  }

  method ApplyRenew(c: Context, ns: NameState, cov: Covenant, op: Outpoint) returns (o: Outcome<()>)
    requires ns.Valid() && cov.Renew?
    modifies ns
    ensures ns.Valid()
    ensures o == Done(RenewRule(c, old(ns.rec), cov, op))
    ensures o.Accept? ==> ns.rec == RenewRule(c, old(ns.rec), cov, op).value
  {
    var height := c.Height();
    if cov.height != ns.rec.height {
      return Reject("bad-renewal-nonlocal");
    }
    if ns.rec.Phase(height, c.net.names) != CLOSED {
      return Reject("bad-renewal-state");
    }
    if height < ns.rec.renewal + c.net.names.treeInterval {
      return Reject("bad-renewal-premature");
    }
    if !VerifyRenewal(c, cov.renewalBlock) {
      return Reject("bad-renewal");
    }
    ns.SetOwner(op);
    ns.SetTransfer(0);
    ns.SetRenewal(height);
    ns.SetRenewals(ns.rec.renewals + 1);
    return Accept(());
  }

  method ApplyTransfer(c: Context, ns: NameState, cov: Covenant, op: Outpoint) returns (o: Outcome<()>)
    requires ns.Valid() && cov.Transfer?
    modifies ns
    ensures ns.Valid()
    ensures o == Done(TransferRule(c, old(ns.rec), cov, op))
    ensures o.Accept? ==> ns.rec == TransferRule(c, old(ns.rec), cov, op).value
  {
    if cov.height != ns.rec.height {
      return Reject("bad-transfer-nonlocal");
    }
    if ns.rec.Phase(c.Height(), c.net.names) != CLOSED {
      return Reject("bad-transfer-state");
    }
    ns.SetOwner(op);
    if ns.rec.transfer != 0 {
      return AssertFail;
    }
    ns.SetTransfer(c.Height());
    return Accept(());
  }

  method ApplyFinalize(c: Context, ns: NameState, cov: Covenant, op: Outpoint) returns (o: Outcome<()>)
    requires ns.Valid() && cov.Finalize?
    modifies ns
    ensures ns.Valid()
    ensures o == Done(FinalizeRule(c, old(ns.rec), cov, op))
    ensures o.Accept? ==> ns.rec == FinalizeRule(c, old(ns.rec), cov, op).value
  {
    var height := c.Height();
    if cov.height != ns.rec.height {
      return Reject("bad-finalize-nonlocal");
    }
    if ns.rec.Phase(height, c.net.names) != CLOSED {
      return Reject("bad-finalize-state");
    }
    if ns.rec.transfer == 0 {
      return AssertFail;
    }
    if c.net.names.transferLockup < c.net.names.treeInterval {
      return AssertFail;
    }
    if height < ns.rec.transfer + c.net.names.transferLockup {
      return Reject("bad-finalize-maturity");
    }
    if cov.IsWeak() != ns.rec.weak || cov.claimed != ns.rec.claimed || cov.renewals != ns.rec.renewals {
      return Reject("bad-finalize-statetransfer");
    }
    if !VerifyRenewal(c, cov.renewalBlock) {
      return Reject("bad-finalize-renewal");
    }
    ns.SetOwner(op);
    ns.SetTransfer(0);
    ns.SetRenewal(height);
    ns.SetRenewals(ns.rec.renewals + 1);
    return Accept(());
  }

  method ApplyRevoke(c: Context, ns: NameState, cov: Covenant) returns (o: Outcome<()>)
    requires ns.Valid() && cov.Revoke?
    modifies ns
    ensures ns.Valid()
    ensures o == Done(RevokeRule(c, old(ns.rec), cov))
    ensures o.Accept? ==> ns.rec == RevokeRule(c, old(ns.rec), cov).value
  {
    if cov.height != ns.rec.height {
      return Reject("bad-revoke-nonlocal");
    }
    if ns.rec.Phase(c.Height(), c.net.names) != CLOSED {
      return Reject("bad-revoke-state");
    }
    if ns.rec.revoked != 0 {
      return AssertFail;
    }
    ns.SetRevoked(c.Height());
    ns.SetTransfer(0);
    ns.SetData([]);
    return Accept(());
  }

  /** The start of every name output: creation and expiration. */
  method ApplyPrepare(c: Context, ns: NameState, cov: Covenant) returns (o: Outcome<()>)
    requires ns.Valid() && cov.IsName()
    modifies ns
    ensures ns.Valid()
    ensures o == Done(Prepare(c, old(ns.rec), cov))
    ensures o.Accept? ==> ns.rec == Prepare(c, old(ns.rec), cov).value
  {
    if ns.rec.IsNull() {
      if !cov.Claim? && !cov.Open? {
        return Throw("Database inconsistency.");
      }
      ns.Set(cov.name, c.Height());
    }
    var _ := ns.MaybeExpire(c.Height(), c.net.names);
    return Accept(());
  }

  method ApplyLinked(c: Context, ns: NameState, tx: TX, i: nat) returns (o: Outcome<()>)
    requires ns.Valid()
    requires i < |tx.outputs| && i < |tx.inputs| && tx.outputs[i].covenant.IsLinked()
    requires !tx.IsCoinbase()
    modifies ns
    ensures ns.Valid()
    ensures o == Done(PreparedRule(c, old(ns.rec), tx, i))
    ensures o.Accept? ==> ns.rec == PreparedRule(c, old(ns.rec), tx, i).value
  {
    hide RevealRule, RedeemRule, RegisterRule, UpdateRule, RenewRule, TransferRule, FinalizeRule,
      RevokeRule, NameState.Valid;
    var output, op, prevout := tx.outputs[i], tx.OutpointAt(i), tx.inputs[i].prevout;
    var cov := output.covenant;
    match cov {
      case Reveal(_, _, _) => o := ApplyReveal(c, ns, output, op);
      case Redeem(_, _) => o := ApplyRedeem(c, ns, cov, prevout);
      case Register(_, _, _, _) => o := ApplyRegister(c, ns, output, op, prevout);
      case Update(_, _, _) => o := ApplyUpdate(c, ns, cov, op);
      case Renew(_, _, _) => o := ApplyRenew(c, ns, cov, op);
      case Transfer(_, _, _, _) => o := ApplyTransfer(c, ns, cov, op);
      case Finalize(_, _, _, _, _, _, _) => o := ApplyFinalize(c, ns, cov, op);
      case Revoke(_, _) => o := ApplyRevoke(c, ns, cov);
    }
  }

  /** One name output: prepare the state, then the rule of its covenant. */
  method ApplyOutput(c: Context, ns: NameState, tx: TX, i: nat) returns (o: Outcome<()>)
    requires ns.Valid()
    requires i < |tx.outputs| && tx.outputs[i].covenant.IsName()
    modifies ns
    ensures ns.Valid()
    ensures o == Done(OutputRule(c, old(ns.rec), tx, i))
    ensures o.Accept? ==> ns.rec == OutputRule(c, old(ns.rec), tx, i).value
  {
    hide RevealRule, RedeemRule, RegisterRule, UpdateRule, RenewRule, TransferRule, FinalizeRule,
      RevokeRule, ClaimRule, Prepare, NameState.Valid;
    var cov := tx.outputs[i].covenant;
    o := ApplyPrepare(c, ns, cov);
    if !o.Accept? {
      return;
    }
    if cov.Claim? {
      o := ApplyClaim(c, ns, tx.outputs[i], tx.OutpointAt(i));
    } else if tx.IsCoinbase() {
      o := AssertFail;
    } else if cov.Open? {
      o := ApplyOpen(c, ns, cov);
    } else if cov.Bid? {
      o := ApplyBid(c, ns, cov);
    } else if i >= |tx.inputs| {
      o := AssertFail;
    } else {
      o := ApplyLinked(c, ns, tx, i);
    }
  }

  // ---------------------------------------------------------------------
  // Transactions
  // ---------------------------------------------------------------------

  /** Once a name output fails, the transaction has failed. */
  lemma {:induction false} NamesStuck(c: Context, names: NameMap, tx: TX, k: nat, m: nat)
    requires k <= m <= |tx.outputs|
    requires NamesAfter(c, names, tx, k).IsFailure()
    ensures Done(NamesAfter(c, names, tx, m)) == Done(NamesAfter(c, names, tx, k))
  {
    if k < m {
      NamesStuck(c, names, tx, k, m - 1);
    }
  }

  /** Records in use have a height; nothing a rule does changes that, or the
      name. */
  predicate Live(names: NameMap) {
    forall n :: n in names ==> 1 <= names[n].height
  }

  lemma RuleKeepsLive(c: Context, r: NameRec, tx: TX, i: nat)
    requires i < |tx.outputs| && tx.outputs[i].covenant.IsName() && 1 <= c.Height()
    requires r == NULL_REC || 1 <= r.height
    requires OutputRule(c, r, tx, i).Accept?
    ensures 1 <= OutputRule(c, r, tx, i).value.height
    ensures r != NULL_REC ==> OutputRule(c, r, tx, i).value.name == r.name
  {
    hide PreparedRule;
    PreparedKeepsLive(c, Prepare(c, r, tx.outputs[i].covenant).value, tx, i);
  }

  lemma PreparedKeepsLive(c: Context, r: NameRec, tx: TX, i: nat)
    requires i < |tx.outputs| && tx.outputs[i].covenant.IsName() && 1 <= c.Height()
    requires 1 <= r.height && PreparedRule(c, r, tx, i).Accept?
    ensures 1 <= PreparedRule(c, r, tx, i).value.height && PreparedRule(c, r, tx, i).value.name == r.name
  {
  }

  lemma {:induction false} NamesStayLive(c: Context, names: NameMap, tx: TX, k: nat)
    requires k <= |tx.outputs| && Live(names)
    requires forall i :: 0 <= i < k && tx.outputs[i].covenant.IsName() ==> 1 <= c.Height()
    requires NamesAfter(c, names, tx, k).Accept?
    ensures Live(NamesAfter(c, names, tx, k).value)
  {
    hide OutputRule;
    if k > 0 {
      NamesStayLive(c, names, tx, k - 1);
      if tx.outputs[k - 1].covenant.IsName() {
        var before := NamesAfter(c, names, tx, k - 1).value;
        RuleKeepsLive(c, Find(before, tx.outputs[k - 1].covenant.nameHash), tx, k - 1);
      }
    }
  }

  /** One name output over a view. */
  method VerifyOutput(c: Context, db: NameMap, view: CoinView, tx: TX, i: nat) returns (o: Outcome<()>)
    requires i < |tx.outputs| && tx.outputs[i].covenant.IsName() && 1 <= c.Height()
    requires TrackedOk(db, view.names) && Live(OverlayNames(db, view.names))
    modifies view`names
    ensures o.Accept? ==> TrackedOk(db, view.names)
    ensures o == Done(OutputStep(c, old(OverlayNames(db, view.names)), tx, i))
    ensures o.Accept? ==>
              OverlayNames(db, view.names) == OutputStep(c, old(OverlayNames(db, view.names)), tx, i).value
  {
    hide OutputRule, ApplyDelta, TrackedOk, OverlayNames, Loaded;
    var n := tx.outputs[i].covenant.nameHash;
    ghost var m, r := view.names, Find(OverlayNames(db, view.names), n);
    LoadedRecord(db, m, n);
    LoadedDelta(db, m, n);
    view.GetNameState(db, n);
    var ns := new NameState(view.names[n].rec, view.names[n].delta, Find(db, n));
    o := ApplyOutput(c, ns, tx, i);
    if o.Accept? {
      RuleKeepsLive(c, r, tx, i);
      LoadedOk(db, m, n);
      TrackedWrite(db, view.names, n, Tracked(ns.rec, ns.delta));
      OverlayWrite(db, m, n, Tracked(ns.rec, ns.delta));
      view.names := view.names[n := Tracked(ns.rec, ns.delta)];
    }
  }

  lemma LoadedDelta(db: NameMap, m: map<Hash, Tracked>, n: Hash)
    requires TrackedOk(db, m) && Live(OverlayNames(db, m))
    ensures n in Loaded(db, m, n)
    ensures var t := Loaded(db, m, n)[n];
            && ApplyDelta(t.rec, t.delta) == Find(db, n).(name := t.rec.name)
            && (t.rec == NULL_REC || 1 <= t.rec.height)
            && (n in db ==> t.rec != NULL_REC && t.rec.name == db[n].name)
  {
    if n in m {
      assert n in OverlayNames(db, m);
    } else if n in db {
      assert n in OverlayNames(db, m) && OverlayNames(db, m)[n] == db[n];
    }
  }

  /** `verifyCovenants` of the chain: every name output in order. */
  method VerifyCovenants(c: Context, db: NameMap, view: CoinView, tx: TX) returns (o: Outcome<()>)
    requires TrackedOk(db, view.names) && Live(OverlayNames(db, view.names))
    requires forall i :: 0 <= i < |tx.outputs| && tx.outputs[i].covenant.IsName() ==> 1 <= c.Height()
    modifies view`names
    ensures o.Accept? ==> TrackedOk(db, view.names)
    ensures o == Done(NamesAfter(c, old(OverlayNames(db, view.names)), tx, |tx.outputs|))
    ensures o.Accept? ==>
              OverlayNames(db, view.names)
              == NamesAfter(c, old(OverlayNames(db, view.names)), tx, |tx.outputs|).value
  {
    hide OutputStep, TrackedOk, Live, OverlayNames;
    ghost var start := OverlayNames(db, view.names);
    var i := 0;
    while i < |tx.outputs|
      invariant 0 <= i <= |tx.outputs|
      invariant TrackedOk(db, view.names)
      invariant NamesAfter(c, start, tx, i) == Accept(OverlayNames(db, view.names))
    {
      NamesStayLive(c, start, tx, i);
      assert NamesAfter(c, start, tx, i + 1)
          == OutputStep(c, OverlayNames(db, view.names), tx, i);
      if tx.outputs[i].covenant.IsName() {
        o := VerifyOutput(c, db, view, tx, i);
        if !o.Accept? {
          NamesStuck(c, start, tx, i + 1, |tx.outputs|);
          return;
        }
      } else {
        SkipOutput(c, OverlayNames(db, view.names), tx, i);
      }
      i := i + 1;
    }
    return Accept(());
  }

  lemma SkipOutput(c: Context, names: NameMap, tx: TX, i: nat)
    requires i < |tx.outputs| && !tx.outputs[i].covenant.IsName()
    ensures OutputStep(c, names, tx, i) == Accept(names)
  {
  }

  /** `rules.verifyCovenants` on a spend: each coin against its linked output. */
  method CheckLinks(net: Network, ghost coins: Coins, view: CoinView, tx: TX) returns (o: Outcome<()>)
    requires forall i :: 0 <= i < |tx.inputs| ==>
               && tx.inputs[i].prevout in coins && tx.inputs[i].prevout in view.map_
               && view.map_[tx.inputs[i].prevout].entry == coins[tx.inputs[i].prevout]
    ensures o == LinksAfter(net, coins, tx, |tx.inputs|)
  {
    hide LinkRule;
    o := Accept(());
    var i := 0;
    while i < |tx.inputs|
      invariant 0 <= i <= |tx.inputs|
      invariant o == LinksAfter(net, coins, tx, i) && o.Accept?
    {
      o := LinkRule(net, view.map_[tx.inputs[i].prevout].entry.output, Linked(tx, i));
      if !o.Accept? {
        LinksStuck(net, coins, tx, i + 1, |tx.inputs|);
        return;
      }
      i := i + 1;
    }
  }

  lemma {:induction false} LinksStuck(net: Network, coins: Coins, tx: TX, k: nat, m: nat)
    requires k <= m <= |tx.inputs|
    requires forall i :: 0 <= i < m ==> tx.inputs[i].prevout in coins
    requires LinksAfter(net, coins, tx, k).IsFailure()
    ensures LinksAfter(net, coins, tx, m) == LinksAfter(net, coins, tx, k)
  {
    hide LinkRule;
    if k < m {
      LinksStuck(net, coins, tx, k, m - 1);
    }
  }

  // ---------------------------------------------------------------------
  // Blocks
  // ---------------------------------------------------------------------

  /** The coins spent by the first `k` transactions, in spending order. */
  function UndoFirst(c: Context, w: Work, txs: seq<TX>, k: nat): seq<CoinEntry>
    requires k <= |txs| && (forall i :: 0 <= i < |txs| ==> SaneAt(c.net, txs, i))
    requires WorkAfter(c, w, txs, k).Accept?
  {
    if k <= 1 then []
    else UndoFirst(c, w, txs, k - 1) + SpentBy(WorkAfter(c, w, txs, k - 1).value.coins, txs[k - 1])
  }

  /** The view stands where the specification is after `k` transactions. */
  ghost predicate ViewAt(c: Context, w: Work, txs: seq<TX>, k: nat, view: CoinView)
    requires k <= |txs| && (forall i :: 0 <= i < |txs| ==> SaneAt(c.net, txs, i))
    reads view
  {
    && WorkAfter(c, w, txs, k).Accept?
    && var now := WorkAfter(c, w, txs, k).value;
    && Overlay(w.coins, view.map_) == now.coins
    && OverlayNames(w.names, view.names) == now.names
    && TrackedOk(w.names, view.names)
    && w.airdrops + view.bits.Keys == now.airdrops
    && (forall b :: b in view.bits ==> view.bits[b] && b !in w.airdrops)
    && (k == 0 ==> view.bits == map[])
    && view.undo == UndoFirst(c, w, txs, k)
    && (forall op :: op in view.map_ ==>
          op in w.coins || exists i :: 0 <= i < k && op.hash == txs[i].hash)
    && Readable(c, w, txs, k, view.map_)
  }

  /** Every coin spent so far can still be read in the view. */
  ghost predicate Readable(c: Context, w: Work, txs: seq<TX>, k: nat, m: map<Outpoint, ViewCoin>)
    requires k <= |txs| && (forall i :: 0 <= i < |txs| ==> SaneAt(c.net, txs, i))
  {
    forall i, j :: 1 <= i < k && 0 <= j < |txs[i].inputs| ==>
      && txs[i].inputs[j].prevout in m
      && WorkAfter(c, w, txs, i).Accept?
      && txs[i].inputs[j].prevout in WorkAfter(c, w, txs, i).value.coins
      && m[txs[i].inputs[j].prevout].entry
         == WorkAfter(c, w, txs, i).value.coins[txs[i].inputs[j].prevout]
  }

  ghost predicate FreshIn(coins: Coins, txs: seq<TX>) {
    && (forall op, i :: op in coins && 0 <= i < |txs| ==> op.hash != txs[i].hash)
    && (forall i, j :: 0 <= i < j < |txs| ==> txs[i].hash != txs[j].hash)
  }

  lemma CoinbaseFacts(c: Context, w: Work, tx: TX)
    requires SaneCoinbase(c.net, tx) && CoinbaseStep(c, w, tx).Accept?
    ensures 1 <= |tx.inputs| <= |tx.outputs| && BitsAfter(c.net, w.airdrops, tx, |tx.inputs|).Accept?
    ensures NamesAfter(c, w.names, tx, |tx.outputs|).Accept?
    ensures var next := CoinbaseStep(c, w, tx).value;
            && next.coins == w.coins + CreatedBy(tx, c.Height())
            && next.names == NamesAfter(c, w.names, tx, |tx.outputs|).value
            && next.airdrops == BitsAfter(c.net, w.airdrops, tx, |tx.inputs|).value
            && next.stats == StatsAddAll(w.stats, tx.outputs)
  {
  }

  lemma SpendFacts(c: Context, w: Work, tx: TX)
    requires SaneTX(c.net, tx) && SpendStep(c, w, tx).Accept?
    ensures forall j, k :: 0 <= j < k < |tx.inputs| ==> tx.inputs[j].prevout != tx.inputs[k].prevout
    ensures forall j :: 0 <= j < |tx.inputs| ==> tx.inputs[j].prevout in w.coins
    ensures NamesAfter(c, w.names, tx, |tx.outputs|).Accept?
    ensures var next := SpendStep(c, w, tx).value;
            && next.coins == w.coins - Prevouts(tx) + CreatedBy(tx, c.Height())
            && next.names == NamesAfter(c, w.names, tx, |tx.outputs|).value
            && next.airdrops == w.airdrops
            && next.stats == StatsAddAll(StatsSpendAll(w.stats, SpentBy(w.coins, tx)), tx.outputs)
  {
    hide NamesAfter, LinksAfter, CreatedBy, Prevouts, StatsAddAll, StatsSpendAll, SpentFirst;
  }

  lemma CreatedHash(tx: TX, height: nat)
    ensures forall op :: op in CreatedBy(tx, height) ==> op.hash == tx.hash
  {
  }

  lemma {:induction false} WorkCoins(c: Context, w: Work, txs: seq<TX>, k: nat, op: Outpoint)
    requires k <= |txs| && (forall i :: 0 <= i < |txs| ==> SaneAt(c.net, txs, i))
    requires WorkAfter(c, w, txs, k).Accept?
    requires op in WorkAfter(c, w, txs, k).value.coins
    ensures op in w.coins || exists i :: 0 <= i < k && op.hash == txs[i].hash
  {
    hide CoinbaseStep, SpendStep, SaneCoinbase, SaneTX, CreatedBy, Prevouts;
    if k > 0 {
      var before, tx := WorkAfter(c, w, txs, k - 1).value, txs[k - 1];
      assert SaneAt(c.net, txs, k - 1);
      CreatedHash(tx, c.Height());
      if k == 1 {
        CoinbaseFacts(c, before, tx);
      } else {
        SpendFacts(c, before, tx);
      }
      if op in before.coins {
        WorkCoins(c, w, txs, k - 1, op);
      }
    }
  }

  /** Transaction `k` is new to both the coins and the view. */
  lemma NewHere(c: Context, w: Work, txs: seq<TX>, k: nat, view: CoinView)
    requires k < |txs| && (forall i :: 0 <= i < |txs| ==> SaneAt(c.net, txs, i))
    requires ViewAt(c, w, txs, k, view) && FreshIn(w.coins, txs)
    ensures HashUnused(view.map_, txs[k].hash)
    ensures forall op :: op in w.coins ==> op.hash != txs[k].hash
    ensures forall op :: op in WorkAfter(c, w, txs, k).value.coins ==> op.hash != txs[k].hash
  {
    hide WorkAfter, SaneAt, UndoFirst, Readable, TrackedOk, Overlay, OverlayNames;
    forall op | op in WorkAfter(c, w, txs, k).value.coins
      ensures op.hash != txs[k].hash
    {
      WorkCoins(c, w, txs, k, op);
    }
  }

  /** What a transaction must leave in the view for the next one to start. */
  lemma NextView(c: Context, w: Work, txs: seq<TX>, k: nat, view: CoinView,
                 before: map<Outpoint, ViewCoin>)
    requires k < |txs| && (forall i :: 0 <= i < |txs| ==> SaneAt(c.net, txs, i))
    requires WorkAfter(c, w, txs, k).Accept? && WorkAfter(c, w, txs, k + 1).Accept?
    requires FreshIn(w.coins, txs)
    requires Readable(c, w, txs, k, before)
    requires forall op :: op in before ==> op in w.coins || exists i :: 0 <= i < k && op.hash == txs[i].hash
    requires forall op :: op in before ==> op in view.map_ && view.map_[op].entry == before[op].entry
    requires forall op :: op in view.map_ ==> op in before || op in w.coins || op.hash == txs[k].hash
    requires k >= 1 ==>
               forall j :: 0 <= j < |txs[k].inputs| ==>
                 && txs[k].inputs[j].prevout in view.map_
                 && txs[k].inputs[j].prevout in WorkAfter(c, w, txs, k).value.coins
                 && view.map_[txs[k].inputs[j].prevout].entry
                    == WorkAfter(c, w, txs, k).value.coins[txs[k].inputs[j].prevout]
    ensures Readable(c, w, txs, k + 1, view.map_)
    ensures forall op :: op in view.map_ ==>
              op in w.coins || exists i :: 0 <= i < k + 1 && op.hash == txs[i].hash
  {
    hide WorkAfter, SaneAt;
  }

  /** Records keep their height along the chain. */
  lemma {:induction false} ReplayLive(net: Network, blocks: seq<Block>)
    requires Replay(net, blocks).Accept?
    ensures Live(Replay(net, blocks).value.names)
  {
    hide ConnectBlock;
    if blocks != [] {
      ReplayLive(net, blocks[..|blocks| - 1]);
      ConnectLive(net, Replay(net, blocks[..|blocks| - 1]).value, blocks[|blocks| - 1]);
    }
  }

  lemma ConnectLive(net: Network, before: LedgerState, block: Block)
    requires Live(before.names) && ConnectBlock(net, before, block).Accept?
    ensures Live(ConnectBlock(net, before, block).value.names)
  {
    hide TxStep, Live;
    SaneTxs(net, before, block);
    WorkStaysLive(ContextOf(net, before), WorkOf(before, block), block.txs, |block.txs|);
  }

  lemma SaneTxs(net: Network, ledger: LedgerState, block: Block)
    requires SaneBlock(net, ledger, block)
    ensures forall i :: 0 <= i < |block.txs| ==> SaneAt(net, block.txs, i)
    ensures FreshIn(ledger.coins, block.txs)
    ensures forall i, j :: 0 <= i < |block.txs| && 0 <= j < |block.txs[i].outputs|
                           && block.txs[i].outputs[j].covenant.IsName()
              ==> 1 <= |ledger.main|
  {
  }

  method VerifyCoinbase(c: Context, w: Work, txs: seq<TX>, view: CoinView) returns (o: Outcome<()>)
    requires 0 < |txs| && (forall i :: 0 <= i < |txs| ==> SaneAt(c.net, txs, i))
    requires c.coins == w.coins && FreshIn(w.coins, txs) && Live(w.names)
    requires forall i :: 0 <= i < |txs[0].outputs| && txs[0].outputs[i].covenant.IsName() ==> 1 <= c.Height()
    requires ViewAt(c, w, txs, 0, view)
    modifies view
    ensures o == Done(TxStep(c, w, txs, 0))
    ensures o.Accept? ==> ViewAt(c, w, txs, 1, view)
  {
    hide NamesAfter, Overlay, OverlayNames, TrackedOk, BitsAfter, CreatedBy, Live;
    var tx := txs[0];
    assert SaneAt(c.net, txs, 0);
    NewHere(c, w, txs, 0, view);
    ghost var before := view.map_;
    var ok := view.SpendBits(w.airdrops, c.net.airdropLeaves, c.net, tx);
    if !ok {
      return Reject("bad-txns-bits-missingorspent");
    }
    if exists i :: 0 <= i < |tx.outputs| && tx.outputs[i].covenant.Claim?
                   && tx.outputs[i].covenant.height != c.Height() {
      return Reject("bad-txns-claims");
    }
    o := VerifyCovenants(c, w.names, view, tx);
    if !o.Accept? {
      return;
    }
    view.AddTX(c.coins, tx, c.Height());
    AllBits(view.bits);
    assert WorkAfter(c, w, txs, 1) == TxStep(c, w, txs, 0);
    NextView(c, w, txs, 0, view, before);
  }

  lemma AllBits(bits: map<nat, bool>)
    requires forall b :: b in bits ==> bits[b]
    ensures (set b | b in bits && bits[b]) == bits.Keys
  {
  }

  /** A spend's effect, from the pieces the view computed. */
  lemma SpendAccepted(c: Context, w: Work, tx: TX, names: NameMap)
    requires SaneTX(c.net, tx)
    requires forall i :: 0 <= i < |tx.inputs| ==> tx.inputs[i].prevout in w.coins
    requires LinksAfter(c.net, w.coins, tx, |tx.inputs|).Accept?
    ensures Done(SpendStep(c, w, tx)) == Done(NamesAfter(c, w.names, tx, |tx.outputs|))
    ensures NamesAfter(c, w.names, tx, |tx.outputs|) == Accept(names) ==>
              && SpendStep(c, w, tx).Accept?
              && SpendStep(c, w, tx).value.coins
                 == w.coins - Prevouts(tx) + CreatedBy(tx, c.Height())
              && SpendStep(c, w, tx).value.names == names
              && SpendStep(c, w, tx).value.airdrops == w.airdrops
  {
    hide LinksAfter, NamesAfter, CreatedBy, Prevouts;
  }

  lemma SpendRejected(c: Context, w: Work, tx: TX)
    requires SaneTX(c.net, tx)
    ensures !(forall i :: 0 <= i < |tx.inputs| ==> tx.inputs[i].prevout in w.coins) ==>
              SpendStep(c, w, tx) == Reject("bad-txns-inputs-missingorspent")
    ensures (forall i :: 0 <= i < |tx.inputs| ==> tx.inputs[i].prevout in w.coins)
            && LinksAfter(c.net, w.coins, tx, |tx.inputs|).IsFailure() ==>
              Done(SpendStep(c, w, tx)) == LinksAfter(c.net, w.coins, tx, |tx.inputs|)
  {
    hide LinksAfter, NamesAfter, CreatedBy;
  }

  /** The view after a spend, assembled. */
  lemma CloseSpend(c: Context, w: Work, txs: seq<TX>, k: nat, view: CoinView,
                   before: map<Outpoint, ViewCoin>, undo: seq<CoinEntry>)
    requires 1 <= k < |txs| && (forall i :: 0 <= i < |txs| ==> SaneAt(c.net, txs, i))
    requires SaneAt(c.net, txs, k) && SaneTX(c.net, txs[k])
    requires WorkAfter(c, w, txs, k).Accept? && FreshIn(w.coins, txs)
    requires SpendStep(c, WorkAfter(c, w, txs, k).value, txs[k]).Accept?
    requires undo == UndoFirst(c, w, txs, k)
    requires var now := WorkAfter(c, w, txs, k).value;
             && (forall i :: 0 <= i < |txs[k].inputs| ==> txs[k].inputs[i].prevout in now.coins)
             && view.undo == undo + SpentBy(now.coins, txs[k])
             && w.airdrops + view.bits.Keys == now.airdrops
    requires forall b :: b in view.bits ==> view.bits[b] && b !in w.airdrops
    requires var next := SpendStep(c, WorkAfter(c, w, txs, k).value, txs[k]).value;
             && Overlay(w.coins, view.map_) == next.coins
             && OverlayNames(w.names, view.names) == next.names
             && TrackedOk(w.names, view.names)
             && next.airdrops == WorkAfter(c, w, txs, k).value.airdrops
    requires Readable(c, w, txs, k + 1, view.map_)
    requires forall op :: op in view.map_ ==>
               op in w.coins || exists i :: 0 <= i < k + 1 && op.hash == txs[i].hash
    ensures ViewAt(c, w, txs, k + 1, view)
  {
    hide Overlay, OverlayNames, TrackedOk, Readable, SpendStep, SpentFirst;
    assert WorkAfter(c, w, txs, k + 1) == SpendStep(c, WorkAfter(c, w, txs, k).value, txs[k]);
  }

  method VerifySpend(c: Context, w: Work, txs: seq<TX>, k: nat, view: CoinView) returns (o: Outcome<()>)
    requires 1 <= k < |txs| && (forall i :: 0 <= i < |txs| ==> SaneAt(c.net, txs, i))
    requires c.coins == w.coins && FreshIn(w.coins, txs)
    requires ViewAt(c, w, txs, k, view) && Live(WorkAfter(c, w, txs, k).value.names)
    requires forall i :: 0 <= i < |txs[k].outputs| && txs[k].outputs[i].covenant.IsName() ==> 1 <= c.Height()
    modifies view
    ensures o == Done(TxStep(c, WorkAfter(c, w, txs, k).value, txs, k))
    ensures o.Accept? ==> ViewAt(c, w, txs, k + 1, view)
  {
    hide NamesAfter, LinksAfter, Overlay, OverlayNames, TrackedOk, CreatedBy, Live, Readable,
      PrevoutsFirst, SpentFirst, WorkAfter, SpendStep, UndoFirst;
    var tx := txs[k];
    assert SaneAt(c.net, txs, k);
    NewHere(c, w, txs, k, view);
    ghost var now, before, undo := WorkAfter(c, w, txs, k).value, view.map_, view.undo;
    SpendRejected(c, now, tx);
    var ok := view.SpendInputs(c.coins, tx);
    if !ok {
      return Reject("bad-txns-inputs-missingorspent");
    }
    o := CheckLinks(c.net, now.coins, view, tx);
    if !o.Accept? {
      return;
    }
    ghost var names := NamesAfter(c, now.names, tx, |tx.outputs|);
    o := VerifyCovenants(c, w.names, view, tx);
    SpendAccepted(c, now, tx, if names.Accept? then names.value else map[]);
    if !o.Accept? {
      return;
    }
    view.AddTX(c.coins, tx, c.Height());
    WorkNext(c, w, txs, k);
    NextView(c, w, txs, k, view, before);
    CloseSpend(c, w, txs, k, view, before, undo);
  }

  lemma WorkNext(c: Context, w: Work, txs: seq<TX>, k: nat)
    requires k < |txs| && (forall i :: 0 <= i < |txs| ==> SaneAt(c.net, txs, i))
    requires WorkAfter(c, w, txs, k).Accept?
    ensures WorkAfter(c, w, txs, k + 1) == TxStep(c, WorkAfter(c, w, txs, k).value, txs, k)
  {
    hide TxStep;
  }

  lemma {:induction false} WorkStaysLive(c: Context, w: Work, txs: seq<TX>, k: nat)
    requires k <= |txs| && (forall i :: 0 <= i < |txs| ==> SaneAt(c.net, txs, i))
    requires Live(w.names)
    requires forall i, j :: 0 <= i < |txs| && 0 <= j < |txs[i].outputs| && txs[i].outputs[j].covenant.IsName()
               ==> 1 <= c.Height()
    requires WorkAfter(c, w, txs, k).Accept?
    ensures Live(WorkAfter(c, w, txs, k).value.names)
  {
    hide NamesAfter, LinksAfter, BitsAfter, CreatedBy, Live;
    if k > 0 {
      WorkStaysLive(c, w, txs, k - 1);
      assert SaneAt(c.net, txs, k - 1);
      NamesStayLive(c, WorkAfter(c, w, txs, k - 1).value.names, txs[k - 1], |txs[k - 1].outputs|);
    }
  }

  lemma {:induction false} WorkStuck(c: Context, w: Work, txs: seq<TX>, k: nat, m: nat)
    requires k <= m <= |txs| && (forall i :: 0 <= i < |txs| ==> SaneAt(c.net, txs, i))
    requires WorkAfter(c, w, txs, k).IsFailure()
    ensures Done(WorkAfter(c, w, txs, m)) == Done(WorkAfter(c, w, txs, k))
  {
    hide TxStep;
    if k < m {
      WorkStuck(c, w, txs, k, m - 1);
    }
  }

  /** `verifyInputs`: the whole block over a fresh view.  The verdict is the
      specification's, and on acceptance the view holds its result. */
  method VerifyInputs(c: Context, w: Work, txs: seq<TX>) returns (o: Outcome<()>, view: CoinView)
    requires 0 < |txs| && (forall i :: 0 <= i < |txs| ==> SaneAt(c.net, txs, i))
    requires c.coins == w.coins && FreshIn(w.coins, txs) && Live(w.names)
    requires forall i, j :: 0 <= i < |txs| && 0 <= j < |txs[i].outputs| && txs[i].outputs[j].covenant.IsName()
               ==> 1 <= c.Height()
    ensures fresh(view)
    ensures o == Done(WorkAfter(c, w, txs, |txs|))
    ensures o.Accept? ==> ViewAt(c, w, txs, |txs|, view)
  {
    hide TxStep, ViewAt, Live;
    view := new CoinView();
    EmptyView(c, w, txs, view);
    var i := 0;
    while i < |txs|
      invariant 0 <= i <= |txs|
      invariant ViewAt(c, w, txs, i, view) && WorkAfter(c, w, txs, i).Accept?
    {
      if i == 0 {
        o := VerifyCoinbase(c, w, txs, view);
      } else {
        WorkStaysLive(c, w, txs, i);
        o := VerifySpend(c, w, txs, i, view);
      }
      if !o.Accept? {
        WorkStuck(c, w, txs, i + 1, |txs|);
        return;
      }
      i := i + 1;
    }
    o := Accept(());
  }

  lemma EmptyView(c: Context, w: Work, txs: seq<TX>, view: CoinView)
    requires forall i :: 0 <= i < |txs| ==> SaneAt(c.net, txs, i)
    requires view.map_ == map[] && view.undo == [] && view.names == map[] && view.bits == map[]
    ensures ViewAt(c, w, txs, 0, view)
  {
    assert Overlay(w.coins, map[]) == w.coins;
    assert OverlayNames(w.names, map[]) == w.names;
    assert w.airdrops + view.bits.Keys == w.airdrops;
  }
}
