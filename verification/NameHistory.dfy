/**
 What a name record holds, read off the outputs of the chain: when the auction
 began, when the name was last renewed and how often, whether a transfer is under
 way, who holds it, and what it resolves to.
 */
module NameHistory {
  import opened Primitives
  import opened Names
  import opened Ledger
  import opened Auction
  import opened Ownership
  import Vickrey

  /** An output and the height of its block. */
  datatype Event = Event(op: Outpoint, output: Output, at: nat)

  function EventsUpTo(tx: TX, height: nat, k: nat): seq<Event>
    requires k <= |tx.outputs|
  {
    seq(k, i requires 0 <= i < k => Event(tx.OutpointAt(i), tx.outputs[i], height))
  }

  function EventsAfter(log: seq<Event>, txs: seq<TX>, height: nat, k: nat): seq<Event>
    requires k <= |txs|
  {
    if k == 0 then log
    else EventsAfter(log, txs, height, k - 1) + EventsUpTo(txs[k - 1], height, |txs[k - 1].outputs|)
  }

  /** All outputs of the chain, in order. */
  function Events(blocks: seq<Block>): seq<Event> {
    if blocks == [] then []
    else
      var last := blocks[|blocks| - 1];
      EventsAfter(Events(blocks[..|blocks| - 1]), last.txs, |blocks| - 1, |last.txs|)
  }

  // ---------------------------------------------------------------------
  // The history of a name
  // ---------------------------------------------------------------------

  predicate Begins(e: Event, n: Hash) {
    (e.output.covenant.Open? || e.output.covenant.Claim?) && e.output.covenant.nameHash == n
  }

  /** The last OPEN or CLAIM. */
  function Beginning(log: seq<Event>, n: Hash): (b: Option<Event>)
    ensures b.Some? ==> b.value in log && Begins(b.value, n)
  {
    if log == [] then None
    else if Begins(log[|log| - 1], n) then Some(log[|log| - 1])
    else Beginning(log[..|log| - 1], n)
  }

  /** The name was opened or claimed before this height. */
  predicate BegunBefore(log: seq<Event>, n: Hash, height: nat) {
    exists e :: e in log && Begins(e, n) && e.at < height
  }

  predicate Owns(e: Event, n: Hash, height: nat) {
    var cov := e.output.covenant;
    cov.IsLocked() && cov.nameHash == n && cov.height == height
  }

  /** What the winner of an auction and those after him did: REGISTER to REVOKE. */
  function Tenure(log: seq<Event>, n: Hash, height: nat): seq<Event> {
    if log == [] then []
    else
      Tenure(log[..|log| - 1], n, height)
      + if Owns(log[|log| - 1], n, height) then [log[|log| - 1]] else []
  }

  /** The height of the last REGISTER, RENEW or FINALIZE. */
  function LastRenewal(tenure: seq<Event>, height: nat): nat {
    if tenure == [] then height
    else
      var e := tenure[|tenure| - 1];
      if e.output.covenant.Register? || e.output.covenant.Renew? || e.output.covenant.Finalize? then e.at
      else LastRenewal(tenure[..|tenure| - 1], height)
  }

  /** How many RENEWs and FINALIZEs. */
  function Renewals(tenure: seq<Event>): nat {
    if tenure == [] then 0
    else
      var cov := tenure[|tenure| - 1].output.covenant;
      Renewals(tenure[..|tenure| - 1]) + if cov.Renew? || cov.Finalize? then 1 else 0
  }

  /** The height of the TRANSFER that nothing followed yet, 0 if there is none. */
  function Pending(tenure: seq<Event>): nat {
    if tenure != [] && tenure[|tenure| - 1].output.covenant.Transfer? then tenure[|tenure| - 1].at else 0
  }

  function RevokedAt(tenure: seq<Event>): nat {
    if tenure != [] && tenure[|tenure| - 1].output.covenant.Revoke? then tenure[|tenure| - 1].at else 0
  }

  /** The last output that was not the REVOKE. */
  function Holder(tenure: seq<Event>): Option<Outpoint> {
    if tenure == [] then None
    else if tenure[|tenure| - 1].output.covenant.Revoke? then Holder(tenure[..|tenure| - 1])
    else Some(tenure[|tenure| - 1].op)
  }

  predicate Writes(e: Event, n: Hash) {
    (e.output.covenant.Register? || e.output.covenant.Update?)
    && e.output.covenant.nameHash == n && |e.output.covenant.data| > 0
  }

  predicate Erases(e: Event, n: Hash) {
    e.output.covenant.Revoke? && e.output.covenant.nameHash == n
  }

  /** The last data that a REGISTER or UPDATE brought, unless a REVOKE came later;
      it outlives the auction it was written in. */
  function LastData(log: seq<Event>, n: Hash): Bytes {
    if log == [] then []
    else if Writes(log[|log| - 1], n) then log[|log| - 1].output.covenant.data
    else if Erases(log[|log| - 1], n) then []
    else LastData(log[..|log| - 1], n)
  }

  // ---------------------------------------------------------------------
  // The record tells the history
  // ---------------------------------------------------------------------

  predicate BeganAs(log: seq<Event>, n: Hash, r: NameRec, b: Event) {
    var cov := b.output.covenant;
    && r.height == b.at
    && (if cov.Claim? then
          r.claimed == cov.commitHeight && r.claimed != 0 && r.weak == cov.IsWeak() && !r.expired
          && (!r.registered ==> r.owner == b.op)
        else
          r.claimed == 0 && !r.weak && (r.expired <==> BegunBefore(log, n, r.height)))
  }

  predicate TenureOk(r: NameRec, tenure: seq<Event>) {
    && (r.registered <==> tenure != [])
    && r.renewal == LastRenewal(tenure, r.height)
    && r.renewals == Renewals(tenure)
    && r.transfer == Pending(tenure)
    && r.revoked == RevokedAt(tenure)
    && (tenure != [] ==> Holder(tenure) == Some(r.owner))
    && (forall i :: 0 <= i < |tenure| ==>
          && tenure[i].at != 0
          && (tenure[i].output.covenant.Register? <==> i == 0)
          && (tenure[i].output.covenant.Revoke? ==> i == |tenure| - 1))
  }

  ghost predicate HistoryOk(net: Network, log: seq<Event>, n: Hash, r: NameRec) {
    && net.hashName(r.name) == n
    && Beginning(log, n).Some? && BeganAs(log, n, r, Beginning(log, n).value)
    && TenureOk(r, Tenure(log, n, r.height))
    && r.data == LastData(log, n)
  }

  ghost predicate Told(log: seq<Event>, names: NameMap) {
    forall e :: e in log && e.output.covenant.IsName() ==>
      var cov := e.output.covenant;
      cov.nameHash in names && (cov.IsLocked() ==> cov.height <= names[cov.nameHash].height)
  }

  ghost predicate HistoriesOk(net: Network, log: seq<Event>, names: NameMap) {
    && Told(log, names)
    && forall n :: n in names ==> HistoryOk(net, log, n, names[n])
  }

  // ---------------------------------------------------------------------
  // One more output
  // ---------------------------------------------------------------------

  lemma Appended(log: seq<Event>, e: Event, n: Hash, height: nat)
    ensures var all := log + [e];
            && Beginning(all, n) == (if Begins(e, n) then Some(e) else Beginning(log, n))
            && (BegunBefore(all, n, height) <==> BegunBefore(log, n, height) || (Begins(e, n) && e.at < height))
            && Tenure(all, n, height) == Tenure(log, n, height) + (if Owns(e, n, height) then [e] else [])
            && LastData(all, n) == (if Writes(e, n) then e.output.covenant.data
                                    else if Erases(e, n) then [] else LastData(log, n))
  {
    var all := log + [e];
    assert all[..|log|] == log && all[|log|] == e;
    assert e in all && forall x :: x in log ==> x in all;
  }

  lemma {:induction false} NoTenure(log: seq<Event>, n: Hash, height: nat)
    requires forall e :: e in log ==> !Owns(e, n, height)
    ensures Tenure(log, n, height) == []
  {
    if log != [] {
      NoTenure(log[..|log| - 1], n, height);
    }
  }

  lemma {:induction false} NoData(log: seq<Event>, n: Hash)
    requires forall e :: e in log ==> !Writes(e, n) && !Erases(e, n)
    ensures LastData(log, n) == []
  {
    if log != [] {
      NoData(log[..|log| - 1], n);
    }
  }

  lemma TenureMore(tenure: seq<Event>, e: Event, height: nat)
    ensures var all, cov := tenure + [e], e.output.covenant;
            && LastRenewal(all, height) == (if cov.Register? || cov.Renew? || cov.Finalize? then e.at
                                            else LastRenewal(tenure, height))
            && Renewals(all) == Renewals(tenure) + (if cov.Renew? || cov.Finalize? then 1 else 0)
            && Pending(all) == (if cov.Transfer? then e.at else 0)
            && RevokedAt(all) == (if cov.Revoke? then e.at else 0)
            && Holder(all) == (if cov.Revoke? then Holder(tenure) else Some(e.op))
  {
    assert (tenure + [e])[..|tenure|] == tenure;
  }

  /** Outputs of other names, and outputs that carry no name. */
  lemma OtherName(net: Network, log: seq<Event>, e: Event, n: Hash, r: NameRec)
    requires HistoryOk(net, log, n, r)
    requires e.output.covenant.IsName() ==> e.output.covenant.nameHash != n
    ensures HistoryOk(net, log + [e], n, r)
  {
    hide Tenure, Beginning, LastData, BegunBefore, TenureOk;
    Appended(log, e, n, r.height);
    assert Tenure(log, n, r.height) + [] == Tenure(log, n, r.height);
  }

  /** A name output that begins nothing: the tenure grows by it or stays. */
  lemma SameAuction(net: Network, log: seq<Event>, e: Event, n: Hash, r: NameRec, r': NameRec)
    requires HistoryOk(net, log, n, r) && !Begins(e, n)
    requires r'.name == r.name && r'.height == r.height && r'.claimed == r.claimed && r'.weak == r.weak
             && r'.expired == r.expired
    requires r.claimed == 0 || r'.registered || (r'.registered == r.registered && r'.owner == r.owner)
    requires TenureOk(r', Tenure(log, n, r.height) + if Owns(e, n, r.height) then [e] else [])
    requires r'.data == if Writes(e, n) then e.output.covenant.data
                        else if Erases(e, n) then [] else LastData(log, n)
    ensures HistoryOk(net, log + [e], n, r')
  {
    hide Tenure, Beginning, LastData, BegunBefore, TenureOk;
    Appended(log, e, n, r.height);
  }

  /** UPDATE, RENEW, TRANSFER and FINALIZE. */
  lemma OwnerHistory(c: Context, log: seq<Event>, n: Hash, r: NameRec, e: Event)
    requires HistoryOk(c.net, log, n, r) && r.registered && e.at == c.Height() && 1 <= e.at
    requires var cov := e.output.covenant;
             (cov.Update? || cov.Renew? || cov.Transfer? || cov.Finalize?) && cov.nameHash == n
    requires OwnerRule(c, r, e.output.covenant, e.op).Accept?
    ensures HistoryOk(c.net, log + [e], n, OwnerRule(c, r, e.output.covenant, e.op).value)
  {
    hide Tenure, Beginning, LastData, BegunBefore, BeganAs, VerifyRenewal, LastRenewal, Renewals, Holder;
    var r', tenure := OwnerRule(c, r, e.output.covenant, e.op).value, Tenure(log, n, r.height);
    TenureMore(tenure, e, r.height);
    SameAuction(c.net, log, e, n, r, r');
  }

  lemma RevokeHistory(c: Context, log: seq<Event>, n: Hash, r: NameRec, e: Event)
    requires HistoryOk(c.net, log, n, r) && r.registered && e.at == c.Height() && 1 <= e.at
    requires e.output.covenant.Revoke? && e.output.covenant.nameHash == n
    requires RevokeRule(c, r, e.output.covenant).Accept?
    ensures HistoryOk(c.net, log + [e], n, RevokeRule(c, r, e.output.covenant).value)
  {
    hide Tenure, Beginning, LastData, BegunBefore, BeganAs, LastRenewal, Renewals, Holder;
    var r', tenure := RevokeRule(c, r, e.output.covenant).value, Tenure(log, n, r.height);
    TenureMore(tenure, e, r.height);
    SameAuction(c.net, log, e, n, r, r');
  }

  lemma RegisterHistory(c: Context, log: seq<Event>, n: Hash, r: NameRec, e: Event, prevout: Outpoint)
    requires HistoryOk(c.net, log, n, r) && !r.registered && e.at == c.Height() && 1 <= e.at
    requires e.output.covenant.Register? && e.output.covenant.nameHash == n
    requires RegisterRule(c, r, e.output, e.op, prevout).Accept?
    ensures HistoryOk(c.net, log + [e], n, RegisterRule(c, r, e.output, e.op, prevout).value)
  {
    hide Tenure, Beginning, LastData, BegunBefore, BeganAs, VerifyRenewal, LastRenewal, Renewals, Holder;
    var r', tenure := RegisterRule(c, r, e.output, e.op, prevout).value, Tenure(log, n, r.height);
    assert tenure == [];
    TenureMore(tenure, e, r.height);
    NoTenureYet(r.height);
    SameAuction(c.net, log, e, n, r, r');
  }

  lemma NoTenureYet(height: nat)
    ensures LastRenewal([], height) == height && Renewals([]) == 0 && Holder([]) == None
  {
  }

  /** BID, REVEAL and REDEEM. */
  lemma AuctionHistory(c: Context, log: seq<Event>, n: Hash, r: NameRec, tx: TX, i: nat)
    requires i < |tx.outputs| && HistoryOk(c.net, log, n, r) && NameOk(c.net.names, c.Height(), r)
    requires var cov := tx.outputs[i].covenant;
             (cov.Bid? || cov.Reveal? || cov.Redeem?) && cov.nameHash == n
    requires PreparedRule(c, r, tx, i).Accept?
    ensures HistoryOk(c.net, log + [Event(tx.OutpointAt(i), tx.outputs[i], c.Height())], n,
                      PreparedRule(c, r, tx, i).value)
  {
    hide Tenure, Beginning, LastData, BegunBefore, BeganAs, LastRenewal, Renewals, Holder;
    var e, r' := Event(tx.OutpointAt(i), tx.outputs[i], c.Height()), PreparedRule(c, r, tx, i).value;
    var tenure := Tenure(log, n, r.height);
    assert tenure + [] == tenure;
    SameAuction(c.net, log, e, n, r, r');
  }

  /** An OPEN in an auction that began in the same block. */
  lemma ReopenHistory(c: Context, log: seq<Event>, n: Hash, r: NameRec, e: Event)
    requires HistoryOk(c.net, log, n, r) && e.at == c.Height()
    requires e.output.covenant.Open? && e.output.covenant.nameHash == n
    requires OpenRule(c, r, e.output.covenant).Accept?
    ensures HistoryOk(c.net, log + [e], n, OpenRule(c, r, e.output.covenant).value)
  {
    hide Tenure, Beginning, LastData, BegunBefore, TenureOk, IsReserved;
    Appended(log, e, n, r.height);
    assert Tenure(log, n, r.height) + [] == Tenure(log, n, r.height);
  }

  /** A CLAIM of a name that is not registered. */
  lemma ClaimHistory(c: Context, log: seq<Event>, names: NameMap, n: Hash, r: NameRec, e: Event)
    requires HistoryOk(c.net, log, n, r) && NameOk(c.net.names, c.Height(), r)
    requires Told(log, names) && n in names && names[n].height == r.height
    requires e.output.covenant.Claim? && e.output.covenant.nameHash == n && e.at == c.Height()
    requires ClaimRule(c, r, e.output, e.op).Accept?
    ensures HistoryOk(c.net, log + [e], n, ClaimRule(c, r, e.output, e.op).value)
  {
    hide Tenure, Beginning, LastData, BegunBefore, LastRenewal, Renewals, Holder, IsReserved;
    var r' := ClaimRule(c, r, e.output, e.op).value;
    assert !r.registered && Tenure(log, n, r.height) == [];
    if r.height < e.at {
      NoTenure(log, n, e.at);
    }
    Appended(log, e, n, e.at);
    NoTenureYet(r.height);
    NoTenureYet(e.at);
  }

  /** What begins a name anew, its data kept: an OPEN after it expired, or the
      first OPEN or CLAIM. */
  lemma FreshOpen(c: Context, log: seq<Event>, n: Hash, r: NameRec, e: Event)
    requires e.output.covenant.Open? && e.output.covenant.nameHash == n && e.at == c.Height()
    requires c.net.hashName(r.name) == n && r == NULL_REC.(name := r.name, height := e.at, renewal := e.at,
                                                          expired := r.expired, data := LastData(log, n))
    requires r.expired <==> BegunBefore(log, n, e.at)
    requires forall x :: x in log ==> !Owns(x, n, e.at)
    requires OpenRule(c, r, e.output.covenant).Accept?
    ensures HistoryOk(c.net, log + [e], n, OpenRule(c, r, e.output.covenant).value)
  {
    hide Tenure, Beginning, LastData, BegunBefore, LastRenewal, Renewals, Holder, IsReserved;
    NoTenure(log, n, e.at);
    Appended(log, e, n, e.at);
    NoTenureYet(e.at);
  }

  lemma FreshClaim(c: Context, log: seq<Event>, n: Hash, r: NameRec, e: Event)
    requires e.output.covenant.Claim? && e.output.covenant.nameHash == n && e.at == c.Height()
    requires c.net.hashName(r.name) == n && r == NULL_REC.(name := r.name, height := e.at, renewal := e.at,
                                                          data := LastData(log, n))
    requires forall x :: x in log ==> !Owns(x, n, e.at)
    requires ClaimRule(c, r, e.output, e.op).Accept?
    ensures HistoryOk(c.net, log + [e], n, ClaimRule(c, r, e.output, e.op).value)
  {
    hide Tenure, Beginning, LastData, BegunBefore, LastRenewal, Renewals, Holder, IsReserved;
    NoTenure(log, n, e.at);
    Appended(log, e, n, e.at);
    NoTenureYet(e.at);
  }

  /** A record that has just begun lets nothing but an OPEN or a CLAIM in. */
  lemma OnlyBeginnings(c: Context, r: NameRec, tx: TX, i: nat)
    requires i < |tx.outputs| && tx.outputs[i].covenant.IsName()
    requires r.height == c.Height() && r.revoked == 0 && r.claimed == 0
    requires PreparedRule(c, r, tx, i).Accept?
    ensures tx.outputs[i].covenant.Open? || (tx.outputs[i].covenant.Claim? && !r.expired)
  {
    hide IsReserved, VerifyRenewal;
  }

  /** A REGISTER spends the coin of a name that is not registered yet. */
  lemma RegisterFirst(c: Context, coins: Coins, names: NameMap, outs: map<Outpoint, Output>, tx: TX, i: nat)
    requires Inv(c.net.names, c.Height(), coins, names, outs)
    requires i < |tx.outputs| && i < |tx.inputs| && !tx.IsCoinbase() && tx.inputs[i].prevout in coins
    requires tx.outputs[i].covenant.Register? && tx.outputs[i].covenant.nameHash in names
    requires !tx.inputs[i].prevout.IsNull()
    requires LinkRule(c.net, coins[tx.inputs[i].prevout].output, Some(tx.outputs[i])).Accept?
    requires PreparedRule(c, names[tx.outputs[i].covenant.nameHash], tx, i).Accept?
    ensures !names[tx.outputs[i].covenant.nameHash].registered
  {
    hide VerifyRenewal;
    var n := tx.outputs[i].covenant.nameHash;
    assert NameOk(c.net.names, c.Height(), names[n]) && OwnerOk(n, names[n], coins, outs);
  }

  /** What one output may rely on. */
  ghost predicate Ready(c: Context, coins: Coins, names: NameMap, outs: map<Outpoint, Output>, log: seq<Event>, tx: TX,
                        i: nat) {
    && i < |tx.outputs|
    && Inv(c.net.names, c.Height(), coins, names, outs) && HistoriesOk(c.net, log, names)
    && (tx.outputs[i].covenant.IsName() ==> 1 <= c.Height())
    && (tx.outputs[i].covenant.Open? || tx.outputs[i].covenant.Claim? ==>
          c.net.hashName(tx.outputs[i].covenant.name) == tx.outputs[i].covenant.nameHash)
    && (tx.outputs[i].covenant.IsLinked() ==> !tx.IsCoinbase() && i < |tx.inputs|)
    && (SpentAt(tx, i).Some? ==>
          && tx.inputs[i].prevout in coins && !tx.inputs[i].prevout.IsNull()
          && LinkRule(c.net, coins[tx.inputs[i].prevout].output, Some(tx.outputs[i])).Accept?)
  }

  function EventAt(c: Context, tx: TX, i: nat): Event
    requires i < |tx.outputs|
  {
    Event(tx.OutpointAt(i), tx.outputs[i], c.Height())
  }

  /** An output of a name that goes on. */
  lemma KnownHistory(c: Context, coins: Coins, names: NameMap, outs: map<Outpoint, Output>, log: seq<Event>, tx: TX,
                     i: nat)
    requires Ready(c, coins, names, outs, log, tx, i)
    requires tx.outputs[i].covenant.IsName() && tx.outputs[i].covenant.nameHash in names
    requires var r := names[tx.outputs[i].covenant.nameHash];
             !r.IsNull() && r.MaybeExpire(c.Height(), c.net.names) == r && PreparedRule(c, r, tx, i).Accept?
    ensures var n := tx.outputs[i].covenant.nameHash;
            HistoryOk(c.net, log + [EventAt(c, tx, i)], n, PreparedRule(c, names[n], tx, i).value)
  {
    hide Inv, HistoryOk, NameOk, LinkRule, ClaimRule, OpenRule, BidRule, RevealRule, RedeemRule, RegisterRule,
      UpdateRule,
      RenewRule, TransferRule, FinalizeRule, RevokeRule;
    var cov, e := tx.outputs[i].covenant, EventAt(c, tx, i);
    var n := cov.nameHash;
    var r := names[n];
    assert HistoryOk(c.net, log, n, r);
    assert NameOk(c.net.names, c.Height(), r) by { RecordsOk(c.net.names, c.Height(), coins, names, outs); }
    if cov.Claim? {
      ClaimHistory(c, log, names, n, r, e);
    } else if cov.Open? {
      ReopenHistory(c, log, n, r, e);
    } else if cov.Bid? || cov.Reveal? || cov.Redeem? {
      AuctionHistory(c, log, n, r, tx, i);
    } else if cov.Register? {
      RegisterFirst(c, coins, names, outs, tx, i);
      RegisterHistory(c, log, n, r, e, tx.inputs[i].prevout);
    } else {
      assert Prepare(c, Find(names, n), cov) == Accept(r);
      Vickrey.LinkedIsRegistered(c, coins, names, outs, tx, i, r, PreparedRule(c, r, tx, i).value);
      if cov.Revoke? {
        RevokeHistory(c, log, n, r, e);
      } else {
        OwnerHistory(c, log, n, r, e);
      }
    }
  }

  /** An output of a name that begins anew. */
  lemma FreshHistory(c: Context, coins: Coins, names: NameMap, outs: map<Outpoint, Output>, log: seq<Event>, tx: TX,
                     i: nat, r: NameRec)
    requires Ready(c, coins, names, outs, log, tx, i) && tx.outputs[i].covenant.IsName()
    requires var n := tx.outputs[i].covenant.nameHash;
             && Prepare(c, Find(names, n), tx.outputs[i].covenant) == Accept(r)
             && (n in names ==> names[n].IsExpired(c.Height(), c.net.names))
    requires PreparedRule(c, r, tx, i).Accept?
    ensures HistoryOk(c.net, log + [EventAt(c, tx, i)], tx.outputs[i].covenant.nameHash, PreparedRule(c, r, tx, i).value)
  {
    hide Inv, NameOk, LinkRule, ClaimRule, OpenRule, BidRule, RevealRule, RedeemRule, RegisterRule, UpdateRule,
      RenewRule, TransferRule, FinalizeRule, RevokeRule, Tenure, LastData, Beginning, BegunBefore, LastRenewal,
      Renewals, Holder;
    var cov, e, h := tx.outputs[i].covenant, EventAt(c, tx, i), c.Height();
    var n := cov.nameHash;
    if n in names {
      assert HistoryOk(c.net, log, n, names[n]);
      RecordsOk(c.net.names, h, coins, names, outs);
      PrepareOk(c.net.names, h, names[n]);
      Recorded(c.net.names, h, names[n]);
      assert BegunBefore(log, n, h) by { BegunAt(log, n, Beginning(log, n).value, h); }
      assert r.expired && r.data == LastData(log, n);
    } else {
      NoData(log, n);
      assert !BegunBefore(log, n, h) by { NeverBegun(log, n, h); }
      assert !r.expired && r.data == LastData(log, n);
    }
    assert r.height == h && r.revoked == 0 && r.claimed == 0;
    OnlyBeginnings(c, r, tx, i);
    forall x | x in log ensures !Owns(x, n, h) {}
    if cov.Open? {
      FreshOpen(c, log, n, r, e);
    } else {
      FreshClaim(c, log, n, r, e);
    }
  }

  lemma BegunAt(log: seq<Event>, n: Hash, b: Event, height: nat)
    requires b in log && Begins(b, n) && b.at < height
    ensures BegunBefore(log, n, height)
  {
  }

  lemma NeverBegun(log: seq<Event>, n: Hash, height: nat)
    requires forall e :: e in log ==> !Begins(e, n)
    ensures !BegunBefore(log, n, height)
  {
  }

  lemma NamedHistory(c: Context, coins: Coins, names: NameMap, outs: map<Outpoint, Output>, log: seq<Event>, tx: TX,
                     i: nat)
    requires Ready(c, coins, names, outs, log, tx, i) && tx.outputs[i].covenant.IsName()
    requires OutputRule(c, Find(names, tx.outputs[i].covenant.nameHash), tx, i).Accept?
    ensures var cov := tx.outputs[i].covenant;
            var r' := OutputRule(c, Find(names, cov.nameHash), tx, i).value;
            && HistoryOk(c.net, log + [EventAt(c, tx, i)], cov.nameHash, r')
            && (cov.IsLocked() ==> cov.height == r'.height)
            && (cov.nameHash in names ==> names[cov.nameHash].height <= r'.height)
  {
    var cov := tx.outputs[i].covenant;
    var n := cov.nameHash;
    hide Inv, HistoryOk, NameOk, LinkRule, PreparedRule;
    var r := Prepare(c, Find(names, n), cov).value;
    if n in names {
      assert NameOk(c.net.names, c.Height(), names[n]) by { RecordsOk(c.net.names, c.Height(), coins, names, outs); }
      PrepareOk(c.net.names, c.Height(), names[n]);
      assert !names[n].IsNull() by { Recorded(c.net.names, c.Height(), names[n]); }
    }
    if n in names && !names[n].IsExpired(c.Height(), c.net.names) {
      KnownHistory(c, coins, names, outs, log, tx, i);
    } else {
      FreshHistory(c, coins, names, outs, log, tx, i, r);
    }
    Heights(c, r, tx, i);
  }

  lemma Recorded(net: NetworkNames, h: nat, r: NameRec)
    requires NameOk(net, h, r)
    ensures !r.IsNull()
  {
  }

  lemma Heights(c: Context, r: NameRec, tx: TX, i: nat)
    requires i < |tx.outputs| && tx.outputs[i].covenant.IsName() && r.height <= c.Height()
    requires PreparedRule(c, r, tx, i).Accept?
    ensures var r' := PreparedRule(c, r, tx, i).value;
            r.height <= r'.height && (tx.outputs[i].covenant.IsLocked() ==> tx.outputs[i].covenant.height == r'.height)
  {
    hide IsReserved, VerifyRenewal;
  }

  lemma OutputHistory(c: Context, coins: Coins, names: NameMap, outs: map<Outpoint, Output>, log: seq<Event>, tx: TX,
                      i: nat)
    requires Ready(c, coins, names, outs, log, tx, i) && OutputStep(c, names, tx, i).Accept?
    ensures HistoriesOk(c.net, log + [EventAt(c, tx, i)], OutputStep(c, names, tx, i).value)
  {
    hide Inv, HistoryOk, LinkRule, OutputRule;
    var cov, e, names' := tx.outputs[i].covenant, EventAt(c, tx, i), OutputStep(c, names, tx, i).value;
    if cov.IsName() {
      NamedHistory(c, coins, names, outs, log, tx, i);
    }
    forall m | m in names' ensures HistoryOk(c.net, log + [e], m, names'[m]) {
      if !cov.IsName() || m != cov.nameHash {
        OtherName(c.net, log, e, m, names[m]);
      }
    }
  }

  lemma {:induction false} OutputsHistory(c: Context, coins: Coins, names: NameMap, outs: map<Outpoint, Output>,
                                          log: seq<Event>, tx: TX, k: nat)
    requires k <= |tx.outputs|
    requires Inv(c.net.names, c.Height(), coins, names, outs) && HistoriesOk(c.net, log, names)
    requires TxReady(c, coins, outs, tx)
    requires NamesAfter(c, names, tx, k).Accept?
    ensures HistoriesOk(c.net, log + EventsUpTo(tx, c.Height(), k), NamesAfter(c, names, tx, k).value)
  {
    hide Inv, HistoriesOk, PairCoins, TxReady, LinkRule, OutputStep;
    if k == 0 {
      assert log + EventsUpTo(tx, c.Height(), 0) == log;
    } else {
      var i := k - 1;
      OutputsHistory(c, coins, names, outs, log, tx, i);
      OutputsKeepInv(c, coins, names, outs, tx, i);
      TxReadyAt(c, coins, outs, tx, i);
      BeginningsSane(c, coins, outs, tx, i);
      OutputHistory(c, PairCoins(coins, tx, c.Height(), i), NamesAfter(c, names, tx, i).value,
                    outs + OutsUpTo(tx, i), log + EventsUpTo(tx, c.Height(), i), tx, i);
      assert log + EventsUpTo(tx, c.Height(), i) + [EventAt(c, tx, i)] == log + EventsUpTo(tx, c.Height(), k);
    }
  }

  lemma BeginningsSane(c: Context, coins: Coins, outs: map<Outpoint, Output>, tx: TX, i: nat)
    requires i < |tx.outputs| && TxReady(c, coins, outs, tx)
    ensures tx.outputs[i].covenant.Open? || tx.outputs[i].covenant.Claim? ==>
              c.net.hashName(tx.outputs[i].covenant.name) == tx.outputs[i].covenant.nameHash
  {
    assert SaneNamed(c.net, tx.outputs[i].covenant);
  }

  lemma StepHistory(c: Context, w: Work, outs: map<Outpoint, Output>, log: seq<Event>, txs: seq<TX>, i: nat)
    requires i < |txs| && SaneAt(c.net, txs, i)
    requires Inv(c.net.names, c.Height(), w.coins, w.names, outs) && HistoriesOk(c.net, log, w.names)
    requires FreshFor(outs, w.coins, txs[i])
    requires forall j :: 0 <= j < |txs[i].outputs| && txs[i].outputs[j].covenant.IsName() ==> 1 <= c.Height()
    requires TxStep(c, w, txs, i).Accept?
    ensures HistoriesOk(c.net, log + EventsUpTo(txs[i], c.Height(), |txs[i].outputs|), TxStep(c, w, txs, i).value.names)
  {
    hide Inv, HistoriesOk, LinkRule, NamesAfter, LinksAfter, CreatedBy, BitsAfter, SaneNamed;
    if i > 0 {
      LinksHold(c.net, w.coins, txs[i], |txs[i].inputs|);
    }
    assert TxReady(c, w.coins, outs, txs[i]);
    OutputsHistory(c, w.coins, w.names, outs, log, txs[i], |txs[i].outputs|);
  }

  lemma {:induction false} WorkHistory(c: Context, w: Work, outs: map<Outpoint, Output>, log: seq<Event>, txs: seq<TX>,
                                       k: nat)
    requires k <= |txs|
    requires forall i :: 0 <= i < |txs| ==> SaneAt(c.net, txs, i)
    requires Inv(c.net.names, c.Height(), w.coins, w.names, outs) && HistoriesOk(c.net, log, w.names)
    requires FreshTxs(outs, w.coins, txs)
    requires forall i, j :: 0 <= i < |txs| && 0 <= j < |txs[i].outputs| && txs[i].outputs[j].covenant.IsName()
               ==> 1 <= c.Height()
    requires WorkAfter(c, w, txs, k).Accept?
    ensures HistoriesOk(c.net, EventsAfter(log, txs, c.Height(), k), WorkAfter(c, w, txs, k).value.names)
  {
    hide Inv, HistoriesOk, TxStep, SaneAt, EventsUpTo;
    if k > 0 {
      var i := k - 1;
      WorkHistory(c, w, outs, log, txs, i);
      WorkKeepsInv(c, w, outs, txs, i);
      var mid, outs' := WorkAfter(c, w, txs, i).value, OutsAfter(outs, txs, i);
      forall op | op in outs' ensures op.hash != txs[i].hash {
        OutsFromTxs(outs, txs, i, op);
      }
      CoinsAreOuts(c.net.names, c.Height(), mid.coins, mid.names, outs');
      StepHistory(c, mid, outs', EventsAfter(log, txs, c.Height(), i), txs, i);
    }
  }

  lemma BlockHistory(net: Network, before: LedgerState, init: seq<Block>, last: Block)
    requires UniqueTxids(init + [last])
    requires Inv(net.names, |before.main|, before.coins, before.names, AllOutputs(init))
    requires HistoriesOk(net, Events(init), before.names)
    requires ConnectBlock(net, before, last).Accept?
    ensures HistoriesOk(net, EventsAfter(Events(init), last.txs, |before.main|, |last.txs|),
                        ConnectBlock(net, before, last).value.names)
  {
    hide Inv, HistoriesOk, WorkAfter, FreshTxs, EventsAfter;
    FreshBlock(net, before, last, init);
    SaneBlockTxs(net, before, last);
    WorkHistory(ContextOf(net, before), WorkOf(before, last), AllOutputs(init), Events(init), last.txs, |last.txs|);
  }

  lemma NoHistory(net: Network)
    ensures HistoriesOk(net, Events([]), map[])
  {
  }

  lemma EventsStep(net: Network, blocks: seq<Block>, init: seq<Block>, last: Block)
    requires blocks == init + [last] && UniqueTxids(init) && Replay(net, init).Accept?
    ensures Events(blocks) == EventsAfter(Events(init), last.txs, |Replay(net, init).value.main|, |last.txs|)
  {
    hide EventsAfter;
    assert blocks[..|blocks| - 1] == init;
    ReachableInv(net, init);
  }

  /** On every chain, every record tells the history of its name. */
  lemma {:induction false} ReachableHistory(net: Network, blocks: seq<Block>)
    requires UniqueTxids(blocks) && Replay(net, blocks).Accept?
    ensures HistoriesOk(net, Events(blocks), Replay(net, blocks).value.names)
  {
    hide HistoriesOk, ConnectBlock, EventsAfter, OutsAfter, Inv;
    if blocks == [] {
      NoHistory(net);
    } else {
      var init, last := blocks[..|blocks| - 1], blocks[|blocks| - 1];
      assert init + [last] == blocks;
      ChainStep(net, blocks, init, last);
      ReachableHistory(net, init);
      ReachableInvNext(net, init);
      EventsStep(net, blocks, init, last);
      BlockHistory(net, Replay(net, init).value, init, last);
    }
  }

  // ---------------------------------------------------------------------
  // What this says
  // ---------------------------------------------------------------------

  /** Every name on record was opened or claimed; the record knows at which height
      last, by which claim, and whether that was after an earlier auction of it
      had run out; and until it is registered, a claimed name belongs to the last
      claim. */
  lemma AuctionBegan(net: Network, blocks: seq<Block>, n: Hash)
    requires UniqueTxids(blocks) && Replay(net, blocks).Accept?
    ensures n in Replay(net, blocks).value.names <==> Beginning(Events(blocks), n).Some?
    ensures n in Replay(net, blocks).value.names ==>
              var r, b := Replay(net, blocks).value.names[n], Beginning(Events(blocks), n).value;
              && net.hashName(r.name) == n && r.height == b.at
              && (if b.output.covenant.Claim? then
                    r.claimed == b.output.covenant.commitHeight && r.weak == b.output.covenant.IsWeak() && !r.expired
                    && (!r.registered ==> r.owner == b.op)
                  else
                    r.claimed == 0 && !r.weak && (r.expired <==> BegunBefore(Events(blocks), n, r.height)))
  {
    hide Replay, Events, Tenure, TenureOk, LastData, BegunBefore;
    ReachableHistory(net, blocks);
    var names := Replay(net, blocks).value.names;
    if n in names {
      assert HistoryOk(net, Events(blocks), n, names[n]);
    }
  }

  /** A name is registered once a REGISTER of its auction is on the chain, and what
      followed says when it was renewed and how often, whether a transfer is
      pending and since when, when it was revoked, and which outpoint owns it. */
  lemma OwnersDid(net: Network, blocks: seq<Block>, n: Hash)
    requires UniqueTxids(blocks) && Replay(net, blocks).Accept? && n in Replay(net, blocks).value.names
    ensures var r := Replay(net, blocks).value.names[n];
            var tenure := Tenure(Events(blocks), n, r.height);
            && (r.registered <==> tenure != [])
            && (tenure != [] ==> tenure[0].output.covenant.Register? && Holder(tenure) == Some(r.owner))
            && (forall i :: 0 < i < |tenure| ==> !tenure[i].output.covenant.Register?)
            && (forall i :: 0 <= i < |tenure| && tenure[i].output.covenant.Revoke? ==> i == |tenure| - 1)
            && r.renewal == LastRenewal(tenure, r.height) && r.renewals == Renewals(tenure)
            && r.transfer == Pending(tenure) && r.revoked == RevokedAt(tenure)
  {
    hide Replay, Events, Tenure, LastData, BegunBefore, Beginning, LastRenewal, Renewals, Pending, RevokedAt, Holder;
    ReachableHistory(net, blocks);
    assert HistoryOk(net, Events(blocks), n, Replay(net, blocks).value.names[n]);
  }

  /** What a name resolves to: the last data that a REGISTER or UPDATE of it brought,
      in whichever auction; nothing after a REVOKE, and nothing if none did. */
  lemma Resolves(net: Network, blocks: seq<Block>, n: Hash)
    requires UniqueTxids(blocks) && Replay(net, blocks).Accept? && n in Replay(net, blocks).value.names
    ensures var r, log := Replay(net, blocks).value.names[n], Events(blocks);
            && (forall k :: 0 <= k < |log| && Writes(log[k], n) && Untouched(log, n, k + 1) ==>
                  r.data == log[k].output.covenant.data)
            && (forall k :: 0 <= k < |log| && Erases(log[k], n) && Untouched(log, n, k + 1) ==> r.data == [])
            && (Untouched(log, n, 0) ==> r.data == [])
  {
    hide Replay, Events, Tenure, TenureOk, LastData, BegunBefore, Beginning, Untouched;
    ReachableHistory(net, blocks);
    var log := Events(blocks);
    assert HistoryOk(net, log, n, Replay(net, blocks).value.names[n]);
    forall k | 0 <= k <= |log| && Untouched(log, n, k)
      ensures LastData(log, n) == LastData(log[..k], n)
    {
      DataStays(log, n, k);
    }
    forall k | 0 <= k < |log|
      ensures Writes(log[k], n) ==> LastData(log[..k + 1], n) == log[k].output.covenant.data
      ensures Erases(log[k], n) ==> LastData(log[..k + 1], n) == []
    {
      assert log[..k + 1] == log[..k] + [log[k]];
      Appended(log[..k], log[k], n, 0);
      NotBoth(log[k], n);
    }
    assert log[..0] == [] && LastData([], n) == [] by { NoData([], n); }
  }

  /** From `k` on nothing writes or erases the data of the name. */
  predicate Untouched(log: seq<Event>, n: Hash, k: nat) {
    forall j :: k <= j < |log| ==> !Writes(log[j], n) && !Erases(log[j], n)
  }

  lemma {:induction false} DataStays(log: seq<Event>, n: Hash, k: nat)
    requires k <= |log| && Untouched(log, n, k)
    ensures LastData(log, n) == LastData(log[..k], n)
  {
    if k < |log| {
      DataStays(log[..|log| - 1], n, k);
      assert log[..|log| - 1][..k] == log[..k];
    } else {
      assert log[..k] == log;
    }
  }

  lemma NotBoth(e: Event, n: Hash)
    ensures !(Writes(e, n) && Erases(e, n))
  {
  }
}
