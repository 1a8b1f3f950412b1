/**
 Name states: the auction phases, expiration, and the delta that every setter
 records so that a block can be disconnected again.
 */
module Names {
  import opened Primitives

  datatype NamePeriods = NamePeriods(
    treeInterval: nat,
    lockupPeriod: nat,
    biddingPeriod: nat,
    revealPeriod: nat,
    renewalWindow: nat,
    auctionMaturity: nat,
    transferLockup: nat,
    renewalMaturity: nat,
    renewalPeriod: nat,
    claimPeriod: nat,
    claimFrequency: nat,
    noReserved: bool)
  {
    /** Every period lasts at least one block, and a transfer stays locked for
        at least one tree interval (asserted by the FINALIZE rule). */
    predicate Valid() {
      && 1 <= treeInterval <= transferLockup
      && 1 <= lockupPeriod && 1 <= biddingPeriod && 1 <= revealPeriod
      && 1 <= auctionMaturity
    }

    function OpenPeriod(): nat {
      treeInterval + 1
    }

    function AuctionPeriod(): nat {
      OpenPeriod() + biddingPeriod + revealPeriod
    }
  }

  type NetworkNames = net: NamePeriods | net.Valid()
    witness NamePeriods(1, 1, 1, 1, 1, 1, 1, 0, 0, 0, 0, false)

  datatype Phase = OPENING | LOCKED | BIDDING | REVEAL | CLOSED | REVOKED

  datatype NameRec = NameRec(
    name: Bytes,
    height: nat,
    renewal: nat,
    owner: Outpoint,
    value: nat,
    highest: nat,
    data: Bytes,
    transfer: nat,
    revoked: nat,
    claimed: nat,
    renewals: nat,
    registered: bool,
    expired: bool,
    weak: bool)
  {
    predicate IsNull() {
      this == NULL_REC.(name := name)
    }

    function Phase(height: nat, net: NetworkNames): Phase {
      if revoked != 0 then REVOKED
      else if claimed != 0 then
        if height < this.height + net.lockupPeriod then LOCKED else CLOSED
      else if height < this.height + net.OpenPeriod() then OPENING
      else if height < this.height + net.OpenPeriod() + net.biddingPeriod then BIDDING
      else if height < this.height + net.AuctionPeriod() then REVEAL
      else CLOSED
    }

    predicate IsClaimable(height: nat, net: NetworkNames) {
      claimed != 0 && !net.noReserved && height < net.claimPeriod
    }

    predicate IsExpired(height: nat, net: NetworkNames) {
      if revoked != 0 then height >= revoked + net.auctionMaturity
      else
        && Phase(height, net) == CLOSED
        && !IsClaimable(height, net)
        && (height >= renewal + net.renewalWindow || owner.IsNull())
    }

    /** `reset`: a fresh auction at `height`; the name itself is kept. */
    function Reset(height: nat): NameRec {
      NULL_REC.(name := name, height := height, renewal := height)
    }

    /** `maybeExpire`: an expired name restarts, keeping its resource data. */
    function MaybeExpire(height: nat, net: NetworkNames): NameRec {
      if IsExpired(height, net) then Reset(height).(expired := true, data := data) else this
    }
  }

  const NULL_REC := NameRec([], 0, 0, NULL_OUTPOINT, 0, 0, [], 0, 0, 0, 0, false, false, false)

  /** A null field was not changed; a present one holds the value before the
      block. */
  datatype NameDelta = NameDelta(
    height: Option<nat>,
    renewal: Option<nat>,
    owner: Option<Outpoint>,
    value: Option<nat>,
    highest: Option<nat>,
    data: Option<Bytes>,
    transfer: Option<nat>,
    revoked: Option<nat>,
    claimed: Option<nat>,
    renewals: Option<nat>,
    registered: Option<bool>,
    expired: Option<bool>,
    weak: Option<bool>)

  /** The deltas of the names a block changed. */
  type NameUndo = seq<(Hash, NameDelta)>

  const NULL_DELTA :=
    NameDelta(None, None, None, None, None, None, None, None, None, None, None, None, None)

  function Or<T>(prior: Option<T>, current: T): T {
    if prior.Some? then prior.value else current
  }

  /** `applyState`. */
  function ApplyDelta(rec: NameRec, delta: NameDelta): NameRec {
    NameRec(
      rec.name,
      Or(delta.height, rec.height),
      Or(delta.renewal, rec.renewal),
      Or(delta.owner, rec.owner),
      Or(delta.value, rec.value),
      Or(delta.highest, rec.highest),
      Or(delta.data, rec.data),
      Or(delta.transfer, rec.transfer),
      Or(delta.revoked, rec.revoked),
      Or(delta.claimed, rec.claimed),
      Or(delta.renewals, rec.renewals),
      Or(delta.registered, rec.registered),
      Or(delta.expired, rec.expired),
      Or(delta.weak, rec.weak))
  }

  /** What a setter leaves in the delta field: the first value it overwrote. */
  function Note<T(==)>(prior: Option<T>, current: T, next: T): Option<T> {
    if current == next || prior.Some? then prior else Some(current)
  }

  /**
   A name state under modification.  `first` is the record before the view
   touched it; `Valid` says that the delta leads back to it.
   */
  class NameState {
    var rec: NameRec
    var delta: NameDelta
    ghost const first: NameRec

    ghost predicate Valid()
      reads this
    {
      ApplyDelta(rec, delta) == first.(name := rec.name)
    }

    constructor (rec: NameRec, delta: NameDelta, ghost first: NameRec)
      requires ApplyDelta(rec, delta) == first.(name := rec.name)
      ensures Valid() && this.rec == rec && this.delta == delta && this.first == first
    {
      this.rec := rec;
      this.delta := delta;
      this.first := first;
    }

    method SetHeight(height: nat)
      requires Valid()
      modifies this
      ensures Valid() && rec == old(rec).(height := height)
    {
      delta := delta.(height := Note(delta.height, rec.height, height));
      rec := rec.(height := height);
    }

    method SetRenewal(renewal: nat)
      requires Valid()
      modifies this
      ensures Valid() && rec == old(rec).(renewal := renewal)
    {
      delta := delta.(renewal := Note(delta.renewal, rec.renewal, renewal));
      rec := rec.(renewal := renewal);
    }

    method SetOwner(owner: Outpoint)
      requires Valid()
      modifies this
      ensures Valid() && rec == old(rec).(owner := owner)
    {
      delta := delta.(owner := Note(delta.owner, rec.owner, owner));
      rec := rec.(owner := owner);
    }

    method SetValue(value: nat)
      requires Valid()
      modifies this
      ensures Valid() && rec == old(rec).(value := value)
    {
      delta := delta.(value := Note(delta.value, rec.value, value));
      rec := rec.(value := value);
    }

    method SetHighest(highest: nat)
      requires Valid()
      modifies this
      ensures Valid() && rec == old(rec).(highest := highest)
    {
      delta := delta.(highest := Note(delta.highest, rec.highest, highest));
      rec := rec.(highest := highest);
    }

    method SetData(data: Bytes)
      requires Valid()
      modifies this
      ensures Valid() && rec == old(rec).(data := data)
    {
      delta := delta.(data := Note(delta.data, rec.data, data));
      rec := rec.(data := data);
    }

    method SetTransfer(transfer: nat)
      requires Valid()
      modifies this
      ensures Valid() && rec == old(rec).(transfer := transfer)
    {
      delta := delta.(transfer := Note(delta.transfer, rec.transfer, transfer));
      rec := rec.(transfer := transfer);
    }

    method SetRevoked(revoked: nat)
      requires Valid()
      modifies this
      ensures Valid() && rec == old(rec).(revoked := revoked)
    {
      delta := delta.(revoked := Note(delta.revoked, rec.revoked, revoked));
      rec := rec.(revoked := revoked);
    }

    method SetClaimed(claimed: nat)
      requires Valid()
      modifies this
      ensures Valid() && rec == old(rec).(claimed := claimed)
    {
      delta := delta.(claimed := Note(delta.claimed, rec.claimed, claimed));
      rec := rec.(claimed := claimed);
    }

    method SetRenewals(renewals: nat)
      requires Valid()
      modifies this
      ensures Valid() && rec == old(rec).(renewals := renewals)
    {
      delta := delta.(renewals := Note(delta.renewals, rec.renewals, renewals));
      rec := rec.(renewals := renewals);
    }

    method SetRegistered(registered: bool)
      requires Valid()
      modifies this
      ensures Valid() && rec == old(rec).(registered := registered)
    {
      delta := delta.(registered := Note(delta.registered, rec.registered, registered));
      rec := rec.(registered := registered);
    }

    method SetExpired(expired: bool)
      requires Valid()
      modifies this
      ensures Valid() && rec == old(rec).(expired := expired)
    {
      delta := delta.(expired := Note(delta.expired, rec.expired, expired));
      rec := rec.(expired := expired);
    }

    method SetWeak(weak: bool)
      requires Valid()
      modifies this
      ensures Valid() && rec == old(rec).(weak := weak)
    {
      delta := delta.(weak := Note(delta.weak, rec.weak, weak));
      rec := rec.(weak := weak);
    }

    method Reset(height: nat)
      requires Valid()
      modifies this
      ensures Valid() && rec == old(rec).Reset(height)
    {
      SetHeight(height);
      SetRenewal(height);
      SetOwner(NULL_OUTPOINT);
      SetValue(0);
      SetHighest(0);
      SetData([]);
      SetTransfer(0);
      SetRevoked(0);
      SetClaimed(0);
      SetRenewals(0);
      SetRegistered(false);
      SetExpired(false);
      SetWeak(false);
    }

    method Set(name: Bytes, height: nat)
      requires Valid()
      modifies this
      ensures Valid() && rec == old(rec).(name := name).Reset(height)
    {
      rec := rec.(name := name);
      Reset(height);
    }

    method MaybeExpire(height: nat, net: NetworkNames) returns (expired: bool)
      requires Valid()
      modifies this
      ensures Valid() && rec == old(rec).MaybeExpire(height, net)
      ensures expired == old(rec).IsExpired(height, net)
    {
      expired := rec.IsExpired(height, net);
      if expired {
        var data := rec.data;
        Reset(height);
        SetExpired(true);
        SetData(data);
      }
    }

    /** `applyState`: back to the record before the block. */
    method ApplyState(undo: NameDelta)
      modifies this
      ensures rec == ApplyDelta(old(rec), undo) && delta == old(delta)
      ensures old(Valid()) && undo == old(delta) ==> rec == first.(name := rec.name)
    {
      rec := rec.(height := Or(undo.height, rec.height));
      rec := rec.(renewal := Or(undo.renewal, rec.renewal));
      rec := rec.(owner := Or(undo.owner, rec.owner));
      rec := rec.(value := Or(undo.value, rec.value));
      rec := rec.(highest := Or(undo.highest, rec.highest));
      rec := rec.(data := Or(undo.data, rec.data));
      rec := rec.(transfer := Or(undo.transfer, rec.transfer));
      rec := rec.(revoked := Or(undo.revoked, rec.revoked));
      rec := rec.(claimed := Or(undo.claimed, rec.claimed));
      rec := rec.(renewals := Or(undo.renewals, rec.renewals));
      rec := rec.(registered := Or(undo.registered, rec.registered));
      rec := rec.(expired := Or(undo.expired, rec.expired));
      rec := rec.(weak := Or(undo.weak, rec.weak));
    }
  }
}
