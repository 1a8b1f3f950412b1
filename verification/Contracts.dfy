/**
 The part of the mempool's contract state that keeps names unique: the names that
 tracked transactions and claims touch.
 */
module Contracts {
  import opened Primitives
  import opened NameLimits

  /** No two transactions touch one name, and none touches a claimed one. */
  ghost predicate Apart(tracked: map<Hash, TX>, claimed: set<Hash>) {
    && (forall h, g :: h in tracked && g in tracked && h != g ==>
          NamesOf(tracked[h].outputs) !! NamesOf(tracked[g].outputs))
    && (forall h :: h in tracked ==> NamesOf(tracked[h].outputs) !! claimed)
  }

  /** The names in use are those of the transactions and the claims. */
  ghost predicate Covers(unique: set<Hash>, tracked: map<Hash, TX>, claimed: set<Hash>) {
    && claimed <= unique
    && (forall h :: h in tracked ==> NamesOf(tracked[h].outputs) <= unique)
    && (forall n :: n in unique ==>
          n in claimed || exists h :: h in tracked && n in NamesOf(tracked[h].outputs))
  }

  class ContractState {
    var unique: set<Hash>
    ghost var tracked: map<Hash, TX>
    ghost var claimed: set<Hash>

    ghost predicate Valid()
      reads this
    {
      Apart(tracked, claimed) && Covers(unique, tracked, claimed)
    }

    constructor ()
      ensures Valid() && unique == {} && tracked == map[] && claimed == {}
    {
      unique, tracked, claimed := {}, map[], {};
    }

    method HasName(nameHash: Hash) returns (found: bool)
      requires Valid()
      ensures found <==> nameHash in claimed || exists h :: h in tracked && nameHash in NamesOf(tracked[h].outputs)
    {
      found := nameHash in unique;
    }

    /** `addName`, for a claim the mempool takes. */
    method AddName(nameHash: Hash)
      requires Valid() && nameHash !in unique
      modifies this
      ensures Valid() && tracked == old(tracked) && claimed == old(claimed) + {nameHash}
      ensures unique == old(unique) + {nameHash}
    {
      unique, claimed := unique + {nameHash}, claimed + {nameHash};
    }

    /** `removeName`, for a claim that leaves. */
    method RemoveName(nameHash: Hash)
      requires Valid() && nameHash in claimed
      modifies this
      ensures Valid() && tracked == old(tracked) && claimed == old(claimed) - {nameHash}
      ensures unique == old(unique) - {nameHash}
    {
      unique, claimed := unique - {nameHash}, claimed - {nameHash};
    }

    /** `hasNames`: whether a tracked transaction or a claim touches a name of `tx`. */
    method HasNames(tx: TX) returns (found: bool)
      requires Valid()
      ensures !found <==> NamesOf(tx.outputs) !! unique
      ensures !found ==> forall h :: h in tracked ==> NamesOf(tx.outputs) !! NamesOf(tracked[h].outputs)
    {
      found := NameLimits.HasNames(tx, unique);
    }

    /** `track`, after `hasNames` said no. */
    method Track(tx: TX)
      requires Valid() && tx.hash !in tracked && NamesOf(tx.outputs) !! unique
      modifies this
      ensures Valid() && tracked == old(tracked)[tx.hash := tx] && claimed == old(claimed)
      ensures unique == old(unique) + NamesOf(tx.outputs)
    {
      hide NamesOf;
      TrackApart(unique, tracked, claimed, tx);
      unique := AddNames(tx, unique);
      tracked := tracked[tx.hash := tx];
    }

    /** `untrack`: the names become free, and no other transaction needed them. */
    method Untrack(tx: TX)
      requires Valid() && tx.hash in tracked && tracked[tx.hash] == tx
      modifies this
      ensures Valid() && tracked == old(tracked) - {tx.hash} && claimed == old(claimed)
      ensures unique == old(unique) - NamesOf(tx.outputs)
    {
      hide NamesOf;
      UntrackApart(unique, tracked, claimed, tx);
      unique := RemoveNames(tx, unique);
      tracked := tracked - {tx.hash};
    }
  }

  lemma TrackApart(unique: set<Hash>, tracked: map<Hash, TX>, claimed: set<Hash>, tx: TX)
    requires Apart(tracked, claimed) && Covers(unique, tracked, claimed)
    requires tx.hash !in tracked && NamesOf(tx.outputs) !! unique
    ensures Apart(tracked[tx.hash := tx], claimed)
    ensures Covers(unique + NamesOf(tx.outputs), tracked[tx.hash := tx], claimed)
  {
    hide NamesOf;
    var more := tracked[tx.hash := tx];
    forall n | n in unique + NamesOf(tx.outputs)
      ensures n in claimed || exists h :: h in more && n in NamesOf(more[h].outputs)
    {
      if n in NamesOf(tx.outputs) {
        assert n in NamesOf(more[tx.hash].outputs);
      } else if n !in claimed {
        var h :| h in tracked && n in NamesOf(tracked[h].outputs);
        assert n in NamesOf(more[h].outputs);
      }
    }
  }

  lemma UntrackApart(unique: set<Hash>, tracked: map<Hash, TX>, claimed: set<Hash>, tx: TX)
    requires Apart(tracked, claimed) && Covers(unique, tracked, claimed)
    requires tx.hash in tracked && tracked[tx.hash] == tx
    ensures Apart(tracked - {tx.hash}, claimed)
    ensures Covers(unique - NamesOf(tx.outputs), tracked - {tx.hash}, claimed)
  {
    hide NamesOf;
    var less := tracked - {tx.hash};
    forall n | n in unique - NamesOf(tx.outputs)
      ensures n in claimed || exists h :: h in less && n in NamesOf(less[h].outputs)
    {
      if n !in claimed {
        var h :| h in tracked && n in NamesOf(tracked[h].outputs);
        assert h in less && n in NamesOf(less[h].outputs);
      }
    }
  }

  method RemoveNames(tx: TX, names: set<Hash>) returns (fewer: set<Hash>)
    ensures fewer == names - NamesOf(tx.outputs)
  {
    fewer := names;
    for i := 0 to |tx.outputs|
      invariant fewer == names - NamesOf(tx.outputs[..i])
    {
      var o := tx.outputs[i];
      assert tx.outputs[..i + 1] == tx.outputs[..i] + [o];
      if Exclusive(o.covenant) {
        fewer := fewer - {o.covenant.nameHash};
      }
    }
    assert tx.outputs[..|tx.outputs|] == tx.outputs;
  }
}
