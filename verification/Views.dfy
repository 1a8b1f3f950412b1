/**
 The per-block view: coins read from the database and marked spent, coins
 created, airdrop bits, and the name states touched, with the undo list and the
 name deltas that will allow the block to be disconnected.
 */
module Views {
  import opened Primitives
  import opened Names
  import opened Ledger

  datatype ViewCoin = ViewCoin(entry: CoinEntry, spent: bool)

  /** A name state held by a view: the record and what changed so far. */
  datatype Tracked = Tracked(rec: NameRec, delta: NameDelta)

  /** The coin set seen through a view. */
  function Overlay(coins: Coins, m: map<Outpoint, ViewCoin>): Coins {
    map op | op in coins.Keys + m.Keys && (op in m ==> !m[op].spent)
      :: if op in m then m[op].entry else coins[op]
  }

  /** The name records seen through a view. */
  function OverlayNames(names: NameMap, m: map<Hash, Tracked>): NameMap {
    names + Records(m)
  }

  function Records(m: map<Hash, Tracked>): NameMap {
    map n | n in m :: m[n].rec
  }

  /** What a view tracks for a name nobody has looked at yet. */
  function Loaded(names: NameMap, m: map<Hash, Tracked>, n: Hash): map<Hash, Tracked> {
    if n in m then m else m[n := Tracked(Find(names, n), NULL_DELTA)]
  }

  /** Writing a name state back, whether it had been loaded before or not. */
  lemma OverlayWrite(names: NameMap, m: map<Hash, Tracked>, n: Hash, t: Tracked)
    ensures OverlayNames(names, Loaded(names, m, n)[n := t]) == OverlayNames(names, m)[n := t.rec]
  {
  }

  lemma LoadedRecord(names: NameMap, m: map<Hash, Tracked>, n: Hash)
    ensures Loaded(names, m, n)[n].rec == Find(OverlayNames(names, m), n)
  {
  }

  lemma LoadedOk(names: NameMap, m: map<Hash, Tracked>, n: Hash)
    requires TrackedOk(names, m)
    ensures TrackedOk(names, Loaded(names, m, n))
  {
  }

  lemma TrackedWrite(names: NameMap, m: map<Hash, Tracked>, n: Hash, t: Tracked)
    requires TrackedOk(names, m)
    requires ApplyDelta(t.rec, t.delta) == Find(names, n).(name := t.rec.name)
    requires n in names ==> t.rec.name == names[n].name
    ensures TrackedOk(names, m[n := t])
  {
  }

  /** Every tracked record is in use, and its delta leads back to the record in
      the database. */
  ghost predicate TrackedOk(names: NameMap, m: map<Hash, Tracked>) {
    forall n :: n in m ==>
      && ApplyDelta(m[n].rec, m[n].delta) == Find(names, n).(name := m[n].rec.name)
      && (n in names ==> m[n].rec.name == names[n].name)
  }

  predicate HashUnused(m: map<Outpoint, ViewCoin>, hash: Hash) {
    forall op :: op in m ==> op.hash != hash
  }

  function Marked(coins: Coins, spent: bool): map<Outpoint, ViewCoin> {
    map op | op in coins :: ViewCoin(coins[op], spent)
  }

  lemma OverlayAdd(coins: Coins, m: map<Outpoint, ViewCoin>, created: Coins)
    requires forall op :: op in created ==> op !in coins && op !in m
    ensures Overlay(coins, m + Marked(created, false)) == Overlay(coins, m) + created
  {
  }

  lemma OverlayAt(coins: Coins, m: map<Outpoint, ViewCoin>, op: Outpoint)
    ensures op in Overlay(coins, m) <==> if op in m then !m[op].spent else op in coins
    ensures op in Overlay(coins, m) ==> Overlay(coins, m)[op] == if op in m then m[op].entry else coins[op]
  {
  }

  lemma OverlayRemove(coins: Coins, m: map<Outpoint, ViewCoin>, created: Coins, hash: Hash)
    requires forall op :: op in created ==> op.hash == hash
    requires forall op :: op in Overlay(coins, m) && op.hash == hash ==> op in created
    requires forall op :: op in coins && op.hash == hash ==> op in created
    ensures Overlay(coins, (map op | op in m && op.hash != hash :: m[op]) + Marked(created, true))
            == Overlay(coins, m) - created.Keys
  {
    hide Overlay;
    var m' := (map op | op in m && op.hash != hash :: m[op]) + Marked(created, true);
    var a, b := Overlay(coins, m'), Overlay(coins, m) - created.Keys;
    forall op ensures op in a <==> op in b
              ensures op in a ==> a[op] == b[op]
    {
      assert op in m' <==> op in created || (op in m && op.hash != hash);
      OverlayAt(coins, m', op);
      OverlayAt(coins, m, op);
    }
  }

  class CoinView {
    var map_: map<Outpoint, ViewCoin>
    var undo: seq<CoinEntry>
    var names: map<Hash, Tracked>
    var bits: map<nat, bool>

    constructor ()
      ensures map_ == map[] && undo == [] && names == map[] && bits == map[]
    {
      map_, undo, names, bits := map[], [], map[], map[];
    }

    /** `readCoin`: through the cache, else from the database. */
    method ReadCoin(coins: Coins, prevout: Outpoint) returns (found: bool)
      modifies this`map_
      ensures Overlay(coins, map_) == old(Overlay(coins, map_))
      ensures found <==> prevout in map_
      ensures found <==> prevout in old(map_) || prevout in coins
      ensures forall op :: op in old(map_) ==> op in map_ && map_[op] == old(map_)[op]
      ensures forall op :: op in map_ && op !in old(map_) ==> op == prevout && op in coins
    {
      if prevout in map_ {
        return true;
      }
      if prevout !in coins {
        return false;
      }
      map_ := map_[prevout := ViewCoin(coins[prevout], false)];
      return true;
    }

    /** `spendInputs`: coins are read up to four at a time, then marked. */
    method SpendInputs(coins: Coins, tx: TX) returns (ok: bool)
      requires forall i, j :: 0 <= i < j < |tx.inputs| ==> tx.inputs[i].prevout != tx.inputs[j].prevout
      modifies this`map_, this`undo
      ensures ok <==> forall i :: 0 <= i < |tx.inputs| ==>
                        tx.inputs[i].prevout in old(Overlay(coins, map_))
      ensures ok ==> Overlay(coins, map_) == old(Overlay(coins, map_)) - Prevouts(tx)
      ensures ok ==> undo == old(undo) + SpentBy(old(Overlay(coins, map_)), tx)
      ensures Kept(old(map_), coins)
      ensures ok ==> forall i :: 0 <= i < |tx.inputs| ==>
                && tx.inputs[i].prevout in map_
                && map_[tx.inputs[i].prevout].entry == old(Overlay(coins, map_))[tx.inputs[i].prevout]
    {
      hide Overlay;
      ghost var start := Overlay(coins, map_);
      assert SpentSoFar(coins, start, tx, 0) by { NothingSpent(coins, tx); }
      var i := 0;
      while i < |tx.inputs|
        invariant 0 <= i <= |tx.inputs|
        invariant forall j :: 0 <= j < i ==> tx.inputs[j].prevout in start
        invariant SpentSoFar(coins, start, tx, i)
        invariant undo == old(undo) + SpentFirst(start, tx, i)
        invariant Kept(old(map_), coins)
      {
        var len := if i + 4 < |tx.inputs| then i + 4 else |tx.inputs|;
        ReadBatch(coins, start, tx, i, len);
        ghost var prefix := SpentFirst(start, tx, i);
        var there := MarkBatch(coins, start, tx, i, len);
        if !there {
          return false;
        }
        assert SpentFirst(start, tx, len) == prefix + SpentFirst(start, tx, len)[i..];
        i := len;
      }
      return true;
    }

    /** Entries once in a view stay, and new ones come from the database. */
    ghost predicate Kept(before: map<Outpoint, ViewCoin>, coins: Coins)
      reads this
    {
      && (forall op :: op in before ==> op in map_ && map_[op].entry == before[op].entry)
      && (forall op :: op in map_ ==> op in before || op in coins)
    }

    lemma NothingSpent(coins: Coins, tx: TX)
      ensures SpentSoFar(coins, Overlay(coins, map_), tx, 0)
    {
    }

    /** The reads of one batch. */
    method ReadBatch(coins: Coins, ghost start: Coins, tx: TX, i: nat, len: nat)
      requires i <= len <= |tx.inputs| && SpentSoFar(coins, start, tx, i)
      modifies this`map_
      ensures SpentSoFar(coins, start, tx, i) && Kept(old(map_), coins)
      ensures forall k :: i <= k < len && tx.inputs[k].prevout in coins ==> tx.inputs[k].prevout in map_
    {
      hide Overlay;
      var j := i;
      while j < len
        invariant i <= j <= len
        invariant SpentSoFar(coins, start, tx, i) && Kept(old(map_), coins)
        invariant forall k :: i <= k < j && tx.inputs[k].prevout in coins ==> tx.inputs[k].prevout in map_
      {
        var _ := ReadCoin(coins, tx.inputs[j].prevout);
        j := j + 1;
      }
    }

    /** The coins of one batch, marked spent and pushed on the undo list. */
    method MarkBatch(coins: Coins, ghost start: Coins, tx: TX, from: nat, len: nat) returns (ok: bool)
      requires from <= len <= |tx.inputs|
      requires forall i, j :: 0 <= i < j < |tx.inputs| ==> tx.inputs[i].prevout != tx.inputs[j].prevout
      requires forall j :: 0 <= j < from ==> tx.inputs[j].prevout in start
      requires SpentSoFar(coins, start, tx, from)
      requires forall k :: from <= k < len && tx.inputs[k].prevout in coins ==> tx.inputs[k].prevout in map_
      modifies this`map_, this`undo
      ensures Kept(old(map_), coins)
      ensures ok <==> forall j :: 0 <= j < len ==> tx.inputs[j].prevout in start
      ensures ok ==> SpentSoFar(coins, start, tx, len)
      ensures ok ==> undo == old(undo) + SpentFirst(start, tx, len)[from..]
    {
      hide Overlay;
      var i := from;
      while i < len
        invariant from <= i <= len
        invariant forall j :: 0 <= j < i ==> tx.inputs[j].prevout in start
        invariant SpentSoFar(coins, start, tx, i)
        invariant forall k :: i <= k < len && tx.inputs[k].prevout in coins ==> tx.inputs[k].prevout in map_
        invariant undo == old(undo) + SpentFirst(start, tx, i)[from..]
        invariant Kept(old(map_), coins)
      {
        var p := tx.inputs[i].prevout;
        if p !in map_ || map_[p].spent {
          NotThere(coins, start, tx, i);
          return false;
        }
        MarkSpent(coins, start, tx, i);
        assert SpentFirst(start, tx, i + 1)[from..] == SpentFirst(start, tx, i)[from..] + [start[p]];
        undo := undo + [map_[p].entry];
        map_ := map_[p := map_[p].(spent := true)];
        i := i + 1;
      }
      return true;
    }

    /** The first `i` inputs, and nothing else, have left the coin set; their
        entries are still readable in the view. */
    ghost predicate SpentSoFar(coins: Coins, start: Coins, tx: TX, i: nat)
      requires i <= |tx.inputs|
      reads this
    {
      && Overlay(coins, map_) == start - PrevoutsFirst(tx, i)
      && forall j :: 0 <= j < i && tx.inputs[j].prevout in start ==>
           && tx.inputs[j].prevout in map_
           && map_[tx.inputs[j].prevout].entry == start[tx.inputs[j].prevout]
    }

    lemma NotThere(coins: Coins, start: Coins, tx: TX, i: nat)
      requires i < |tx.inputs|
      requires forall j, k :: 0 <= j < k < |tx.inputs| ==> tx.inputs[j].prevout != tx.inputs[k].prevout
      requires SpentSoFar(coins, start, tx, i)
      requires tx.inputs[i].prevout in coins ==> tx.inputs[i].prevout in map_
      requires tx.inputs[i].prevout !in map_ || map_[tx.inputs[i].prevout].spent
      ensures tx.inputs[i].prevout !in start
    {
      assert tx.inputs[i].prevout !in Overlay(coins, map_);
    }

    lemma MarkSpent(coins: Coins, start: Coins, tx: TX, i: nat)
      requires i < |tx.inputs|
      requires SpentSoFar(coins, start, tx, i)
      requires tx.inputs[i].prevout in map_ && !map_[tx.inputs[i].prevout].spent
      ensures var p := tx.inputs[i].prevout;
              && p in start && map_[p].entry == start[p]
              && Overlay(coins, map_[p := map_[p].(spent := true)])
                 == start - PrevoutsFirst(tx, i + 1)
    {
      var p := tx.inputs[i].prevout;
      assert p in Overlay(coins, map_) && Overlay(coins, map_)[p] == map_[p].entry;
      assert Overlay(coins, map_[p := map_[p].(spent := true)]) == Overlay(coins, map_) - {p};
      assert PrevoutsFirst(tx, i + 1)
          == PrevoutsFirst(tx, i) + {p};
    }

    /** `addTX`: replaces whatever the view held under the transaction's hash. */
    method AddTX(coins: Coins, tx: TX, height: nat)
      requires HashUnused(map_, tx.hash)
      requires forall op :: op in coins ==> op.hash != tx.hash
      modifies this`map_
      ensures Overlay(coins, map_) == old(Overlay(coins, map_)) + CreatedBy(tx, height)
      ensures forall op :: op in old(map_) ==> op in map_ && map_[op] == old(map_)[op]
      ensures forall op :: op in map_ && op !in old(map_) ==> op.hash == tx.hash
    {
      var rest := map op | op in map_ && op.hash != tx.hash :: map_[op];
      assert rest == map_;
      OverlayAdd(coins, map_, CreatedBy(tx, height));
      map_ := rest + Marked(CreatedBy(tx, height), false);
    }

    /** `removeTX`: the outputs of the transaction, all marked spent. */
    method RemoveTX(coins: Coins, tx: TX, height: nat)
      requires forall op :: op in Overlay(coins, map_) && op.hash == tx.hash
                 ==> op in CreatedBy(tx, height)
      requires forall op :: op in coins && op.hash == tx.hash ==> op in CreatedBy(tx, height)
      modifies this`map_
      ensures Overlay(coins, map_) == old(Overlay(coins, map_)) - CreatedBy(tx, height).Keys
    {
      OverlayRemove(coins, map_, CreatedBy(tx, height), tx.hash);
      map_ := (map op | op in map_ && op.hash != tx.hash :: map_[op]) + Marked(CreatedBy(tx, height), true);
    }

    /** `undo.apply`: the last undo coin comes back at `prevout`. */
    method ApplyUndo(coins: Coins, items: seq<CoinEntry>, prevout: Outpoint)
        returns (rest: seq<CoinEntry>)
      requires items != []
      modifies this`map_
      ensures rest == items[..|items| - 1]
      ensures Overlay(coins, map_) == old(Overlay(coins, map_))[prevout := items[|items| - 1]]
      ensures prevout in map_ && map_[prevout].entry == items[|items| - 1]
    {
      rest := items[..|items| - 1];
      map_ := map_[prevout := ViewCoin(items[|items| - 1], false)];
    }

    /** `getNameState`: from the view, else from the database, else blank. */
    method GetNameState(db: NameMap, nameHash: Hash)
      modifies this`names
      ensures names == Loaded(db, old(names), nameHash)
    {
      if nameHash !in names {
        names := names[nameHash := Tracked(Find(db, nameHash), NULL_DELTA)];
      }
    }

    /** `BitView.undo` */
    method UndoBits(tx: TX)
      requires 1 <= |tx.inputs| <= |tx.outputs| && bits == map[]
      modifies this`bits
      ensures bits.Keys == Proofs(tx, |tx.inputs|)
      ensures forall b :: b in bits ==> !bits[b]
    {
      var i := 1;
      while i < |tx.inputs|
        invariant 1 <= i <= |tx.inputs|
        invariant bits.Keys == Proofs(tx, i)
        invariant forall b :: b in bits ==> !bits[b]
      {
        if tx.outputs[i].covenant.NoCovenant? {
          var index: nat := tx.inputs[i].proof;
          assert bits[index := false].Keys == bits.Keys + {index};
          bits := bits[index := false];
        }
        i := i + 1;
      }
    }

    /** `BitView.spend` */
    method SpendBits(field: set<nat>, size: nat, net: Network, tx: TX) returns (ok: bool)
      requires 1 <= |tx.inputs| <= |tx.outputs| && size == net.airdropLeaves && bits == map[]
      modifies this`bits
      ensures ok <==> BitsAfter(net, field, tx, |tx.inputs|).Accept?
      ensures !ok ==> BitsAfter(net, field, tx, |tx.inputs|) == Reject("bad-txns-bits-missingorspent")
      ensures ok ==> BitsAfter(net, field, tx, |tx.inputs|).value
                     == field + (set b | b in bits && bits[b])
      ensures ok ==> forall b :: b in bits ==> bits[b] && b !in field
    {
      var i := 1;
      assert field + bits.Keys == field;
      while i < |tx.inputs|
        invariant 1 <= i <= |tx.inputs|
        invariant BitsAfter(net, field, tx, i) == Accept(field + bits.Keys)
        invariant forall b :: b in bits ==> bits[b] && b !in field
      {
        var output := tx.outputs[i];
        if output.covenant.NoCovenant? {
          var index: nat := tx.inputs[i].proof;
          var spent := if index in bits then bits[index] else index >= size || index in field;
          if spent {
            BitsStuck(net, field, tx, i + 1, |tx.inputs|);
            return false;
          }
          assert field + bits[index := true].Keys == field + bits.Keys + {index};
          bits := bits[index := true];
        }
        i := i + 1;
      }
      assert bits.Keys == set b | b in bits && bits[b];
      return true;
    }
  }

  /** Once rejected, always rejected. */
  lemma {:induction false} BitsStuck(net: Network, bits: set<nat>, tx: TX, k: nat, m: nat)
    requires k <= m <= |tx.inputs| <= |tx.outputs|
    requires BitsAfter(net, bits, tx, k).IsFailure()
    ensures BitsAfter(net, bits, tx, m) == BitsAfter(net, bits, tx, k).PropagateFailure()
  {
    if k < m {
      BitsStuck(net, bits, tx, k, m - 1);
    }
  }

  /** Bitfield positions claimed by inputs 1..k of a coinbase. */
  function Proofs(tx: TX, k: nat): set<nat>
    requires k <= |tx.inputs| <= |tx.outputs|
  {
    if k <= 1 then {}
    else
      Proofs(tx, k - 1)
      + if tx.outputs[k - 1].covenant.NoCovenant? then {tx.inputs[k - 1].proof} else {}
  }

  /** An accepted coinbase adds exactly its positions, none of them set before. */
  lemma {:induction false} BitsAdded(net: Network, bits: set<nat>, tx: TX, k: nat)
    requires k <= |tx.inputs| <= |tx.outputs|
    requires BitsAfter(net, bits, tx, k).Accept?
    ensures BitsAfter(net, bits, tx, k).value == bits + Proofs(tx, k)
    ensures bits !! Proofs(tx, k)
  {
    if k > 1 {
      BitsAdded(net, bits, tx, k - 1);
    }
  }
}
