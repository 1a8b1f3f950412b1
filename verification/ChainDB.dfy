/**
 The chain database: connecting a verified block and disconnecting the tip.

 `Valid` says that the state is the replay of the connected blocks and that the
 stored undo records are the ones disconnecting needs; both operations keep it.
 */
module ChainDB {
  import opened Primitives
  import opened Names
  import opened Ledger
  import opened Views
  import opened Verify
  import Codecs
  import CoinCodec
  import StoredCoins

  // ---------------------------------------------------------------------
  // Counters
  // ---------------------------------------------------------------------

  function StatsUnspend(stats: ChainStats, coin: CoinEntry): ChainStats {
    if coin.output.covenant.IsLocked() then stats
    else stats.(coin := stats.coin + 1, value := stats.value + coin.output.value)
  }

  /** Counting a coin back in commutes with counting outputs. */
  lemma {:induction false} UnspendUnder(stats: ChainStats, coin: CoinEntry, outputs: seq<Output>)
    ensures StatsUnspend(StatsAddAll(StatsSpend(stats, coin), outputs), coin)
            == StatsAddAll(stats, outputs)
  {
    if outputs != [] {
      UnspendUnder(stats, coin, outputs[..|outputs| - 1]);
    }
  }

  lemma AddNone(stats: ChainStats)
    ensures StatsAddAll(stats, []) == stats
  {
  }

  lemma SpendNone(stats: ChainStats, before: Coins, tx: TX)
    ensures SpentFirst(before, tx, 0) == [] && before - PrevoutsFirst(tx, 0) == before
    ensures StatsSpendAll(stats, SpentFirst(before, tx, 0)) == stats
  {
  }

  /** One coin counted back in. */
  lemma RestoreStats(stats: ChainStats, before: Coins, tx: TX, j: nat)
    requires j < |tx.inputs|
    requires forall i :: 0 <= i < |tx.inputs| ==> tx.inputs[i].prevout in before
    ensures SpentFirst(before, tx, j + 1) == SpentFirst(before, tx, j) + [before[tx.inputs[j].prevout]]
    ensures StatsUnspend(StatsAddAll(StatsSpendAll(stats, SpentFirst(before, tx, j + 1)), tx.outputs),
                         before[tx.inputs[j].prevout])
            == StatsAddAll(StatsSpendAll(stats, SpentFirst(before, tx, j)), tx.outputs)
  {
    hide StatsAddAll, StatsSpendAll;
    SpendAllStep(stats, before, tx, j);
    UnspendUnder(StatsSpendAll(stats, SpentFirst(before, tx, j)), before[tx.inputs[j].prevout], tx.outputs);
  }

  lemma RestoreOne(before: Coins, created: Coins, tx: TX, j: nat)
    requires j < |tx.inputs|
    requires tx.inputs[j].prevout in before && tx.inputs[j].prevout !in created
    requires forall i, k :: 0 <= i < k < |tx.inputs| ==> tx.inputs[i].prevout != tx.inputs[k].prevout
    ensures (before - PrevoutsFirst(tx, j + 1) + created)[tx.inputs[j].prevout := before[tx.inputs[j].prevout]]
            == before - PrevoutsFirst(tx, j) + created
  {
  }

  lemma SpendAllStep(stats: ChainStats, coins: Coins, tx: TX, j: nat)
    requires j < |tx.inputs|
    requires forall i :: 0 <= i < |tx.inputs| ==> tx.inputs[i].prevout in coins
    ensures StatsSpendAll(stats, SpentFirst(coins, tx, j + 1))
            == StatsSpend(StatsSpendAll(stats, SpentFirst(coins, tx, j)), coins[tx.inputs[j].prevout])
  {
    assert SpentFirst(coins, tx, j + 1)[..j] == SpentFirst(coins, tx, j);
  }

  lemma AddAllStep(stats: ChainStats, outputs: seq<Output>, j: nat)
    requires j < |outputs|
    ensures StatsAddAll(stats, outputs[..j + 1]) == StatsAdd(StatsAddAll(stats, outputs[..j]), outputs[j])
  {
    assert outputs[..j + 1][..j] == outputs[..j];
  }

  // ---------------------------------------------------------------------
  // Undo records
  // ---------------------------------------------------------------------

  /** What the name undo of a block has to achieve. */
  ghost predicate NameUndoOk(before: NameMap, after: NameMap, undo: NameUndo) {
    && (forall i, j :: 0 <= i < j < |undo| ==> undo[i].0 != undo[j].0)
    && (forall i :: 0 <= i < |undo| ==>
          && undo[i].0 in after
          && var r := ApplyDelta(after[undo[i].0], undo[i].1);
             if undo[i].0 in before then r == before[undo[i].0] else r.IsNull())
    && (forall n :: (forall i :: 0 <= i < |undo| ==> undo[i].0 != n) ==>
          && (n in before <==> n in after)
          && (n in before ==> before[n] == after[n]))
  }

  /** The coins a connected block spent, in order. */
  function UndoCoinsOf(net: Network, ledger: LedgerState, block: Block): seq<CoinEntry>
    requires ConnectBlock(net, ledger, block).Accept?
  {
    SaneTxs(net, ledger, block);
    UndoFirst(ContextOf(net, ledger), WorkOf(ledger, block), block.txs, |block.txs|)
  }

  function Stored(records: map<Hash, Bytes>, key: Hash): Option<Bytes> {
    if key in records then Some(records[key]) else None
  }

  /** The undo record of a block: none when it spent nothing. */
  function UndoRecord(undo: seq<CoinEntry>): Option<Bytes> {
    if undo == [] then None else Some(CoinCodec.WriteUndoCoins(undo))
  }

  function StoredAt<T>(records: map<nat, seq<T>>, key: nat): seq<T> {
    if key in records then records[key] else []
  }

  /** The records kept for block `k` of the chain. */
  ghost predicate RecordsOk(net: Network, blocks: seq<Block>, k: nat, undos: map<Hash, Bytes>,
                            nameUndos: map<nat, NameUndo>, roots: set<NameMap>)
    requires k < |blocks|
  {
    && Replay(net, blocks[..k]).Accept?
    && var before := Replay(net, blocks[..k]).value;
    && ConnectBlock(net, before, blocks[k]).Accept?
    && Stored(undos, blocks[k].hash) == UndoRecord(UndoCoinsOf(net, before, blocks[k]))
    && NameUndoOk(before.names, ConnectBlock(net, before, blocks[k]).value.names, StoredAt(nameUndos, k))
    && before.tree in roots
  }

  // ---------------------------------------------------------------------
  // The database
  // ---------------------------------------------------------------------

  class ChainDB {
    const net: Network
    var coins: Coins
    var txn: NameMap
    var tree: NameMap
    var roots: set<NameMap>
    var field: set<nat>
    var state: ChainStats
    var pending: ChainStats
    var main: seq<Hash>
    var undos: map<Hash, Bytes>
    var nameUndos: map<nat, NameUndo>
    ghost var blocks: seq<Block>

    ghost function Ledger(): LedgerState
      reads this
    {
      LedgerState(main, coins, txn, tree, field, state)
    }

    ghost predicate Valid()
      reads this
    {
      && Replay(net, blocks) == Accept(Ledger())
      && |main| == |blocks|
      && tree in roots
      && (forall h :: h in undos ==> h in main)
      && (forall k :: 0 <= k < |blocks| ==> RecordsOk(net, blocks, k, undos, nameUndos, roots))
    }

    constructor (net: Network)
      ensures Valid() && blocks == [] && this.net == net
    {
      this.net := net;
      coins, txn, tree, roots, field := map[], map[], map[], {map[]}, {};
      state, pending := ChainStats(0, 0, 0, 0), ChainStats(0, 0, 0, 0);
      main, undos, nameUndos := [], map[], map[];
      blocks := [];
    }

    /** The coin part of `saveView`: spent entries deleted, the others put. */
    method SaveCoins(m: map<Outpoint, ViewCoin>)
      modifies this`coins
      ensures coins == Overlay(old(coins), m)
    {
      var todo := m.Keys;
      ghost var done: set<Outpoint> := {};
      while todo != {}
        invariant done + todo == m.Keys && done !! todo
        invariant forall op :: op in coins <==>
                    if op in done then !m[op].spent else op in old(coins)
        invariant forall op :: op in coins ==>
                    coins[op] == if op in done then m[op].entry else old(coins)[op]
        decreases todo
      {
        var op :| op in todo;
        if m[op].spent {
          coins := coins - {op};
        } else {
          coins := coins[op := m[op].entry];
        }
        todo, done := todo - {op}, done + {op};
      }
    }

    /** The bitfield part of `saveView`. */
    method SaveBits(bits: map<nat, bool>)
      modifies this`field
      ensures forall b :: b in field <==> if b in bits then bits[b] else b in old(field)
    {
      var todo := bits.Keys;
      ghost var done: set<nat> := {};
      while todo != {}
        invariant done + todo == bits.Keys && done !! todo
        invariant forall b :: b in field <==> if b in done then bits[b] else b in old(field)
        decreases todo
      {
        var b :| b in todo;
        if bits[b] {
          field := field + {b};
        } else {
          field := field - {b};
        }
        todo, done := todo - {b}, done + {b};
      }
    }

    /** The tree part of `_saveNames`: null records are removed, others put. */
    method SaveRecords(m: map<Hash, Tracked>)
      modifies this`txn
      ensures forall n :: n in txn <==> if n in m then !m[n].rec.IsNull() else n in old(txn)
      ensures forall n :: n in txn ==> txn[n] == if n in m then m[n].rec else old(txn)[n]
    {
      var todo := m.Keys;
      ghost var done: set<Hash> := {};
      while todo != {}
        invariant done + todo == m.Keys && done !! todo
        invariant forall n :: n in txn <==> if n in done then !m[n].rec.IsNull() else n in old(txn)
        invariant forall n :: n in txn ==> txn[n] == if n in done then m[n].rec else old(txn)[n]
        decreases todo
      {
        var n :| n in todo;
        if m[n].rec.IsNull() {
          txn := txn - {n};
        } else {
          txn := txn[n := m[n].rec];
        }
        todo, done := todo - {n}, done + {n};
      }
    }

    /** The counters of one transaction, inputs (unless coinbase) then outputs. */
    method CountTX(m: map<Outpoint, ViewCoin>, tx: TX, spends: bool, ghost before: Coins)
      requires spends ==> forall j :: 0 <= j < |tx.inputs| ==>
                 && tx.inputs[j].prevout in before && tx.inputs[j].prevout in m
                 && m[tx.inputs[j].prevout].entry == before[tx.inputs[j].prevout]
      modifies this`pending
      ensures pending == StatsAddAll(
                           if spends then StatsSpendAll(old(pending), SpentBy(before, tx)) else old(pending),
                           tx.outputs)
    {
      ghost var start := pending;
      if spends {
        var j := 0;
        while j < |tx.inputs|
          invariant 0 <= j <= |tx.inputs|
          invariant pending == StatsSpendAll(start, SpentFirst(before, tx, j))
        {
          SpendAllStep(start, before, tx, j);
          var output := m[tx.inputs[j].prevout].entry.output;
          if !output.covenant.IsLocked() {
            pending := pending.(coin := pending.coin - 1, value := pending.value - output.value);
          }
          j := j + 1;
        }
      }
      ghost var mid := pending;
      var j := 0;
      while j < |tx.outputs|
        invariant 0 <= j <= |tx.outputs|
        invariant pending == StatsAddAll(mid, tx.outputs[..j])
      {
        AddAllStep(mid, tx.outputs, j);
        var output := tx.outputs[j];
        if !output.IsUnspendable() {
          if output.covenant.Register? {
            pending := pending.(coin := pending.coin + 1, burned := pending.burned + output.value);
          }
          if !output.covenant.IsLocked() {
            if !output.covenant.Claim? || output.covenant.commitHeight == 1 {
              pending := pending.(coin := pending.coin + 1, value := pending.value + output.value);
            }
          }
        }
        j := j + 1;
      }
      assert tx.outputs[..|tx.outputs|] == tx.outputs;
    }

    /** The counting pass of `connectBlock`. */
    method CountBlock(txs: seq<TX>, view: CoinView, ghost c: Context, ghost w: Work)
      requires forall i :: 0 <= i < |txs| ==> SaneAt(c.net, txs, i)
      requires ViewAt(c, w, txs, |txs|, view)
      requires pending == w.stats
      modifies this`pending
      ensures pending == WorkAfter(c, w, txs, |txs|).value.stats
    {
      hide *;
      var i := 0;
      StartCount(c, w, txs, view);
      while i < |txs|
        invariant 0 <= i <= |txs|
        invariant WorkAfter(c, w, txs, i).Accept? && pending == WorkAfter(c, w, txs, i).value.stats
      {
        WorkPrefix(c, w, txs, i + 1);
        assert SaneAt(c.net, txs, i);
        StepStats(c, WorkAfter(c, w, txs, i).value, txs, i);
        ReadableAt(c, w, txs, i, view.map_);
        CountTX(view.map_, txs[i], i > 0, WorkAfter(c, w, txs, i).value.coins);
        i := i + 1;
      }
    }

    /** `connectNames` and `_saveNames`: the undo record of the block's height,
        the working tree, and the commit at an interval boundary. */
    method ConnectNames(m: map<Hash, Tracked>, height: nat)
      requires TrackedOk(txn, m) && Live(OverlayNames(txn, m))
      modifies this`txn, this`tree, this`roots, this`nameUndos
      ensures txn == OverlayNames(old(txn), m)
      ensures NameUndoOk(old(txn), txn, StoredAt(nameUndos, height))
      ensures forall h :: h != height ==> StoredAt(nameUndos, h) == StoredAt(old(nameUndos), h)
      ensures tree == if height % net.names.treeInterval == 0 then txn else old(tree)
      ensures roots == old(roots) + if height % net.names.treeInterval == 0 then {txn} else {}
    {
      var undo := UndoFromView(m);
      TouchedHaveDeltas(txn, m);
      UndoFromViewOk(txn, m, undo);
      if undo == [] {
        nameUndos := nameUndos - {height};
      } else {
        nameUndos := nameUndos[height := undo];
      }
      SaveRecords(m);
      AllPut(old(txn), m, txn);
      if height % net.names.treeInterval == 0 {
        tree := txn;
        roots := roots + {txn};
      }
    }

    /** `connectBlock`: counters, coins, bits, undo coins and names, from the view
        of a verified block. */
    method ConnectView(block: Block, view: CoinView, ghost c: Context, ghost w: Work)
      requires Live(txn) && pending == state
      requires forall i :: 0 <= i < |block.txs| ==> SaneAt(c.net, block.txs, i)
      requires w == Work(coins, txn, field, state.(tx := state.tx + |block.txs|))
      requires ViewAt(c, w, block.txs, |block.txs|, view)
      requires block.hash !in undos
      requires Live(WorkAfter(c, w, block.txs, |block.txs|).value.names)
      modifies this`pending, this`coins, this`field, this`undos, this`txn, this`tree, this`roots,
        this`nameUndos
      ensures var now := WorkAfter(c, w, block.txs, |block.txs|).value;
              && coins == now.coins && txn == now.names && field == now.airdrops && pending == now.stats
      ensures undos == if view.undo != [] then old(undos)[block.hash := CoinCodec.WriteUndoCoins(view.undo)]
                       else old(undos)
      ensures tree == if |main| % net.names.treeInterval == 0 then txn else old(tree)
      ensures roots == old(roots) + if |main| % net.names.treeInterval == 0 then {txn} else {}
      ensures NameUndoOk(old(txn), txn, StoredAt(nameUndos, |main|))
      ensures forall h :: h != |main| ==> StoredAt(nameUndos, h) == StoredAt(old(nameUndos), h)
    {
      hide WorkAfter, Overlay, OverlayNames, TrackedOk, Live, NameUndoOk, SaneAt, StoredAt, UndoFirst,
        Readable;
      pending := pending.(tx := pending.tx + |block.txs|);
      CountBlock(block.txs, view, c, w);
      SaveCoins(view.map_);
      SaveBits(view.bits);
      assert field == w.airdrops + view.bits.Keys;
      if view.undo != [] && block.hash !in undos {
        var data := CoinCodec.EncodeUndoCoins(view.undo);
        undos := undos[block.hash := data];
      }
      ConnectNames(view.names, |main|);
    }

    /** `_save` and `_reconnect`: the block becomes the tip. */
    method Connect(block: Block, view: CoinView)
      requires Valid()
      requires ConnectBlock(net, Ledger(), block).Accept?
      requires forall i :: 0 <= i < |block.txs| ==> SaneAt(net, block.txs, i)
      requires ViewAt(ContextOf(net, Ledger()), WorkOf(Ledger(), block), block.txs, |block.txs|, view)
      modifies this
      ensures Valid()
      ensures blocks == old(blocks) + [block]
      ensures Ledger() == ConnectBlock(net, old(Ledger()), block).value
    {
      hide ConnectBlock, ViewAt, WorkAfter, Overlay, OverlayNames, TrackedOk, Live, NameUndoOk,
        RecordsOk, Replay, SaneAt, UndoCoinsOf, Stored, StoredAt;
      ghost var before := Ledger();
      ghost var undos0, nameUndos0, roots0, blocks0 := undos, nameUndos, roots, blocks;
      ReplayLive(net, blocks);
      ConnectFacts(net, before, block, view);
      pending := state;
      ConnectView(block, view, ContextOf(net, before), WorkOf(before, block));
      main := main + [block.hash];
      state := pending;
      blocks := blocks + [block];
      ReplayAppend(net, blocks0, block);
      UndoKept(undos0, undos, block.hash, view.undo);
      RecordsConnect(net, blocks0, block, undos0, nameUndos0, roots0, undos, nameUndos, roots);
    }

    /** The inputs of one transaction come back, last first. */
    method RestoreInputs(view: CoinView, items: seq<CoinEntry>, tx: TX, ghost before: Coins,
                         ghost created: Coins, ghost rest: seq<CoinEntry>, ghost stats: ChainStats)
        returns (left: seq<CoinEntry>)
      requires forall j :: 0 <= j < |tx.inputs| ==>
                 tx.inputs[j].prevout in before && tx.inputs[j].prevout !in created
      requires forall i, j :: 0 <= i < j < |tx.inputs| ==> tx.inputs[i].prevout != tx.inputs[j].prevout
      requires items == rest + SpentBy(before, tx)
      requires Overlay(coins, view.map_) == before - Prevouts(tx) + created
      requires pending == StatsAddAll(StatsSpendAll(stats, SpentBy(before, tx)), tx.outputs)
      modifies this`pending, view`map_
      ensures left == rest
      ensures Overlay(coins, view.map_) == before + created
      ensures pending == StatsAddAll(stats, tx.outputs)
    {
      hide Overlay, StatsAddAll, StatsSpendAll, SpentFirst, PrevoutsFirst;
      left := items;
      var j := |tx.inputs|;
      while j > 0
        invariant 0 <= j <= |tx.inputs|
        invariant left == rest + SpentFirst(before, tx, j)
        invariant Overlay(coins, view.map_) == before - PrevoutsFirst(tx, j) + created
        invariant pending == StatsAddAll(StatsSpendAll(stats, SpentFirst(before, tx, j)), tx.outputs)
      {
        j := j - 1;
        var p := tx.inputs[j].prevout;
        RestoreOne(before, created, tx, j);
        RestoreStats(stats, before, tx, j);
        left := view.ApplyUndo(coins, left, p);
        var output := view.map_[p].entry.output;
        if !output.covenant.IsLocked() {
          pending := pending.(coin := pending.coin + 1, value := pending.value + output.value);
        }
      }
      SpendNone(stats, before, tx);
    }

    /** The outputs of one transaction are uncounted, last first. */
    method UncountOutputs(tx: TX, ghost stats: ChainStats)
      requires pending == StatsAddAll(stats, tx.outputs)
      modifies this`pending
      ensures pending == stats
    {
      hide StatsAddAll;
      var j := |tx.outputs|;
      assert tx.outputs[..j] == tx.outputs;
      while j > 0
        invariant 0 <= j <= |tx.outputs|
        invariant pending == StatsAddAll(stats, tx.outputs[..j])
      {
        j := j - 1;
        AddAllStep(stats, tx.outputs, j);
        var output := tx.outputs[j];
        if !output.IsUnspendable() {
          if output.covenant.Register? {
            pending := pending.(coin := pending.coin - 1, burned := pending.burned - output.value);
          }
          if !output.covenant.IsLocked() {
            if !output.covenant.Claim? || output.covenant.commitHeight == 1 {
              pending := pending.(coin := pending.coin - 1, value := pending.value - output.value);
            }
          }
        }
      }
      assert StatsAddAll(stats, tx.outputs[..0]) == stats by { AddNone(stats); }
    }

    /** The transaction pass of `disconnectBlock`, from the last transaction to
        the coinbase. */
    method UndoTXs(txs: seq<TX>, height: nat, view: CoinView, undo: seq<CoinEntry>, ghost c: Context,
                   ghost w: Work)
        returns (items: seq<CoinEntry>)
      requires 0 < |txs| && (forall i :: 0 <= i < |txs| ==> SaneAt(c.net, txs, i))
      requires FreshIn(w.coins, txs) && c.Height() == height
      requires WorkAfter(c, w, txs, |txs|).Accept?
      requires coins == WorkAfter(c, w, txs, |txs|).value.coins
      requires pending == WorkAfter(c, w, txs, |txs|).value.stats
      requires undo == UndoFirst(c, w, txs, |txs|)
      requires view.map_ == map[] && view.bits == map[]
      modifies this`pending, view`map_, view`bits
      ensures items == []
      ensures Overlay(coins, view.map_) == w.coins
      ensures pending == w.stats
      ensures |txs[0].inputs| <= |txs[0].outputs| && view.bits.Keys == Proofs(txs[0], |txs[0].inputs|)
      ensures forall b :: b in view.bits ==> !view.bits[b]
    {
      hide Overlay, WorkAfter, TxStep, SaneTX, SaneCoinbase, StatsAddAll, StatsSpendAll, SpentFirst,
        PrevoutsFirst, CreatedBy, UndoFirst, BitsAfter, FreshIn;
      items := undo;
      EmptyOverlay(coins);
      var i := |txs|;
      while i > 0
        invariant 0 <= i <= |txs| && WorkAfter(c, w, txs, i).Accept?
        invariant Overlay(coins, view.map_) == WorkAfter(c, w, txs, i).value.coins
        invariant pending == WorkAfter(c, w, txs, i).value.stats
        invariant items == UndoFirst(c, w, txs, i)
        invariant i > 0 ==> view.bits == map[]
        invariant i == 0 ==>
                    && |txs[0].inputs| <= |txs[0].outputs|
                    && view.bits.Keys == Proofs(txs[0], |txs[0].inputs|)
        invariant forall b :: b in view.bits ==> !view.bits[b]
      {
        i := i - 1;
        WorkPrefix(c, w, txs, i + 1);
        assert SaneAt(c.net, txs, i);
        ghost var now := WorkAfter(c, w, txs, i).value;
        if i == 0 {
          UndoCoinbase(c, w, txs);
          view.UndoBits(txs[i]);
        } else {
          UndoSpend(c, w, txs, i);
          items := RestoreInputs(view, items, txs[i], now.coins, CreatedBy(txs[i], height),
                                 UndoFirst(c, w, txs, i), now.stats);
        }
        RemovableTX(c, w, txs, i, coins);
        view.RemoveTX(coins, txs[i], height);
        assert now.coins + CreatedBy(txs[i], height) - CreatedBy(txs[i], height).Keys == now.coins
          by { RemoveCreated(c, w, txs, i); }
        UncountOutputs(txs[i], now.stats);
      }
      assert WorkAfter(c, w, txs, 0) == Accept(w) && UndoFirst(c, w, txs, 0) == [] by { NothingDone(c, w, txs); }
    }

    /** `disconnectNames` and `_saveNames`: the deltas of the block's height are
        applied, and at an interval boundary the tree goes back to `root`. */
    method DisconnectNames(height: nat, root: NameMap, view: CoinView, ghost before: NameMap)
      requires NameUndoOk(before, txn, StoredAt(nameUndos, height)) && Live(before)
      requires view.names == map[] && root in roots
      modifies this`txn, this`tree, this`nameUndos, view`names
      ensures txn == before
      ensures nameUndos == old(nameUndos) - {height}
      ensures tree == if height % net.names.treeInterval == 0 then root else old(tree)
    {
      hide NameRec.IsNull, ApplyDelta, NameUndoOk, Live;
      var undo := if height in nameUndos then nameUndos[height] else [];
      UndoDistinct(before, txn, undo);
      ApplyUndoDeltas(txn, undo, view);
      nameUndos := nameUndos - {height};
      SaveRecords(view.names);
      NamesRestored(before, old(txn), undo, view.names, txn);
      if height % net.names.treeInterval == 0 {
        assert root in roots;
        tree := root;
      }
    }

    /** `getUndoCoins` */
    method ReadUndoRecord(hash: Hash, ghost undo: seq<CoinEntry>) returns (items: seq<CoinEntry>)
      requires Stored(undos, hash) == UndoRecord(undo)
      requires CoinCodec.ReadUndoCoins(CoinCodec.WriteUndoCoins(undo)) == Codecs.Got(undo, [])
      ensures items == undo
    {
      if hash !in undos {
        return [];
      }
      var read := CoinCodec.DecodeUndoCoins(undos[hash]);
      assert read.Got?;
      return read.value;
    }

    /** `disconnectBlock`: everything the block did is undone from its records. */
    method DisconnectView(block: Block, view: CoinView, ghost before: LedgerState)
      requires SaneBlock(net, before, block) && ConnectBlock(net, before, block) == Accept(Ledger())
      requires Live(before.names) && pending == state
      requires Stored(undos, block.hash) == UndoRecord(UndoCoinsOf(net, before, block))
      requires CoinCodec.ReadUndoCoins(CoinCodec.WriteUndoCoins(UndoCoinsOf(net, before, block)))
               == Codecs.Got(UndoCoinsOf(net, before, block), [])
      requires NameUndoOk(before.names, txn, StoredAt(nameUndos, |before.main|))
      requires before.tree in roots
      requires view.map_ == map[] && view.bits == map[] && view.names == map[]
      modifies this`pending, this`coins, this`field, this`undos, this`txn, this`tree, this`nameUndos, view
      ensures LedgerState(before.main, coins, txn, tree, field, pending) == before
      ensures undos == old(undos) - {block.hash}
      ensures nameUndos == old(nameUndos) - {|before.main|}
    {
      hide ConnectBlock, WorkAfter, Overlay, Live, NameUndoOk, SaneAt, SaneBlock, StatsAddAll, UndoFirst,
        Proofs, UndoCoinsOf, StoredAt, FreshIn, Stored, UndoRecord, CoinCodec.ReadUndoCoins, CoinCodec.WriteUndoCoins;
      ghost var c, w := ContextOf(net, before), WorkOf(before, block);
      var height := |main| - 1;
      DisconnectFacts(net, before, block);
      assert height == |before.main|;
      var undo := ReadUndoRecord(block.hash, UndoCoinsOf(net, before, block));
      assert undo == UndoFirst(c, w, block.txs, |block.txs|) by { StoredUndo(net, before, block); }
      var items := UndoTXs(block.txs, height, view, undo, c, w);
      assert items == [];
      pending := pending.(tx := pending.tx - |block.txs|);
      SaveCoins(view.map_);
      ghost var bits := view.bits;
      SaveBits(view.bits);
      FieldRestored(before.airdrops, Proofs(block.txs[0], |block.txs[0].inputs|), bits, field);
      undos := undos - {block.hash};
      DisconnectNames(height, block.treeRoot, view, before.names);
    }

    /** `_disconnect`: the tip goes back to the previous block.  A stored coin has
        31 bits for its height, which every height of the chain has to fit. */
    method Disconnect(block: Block)
      requires Valid() && |blocks| <= Codecs.MAX_HEIGHT
      requires blocks != [] && block == blocks[|blocks| - 1]
      modifies this
      ensures Valid()
      ensures blocks == old(blocks)[..|old(blocks)| - 1]
      ensures Replay(net, blocks) == Accept(Ledger())
    {
      hide ConnectBlock, Live, NameUndoOk, RecordsOk, Replay, SaneBlock, UndoCoinsOf, Stored, StoredAt, UndoRecord,
        CoinCodec.ReadUndoCoins, CoinCodec.WriteUndoCoins;
      ghost var undos0, nameUndos0, blocks0 := undos, nameUndos, blocks;
      ghost var init := blocks[..|blocks| - 1];
      ghost var before := LastRecords(net, blocks, undos, nameUndos, roots);
      UndoStored(net, init, before, block);
      var view := new CoinView();
      pending := state;
      DisconnectView(block, view, before);
      main := main[..|main| - 1];
      state := pending;
      blocks := init;
      assert Ledger() == before;
      RecordsDisconnect(net, blocks0, init, old(Ledger()), before, undos0, nameUndos0, roots, undos, nameUndos);
    }
  }

  lemma UndoDistinct(before: NameMap, after: NameMap, undo: NameUndo)
    requires NameUndoOk(before, after, undo)
    ensures forall i, j :: 0 <= i < j < |undo| ==> undo[i].0 != undo[j].0
    ensures forall i :: 0 <= i < |undo| ==> undo[i].0 in after
  {
  }

  /** The loop of `disconnectNames`. */
  method ApplyUndoDeltas(db: NameMap, undo: NameUndo, view: CoinView)
    requires forall i, j :: 0 <= i < j < |undo| ==> undo[i].0 != undo[j].0
    requires forall i :: 0 <= i < |undo| ==> undo[i].0 in db
    requires view.names == map[]
    modifies view`names
    ensures forall n :: n in view.names <==> exists j :: 0 <= j < |undo| && undo[j].0 == n
    ensures forall j :: 0 <= j < |undo| ==>
              view.names[undo[j].0].rec == ApplyDelta(db[undo[j].0], undo[j].1)
  {
    hide ApplyDelta, Loaded;
    var i := 0;
    while i < |undo|
      invariant 0 <= i <= |undo|
      invariant forall n :: n in view.names <==> exists j :: 0 <= j < i && undo[j].0 == n
      invariant forall j :: 0 <= j < i ==> view.names[undo[j].0].rec == ApplyDelta(db[undo[j].0], undo[j].1)
    {
      var n, delta := undo[i].0, undo[i].1;
      ghost var m := view.names;
      view.GetNameState(db, n);
      LoadedFresh(db, m, n);
      NullDelta(db[n]);
      var ns := new NameState(view.names[n].rec, NULL_DELTA, view.names[n].rec);
      ns.ApplyState(delta);
      view.names := view.names[n := Tracked(ns.rec, ns.delta)];
      assert view.names == m[n := Tracked(ApplyDelta(db[n], delta), NULL_DELTA)];
      i := i + 1;
    }
  }

  lemma LoadedFresh(db: NameMap, m: map<Hash, Tracked>, n: Hash)
    requires n !in m && n in db
    ensures Loaded(db, m, n) == m[n := Tracked(db[n], NULL_DELTA)]
  {
  }

  lemma NullDelta(rec: NameRec)
    ensures ApplyDelta(rec, NULL_DELTA) == rec
  {
  }

  /** What the records of the tip say about the state below it. */
  lemma LastRecords(net: Network, blocks: seq<Block>, undos: map<Hash, Bytes>,
                    nameUndos: map<nat, NameUndo>, roots: set<NameMap>) returns (before: LedgerState)
    requires blocks != [] && RecordsOk(net, blocks, |blocks| - 1, undos, nameUndos, roots)
    requires Replay(net, blocks).Accept?
    ensures var block := blocks[|blocks| - 1];
            && Replay(net, blocks[..|blocks| - 1]) == Accept(before)
            && |before.main| == |blocks| - 1
            && Live(before.names)
            && SaneBlock(net, before, block)
            && ConnectBlock(net, before, block) == Replay(net, blocks)
            && Replay(net, blocks).value.main == before.main + [block.hash]
            && Stored(undos, block.hash) == UndoRecord(UndoCoinsOf(net, before, block))
            && NameUndoOk(before.names, Replay(net, blocks).value.names, StoredAt(nameUndos, |before.main|))
            && before.tree in roots
  {
    hide ConnectBlock, Live, NameUndoOk, UndoCoinsOf, Stored, StoredAt, SaneBlock;
    var init := blocks[..|blocks| - 1];
    before := Replay(net, init).value;
    ReplayMain(net, init);
    ReplayLive(net, init);
    ConnectMain(net, before, blocks[|blocks| - 1]);
  }

  /** What disconnecting a block starts from. */
  lemma DisconnectFacts(net: Network, before: LedgerState, block: Block)
    requires SaneBlock(net, before, block) && ConnectBlock(net, before, block).Accept?
    ensures 0 < |block.txs| && (forall i :: 0 <= i < |block.txs| ==> SaneAt(net, block.txs, i))
    ensures FreshIn(before.coins, block.txs)
    ensures block.treeRoot == before.tree
    ensures WorkAfter(ContextOf(net, before), WorkOf(before, block), block.txs, |block.txs|).Accept?
    ensures var after := ConnectBlock(net, before, block).value;
            var now := WorkAfter(ContextOf(net, before), WorkOf(before, block), block.txs, |block.txs|).value;
            && after == LedgerState(before.main + [block.hash], now.coins, now.names,
                          if |before.main| % net.names.treeInterval == 0 then now.names else before.tree,
                          now.airdrops, now.stats)
            && |block.txs[0].inputs| <= |block.txs[0].outputs|
            && now.airdrops == before.airdrops + Proofs(block.txs[0], |block.txs[0].inputs|)
            && before.airdrops !! Proofs(block.txs[0], |block.txs[0].inputs|)
  {
    hide TxStep, WorkAfter, BitsAfter, Proofs;
    SaneTxs(net, before, block);
    WorkBits(ContextOf(net, before), WorkOf(before, block), block.txs, |block.txs|);
  }

  /** Only the coinbase touches the airdrop bits. */
  lemma {:induction false} WorkBits(c: Context, w: Work, txs: seq<TX>, k: nat)
    requires 1 <= k <= |txs| && (forall i :: 0 <= i < |txs| ==> SaneAt(c.net, txs, i))
    requires WorkAfter(c, w, txs, k).Accept?
    ensures |txs[0].inputs| <= |txs[0].outputs|
    ensures WorkAfter(c, w, txs, k).value.airdrops == w.airdrops + Proofs(txs[0], |txs[0].inputs|)
    ensures w.airdrops !! Proofs(txs[0], |txs[0].inputs|)
  {
    hide CoinbaseStep, SpendStep, SaneCoinbase, SaneTX, Proofs, BitsAfter, CreatedBy, Prevouts;
    assert SaneAt(c.net, txs, k - 1);
    if k == 1 {
      assert WorkAfter(c, w, txs, 0) == Accept(w);
      WorkBack(c, w, txs, 1);
      CoinbaseFacts(c, w, txs[0]);
      BitsAdded(c.net, w.airdrops, txs[0], |txs[0].inputs|);
    } else {
      WorkBack(c, w, txs, k);
      WorkBits(c, w, txs, k - 1);
      SpendFacts(c, WorkAfter(c, w, txs, k - 1).value, txs[k - 1]);
    }
  }

  /** Disconnecting leaves the records of the remaining blocks in place. */
  lemma RecordsDisconnect(net: Network, all: seq<Block>, init: seq<Block>, after: LedgerState,
                          before: LedgerState, undos: map<Hash, Bytes>,
                          nameUndos: map<nat, NameUndo>, roots: set<NameMap>,
                          undos': map<Hash, Bytes>, nameUndos': map<nat, NameUndo>)
    requires all != [] && init == all[..|all| - 1]
    requires Replay(net, all) == Accept(after) && Replay(net, init) == Accept(before)
    requires after.main == before.main + [all[|all| - 1].hash]
    requires forall k :: 0 <= k < |all| ==> RecordsOk(net, all, k, undos, nameUndos, roots)
    requires undos' == undos - {all[|all| - 1].hash} && nameUndos' == nameUndos - {|init|}
    requires forall h :: h in undos ==> h in after.main
    ensures forall k :: 0 <= k < |init| ==> RecordsOk(net, init, k, undos', nameUndos', roots)
    ensures forall h :: h in undos' ==> h in before.main
    ensures before.tree in roots
  {
    hide *;
    ReplayMain(net, init);
    TipRecords(net, all, init, undos, nameUndos, roots);
    forall k | 0 <= k < |init|
      ensures RecordsOk(net, init, k, undos', nameUndos', roots)
    {
      assert init[k].hash == before.main[k];
      RecordKept(net, all, init, k, undos, nameUndos, roots, undos', nameUndos');
    }
  }

  lemma StoredUndo(net: Network, before: LedgerState, block: Block)
    requires ConnectBlock(net, before, block).Accept?
    requires forall i :: 0 <= i < |block.txs| ==> SaneAt(net, block.txs, i)
    requires WorkAfter(ContextOf(net, before), WorkOf(before, block), block.txs, |block.txs|).Accept?
    ensures UndoCoinsOf(net, before, block)
            == UndoFirst(ContextOf(net, before), WorkOf(before, block), block.txs, |block.txs|)
  {
    hide WorkAfter, ConnectBlock, UndoFirst;
  }

  /** The undo coins of a block on a chain read back as they were written. */
  lemma UndoStored(net: Network, blocks: seq<Block>, before: LedgerState, block: Block)
    requires Replay(net, blocks) == Accept(before) && |blocks| < Codecs.MAX_HEIGHT
    requires SaneBlock(net, before, block) && ConnectBlock(net, before, block).Accept?
    ensures CoinCodec.ReadUndoCoins(CoinCodec.WriteUndoCoins(UndoCoinsOf(net, before, block)))
            == Codecs.Got(UndoCoinsOf(net, before, block), [])
  {
    hide UndoFirst, WorkAfter, SaneBlock, Replay, ConnectBlock;
    SaneTxs(net, before, block);
    DisconnectFacts(net, before, block);
    StoredUndo(net, before, block);
    StoredCoins.UndoReadsBack(net, blocks, block);
  }

  lemma FieldRestored(airdrops: set<nat>, proofs: set<nat>, bits: map<nat, bool>, field: set<nat>)
    requires airdrops !! proofs && bits.Keys == proofs
    requires forall b :: b in bits ==> !bits[b]
    requires forall b :: b in field <==> if b in bits then bits[b] else b in airdrops + proofs
    ensures field == airdrops
  {
  }

  lemma TipRecords(net: Network, all: seq<Block>, init: seq<Block>, undos: map<Hash, Bytes>,
                   nameUndos: map<nat, NameUndo>, roots: set<NameMap>)
    requires all != [] && init == all[..|all| - 1]
    requires RecordsOk(net, all, |init|, undos, nameUndos, roots)
    ensures Replay(net, init).Accept? && Replay(net, init).value.tree in roots
    ensures all[|all| - 1].hash !in Replay(net, init).value.main
  {
    hide ConnectBlock, NameUndoOk, UndoCoinsOf, Replay;
    assert all[..|init|] == init;
    ConnectMain(net, Replay(net, init).value, all[|all| - 1]);
  }

  lemma RecordKept(net: Network, all: seq<Block>, init: seq<Block>, k: nat,
                   undos: map<Hash, Bytes>, nameUndos: map<nat, NameUndo>, roots: set<NameMap>,
                   undos': map<Hash, Bytes>, nameUndos': map<nat, NameUndo>)
    requires all != [] && init == all[..|all| - 1] && k < |init|
    requires RecordsOk(net, all, k, undos, nameUndos, roots)
    requires undos' == undos - {all[|all| - 1].hash} && nameUndos' == nameUndos - {|init|}
    requires init[k].hash != all[|all| - 1].hash
    ensures RecordsOk(net, init, k, undos', nameUndos', roots)
  {
    hide ConnectBlock, NameUndoOk, UndoCoinsOf, Replay;
    assert init[..k] == all[..k] && init[k] == all[k];
    assert StoredAt(nameUndos', k) == StoredAt(nameUndos, k);
    assert Stored(undos', init[k].hash) == Stored(undos, init[k].hash);
  }

  lemma NamesRestored(before: NameMap, after: NameMap, undo: NameUndo, m: map<Hash, Tracked>,
                      txn: NameMap)
    requires NameUndoOk(before, after, undo) && Live(before)
    requires forall n :: n in m <==> exists j :: 0 <= j < |undo| && undo[j].0 == n
    requires forall j :: 0 <= j < |undo| ==> m[undo[j].0].rec == ApplyDelta(after[undo[j].0], undo[j].1)
    requires forall n :: n in txn <==> if n in m then !m[n].rec.IsNull() else n in after
    requires forall n :: n in txn ==> txn[n] == if n in m then m[n].rec else after[n]
    ensures txn == before
  {
    hide ApplyDelta;
    forall n
      ensures n in txn <==> n in before
      ensures n in txn && n in before ==> txn[n] == before[n]
    {
      if n in m {
        var j :| 0 <= j < |undo| && undo[j].0 == n;
      }
    }
  }

  lemma EmptyOverlay(coins: Coins)
    ensures Overlay(coins, map[]) == coins
  {
  }

  lemma NothingDone(c: Context, w: Work, txs: seq<TX>)
    requires forall i :: 0 <= i < |txs| ==> SaneAt(c.net, txs, i)
    ensures WorkAfter(c, w, txs, 0) == Accept(w) && UndoFirst(c, w, txs, 0) == []
  {
  }

  /** What the coinbase is known to have done. */
  lemma UndoCoinbase(c: Context, w: Work, txs: seq<TX>)
    requires 0 < |txs| && (forall k :: 0 <= k < |txs| ==> SaneAt(c.net, txs, k)) && SaneAt(c.net, txs, 0)
    requires WorkAfter(c, w, txs, 0).Accept? && WorkAfter(c, w, txs, 1).Accept?
    ensures var now, next, tx := WorkAfter(c, w, txs, 0).value, WorkAfter(c, w, txs, 1).value, txs[0];
            && 1 <= |tx.inputs| <= |tx.outputs|
            && next.coins == now.coins + CreatedBy(tx, c.Height())
            && next.stats == StatsAddAll(now.stats, tx.outputs)
            && UndoFirst(c, w, txs, 1) == UndoFirst(c, w, txs, 0)
  {
    hide CoinbaseStep, SaneCoinbase, CreatedBy, StatsAddAll, WorkAfter;
    WorkNext(c, w, txs, 0);
    CoinbaseFacts(c, WorkAfter(c, w, txs, 0).value, txs[0]);
  }

  /** What a spend is known to have done. */
  lemma UndoSpend(c: Context, w: Work, txs: seq<TX>, i: nat)
    requires 0 < i < |txs| && (forall k :: 0 <= k < |txs| ==> SaneAt(c.net, txs, k)) && SaneAt(c.net, txs, i)
    requires FreshIn(w.coins, txs)
    requires WorkAfter(c, w, txs, i).Accept? && WorkAfter(c, w, txs, i + 1).Accept?
    ensures var now, next, tx := WorkAfter(c, w, txs, i).value, WorkAfter(c, w, txs, i + 1).value, txs[i];
            var created := CreatedBy(tx, c.Height());
            && (forall j, k :: 0 <= j < k < |tx.inputs| ==> tx.inputs[j].prevout != tx.inputs[k].prevout)
            && (forall j :: 0 <= j < |tx.inputs| ==>
                  tx.inputs[j].prevout in now.coins && tx.inputs[j].prevout !in created)
            && next.coins == now.coins - Prevouts(tx) + created
            && next.stats == StatsAddAll(StatsSpendAll(now.stats, SpentBy(now.coins, tx)), tx.outputs)
            && UndoFirst(c, w, txs, i + 1) == UndoFirst(c, w, txs, i) + SpentBy(now.coins, tx)
  {
    hide SpendStep, SaneTX, CreatedBy, Prevouts, StatsAddAll, StatsSpendAll, SpentBy, WorkAfter, FreshIn;
    WorkNext(c, w, txs, i);
    SpendFacts(c, WorkAfter(c, w, txs, i).value, txs[i]);
    NotCreated(c, w, txs, i);
  }

  /** The coins before transaction `i` hold none of its outputs. */
  lemma NotCreated(c: Context, w: Work, txs: seq<TX>, i: nat)
    requires i < |txs| && (forall m :: 0 <= m < |txs| ==> SaneAt(c.net, txs, m))
    requires FreshIn(w.coins, txs) && WorkAfter(c, w, txs, i).Accept?
    ensures forall op :: op in WorkAfter(c, w, txs, i).value.coins ==>
              op.hash != txs[i].hash && op !in CreatedBy(txs[i], c.Height())
  {
    hide WorkAfter, SaneAt, CreatedBy;
    CreatedHash(txs[i], c.Height());
    forall op | op in WorkAfter(c, w, txs, i).value.coins
      ensures op.hash != txs[i].hash
    {
      WorkCoins(c, w, txs, i, op);
    }
  }

  lemma WorkBack(c: Context, w: Work, txs: seq<TX>, k: nat)
    requires 0 < k <= |txs| && (forall m :: 0 <= m < |txs| ==> SaneAt(c.net, txs, m))
    requires WorkAfter(c, w, txs, k).Accept?
    ensures WorkAfter(c, w, txs, k - 1).Accept?
    ensures TxStep(c, WorkAfter(c, w, txs, k - 1).value, txs, k - 1) == WorkAfter(c, w, txs, k)
  {
  }

  lemma {:induction false} MadeByTx(c: Context, w: Work, txs: seq<TX>, i: nat, k: nat, op: Outpoint)
    requires i < k <= |txs| && (forall m :: 0 <= m < |txs| ==> SaneAt(c.net, txs, m))
    requires FreshIn(w.coins, txs) && WorkAfter(c, w, txs, k).Accept?
    requires op in WorkAfter(c, w, txs, k).value.coins && op.hash == txs[i].hash
    ensures op in CreatedBy(txs[i], c.Height())
  {
    hide CoinbaseStep, SpendStep, SaneCoinbase, SaneTX, CreatedBy, Prevouts, WorkAfter;
    WorkBack(c, w, txs, k);
    var before, tx := WorkAfter(c, w, txs, k - 1).value, txs[k - 1];
    assert SaneAt(c.net, txs, k - 1);
    CreatedHash(tx, c.Height());
    if k == 1 {
      CoinbaseFacts(c, before, tx);
    } else {
      SpendFacts(c, before, tx);
    }
    if op in before.coins {
      if i < k - 1 {
        MadeByTx(c, w, txs, i, k - 1, op);
      } else {
        NotCreated(c, w, txs, i);
      }
    }
  }

  /** Nothing under the hash of transaction `i` but its own outputs. */
  lemma RemovableTX(c: Context, w: Work, txs: seq<TX>, i: nat, coins: Coins)
    requires i < |txs| && (forall m :: 0 <= m < |txs| ==> SaneAt(c.net, txs, m))
    requires FreshIn(w.coins, txs) && WorkAfter(c, w, txs, |txs|).Accept?
    requires WorkAfter(c, w, txs, i).Accept?
    requires coins == WorkAfter(c, w, txs, |txs|).value.coins
    ensures forall op :: op in coins && op.hash == txs[i].hash ==> op in CreatedBy(txs[i], c.Height())
    ensures forall op :: op in WorkAfter(c, w, txs, i).value.coins + CreatedBy(txs[i], c.Height())
                         && op.hash == txs[i].hash
              ==> op in CreatedBy(txs[i], c.Height())
  {
    hide WorkAfter, CreatedBy, SaneAt;
    forall op | op in coins && op.hash == txs[i].hash
      ensures op in CreatedBy(txs[i], c.Height())
    {
      MadeByTx(c, w, txs, i, |txs|, op);
    }
    NotCreated(c, w, txs, i);
  }

  lemma RemoveCreated(c: Context, w: Work, txs: seq<TX>, i: nat)
    requires i < |txs| && (forall m :: 0 <= m < |txs| ==> SaneAt(c.net, txs, m))
    requires FreshIn(w.coins, txs) && WorkAfter(c, w, txs, i).Accept?
    ensures var now, created := WorkAfter(c, w, txs, i).value.coins, CreatedBy(txs[i], c.Height());
            now + created - created.Keys == now
  {
    hide WorkAfter, SaneAt, CreatedBy, FreshIn;
    NotCreated(c, w, txs, i);
  }

  /** Everything a verified block hands to `connectBlock`. */
  lemma ConnectFacts(net: Network, before: LedgerState, block: Block, view: CoinView)
    requires ConnectBlock(net, before, block).Accept? && Live(before.names)
    requires forall i :: 0 <= i < |block.txs| ==> SaneAt(net, block.txs, i)
    requires ViewAt(ContextOf(net, before), WorkOf(before, block), block.txs, |block.txs|, view)
    ensures WorkAfter(ContextOf(net, before), WorkOf(before, block), block.txs, |block.txs|).Accept?
    ensures var now := WorkAfter(ContextOf(net, before), WorkOf(before, block), block.txs, |block.txs|).value;
            && Overlay(before.coins, view.map_) == now.coins
            && OverlayNames(before.names, view.names) == now.names
            && Live(now.names)
            && before.airdrops + view.bits.Keys == now.airdrops
            && ConnectBlock(net, before, block).value
               == LedgerState(before.main + [block.hash], now.coins, now.names,
                    if |before.main| % net.names.treeInterval == 0 then now.names else before.tree,
                    now.airdrops, now.stats)
    ensures TrackedOk(before.names, view.names)
    ensures forall b :: b in view.bits ==> view.bits[b]
    ensures view.undo == UndoCoinsOf(net, before, block)
    ensures block.hash !in before.main
  {
    hide TxStep, SaneAt, TrackedOk, Overlay, OverlayNames, Readable, Live, UndoFirst, WorkAfter;
    SaneTxs(net, before, block);
    WorkStaysLive(ContextOf(net, before), WorkOf(before, block), block.txs, |block.txs|);
  }

  lemma TouchedHaveDeltas(before: NameMap, m: map<Hash, Tracked>)
    requires TrackedOk(before, m) && Live(OverlayNames(before, m))
    ensures forall n :: n in m && n !in before ==> m[n].rec != NULL_REC && m[n].delta != NULL_DELTA
  {
    forall n | n in m && n !in before
      ensures m[n].rec != NULL_REC && m[n].delta != NULL_DELTA
    {
      assert n in OverlayNames(before, m) && OverlayNames(before, m)[n] == m[n].rec;
      assert ApplyDelta(m[n].rec, NULL_DELTA) == m[n].rec;
    }
  }

  lemma AllPut(before: NameMap, m: map<Hash, Tracked>, after: NameMap)
    requires Live(OverlayNames(before, m))
    requires forall n :: n in after <==> if n in m then !m[n].rec.IsNull() else n in before
    requires forall n :: n in after ==> after[n] == if n in m then m[n].rec else before[n]
    ensures after == OverlayNames(before, m)
  {
    forall n | n in m ensures !m[n].rec.IsNull() {
      assert n in OverlayNames(before, m) && OverlayNames(before, m)[n] == m[n].rec;
    }
  }

  lemma ReplayAppend(net: Network, blocks: seq<Block>, block: Block)
    requires Replay(net, blocks).Accept?
    ensures Replay(net, blocks + [block]) == ConnectBlock(net, Replay(net, blocks).value, block)
  {
    assert (blocks + [block])[..|blocks|] == blocks;
  }

  lemma ConnectMain(net: Network, before: LedgerState, block: Block)
    requires ConnectBlock(net, before, block).Accept?
    ensures ConnectBlock(net, before, block).value.main == before.main + [block.hash]
    ensures SaneBlock(net, before, block) && block.treeRoot == before.tree
  {
  }

  /** The main chain lists the hashes of the connected blocks. */
  lemma {:induction false} ReplayMain(net: Network, blocks: seq<Block>)
    requires Replay(net, blocks).Accept?
    ensures |Replay(net, blocks).value.main| == |blocks|
    ensures forall k :: 0 <= k < |blocks| ==> Replay(net, blocks).value.main[k] == blocks[k].hash
  {
    hide ConnectBlock;
    if blocks != [] {
      ReplayMain(net, blocks[..|blocks| - 1]);
      ConnectMain(net, Replay(net, blocks[..|blocks| - 1]).value, blocks[|blocks| - 1]);
    }
  }

  lemma UndoKept(before: map<Hash, Bytes>, after: map<Hash, Bytes>, hash: Hash, undo: seq<CoinEntry>)
    requires hash !in before
    requires after == if undo != [] then before[hash := CoinCodec.WriteUndoCoins(undo)] else before
    ensures Stored(after, hash) == UndoRecord(undo)
    ensures forall h :: h != hash ==> Stored(after, h) == Stored(before, h)
  {
  }

  /** Connecting leaves the records of the earlier blocks in place and adds
      those of the new one. */
  lemma RecordsConnect(net: Network, blocks: seq<Block>, block: Block,
                       undos: map<Hash, Bytes>, nameUndos: map<nat, NameUndo>, roots: set<NameMap>,
                       undos': map<Hash, Bytes>, nameUndos': map<nat, NameUndo>, roots': set<NameMap>)
    requires Replay(net, blocks).Accept?
    requires ConnectBlock(net, Replay(net, blocks).value, block).Accept?
    requires block.hash !in Replay(net, blocks).value.main
    requires forall k :: 0 <= k < |blocks| ==> RecordsOk(net, blocks, k, undos, nameUndos, roots)
    requires Stored(undos', block.hash) == UndoRecord(UndoCoinsOf(net, Replay(net, blocks).value, block))
    requires forall h :: h != block.hash ==> Stored(undos', h) == Stored(undos, h)
    requires forall h :: h != |blocks| ==> StoredAt(nameUndos', h) == StoredAt(nameUndos, h)
    requires NameUndoOk(Replay(net, blocks).value.names,
                        ConnectBlock(net, Replay(net, blocks).value, block).value.names,
                        StoredAt(nameUndos', |blocks|))
    requires roots <= roots' && Replay(net, blocks).value.tree in roots
    ensures forall k :: 0 <= k < |blocks| + 1 ==>
              RecordsOk(net, blocks + [block], k, undos', nameUndos', roots')
  {
    hide ConnectBlock, NameUndoOk, UndoCoinsOf, Stored, StoredAt;
    var all := blocks + [block];
    ReplayMain(net, blocks);
    forall k | 0 <= k < |blocks| + 1
      ensures RecordsOk(net, all, k, undos', nameUndos', roots')
    {
      if k < |blocks| {
        assert all[..k] == blocks[..k] && all[k] == blocks[k];
        assert RecordsOk(net, blocks, k, undos, nameUndos, roots);
        assert blocks[k].hash == Replay(net, blocks).value.main[k];
      } else {
        assert all[..k] == blocks;
      }
    }
  }

  lemma StartCount(c: Context, w: Work, txs: seq<TX>, view: CoinView)
    requires forall i :: 0 <= i < |txs| ==> SaneAt(c.net, txs, i)
    requires ViewAt(c, w, txs, |txs|, view)
    ensures WorkAfter(c, w, txs, |txs|).Accept? && Readable(c, w, txs, |txs|, view.map_)
    ensures WorkAfter(c, w, txs, 0) == Accept(w)
  {
  }

  lemma StepStats(c: Context, w: Work, txs: seq<TX>, i: nat)
    requires i < |txs| && SaneAt(c.net, txs, i) && TxStep(c, w, txs, i).Accept?
    ensures i > 0 ==> forall j :: 0 <= j < |txs[i].inputs| ==> txs[i].inputs[j].prevout in w.coins
    ensures TxStep(c, w, txs, i).value.stats
            == StatsAddAll(if i > 0 then StatsSpendAll(w.stats, SpentBy(w.coins, txs[i])) else w.stats,
                           txs[i].outputs)
  {
    hide NamesAfter, LinksAfter, BitsAfter, CreatedBy, StatsAddAll, StatsSpendAll, SpentFirst;
  }

  lemma ReadableAt(c: Context, w: Work, txs: seq<TX>, i: nat, m: map<Outpoint, ViewCoin>)
    requires i < |txs| && (forall k :: 0 <= k < |txs| ==> SaneAt(c.net, txs, k))
    requires Readable(c, w, txs, |txs|, m) && WorkAfter(c, w, txs, i).Accept?
    ensures i > 0 ==> forall j :: 0 <= j < |txs[i].inputs| ==>
              && txs[i].inputs[j].prevout in m
              && txs[i].inputs[j].prevout in WorkAfter(c, w, txs, i).value.coins
              && m[txs[i].inputs[j].prevout].entry
                 == WorkAfter(c, w, txs, i).value.coins[txs[i].inputs[j].prevout]
  {
  }

  /** An accepted block was accepted at every transaction. */
  lemma {:induction false} WorkPrefix(c: Context, w: Work, txs: seq<TX>, k: nat)
    requires k <= |txs| && (forall i :: 0 <= i < |txs| ==> SaneAt(c.net, txs, i))
    requires WorkAfter(c, w, txs, |txs|).Accept?
    ensures WorkAfter(c, w, txs, k).Accept?
    ensures k > 0 ==>
              && WorkAfter(c, w, txs, k - 1).Accept?
              && WorkAfter(c, w, txs, k) == TxStep(c, WorkAfter(c, w, txs, k - 1).value, txs, k - 1)
    decreases |txs| - k
  {
    hide TxStep;
    if k < |txs| {
      WorkPrefix(c, w, txs, k + 1);
    }
  }

  /** `NameUndo.fromView`: the deltas that are not empty. */
  method UndoFromView(m: map<Hash, Tracked>) returns (undo: NameUndo)
    ensures forall i, j :: 0 <= i < j < |undo| ==> undo[i].0 != undo[j].0
    ensures forall i :: 0 <= i < |undo| ==>
              undo[i].0 in m && undo[i].1 == m[undo[i].0].delta && undo[i].1 != NULL_DELTA
    ensures forall n :: n in m && m[n].delta != NULL_DELTA ==>
              exists i :: 0 <= i < |undo| && undo[i].0 == n
  {
    undo := [];
    var todo := m.Keys;
    while todo != {}
      invariant todo <= m.Keys
      invariant forall i, j :: 0 <= i < j < |undo| ==> undo[i].0 != undo[j].0
      invariant forall i :: 0 <= i < |undo| ==>
                  && undo[i].0 in m && undo[i].0 !in todo
                  && undo[i].1 == m[undo[i].0].delta && undo[i].1 != NULL_DELTA
      invariant forall n :: n in m && n !in todo && m[n].delta != NULL_DELTA ==>
                  exists i :: 0 <= i < |undo| && undo[i].0 == n
      decreases todo
    {
      var n :| n in todo;
      if m[n].delta != NULL_DELTA {
        ghost var before := undo;
        undo := undo + [(n, m[n].delta)];
        assert undo[|before|].0 == n;
        assert forall i :: 0 <= i < |before| ==> undo[i] == before[i];
      }
      todo := todo - {n};
    }
  }

  /** The deltas of a view undo what the view does to the names. */
  lemma UndoFromViewOk(before: NameMap, m: map<Hash, Tracked>, undo: NameUndo)
    requires TrackedOk(before, m)
    requires forall i, j :: 0 <= i < j < |undo| ==> undo[i].0 != undo[j].0
    requires forall i :: 0 <= i < |undo| ==> undo[i].0 in m && undo[i].1 == m[undo[i].0].delta
    requires forall n :: n in m && m[n].delta != NULL_DELTA ==>
               exists i :: 0 <= i < |undo| && undo[i].0 == n
    requires forall n :: n in m && n !in before ==> m[n].rec != NULL_REC && m[n].delta != NULL_DELTA
    ensures NameUndoOk(before, OverlayNames(before, m), undo)
  {
    var after := OverlayNames(before, m);
    forall i | 0 <= i < |undo|
      ensures undo[i].0 in after
      ensures var r := ApplyDelta(after[undo[i].0], undo[i].1);
              if undo[i].0 in before then r == before[undo[i].0] else r.IsNull()
    {
      var n := undo[i].0;
      assert after[n] == m[n].rec;
    }
    forall n | forall i :: 0 <= i < |undo| ==> undo[i].0 != n
      ensures n in before <==> n in after
      ensures n in before ==> before[n] == after[n]
    {
      if n in m {
        assert m[n].delta == NULL_DELTA;
        assert ApplyDelta(m[n].rec, NULL_DELTA) == m[n].rec;
      }
    }
  }
}
