/**
 The chain: adding blocks, choosing the branch with the most work, reorganising
 onto it, and going back when the new branch turns out to be invalid.
 */
module Chain {
  import opened Primitives
  import opened Names
  import opened Ledger
  import opened Views
  import opened Verify
  import opened ChainDB
  import opened BlockTree
  import Codecs

  /** A block whose parent is not known yet, and when it came. */
  datatype Orphan = Orphan(block: Block, time: int)

  /** Before a certain height only a coinbase with one plain output is allowed. */
  function EarlyRule(txStart: nat, height: nat, block: Block): Outcome<()> {
    if height >= txStart then Accept(())
    else if |block.txs| == 0 || |block.txs[0].outputs| == 0 then Throw("TypeError")
    else if |block.txs| > 1 || |block.txs[0].outputs| > 1 || !block.txs[0].outputs[0].covenant.NoCovenant?
    then Reject("no-tx-allowed-yet")
    else Accept(())
  }

  /** What is allowed early. */
  lemma EarlyBlocks(txStart: nat, height: nat, block: Block)
    ensures EarlyRule(txStart, height, block).Accept? <==>
              || txStart <= height
              || (|block.txs| == 1 && |block.txs[0].outputs| == 1 && block.txs[0].outputs[0].covenant.NoCovenant?)
    ensures EarlyRule(txStart, height, block).Reject? ==>
              |block.txs| > 1 || |block.txs[0].outputs| > 1 || !block.txs[0].outputs[0].covenant.NoCovenant?
  {
  }

  /** A block that no chain can hold: it is not allowed at its height, fails the checks
      that need no ledger, or does not connect to what is below it. */
  ghost predicate Bad(net: Network, precheck: (Hash, Block) -> bool, txStart: nat, index: Index, b: Block)
    requires index.Valid()
  {
    && b.prevBlock in index.entries
    && (|| EarlyRule(txStart, index.entries[b.prevBlock].height + 1, b).Reject?
        || !precheck(b.prevBlock, b)
        || !Replay(net, index.Path(b.prevBlock) + [b]).Accept?)
  }

  /** The block is in the index, and its path does not replay. */
  ghost predicate Stuck(net: Network, index: Index, h: Hash)
    requires index.Valid()
  {
    h in index.entries && !Replay(net, index.Path(h)).Accept?
  }

  /** On the path of `target`, and not replaying. */
  ghost predicate Lost(net: Network, index: Index, target: Hash, a: Hash)
    requires index.Valid() && target in index.entries
  {
    index.Ancestor(a, target) && Stuck(net, index, a)
  }

  predicate InTrail(trail: seq<Block>, h: Hash) {
    exists i :: 0 <= i < |trail| && trail[i].hash == h
  }

  /** Every hash remembered as invalid is that of an indexed block whose path does
      not replay, or of a block that was refused: because it was bad, or because
      its parent had been refused before. */
  ghost predicate Traced(net: Network, precheck: (Hash, Block) -> bool, txStart: nat, index: Index,
                         invalid: set<Hash>, trail: seq<Block>)
    requires index.Valid()
  {
    && (forall h :: h in invalid ==> Stuck(net, index, h) || InTrail(trail, h))
    && (forall i :: 0 <= i < |trail| ==>
          && trail[i].hash in invalid && trail[i].hash !in index.entries
          && (Bad(net, precheck, txStart, index, trail[i]) || InTrail(trail[..i], trail[i].prevBlock)))
  }

  /** What becomes of a block whose parent is indexed, from the state before: too
      early, or its own checks fail; not connected when the tip has as much work;
      otherwise what replaying its whole path gives. */
  ghost function Verdict(net: Network, precheck: (Hash, Block) -> bool, txStart: nat, index: Index, tip: Hash,
                         block: Block): Outcome<()>
    requires index.Valid() && tip in index.entries && block.prevBlock in index.entries
  {
    var early := EarlyRule(txStart, index.entries[block.prevBlock].height + 1, block);
    if !early.Accept? then early
    else if (block.prevBlock != tip || !MoreWork(index, tip, block)) && !precheck(block.prevBlock, block) then
      Reject("invalid")
    else if !MoreWork(index, tip, block) then Accept(())
    else Done(Replay(net, index.Path(block.prevBlock) + [block]))
  }

  predicate MoreWork(index: Index, tip: Hash, block: Block)
    requires tip in index.entries && block.prevBlock in index.entries
  {
    Proof(block.target) + index.entries[block.prevBlock].chainwork > index.entries[tip].chainwork
  }

  predicate TooEarly(txStart: nat, index: Index, block: Block)
    requires block.prevBlock in index.entries
  {
    !EarlyRule(txStart, index.entries[block.prevBlock].height + 1, block).Accept?
  }

  /** What a refused block adds to the hashes remembered as invalid: itself, if it is
      remembered, and otherwise only blocks that are indexed. */
  predicate Minded(before: set<Hash>, after: set<Hash>, entries: set<Hash>, h: Hash, remembered: bool) {
    && before <= after && (h in after <==> h in before || remembered)
    && (forall a :: a in after ==> a in before || a == h || a in entries)
    && (!remembered ==> after == before)
  }

  /** Whether the path of the block is connected at all. */
  predicate Tried(precheck: (Hash, Block) -> bool, index: Index, tip: Hash, block: Block)
    requires tip in index.entries && block.prevBlock in index.entries
  {
    MoreWork(index, tip, block) && (block.prevBlock == tip || precheck(block.prevBlock, block))
  }

  /** A rejected block is remembered, unless the reason is that it was malleated. */
  predicate Remembered(malleated: string -> bool, early: bool, o: Outcome<()>) {
    o.Reject? && (early || !malleated(o.reason))
  }

  /** A hash stands for one header, with one parent. */
  predicate Headed(parentOf: Hash -> Hash, store: map<Hash, Block>, orphans: map<Hash, Orphan>) {
    && (forall h :: h in store ==> store[h].prevBlock == parentOf(h))
    && (forall h :: h in orphans ==> orphans[h].block.prevBlock == parentOf(h))
  }

  /** No orphan is remembered as invalid. */
  predicate Apart(orphans: map<Hash, Orphan>, invalid: set<Hash>) {
    orphans.Keys !! invalid
  }

  /** Both orphan maps hold the same orphans, none of them in the index. */
  predicate OrphansOk(entries: set<Hash>, byHash: map<Hash, Orphan>, byPrev: map<Hash, Orphan>) {
    && (forall h :: h in byHash ==>
          && byHash[h].block.hash == h && h !in entries
          && byHash[h].block.prevBlock in byPrev && byPrev[byHash[h].block.prevBlock] == byHash[h])
    && (forall p :: p in byPrev ==>
          && byPrev[p].block.prevBlock == p
          && byPrev[p].block.hash in byHash && byHash[byPrev[p].block.hash] == byPrev[p])
  }

  /** No orphan waits for a block of the index. */
  predicate Waits(entries: set<Hash>, byHash: map<Hash, Orphan>, byPrev: map<Hash, Orphan>) {
    OrphansOk(entries, byHash, byPrev) && forall p :: p in byPrev ==> p !in entries
  }

  /** The same, but for the block just indexed. */
  predicate Resolving(entries: set<Hash>, byHash: map<Hash, Orphan>, byPrev: map<Hash, Orphan>, entry: Hash) {
    OrphansOk(entries, byHash, byPrev) && forall p :: p in byPrev && p in entries ==> p == entry
  }

  predicate Held(byHash: map<Hash, Orphan>, orphan: Orphan) {
    orphan.block.hash in byHash && byHash[orphan.block.hash] == orphan
  }

  /** The orphans that came less than an hour ago. */
  function Young(orphans: map<Hash, Orphan>, now: int): map<Hash, Orphan> {
    map h | h in orphans && now < orphans[h].time + 3600 :: orphans[h]
  }

  predicate OldestOf(orphans: map<Hash, Orphan>, h: Hash) {
    h in orphans && forall g :: g in orphans ==> orphans[h].time <= orphans[g].time
  }

  /** All orphans that are gone are indexed now, but for at most one. */
  predicate Resolves(entries: map<Hash, ChainEntry>, before: map<Hash, Orphan>, after: map<Hash, Orphan>) {
    forall g, h :: g in before && g !in after && g !in entries && h in before && h !in after && h !in entries ==> g == h
  }

  /** Why an orphan makes room for a new one: it waits for the same parent, came too
      long ago, or is the oldest where there is room for no more. */
  predicate Outlived(orphans: map<Hash, Orphan>, block: Block, maxOrphans: nat, now: int, h: Hash)
    requires h in orphans
  {
    || orphans[h].block.prevBlock == block.prevBlock
    || now >= orphans[h].time + 3600
    || (maxOrphans <= |Young(orphans, now)|
        && forall g :: g in orphans && now < orphans[g].time + 3600 && orphans[g].block.prevBlock != block.prevBlock ==>
             orphans[h].time <= orphans[g].time)
  }

  /** A part of a map. */
  predicate Kept(before: map<Hash, Orphan>, after: map<Hash, Orphan>) {
    forall h :: h in after ==> h in before && after[h] == before[h]
  }

  predicate Extends(before: map<Hash, ChainEntry>, after: map<Hash, ChainEntry>) {
    forall h :: h in before ==> h in after && after[h] == before[h]
  }

  /** No indexed block has more work than `tip`. */
  ghost predicate Best(index: Index, tip: Hash) {
    tip in index.entries
    && forall h :: h in index.entries ==> index.entries[h].chainwork <= index.entries[tip].chainwork
  }

  /** The tip stays or gets more work, and keeps having the most. */
  ghost predicate Improves(before: Index, a: Hash, after: Index, b: Hash) {
    && a in after.entries && b in after.entries
    && (a == b || after.entries[a].chainwork < after.entries[b].chainwork)
    && (Best(before, a) ==> Best(after, b))
  }

  function GenesisIndex(genesis: Block): Index {
    Index(genesis.hash,
          map[genesis.hash := ChainEntry(genesis.hash, genesis.prevBlock, 0, Proof(genesis.target))],
          map[genesis.hash := genesis])
  }

  lemma GenesisFacts(genesis: Block)
    ensures var index := GenesisIndex(genesis);
            && index.Valid() && genesis.hash in index.entries && index.Path(genesis.hash) == [genesis]
            && index.Below(Codecs.MAX_HEIGHT) && Best(index, genesis.hash)
  {
    hide Proof;
  }

  /** The index grew by allowed entries only. */
  predicate Grown(before: map<Hash, ChainEntry>, after: map<Hash, ChainEntry>, allowed: set<Hash>) {
    && Extends(before, after)
    && (forall h :: h in after ==> h in before || h in allowed)
  }

  class Chain {
    const db: ChainDB
    const txStart: nat
    const maxOrphans: nat
    var index: Index
    var tip: Hash
    var invalid: set<Hash>
    /** The blocks that were refused, in order. */
    ghost var trail: seq<Block>
    ghost const parentOf: Hash -> Hash
    var orphanMap: map<Hash, Orphan>
    var orphanPrev: map<Hash, Orphan>
    /** The checks `verify` can make before the branch is connected, as a function
        of the previous block and the new one. */
    const precheck: (Hash, Block) -> bool
    /** Reasons for which a rejected block is not remembered as invalid. */
    const malleated: string -> bool

    ghost predicate Valid()
      reads this`index, this`tip, db
    {
      && db.Valid() && index.Valid()
      && tip in index.entries
      && db.blocks == index.Path(tip)
      && index.Below(Codecs.MAX_HEIGHT)
    }

    /** What is remembered as invalid is so for a reason. */
    ghost predicate Known()
      requires index.Valid()
      reads this`index, this`invalid, this`trail
    {
      Traced(db.net, precheck, txStart, index, invalid, trail)
    }

    /** That, and no orphan is among them. */
    ghost predicate Sound()
      requires index.Valid()
      reads this`index, this`invalid, this`trail, this`orphanMap
    {
      Known() && Headed(parentOf, index.store, orphanMap) && Apart(orphanMap, invalid)
    }

    /** The orphans that wait are those whose parent is still unknown. */
    ghost predicate Waiting()
      reads this`index, this`orphanMap, this`orphanPrev
    {
      Waits(index.entries.Keys, orphanMap, orphanPrev)
    }

    function Work(h: Hash): nat
      requires h in index.entries
      reads this`index
    {
      index.entries[h].chainwork
    }

    /** A chain over a database that holds the genesis block. */
    constructor (db: ChainDB, genesis: Block, precheck: (Hash, Block) -> bool, malleated: string -> bool,
                 txStart: nat, maxOrphans: nat, ghost parentOf: Hash -> Hash)
      requires db.Valid() && db.blocks == [genesis] && parentOf(genesis.hash) == genesis.prevBlock
      ensures Valid() && Sound() && this.db == db && tip == genesis.hash && invalid == {}
      ensures Best(index, tip) && Waiting() && orphanMap == map[]
      ensures this.precheck == precheck && this.malleated == malleated
      ensures this.txStart == txStart && this.maxOrphans == maxOrphans && this.parentOf == parentOf
    {
      this.db, this.precheck, this.malleated := db, precheck, malleated;
      this.txStart, this.maxOrphans := txStart, maxOrphans;
      index := GenesisIndex(genesis);
      tip := genesis.hash;
      invalid, orphanMap, orphanPrev := {}, map[], map[];
      this.parentOf, trail := parentOf, [];
      new;
      hide Index.Valid, Index.Path, Index.Below, Best, GenesisIndex;
      GenesisFacts(genesis);
    }

    /** `verifyContext`, then `verifyInputs` into a fresh view. */
    method VerifyBlock(block: Block) returns (o: Outcome<()>, view: CoinView)
      requires db.Valid()
      ensures o == Done(ConnectBlock(db.net, db.Ledger(), block))
      ensures o.Accept? ==>
                && (forall i :: 0 <= i < |block.txs| ==> SaneAt(db.net, block.txs, i))
                && ViewAt(ContextOf(db.net, db.Ledger()), WorkOf(db.Ledger(), block), block.txs,
                          |block.txs|, view)
      ensures fresh(view)
    {
      hide ViewAt, WorkAfter, Live, SaneAt, FreshIn;
      var ledger := LedgerState(db.main, db.coins, db.txn, db.tree, db.field, db.state);
      view := new CoinView();
      if !SaneBlock(db.net, ledger, block) || !db.net.context(ledger, block) {
        return Reject("invalid"), view;
      }
      if block.treeRoot != db.tree {
        return Reject("bad-tree-root"), view;
      }
      SaneTxs(db.net, ledger, block);
      ReplayLive(db.net, db.blocks);
      o, view := VerifyInputs(ContextOf(db.net, ledger), WorkOf(ledger, block), block.txs);
    }

    /** `disconnect`: the tip's parent becomes the tip. */
    method Disconnect(entry: ChainEntry)
      requires Valid() && entry.hash == tip && entry == index.entries[tip] && entry.height > 0
      modifies this`tip, db
      ensures Valid() && tip == entry.prevBlock
      ensures index == old(index)
    {
      hide ConnectBlock, RecordsOk, Replay;
      assert index.EntryOk(tip);
      index.PathFacts(tip);
      db.Disconnect(index.store[entry.hash]);
      tip := entry.prevBlock;
    }

    /** `reconnect`: contextual verification, then the block becomes the tip. */
    method Reconnect(entry: ChainEntry) returns (o: Outcome<()>)
      requires Valid() && Known()
      requires entry.hash in index.entries && index.entries[entry.hash] == entry
      requires entry.height > 0 && entry.prevBlock == tip
      modifies this`tip, this`invalid, db
      ensures Valid() && index == old(index)
      ensures o == Done(ConnectBlock(db.net, old(db.Ledger()), index.store[entry.hash]))
      ensures o.Accept? ==> tip == entry.hash
      ensures !o.Accept? ==> tip == old(tip) && db.Ledger() == old(db.Ledger())
      ensures Known() && o == Done(Replay(db.net, index.Path(entry.hash)))
      ensures invalid == old(invalid) + if Remembered(malleated, false, o) then {entry.hash} else {}
    {
      hide ConnectBlock, RecordsOk, Replay, ViewAt, SaneAt, WorkAfter, Traced, ChainDB.Valid, Index.Valid;
      index.PathStep(entry.hash);
      DbReplays();
      ReplayOne(db.net, index.Path(tip), index.store[entry.hash]);
      var block := index.store[entry.hash];
      var view;
      o, view := VerifyBlock(block);
      if o.Accept? {
        db.Connect(block, view);
        tip := entry.hash;
      } else if o.Reject? && !malleated(o.reason) {
        TracedMark(db.net, precheck, txStart, index, invalid, trail, {entry.hash});
        invalid := invalid + {entry.hash};
      }
    }

    /** The blocks to disconnect or connect: from `h` down to above `fork`. */
    method CollectBranch(h: Hash, fork: Hash) returns (branch: seq<ChainEntry>)
      requires index.Valid() && h in index.entries && index.Ancestor(fork, h)
      ensures branch == index.Branch(h, fork)
    {
      hide Index.Valid;
      branch := [];
      var entry := h;
      while entry != fork
        invariant entry in index.entries && index.Ancestor(fork, entry)
        invariant index.Branch(h, fork) == branch + index.Branch(entry, fork)
        decreases index.entries[entry].height
      {
        index.BranchFacts(entry, fork, 0);
        index.BranchStep(entry, fork);
        branch := branch + [index.entries[entry]];
        entry := index.entries[entry].prevBlock;
      }
    }

    /** Disconnecting a branch of the main chain leads back to the fork. */
    method DisconnectBranch(branch: seq<ChainEntry>, ghost fork: Hash)
      requires Valid() && index.Ancestor(fork, tip) && branch == index.Branch(tip, fork)
      modifies this`tip, db
      ensures Valid() && tip == fork && index == old(index)
    {
      hide Index.Valid, ChainDB.Valid;
      var i := 0;
      while i < |branch|
        invariant 0 <= i <= |branch|
        invariant Valid() && index == old(index) && index.Ancestor(fork, tip)
        invariant index.Branch(tip, fork) == branch[i..]
      {
        index.BranchFacts(tip, fork, 0);
        index.BranchStep(tip, fork);
        Disconnect(branch[i]);
        i := i + 1;
      }
      index.BranchFacts(tip, fork, 0);
      index.BranchEmpty(tip, fork);
    }

    /** Connects the entries of a branch from the fork up, and gives what replaying
        the whole path gives.  When that fails for good, everything on the path
        that does not replay is remembered as invalid. */
    method ConnectBranch(branch: seq<ChainEntry>, ghost fork: Hash, ghost target: Hash)
        returns (o: Outcome<()>)
      requires Valid() && Known() && tip == fork && target in index.entries
      requires index.Ancestor(fork, target) && branch == index.Branch(target, fork)
      modifies this`tip, this`invalid, db
      ensures Valid() && Known() && index == old(index)
      ensures o == Done(Replay(db.net, index.Path(target)))
      ensures o.Accept? ==> tip == target
      ensures index.Ancestor(fork, tip)
      ensures forall a :: a in invalid <==> a in old(invalid) || (Remembered(malleated, false, o) && Lost(db.net, index, target, a))
    {
      hide Index.Valid, ChainDB.Valid, ConnectBlock, Replay, Traced, Lost, HashesOf;
      o := Accept(());
      var i := |branch|;
      index.BranchEnds(target, fork);
      while i > 0
        invariant 0 <= i <= |branch|
        invariant Valid() && index == old(index) && o == Accept(()) && Known() && invalid == old(invalid)
        invariant index.Ancestor(fork, tip)
        invariant tip == if i < |branch| then branch[i].hash else fork
      {
        i := i - 1;
        index.BranchFacts(target, fork, i);
        DbReplays();
        o := Reconnect(branch[i]);
        if !o.Accept? {
          GiveUp(branch, i, o, fork, target);
          return;
        }
      }
      DbReplays();
    }

    /** A branch that failed at entry `i` is given up. */
    method GiveUp(branch: seq<ChainEntry>, i: nat, o: Outcome<()>, ghost fork: Hash, ghost target: Hash)
      requires index.Valid() && Known() && target in index.entries && index.Ancestor(fork, target)
      requires branch == index.Branch(target, fork) && i < |branch|
      requires branch[i].hash in index.entries && branch[i].prevBlock in index.entries
      requires Replay(db.net, index.Path(branch[i].prevBlock)).Accept?
      requires !o.Accept? && o == Done(Replay(db.net, index.Path(branch[i].hash)))
      requires Remembered(malleated, false, o) ==> branch[i].hash in invalid
      modifies this`invalid
      ensures Known() && o == Done(Replay(db.net, index.Path(target)))
      ensures forall a :: a in invalid <==>
                a in old(invalid) || (Remembered(malleated, false, o) && Lost(db.net, index, target, a))
      ensures Remembered(malleated, false, o) ==> Lost(db.net, index, target, branch[i].hash)
    {
      hide Index.Valid, Replay, Traced, Lost, HashesOf;
      index.BranchIsAncestor(target, fork, i);
      PathFails(db.net, index, branch[i].hash, target);
      if o.Reject? && !malleated(o.reason) {
        LostBranch(target, fork, i);
        MarkAbove(branch, i, target);
      }
    }

    /** The rest of a branch, above an entry that failed. */
    method MarkAbove(branch: seq<ChainEntry>, from: nat, ghost target: Hash)
      requires index.Valid() && Known() && from < |branch| && branch[from].hash in invalid
      requires target in index.entries
      requires forall a :: a in HashesOf(branch[..from + 1]) <==> Lost(db.net, index, target, a)
      modifies this`invalid
      ensures Known() && forall a :: a in invalid <==> a in old(invalid) || Lost(db.net, index, target, a)
    {
      hide Index.Valid, Traced, Lost, HashesOf;
      var i := from;
      NoHashes(branch, from);
      TailHashes(branch, from, from + 1);
      NoHashes(branch, from + 1);
      while i > 0
        invariant 0 <= i <= from
        invariant invalid == old(invalid) + HashesOf(branch[i..from])
        modifies this`invalid
      {
        i := i - 1;
        TailHashes(branch, i, from);
        invalid := invalid + {branch[i].hash};
      }
      LostStuck(db.net, index, target);
      AllHashes(branch, from);
      TracedMark(db.net, precheck, txStart, index, old(invalid), trail, HashesOf(branch[..from + 1]));
      assert invalid == old(invalid) + HashesOf(branch[..from + 1]);
    }

    /** Where a branch stops replaying, everything above is lost and nothing below. */
    lemma LostBranch(target: Hash, fork: Hash, i: nat)
      requires index.Valid() && target in index.entries && index.Ancestor(fork, target)
      requires i < |index.Branch(target, fork)|
      requires index.Branch(target, fork)[i].prevBlock in index.entries
      requires Replay(db.net, index.Path(index.Branch(target, fork)[i].prevBlock)).Accept?
      requires Stuck(db.net, index, index.Branch(target, fork)[i].hash)
      ensures forall a :: a in HashesOf(index.Branch(target, fork)[..i + 1]) <==> Lost(db.net, index, target, a)
      ensures Lost(db.net, index, target, index.Branch(target, fork)[i].hash)
    {
      hide Index.Valid, Index.Path, Replay;
      var branch := index.Branch(target, fork);
      forall a | Lost(db.net, index, target, a) ensures a in HashesOf(branch[..i + 1]) {
        BranchSplits(index, target, fork, i, a);
        if index.Ancestor(a, branch[i].prevBlock) {
          PathReplays(db.net, index, a, branch[i].prevBlock);
        }
      }
      forall j | 0 <= j <= i ensures Lost(db.net, index, target, branch[j].hash) {
        index.BranchFacts(target, fork, j);
        index.BranchFacts(target, fork, i);
        index.BranchIsAncestor(target, fork, j);
        BranchOrder(index, target, fork, j, i);
        PathFails(db.net, index, branch[i].hash, branch[j].hash);
      }
    }

    lemma DbReplays()
      requires Valid()
      ensures Replay(db.net, index.Path(tip)) == Accept(db.Ledger())
    {
    }

    /** `unreorganize`: back from wherever the failed attempt stopped to the
        previous tip.  Every reconnection succeeds, because those blocks were
        connected before on the same state. */
    method Unreorganize(fork: Hash, last: Hash)
      requires Valid() && Known() && last in index.entries
      requires index.Ancestor(fork, tip) && index.Ancestor(fork, last)
      requires Replay(db.net, index.Path(last)).Accept?
      modifies this`tip, this`invalid, db
      ensures Valid() && Known() && index == old(index) && tip == last && invalid == old(invalid)
      ensures Accept(db.Ledger()) == Replay(db.net, index.Path(last))
    {
      hide Index.Valid, ChainDB.Valid, ConnectBlock, Replay, Traced, Lost;
      var disconnect := CollectBranch(tip, fork);
      var connect := CollectBranch(last, fork);
      DisconnectBranch(disconnect, fork);
      var o := ConnectBranch(connect, fork, last);
      assert o.Accept?;
      DbReplays();
    }

    /** From the tip back to the fork, and up to the parent of `block`. */
    method SwitchBranch(block: Block) returns (o: Outcome<()>, fork: Hash)
      requires Valid() && Known() && block.prevBlock in index.entries && block.hash !in index.entries
      modifies this`tip, this`invalid, db
      ensures Valid() && Known() && index == old(index)
      ensures fork in index.entries && index.Ancestor(fork, old(tip)) && index.Ancestor(fork, tip)
      ensures o == Done(Replay(db.net, index.Path(block.prevBlock)))
      ensures o.Accept? ==> tip == block.prevBlock
      ensures forall a :: a in invalid <==>
                a in old(invalid) || (Remembered(malleated, false, o) && Lost(db.net, index, block.prevBlock, a))
    {
      hide Index.Valid, ChainDB.Valid, ConnectBlock, Replay, Traced, Lost;
      index.ValidAfterAdd(block);
      fork := FindFork(index.Add(block), tip, block.hash);
      index.ForkOfNew(block, fork, tip);
      var disconnect := CollectBranch(tip, fork);
      var connect := CollectBranch(block.prevBlock, fork);
      DisconnectBranch(disconnect, fork);
      o := ConnectBranch(connect, fork, block.prevBlock);
    }

    /** `reorganize`: onto the parent of `block`, a new block not yet indexed. */
    method Reorganize(block: Block) returns (o: Outcome<()>, fork: Hash)
      requires Valid() && Known() && block.prevBlock in index.entries && block.hash !in index.entries
      modifies this`tip, this`invalid, this`trail, db
      ensures Valid() && Known() && index == old(index)
      ensures fork in index.entries && index.Ancestor(fork, old(tip)) && index.Ancestor(fork, tip)
      ensures o == Done(Replay(db.net, index.Path(block.prevBlock)))
      ensures o.Accept? ==> tip == block.prevBlock
      ensures o.Reject? ==> tip == old(tip) || Work(tip) > Work(old(tip))
      ensures forall a :: a in invalid <==>
                a in old(invalid) || (Remembered(malleated, false, o) && (a == block.hash || Lost(db.net, index, block.prevBlock, a)))
    {
      hide Index.Valid, ChainDB.Valid, ConnectBlock, Replay, Traced, Lost, Bad;
      var oldTip := tip;
      DbReplays();
      o, fork := SwitchBranch(block);
      if o.Reject? {
        if !malleated(o.reason) {
          BadPath(db.net, precheck, txStart, index, block);
          Refuse(block);
        }
        if Work(tip) <= Work(oldTip) {
          Unreorganize(fork, oldTip);
        }
      }
      index.AncestorSelf(fork, tip);
    }

    /** `setBestChain`: called when the new block has more work than the tip. */
    method SetBestChain(block: Block) returns (o: Outcome<()>)
      requires Valid() && Known() && block.prevBlock in index.entries
      requires block.hash !in index.entries && block.hash !in invalid
      requires index.entries[block.prevBlock].height + 1 < Codecs.MAX_HEIGHT
      requires MoreWork(index, tip, block)
      modifies this`tip, this`invalid, this`trail, this`index, db
      ensures Valid() && Known()
      ensures o == if block.prevBlock != old(tip) && !precheck(block.prevBlock, block) then Reject("invalid")
                   else Done(Replay(db.net, old(index).Path(block.prevBlock) + [block]))
      ensures o.Accept? ==> index == old(index).Add(block) && tip == block.hash
      ensures !o.Accept? ==> index == old(index)
      ensures o.Reject? ==> tip == old(tip) || Work(tip) > Work(old(tip))
      ensures forall a :: a in invalid <==>
                || a in old(invalid)
                || (Remembered(malleated, false, o)
                    && (a == block.hash
                        || ((block.prevBlock == old(tip) || precheck(block.prevBlock, block))
                            && Lost(db.net, old(index), block.prevBlock, a))))
    {
      hide Index.Valid, ChainDB.Valid, ConnectBlock, Replay, ViewAt, SaneAt, WorkAfter, Traced, Lost, EarlyRule;
      var oldTip, reorganized := tip, false;
      ghost var oldLedger := db.Ledger();
      DbReplays();
      var fork := tip;
      if block.prevBlock != tip {
        if !precheck(block.prevBlock, block) {
          o := Reject("invalid");
          if !malleated("invalid") {
            Refuse(block);
          }
          return;
        }
        ReplayOne(db.net, index.Path(block.prevBlock), block);
        o, fork := Reorganize(block);
        if !o.Accept? {
          return;
        }
        reorganized := true;
      }
      DbReplays();
      ReplayOne(db.net, index.Path(block.prevBlock), block);
      NoneLost(db.net, index, block.prevBlock);
      var view;
      o, view := VerifyBlock(block);
      if !o.Accept? {
        if o.Reject? {
          if !malleated(o.reason) {
            Refuse(block);
          }
          if reorganized && Work(tip) <= Work(oldTip) {
            Unreorganize(fork, oldTip);
          }
        }
        return;
      }
      db.Connect(block, view);
      index.ValidAfterAdd(block);
      index.PathOfNew(block);
      TracedAdd(db.net, precheck, txStart, index, invalid, trail, block);
      index := index.Add(block);
      tip := block.hash;
    }

    /** `setInvalid`. */
    method Refuse(block: Block)
      requires index.Valid() && Known() && block.hash !in index.entries
      requires Bad(db.net, precheck, txStart, index, block) || InTrail(trail, block.prevBlock)
      modifies this`invalid, this`trail
      ensures Known() && invalid == old(invalid) + {block.hash}
    {
      hide Index.Valid, Traced, Bad, InTrail;
      TracedRefuse(db.net, precheck, txStart, index, invalid, trail, block);
      invalid := invalid + {block.hash};
      trail := trail + [block];
    }

    /** `saveAlternate`: the block is indexed, not connected. */
    method SaveAlternate(block: Block) returns (o: Outcome<()>)
      requires Valid() && Known() && block.prevBlock in index.entries
      requires block.hash !in index.entries && block.hash !in invalid
      requires index.entries[block.prevBlock].height + 1 < Codecs.MAX_HEIGHT
      modifies this`invalid, this`trail, this`index
      ensures Valid() && Known() && tip == old(tip)
      ensures o == if precheck(block.prevBlock, block) then Accept(()) else Reject("invalid")
      ensures o.Accept? ==> index == old(index).Add(block)
      ensures !o.Accept? ==> index == old(index)
      ensures invalid == old(invalid) + if Remembered(malleated, false, o) then {block.hash} else {}
    {
      hide Index.Valid, ChainDB.Valid, Traced;
      if !precheck(block.prevBlock, block) {
        if !malleated("invalid") {
          Refuse(block);
        }
        return Reject("invalid");
      }
      index.ValidAfterAdd(block);
      index.PathAfterAdd(block, tip);
      index.AddedEntry(block);
      TracedAdd(db.net, precheck, txStart, index, invalid, trail, block);
      index := index.Add(block);
      return Accept(());
    }

    /** `connect`: a new block whose parent is known.  Too early a block is refused
        and remembered; one with no more work than the tip is indexed when it passes
        its own checks, but not connected; one on the tip is accepted when it
        connects to the ledger; any other when it passes its own checks and its
        whole path replays.  Nothing else is ever remembered as invalid than what
        was rejected for good, and with it what is lost on its path. */
    method Connect(block: Block) returns (o: Outcome<()>)
      requires Valid() && Known() && block.prevBlock in index.entries
      requires block.hash !in index.entries && block.hash !in invalid
      requires index.entries[block.prevBlock].height + 1 < Codecs.MAX_HEIGHT
      modifies this`tip, this`invalid, this`trail, this`index, db
      ensures Valid() && Known()
      ensures o == old(Verdict(db.net, precheck, txStart, index, tip, block))
      ensures o.Accept? ==>
                && index == old(index).Add(block)
                && tip == if old(MoreWork(index, tip, block)) then block.hash else old(tip)
      ensures !o.Accept? ==> index == old(index)
      ensures tip in index.entries
      ensures o.Reject? ==> tip == old(tip) || Work(tip) > old(Work(tip))
      ensures tip == old(tip) ==> db.Ledger() == old(db.Ledger())
      ensures var early := EarlyRule(txStart, old(index).entries[block.prevBlock].height + 1, block);
              && (!early.Accept? ==> tip == old(tip))
              && forall a :: a in invalid <==>
                   || a in old(invalid)
                   || (Remembered(malleated, !early.Accept?, o)
                       && (a == block.hash
                           || (early.Accept? && Tried(precheck, old(index), old(tip), block)
                               && Lost(db.net, old(index), block.prevBlock, a))))
    {
      hide Index.Valid, ChainDB.Valid, ConnectBlock, Replay, Index.Add, Traced, Lost;
      o := EarlyRule(txStart, index.entries[block.prevBlock].height + 1, block);
      if !o.Accept? {
        if o.Reject? {
          Refuse(block);
        }
        return;
      }
      DbReplays();
      index.ValidAfterAdd(block);
      index.PathAfterAdd(block, tip);
      if Proof(block.target) + Work(block.prevBlock) <= Work(tip) {
        o := SaveAlternate(block);
      } else {
        o := SetBestChain(block);
      }
      DbReplays();
    }

    /** `connect` in terms of what is indexed, which tip stands and what is
        remembered. */
    method ConnectEntry(block: Block, ghost limit: int) returns (o: Outcome<()>)
      requires Valid() && Known() && block.prevBlock in index.entries
      requires block.hash !in index.entries && block.hash !in invalid
      requires limit < Codecs.MAX_HEIGHT && index.Below(limit)
      modifies this`tip, this`invalid, this`trail, this`index, db
      ensures Valid() && Known() && tip in index.entries && index.Below(limit + 1)
      ensures o == old(Verdict(db.net, precheck, txStart, index, tip, block))
      ensures Grown(old(index).entries, index.entries, {block.hash})
      ensures !o.Accept? ==> index == old(index)
      ensures o.Accept? ==> index == old(index).Add(block)
      ensures o.Accept? ==> index.entries == old(index).entries[block.hash := ChainEntry(block.hash, block.prevBlock,
                                               old(index).entries[block.prevBlock].height + 1,
                                               Proof(block.target) + old(index).entries[block.prevBlock].chainwork)]
      ensures o.Accept? ==> tip == if index.entries[block.hash].chainwork > old(index).entries[old(tip)].chainwork
                                   then block.hash else old(tip)
      ensures o.Accept? || o.Reject? ==> Improves(old(index), old(tip), index, tip)
      ensures tip == old(tip) ==> db.Ledger() == old(db.Ledger())
      ensures if o.Accept? then invalid == old(invalid)
              else Minded(old(invalid), invalid, old(index).entries.Keys, block.hash,
                          Remembered(malleated, TooEarly(txStart, old(index), block), o))
    {
      hide Index.Valid, Chain.Valid, Apart, ConnectBlock, Replay, Index.Add, Proof, EarlyRule, Grown, Index.Below,
        Traced, Lost,
        Verdict, Tried;
      ghost var before := index;
      TipKnown();
      index.AddedEntry(block);
      BelowAt(index, block.prevBlock, limit);
      BelowMore(index, limit, limit + 1);
      GrownSelf(index.entries, {block.hash});
      LostIndexed(db.net, index, block.prevBlock);
      o := Connect(block);
      TipKnown();
      if o.Accept? {
        BelowAdd(before, index, block.hash, limit);
        GrownStep(before.entries, before.entries, index.entries, {block.hash}, block.hash);
      }
    }

    // -------------------------------------------------------------------
    // Orphans
    // -------------------------------------------------------------------

    /** `removeOrphan`: its assertions hold. */
    method RemoveOrphan(orphan: Orphan)
      requires OrphansOk(index.entries.Keys, orphanMap, orphanPrev) && Held(orphanMap, orphan)
      modifies this`orphanMap, this`orphanPrev
      ensures orphanMap == old(orphanMap) - {orphan.block.hash}
      ensures orphanPrev == old(orphanPrev) - {orphan.block.prevBlock}
    {
      assert orphan.block.prevBlock in orphanPrev && |orphanMap| > 0;
      orphanMap := orphanMap - {orphan.block.hash};
      orphanPrev := orphanPrev - {orphan.block.prevBlock};
    }

    /** `limitOrphans`: those that came an hour ago or earlier go, and the oldest of the
        others when there are still too many. */
    method LimitOrphans(now: int)
      requires Waiting()
      modifies this`orphanMap, this`orphanPrev
      ensures Waiting()
      ensures Kept(old(orphanMap), orphanMap) && orphanPrev.Keys <= old(orphanPrev).Keys
      ensures |old(orphanMap)| <= maxOrphans ==> |orphanMap| < maxOrphans || orphanMap == map[]
      ensures var young := Young(old(orphanMap), now);
              if |young| < maxOrphans || young == map[] then orphanMap == young
              else exists h :: OldestOf(young, h) && orphanMap == young - {h}
    {
      hide OrphansOk, Waits, Young, OldestOf;
      var oldest := DropOld(now);
      KeptSmaller(old(orphanMap), orphanMap);
      if |orphanMap| < maxOrphans || oldest.None? {
        return;
      }
      WaitsWithout(index.entries.Keys, orphanMap, orphanPrev, oldest.value.block.hash);
      RemoveOrphan(oldest.value);
    }

    /** Its loop: the old ones go, and the oldest of the others is found. */
    method DropOld(now: int) returns (oldest: Option<Orphan>)
      requires Waiting()
      modifies this`orphanMap, this`orphanPrev
      ensures Waiting() && orphanMap == Young(old(orphanMap), now)
      ensures Kept(old(orphanMap), orphanMap) && orphanPrev.Keys <= old(orphanPrev).Keys
      ensures if oldest.None? then orphanMap == map[]
              else Held(orphanMap, oldest.value) && OldestOf(orphanMap, oldest.value.block.hash)
    {
      hide OrphansOk, Waits;
      oldest := None;
      var todo := orphanMap.Keys;
      while todo != {}
        invariant todo <= orphanMap.Keys && Waits(index.entries.Keys, orphanMap, orphanPrev)
        invariant Kept(old(orphanMap), orphanMap) && orphanPrev.Keys <= old(orphanPrev).Keys
        invariant forall h :: h in old(orphanMap) ==> (h in orphanMap <==> h in todo || now < old(orphanMap)[h].time + 3600)
        invariant oldest.Some? ==>
                    && Held(orphanMap, oldest.value) && oldest.value.block.hash !in todo
                    && forall h :: h in orphanMap && h !in todo ==> oldest.value.time <= orphanMap[h].time
        invariant oldest.None? ==> orphanMap.Keys == todo
        decreases todo
      {
        var h :| h in todo;
        var orphan := orphanMap[h];
        WaitsWithout(index.entries.Keys, orphanMap, orphanPrev, h);
        todo := todo - {h};
        if now < orphan.time + 60 * 60 {
          if oldest.None? || orphan.time < oldest.value.time {
            oldest := Some(orphan);
          }
        } else {
          RemoveOrphan(orphan);
        }
      }
    }

    /** `storeOrphan`: an orphan with the same parent makes room for it. */
    method StoreOrphan(block: Block, now: int)
      requires Waiting()
      requires block.hash !in index.entries && block.prevBlock !in index.entries && block.hash !in orphanMap
      modifies this`orphanMap, this`orphanPrev
      ensures Waiting()
      ensures Held(orphanMap, Orphan(block, now))
      ensures Kept(old(orphanMap)[block.hash := Orphan(block, now)], orphanMap)
      ensures forall h :: h in old(orphanMap) && h !in orphanMap ==>
                Outlived(old(orphanMap), block, maxOrphans, now, h)
      ensures |orphanMap| <= |old(orphanMap)| + 1
      ensures |old(orphanMap)| <= maxOrphans ==> |orphanMap| <= if maxOrphans == 0 then 1 else maxOrphans
    {
      hide OrphansOk, Waits, Kept;
      ghost var before := orphanMap;
      KeptSelf(before);
      if block.prevBlock in orphanPrev {
        var orphan := orphanPrev[block.prevBlock];
        HeldByPrev(index.entries.Keys, orphanMap, orphanPrev, block.prevBlock);
        WaitsWithout(index.entries.Keys, orphanMap, orphanPrev, orphan.block.hash);
        assert orphan.block.hash != block.hash && orphan.block.prevBlock == block.prevBlock;
        KeptWithout(before, orphan.block.hash);
        RemoveOrphan(orphan);
      }
      ghost var left := orphanMap;
      KeptSmaller(before, left);
      NoneWaits(index.entries.Keys, orphanMap, orphanPrev, block.prevBlock);
      LimitOrphans(now);
      KeptSmaller(left, orphanMap);
      WhyGone(before, left, orphanMap, block, maxOrphans, now);
      KeptAdd(before, left, orphanMap, block.hash, Orphan(block, now));
      WaitsWith(index.entries.Keys, orphanMap, orphanPrev, Orphan(block, now));
      var orphan := Orphan(block, now);
      orphanMap := orphanMap[block.hash := orphan];
      orphanPrev := orphanPrev[block.prevBlock := orphan];
    }

    /** `connect` for a block that is new to the chain: then only its own orphan may
        have stopped waiting. */
    method ConnectNew(block: Block, ghost limit: int) returns (o: Outcome<()>)
      requires Valid() && Sound() && Waiting() && block.prevBlock in index.entries
      requires block.hash !in index.entries && block.hash !in orphanMap && block.hash !in invalid
      requires parentOf(block.hash) == block.prevBlock
      requires limit < Codecs.MAX_HEIGHT && index.Below(limit)
      modifies this`tip, this`invalid, this`trail, this`index, db
      ensures Valid() && Sound() && tip in index.entries && index.Below(limit + 1)
      ensures o == old(Verdict(db.net, precheck, txStart, index, tip, block))
      ensures Grown(old(index).entries, index.entries, {block.hash})
      ensures if o.Accept? then
                && block.hash in index.entries
                && Resolving(index.entries.Keys, orphanMap, orphanPrev, block.hash)
                && index.entries[block.hash].chainwork
                   == Proof(block.target) + old(index).entries[block.prevBlock].chainwork
                && index.entries == old(index).entries[block.hash := index.entries[block.hash]]
                && tip == if index.entries[block.hash].chainwork > old(index).entries[old(tip)].chainwork
                          then block.hash else old(tip)
              else
                && Waiting() && index == old(index)
                && Minded(old(invalid), invalid, old(index).entries.Keys, block.hash,
                          Remembered(malleated, TooEarly(txStart, old(index), block), o))
      ensures o.Accept? || o.Reject? ==> Improves(old(index), old(tip), index, tip)
      ensures tip == old(tip) ==> db.Ledger() == old(db.Ledger())
    {
      hide Index.Valid, Chain.Valid, Apart, OrphansOk, Waits, Resolving, Grown, Index.Below, Proof, Improves, Traced,
        Verdict,
        Headed, Minded, Index.Add, Remembered, TooEarly;
      ghost var before, mind := index, invalid;
      OrphansNotIn(index.entries.Keys, orphanMap, orphanPrev);
      o := ConnectEntry(block, limit);
      if o.Accept? {
        WaitsGrow(before.entries, index.entries, orphanMap, orphanPrev, block.hash);
        HeadedAdd(parentOf, before, block, orphanMap);
      } else {
        StillApart(before.entries.Keys, orphanMap, mind, invalid, block.hash,
                   Remembered(malleated, TooEarly(txStart, before, block), o));
      }
    }

    /** The orphan that waits for `entry` is taken out and connected. */
    method ConnectOrphan(entry: Hash, ghost all: map<Hash, Orphan>, ghost limit: int)
        returns (o: Outcome<()>, next: Hash)
      requires Valid() && Sound() && entry in index.entries && entry in orphanPrev
      requires limit <= Codecs.MAX_HEIGHT - |orphanMap| && index.Below(limit)
      requires Resolving(index.entries.Keys, orphanMap, orphanPrev, entry) && Kept(all, orphanMap)
      modifies this`tip, this`invalid, this`trail, this`index, this`orphanMap, this`orphanPrev, db
      ensures Valid() && Sound() && tip in index.entries && index.Below(limit + 1)
      ensures next in old(orphanMap) && orphanMap == old(orphanMap) - {next}
      ensures |orphanMap| == |old(orphanMap)| - 1 && Kept(all, orphanMap)
      ensures Grown(old(index).entries, index.entries, all.Keys)
      ensures if o.Accept? then next in index.entries && Resolving(index.entries.Keys, orphanMap, orphanPrev, next)
              else Waits(index.entries.Keys, orphanMap, orphanPrev)
      ensures o.Accept? || o.Reject? ==> Improves(old(index), old(tip), index, tip)
      ensures tip == old(tip) ==> db.Ledger() == old(db.Ledger())
    {
      hide Index.Valid, Chain.Valid, Apart, OrphansOk, Waits, Resolving, Grown, Extends, Index.Below, Best, Kept,
        Proof, Improves,
        Traced, Verdict, Headed, Minded, Index.Add;
      var orphan := orphanPrev[entry];
      next := orphan.block.hash;
      ghost var before, was := index, orphanMap;
      ResolveStep(index.entries, orphanMap, orphanPrev, entry, all);
      OrphanFacts(parentOf, index.store, orphanMap, invalid, next);
      RemoveOrphan(orphan);
      OrphansSound(parentOf, before.store, was, orphanMap, invalid, next);
      o := ConnectNew(orphan.block, limit);
      GrownWider(before.entries, index.entries, {next}, all.Keys);
    }

    /** `handleOrphans`: the orphans that waited for an entry, and those that waited
        for them, are connected until one fails; the others stay. */
    method HandleOrphans(first: Hash, ghost room: int) returns (o: Outcome<()>)
      requires Valid() && Sound() && first in index.entries
      requires room <= Codecs.MAX_HEIGHT && index.Below(room - |orphanMap|)
      requires Resolving(index.entries.Keys, orphanMap, orphanPrev, first)
      modifies this`tip, this`invalid, this`trail, this`index, this`orphanMap, this`orphanPrev, db
      ensures Valid() && Sound() && Waiting() && !o.Reject?
      ensures Grown(old(index).entries, index.entries, old(orphanMap).Keys)
      ensures Kept(old(orphanMap), orphanMap)
      ensures index.Below(room - |orphanMap|)
      ensures tip in index.entries
      ensures Resolves(index.entries, old(orphanMap), orphanMap)
      ensures o.Accept? ==> Improves(old(index), old(tip), index, tip)
      ensures o.Accept? && tip == old(tip) ==> db.Ledger() == old(db.Ledger())
    {
      hide Index.Valid, Chain.Valid, Apart, OrphansOk, Waits, Resolving, Grown, Extends, Index.Below, Best, Kept,
        Proof, Sound;
      TipKnown();
      o := Accept(());
      var entry := first;
      HandleStart(index.entries, orphanMap);
      ImprovesSelf(index, tip);
      while entry in orphanPrev
        invariant Valid() && index.Valid() && Sound() && tip in index.entries && entry in index.entries
        invariant index.Below(room - |orphanMap|)
        invariant Resolving(index.entries.Keys, orphanMap, orphanPrev, entry)
        invariant Grown(old(index).entries, index.entries, old(orphanMap).Keys)
        invariant Kept(old(orphanMap), orphanMap) && o.Accept?
        invariant forall h :: h in old(orphanMap) && h !in orphanMap ==> h in index.entries
        invariant Improves(old(index), old(tip), index, tip)
        invariant tip == old(tip) ==> db.Ledger() == old(db.Ledger())
        decreases |orphanMap|
      {
        ghost var mid, was := index, tip;
        o, entry := ConnectOrphan(entry, old(orphanMap), room - |orphanMap|);
        TipKnown();
        GrownKeeps(mid.entries, index.entries, old(orphanMap).Keys);
        GrownOn(old(index).entries, mid.entries, index.entries, old(orphanMap).Keys);
        ImprovesOn(old(index), old(tip), mid, was, index, tip, old(orphanMap).Keys);
        if !o.Accept? {
          if o.Reject? {
            o := Accept(());
          }
          return;
        }
      }
      Resolved(index.entries.Keys, orphanMap, orphanPrev, entry);
    }

    /** The orphans that wait for a new entry, if any do. */
    method ConnectWaiting(h: Hash, ghost room: int) returns (o: Outcome<()>)
      requires Valid() && Sound() && h in index.entries
      requires room <= Codecs.MAX_HEIGHT && index.Below(room - |orphanMap|)
      requires Resolving(index.entries.Keys, orphanMap, orphanPrev, h)
      modifies this`tip, this`invalid, this`trail, this`index, this`orphanMap, this`orphanPrev, db
      ensures Valid() && Sound() && Waiting() && !o.Reject?
      ensures Grown(old(index).entries, index.entries, old(orphanMap).Keys)
      ensures Kept(old(orphanMap), orphanMap)
      ensures index.Below(room - |orphanMap|)
      ensures tip in index.entries
      ensures Resolves(index.entries, old(orphanMap), orphanMap)
      ensures o.Accept? ==> Improves(old(index), old(tip), index, tip)
      ensures o.Accept? && tip == old(tip) ==> db.Ledger() == old(db.Ledger())
      ensures h !in old(orphanPrev) ==> o.Accept? && index == old(index) && tip == old(tip)
    {
      hide Index.Valid, Chain.Valid, Sound, OrphansOk, Waits, Resolving, Grown, Index.Below, Kept, Resolves, Improves;
      TipKnown();
      if h in orphanPrev {
        o := HandleOrphans(h, room);
      } else {
        Resolved(index.entries.Keys, orphanMap, orphanPrev, h);
        HandleStart(index.entries, orphanMap);
        AllResolved(index.entries, orphanMap);
        ImprovesSelf(index, tip);
        return Accept(());
      }
    }

    /** The end of `_add`: a block whose parent is known is connected, then the
        orphans that waited for it. */
    method AddKnown(block: Block, ghost room: int) returns (o: Outcome<ChainEntry>)
      requires Valid() && Waiting() && Sound() && room <= Codecs.MAX_HEIGHT && index.Below(room - |orphanMap| - 1)
      requires block.prevBlock in index.entries && block.hash !in index.entries && block.hash !in orphanMap
      requires block.hash !in invalid && parentOf(block.hash) == block.prevBlock
      modifies this`tip, this`invalid, this`trail, this`index, this`orphanMap, this`orphanPrev, db
      ensures Valid() && Waiting() && Sound() && index.Below(room - |orphanMap|) && tip in index.entries
      ensures o.Accept? || o.Reject? ==> Improves(old(index), old(tip), index, tip)
      ensures (o.Accept? || o.Reject?) && tip == old(tip) ==> db.Ledger() == old(db.Ledger())
      ensures Grown(old(index).entries, index.entries, old(orphanMap).Keys + {block.hash})
      ensures Kept(old(orphanMap), orphanMap) && Resolves(index.entries, old(orphanMap), orphanMap)
      ensures var v := old(Verdict(db.net, precheck, txStart, index, tip, block));
              && (block.hash in index.entries <==> v.Accept?)
              && (v.Accept? ==> !o.Reject?)
              && (!v.Accept? ==>
                    && o == v.PropagateFailure() && index == old(index) && orphanMap == old(orphanMap)
                    && Minded(old(invalid), invalid, old(index).entries.Keys, block.hash,
                              Remembered(malleated, TooEarly(txStart, old(index), block), v)))
      ensures o.Accept? ==>
                && o.value.chainwork == Proof(block.target) + old(index).entries[block.prevBlock].chainwork
                && block.hash in index.entries && index.entries[block.hash] == o.value
                && (block.hash !in old(orphanPrev) ==>
                      && index.entries == old(index).entries[block.hash := o.value]
                      && tip == if o.value.chainwork > old(index).entries[old(tip)].chainwork then block.hash else old(tip))
    {
      hide Index.Valid, Chain.Valid, Apart, Proof, OrphansOk, Waits, Resolving, Grown, Extends, Index.Below, Best, Kept,
        Improves, Held, Chain.Work, Traced, Verdict, Headed, Minded, Index.Add, Resolves;
      ghost var before := index;
      KeptSelf(orphanMap);
      AllResolved(index.entries, orphanMap);
      ghost var limit := room - |orphanMap|;
      var done := ConnectNew(block, limit - 1);
      BelowMore(index, limit - 1 + 1, limit);
      GrownWider(before.entries, index.entries, {block.hash}, orphanMap.Keys + {block.hash});
      if !done.Accept? {
        return done.PropagateFailure();
      }
      var entry := index.entries[block.hash];
      ghost var mid, was := index, tip;
      done := ConnectWaiting(block.hash, room);
      AfterOrphans(before, mid, index, old(orphanMap).Keys, block.hash, old(tip), was, tip);
      return if done.Accept? then Accept(entry) else done.PropagateFailure();
    }

    /** The block is known already, or known to be invalid. */
    predicate Duplicate(block: Block)
      reads this`index, this`orphanMap, this`invalid
    {
      block.hash in index.entries || block.hash in orphanMap || block.hash in invalid || block.prevBlock in invalid
    }

    /** The rest of `_add`: the block is not known yet, nor known to be invalid. */
    method AddNew(block: Block, now: int, ghost room: int) returns (o: Outcome<Option<ChainEntry>>)
      requires Valid() && Waiting() && Sound() && room <= Codecs.MAX_HEIGHT && index.Below(room - |orphanMap| - 1)
      requires parentOf(block.hash) == block.prevBlock && !Duplicate(block)
      modifies this`tip, this`invalid, this`trail, this`index, this`orphanMap, this`orphanPrev, db
      ensures Valid() && Waiting() && Sound() && index.Below(room - |orphanMap|) && tip in index.entries
      ensures o.Accept? || o.Reject? ==> Improves(old(index), old(tip), index, tip)
      ensures (o.Accept? || o.Reject?) && tip == old(tip) ==> db.Ledger() == old(db.Ledger())
      ensures Grown(old(index).entries, index.entries, old(orphanMap).Keys + {block.hash})
      ensures o.Reject? ==> index == old(index) && orphanMap == old(orphanMap)
      ensures block.prevBlock !in old(index).entries ==>
                && o == Accept(None) && tip == old(tip) && index == old(index) && invalid == old(invalid)
                && Held(orphanMap, Orphan(block, now))
                && Kept(old(orphanMap)[block.hash := Orphan(block, now)], orphanMap)
                && forall h :: h in old(orphanMap) && h !in orphanMap ==> Outlived(old(orphanMap), block, maxOrphans, now, h)
      ensures block.prevBlock in old(index).entries ==>
                var v := old(Verdict(db.net, precheck, txStart, index, tip, block));
                && (block.hash in index.entries <==> v.Accept?)
                && Kept(old(orphanMap), orphanMap) && Resolves(index.entries, old(orphanMap), orphanMap)
                && (v.Accept? ==> !o.Reject? && !(o.Accept? && o.value.None?))
                && (!v.Accept? ==>
                      && o == v.PropagateFailure() && index == old(index) && orphanMap == old(orphanMap)
                      && Minded(old(invalid), invalid, old(index).entries.Keys, block.hash,
                                Remembered(malleated, TooEarly(txStart, old(index), block), v)))
      ensures o.Accept? && o.value.Some? ==>
                var e := o.value.value;
                && block.prevBlock in old(index).entries
                && e.chainwork == Proof(block.target) + old(index).entries[block.prevBlock].chainwork
                && block.hash in index.entries && index.entries[block.hash] == e
                && (block.hash !in old(orphanPrev) ==>
                      && index.entries == old(index).entries[block.hash := e]
                      && tip == if e.chainwork > old(index).entries[old(tip)].chainwork then block.hash else old(tip))
    {
      hide Index.Valid, Chain.Valid, Apart, Proof, Waits, Grown, Index.Below, Best, Kept, Traced, Verdict, Headed,
        Minded, Resolves,
        OrphansOk, Outlived, Improves, Remembered, TooEarly;
      TipKnown();
      ghost var limit := room - |orphanMap| - 1;
      ImprovesSelf(index, tip);
      GrownSelf(index.entries, orphanMap.Keys + {block.hash});
      if block.prevBlock !in index.entries {
        StoreOrphan(block, now);
        OrphanAdded(parentOf, index.store, old(orphanMap), orphanMap, invalid, Orphan(block, now));
        BelowMore(index, limit, room - |orphanMap|);
        return Accept(None);
      }
      var done := AddKnown(block, room);
      if !done.Accept? {
        return done.PropagateFailure();
      }
      return Accept(Some(done.value));
    }

    lemma GenesisKnown()
      requires Valid()
      ensures index.genesis in index.entries
    {
    }

    /** `hasInvalid`: a child of an invalid block is invalid. */
    method RefuseChild(block: Block)
      requires Valid() && Sound() && block.prevBlock in invalid && parentOf(block.hash) == block.prevBlock
      requires block.hash != index.genesis && block.hash !in orphanMap && block.hash !in invalid
      modifies this`invalid, this`trail
      ensures Valid() && Sound() && invalid == old(invalid) + {block.hash}
    {
      hide Index.Valid, ChainDB.Valid, Traced, Bad, InTrail, Stuck, Index.Below;
      WhyInvalid(db.net, precheck, txStart, index, invalid, trail, block.prevBlock);
      if block.hash in index.entries {
        ChildStuck(db.net, precheck, txStart, parentOf, index, invalid, trail, block);
        TracedMark(db.net, precheck, txStart, index, invalid, trail, {block.hash});
        invalid := invalid + {block.hash};
      } else {
        if Stuck(db.net, index, block.prevBlock) {
          BadPath(db.net, precheck, txStart, index, block);
        }
        Refuse(block);
      }
    }

    /** The child of an invalid block, unless it is genesis or waits for its parent. */
    function Cursed(block: Block, invalid: set<Hash>): set<Hash>
      reads this`index, this`orphanMap
    {
      if block.hash != index.genesis && block.hash !in orphanMap && block.prevBlock in invalid then {block.hash} else {}
    }

    /** The first checks of `_add`: genesis, orphans, invalid blocks, indexed blocks. */
    method CheckDuplicate(block: Block) returns (duplicate: bool)
      requires Valid() && Sound() && parentOf(block.hash) == block.prevBlock
      modifies this`invalid, this`trail
      ensures Valid() && Sound() && duplicate == old(Duplicate(block))
      ensures if duplicate then invalid == old(invalid) + Cursed(block, old(invalid))
              else invalid == old(invalid) && trail == old(trail)
    {
      hide Index.Valid, ChainDB.Valid, Traced, Headed, Index.Below;
      GenesisKnown();
      if block.hash == index.genesis || block.hash in orphanMap || block.hash in invalid {
        return true;
      }
      if block.prevBlock in invalid {
        RefuseChild(block);
        return true;
      }
      return block.hash in index.entries;
    }

    /** `add`: any block at all.
        A block that is indexed, waits or is remembered as invalid is a duplicate,
        and so is every child of an invalid one, which is remembered too.  One whose
        parent is not indexed waits for it.  Any other is indexed exactly when the
        verdict on it is to accept: it is not too early, passes its own checks where
        they are made, and, if it would have more work than the tip, connects with
        all that is below it.
        Unless an error other than a verification error occurs, the tip stays or gets
        more work, and no indexed block has more; a rejected block leaves the index as
        it was.  Heights have to fit the 31 bits that a stored coin has for them. */
    method Add(block: Block, now: int, ghost room: int) returns (o: Outcome<Option<ChainEntry>>)
      requires Valid() && Waiting() && Sound() && room <= Codecs.MAX_HEIGHT && index.Below(room - |orphanMap| - 1)
      requires parentOf(block.hash) == block.prevBlock
      modifies this`tip, this`invalid, this`trail, this`index, this`orphanMap, this`orphanPrev, db
      ensures Valid() && Waiting() && Sound() && index.Below(room - |orphanMap|) && tip in index.entries
      ensures o.Accept? || o.Reject? ==> Improves(old(index), old(tip), index, tip)
      ensures (o.Accept? || o.Reject?) && tip == old(tip) ==> db.Ledger() == old(db.Ledger())
      ensures Grown(old(index).entries, index.entries, old(orphanMap).Keys + {block.hash})
      ensures o.Reject? ==> index == old(index) && orphanMap == old(orphanMap)
      ensures old(Duplicate(block)) ==>
                && o == Reject("duplicate")
                && invalid == old(invalid) + Cursed(block, old(invalid))
      ensures !old(Duplicate(block)) && block.prevBlock !in old(index).entries ==>
                && o == Accept(None) && tip == old(tip) && index == old(index) && invalid == old(invalid)
                && Held(orphanMap, Orphan(block, now))
                && Kept(old(orphanMap)[block.hash := Orphan(block, now)], orphanMap)
                && forall h :: h in old(orphanMap) && h !in orphanMap ==> Outlived(old(orphanMap), block, maxOrphans, now, h)
      ensures !old(Duplicate(block)) && block.prevBlock in old(index).entries ==>
                var v := old(Verdict(db.net, precheck, txStart, index, tip, block));
                && (block.hash in index.entries <==> v.Accept?)
                && Kept(old(orphanMap), orphanMap) && Resolves(index.entries, old(orphanMap), orphanMap)
                && (v.Accept? ==> !o.Reject? && !(o.Accept? && o.value.None?))
                && (!v.Accept? ==>
                      && o == v.PropagateFailure() && index == old(index) && orphanMap == old(orphanMap)
                      && Minded(old(invalid), invalid, old(index).entries.Keys, block.hash,
                                Remembered(malleated, TooEarly(txStart, old(index), block), v)))
      ensures o.Accept? && o.value.Some? ==>
                var e := o.value.value;
                && block.prevBlock in old(index).entries
                && e.chainwork == Proof(block.target) + old(index).entries[block.prevBlock].chainwork
                && block.hash in index.entries && index.entries[block.hash] == e
                && (block.hash !in old(orphanPrev) ==>
                      && index.entries == old(index).entries[block.hash := e]
                      && tip == if e.chainwork > old(index).entries[old(tip)].chainwork then block.hash else old(tip))
    {
      hide Index.Valid, Chain.Valid, Apart, Proof, Waits, Grown, Index.Below, Best, Kept, Traced, Verdict, Headed,
        Minded, Resolves,
        OrphansOk, Outlived, Improves, Remembered, TooEarly, Sound, Duplicate, Cursed, Held, EarlyRule;
      TipKnown();
      ghost var limit := room - |orphanMap| - 1;
      ImprovesSelf(index, tip);
      GrownSelf(index.entries, orphanMap.Keys + {block.hash});
      BelowMore(index, limit, limit + 1);
      var duplicate := CheckDuplicate(block);
      if duplicate {
        return Reject("duplicate");
      }
      o := AddNew(block, now, room);
    }

    /** Any run of additions: as long as nothing but verification errors occurs, the
        tip's work never falls and stays the greatest in the index. */
    method AddAll(blocks: seq<Block>, times: seq<int>) returns (done: nat, failed: bool)
      requires Valid() && Waiting() && Sound() && Best(index, tip) && |times| == |blocks|
      requires forall b :: b in blocks ==> parentOf(b.hash) == b.prevBlock
      requires index.Below(Codecs.MAX_HEIGHT - |orphanMap| - |blocks|)
      modifies this`tip, this`invalid, this`trail, this`index, this`orphanMap, this`orphanPrev, db
      ensures Valid() && Waiting() && Sound() && done <= |blocks| && tip in index.entries
      ensures forall a :: index.Ancestor(a, tip) ==> a !in invalid
      ensures Extends(old(index).entries, index.entries)
      ensures !failed ==> done == |blocks| && Best(index, tip) && Improves(old(index), old(tip), index, tip)
      ensures !failed && tip == old(tip) ==> db.Ledger() == old(db.Ledger())
    {
      hide Index.Valid, Chain.Valid, Apart, Proof, OrphansOk, Waits, Resolving, Grown, Extends, Index.Below, Best,
        Kept, Traced,
        Headed, Verdict, Minded, Resolves, Index.Ancestor, Duplicate, Cursed, Held, Outlived, TooEarly, Remembered, Improves;
      TipKnown();
      TipIsClean();
      done, failed := 0, false;
      ExtendsSelf(index.entries);
      ImprovesSelf(index, tip);
      while done < |blocks|
        invariant done <= |blocks| && Valid() && index.Valid() && tip in index.entries
        invariant Waiting() && Sound() && Best(index, tip) && !failed
        invariant forall a :: index.Ancestor(a, tip) ==> a !in invalid
        invariant index.Below(Codecs.MAX_HEIGHT - |orphanMap| - (|blocks| - done))
        invariant Extends(old(index).entries, index.entries)
        invariant Improves(old(index), old(tip), index, tip)
        invariant tip == old(tip) ==> db.Ledger() == old(db.Ledger())
      {
        ghost var before, was, allowed := index, tip, orphanMap.Keys + {blocks[done].hash};
        var o := Add(blocks[done], times[done], Codecs.MAX_HEIGHT - (|blocks| - done) + 1);
        ExtendsMore(old(index).entries, before.entries, index.entries, allowed);
        TipIsClean();
        if !o.Accept? && !o.Reject? {
          failed := true;
          return;
        }
        ImprovesOn(old(index), old(tip), before, was, index, tip, allowed);
        done := done + 1;
      }
    }

    lemma TipIsClean()
      requires Valid() && Known()
      ensures index.Valid() && tip in index.entries && forall a :: index.Ancestor(a, tip) ==> a !in invalid
    {
      hide Index.Valid, ChainDB.Valid, Traced, Replay;
      DbReplays();
      TipClean(db.net, precheck, txStart, index, invalid, trail, tip);
    }

    /** No block of the main chain is remembered as invalid. */
    lemma MainChainClean(i: nat)
      requires Valid() && Known() && i < |db.blocks|
      ensures db.blocks[i].hash !in invalid
    {
      hide Index.Valid, ChainDB.Valid, Traced;
      TipIsClean();
      index.PathIsAncestors(tip, i);
    }

    /** When a block whose parent is indexed is accepted. */
    lemma VerdictCases(block: Block)
      requires Valid() && block.prevBlock in index.entries
      ensures var v := Verdict(db.net, precheck, txStart, index, tip, block);
              var prev, early := block.prevBlock, EarlyRule(txStart, index.entries[block.prevBlock].height + 1, block);
              && (!early.Accept? ==> v == early)
              && (early.Accept? ==>
                    if Proof(block.target) + Work(prev) <= Work(tip) then
                      v.Accept? <==> precheck(prev, block)
                    else if prev == tip then
                      v == Done(ConnectBlock(db.net, db.Ledger(), block))
                    else
                      v.Accept? <==> precheck(prev, block) && Replay(db.net, index.Path(prev) + [block]).Accept?)
    {
      hide Index.Valid, ChainDB.Valid, ConnectBlock, Replay, EarlyRule, Index.Path, Proof;
      DbReplays();
      ReplayOne(db.net, index.Path(block.prevBlock), block);
    }

    lemma TipKnown()
      requires Valid()
      ensures index.Valid() && tip in index.entries
    {
    }
  }

  lemma ImprovesSelf(index: Index, a: Hash)
    requires a in index.entries
    ensures Improves(index, a, index, a)
  {
  }

  lemma ImprovesOn(first: Index, a: Hash, mid: Index, b: Hash, last: Index, c: Hash, allowed: set<Hash>)
    requires Grown(mid.entries, last.entries, allowed)
    ensures Improves(first, a, mid, b) && Improves(mid, b, last, c) ==>
              Improves(first, a, last, c) && (a == c ==> b == c)
  {
  }

  lemma HeldByPrev(entries: set<Hash>, byHash: map<Hash, Orphan>, byPrev: map<Hash, Orphan>, p: Hash)
    requires Waits(entries, byHash, byPrev) && p in byPrev
    ensures byPrev[p].block.prevBlock == p && Held(byHash, byPrev[p])
  {
  }

  lemma WaitsWithout(entries: set<Hash>, byHash: map<Hash, Orphan>, byPrev: map<Hash, Orphan>, h: Hash)
    requires Waits(entries, byHash, byPrev) && h in byHash
    ensures OrphansOk(entries, byHash, byPrev) && byHash[h].block.hash == h
    ensures Waits(entries, byHash - {h}, byPrev - {byHash[h].block.prevBlock})
    ensures |byHash - {h}| == |byHash| - 1
  {
    assert byHash.Keys == (byHash - {h}).Keys + {h};
  }

  lemma WaitsWith(entries: set<Hash>, byHash: map<Hash, Orphan>, byPrev: map<Hash, Orphan>, orphan: Orphan)
    requires Waits(entries, byHash, byPrev)
    requires orphan.block.hash !in byHash && orphan.block.prevBlock !in byPrev
    requires orphan.block.hash !in entries && orphan.block.prevBlock !in entries
    ensures Waits(entries, byHash[orphan.block.hash := orphan], byPrev[orphan.block.prevBlock := orphan])
    ensures |byHash[orphan.block.hash := orphan]| == |byHash| + 1
  {
    WaitsWithSize(byHash, orphan);
    var byHash', byPrev' := byHash[orphan.block.hash := orphan], byPrev[orphan.block.prevBlock := orphan];
    assert OrphansOk(entries, byHash', byPrev') by {
      forall h | h in byHash
        ensures byHash[h].block.prevBlock != orphan.block.prevBlock
        ensures byHash[h].block.prevBlock in byPrev && byPrev[byHash[h].block.prevBlock] == byHash[h]
      {
      }
    }
  }

  lemma WaitsWithSize(byHash: map<Hash, Orphan>, orphan: Orphan)
    requires orphan.block.hash !in byHash
    ensures |byHash[orphan.block.hash := orphan]| == |byHash| + 1
  {
    assert byHash[orphan.block.hash := orphan].Keys == byHash.Keys + {orphan.block.hash};
  }

  /** Taking out the orphan that waited for `entry`, to connect it. */
  lemma ResolveStep(entries: map<Hash, ChainEntry>, byHash: map<Hash, Orphan>, byPrev: map<Hash, Orphan>, entry: Hash,
                    all: map<Hash, Orphan>)
    requires Resolving(entries.Keys, byHash, byPrev, entry) && entry in byPrev && entry in entries && Kept(all, byHash)
    ensures OrphansOk(entries.Keys, byHash, byPrev)
    ensures var block := byPrev[entry].block;
            && Held(byHash, byPrev[entry]) && block.prevBlock == entry && block.hash !in entries && block.hash in all
            && |byHash - {block.hash}| == |byHash| - 1
            && Kept(all, byHash - {block.hash})
            && Waits(entries.Keys, byHash - {block.hash}, byPrev - {entry})
  {
    var block := byPrev[entry].block;
    assert byHash.Keys == (byHash - {block.hash}).Keys + {block.hash};
  }

  lemma Resolved(entries: set<Hash>, byHash: map<Hash, Orphan>, byPrev: map<Hash, Orphan>, entry: Hash)
    requires Resolving(entries, byHash, byPrev, entry) && entry !in byPrev
    ensures Waits(entries, byHash, byPrev)
  {
  }

  /** A block enters the index: only its own orphan stops waiting. */
  lemma WaitsGrow(before: map<Hash, ChainEntry>, after: map<Hash, ChainEntry>, byHash: map<Hash, Orphan>,
                  byPrev: map<Hash, Orphan>, h: Hash)
    requires Waits(before.Keys, byHash, byPrev) && h !in byHash
    requires h in after && after == before[h := after[h]]
    ensures Resolving(after.Keys, byHash, byPrev, h)
  {
  }

  lemma HandleStart(entries: map<Hash, ChainEntry>, orphans: map<Hash, Orphan>)
    ensures Grown(entries, entries, orphans.Keys) && Kept(orphans, orphans)
  {
  }

  lemma GrownStep(before: map<Hash, ChainEntry>, mid: map<Hash, ChainEntry>, after: map<Hash, ChainEntry>,
                  allowed: set<Hash>, h: Hash)
    requires Grown(before, mid, allowed) && h !in mid && h in allowed && h in after && after == mid[h := after[h]]
    ensures Grown(before, after, allowed)
  {
  }

  lemma ExtendsSelf(entries: map<Hash, ChainEntry>)
    ensures Extends(entries, entries)
  {
  }

  lemma ExtendsMore(before: map<Hash, ChainEntry>, mid: map<Hash, ChainEntry>, after: map<Hash, ChainEntry>,
                    allowed: set<Hash>)
    requires Extends(before, mid) && Grown(mid, after, allowed)
    ensures Extends(before, after)
  {
  }

  lemma GrownOn(before: map<Hash, ChainEntry>, mid: map<Hash, ChainEntry>, after: map<Hash, ChainEntry>,
                allowed: set<Hash>)
    requires Grown(before, mid, allowed) && Grown(mid, after, allowed)
    ensures Grown(before, after, allowed)
  {
  }

  lemma GrownSelf(entries: map<Hash, ChainEntry>, allowed: set<Hash>)
    ensures Grown(entries, entries, allowed)
  {
  }

  lemma GrownWider(before: map<Hash, ChainEntry>, after: map<Hash, ChainEntry>, allowed: set<Hash>, more: set<Hash>)
    requires Grown(before, after, allowed) && allowed <= more
    ensures Grown(before, after, more)
  {
  }

  lemma AfterOrphans(before: Index, mid: Index, after: Index, allowed: set<Hash>, h: Hash, a: Hash, b: Hash, c: Hash)
    requires h !in before.entries && h in mid.entries && mid.entries == before.entries[h := mid.entries[h]]
    requires Grown(mid.entries, after.entries, allowed)
    ensures Grown(before.entries, after.entries, allowed + {h})
    ensures h in after.entries && after.entries[h] == mid.entries[h]
    ensures Improves(before, a, mid, b) && Improves(mid, b, after, c) ==>
              Improves(before, a, after, c) && (a == c ==> b == c)
  {
  }

  lemma BelowAt(index: Index, h: Hash, limit: int)
    requires index.Below(limit) && h in index.entries
    ensures index.entries[h].height < limit
  {
  }

  lemma BelowMore(index: Index, limit: int, limit': int)
    requires index.Below(limit) && limit <= limit'
    ensures index.Below(limit')
  {
  }

  lemma BelowAdd(before: Index, index: Index, h: Hash, limit: int)
    requires before.Below(limit)
    requires h in index.entries && index.entries == before.entries[h := index.entries[h]]
    requires index.entries[h].height < limit + 1
    ensures index.Below(limit + 1)
  {
  }

  lemma AllResolved(entries: map<Hash, ChainEntry>, orphans: map<Hash, Orphan>)
    ensures Resolves(entries, orphans, orphans)
  {
  }

  lemma GrownKeeps(before: map<Hash, ChainEntry>, after: map<Hash, ChainEntry>, allowed: set<Hash>)
    requires Grown(before, after, allowed)
    ensures forall h :: h in before ==> h in after
  {
  }

  lemma OrphanFacts(parentOf: Hash -> Hash, store: map<Hash, Block>, orphans: map<Hash, Orphan>, invalid: set<Hash>, h: Hash)
    requires Headed(parentOf, store, orphans) && Apart(orphans, invalid) && h in orphans
    ensures h !in invalid && orphans[h].block.prevBlock == parentOf(h)
  {
  }

  lemma OrphansSound(parentOf: Hash -> Hash, store: map<Hash, Block>, before: map<Hash, Orphan>, after: map<Hash, Orphan>,
                     invalid: set<Hash>, h: Hash)
    requires Headed(parentOf, store, before) && Apart(before, invalid) && after == before - {h}
    ensures Headed(parentOf, store, after) && Apart(after, invalid)
  {
  }

  lemma HeadedAdd(parentOf: Hash -> Hash, index: Index, block: Block, orphans: map<Hash, Orphan>)
    requires Headed(parentOf, index.store, orphans) && parentOf(block.hash) == block.prevBlock
    requires block.prevBlock in index.entries
    ensures Headed(parentOf, index.Add(block).store, orphans)
  {
  }

  lemma OrphanAdded(parentOf: Hash -> Hash, store: map<Hash, Block>, before: map<Hash, Orphan>, after: map<Hash, Orphan>,
                    invalid: set<Hash>, orphan: Orphan)
    requires Headed(parentOf, store, before) && Apart(before, invalid) && orphan.block.hash !in invalid
    requires parentOf(orphan.block.hash) == orphan.block.prevBlock
    requires Kept(before[orphan.block.hash := orphan], after)
    ensures Headed(parentOf, store, after) && Apart(after, invalid)
  {
  }

  lemma OrphansNotIn(entries: set<Hash>, byHash: map<Hash, Orphan>, byPrev: map<Hash, Orphan>)
    requires Waits(entries, byHash, byPrev)
    ensures forall h :: h in byHash ==> h !in entries
  {
  }

  /** What a refused block adds to the hashes remembered as invalid is no orphan. */
  lemma StillApart(entries: set<Hash>, orphans: map<Hash, Orphan>, before: set<Hash>, after: set<Hash>, h: Hash,
                   remembered: bool)
    requires Minded(before, after, entries, h, remembered) && Apart(orphans, before) && h !in orphans
    requires forall g :: g in orphans ==> g !in entries
    ensures Apart(orphans, after)
  {
  }

  lemma WhyInvalid(net: Network, precheck: (Hash, Block) -> bool, txStart: nat, index: Index, invalid: set<Hash>,
                   trail: seq<Block>, h: Hash)
    requires index.Valid() && Traced(net, precheck, txStart, index, invalid, trail) && h in invalid
    ensures Stuck(net, index, h) || InTrail(trail, h)
  {
  }

  /** An indexed child of an invalid block does not replay either. */
  lemma ChildStuck(net: Network, precheck: (Hash, Block) -> bool, txStart: nat, parentOf: Hash -> Hash, index: Index,
                   invalid: set<Hash>, trail: seq<Block>, block: Block)
    requires index.Valid() && Traced(net, precheck, txStart, index, invalid, trail)
    requires forall h :: h in index.store ==> index.store[h].prevBlock == parentOf(h)
    requires block.hash in index.entries && block.hash != index.genesis && parentOf(block.hash) == block.prevBlock
    requires block.prevBlock in invalid
    ensures Stuck(net, index, block.hash)
  {
    hide ConnectBlock, Bad;
    assert index.EntryOk(block.hash);
    index.PathStep(block.hash);
    ReplayOne(net, index.Path(block.prevBlock), index.store[block.hash]);
  }

  lemma NoneWaits(entries: set<Hash>, byHash: map<Hash, Orphan>, byPrev: map<Hash, Orphan>, p: Hash)
    requires Waits(entries, byHash, byPrev) && p !in byPrev
    ensures forall h :: h in byHash ==> byHash[h].block.prevBlock != p
  {
  }

  lemma WhyGone(before: map<Hash, Orphan>, left: map<Hash, Orphan>, after: map<Hash, Orphan>, block: Block,
                maxOrphans: nat, now: int)
    requires Kept(before, left) && Kept(left, after)
    requires forall h :: h in before && h !in left ==> before[h].block.prevBlock == block.prevBlock
    requires forall h :: h in left ==> left[h].block.prevBlock != block.prevBlock
    requires var young := Young(left, now);
             if |young| < maxOrphans || young == map[] then after == young
             else exists h :: OldestOf(young, h) && after == young - {h}
    ensures forall h :: h in before && h !in after ==> Outlived(before, block, maxOrphans, now, h)
  {
    var young := Young(left, now);
    forall h | h in Young(left, now) ensures h in Young(before, now) && Young(before, now)[h] == young[h] {}
    KeptSmaller(Young(before, now), young);
  }

  lemma KeptSelf(m: map<Hash, Orphan>)
    ensures Kept(m, m)
  {
  }

  lemma KeptWithout(m: map<Hash, Orphan>, h: Hash)
    ensures Kept(m, m - {h})
  {
  }

  lemma KeptAdd(before: map<Hash, Orphan>, mid: map<Hash, Orphan>, after: map<Hash, Orphan>, h: Hash, orphan: Orphan)
    requires Kept(before, mid) && Kept(mid, after) && h !in before
    ensures h !in after && Kept(before[h := orphan], after[h := orphan])
  {
  }

  lemma {:induction false} KeptSmaller(before: map<Hash, Orphan>, after: map<Hash, Orphan>)
    requires Kept(before, after)
    ensures |after| <= |before|
    decreases |after|
  {
    if h :| h in after {
      assert after.Keys == (after - {h}).Keys + {h} && before.Keys == (before - {h}).Keys + {h};
      KeptSmaller(before - {h}, after - {h});
    }
  }

  lemma LostIndexed(net: Network, index: Index, target: Hash)
    requires index.Valid() && target in index.entries
    ensures forall a :: Lost(net, index, target, a) ==> a in index.entries
  {
  }

  lemma LostStuck(net: Network, index: Index, target: Hash)
    requires index.Valid() && target in index.entries
    ensures forall a :: Lost(net, index, target, a) ==> Stuck(net, index, a)
  {
  }

  /** A path that replays has lost nothing. */
  lemma NoneLost(net: Network, index: Index, target: Hash)
    requires index.Valid() && target in index.entries && Replay(net, index.Path(target)).Accept?
    ensures forall a :: !Lost(net, index, target, a)
  {
    hide Index.Valid, Index.Path, Replay;
    forall a | index.Ancestor(a, target) ensures !Stuck(net, index, a) {
      PathReplays(net, index, a, target);
    }
  }

  function HashesOf(branch: seq<ChainEntry>): set<Hash> {
    set e | e in branch :: e.hash
  }

  lemma NoHashes(branch: seq<ChainEntry>, stop: nat)
    requires stop <= |branch|
    ensures HashesOf(branch[stop..stop]) == {}
  {
  }

  lemma AllHashes(branch: seq<ChainEntry>, from: nat)
    requires from < |branch|
    ensures HashesOf(branch[..from + 1]) == HashesOf(branch[0..from]) + {branch[from].hash}
  {
    assert branch[..from + 1] == branch[0..from] + [branch[from]];
  }

  lemma TailHashes(branch: seq<ChainEntry>, i: nat, stop: nat)
    requires i < stop <= |branch|
    ensures HashesOf(branch[i..stop]) == {branch[i].hash} + HashesOf(branch[i + 1..stop])
  {
    assert branch[i..stop] == [branch[i]] + branch[i + 1..stop];
  }

  lemma ReplayOne(net: Network, path: seq<Block>, block: Block)
    ensures Replay(net, path + [block])
            == if Replay(net, path).Accept? then ConnectBlock(net, Replay(net, path).value, block) else Replay(net, path)
  {
    hide ConnectBlock;
    assert (path + [block])[..|path|] == path;
  }

  /** A path fails as the first part of it that fails. */
  lemma {:induction false} PathFails(net: Network, index: Index, a: Hash, h: Hash)
    requires index.Valid() && h in index.entries && a in index.entries && index.Ancestor(a, h)
    requires !Replay(net, index.Path(a)).Accept?
    ensures Replay(net, index.Path(h)) == Replay(net, index.Path(a))
    decreases index.entries[h].height
  {
    hide ConnectBlock;
    assert index.EntryOk(h);
    if a != h {
      var p := index.entries[h].prevBlock;
      PathFails(net, index, a, p);
      ReplayOne(net, index.Path(p), index.store[h]);
    }
  }

  /** An ancestor of the top of a branch is on the branch or below it. */
  lemma {:induction false} BranchSplits(index: Index, h: Hash, fork: Hash, i: nat, a: Hash)
    requires index.Valid() && h in index.entries && index.Ancestor(fork, h) && index.Ancestor(a, h)
    requires i < |index.Branch(h, fork)| && index.Branch(h, fork)[i].prevBlock in index.entries
    ensures a in HashesOf(index.Branch(h, fork)[..i + 1]) || index.Ancestor(a, index.Branch(h, fork)[i].prevBlock)
    decreases index.entries[h].height
  {
    assert index.EntryOk(h);
    var branch := index.Branch(h, fork);
    assert branch[0].hash == h && branch[0] in branch[..i + 1];
    if a != h && i > 0 {
      var p := index.entries[h].prevBlock;
      BranchSplits(index, p, fork, i - 1, a);
      assert branch[..i + 1] == [branch[0]] + index.Branch(p, fork)[..i];
    }
  }

  /** Later entries of a branch are ancestors of the earlier ones. */
  lemma {:induction false} BranchOrder(index: Index, h: Hash, fork: Hash, j: nat, i: nat)
    requires index.Valid() && h in index.entries && index.Ancestor(fork, h)
    requires j <= i < |index.Branch(h, fork)|
    requires index.Branch(h, fork)[j].hash in index.entries
    ensures index.Ancestor(index.Branch(h, fork)[i].hash, index.Branch(h, fork)[j].hash)
    decreases index.entries[h].height
  {
    assert index.EntryOk(h);
    if j > 0 {
      BranchOrder(index, index.entries[h].prevBlock, fork, j - 1, i - 1);
    } else {
      index.BranchIsAncestor(h, fork, i);
    }
  }

  /** More indexed blocks whose path does not replay. */
  lemma TracedMark(net: Network, precheck: (Hash, Block) -> bool, txStart: nat, index: Index, invalid: set<Hash>,
                   trail: seq<Block>, more: set<Hash>)
    requires index.Valid() && Traced(net, precheck, txStart, index, invalid, trail)
    requires forall h :: h in more ==> Stuck(net, index, h)
    ensures Traced(net, precheck, txStart, index, invalid + more, trail)
  {
    hide Index.Valid, Bad, Stuck;
  }

  /** One more block that was refused. */
  lemma TracedRefuse(net: Network, precheck: (Hash, Block) -> bool, txStart: nat, index: Index, invalid: set<Hash>,
                     trail: seq<Block>, b: Block)
    requires index.Valid() && Traced(net, precheck, txStart, index, invalid, trail)
    requires b.hash !in index.entries && (Bad(net, precheck, txStart, index, b) || InTrail(trail, b.prevBlock))
    ensures Traced(net, precheck, txStart, index, invalid + {b.hash}, trail + [b])
  {
    hide Index.Valid, Bad, Stuck;
    var trail' := trail + [b];
    forall i | 0 <= i < |trail'| ensures trail'[..i] == trail[..i] {}
    assert trail[..|trail|] == trail && trail'[|trail|] == b;
    assert InTrail(trail', b.hash);
    forall h | InTrail(trail, h) ensures InTrail(trail', h) {
      var i :| 0 <= i < |trail| && trail[i].hash == h;
      assert trail'[i].hash == h;
    }
  }

  /** On top of a path that does not replay nothing connects. */
  lemma BadPath(net: Network, precheck: (Hash, Block) -> bool, txStart: nat, index: Index, b: Block)
    requires index.Valid() && Stuck(net, index, b.prevBlock)
    ensures Bad(net, precheck, txStart, index, b)
  {
    hide ConnectBlock, Index.Valid, Index.Path;
    ReplayOne(net, index.Path(b.prevBlock), b);
  }

  /** A block enters the index that is not remembered as invalid. */
  lemma TracedAdd(net: Network, precheck: (Hash, Block) -> bool, txStart: nat, index: Index, invalid: set<Hash>,
                  trail: seq<Block>, block: Block)
    requires index.Valid() && Traced(net, precheck, txStart, index, invalid, trail)
    requires block.prevBlock in index.entries && block.hash !in index.entries && block.hash !in invalid
    requires index.Add(block).Valid()
    ensures Traced(net, precheck, txStart, index.Add(block), invalid, trail)
  {
    hide Index.Valid, Index.Path, Replay, EarlyRule;
    var index' := index.Add(block);
    forall h | h in index.entries ensures h in index'.entries && index'.Path(h) == index.Path(h) {
      index.PathAfterAdd(block, h);
    }
    forall h | h in invalid ensures Stuck(net, index', h) || InTrail(trail, h) {
      assert Stuck(net, index, h) || InTrail(trail, h);
    }
  }

  /** A tip that replays has no invalid block below it. */
  lemma TipClean(net: Network, precheck: (Hash, Block) -> bool, txStart: nat, index: Index, invalid: set<Hash>,
                 trail: seq<Block>, tip: Hash)
    requires index.Valid() && Traced(net, precheck, txStart, index, invalid, trail) && tip in index.entries
    requires Replay(net, index.Path(tip)).Accept?
    ensures forall a :: index.Ancestor(a, tip) ==> a !in invalid
  {
    hide Index.Valid, Index.Path, Replay, Bad;
    forall a | index.Ancestor(a, tip) ensures a !in invalid {
      PathReplays(net, index, a, tip);
    }
  }

  /** `findFork`: the highest common ancestor.  Stepping back never runs out of
      previous entries, so the errors for a missing one cannot occur. */
  method FindFork(index: Index, one: Hash, other: Hash) returns (fork: Hash)
    requires index.Valid() && one in index.entries && other in index.entries
    ensures fork in index.entries
    ensures index.Ancestor(fork, one) && index.Ancestor(fork, other)
    ensures forall a :: index.Ancestor(a, one) && index.Ancestor(a, other) ==> index.Ancestor(a, fork)
  {
    hide Index.Valid;
    fork := one;
    var longer := other;
    while fork != longer
      invariant fork in index.entries && longer in index.entries
      invariant index.Ancestor(fork, one) && index.Ancestor(longer, other)
      invariant forall a :: index.Ancestor(a, one) && index.Ancestor(a, other) ==>
                  index.Ancestor(a, fork) && index.Ancestor(a, longer)
      decreases index.entries[fork].height + index.entries[longer].height
    {
      ghost var start := index.entries[longer].height;
      while index.entries[longer].height > index.entries[fork].height
        invariant longer in index.entries && index.Ancestor(longer, other)
        invariant forall a :: index.Ancestor(a, one) && index.Ancestor(a, other) ==>
                    index.Ancestor(a, fork) && index.Ancestor(a, longer)
        invariant index.entries[longer].height <= start
        decreases index.entries[longer].height
      {
        index.StepBack(longer, fork);
        index.StepAncestor(longer, other);
        longer := index.entries[longer].prevBlock;
      }
      if fork == longer {
        return;
      }
      index.StepBack(fork, longer);
      index.StepAncestor(fork, one);
      fork := index.entries[fork].prevBlock;
    }
  }

  /** Replaying a path replays each of its prefixes, one block at a time. */
  lemma {:induction false} PathReplays(net: Network, index: Index, a: Hash, h: Hash)
    requires index.Valid() && h in index.entries && index.Ancestor(a, h)
    requires Replay(net, index.Path(h)).Accept?
    ensures a in index.entries && Replay(net, index.Path(a)).Accept?
    decreases index.entries[h].height
  {
    hide ConnectBlock;
    assert index.EntryOk(h);
    if a != h {
      var p := index.entries[h].prevBlock;
      assert index.Path(h)[..|index.Path(h)| - 1] == index.Path(p);
      PathReplays(net, index, a, p);
    }
  }

  /** On a branch that replays, each block connects to the state below it. */
  lemma BranchReplays(net: Network, index: Index, h: Hash, a: Hash, i: nat)
    requires index.Valid() && h in index.entries && index.Ancestor(a, h)
    requires i < |index.Branch(h, a)|
    ensures var e := index.Branch(h, a)[i];
            && e.hash in index.entries && e.prevBlock in index.entries
            && (Replay(net, index.Path(h)).Accept? ==>
                  && Replay(net, index.Path(e.prevBlock)).Accept?
                  && ConnectBlock(net, Replay(net, index.Path(e.prevBlock)).value,
                                  index.store[e.hash]).Accept?)
  {
    hide ConnectBlock, Index.Valid, Index.Path, Index.Branch;
    index.BranchFacts(h, a, i);
    var e := index.Branch(h, a)[i];
    index.PathStep(e.hash);
    if Replay(net, index.Path(h)).Accept? {
      index.BranchIsAncestor(h, a, i);
      PathReplays(net, index, e.hash, h);
      assert index.Path(e.hash)[..|index.Path(e.hash)| - 1] == index.Path(e.prevBlock);
    }
  }
}
