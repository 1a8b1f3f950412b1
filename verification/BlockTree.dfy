/**
 The index of known blocks: a tree rooted at genesis, with the accumulated work
 of every entry.
 */
module BlockTree {
  import opened Primitives
  import opened Ledger

  const MAX_CHAINWORK: nat := 0x1_0000000000000000_0000000000000000_0000000000000000_0000000000000000

  /** `getProof`: the work a header's target stands for. */
  function Proof(target: int): nat {
    if target <= 0 then 0 else MAX_CHAINWORK / (target + 1)
  }

  /** The work is the greatest number of hashes below the target that 2^256 tries
      have to give; and a lower target never stands for less. */
  lemma ProofBounds(target: int, other: int)
    requires target > 0
    ensures Proof(target) * (target + 1) <= MAX_CHAINWORK < (Proof(target) + 1) * (target + 1)
    ensures 0 < other <= target ==> Proof(target) <= Proof(other)
  {
    var p, q := Proof(target), Proof(other);
    if 0 < other <= target && q < p {
      var w := MAX_CHAINWORK;
      assert w < (q + 1) * (other + 1);
      assert (q + 1) * (other + 1) <= p * (other + 1) by { Times(q + 1, p, other + 1); }
      assert p * (other + 1) <= p * (target + 1) by { Times(other + 1, target + 1, p); }
    }
  }

  lemma Times(a: nat, b: nat, c: nat)
    requires a <= b
    ensures a * c <= b * c
  {
  }

  function TotalWork(blocks: seq<Block>): nat {
    if blocks == [] then 0 else TotalWork(blocks[..|blocks| - 1]) + Proof(blocks[|blocks| - 1].target)
  }

  datatype ChainEntry = ChainEntry(hash: Hash, prevBlock: Hash, height: nat, chainwork: nat)

  datatype Index = Index(genesis: Hash, entries: map<Hash, ChainEntry>, store: map<Hash, Block>) {

    ghost predicate Valid() {
      && genesis in entries && entries[genesis].height == 0
      && entries.Keys == store.Keys
      && forall h :: h in entries ==> EntryOk(h)
    }

    ghost predicate EntryOk(h: Hash)
      requires entries.Keys == store.Keys && h in entries
    {
      var e := entries[h];
      && e.hash == h && store[h].hash == h && e.prevBlock == store[h].prevBlock
      && (e.height == 0 ==> h == genesis)
      && (e.height > 0 ==>
            && e.prevBlock in entries
            && entries[e.prevBlock].height == e.height - 1
            && e.chainwork == entries[e.prevBlock].chainwork + Proof(store[h].target))
    }

    /** Every height is below `limit`. */
    ghost predicate Below(limit: int) {
      forall h :: h in entries ==> entries[h].height < limit
    }

    /** The blocks from genesis to `h`. */
    ghost function Path(h: Hash): seq<Block>
      requires Valid() && h in entries
      decreases entries[h].height
    {
      assert EntryOk(h);
      if entries[h].height == 0 then [store[h]]
      else Path(entries[h].prevBlock) + [store[h]]
    }

    ghost predicate Ancestor(a: Hash, h: Hash)
      requires Valid() && h in entries
      decreases entries[h].height
    {
      assert EntryOk(h);
      a == h || (entries[h].height > 0 && Ancestor(a, entries[h].prevBlock))
    }

    /** The entries from `h` down to, but not including, its ancestor `a`. */
    ghost function Branch(h: Hash, a: Hash): seq<ChainEntry>
      requires Valid() && h in entries && Ancestor(a, h)
      decreases entries[h].height
    {
      assert EntryOk(h);
      if h == a then [] else [entries[h]] + Branch(entries[h].prevBlock, a)
    }

    /** `ChainEntry.fromBlock` plus the database write. */
    function Add(block: Block): Index
      requires block.prevBlock in entries
    {
      var prev := entries[block.prevBlock];
      var e := ChainEntry(block.hash, block.prevBlock, prev.height + 1,
                          Proof(block.target) + prev.chainwork);
      Index(genesis, entries[block.hash := e], store[block.hash := block])
    }

    lemma {:induction false} AncestorFacts(a: Hash, h: Hash)
      requires Valid() && h in entries && Ancestor(a, h)
      ensures a in entries && entries[a].height <= entries[h].height
      ensures entries[a].height == entries[h].height ==> a == h
      ensures entries[a].chainwork <= entries[h].chainwork
      decreases entries[h].height
    {
      assert EntryOk(h);
      if a != h {
        AncestorFacts(a, entries[h].prevBlock);
      }
    }

    lemma {:induction false} GenesisIsAncestor(h: Hash)
      requires Valid() && h in entries
      ensures Ancestor(genesis, h)
      decreases entries[h].height
    {
      assert EntryOk(h);
      if entries[h].height > 0 {
        GenesisIsAncestor(entries[h].prevBlock);
      }
    }

    lemma {:induction false} AncestorTransitive(a: Hash, b: Hash, h: Hash)
      requires Valid() && h in entries && Ancestor(b, h) && b in entries && Ancestor(a, b)
      ensures Ancestor(a, h)
      decreases entries[h].height
    {
      assert EntryOk(h);
      if b != h {
        AncestorTransitive(a, b, entries[h].prevBlock);
      }
    }

    /** The work of an entry is that of genesis and of every block after it. */
    lemma {:induction false} PathFacts(h: Hash)
      requires Valid() && h in entries
      ensures |Path(h)| == entries[h].height + 1
      ensures Path(h)[entries[h].height].hash == h
      ensures entries[h].chainwork == entries[genesis].chainwork + TotalWork(Path(h)[1..])
      decreases entries[h].height
    {
      assert EntryOk(h);
      if entries[h].height > 0 {
        PathFacts(entries[h].prevBlock);
        assert Path(h)[1..][..entries[h].height - 1] == Path(entries[h].prevBlock)[1..];
      }
    }

    /** A path holds the ancestors. */
    lemma {:induction false} PathIsAncestors(h: Hash, i: nat)
      requires Valid() && h in entries && i < |Path(h)|
      ensures Ancestor(Path(h)[i].hash, h)
      decreases entries[h].height
    {
      assert EntryOk(h);
      if i < |Path(h)| - 1 {
        PathIsAncestors(entries[h].prevBlock, i);
      }
    }

    lemma PathStep(h: Hash)
      requires Valid() && h in entries && entries[h].height > 0
      ensures entries[h].prevBlock in entries && h in store && Path(h) == Path(entries[h].prevBlock) + [store[h]]
    {
      assert EntryOk(h);
    }

    /** Below its tip a branch continues as the branch of the previous entry. */
    lemma {:induction false} BranchFacts(h: Hash, a: Hash, i: nat)
      requires Valid() && h in entries && Ancestor(a, h) && i <= |Branch(h, a)|
      ensures a in entries && |Branch(h, a)| == entries[h].height - entries[a].height
      ensures i < |Branch(h, a)| ==>
                var e := Branch(h, a)[i];
                && e.hash in entries && entries[e.hash] == e && e.height > 0
                && Ancestor(a, e.hash) && e.hash != a
                && Branch(e.hash, a) == Branch(h, a)[i..]
                && e.prevBlock in entries
                && e.prevBlock == (if i + 1 < |Branch(h, a)| then Branch(h, a)[i + 1].hash else a)
                && e.chainwork <= entries[h].chainwork
                && entries[a].chainwork <= e.chainwork
      decreases entries[h].height
    {
      assert EntryOk(h);
      AncestorFacts(a, h);
      if h != a {
        var p := entries[h].prevBlock;
        AncestorFacts(a, p);
        if i > 0 {
          BranchFacts(p, a, i - 1);
          assert Branch(h, a)[i..] == Branch(p, a)[i - 1..];
        } else {
          BranchFacts(p, a, 0);
          assert EntryOk(p);
        }
      }
    }

    lemma {:induction false} BranchIsAncestor(h: Hash, a: Hash, i: nat)
      requires Valid() && h in entries && Ancestor(a, h) && i < |Branch(h, a)|
      ensures Ancestor(Branch(h, a)[i].hash, h)
      decreases entries[h].height
    {
      assert EntryOk(h);
      if i > 0 {
        BranchIsAncestor(entries[h].prevBlock, a, i - 1);
      }
    }

    /** The branch is empty, or starts at `h`. */
    lemma BranchEnds(h: Hash, a: Hash)
      requires Valid() && h in entries && Ancestor(a, h)
      ensures if h == a then Branch(h, a) == [] else |Branch(h, a)| > 0 && Branch(h, a)[0].hash == h
    {
    }

    lemma BranchStep(h: Hash, a: Hash)
      requires Valid() && h in entries && Ancestor(a, h) && h != a
      ensures entries[h].height > 0 && entries[h].hash == h
      ensures entries[h].prevBlock in entries && Ancestor(a, entries[h].prevBlock)
      ensures entries[entries[h].prevBlock].height < entries[h].height
      ensures Branch(h, a) == [entries[h]] + Branch(entries[h].prevBlock, a)
    {
    }

    lemma BranchEmpty(h: Hash, a: Hash)
      requires Valid() && h in entries && Ancestor(a, h) && Branch(h, a) == []
      ensures h == a
    {
    }

    lemma ValidAfterAdd(block: Block)
      requires Valid() && block.prevBlock in entries && block.hash !in entries
      ensures Add(block).Valid()
    {
    }

    lemma {:induction false} PathAfterAdd(block: Block, h: Hash)
      requires Valid() && block.prevBlock in entries && block.hash !in entries && h in entries
      requires Add(block).Valid()
      ensures Add(block).Path(h) == Path(h)
      decreases entries[h].height
    {
      assert EntryOk(h);
      if entries[h].height > 0 {
        PathAfterAdd(block, entries[h].prevBlock);
      }
    }

    lemma {:induction false} AncestorAfterAdd(block: Block, a: Hash, h: Hash)
      requires Valid() && block.prevBlock in entries && block.hash !in entries && h in entries
      requires Add(block).Valid()
      ensures Add(block).Ancestor(a, h) <==> Ancestor(a, h)
      decreases entries[h].height
    {
      assert EntryOk(h);
      assert Add(block).EntryOk(h);
      if entries[h].height > 0 {
        AncestorAfterAdd(block, a, entries[h].prevBlock);
      }
    }

    lemma AncestorSelf(a: Hash, h: Hash)
      requires Valid() && h in entries && Ancestor(a, h)
      ensures a in entries
    {
      AncestorFacts(a, h);
    }

    /** Adding a block leaves the other entries alone. */
    lemma AddedEntry(block: Block)
      requires block.prevBlock in entries && block.hash !in entries
      ensures var e := ChainEntry(block.hash, block.prevBlock, entries[block.prevBlock].height + 1,
                                  Proof(block.target) + entries[block.prevBlock].chainwork);
              Add(block).entries == entries[block.hash := e]
    {
    }

    lemma PathOfNew(block: Block)
      requires Valid() && block.prevBlock in entries && block.hash !in entries
      requires Add(block).Valid()
      ensures Add(block).Path(block.hash) == Path(block.prevBlock) + [block]
    {
      assert Add(block).EntryOk(block.hash);
      PathAfterAdd(block, block.prevBlock);
    }

    /** The fork between a new block and an old one is an ancestor of its parent. */
    lemma ForkOfNew(block: Block, fork: Hash, h: Hash)
      requires Valid() && block.prevBlock in entries && block.hash !in entries && h in entries
      requires Add(block).Valid()
      requires Add(block).Ancestor(fork, h) && Add(block).Ancestor(fork, block.hash)
      ensures fork in entries && Ancestor(fork, h) && Ancestor(fork, block.prevBlock)
    {
      AncestorAfterAdd(block, fork, h);
      AncestorFacts(fork, h);
      assert Add(block).EntryOk(block.hash);
      AncestorAfterAdd(block, fork, block.prevBlock);
    }

    /** Stepping back from the higher of two entries keeps every common ancestor. */
    lemma StepBack(x: Hash, y: Hash)
      requires Valid() && x in entries && y in entries
      requires x != y && entries[x].height >= entries[y].height
      ensures entries[x].height > 0 && entries[x].prevBlock in entries
      ensures entries[entries[x].prevBlock].height == entries[x].height - 1
      ensures forall a :: Ancestor(a, x) && Ancestor(a, y) ==> Ancestor(a, entries[x].prevBlock)
    {
      assert EntryOk(x) && EntryOk(y);
      forall a | Ancestor(a, x) && Ancestor(a, y)
        ensures Ancestor(a, entries[x].prevBlock)
      {
        if a == x {
          AncestorFacts(x, y);
        }
      }
    }

    lemma StepAncestor(x: Hash, top: Hash)
      requires Valid() && top in entries && x in entries && Ancestor(x, top) && entries[x].height > 0
      ensures entries[x].prevBlock in entries && Ancestor(entries[x].prevBlock, top)
    {
      assert EntryOk(x);
      AncestorTransitive(entries[x].prevBlock, x, top);
    }
  }
}
