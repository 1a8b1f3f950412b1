/**
 Compact blocks (BIP 152): a block sent as short ids, put together again from
 the receiver's memory pool and a request for what is missing.
 */
module CompactBlocks {
  import opened Primitives

  const MAX_BLOCK_SIZE := 1_000_000
  const BLOCK_HEADER_SIZE := 236
  const MAX_INDEX := 0xffff

  /** A transaction sent in full, with the number of slots it skips. */
  datatype Prefilled = Prefilled(skip: nat, tx: TX)

  // ---------------------------------------------------------------------
  // Slots
  // ---------------------------------------------------------------------

  /** Where the prefilled transactions go: each right after the slots it skips. */
  function Positions(ptx: seq<Prefilled>): (ps: seq<nat>)
    ensures |ps| == |ptx|
  {
    if ptx == [] then []
    else
      var before := Positions(ptx[..|ptx| - 1]);
      before + [AfterLast(before) + ptx[|ptx| - 1].skip]
  }

  function AfterLast(ps: seq<nat>): nat {
    if ps == [] then 0 else ps[|ps| - 1] + 1
  }

  lemma {:induction false} PositionsRise(ptx: seq<Prefilled>)
    ensures forall i, j :: 0 <= i < j < |ptx| ==> Positions(ptx)[i] < Positions(ptx)[j]
    ensures forall i :: 0 <= i < |ptx| ==> Positions(ptx)[i] < AfterLast(Positions(ptx))
  {
    if ptx != [] { PositionsRise(ptx[..|ptx| - 1]); }
  }

  /** The slots below n that are not taken, in order. */
  function Free(n: nat, taken: set<nat>): (free: seq<nat>)
    ensures forall i :: 0 <= i < |free| ==> free[i] < n && free[i] !in taken
    ensures forall i, j :: 0 <= i < j < |free| ==> free[i] < free[j]
  {
    if n == 0 then []
    else if n - 1 in taken then Free(n - 1, taken)
    else Free(n - 1, taken) + [n - 1]
  }

  lemma {:induction false} FreeAll(n: nat, taken: set<nat>, s: nat)
    requires s < n && s !in taken
    ensures exists i :: 0 <= i < |Free(n, taken)| && Free(n, taken)[i] == s
  {
    if s == n - 1 {
      assert Free(n, taken)[|Free(n, taken)| - 1] == s;
    } else {
      FreeAll(n - 1, taken, s);
      var i :| 0 <= i < |Free(n - 1, taken)| && Free(n - 1, taken)[i] == s;
      assert Free(n, taken)[i] == s;
    }
  }

  lemma {:induction false} FreePrefix(m: nat, n: nat, taken: set<nat>)
    requires m <= n
    ensures Free(m, taken) <= Free(n, taken)
  {
    if m < n { FreePrefix(m, n - 1, taken); }
  }

  lemma {:induction false} FreeCount(n: nat, taken: set<nat>)
    requires forall s :: s in taken ==> s < n
    ensures |Free(n, taken)| + |taken| == n
    decreases n
  {
    if n > 0 {
      var rest := taken - {n - 1};
      FreeCount(n - 1, rest);
      FreeOnly(n - 1, taken, rest);
    } else {
      assert taken == {};
    }
  }

  lemma {:induction false} FreeOnly(n: nat, a: set<nat>, b: set<nat>)
    requires forall s :: s < n ==> (s in a <==> s in b)
    ensures Free(n, a) == Free(n, b)
  {
    if n > 0 { FreeOnly(n - 1, a, b); }
  }

  function Taken(ptx: seq<Prefilled>): set<nat> {
    Elements(Positions(ptx))
  }

  /** The slots of a block that are not prefilled, in order: the i-th short id
      stands for the i-th of them. */
  function Slots(ids: seq<nat>, ptx: seq<Prefilled>): seq<nat> {
    Free(|ids| + |ptx|, Taken(ptx))
  }

  /** What a receiver checks about prefilled transactions. */
  predicate Fits(ids: seq<nat>, ptx: seq<Prefilled>) {
    forall i :: 0 <= i < |ptx| ==> Positions(ptx)[i] <= MAX_INDEX && Positions(ptx)[i] <= |ids| + i
  }

  lemma SlotCount(ids: seq<nat>, ptx: seq<Prefilled>)
    requires Fits(ids, ptx)
    ensures |Slots(ids, ptx)| == |ids|
    ensures forall s :: s in Taken(ptx) ==> s < |ids| + |ptx|
  {
    PositionsRise(ptx);
    RisingCount(Positions(ptx));
    forall s | s in Taken(ptx) ensures s < |ids| + |ptx| {
      var i :| 0 <= i < |ptx| && Positions(ptx)[i] == s;
    }
    FreeCount(|ids| + |ptx|, Taken(ptx));
  }

  function Elements(ps: seq<nat>): set<nat> {
    set p | p in ps
  }

  lemma {:induction false} RisingCount(ps: seq<nat>)
    requires forall i, j :: 0 <= i < j < |ps| ==> ps[i] < ps[j]
    ensures |Elements(ps)| == |ps|
  {
    if ps == [] {
      assert Elements(ps) == {};
    } else {
      var k := |ps| - 1;
      RisingCount(ps[..k]);
      assert ps == ps[..k] + [ps[k]];
      assert Elements(ps) == Elements(ps[..k]) + {ps[k]};
      assert ps[k] !in Elements(ps[..k]);
    }
  }

  predicate Distinct(s: seq<nat>) {
    forall i, j :: 0 <= i < j < |s| ==> s[i] != s[j]
  }

  predicate TooBig(total: nat) {
    10 * total > MAX_BLOCK_SIZE || 60 * total > MAX_BLOCK_SIZE - (BLOCK_HEADER_SIZE + 1)
  }

  /** The prefilled transactions are in their slots, and nothing else is. */
  ghost predicate Placed(available: seq<Option<TX>>, ids: seq<nat>, ptx: seq<Prefilled>) {
    && |available| == |ids| + |ptx|
    && (forall i :: 0 <= i < |ptx| ==>
          Positions(ptx)[i] < |available| && available[Positions(ptx)[i]] == Some(ptx[i].tx))
    && (forall s :: 0 <= s < |available| && s !in Taken(ptx) ==> available[s] == None)
  }

  /** Every short id leads to its slot. */
  ghost predicate Mapped(idMap: map<nat, nat>, ids: seq<nat>, ptx: seq<Prefilled>) {
    && |Slots(ids, ptx)| == |ids|
    && (forall i :: 0 <= i < |ids| ==> ids[i] in idMap && idMap[ids[i]] == Slots(ids, ptx)[i])
    && (forall id :: id in idMap ==> id in ids)
  }

  lemma FilledTaken(available: seq<Option<TX>>, ids: seq<nat>, ptx: seq<Prefilled>, s: nat)
    requires Placed(available, ids, ptx) && s < |available|
    ensures available[s].Some? <==> s in Taken(ptx)
  {
  }

  function Filled(available: seq<Option<TX>>): set<nat> {
    set s | 0 <= s < |available| && available[s].Some?
  }

  lemma FillOne(available: seq<Option<TX>>, s: nat, tx: TX)
    requires s < |available| && available[s] == None
    ensures Filled(available[s := Some(tx)]) == Filled(available) + {s} && s !in Filled(available)
    ensures |Filled(available[s := Some(tx)])| == |Filled(available)| + 1
  {
  }

  /** Filling an empty slot counts one more, emptying one counts one less at most. */
  lemma FillOther(available: seq<Option<TX>>, s: nat, tx: TX)
    requires s < |available|
    ensures available[s] == None ==> |Filled(available[s := Some(tx)])| == |Filled(available)| + 1
    ensures |Filled(available[s := None])| >= |Filled(available)| - 1
  {
    if available[s] == None {
      FillOne(available, s, tx);
    }
    assert Filled(available[s := None]) == Filled(available) - {s};
  }

  lemma FilledFew(available: seq<Option<TX>>)
    ensures |Filled(available)| <= |available|
  {
    FreeCount(|available|, Filled(available));
  }

  lemma AllFilled(available: seq<Option<TX>>)
    ensures |Filled(available)| == |available| <==> forall s :: 0 <= s < |available| ==> available[s].Some?
  {
    var filled := Filled(available);
    var free := Free(|available|, filled);
    FreeCount(|available|, filled);
    assert free != [] ==> available[free[0]].None?;
    if s :| 0 <= s < |available| && available[s].None? {
      FreeAll(|available|, filled, s);
    }
  }

  class CompactBlock {
    const sid: TX -> nat
    var ids: seq<nat>
    var ptx: seq<Prefilled>
    var available: seq<Option<TX>>
    var idMap: map<nat, nat>
    var count: int
    var totalTX: nat

    /** As read from the wire or made from a block. */
    constructor (sid: TX -> nat, ids: seq<nat>, ptx: seq<Prefilled>)
      ensures this.sid == sid && this.ids == ids && this.ptx == ptx && totalTX == |ids| + |ptx|
      ensures available == [] && idMap == map[] && count == 0
    {
      this.sid, this.ids, this.ptx, totalTX := sid, ids, ptx, |ids| + |ptx|;
      available, idMap, count := [], map[], 0;
    }

    /** The coinbase in full, everything else as short ids. */
    constructor FromBlock(sid: TX -> nat, txs: seq<TX>)
      requires txs != []
      ensures this.sid == sid && ptx == [Prefilled(0, txs[0])] && totalTX == |txs|
      ensures |ids| == |txs| - 1 && forall i :: 0 <= i < |ids| ==> ids[i] == sid(txs[i + 1])
      ensures available == [] && idMap == map[] && count == 0
    {
      this.sid := sid;
      totalTX := |txs|;
      available, idMap, count := [], map[], 0;
      var list: seq<nat> := [];
      for i := 1 to |txs|
        invariant |list| == i - 1 && forall k :: 0 <= k < |list| ==> list[k] == sid(txs[k + 1])
      {
        list := list + [sid(txs[i])];
      }
      ids := list;
      ptx := [Prefilled(0, txs[0])];
    }

    method Init() returns (o: Outcome<bool>)
      requires available == [] && idMap == map[] && count == 0 && totalTX == |ids| + |ptx|
      modifies this`available, this`idMap, this`count
      ensures o.Accept? <==> totalTX != 0 && !TooBig(totalTX) && Fits(ids, ptx)
      ensures o.Accept? ==>
                && Placed(available, ids, ptx) && count == |Filled(available)|
                && (o.value <==> Distinct(ids)) && (o.value ==> Mapped(idMap, ids, ptx))
    {
      if totalTX == 0 { return Throw("Empty vectors."); }
      if TooBig(totalTX) { return Throw("Compact block too big."); }
      var fits := PlacePrefilled();
      if !fits { return AssertFail; }
      SlotCount(ids, ptx);
      var ok := MapIds();
      return Accept(ok);
    }

    /** Past the slots that are taken, to the next free one. */
    method SkipTaken(i: nat, from: nat) returns (offset: nat)
      requires Placed(available, ids, ptx) && |available| == totalTX == |ids| + |ptx|
      requires i + from <= totalTX && Passed(ids, ptx, i + from) == i < |Slots(ids, ptx)|
      ensures i + offset < totalTX && Slots(ids, ptx)[i] == i + offset && Passed(ids, ptx, i + offset + 1) == i + 1
    {
      hide Placed, Free, Slots, Taken, Passed;
      offset := from;
      NextSlot(ids, ptx, i + offset, i);
      while available[i + offset].Some?
        invariant i + offset < totalTX && Passed(ids, ptx, i + offset) == i
        decreases totalTX - offset
      {
        FilledTaken(available, ids, ptx, i + offset);
        SkipSlot(ids, ptx, i + offset);
        offset := offset + 1;
        NextSlot(ids, ptx, i + offset, i);
      }
      FilledTaken(available, ids, ptx, i + offset);
      TakeSlot(ids, ptx, i + offset);
    }

    /** The short ids go to the free slots, in order; two equal ids end it. */
    method MapIds() returns (ok: bool)
      requires Placed(available, ids, ptx) && |available| == totalTX == |ids| + |ptx|
      requires idMap == map[] && |Slots(ids, ptx)| == |ids|
      modifies this`idMap
      ensures ok <==> Distinct(ids)
      ensures ok ==> Mapped(idMap, ids, ptx)
    {
      hide Placed, Free, Slots, Taken, Passed;
      var offset: nat := 0;
      NoSlots(ids, ptx);
      for i := 0 to |ids|
        invariant i + offset <= totalTX && Passed(ids, ptx, i + offset) == i
        invariant forall j, k :: 0 <= j < k < i ==> ids[j] != ids[k]
        invariant forall k :: 0 <= k < i ==> ids[k] in idMap && idMap[ids[k]] == Slots(ids, ptx)[k]
        invariant forall id :: id in idMap ==> id in ids[..i]
      {
        offset := SkipTaken(i, offset);
        if ids[i] in idMap {
          assert ids[i] in ids[..i];
          return false;
        }
        idMap := idMap[ids[i] := i + offset];
      }
      return true;
    }

    method PlacePrefilled() returns (fits: bool)
      requires available == [] && count == 0 && totalTX == |ids| + |ptx|
      modifies this`available, this`count
      ensures fits <==> Fits(ids, ptx)
      ensures fits ==> Placed(available, ids, ptx) && count == |Filled(available)|
    {
      hide Positions, Elements, PlacedSoFar, Placed, Filled, Taken;
      available := seq(totalTX, _ => None);
      var last := -1;
      NothingPlaced(available, ptx);
      PositionsRise(ptx);
      for i := 0 to |ptx|
        invariant |available| == totalTX && count == |Filled(available)|
        invariant last + 1 == After(ptx, i)
        invariant forall k :: 0 <= k < i ==> Positions(ptx)[k] <= MAX_INDEX && Positions(ptx)[k] <= |ids| + k
        invariant PlacedSoFar(available, ptx, i)
      {
        PositionAt(ptx, i);
        last := last + ptx[i].skip + 1;
        assert Positions(ptx)[i] == last;
        if last > MAX_INDEX { return false; }
        if last > |ids| + i { return false; }
        PlaceNext(available, ptx, i);
        FillOne(available, last, ptx[i].tx);
        available := available[last := Some(ptx[i].tx)];
        count := count + 1;
      }
      AllPlaced(available, ids, ptx);
      return true;
    }

    /** Transactions of the pool go to the slots of their short ids.  Without
        collisions in the pool, each slot gets the one that matches, and nothing
        else.  With collisions, a slot gets a transaction exactly when one alone of
        those looked at matches, and all are looked at unless the block is full. */
    method FillMempool(mempool: seq<TX>) returns (full: bool)
      requires count == |Filled(available)| && totalTX == |available|
      requires forall id :: id in idMap ==> idMap[id] < |available| && available[idMap[id]] == None
      requires forall id, other :: id in idMap && other in idMap && idMap[id] == idMap[other] ==> id == other
      modifies this`available, this`count
      ensures |available| == totalTX
      ensures Apart(sid, mempool) ==> FilledFrom(old(available), available, idMap, sid, mempool)
      ensures Apart(sid, mempool) ==> (full <==> forall s :: 0 <= s < totalTX ==> available[s].Some?)
      ensures exists n: nat :: Looked(old(available), available, idMap, sid, mempool, n) && (!full ==> n == |mempool|)
      ensures full ==> forall s :: 0 <= s < totalTX ==> available[s].Some?
    {
      hide FilledSoFar, Filled, Looked, Matching;
      AllFilled(available);
      LookFirst(available, idMap, sid, mempool);
      if count == totalTX {
        FullAtOnce(available, idMap, sid, mempool);
        return true;
      }
      var placed: set<nat> := {};
      NothingYet(available, idMap, sid, mempool);
      for i := 0 to |mempool|
        invariant |available| == totalTX && count <= |Filled(available)|
        invariant Looked(old(available), available, idMap, sid, mempool, i) && Matching(idMap, sid, mempool, i, placed)
        invariant Apart(sid, mempool) ==>
                    && count == |Filled(available)| != totalTX
                    && FilledSoFar(old(available), available, idMap, sid, mempool, i)
                    && forall s: nat :: s in placed ==> s < totalTX && available[s].Some?
      {
        var tx := mempool[i];
        var id := sid(tx);
        if Apart(sid, mempool) {
          NextTx(old(available), available, idMap, sid, mempool, i);
        }
        LookNext(old(available), available, idMap, sid, mempool, i, placed);
        if id !in idMap {
          continue;
        }
        var index := idMap[id];
        FillOther(available, index, tx);
        if index in placed {
          available := available[index := None];
          count := count - 1;
          continue;
        }
        if Apart(sid, mempool) {
          FillOne(available, index, tx);
        }
        available := available[index := Some(tx)];
        placed := placed + {index};
        count := count + 1;
        if count == totalTX {
          FilledFew(available);
          AllFilled(available);
          assert Looked(old(available), available, idMap, sid, mempool, i + 1);
          if Apart(sid, mempool) {
            AllFilled(available);
            FullIsDone(old(available), available, idMap, sid, mempool, i + 1);
          }
          return true;
        }
      }
      AllFilled(available);
      return false;
    }

    /** What the peer sent goes to the slots still empty, in order. */
    method FillMissing(txs: seq<TX>) returns (ok: bool)
      modifies this`available
      ensures |available| == |old(available)|
      ensures ok <==> |txs| == |Missing(old(available))|
      ensures forall s :: 0 <= s < |available| && old(available)[s].Some? ==> available[s] == old(available)[s]
      ensures ok ==> forall k :: 0 <= k < |txs| ==> available[Missing(old(available))[k]] == Some(txs[k])
      ensures ok ==> forall s :: 0 <= s < |available| ==> available[s].Some?
    {
      hide Free;
      ghost var filled := Filled(available);
      var offset := 0;
      NoneBelow(filled);
      for i := 0 to |available|
        invariant |available| == |old(available)| && offset == |Free(i, filled)| <= |txs|
        invariant forall s :: i <= s < |available| ==> available[s] == old(available)[s]
        invariant forall s :: 0 <= s < i && s in filled ==> available[s] == old(available)[s]
        invariant forall k :: 0 <= k < offset ==> available[Free(i, filled)[k]] == Some(txs[k])
        invariant forall s :: 0 <= s < i ==> available[s].Some?
      {
        OneMoreFree(i, filled);
        if available[i].Some? {
          continue;
        }
        if offset >= |txs| {
          FreePrefix(i + 1, |available|, filled);
          return false;
        }
        available := available[i := Some(txs[offset])];
        offset := offset + 1;
      }
      return offset == |txs|;
    }

    method ToBlock() returns (o: Outcome<seq<TX>>)
      ensures o.Accept? <==> forall s :: 0 <= s < |available| ==> available[s].Some?
      ensures o.Accept? ==> |o.value| == |available| && forall s :: 0 <= s < |available| ==> available[s] == Some(o.value[s])
    {
      var txs: seq<TX> := [];
      for i := 0 to |available|
        invariant |txs| == i && forall s :: 0 <= s < i ==> available[s] == Some(txs[s])
      {
        if available[i].None? { return AssertFail; }
        txs := txs + [available[i].value];
      }
      return Accept(txs);
    }

    /** The indexes of the empty slots. */
    method ToRequest() returns (indexes: seq<nat>)
      ensures indexes == Missing(available)
    {
      hide Free;
      indexes := [];
      NoneBelow(Filled(available));
      for i := 0 to |available|
        invariant indexes == Free(i, Filled(available))
      {
        OneMoreFree(i, Filled(available));
        if available[i].None? { indexes := indexes + [i]; }
      }
    }
  }

  /** The slots that are still empty, in order. */
  function Missing(available: seq<Option<TX>>): (ms: seq<nat>)
    ensures forall k :: 0 <= k < |ms| ==> ms[k] < |available|
  {
    Free(|available|, Filled(available))
  }

  lemma NoneBelow(taken: set<nat>)
    ensures Free(0, taken) == []
  {
  }

  lemma OneMoreFree(n: nat, taken: set<nat>)
    ensures Free(n + 1, taken) == if n in taken then Free(n, taken) else Free(n, taken) + [n]
  {
  }

  /** No two transactions share a short id. */
  predicate Apart(sid: TX -> nat, txs: seq<TX>) {
    forall i, j :: 0 <= i < j < |txs| ==> sid(txs[i]) != sid(txs[j])
  }

  /** After the first n transactions of the pool. */
  ghost predicate FilledSoFar(before: seq<Option<TX>>, after: seq<Option<TX>>, idMap: map<nat, nat>, sid: TX -> nat,
                              mempool: seq<TX>, n: nat)
    requires n <= |mempool|
  {
    && |after| == |before|
    && (forall s :: 0 <= s < |after| ==>
          after[s] == before[s] || (before[s] == None && FromPool(after[s], idMap, sid, mempool, n, s)))
    && (forall i :: 0 <= i < n && sid(mempool[i]) in idMap ==>
          var s := idMap[sid(mempool[i])];
          s < |after| && after[s] == Some(mempool[i]))
  }

  ghost predicate FromPool(slot: Option<TX>, idMap: map<nat, nat>, sid: TX -> nat, mempool: seq<TX>, n: nat, s: nat)
    requires n <= |mempool|
  {
    exists i :: 0 <= i < n && slot == Some(mempool[i]) && sid(mempool[i]) in idMap && idMap[sid(mempool[i])] == s
  }

  ghost predicate FilledFrom(before: seq<Option<TX>>, after: seq<Option<TX>>, idMap: map<nat, nat>, sid: TX -> nat,
                             mempool: seq<TX>)
  {
    FilledSoFar(before, after, idMap, sid, mempool, |mempool|)
  }

  /** The transactions with a short id, in order. */
  function Matches(sid: TX -> nat, pool: seq<TX>, id: nat): seq<TX> {
    if pool == [] then []
    else
      Matches(sid, pool[..|pool| - 1], id) + if sid(pool[|pool| - 1]) == id then [pool[|pool| - 1]] else []
  }

  function Sole(found: seq<TX>): Option<TX> {
    if |found| == 1 then Some(found[0]) else None
  }

  /** The first `n` transactions of the pool were looked at. */
  ghost predicate Looked(before: seq<Option<TX>>, after: seq<Option<TX>>, idMap: map<nat, nat>, sid: TX -> nat,
                         mempool: seq<TX>, n: nat)
  {
    && n <= |mempool| && |after| == |before|
    && (forall s :: 0 <= s < |after| && (forall id :: id in idMap ==> idMap[id] != s) ==> after[s] == before[s])
    && (forall id :: id in idMap ==> idMap[id] < |after| && after[idMap[id]] == Sole(Matches(sid, mempool[..n], id)))
  }

  /** The slots placed so far are those with a match. */
  ghost predicate Matching(idMap: map<nat, nat>, sid: TX -> nat, mempool: seq<TX>, n: nat, placed: set<nat>) {
    n <= |mempool| && forall id :: id in idMap ==> (idMap[id] in placed <==> Matches(sid, mempool[..n], id) != [])
  }

  lemma LookFirst(before: seq<Option<TX>>, idMap: map<nat, nat>, sid: TX -> nat, mempool: seq<TX>)
    requires forall id :: id in idMap ==> idMap[id] < |before| && before[idMap[id]] == None
    ensures Looked(before, before, idMap, sid, mempool, 0) && Matching(idMap, sid, mempool, 0, {})
  {
  }

  lemma LookNext(before: seq<Option<TX>>, now: seq<Option<TX>>, idMap: map<nat, nat>, sid: TX -> nat,
                 mempool: seq<TX>, i: nat, placed: set<nat>)
    requires i < |mempool| && Looked(before, now, idMap, sid, mempool, i) && Matching(idMap, sid, mempool, i, placed)
    requires forall id, other :: id in idMap && other in idMap && idMap[id] == idMap[other] ==> id == other
    ensures var id := sid(mempool[i]);
            if id !in idMap then
              Looked(before, now, idMap, sid, mempool, i + 1) && Matching(idMap, sid, mempool, i + 1, placed)
            else
              && idMap[id] < |now|
              && (if idMap[id] in placed then
                    && Looked(before, now[idMap[id] := None], idMap, sid, mempool, i + 1)
                    && Matching(idMap, sid, mempool, i + 1, placed)
                  else
                    && now[idMap[id]] == None
                    && Looked(before, now[idMap[id] := Some(mempool[i])], idMap, sid, mempool, i + 1)
                    && Matching(idMap, sid, mempool, i + 1, placed + {idMap[id]}))
  {
    hide Matches;
    forall id | id in idMap
      ensures Matches(sid, mempool[..i + 1], id)
              == Matches(sid, mempool[..i], id) + if sid(mempool[i]) == id then [mempool[i]] else []
    {
      MatchesNext(sid, mempool, i, id);
    }
  }

  lemma MatchesNext(sid: TX -> nat, mempool: seq<TX>, i: nat, id: nat)
    requires i < |mempool|
    ensures Matches(sid, mempool[..i + 1], id)
            == Matches(sid, mempool[..i], id) + if sid(mempool[i]) == id then [mempool[i]] else []
  {
    assert mempool[..i + 1][..i] == mempool[..i];
  }

  lemma NothingYet(before: seq<Option<TX>>, idMap: map<nat, nat>, sid: TX -> nat, mempool: seq<TX>)
    ensures FilledSoFar(before, before, idMap, sid, mempool, 0)
  {
  }

  /** The slot of the next matching transaction is still as it was. */
  lemma NextTx(before: seq<Option<TX>>, now: seq<Option<TX>>, idMap: map<nat, nat>, sid: TX -> nat,
               mempool: seq<TX>, i: nat)
    requires i < |mempool| && Apart(sid, mempool) && FilledSoFar(before, now, idMap, sid, mempool, i)
    requires forall id :: id in idMap ==> idMap[id] < |before| && before[idMap[id]] == None
    requires forall id, other :: id in idMap && other in idMap && idMap[id] == idMap[other] ==> id == other
    ensures var id := sid(mempool[i]);
            if id !in idMap then FilledSoFar(before, now, idMap, sid, mempool, i + 1)
            else idMap[id] < |now| && now[idMap[id]] == None
                 && FilledSoFar(before, now[idMap[id] := Some(mempool[i])], idMap, sid, mempool, i + 1)
  {
  }

  lemma FullAtOnce(before: seq<Option<TX>>, idMap: map<nat, nat>, sid: TX -> nat, mempool: seq<TX>)
    requires forall s :: 0 <= s < |before| ==> before[s].Some?
    requires forall id :: id in idMap ==> idMap[id] < |before| && before[idMap[id]] == None
    ensures FilledFrom(before, before, idMap, sid, mempool)
  {
  }

  /** When no slot is empty, nothing else in the pool matches a slot. */
  lemma FullIsDone(before: seq<Option<TX>>, now: seq<Option<TX>>, idMap: map<nat, nat>, sid: TX -> nat,
                   mempool: seq<TX>, n: nat)
    requires n <= |mempool| && Apart(sid, mempool) && FilledSoFar(before, now, idMap, sid, mempool, n)
    requires forall s :: 0 <= s < |now| ==> now[s].Some?
    requires forall id :: id in idMap ==> idMap[id] < |now| && before[idMap[id]] == None
    requires forall id, other :: id in idMap && other in idMap && idMap[id] == idMap[other] ==> id == other
    ensures FilledFrom(before, now, idMap, sid, mempool)
  {
  }

  function After(ptx: seq<Prefilled>, i: nat): nat
    requires i <= |ptx|
  {
    if i == 0 then 0 else Positions(ptx)[i - 1] + 1
  }

  lemma {:induction false} PositionAt(ptx: seq<Prefilled>, i: nat)
    requires i < |ptx|
    ensures Positions(ptx)[i] == After(ptx, i) + ptx[i].skip
    decreases |ptx|
  {
    if i < |ptx| - 1 { PositionAt(ptx[..|ptx| - 1], i); }
  }

  ghost predicate PlacedSoFar(available: seq<Option<TX>>, ptx: seq<Prefilled>, i: nat)
    requires i <= |ptx|
  {
    && (forall k :: 0 <= k < i ==> Positions(ptx)[k] < |available| && available[Positions(ptx)[k]] == Some(ptx[k].tx))
    && (forall s :: 0 <= s < |available| && s !in Elements(Positions(ptx)[..i]) ==> available[s] == None)
  }

  lemma PlaceNext(available: seq<Option<TX>>, ptx: seq<Prefilled>, i: nat)
    requires i < |ptx| && PlacedSoFar(available, ptx, i) && Positions(ptx)[i] < |available|
    requires forall j :: 0 <= j < i ==> Positions(ptx)[j] < Positions(ptx)[i]
    ensures available[Positions(ptx)[i]] == None
    ensures PlacedSoFar(available[Positions(ptx)[i] := Some(ptx[i].tx)], ptx, i + 1)
  {
    hide Positions, Elements, PlacedSoFar;
    ElementsSnoc(Positions(ptx), i);
    NotBefore(Positions(ptx), i);
    EmptyOutside(available, ptx, i);
    var after := available[Positions(ptx)[i] := Some(ptx[i].tx)];
    forall k | 0 <= k < i ensures Positions(ptx)[k] < |after| && after[Positions(ptx)[k]] == Some(ptx[k].tx) {
      PlacedAt(available, ptx, i, k);
    }
    PlacedFrom(after, ptx, i + 1);
  }

  lemma PlacedAt(available: seq<Option<TX>>, ptx: seq<Prefilled>, i: nat, k: nat)
    requires k < i <= |ptx| && PlacedSoFar(available, ptx, i)
    ensures Positions(ptx)[k] < |available| && available[Positions(ptx)[k]] == Some(ptx[k].tx)
  {
  }

  lemma EmptyOutside(available: seq<Option<TX>>, ptx: seq<Prefilled>, i: nat)
    requires i <= |ptx| && PlacedSoFar(available, ptx, i)
    ensures forall s :: 0 <= s < |available| && s !in Elements(Positions(ptx)[..i]) ==> available[s] == None
  {
  }

  lemma PlacedFrom(available: seq<Option<TX>>, ptx: seq<Prefilled>, i: nat)
    requires i <= |ptx|
    requires forall k :: 0 <= k < i ==>
               Positions(ptx)[k] < |available| && available[Positions(ptx)[k]] == Some(ptx[k].tx)
    requires forall s :: 0 <= s < |available| && s !in Elements(Positions(ptx)[..i]) ==> available[s] == None
    ensures PlacedSoFar(available, ptx, i)
  {
  }

  lemma NotBefore(ps: seq<nat>, i: nat)
    requires i < |ps| && forall j :: 0 <= j < i ==> ps[j] < ps[i]
    ensures ps[i] !in Elements(ps[..i])
  {
  }

  lemma ElementsSnoc(ps: seq<nat>, i: nat)
    requires i < |ps|
    ensures Elements(ps[..i + 1]) == Elements(ps[..i]) + {ps[i]}
  {
  }

  lemma NothingPlaced(available: seq<Option<TX>>, ptx: seq<Prefilled>)
    requires forall s :: 0 <= s < |available| ==> available[s] == None
    ensures PlacedSoFar(available, ptx, 0) && Filled(available) == {}
  {
  }

  lemma AllPlaced(available: seq<Option<TX>>, ids: seq<nat>, ptx: seq<Prefilled>)
    requires PlacedSoFar(available, ptx, |ptx|) && |available| == |ids| + |ptx|
    ensures Placed(available, ids, ptx)
  {
  }

  /** How many free slots lie below s. */
  function Passed(ids: seq<nat>, ptx: seq<Prefilled>, s: nat): nat {
    |Free(s, Taken(ptx))|
  }

  lemma NoSlots(ids: seq<nat>, ptx: seq<Prefilled>)
    ensures Passed(ids, ptx, 0) == 0
  {
  }

  /** While fewer than all free slots were passed, another one is ahead. */
  lemma NextSlot(ids: seq<nat>, ptx: seq<Prefilled>, s: nat, i: nat)
    requires s <= |ids| + |ptx| && Passed(ids, ptx, s) == i < |Slots(ids, ptx)|
    ensures s < |ids| + |ptx|
  {
  }

  lemma SkipSlot(ids: seq<nat>, ptx: seq<Prefilled>, s: nat)
    requires s in Taken(ptx)
    ensures Passed(ids, ptx, s + 1) == Passed(ids, ptx, s)
  {
  }

  lemma TakeSlot(ids: seq<nat>, ptx: seq<Prefilled>, s: nat)
    requires s < |ids| + |ptx| && s !in Taken(ptx)
    ensures Passed(ids, ptx, s + 1) == Passed(ids, ptx, s) + 1
    ensures Passed(ids, ptx, s) < |Slots(ids, ptx)| && Slots(ids, ptx)[Passed(ids, ptx, s)] == s
  {
    hide Taken;
    FreePrefix(s + 1, |ids| + |ptx|, Taken(ptx));
  }

  // ---------------------------------------------------------------------
  // Requests and responses
  // ---------------------------------------------------------------------

  predicate Rising(indexes: seq<nat>) {
    forall i, j :: 0 <= i < j < |indexes| ==> indexes[i] < indexes[j]
  }

  /** An index is written as its distance from the one before. */
  function Deltas(indexes: seq<nat>): (ds: seq<nat>)
    requires Rising(indexes)
    ensures |ds| == |indexes|
  {
    seq(|indexes|, i requires 0 <= i < |indexes| =>
      if i == 0 then indexes[0] else indexes[i] - (indexes[i - 1] + 1))
  }

  method WriteIndexes(indexes: seq<nat>) returns (ds: seq<nat>)
    requires Rising(indexes)
    ensures ds == Deltas(indexes)
  {
    ds := [];
    for i := 0 to |indexes|
      invariant ds == Deltas(indexes)[..i]
    {
      var index := indexes[i];
      if i > 0 { index := index - (indexes[i - 1] + 1); }
      ds := ds + [index];
    }
  }

  /** Reads back any rising list of small indexes, and refuses everything else. */
  method ReadIndexes(ds: seq<nat>) returns (o: Outcome<seq<nat>>)
    ensures o.Accept? ==> Rising(o.value) && Deltas(o.value) == ds && forall i :: 0 <= i < |ds| ==> o.value[i] <= MAX_INDEX
    ensures !o.Accept? ==> !(exists list :: Rising(list) && (forall i :: 0 <= i < |list| ==> list[i] <= MAX_INDEX)
                                            && Deltas(list) == ds)
  {
    for i := 0 to |ds|
      invariant forall k :: 0 <= k < i ==> ds[k] <= MAX_INDEX
    {
      if ds[i] > MAX_INDEX { return AssertFail; }
    }
    var indexes: seq<nat>, offset := [], 0;
    for i := 0 to |ds|
      invariant |indexes| == i && Rising(indexes) && Deltas(indexes) == ds[..i]
      invariant offset == if i == 0 then 0 else indexes[i - 1] + 1
      invariant forall k :: 0 <= k < i ==> indexes[k] <= MAX_INDEX
    {
      var index := ds[i] + offset;
      if index > MAX_INDEX {
        NotIndexes(ds, indexes, i);
        return AssertFail;
      }
      indexes := indexes + [index];
      offset := index + 1;
    }
    return Accept(indexes);
  }

  /** The distances leave no choice. */
  lemma {:induction false} DeltasAgree(a: seq<nat>, b: seq<nat>, i: nat)
    requires Rising(a) && Rising(b) && i <= |a| && i <= |b|
    requires forall k :: 0 <= k < i ==> Deltas(a)[k] == Deltas(b)[k]
    ensures a[..i] == b[..i]
  {
    if i > 0 {
      DeltasAgree(a, b, i - 1);
      assert Deltas(a)[i - 1] == Deltas(b)[i - 1];
      assert i > 1 ==> a[..i - 1][i - 2] == b[..i - 1][i - 2];
      assert a[i - 1] == b[i - 1];
      assert a[..i] == a[..i - 1] + [a[i - 1]] && b[..i] == b[..i - 1] + [b[i - 1]];
    }
  }

  lemma NotIndexes(ds: seq<nat>, indexes: seq<nat>, i: nat)
    requires i < |ds| && |indexes| == i && Rising(indexes) && Deltas(indexes) == ds[..i]
    requires ds[i] + (if i == 0 then 0 else indexes[i - 1] + 1) > MAX_INDEX
    ensures !(exists list :: Rising(list) && (forall k :: 0 <= k < |list| ==> list[k] <= MAX_INDEX)
                             && Deltas(list) == ds)
  {
    forall list | Rising(list) && Deltas(list) == ds ensures list[i] > MAX_INDEX {
      forall k | 0 <= k < i ensures Deltas(list)[k] == Deltas(indexes)[k] {
        assert ds[..i][k] == ds[k];
      }
      DeltasAgree(list, indexes, i);
      assert i > 0 ==> list[i - 1] == list[..i][i - 1] == indexes[i - 1];
      assert Deltas(list)[i] == ds[i];
    }
  }

  method Respond(txs: seq<TX>, indexes: seq<nat>) returns (res: seq<TX>)
    ensures (forall k :: 0 <= k < |indexes| ==> indexes[k] < |txs|) ==>
              |res| == |indexes| && forall k :: 0 <= k < |res| ==> res[k] == txs[indexes[k]]
  {
    res := [];
    for i := 0 to |indexes|
      invariant |res| == i && forall k :: 0 <= k < i ==> indexes[k] < |txs| && res[k] == txs[indexes[k]]
    {
      if indexes[i] >= |txs| { break; }
      res := res + [txs[indexes[i]]];
    }
  }

  // ---------------------------------------------------------------------
  // The exchange
  // ---------------------------------------------------------------------

  /** Short ids and prefilled transactions that stand for a block. */
  ghost predicate Encodes(sid: TX -> nat, ids: seq<nat>, ptx: seq<Prefilled>, txs: seq<TX>) {
    && Fits(ids, ptx) && |txs| == |ids| + |ptx| == |Slots(ids, ptx)| + |ptx|
    && (forall k :: 0 <= k < |ptx| ==> Positions(ptx)[k] < |txs| && txs[Positions(ptx)[k]] == ptx[k].tx)
    && (forall i :: 0 <= i < |ids| ==> Slots(ids, ptx)[i] < |txs| && ids[i] == sid(txs[Slots(ids, ptx)[i]]))
  }

  lemma CoinbaseEncodes(sid: TX -> nat, ids: seq<nat>, txs: seq<TX>)
    requires txs != [] && |ids| == |txs| - 1 && forall i :: 0 <= i < |ids| ==> ids[i] == sid(txs[i + 1])
    ensures Encodes(sid, ids, [Prefilled(0, txs[0])], txs)
  {
    var ptx := [Prefilled(0, txs[0])];
    assert Positions(ptx) == [0] by { assert ptx[..0] == []; }
    SlotCount(ids, ptx);
    FreeAfterFirst(|txs|, Taken(ptx));
  }

  lemma {:induction false} FreeAfterFirst(n: nat, taken: set<nat>)
    requires n > 0 && forall s :: s in taken <==> s == 0
    ensures |Free(n, taken)| == n - 1 && forall i :: 0 <= i < n - 1 ==> Free(n, taken)[i] == i + 1
  {
    if n > 1 {
      FreeAfterFirst(n - 1, taken);
    } else {
      assert Free(0, taken) == [];
    }
  }

  /** Nothing in the slots is wrong. */
  ghost predicate Agrees(available: seq<Option<TX>>, txs: seq<TX>) {
    |available| == |txs| && forall s :: 0 <= s < |txs| && available[s].Some? ==> available[s].value == txs[s]
  }

  lemma IdsDistinct(sid: TX -> nat, ids: seq<nat>, ptx: seq<Prefilled>, txs: seq<TX>)
    requires Encodes(sid, ids, ptx, txs) && Apart(sid, txs)
    ensures Distinct(ids)
  {
  }

  lemma PlacedAgrees(available: seq<Option<TX>>, sid: TX -> nat, ids: seq<nat>, ptx: seq<Prefilled>, txs: seq<TX>)
    requires Encodes(sid, ids, ptx, txs) && Placed(available, ids, ptx)
    ensures Agrees(available, txs)
  {
  }

  lemma MappedToEmpty(available: seq<Option<TX>>, idMap: map<nat, nat>, ids: seq<nat>, ptx: seq<Prefilled>)
    requires Placed(available, ids, ptx) && Mapped(idMap, ids, ptx)
    ensures forall id :: id in idMap ==> idMap[id] < |available| && available[idMap[id]] == None
    ensures forall id, other :: id in idMap && other in idMap && idMap[id] == idMap[other] ==> id == other
  {
  }

  /** What the pool filled in is what the block has there. */
  lemma PoolAgrees(before: seq<Option<TX>>, after: seq<Option<TX>>, idMap: map<nat, nat>, sid: TX -> nat,
                   ids: seq<nat>, ptx: seq<Prefilled>, txs: seq<TX>, mempool: seq<TX>)
    requires Encodes(sid, ids, ptx, txs) && Mapped(idMap, ids, ptx) && Agrees(before, txs)
    requires FilledFrom(before, after, idMap, sid, mempool)
    requires forall x, y :: x in txs && y in mempool && sid(x) == sid(y) ==> x == y
    ensures Agrees(after, txs)
  {
  }

  /** Sending a compact form of a block and answering one request gives the block,
      whatever the receiver has in its pool, as long as short ids do not collide.
      Which transactions were prefilled does not matter. */
  method Exchange(sid: TX -> nat, ids: seq<nat>, ptx: seq<Prefilled>, txs: seq<TX>, mempool: seq<TX>)
      returns (o: Outcome<seq<TX>>)
    requires txs != [] && !TooBig(|txs|) && Encodes(sid, ids, ptx, txs)
    requires Apart(sid, txs) && Apart(sid, mempool)
    requires forall x, y :: x in txs && y in mempool && sid(x) == sid(y) ==> x == y
    ensures o == Accept(txs)
  {
    hide Positions, Taken, Free, Placed, Mapped, FilledFrom, Slots, Apart;
    var cb := new CompactBlock(sid, ids, ptx);
    IdsDistinct(sid, ids, ptx, txs);
    var init := cb.Init();
    PlacedAgrees(cb.available, sid, ids, ptx, txs);
    MappedToEmpty(cb.available, cb.idMap, ids, ptx);
    ghost var before := cb.available;
    var full := cb.FillMempool(mempool);
    PoolAgrees(before, cb.available, cb.idMap, sid, ids, ptx, txs, mempool);
    if !full {
      ghost var partial := cb.available;
      var indexes := cb.ToRequest();
      MissingRises(cb.available);
      var ds := WriteIndexes(indexes);
      var read := ReadIndexes(ds);
      DeltasAgree(read.value, indexes, |indexes|);
      assert read.value == read.value[..|indexes|] == indexes[..|indexes|] == indexes;
      var res := Respond(txs, read.value);
      var ok := cb.FillMissing(res);
      ResponseAgrees(partial, cb.available, res, txs);
    }
    o := cb.ToBlock();
    assert o.value == txs;
  }

  lemma MissingRises(available: seq<Option<TX>>)
    ensures Rising(Missing(available))
  {
  }

  lemma ResponseAgrees(before: seq<Option<TX>>, after: seq<Option<TX>>, res: seq<TX>, txs: seq<TX>)
    requires Agrees(before, txs) && |after| == |before| && |res| == |Missing(before)|
    requires forall s :: 0 <= s < |after| && before[s].Some? ==> after[s] == before[s]
    requires forall k :: 0 <= k < |res| ==> after[Missing(before)[k]] == Some(res[k]) && res[k] == txs[Missing(before)[k]]
    ensures Agrees(after, txs)
  {
    hide Free;
    forall s | 0 <= s < |txs| && before[s].None? && after[s].Some? ensures after[s].value == txs[s] {
      FreeAll(|before|, Filled(before), s);
      var k :| 0 <= k < |Missing(before)| && Missing(before)[k] == s;
    }
  }
}
