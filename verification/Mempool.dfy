/**
 The memory pool: what is tracked, what eviction removes, and how the size is
 kept below its limit.
 */
module Mempool {
  import opened Primitives
  import opened Sums

  /** `usage` is the estimated memory of an entry and `time` when it came. */
  datatype Entry = Entry(tx: TX, usage: nat, time: nat)

  datatype ClaimEntry = ClaimEntry(nameHash: Hash, usage: nat)

  datatype AirdropEntry = AirdropEntry(position: nat, usage: nat)

  type Entries = map<Hash, Entry>

  /** A hash commits to the transactions it spends, so spending is well-founded:
      `order` is any function that grows from parent to child. */
  predicate Ordered(order: Hash -> nat, tx: TX) {
    forall i :: 0 <= i < |tx.inputs| ==> order(tx.inputs[i].prevout.hash) < order(tx.hash)
  }

  predicate Spends(tx: TX, hash: Hash) {
    exists i :: 0 <= i < |tx.inputs| && tx.inputs[i].prevout.hash == hash
  }

  /** An entry that spends nothing in the pool. */
  predicate IsRoot(entries: Entries, tx: TX) {
    forall i :: 0 <= i < |tx.inputs| ==> tx.inputs[i].prevout.hash !in entries
  }

  ghost predicate WellFormed(order: Hash -> nat, entries: Entries) {
    && (forall h :: h in entries ==>
          entries[h].tx.hash == h && !entries[h].tx.IsCoinbase() && Ordered(order, entries[h].tx))
    && (forall h, i :: h in entries && 0 <= i < |entries[h].tx.inputs| ==>
          var op := entries[h].tx.inputs[i].prevout;
          op.hash in entries ==> op.index < |entries[op.hash].tx.outputs|)
  }

  /** The outpoint is among the first k inputs. */
  predicate SpendsPoint(tx: TX, k: nat, op: Outpoint)
    requires k <= |tx.inputs|
  {
    exists i :: 0 <= i < k && tx.inputs[i].prevout == op
  }

  /** `spents` is the inverse of the inputs: nothing is spent twice. */
  ghost predicate Inverse(entries: Entries, spents: map<Outpoint, Hash>) {
    && (forall h, i :: h in entries && 0 <= i < |entries[h].tx.inputs| ==>
          entries[h].tx.inputs[i].prevout in spents && spents[entries[h].tx.inputs[i].prevout] == h)
    && (forall op :: op in spents ==>
          spents[op] in entries && SpendsPoint(entries[spents[op]].tx, |entries[spents[op]].tx.inputs|, op))
  }

  /** h is `root`, or spends something under it. */
  ghost predicate Under(order: Hash -> nat, entries: Entries, root: Hash, h: Hash)
    decreases order(h)
  {
    h == root || exists p :: StrictChild(order, entries, p, h) && Under(order, entries, root, p)
  }

  /** p and h are in the pool and h spends p. */
  ghost predicate StrictChild(order: Hash -> nat, entries: Entries, p: Hash, h: Hash) {
    p in entries && h in entries && Spends(entries[h].tx, p) && order(p) < order(h)
  }

  /** The entry and its transitive spenders. */
  ghost function Package(order: Hash -> nat, entries: Entries, root: Hash): (s: set<Hash>)
  {
    set h | h in entries && Under(order, entries, root, h)
  }

  lemma {:induction false} UnderTransitive(order: Hash -> nat, entries: Entries, a: Hash, b: Hash, c: Hash)
    requires Under(order, entries, a, b) && Under(order, entries, b, c)
    ensures Under(order, entries, a, c)
    decreases order(c)
  {
    if c != b {
      var p :| StrictChild(order, entries, p, c) && Under(order, entries, b, p);
      UnderTransitive(order, entries, a, b, p);
    }
  }

  lemma {:induction false} UnderGrows(order: Hash -> nat, fewer: Entries, more: Entries, root: Hash, h: Hash)
    requires fewer.Keys <= more.Keys && forall k :: k in fewer ==> fewer[k] == more[k]
    requires Under(order, fewer, root, h)
    ensures Under(order, more, root, h)
    decreases order(h)
  {
    if h != root {
      var p :| StrictChild(order, fewer, p, h) && Under(order, fewer, root, p);
      UnderGrows(order, fewer, more, root, p);
      assert StrictChild(order, more, p, h);
    }
  }

  lemma {:induction false} UnderIsLater(order: Hash -> nat, entries: Entries, root: Hash, h: Hash)
    requires Under(order, entries, root, h)
    ensures h == root || order(root) < order(h)
    decreases order(h)
  {
    if h != root {
      var p :| StrictChild(order, entries, p, h) && Under(order, entries, root, p);
      UnderIsLater(order, entries, root, p);
    }
  }

  /** What is left after removing some entries, none of them leaving a spender
      behind. */
  ghost predicate Remains(before: Entries, after: Entries) {
    && after.Keys <= before.Keys && (forall h :: h in after ==> after[h] == before[h])
    && (forall h, i :: h in after && 0 <= i < |after[h].tx.inputs| ==>
          var p := after[h].tx.inputs[i].prevout.hash;
          p in before ==> p in after)
  }

  /** Once `root` is gone and no spender of a removed entry is left, everything
      under `root` is gone. */
  lemma {:induction false} NothingLeft(order: Hash -> nat, before: Entries, after: Entries, root: Hash, h: Hash)
    requires Remains(before, after) && root !in after && Under(order, before, root, h)
    ensures h !in after
    decreases order(h)
  {
    if h != root {
      var p :| StrictChild(order, before, p, h) && Under(order, before, root, p);
      NothingLeft(order, before, after, root, p);
    }
  }

  // ---------------------------------------------------------------------
  // Tracking
  // ---------------------------------------------------------------------

  function EntryUsage(e: Entry): int { e.usage }

  function ClaimUsage(e: ClaimEntry): int { e.usage }

  function AirdropUsage(e: AirdropEntry): int { e.usage }

  /** The entry's outpoints are removed from the spent map, one by one. */
  function Unspent(spents: map<Outpoint, Hash>, tx: TX, k: nat): map<Outpoint, Hash>
    requires k <= |tx.inputs|
  {
    if k == 0 then spents else Unspent(spents, tx, k - 1) - {tx.inputs[k - 1].prevout}
  }

  function AllSpent(spents: map<Outpoint, Hash>, tx: TX, k: nat): map<Outpoint, Hash>
    requires k <= |tx.inputs|
  {
    if k == 0 then spents else AllSpent(spents, tx, k - 1)[tx.inputs[k - 1].prevout := tx.hash]
  }

  lemma {:induction false} UnspentIs(spents: map<Outpoint, Hash>, tx: TX, k: nat)
    requires k <= |tx.inputs|
    ensures forall op :: op in Unspent(spents, tx, k) <==> op in spents && !SpendsPoint(tx, k, op)
    ensures forall op :: op in Unspent(spents, tx, k) ==> Unspent(spents, tx, k)[op] == spents[op]
  {
    if k > 0 { UnspentIs(spents, tx, k - 1); }
  }

  lemma {:induction false} AllSpentIs(spents: map<Outpoint, Hash>, tx: TX, k: nat)
    requires k <= |tx.inputs|
    ensures forall op :: op in AllSpent(spents, tx, k) <==> op in spents || SpendsPoint(tx, k, op)
    ensures forall op :: op in AllSpent(spents, tx, k) ==>
              AllSpent(spents, tx, k)[op] == if SpendsPoint(tx, k, op) then tx.hash else spents[op]
  {
    if k > 0 { AllSpentIs(spents, tx, k - 1); }
  }

  lemma UntrackKeepsInverse(entries: Entries, spents: map<Outpoint, Hash>, h: Hash)
    requires Inverse(entries, spents) && h in entries
    ensures Inverse(entries - {h}, Unspent(spents, entries[h].tx, |entries[h].tx.inputs|))
  {
    var tx := entries[h].tx;
    UnspentIs(spents, tx, |tx.inputs|);
  }

  lemma TrackKeepsInverse(entries: Entries, spents: map<Outpoint, Hash>, e: Entry)
    requires Inverse(entries, spents) && e.tx.hash !in entries
    requires forall i :: 0 <= i < |e.tx.inputs| ==> e.tx.inputs[i].prevout !in spents
    ensures Inverse(entries[e.tx.hash := e], AllSpent(spents, e.tx, |e.tx.inputs|))
  {
    var entries', spents' := entries[e.tx.hash := e], AllSpent(spents, e.tx, |e.tx.inputs|);
    AllSpentIs(spents, e.tx, |e.tx.inputs|);
    forall op | op in spents'
      ensures spents'[op] in entries'
              && SpendsPoint(entries'[spents'[op]].tx, |entries'[spents'[op]].tx.inputs|, op)
    {
      if !SpendsPoint(e.tx, |e.tx.inputs|, op) {
        assert spents'[op] == spents[op] && entries'[spents[op]] == entries[spents[op]];
      }
    }
  }

  ghost function Later(order: Hash -> nat, entries: Entries, hash: Hash): set<Hash> {
    set h | h in entries && order(h) > order(hash)
  }

  lemma LaterShrinks(order: Hash -> nat, before: Entries, after: Entries, hash: Hash, child: Hash)
    requires after.Keys <= before.Keys && child in after && order(hash) < order(child)
    ensures Later(order, after, child) < Later(order, before, hash)
  {
    assert child in Later(order, before, hash) && child !in Later(order, after, child);
  }

  lemma SpenderSpends(order: Hash -> nat, entries: Entries, spents: map<Outpoint, Hash>, op: Outpoint)
    requires WellFormed(order, entries) && Inverse(entries, spents) && op in spents
    ensures spents[op] in entries && Spends(entries[spents[op]].tx, op.hash)
    ensures entries[spents[op]].tx.hash == spents[op] && order(op.hash) < order(spents[op])
  {
  }

  lemma SelfUnder(order: Hash -> nat, entries: Entries, h: Hash)
    ensures Under(order, entries, h, h)
  {
  }

  /** Removing the package of a child removes only what is under its parent. */
  lemma RemovedUnder(order: Hash -> nat, first: Entries, before: Entries, after: Entries, hash: Hash, child: Hash)
    requires Remains(first, before) && hash in first && child in before
    requires StrictChild(order, first, hash, child)
    requires after == before - Package(order, before, child)
    requires first.Keys - before.Keys <= Package(order, first, hash)
    ensures first.Keys - after.Keys <= Package(order, first, hash)
    ensures order(hash) < order(child) && hash in before ==> hash in after
  {
    hide Under;
    ChildUnder(order, first, hash, child);
    forall h | h in first && h !in after ensures Under(order, first, hash, h) {
      if h in before {
        assert h in Package(order, before, child);
        UnderGrows(order, before, first, child, h);
        UnderTransitive(order, first, hash, child, h);
      } else {
        assert h in first.Keys - before.Keys;
      }
    }
    if hash in before && Under(order, before, child, hash) {
      UnderIsLater(order, before, child, hash);
    }
  }

  /** Fewer entries spend fewer outpoints. */
  lemma SpentShrinks(order: Hash -> nat, before: Entries, points: map<Outpoint, Hash>, after: Entries,
                     left: map<Outpoint, Hash>, op: Outpoint)
    requires Inverse(before, points) && Inverse(after, left) && op in points && points[op] !in after
    requires forall h :: h in after ==> h in before && after[h] == before[h]
    ensures op !in left && left.Keys <= points.Keys
  {
  }

  lemma RemainsAll(entries: Entries)
    ensures Remains(entries, entries)
  {
  }

  lemma RemainsSame(before: Entries, after: Entries, h: Hash)
    requires Remains(before, after) && h in after
    ensures h in before && after[h] == before[h]
  {
  }

  /** The spender found for an outpoint is an entry to evict, later than its parent. */
  lemma SpenderStands(order: Hash -> nat, first: Entries, entries: Entries, spents: map<Outpoint, Hash>, op: Outpoint)
    requires WellFormed(order, entries) && Inverse(entries, spents) && op in spents
    requires Remains(first, entries) && op.hash in first
    ensures var child := spents[op];
            && child in entries && entries[child].tx.hash == child
            && StrictChild(order, first, op.hash, child)
            && Later(order, entries, child) < Later(order, first, op.hash)
  {
    hide Later;
    SpenderSpends(order, entries, spents, op);
    LaterShrinks(order, first, entries, op.hash, spents[op]);
  }

  /** What is known once its package is gone. */
  lemma SpenderGone(order: Hash -> nat, first: Entries, before: Entries, points: map<Outpoint, Hash>, after: Entries,
                    left: map<Outpoint, Hash>, op: Outpoint)
    requires Inverse(before, points) && Inverse(after, left) && op in points && points[op] in before
    requires Remains(first, before) && Remains(before, after) && op.hash in before
    requires StrictChild(order, first, op.hash, points[op])
    requires after == before - Package(order, before, points[op]) && points[op] !in after
    requires first.Keys - before.Keys <= Package(order, first, op.hash)
    ensures Remains(first, after) && op.hash in after
    ensures first.Keys - after.Keys <= Package(order, first, op.hash)
    ensures op !in left && left.Keys <= points.Keys
  {
    hide Inverse, Package;
    RemovedUnder(order, first, before, after, op.hash, points[op]);
    SpentShrinks(order, before, points, after, left, op);
  }

  lemma ChildUnder(order: Hash -> nat, entries: Entries, p: Hash, h: Hash)
    requires StrictChild(order, entries, p, h)
    ensures Under(order, entries, p, h)
  {
  }

  ghost function Usage(entries: Entries, claims: map<Hash, ClaimEntry>, airdrops: map<Hash, AirdropEntry>): int {
    Sum(entries, EntryUsage) + Sum(claims, ClaimUsage) + Sum(airdrops, AirdropUsage)
  }

  /** Claims and airdrops are found by name and by position. */
  ghost predicate Indexed(claims: map<Hash, ClaimEntry>, claimNames: map<Hash, Hash>,
                          airdrops: map<Hash, AirdropEntry>, airdropIndex: map<nat, Hash>)
  {
    && (forall h :: h in claims ==> claims[h].nameHash in claimNames && claimNames[claims[h].nameHash] == h)
    && (forall n :: n in claimNames ==> claimNames[n] in claims && claims[claimNames[n]].nameHash == n)
    && (forall h :: h in airdrops ==>
          airdrops[h].position in airdropIndex && airdropIndex[airdrops[h].position] == h)
    && (forall p :: p in airdropIndex ==> airdropIndex[p] in airdrops && airdrops[airdropIndex[p]].position == p)
  }

  /** Entries under a root that came too long ago. */
  ghost function Expired(order: Hash -> nat, entries: Entries, expiryTime: nat, now: nat): set<Hash> {
    set h | h in entries && ExpiredWith(order, entries, expiryTime, now, h)
  }

  ghost predicate ExpiredWith(order: Hash -> nat, entries: Entries, expiryTime: nat, now: nat, h: Hash) {
    exists r :: r in entries && IsRoot(entries, entries[r].tx) && now >= entries[r].time + expiryTime
                && Under(order, entries, r, h)
  }

  lemma ExpiredIsIn(order: Hash -> nat, entries: Entries, expiryTime: nat, now: nat)
    ensures Expired(order, entries, expiryTime, now) <= entries.Keys
  {
  }

  lemma RootsRemain(before: Entries, after: Entries)
    requires Remains(before, after)
    ensures forall h :: h in after && IsRoot(after, after[h].tx) ==> IsRoot(before, before[h].tx)
    ensures forall h :: h in after && IsRoot(before, before[h].tx) ==> IsRoot(after, after[h].tx)
  {
  }

  /** What goes with an expired root was expired to begin with. */
  lemma ExpiredRoot(order: Hash -> nat, first: Entries, before: Entries, after: Entries, expiryTime: nat, now: nat,
                    e: Entry)
    requires Remains(first, before) && e.tx.hash in before && before[e.tx.hash] == e
    requires IsRoot(before, e.tx) && now >= e.time + expiryTime
    requires after == before - Package(order, before, e.tx.hash)
    requires first.Keys - before.Keys <= Expired(order, first, expiryTime, now)
    ensures first.Keys - after.Keys <= Expired(order, first, expiryTime, now)
  {
    hide Under;
    RootsRemain(first, before);
    forall h | h in first && h !in after ensures ExpiredWith(order, first, expiryTime, now, h) {
      if h in before {
        assert h in Package(order, before, e.tx.hash);
        UnderGrows(order, before, first, e.tx.hash, h);
      } else {
        assert h in first.Keys - before.Keys;
      }
    }
  }

  /** When no stale root is left, nothing under a stale root is. */
  lemma AllExpired(order: Hash -> nat, first: Entries, after: Entries, expiryTime: nat, now: nat)
    requires Remains(first, after)
    requires first.Keys - after.Keys <= Expired(order, first, expiryTime, now)
    requires forall h :: h in after && IsRoot(after, after[h].tx) ==> now < after[h].time + expiryTime
    ensures after == first - Expired(order, first, expiryTime, now)
  {
    RootsRemain(first, after);
    forall h | h in Expired(order, first, expiryTime, now) ensures h !in after {
      var r :| r in first && IsRoot(first, first[r].tx) && now >= first[r].time + expiryTime
               && Under(order, first, r, h);
      NothingLeft(order, first, after, r, h);
    }
  }

  method First<T>(s: set<T>) returns (x: T)
    requires s != {}
    ensures x in s
  {
    x :| x in s;
  }

  /** Roots have nothing to do with each other's packages. */
  lemma OtherRootsStay(order: Hash -> nat, entries: Entries, root: Hash)
    ensures forall h :: h in entries && h != root && IsRoot(entries, entries[h].tx) ==>
              h !in Package(order, entries, root)
  {
  }

  /** Following parents ends at a root. */
  lemma {:induction false} HasRoot(order: Hash -> nat, entries: Entries, h: Hash)
    requires WellFormed(order, entries) && h in entries
    ensures exists r :: r in entries && IsRoot(entries, entries[r].tx)
    decreases order(h)
  {
    if !IsRoot(entries, entries[h].tx) {
      var i :| 0 <= i < |entries[h].tx.inputs| && entries[h].tx.inputs[i].prevout.hash in entries;
      HasRoot(order, entries, entries[h].tx.inputs[i].prevout.hash);
    }
  }

  lemma NoRootNoEntry(order: Hash -> nat, entries: Entries)
    requires WellFormed(order, entries)
    requires forall h :: h in entries ==> !IsRoot(entries, entries[h].tx)
    ensures entries == map[]
  {
    if h :| h in entries {
      HasRoot(order, entries, h);
    }
  }

  // ---------------------------------------------------------------------
  // What eviction leaves
  // ---------------------------------------------------------------------

  /** The entries that are under none of the roots. */
  ghost function Without(order: Hash -> nat, entries: Entries, roots: seq<Hash>): Entries {
    map h | h in entries && forall i :: 0 <= i < |roots| ==> !Under(order, entries, roots[i], h) :: entries[h]
  }

  function Fewer<T>(m: map<Hash, T>, gone: seq<Hash>): map<Hash, T> {
    map h | h in m && h !in gone :: m[h]
  }

  ghost predicate Above(maxSize: nat, entries: Entries, claims: map<Hash, ClaimEntry>, airdrops: map<Hash, AirdropEntry>) {
    10 * Usage(entries, claims, airdrops) > 9 * maxSize
  }

  /** Roots go one after the other, each with its package, and each from a pool
      that is still above nine tenths of the limit. */
  ghost predicate RootsGone(order: Hash -> nat, maxSize: nat, entries: Entries, claims: map<Hash, ClaimEntry>,
                            airdrops: map<Hash, AirdropEntry>, gone: seq<Hash>) {
    forall i :: 0 <= i < |gone| ==>
      && gone[i] in Without(order, entries, gone[..i]) && IsRoot(entries, entries[gone[i]].tx)
      && Above(maxSize, Without(order, entries, gone[..i]), claims, airdrops)
  }

  ghost predicate ClaimsGone(maxSize: nat, claims: map<Hash, ClaimEntry>, airdrops: map<Hash, AirdropEntry>,
                             gone: seq<Hash>) {
    forall i :: 0 <= i < |gone| ==>
      gone[i] in Fewer(claims, gone[..i]) && Above(maxSize, map[], Fewer(claims, gone[..i]), airdrops)
  }

  ghost predicate AirdropsGone(maxSize: nat, airdrops: map<Hash, AirdropEntry>, gone: seq<Hash>) {
    forall i :: 0 <= i < |gone| ==>
      gone[i] in Fewer(airdrops, gone[..i]) && Above(maxSize, map[], map[], Fewer(airdrops, gone[..i]))
  }

  /** No more went than had to: roots with their packages, then claims once no
      transaction was left, then airdrops once no claim was left, and each from a
      pool that was still too large. */
  ghost predicate Needed(order: Hash -> nat, maxSize: nat,
                         entries: Entries, claims: map<Hash, ClaimEntry>, airdrops: map<Hash, AirdropEntry>,
                         entries': Entries, claims': map<Hash, ClaimEntry>, airdrops': map<Hash, AirdropEntry>) {
    exists r, c, a ::
      && entries' == Without(order, entries, r) && RootsGone(order, maxSize, entries, claims, airdrops, r)
      && claims' == Fewer(claims, c) && ClaimsGone(maxSize, claims, airdrops, c)
      && airdrops' == Fewer(airdrops, a) && AirdropsGone(maxSize, airdrops, a)
      && (c != [] ==> entries' == map[])
      && (a != [] ==> entries' == map[] && claims' == map[])
  }

  lemma {:induction false} UnderStays(order: Hash -> nat, before: Entries, after: Entries, root: Hash, h: Hash)
    requires Remains(before, after) && h in after
    ensures Under(order, after, root, h) <==> Under(order, before, root, h)
    decreases order(h)
  {
    if Under(order, after, root, h) {
      UnderGrows(order, after, before, root, h);
    } else if h != root && Under(order, before, root, h) {
      var p :| StrictChild(order, before, p, h) && Under(order, before, root, p);
      UnderStays(order, before, after, root, p);
      assert StrictChild(order, after, p, h);
    }
  }

  lemma WithoutNone(order: Hash -> nat, entries: Entries)
    ensures Without(order, entries, []) == entries
  {
  }

  /** One more root. */
  lemma WithoutMore(order: Hash -> nat, entries: Entries, gone: seq<Hash>, root: Hash)
    requires Remains(entries, Without(order, entries, gone))
    ensures var left := Without(order, entries, gone);
            Without(order, entries, gone + [root]) == left - Package(order, left, root)
  {
    var left, all := Without(order, entries, gone), gone + [root];
    hide Under;
    assert forall i :: 0 <= i < |gone| ==> all[i] == gone[i];
    assert all[|gone|] == root;
    forall h | h in left ensures Under(order, left, root, h) <==> Under(order, entries, root, h) {
      UnderStays(order, entries, left, root, h);
    }
    forall h | h in entries
      ensures h in Without(order, entries, all) <==> h in left && !Under(order, entries, root, h)
    {
      if h in left && !Under(order, entries, root, h) {
        forall i | 0 <= i < |all| ensures !Under(order, entries, all[i], h) {}
      }
    }
  }

  lemma RootsMore(order: Hash -> nat, maxSize: nat, entries: Entries, claims: map<Hash, ClaimEntry>,
                  airdrops: map<Hash, AirdropEntry>, gone: seq<Hash>, root: Hash)
    requires RootsGone(order, maxSize, entries, claims, airdrops, gone)
    requires root in Without(order, entries, gone) && IsRoot(entries, entries[root].tx)
    requires Above(maxSize, Without(order, entries, gone), claims, airdrops)
    ensures RootsGone(order, maxSize, entries, claims, airdrops, gone + [root])
  {
    hide Without, Above, IsRoot;
    var all := gone + [root];
    forall i | 0 <= i < |all| ensures all[..i] == gone[..i] {}
    assert gone[..|gone|] == gone;
  }

  lemma FewerMore<T>(m: map<Hash, T>, gone: seq<Hash>, h: Hash)
    ensures Fewer(m, []) == m && Fewer(m, gone + [h]) == Fewer(m, gone) - {h}
  {
  }

  lemma ClaimsMore(maxSize: nat, claims: map<Hash, ClaimEntry>, airdrops: map<Hash, AirdropEntry>, gone: seq<Hash>,
                   h: Hash)
    requires ClaimsGone(maxSize, claims, airdrops, gone)
    requires h in Fewer(claims, gone) && Above(maxSize, map[], Fewer(claims, gone), airdrops)
    ensures ClaimsGone(maxSize, claims, airdrops, gone + [h])
  {
    hide Fewer, Above;
    var all := gone + [h];
    forall i | 0 <= i < |all| ensures all[..i] == gone[..i] {}
    assert gone[..|gone|] == gone;
  }

  lemma AirdropsMore(maxSize: nat, airdrops: map<Hash, AirdropEntry>, gone: seq<Hash>, h: Hash)
    requires AirdropsGone(maxSize, airdrops, gone)
    requires h in Fewer(airdrops, gone) && Above(maxSize, map[], map[], Fewer(airdrops, gone))
    ensures AirdropsGone(maxSize, airdrops, gone + [h])
  {
    hide Fewer, Above;
    var all := gone + [h];
    forall i | 0 <= i < |all| ensures all[..i] == gone[..i] {}
    assert gone[..|gone|] == gone;
  }

  class Pool {
    ghost const order: Hash -> nat
    const maxSize: nat
    const expiryTime: nat
    var entries: Entries
    var spents: map<Outpoint, Hash>
    var claims: map<Hash, ClaimEntry>
    var claimNames: map<Hash, Hash>
    var airdrops: map<Hash, AirdropEntry>
    var airdropIndex: map<nat, Hash>
    var size: int

    ghost predicate Valid()
      reads this
    {
      && WellFormed(order, entries) && Inverse(entries, spents)
      && Indexed(claims, claimNames, airdrops, airdropIndex) && size == Usage(entries, claims, airdrops)
    }

    constructor (ghost order: Hash -> nat, maxSize: nat, expiryTime: nat)
      ensures Valid() && entries == map[] && this.order == order && this.maxSize == maxSize
      ensures this.expiryTime == expiryTime && spents == map[] && claims == map[] && airdrops == map[]
    {
      this.order, this.maxSize, this.expiryTime := order, maxSize, expiryTime;
      entries, spents, claims, claimNames := map[], map[], map[], map[];
      airdrops, airdropIndex, size := map[], map[], 0;
    }

    /** What `insertTX` has checked before it tracks an entry, and what spending
        transactions already here have had checked about its outputs. */
    ghost predicate CanTrack(e: Entry)
      reads this
    {
      && e.tx.hash !in entries && !e.tx.IsCoinbase() && Ordered(order, e.tx)
      && (forall i :: 0 <= i < |e.tx.inputs| ==>
            var op := e.tx.inputs[i].prevout;
            op !in spents && (op.hash in entries ==> op.index < |entries[op.hash].tx.outputs|))
      && (forall h, i :: h in entries && 0 <= i < |entries[h].tx.inputs| ==>
            var op := entries[h].tx.inputs[i].prevout;
            op.hash == e.tx.hash ==> op.index < |e.tx.outputs|)
    }

    lemma TrackKeepsWellFormed(e: Entry)
      requires Valid() && CanTrack(e)
      ensures WellFormed(order, entries[e.tx.hash := e]) && e.tx.hash !in entries
      ensures forall i :: 0 <= i < |e.tx.inputs| ==> e.tx.inputs[i].prevout !in spents
    {
      hide Sum, Indexed, Inverse;
    }

    method MarkSpent(tx: TX)
      modifies this`spents
      ensures spents == AllSpent(old(spents), tx, |tx.inputs|)
    {
      for i := 0 to |tx.inputs|
        invariant spents == AllSpent(old(spents), tx, i)
      {
        spents := spents[tx.inputs[i].prevout := tx.hash];
      }
    }

    method MarkUnspent(tx: TX)
      modifies this`spents
      ensures spents == Unspent(old(spents), tx, |tx.inputs|)
    {
      for i := 0 to |tx.inputs|
        invariant spents == Unspent(old(spents), tx, i)
      {
        spents := spents - {tx.inputs[i].prevout};
      }
    }

    method TrackEntry(e: Entry)
      requires Valid() && CanTrack(e)
      modifies this`entries, this`spents, this`size
      ensures Valid() && entries == old(entries)[e.tx.hash := e]
    {
      hide Sum, Inverse, WellFormed, Indexed, CanTrack, AllSpent;
      TrackKeepsWellFormed(e);
      TrackKeepsInverse(entries, spents, e);
      SumWith(entries, EntryUsage, e.tx.hash, e);
      entries := entries[e.tx.hash := e];
      MarkSpent(e.tx);
      size := size + e.usage;
    }

    method UntrackEntry(e: Entry)
      requires Valid() && e.tx.hash in entries && entries[e.tx.hash] == e
      modifies this`entries, this`spents, this`size
      ensures Valid() && entries == old(entries) - {e.tx.hash}
    {
      hide Sum, Inverse, Indexed, SpendsPoint, Unspent, Spends;
      UntrackKeepsInverse(entries, spents, e.tx.hash);
      SumWithout(entries, EntryUsage, e.tx.hash);
      entries := entries - {e.tx.hash};
      MarkUnspent(e.tx);
      size := size - e.usage;
    }

    /** Everything that spends the entry, directly or not, goes. */
    method RemoveSpenders(e: Entry)
      requires Valid() && e.tx.hash in entries && entries[e.tx.hash] == e
      modifies this`entries, this`spents, this`size
      ensures Valid() && Remains(old(entries), entries) && e.tx.hash in entries
      ensures forall h :: h in entries ==> !Spends(entries[h].tx, e.tx.hash)
      ensures old(entries).Keys - entries.Keys <= Package(order, old(entries), e.tx.hash)
      decreases Later(order, entries, e.tx.hash), 0
    {
      hide Sum, Inverse, Package, Indexed, Spends, Later, Usage, WellFormed, Remains, StrictChild;
      RemainsAll(entries);
      var hash := e.tx.hash;
      var i := 0;
      while i < |e.tx.outputs|
        invariant 0 <= i <= |e.tx.outputs|
        invariant Valid() && Remains(old(entries), entries) && hash in entries
        invariant forall j :: 0 <= j < i ==> Outpoint(hash, j) !in spents
        invariant old(entries).Keys - entries.Keys <= Package(order, old(entries), hash)
      {
        if Outpoint(hash, i) in spents {
          ghost var before, points := entries, spents;
          var child := spents[Outpoint(hash, i)];
          SpenderStands(order, old(entries), entries, spents, Outpoint(hash, i));
          EvictEntry(entries[child]);
          SpenderGone(order, old(entries), before, points, entries, spents, Outpoint(hash, i));
        }
        i := i + 1;
      }
      RemainsSame(old(entries), entries, hash);
      NoSpenderLeft(e);
    }

    /** An entry goes after its spenders. */
    method EvictEntry(e: Entry)
      requires Valid() && e.tx.hash in entries && entries[e.tx.hash] == e
      modifies this`entries, this`spents, this`size
      ensures Valid() && Remains(old(entries), entries)
      ensures entries == old(entries) - Package(order, old(entries), e.tx.hash) && e.tx.hash !in entries
      decreases Later(order, entries, e.tx.hash), 1
    {
      hide Sum, Inverse, WellFormed, Indexed, Later, Usage, Under;
      RemoveSpenders(e);
      UntrackEntry(e);
      assert Under(order, old(entries), e.tx.hash, e.tx.hash) by { SelfUnder(order, old(entries), e.tx.hash); }
      forall h | h in Package(order, old(entries), e.tx.hash) ensures h !in entries {
        NothingLeft(order, old(entries), entries, e.tx.hash, h);
      }
    }

    lemma NoSpenderLeft(e: Entry)
      requires Valid() && e.tx.hash in entries && entries[e.tx.hash] == e
      requires forall j :: 0 <= j < |e.tx.outputs| ==> Outpoint(e.tx.hash, j) !in spents
      ensures forall h :: h in entries ==> !Spends(entries[h].tx, e.tx.hash)
    {
    }
  
    method TrackClaim(hash: Hash, e: ClaimEntry)
      requires Valid() && hash !in claims && e.nameHash !in claimNames
      modifies this`claims, this`claimNames, this`size
      ensures Valid() && claims == old(claims)[hash := e]
    {
      hide Sum, WellFormed, Inverse;
      SumWith(claims, ClaimUsage, hash, e);
      claims := claims[hash := e];
      claimNames := claimNames[e.nameHash := hash];
      size := size + e.usage;
    }

    method UntrackClaim(hash: Hash)
      requires Valid() && hash in claims
      modifies this`claims, this`claimNames, this`size
      ensures Valid() && claims == old(claims) - {hash}
    {
      hide Sum, WellFormed, Inverse;
      SumWithout(claims, ClaimUsage, hash);
      assert claims[hash].nameHash in claimNames;
      var e := claims[hash];
      claims := claims - {hash};
      claimNames := claimNames - {e.nameHash};
      size := size - e.usage;
    }

    method TrackAirdrop(hash: Hash, e: AirdropEntry)
      requires Valid() && hash !in airdrops && e.position !in airdropIndex
      modifies this`airdrops, this`airdropIndex, this`size
      ensures Valid() && airdrops == old(airdrops)[hash := e]
    {
      hide Sum, WellFormed, Inverse;
      SumWith(airdrops, AirdropUsage, hash, e);
      airdrops := airdrops[hash := e];
      airdropIndex := airdropIndex[e.position := hash];
      size := size + e.usage;
    }

    method UntrackAirdrop(hash: Hash)
      requires Valid() && hash in airdrops
      modifies this`airdrops, this`airdropIndex, this`size
      ensures Valid() && airdrops == old(airdrops) - {hash}
    {
      hide Sum, WellFormed, Inverse;
      SumWithout(airdrops, AirdropUsage, hash);
      assert airdrops[hash].position in airdropIndex;
      var e := airdrops[hash];
      airdrops := airdrops - {hash};
      airdropIndex := airdropIndex - {e.position};
      size := size - e.usage;
    }

    // -------------------------------------------------------------------
    // Limiting the size
    // -------------------------------------------------------------------

    predicate Stale(e: Entry, now: nat) {
      now >= e.time + expiryTime
    }

    /** Below nine tenths of the limit. */
    predicate Low()
      reads this`size
    {
      10 * size <= 9 * maxSize
    }

    predicate Tracked(hash: Hash)
      reads this
    {
      hash in entries || hash in claims || hash in airdrops
    }

    /** Every root that came too long ago goes with everything under it, and
        nothing else does. */
    method EvictExpired(keys: seq<Hash>, now: nat)
      requires Valid() && forall h :: h in entries ==> h in keys
      modifies this`entries, this`spents, this`size
      ensures Valid() && Remains(old(entries), entries)
      ensures entries == old(entries) - Expired(order, old(entries), expiryTime, now)
    {
      hide Sum, WellFormed, Inverse, Indexed, Usage, Package, Expired, IsRoot;
      ghost var start := entries;
      ExpiredIsIn(order, start, expiryTime, now);
      for k := 0 to |keys|
        invariant Valid() && Remains(start, entries)
        invariant start.Keys - entries.Keys <= Expired(order, start, expiryTime, now)
        invariant forall i :: 0 <= i < k && keys[i] in entries && IsRoot(entries, entries[keys[i]].tx) ==>
                    !Stale(entries[keys[i]], now)
      {
        if keys[k] in entries {
          var e := entries[keys[k]];
          if IsRoot(entries, e.tx) && Stale(e, now) {
            ghost var before := entries;
            KeyOf(keys[k]);
            EvictEntry(e);
            ExpiredRoot(order, start, before, entries, expiryTime, now, e);
            RootsRemain(before, entries);
          }
        }
      }
      AllExpired(order, start, entries, expiryTime, now);
    }

    lemma KeyOf(h: Hash)
      requires Valid() && h in entries
      ensures entries[h].tx.hash == h
    {
    }
  
    /** Roots are evicted, cheapest first, until the pool is low. */
    method EvictRoots(keys: seq<Hash>) returns (low: bool, ghost gone: seq<Hash>)
      requires Valid() && forall h :: h in entries ==> h in keys
      modifies this`entries, this`spents, this`size
      ensures Valid() && Remains(old(entries), entries)
      ensures low == Low() && (!low ==> entries == map[])
      ensures entries == Without(order, old(entries), gone)
      ensures RootsGone(order, maxSize, old(entries), claims, airdrops, gone)
    {
      hide Sum, WellFormed, Inverse, Indexed, Usage, Package, IsRoot, Without, RootsGone;
      var queue: set<Hash> := {};
      gone := [];
      WithoutNone(order, entries);
      NoRootsGone(entries);
      for k := 0 to |keys|
        invariant forall h :: h in queue <==> h in keys[..k] && h in entries && IsRoot(entries, entries[h].tx)
      {
        if keys[k] in entries && IsRoot(entries, entries[keys[k]].tx) {
          queue := queue + {keys[k]};
        }
      }
      assert keys[..|keys|] == keys;
      if Low() {
        return true, [];
      }
      while queue != {}
        invariant Valid() && Remains(old(entries), entries) && !Low()
        invariant forall h :: h in queue <==> h in entries && IsRoot(entries, entries[h].tx)
        invariant entries == Without(order, old(entries), gone)
        invariant RootsGone(order, maxSize, old(entries), claims, airdrops, gone)
        decreases |queue|
      {
        var hash := First(queue);
        queue := queue - {hash};
        assert hash in entries;
        ghost var before := entries;
        KeyOf(hash);
        RootsRemain(old(entries), before);
        TooLarge();
        RootsMore(order, maxSize, old(entries), claims, airdrops, gone, hash);
        WithoutMore(order, old(entries), gone, hash);
        gone := gone + [hash];
        EvictEntry(entries[hash]);
        RootsRemain(before, entries);
        OtherRootsStay(order, before, hash);
        if Low() {
          return true, gone;
        }
      }
      NoRootNoEntry(order, entries);
      return false, gone;
    }

    lemma NoRootsGone(entries: Entries)
      ensures RootsGone(order, maxSize, entries, claims, airdrops, [])
    {
    }

    lemma TooLarge()
      requires Valid() && !Low()
      ensures Above(maxSize, entries, claims, airdrops)
    {
    }

    /** Claims are evicted, cheapest first, until the pool is low. */
    method EvictClaims() returns (low: bool, ghost gone: seq<Hash>)
      requires Valid() && !Low() && entries == map[]
      modifies this`claims, this`claimNames, this`size
      ensures Valid() && low == Low() && (!low ==> claims == map[])
      ensures claims == Fewer(old(claims), gone) && ClaimsGone(maxSize, old(claims), airdrops, gone)
    {
      hide Sum, WellFormed, Inverse, Indexed, Usage, Fewer;
      gone := [];
      FewerMore(claims, [], ZERO_HASH);
      while claims != map[]
        invariant Valid() && !Low() && claims == Fewer(old(claims), gone)
        invariant ClaimsGone(maxSize, old(claims), airdrops, gone)
        decreases |claims|
      {
        var hash := First(claims.Keys);
        TooLarge();
        ClaimsMore(maxSize, old(claims), airdrops, gone, hash);
        FewerMore(old(claims), gone, hash);
        gone := gone + [hash];
        UntrackClaim(hash);
        if Low() {
          return true, gone;
        }
      }
      return false, gone;
    }

    /** The same for airdrops. */
    method EvictAirdrops() returns (low: bool, ghost gone: seq<Hash>)
      requires Valid() && !Low() && entries == map[] && claims == map[]
      modifies this`airdrops, this`airdropIndex, this`size
      ensures Valid() && low == Low() && (!low ==> airdrops == map[])
      ensures airdrops == Fewer(old(airdrops), gone) && AirdropsGone(maxSize, old(airdrops), gone)
    {
      hide Sum, WellFormed, Inverse, Indexed, Usage, Fewer;
      gone := [];
      FewerMore(airdrops, [], ZERO_HASH);
      while airdrops != map[]
        invariant Valid() && !Low() && airdrops == Fewer(old(airdrops), gone)
        invariant AirdropsGone(maxSize, old(airdrops), gone)
        decreases |airdrops|
      {
        var hash := First(airdrops.Keys);
        TooLarge();
        AirdropsMore(maxSize, old(airdrops), gone, hash);
        FewerMore(old(airdrops), gone, hash);
        gone := gone + [hash];
        UntrackAirdrop(hash);
        if Low() {
          return true, gone;
        }
      }
      return false, gone;
    }

    /** Afterwards the pool is within its limit.  What expired goes first; if
        that suffices nothing else goes, otherwise the pool ends up low, and no
        package, claim or airdrop goes from a pool that is low already.  The
        answer says that what was just added is gone, but only when more than
        the expired had to go. */
    method LimitSize(added: Hash, keys: seq<Hash>, now: nat) returns (dropped: bool)
      requires Valid() && forall h :: h in entries ==> h in keys
      modifies this
      ensures Valid() && Remains(old(entries), entries) && size <= maxSize
      ensures claims.Keys <= old(claims).Keys && airdrops.Keys <= old(airdrops).Keys
      ensures var kept := old(entries) - Expired(order, old(entries), expiryTime, now);
              if Usage(kept, old(claims), old(airdrops)) <= maxSize then
                !dropped && entries == kept && claims == old(claims) && airdrops == old(airdrops)
              else
                && Low() && dropped == !Tracked(added)
                && Needed(order, maxSize, kept, old(claims), old(airdrops), entries, claims, airdrops)
    {
      hide Sum, WellFormed, Inverse, Indexed, Usage, Expired, Without, Fewer, RootsGone, ClaimsGone, AirdropsGone,
        Needed;
      EvictExpired(keys, now);
      assert size == Usage(entries, claims, airdrops);
      if size <= maxSize {
        return false;
      }
      ghost var kept := entries;
      var low;
      ghost var roots, fewerClaims, fewerAirdrops: seq<Hash> := [], [], [];
      NothingGone(old(claims), old(airdrops));
      low, roots := EvictRoots(keys);
      if !low {
        low, fewerClaims := EvictClaims();
      }
      if !low {
        low, fewerAirdrops := EvictAirdrops();
      }
      if !low {
        NothingUsed();
      }
      OnlyNeeded(kept, old(claims), old(airdrops), roots, fewerClaims, fewerAirdrops);
      return !Tracked(added);
    }

    lemma NothingGone(claims: map<Hash, ClaimEntry>, airdrops: map<Hash, AirdropEntry>)
      ensures Fewer(claims, []) == claims && ClaimsGone(maxSize, claims, airdrops, [])
      ensures Fewer(airdrops, []) == airdrops && AirdropsGone(maxSize, airdrops, [])
    {
    }

    lemma OnlyNeeded(before: Entries, claimed: map<Hash, ClaimEntry>, dropped: map<Hash, AirdropEntry>,
                     r: seq<Hash>, c: seq<Hash>, a: seq<Hash>)
      requires entries == Without(order, before, r) && RootsGone(order, maxSize, before, claimed, dropped, r)
      requires claims == Fewer(claimed, c) && ClaimsGone(maxSize, claimed, dropped, c)
      requires airdrops == Fewer(dropped, a) && AirdropsGone(maxSize, dropped, a)
      requires (c != [] ==> entries == map[]) && (a != [] ==> entries == map[] && claims == map[])
      ensures Needed(order, maxSize, before, claimed, dropped, entries, claims, airdrops)
      ensures claims.Keys <= claimed.Keys && airdrops.Keys <= dropped.Keys
    {
      hide Without, RootsGone, ClaimsGone, AirdropsGone;
    }

    lemma NothingUsed()
      requires Valid() && entries == map[] && claims == map[] && airdrops == map[]
      ensures size == 0
    {
    }
  
    /** Adding an entry: rejected when limiting the size dropped it.  Accepted
        means tracked, and rejected means gone, unless the entry was thrown out
        as a descendant of an expired one and that alone made enough room. */
    method AddEntry(e: Entry, keys: seq<Hash>, now: nat) returns (o: Outcome<()>)
      requires Valid() && CanTrack(e) && e.tx.hash !in claims && e.tx.hash !in airdrops
      requires e.tx.hash in keys && forall h :: h in entries ==> h in keys
      modifies this
      ensures Valid() && size <= maxSize && Remains(old(entries)[e.tx.hash := e], entries)
      ensures var all := old(entries)[e.tx.hash := e];
              var expired := Expired(order, all, expiryTime, now);
              if e.tx.hash in expired && Usage(all - expired, old(claims), old(airdrops)) <= maxSize then
                o.Accept? && e.tx.hash !in entries
              else
                o.Accept? <==> e.tx.hash in entries
      ensures var all := old(entries)[e.tx.hash := e];
              var kept := all - Expired(order, all, expiryTime, now);
              if Usage(kept, old(claims), old(airdrops)) <= maxSize then
                entries == kept && claims == old(claims) && airdrops == old(airdrops)
              else
                Low() && Needed(order, maxSize, kept, old(claims), old(airdrops), entries, claims, airdrops)
    {
      hide Sum, WellFormed, Inverse, Indexed, Usage, Expired, Remains, CanTrack, Needed;
      TrackEntry(e);
      var dropped := LimitSize(e.tx.hash, keys, now);
      return if dropped then Reject("insufficientfee") else Accept(());
    }
  }

  const PARENT: Hash := ZERO_HASH[0 := 1]
  const CHILD: Hash := ZERO_HASH[0 := 2]
  const PAYEE := Address(0, [1, 2, 3, 4, 5, 6, 7, 8, 9, 10, 11, 12, 13, 14, 15, 16, 17, 18, 19, 20])

  function Spend(hash: Hash, from: Hash): TX {
    TX(hash, 0, [Input(Outpoint(from, 0), 0)], [Output(1, PAYEE, NoCovenant)])
  }

  function Birth(h: Hash): nat { h[0] }

  /** A parent that expired, and a child that comes now. */
  function Family(usage: nat, time: nat, now: nat): Entries {
    map[PARENT := Entry(Spend(PARENT, ZERO_HASH), usage, time)][CHILD := Entry(Spend(CHILD, PARENT), usage, now)]
  }

  lemma FamilyHashes()
    ensures PARENT != CHILD && PARENT != ZERO_HASH && CHILD != ZERO_HASH
    ensures Birth(ZERO_HASH) < Birth(PARENT) < Birth(CHILD)
  {
    assert PARENT[0] == 1 && CHILD[0] == 2 && ZERO_HASH[0] == 0;
  }

  lemma FamilyExpires(expiryTime: nat, usage: nat, time: nat, now: nat)
    requires now >= time + expiryTime
    ensures Expired(Birth, Family(usage, time, now), expiryTime, now) == {PARENT, CHILD}
  {
    FamilyHashes();
    var all := Family(usage, time, now);
    assert Spend(CHILD, PARENT).inputs[0].prevout.hash == PARENT;
    assert StrictChild(Birth, all, PARENT, CHILD);
    ChildUnder(Birth, all, PARENT, CHILD);
    SelfUnder(Birth, all, PARENT);
    assert IsRoot(all, all[PARENT].tx);
    assert ExpiredWith(Birth, all, expiryTime, now, PARENT);
    assert ExpiredWith(Birth, all, expiryTime, now, CHILD);
  }

  lemma FamilyUsage(usage: nat, time: nat, now: nat)
    ensures Usage(Family(usage, time, now), map[], map[]) == 2 * usage
    ensures Usage(Family(usage, time, now) - {PARENT, CHILD}, map[], map[]) == 0
  {
    FamilyHashes();
    var parent, child := Entry(Spend(PARENT, ZERO_HASH), usage, time), Entry(Spend(CHILD, PARENT), usage, now);
    var none: Entries := map[];
    var one: Entries := none[PARENT := parent];
    var two: Entries := one[CHILD := child];
    SumWith(none, EntryUsage, PARENT, parent);
    SumWith(one, EntryUsage, CHILD, child);
    assert Sum(none, EntryUsage) == 0 && Sum(one, EntryUsage) == usage;
    assert Sum(two, EntryUsage) == Sum(one, EntryUsage) + EntryUsage(child);
    assert Family(usage, time, now) == two && two - {PARENT, CHILD} == none;
  }

  /** The exception is real.  The pool holds a transaction that has expired, with
      room for nothing else; a child of it is added.  The pool is over its limit
      until expiry empties it, and the child is accepted and gone. */
  method ExpiredParentTakesChild(expiryTime: nat, usage: nat, time: nat) returns (o: Outcome<()>, tracked: bool)
    requires usage > 0
    ensures var all := Family(usage, time, time + expiryTime);
            Usage(all, map[], map[]) > usage >= Usage(all - {PARENT, CHILD}, map[], map[])
    ensures o.Accept? && !tracked
  {
    hide Expired, Usage, Pool.Valid;
    var now := time + expiryTime;
    FamilyExpires(expiryTime, usage, time, now);
    FamilyUsage(usage, time, now);
    var pool := new Pool(Birth, usage, expiryTime);
    FirstOfFamily(pool, usage, time);
    pool.TrackEntry(Entry(Spend(PARENT, ZERO_HASH), usage, time));
    SecondOfFamily(pool, usage, time, now);
    o := pool.AddEntry(Entry(Spend(CHILD, PARENT), usage, now), [PARENT, CHILD], now);
    tracked := CHILD in pool.entries;
  }

  lemma FirstOfFamily(pool: Pool, usage: nat, time: nat)
    requires pool.order == Birth && pool.entries == map[] && pool.spents == map[]
    ensures pool.CanTrack(Entry(Spend(PARENT, ZERO_HASH), usage, time))
  {
    FamilyHashes();
  }

  lemma SecondOfFamily(pool: Pool, usage: nat, time: nat, now: nat)
    requires pool.Valid() && pool.order == Birth
    requires pool.entries == map[PARENT := Entry(Spend(PARENT, ZERO_HASH), usage, time)]
    ensures pool.CanTrack(Entry(Spend(CHILD, PARENT), usage, now))
    ensures pool.entries[CHILD := Entry(Spend(CHILD, PARENT), usage, now)] == Family(usage, time, now)
  {
    hide Sum, Indexed, Usage;
    FamilyHashes();
  }
}
