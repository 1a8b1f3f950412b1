/**
 Assembling a block template from the memory pool: parents before children,
 nothing twice, and everything within the limits.
 */
module Miner {
  import opened Primitives
  import opened NameLimits
  import Contracts

  /** `final` is whether the locktime has passed at the template's height. */
  datatype BlockEntry = BlockEntry(tx: TX, weight: nat, sigops: nat, fee: nat, priority: int, free: bool, final: bool)

  /** A claim or an airdrop proof, with the output it makes in the coinbase. */
  datatype BlockProof = BlockProof(output: Output, weight: nat, fee: nat, paid: bool)

  type Items = map<Hash, BlockEntry>

  datatype Options = Options(minWeight: nat, maxWeight: nat, priorityWeight: nat, priorityThreshold: int,
                             maxSigops: nat, limits: Counts)
  {
    predicate Valid() {
      limits.Within(BLOCK_LIMITS)
    }
  }

  const MAX_PROOFS := 10

  // ---------------------------------------------------------------------
  // Dependencies
  // ---------------------------------------------------------------------

  /** How many of the first k inputs spend p. */
  function Edges(tx: TX, p: Hash, k: nat): nat
    requires k <= |tx.inputs|
  {
    if k == 0 then 0 else Edges(tx, p, k - 1) + if tx.inputs[k - 1].prevout.hash == p then 1 else 0
  }

  /** How many of the first k inputs spend something in the pool that is not
      placed yet. */
  function Missing(items: Items, tx: TX, placed: set<Hash>, k: nat): nat
    requires k <= |tx.inputs|
  {
    if k == 0 then 0
    else
      var p := tx.inputs[k - 1].prevout.hash;
      Missing(items, tx, placed, k - 1) + if p in items && p !in placed then 1 else 0
  }

  function AllEdges(tx: TX, p: Hash): nat { Edges(tx, p, |tx.inputs|) }

  function AllMissing(items: Items, tx: TX, placed: set<Hash>): nat { Missing(items, tx, placed, |tx.inputs|) }

  lemma {:induction false} PlaceOne(items: Items, tx: TX, placed: set<Hash>, p: Hash, k: nat)
    requires k <= |tx.inputs| && p in items && p !in placed
    ensures Missing(items, tx, placed, k) == Missing(items, tx, placed + {p}, k) + Edges(tx, p, k)
  {
    if k > 0 { PlaceOne(items, tx, placed, p, k - 1); }
  }

  lemma {:induction false} NoneMissing(items: Items, tx: TX, placed: set<Hash>, k: nat)
    requires k <= |tx.inputs|
    ensures Missing(items, tx, placed, k) == 0 <==>
            forall i :: 0 <= i < k && tx.inputs[i].prevout.hash in items ==> tx.inputs[i].prevout.hash in placed
  {
    if k > 0 { NoneMissing(items, tx, placed, k - 1); }
  }

  ghost predicate Keyed(items: Items) {
    forall h :: h in items ==> items[h].tx.hash == h && !items[h].tx.IsCoinbase()
  }

  type Deps = map<Hash, seq<Hash>>

  /** How often h is listed under p. */
  function Listings(deps: Deps, p: Hash, h: Hash): nat {
    if p in deps then multiset(deps[p])[h] else 0
  }

  /** Every child is listed under a parent once for every input that spends it. */
  ghost predicate Listed(items: Items, deps: Deps) {
    && (forall p, h :: p in deps && h in deps[p] ==> h in items)
    && (forall p, h :: p in items && h in items ==> Listings(deps, p, h) == AllEdges(items[h].tx, p))
  }

  /** The same while the entries in `done` are finished and so are the first k
      inputs of the next one. */
  ghost predicate ListedSoFar(items: Items, deps: Deps, done: set<Hash>, next: Hash, k: nat)
    requires next in items && k <= |items[next].tx.inputs|
  {
    && (forall p, h :: p in deps && h in deps[p] ==> h in items)
    && (forall p, h :: p in items && h in items ==>
          Listings(deps, p, h) == if h in done then AllEdges(items[h].tx, p)
                                  else if h == next then Edges(items[next].tx, p, k) else 0)
  }

  method AddListing(items: Items, deps: Deps, ghost done: set<Hash>, next: Hash, k: nat) returns (more: Deps)
    requires next in items && k < |items[next].tx.inputs| && next !in done
    requires ListedSoFar(items, deps, done, next, k) && items[next].tx.inputs[k].prevout.hash in items
    ensures ListedSoFar(items, more, done, next, k + 1)
  {
    var p := items[next].tx.inputs[k].prevout.hash;
    more := if p in deps then deps else deps[p := []];
    assert forall q, h :: Listings(more, q, h) == Listings(deps, q, h);
    more := more[p := more[p] + [next]];
  }

  lemma SkipListing(items: Items, deps: Deps, done: set<Hash>, next: Hash, k: nat)
    requires next in items && k < |items[next].tx.inputs| && next !in done
    requires ListedSoFar(items, deps, done, next, k) && items[next].tx.inputs[k].prevout.hash !in items
    ensures ListedSoFar(items, deps, done, next, k + 1)
  {
  }

  /** The inputs of one entry. */
  method ListEntry(items: Items, deps: Deps, ghost done: set<Hash>, h: Hash) returns (count: nat, more: Deps)
    requires h in items && h !in done && ListedDone(items, deps, done)
    ensures count == AllMissing(items, items[h].tx, {}) && ListedDone(items, more, done + {h})
  {
    hide ListedSoFar, ListedDone;
    var tx := items[h].tx;
    count, more := 0, deps;
    FirstListing(items, deps, done, h);
    for k := 0 to |tx.inputs|
      invariant count == Missing(items, tx, {}, k) && ListedSoFar(items, more, done, h, k)
    {
      if tx.inputs[k].prevout.hash in items {
        count := count + 1;
        more := AddListing(items, more, done, h, k);
      } else {
        SkipListing(items, more, done, h, k);
      }
    }
    LastListing(items, more, done, h);
  }

  /** How much every entry waits for, and who waits for it. */
  method CountDeps(items: Items, keys: seq<Hash>) returns (depCount: map<Hash, nat>, deps: Deps, queue: set<Hash>)
    requires (forall h :: h in items <==> h in keys) && forall i, j :: 0 <= i < j < |keys| ==> keys[i] != keys[j]
    ensures depCount.Keys == items.Keys && Listed(items, deps)
    ensures forall h :: h in items ==> depCount[h] == AllMissing(items, items[h].tx, {})
    ensures forall h :: h in queue <==> h in items && depCount[h] == 0
  {
    hide AllEdges, ListedDone, Listed, AllMissing;
    depCount, deps, queue := map[], map[], {};
    ghost var done: set<Hash> := {};
    NothingListed(items);
    for n := 0 to |keys|
      invariant depCount.Keys == done && forall h :: h in done <==> h in keys[..n]
      invariant forall h :: h in done ==> depCount[h] == AllMissing(items, items[h].tx, {})
      invariant forall h :: h in queue <==> h in done && depCount[h] == 0
      invariant ListedDone(items, deps, done)
    {
      var h := keys[n];
      var count;
      count, deps := ListEntry(items, deps, done, h);
      done := done + {h};
      depCount := depCount[h := count];
      if count == 0 {
        queue := queue + {h};
      }
    }
    assert done == items.Keys;
    AllListed(items, deps);
  }

  ghost predicate ListedDone(items: Items, deps: Deps, done: set<Hash>) {
    && (forall p, h :: p in deps && h in deps[p] ==> h in items)
    && (forall p, h :: p in items && h in items ==>
          Listings(deps, p, h) == if h in done then AllEdges(items[h].tx, p) else 0)
  }

  lemma NothingListed(items: Items)
    ensures ListedDone(items, map[], {})
  {
  }

  lemma AllListed(items: Items, deps: Deps)
    requires ListedDone(items, deps, items.Keys)
    ensures Listed(items, deps)
  {
  }

  lemma FirstListing(items: Items, deps: Deps, done: set<Hash>, next: Hash)
    requires ListedDone(items, deps, done) && next in items && next !in done
    ensures ListedSoFar(items, deps, done, next, 0)
  {
  }

  lemma LastListing(items: Items, deps: Deps, done: set<Hash>, next: Hash)
    requires next in items && next !in done
    requires ListedSoFar(items, deps, done, next, |items[next].tx.inputs|)
    ensures ListedDone(items, deps, done + {next})
  {
  }

  /** Placing p frees those that waited for nothing else. */
  method Release(items: Items, deps: Deps, counts: map<Hash, nat>, queue: set<Hash>, ghost done: set<Hash>,
                 ghost placed: set<Hash>, p: Hash)
      returns (depCount: map<Hash, nat>, free: set<Hash>)
    requires Listed(items, deps) && counts.Keys == items.Keys && p in items && p !in placed
    requires forall h :: h in items ==> counts[h] == AllMissing(items, items[h].tx, placed)
    requires forall h :: h in items ==> (counts[h] == 0 <==> h in queue || h in done)
    requires queue !! done && queue <= items.Keys
    ensures depCount.Keys == items.Keys
    ensures forall h :: h in items ==> depCount[h] == AllMissing(items, items[h].tx, placed + {p})
    ensures forall h :: h in items ==> (depCount[h] == 0 <==> h in free || h in done)
    ensures free !! done && queue <= free <= items.Keys
  {
    hide AllMissing, AllEdges;
    depCount, free := counts, queue;
    PlaceAll(items, placed, p);
    if p !in deps {
      assert forall h :: h in items ==> Listings(deps, p, h) == 0;
      return;
    }
    var list := deps[p];
    for j := 0 to |list|
      invariant depCount.Keys == items.Keys
      invariant forall h :: h in items ==> depCount[h] + multiset(list[..j])[h] == counts[h]
      invariant forall h :: h in items ==> (depCount[h] == 0 <==> h in free || h in done)
      invariant free !! done && queue <= free <= items.Keys
    {
      var h := list[j];
      assert h in deps[p];
      Occurs(list, j);
      assert Listings(deps, p, h) == multiset(list)[h] <= counts[h];
      depCount := depCount[h := depCount[h] - 1];
      if depCount[h] == 0 {
        free := free + {h};
      }
    }
    assert list[..|list|] == list;
    assert forall h :: h in items ==> Listings(deps, p, h) == multiset(list)[h];
  }

  lemma PlaceAll(items: Items, placed: set<Hash>, p: Hash)
    requires p in items && p !in placed
    ensures forall h :: h in items ==>
              AllMissing(items, items[h].tx, placed)
              == AllMissing(items, items[h].tx, placed + {p}) + AllEdges(items[h].tx, p)
  {
    forall h | h in items
      ensures AllMissing(items, items[h].tx, placed)
              == AllMissing(items, items[h].tx, placed + {p}) + AllEdges(items[h].tx, p)
    {
      PlaceOne(items, items[h].tx, placed, p, |items[h].tx.inputs|);
    }
  }

  lemma Occurs<T>(s: seq<T>, j: nat)
    requires j < |s|
    ensures multiset(s[..j + 1]) == multiset(s[..j]) + multiset{s[j]}
    ensures multiset(s[..j])[s[j]] < multiset(s)[s[j]]
  {
    assert s[..j + 1] == s[..j] + [s[j]] && s == s[..j] + [s[j]] + s[j + 1..];
  }

  // ---------------------------------------------------------------------
  // Templates
  // ---------------------------------------------------------------------

  datatype Totals = Totals(weight: nat, sigops: nat, counts: Counts)

  function ProofWeight(proofs: seq<BlockProof>): nat {
    if proofs == [] then 0 else ProofWeight(proofs[..|proofs| - 1]) + proofs[|proofs| - 1].weight
  }

  function ProofFees(proofs: seq<BlockProof>): nat {
    if proofs == [] then 0 else ProofFees(proofs[..|proofs| - 1]) + proofs[|proofs| - 1].fee
  }

  /** Only the first claim of a name pays its fee to the miner. */
  function PaidFees(proofs: seq<BlockProof>): nat {
    if proofs == [] then 0
    else PaidFees(proofs[..|proofs| - 1]) + if proofs[|proofs| - 1].paid then proofs[|proofs| - 1].fee else 0
  }

  function ItemFees(items: seq<BlockEntry>): nat {
    if items == [] then 0 else ItemFees(items[..|items| - 1]) + items[|items| - 1].fee
  }

  /** Up to ten proofs of the queue, on top of what weighs `weight` and makes
      `updates` already; one that was left behind would not have fitted. */
  ghost predicate Filled(o: Options, weight: nat, updates: nat, queue: seq<BlockProof>, taken: seq<BlockProof>) {
    && |taken| <= MAX_PROOFS && multiset(taken) <= multiset(queue)
    && (|taken| == MAX_PROOFS
        || forall p :: multiset(taken)[p] < multiset(queue)[p] ==>
             weight + ProofWeight(taken) + p.weight > o.maxWeight || updates + |taken| + 1 > o.limits.updates)
  }

  lemma FillNone(o: Options, weight: nat, updates: nat)
    ensures Filled(o, weight, updates, [], [])
  {
  }

  lemma FillStep(o: Options, weight: nat, updates: nat, queue: seq<BlockProof>, i: nat, taken: seq<BlockProof>)
    requires i < |queue| && |taken| < MAX_PROOFS && Filled(o, weight, updates, queue[..i], taken)
    ensures if weight + ProofWeight(taken) + queue[i].weight > o.maxWeight || updates + |taken| + 1 > o.limits.updates
            then Filled(o, weight, updates, queue[..i + 1], taken)
            else Filled(o, weight, updates, queue[..i + 1], taken + [queue[i]])
  {
    hide Filled, ProofWeight;
    var item := queue[i];
    assert queue[..i + 1] == queue[..i] + [item];
    if weight + ProofWeight(taken) + item.weight > o.maxWeight || updates + |taken| + 1 > o.limits.updates {
      FillSkip(o, weight, updates, queue[..i], taken, item);
    } else {
      FillTake(o, weight, updates, queue[..i], taken, item);
    }
  }

  lemma FillSkip(o: Options, weight: nat, updates: nat, queue: seq<BlockProof>, taken: seq<BlockProof>, item: BlockProof)
    requires Filled(o, weight, updates, queue, taken)
    requires weight + ProofWeight(taken) + item.weight > o.maxWeight || updates + |taken| + 1 > o.limits.updates
    ensures Filled(o, weight, updates, queue + [item], taken)
  {
    hide ProofWeight;
    assert multiset(queue + [item]) == multiset(queue) + multiset{item};
  }

  lemma FillTake(o: Options, weight: nat, updates: nat, queue: seq<BlockProof>, taken: seq<BlockProof>, item: BlockProof)
    requires Filled(o, weight, updates, queue, taken) && |taken| < MAX_PROOFS
    ensures Filled(o, weight, updates, queue + [item], taken + [item])
  {
    OneMore(taken, item);
    hide ProofWeight;
    var q, t := multiset(queue), multiset(taken);
    assert multiset(queue + [item]) == q + multiset{item} && multiset(taken + [item]) == t + multiset{item};
    forall p | multiset(taken + [item])[p] < multiset(queue + [item])[p] ensures t[p] < q[p] {}
  }

  lemma FillEnd(o: Options, weight: nat, updates: nat, queue: seq<BlockProof>, i: nat, taken: seq<BlockProof>)
    requires i <= |queue| && (|taken| >= MAX_PROOFS || i == |queue|) && Filled(o, weight, updates, queue[..i], taken)
    ensures Filled(o, weight, updates, queue, taken)
  {
    assert queue == queue[..i] + queue[i..];
    assert i == |queue| ==> queue[..i] == queue;
  }

  function Txs(items: seq<BlockEntry>): seq<TX> {
    if items == [] then [] else Txs(items[..|items| - 1]) + [items[|items| - 1].tx]
  }

  /** What a list of entries adds up to. */
  function ItemTotals(items: seq<BlockEntry>): Totals {
    if items == [] then Totals(0, 0, NO_COUNTS)
    else Grown(ItemTotals(items[..|items| - 1]), items[|items| - 1])
  }

  function Grown(t: Totals, e: BlockEntry): Totals {
    Totals(t.weight + e.weight, t.sigops + e.sigops, t.counts.Plus(CountsOf(e.tx.outputs)))
  }

  /** Why an entry that waits for nothing is still left out. */
  predicate Excluded(o: Options, t: Totals, e: BlockEntry) {
    var g := Grown(t, e);
    !e.final || g.weight > o.maxWeight || g.sigops > o.maxSigops || !g.counts.Within(o.limits)
    || (e.free && g.weight >= o.minWeight)
  }

  /** Entries of the pool, none twice, each after the parents it has there. */
  ghost predicate Sorted(pool: Items, items: seq<BlockEntry>) {
    && (forall j :: 0 <= j < |items| ==> items[j].tx.hash in pool && pool[items[j].tx.hash] == items[j])
    && (forall i, j :: 0 <= i < j < |items| ==> items[i].tx.hash != items[j].tx.hash)
    && (forall j :: 0 <= j < |items| ==> ParentsIn(pool, items[j].tx, Hashes(items[..j])))
  }

  predicate ParentsIn(pool: Items, tx: TX, placed: set<Hash>) {
    forall i :: 0 <= i < |tx.inputs| && tx.inputs[i].prevout.hash in pool ==> tx.inputs[i].prevout.hash in placed
  }

  function Hashes(items: seq<BlockEntry>): set<Hash> {
    set e | e in items :: e.tx.hash
  }

  lemma Place(pool: Items, items: seq<BlockEntry>, h: Hash)
    requires Keyed(pool) && Sorted(pool, items) && h in pool && h !in Hashes(items)
    requires ParentsIn(pool, pool[h].tx, Hashes(items))
    ensures Sorted(pool, items + [pool[h]]) && Hashes(items + [pool[h]]) == Hashes(items) + {h}
  {
    var more := items + [pool[h]];
    forall j | 0 <= j < |items| ensures more[..j] == items[..j] {}
    assert more[..|items|] == items;
    forall j | 0 <= j < |items| ensures items[j].tx.hash in Hashes(items) {}
  }

  class Template {
    var weight: nat
    var sigops: nat
    var opens: nat
    var updates: nat
    var renewals: nat
    var fees: nat
    var items: seq<BlockEntry>
    var claims: seq<BlockProof>
    var airdrops: seq<BlockProof>
    const reserved: Totals

    function Sum(): Totals
      reads this
    {
      Totals(weight, sigops, Counts(opens, updates, renewals))
    }

    /** The running totals are those of what was put in; a proof counts as one
        update, and the fees are what the coinbase may pay itself. */
    ghost predicate Tallied()
      reads this
    {
      var t := ItemTotals(items);
      && weight == reserved.weight + ProofWeight(claims) + ProofWeight(airdrops) + t.weight
      && sigops == reserved.sigops + t.sigops
      && Counts(opens, updates, renewals) == t.counts.Plus(Counts(0, |claims| + |airdrops|, 0))
      && fees == ItemFees(items) + ProofFees(airdrops) + PaidFees(claims)
    }

    constructor (reservedWeight: nat, reservedSigops: nat)
      ensures Tallied() && items == [] && claims == [] && airdrops == []
      ensures reserved == Totals(reservedWeight, reservedSigops, NO_COUNTS) == Sum()
    {
      reserved := Totals(reservedWeight, reservedSigops, NO_COUNTS);
      weight, sigops, opens, updates, renewals, fees := reservedWeight, reservedSigops, 0, 0, 0, 0;
      items, claims, airdrops := [], [], [];
      new;
      hide Tallied;
      NothingTallied();
    }

    lemma NothingTallied()
      requires items == [] && claims == [] && airdrops == [] && fees == 0
      requires Sum() == reserved && reserved.counts == NO_COUNTS
      ensures Tallied()
    {
      hide ItemTotals, ItemFees, ProofWeight, ProofFees, PaidFees, CountsOf, Counts.Plus;
      NoWeight();
      PlusNone(Counts(0, |claims| + |airdrops|, 0));
      assert Sum() == reserved;
    }

    ghost predicate Limited(o: Options)
      reads this
    {
      && (weight <= o.maxWeight || weight == reserved.weight)
      && (sigops <= o.maxSigops || sigops == reserved.sigops)
      && Counts(opens, updates, renewals).Within(o.limits)
    }

    /** At most ten of the proofs the heap gives, as far as they fit. */
    method AddClaims(o: Options, queue: seq<BlockProof>)
      requires Tallied() && Limited(o) && items == [] && claims == [] && airdrops == []
      modifies this`weight, this`updates, this`fees, this`claims
      ensures Tallied() && Limited(o) && Filled(o, reserved.weight, 0, queue, claims)
    {
      hide Filled, CountsOf, ProofWeight, ProofFees, PaidFees, ItemTotals, ItemFees;
      NoWeight();
      FillNone(o, reserved.weight, 0);
      for i := 0 to |queue|
        invariant Tallied() && Limited(o) && Filled(o, reserved.weight, 0, queue[..i], claims)
        modifies this`weight, this`updates, this`fees, this`claims
      {
        var item := queue[i];
        if |claims| >= MAX_PROOFS {
          FillEnd(o, reserved.weight, 0, queue, i, claims);
          return;
        }
        FillStep(o, reserved.weight, 0, queue, i, claims);
        if weight + item.weight > o.maxWeight { continue; }
        if updates + 1 > o.limits.updates { continue; }
        if item.paid { fees := fees + item.fee; }
        weight := weight + item.weight;
        updates := updates + 1;
        OneMore(claims, item);
        claims := claims + [item];
      }
      FillEnd(o, reserved.weight, 0, queue, |queue|, claims);
    }

    method AddAirdrops(o: Options, queue: seq<BlockProof>)
      requires Tallied() && Limited(o) && items == [] && airdrops == []
      modifies this`weight, this`updates, this`fees, this`airdrops
      ensures Tallied() && Limited(o) && Filled(o, reserved.weight + ProofWeight(claims), |claims|, queue, airdrops)
    {
      hide Filled, CountsOf, ProofWeight, ProofFees, PaidFees, ItemTotals, ItemFees;
      NoWeight();
      FillNone(o, reserved.weight + ProofWeight(claims), |claims|);
      for i := 0 to |queue|
        invariant Tallied() && Limited(o) && Filled(o, reserved.weight + ProofWeight(claims), |claims|, queue[..i], airdrops)
        modifies this`weight, this`updates, this`fees, this`airdrops
      {
        var item := queue[i];
        if |airdrops| >= MAX_PROOFS {
          FillEnd(o, reserved.weight + ProofWeight(claims), |claims|, queue, i, airdrops);
          return;
        }
        FillStep(o, reserved.weight + ProofWeight(claims), |claims|, queue, i, airdrops);
        if weight + item.weight > o.maxWeight { continue; }
        if updates + 1 > o.limits.updates { continue; }
        fees := fees + item.fee;
        weight := weight + item.weight;
        updates := updates + 1;
        OneMore(airdrops, item);
        airdrops := airdrops + [item];
      }
      FillEnd(o, reserved.weight + ProofWeight(claims), |claims|, queue, |queue|, airdrops);
    }

    /** The entry goes in, with its share of every total. */
    method Push(e: BlockEntry, w: nat, s: nat, op: nat, up: nat, re: nat)
      requires Tallied() && Totals(w, s, Counts(op, up, re)) == Grown(Sum(), e)
      modifies this`weight, this`sigops, this`opens, this`updates, this`renewals, this`fees, this`items
      ensures Tallied() && items == old(items) + [e] && Sum() == Grown(old(Sum()), e)
    {
      hide CountsOf, ProofWeight, ItemTotals, ItemFees, ProofFees, PaidFees;
      OneMoreItem(items, e);
      weight, sigops, opens, updates, renewals := w, s, op, up, re;
      fees := fees + e.fee;
      items := items + [e];
    }

    /** Whether the entry may go in, and the totals if it does. */
    method Consider(o: Options, e: BlockEntry) returns (fits: bool, w: nat, s: nat, op: nat, up: nat, re: nat)
      ensures fits ==> Totals(w, s, Counts(op, up, re)) == Grown(Sum(), e)
      ensures fits <==> e.final && var g := Grown(Sum(), e);
              g.weight <= o.maxWeight && g.sigops <= o.maxSigops && g.counts.Within(o.limits)
    {
      hide CountsOf;
      fits, w, s, op, up, re := false, weight, sigops, opens, updates, renewals;
      if !e.final { return; }
      w := w + e.weight;
      if w > o.maxWeight { return; }
      s := s + e.sigops;
      if s > o.maxSigops { return; }
      var count := CountOpens(e.tx);
      op := op + count;
      if op > o.limits.opens { return; }
      count := CountUpdates(e.tx);
      up := up + count;
      if up > o.limits.updates { return; }
      count := CountRenewals(e.tx);
      re := re + count;
      if re > o.limits.renewals { return; }
      fits := true;
    }

    /** Every entry of the pool is in the template, or waits for one that is not,
        or could not be added to the totals. */
    ghost predicate Maximal(o: Options, pool: Items)
      reads this
    {
      forall h :: h in pool && h !in Hashes(items) ==>
        !ParentsIn(pool, pool[h].tx, Hashes(items)) || Excluded(o, Sum(), pool[h])
    }

    /** Between two rounds: who is queued or done waits for nothing, and who was
        done without being placed was excluded. */
    ghost predicate Underway(o: Options, pool: Items, deps: Deps, depCount: map<Hash, nat>, queue: set<Hash>,
                             done: set<Hash>)
      reads this
    {
      && Tallied() && Limited(o) && Sorted(pool, items) && Listed(pool, deps) && depCount.Keys == pool.Keys
      && (forall h :: h in pool ==> depCount[h] == AllMissing(pool, pool[h].tx, Hashes(items)))
      && (forall h :: h in pool ==> (depCount[h] == 0 <==> h in queue || h in done))
      && queue !! done && queue <= pool.Keys && Hashes(items) <= done <= pool.Keys
      && (forall h :: h in done && h !in Hashes(items) ==> Excluded(o, Sum(), pool[h]))
      && (forall e :: e in items ==> e.final)
    }

    lemma Skip(o: Options, pool: Items, deps: Deps, depCount: map<Hash, nat>, queue: set<Hash>, done: set<Hash>,
               hash: Hash)
      requires Underway(o, pool, deps, depCount, queue, done) && hash in queue
      requires Excluded(o, Sum(), pool[hash])
      ensures Underway(o, pool, deps, depCount, queue - {hash}, done + {hash})
    {
      hide Tallied, Limited, Sorted, Listed, AllMissing, Excluded;
    }

    method Admit(o: Options, pool: Items, deps: Deps, counts: map<Hash, nat>, queued: set<Hash>,
                 ghost done: set<Hash>, hash: Hash, w: nat, s: nat, op: nat, up: nat, re: nat)
        returns (depCount: map<Hash, nat>, queue: set<Hash>)
      requires Keyed(pool) && Underway(o, pool, deps, counts, queued, done) && hash in queued
      requires Totals(w, s, Counts(op, up, re)) == Grown(Sum(), pool[hash])
      requires pool[hash].final && w <= o.maxWeight && s <= o.maxSigops && Counts(op, up, re).Within(o.limits)
      modifies this`weight, this`sigops, this`opens, this`updates, this`renewals, this`fees, this`items
      ensures Underway(o, pool, deps, depCount, queue, done + {hash})
    {
      hide CountsOf, Tallied, AllMissing, Listed, ParentsIn, Excluded, Sorted, Hashes;
      var item := pool[hash];
      ghost var placed, before := Hashes(items), Sum();
      Waits(pool, placed, hash);
      Place(pool, items, hash);
      Push(item, w, s, op, up, re);
      StillOut(o, pool, done - placed, before, Sum(), item);
      depCount, queue := Release(pool, deps, counts, queued - {hash}, done + {hash}, placed, hash);
    }

    lemma Finished(o: Options, pool: Items, deps: Deps, depCount: map<Hash, nat>, done: set<Hash>)
      requires Underway(o, pool, deps, depCount, {}, done)
      ensures Maximal(o, pool)
    {
      hide Tallied, Limited, Sorted, Listed, AllMissing, Excluded, ParentsIn;
      forall h | h in pool && h !in Hashes(items) && ParentsIn(pool, pool[h].tx, Hashes(items))
        ensures Excluded(o, Sum(), pool[h])
      {
        Waits(pool, Hashes(items), h);
      }
    }

    method AddEntries(o: Options, pool: Items, keys: seq<Hash>)
      requires Keyed(pool) && Tallied() && Limited(o) && items == []
      requires (forall h :: h in pool <==> h in keys) && forall i, j :: 0 <= i < j < |keys| ==> keys[i] != keys[j]
      modifies this`weight, this`sigops, this`opens, this`updates, this`renewals, this`fees, this`items
      ensures Tallied() && Limited(o) && Sorted(pool, items) && Maximal(o, pool)
      ensures forall e :: e in items ==> e.final
    {
      hide CountsOf, Tallied, AllMissing, Listed, ParentsIn, Excluded, Sorted, Grown;
      var depCount, deps, queue := CountDeps(pool, keys);
      var priority := o.priorityWeight > 0;
      ghost var done: set<Hash> := {};
      NothingPlaced(pool);
      while queue != {}
        invariant Underway(o, pool, deps, depCount, queue, done)
        decreases pool.Keys - done, if priority then 1 else 0
      {
        var hash :| hash in queue;
        var item := pool[hash];
        var fits, w, s, op, up, re := Consider(o, item);
        NotFitting(o, Sum(), item);
        if !fits || (!priority && item.free && w >= o.minWeight) {
          Skip(o, pool, deps, depCount, queue, done, hash);
          queue, done := queue - {hash}, done + {hash};
          continue;
        }
        if priority && (w > o.priorityWeight || item.priority < o.priorityThreshold) {
          priority := false;
          continue;
        }
        depCount, queue := Admit(o, pool, deps, depCount, queue, done, hash, w, s, op, up, re);
        done := done + {hash};
      }
      Finished(o, pool, deps, depCount, done);
    }

    /** Claims, then airdrops, then transactions. */
    method Assemble(o: Options, claimQueue: seq<BlockProof>, airdropQueue: seq<BlockProof>, pool: Items,
                    keys: seq<Hash>)
      requires Keyed(pool) && Tallied() && items == [] && claims == [] && airdrops == []
      requires Sum() == reserved && reserved.counts == NO_COUNTS
      requires (forall h :: h in pool <==> h in keys) && forall i, j :: 0 <= i < j < |keys| ==> keys[i] != keys[j]
      modifies this
      ensures Tallied() && Limited(o) && Sorted(pool, items) && Maximal(o, pool)
      ensures forall e :: e in items ==> e.final
      ensures Filled(o, reserved.weight, 0, claimQueue, claims)
      ensures Filled(o, reserved.weight + ProofWeight(claims), |claims|, airdropQueue, airdrops)
    {
      hide Tallied, Sorted, Maximal, Filled;
      AddClaims(o, claimQueue);
      AddAirdrops(o, airdropQueue);
      AddEntries(o, pool, keys);
    }
  }

  // ---------------------------------------------------------------------
  // The block
  // ---------------------------------------------------------------------

  function ProofOutputs(proofs: seq<BlockProof>): seq<Output> {
    if proofs == [] then [] else ProofOutputs(proofs[..|proofs| - 1]) + [proofs[|proofs| - 1].output]
  }

  /** Reward, claims and airdrops, in this order. */
  function CoinbaseOutputs(reward: Output, claims: seq<BlockProof>, airdrops: seq<BlockProof>): seq<Output> {
    [reward] + ProofOutputs(claims) + ProofOutputs(airdrops)
  }

  function ValueOf(outputs: seq<Output>): nat {
    if outputs == [] then 0 else ValueOf(outputs[..|outputs| - 1]) + outputs[|outputs| - 1].value
  }

  /** The value that verification lets proofs create: an airdrop and a claim what
      the proof is worth, its output and its fee together, but a claim that
      replaces another one only its output once the deflation height is reached. */
  function Conjured(claims: seq<BlockProof>, airdrops: seq<BlockProof>, deflation: bool): nat {
    ClaimValue(claims, deflation) + AirdropValue(airdrops)
  }

  function ClaimValue(claims: seq<BlockProof>, deflation: bool): nat {
    if claims == [] then 0
    else
      var last := claims[|claims| - 1];
      ClaimValue(claims[..|claims| - 1], deflation)
      + last.output.value + if last.paid || !deflation then last.fee else 0
  }

  function AirdropValue(airdrops: seq<BlockProof>): nat {
    if airdrops == [] then 0
    else AirdropValue(airdrops[..|airdrops| - 1]) + airdrops[|airdrops| - 1].output.value + airdrops[|airdrops| - 1].fee
  }

  lemma {:induction false} ValueAppend(a: seq<Output>, b: seq<Output>)
    ensures ValueOf(a + b) == ValueOf(a) + ValueOf(b)
  {
    if b == [] {
      assert a + b == a;
    } else {
      ValueAppend(a, b[..|b| - 1]);
      assert (a + b)[..|a + b| - 1] == a + b[..|b| - 1];
    }
  }

  lemma {:induction false} ClaimsPay(claims: seq<BlockProof>, deflation: bool)
    ensures ValueOf(ProofOutputs(claims)) + PaidFees(claims) <= ClaimValue(claims, deflation)
    ensures deflation || (forall p :: p in claims ==> p.paid || p.fee == 0) ==>
              ValueOf(ProofOutputs(claims)) + PaidFees(claims) == ClaimValue(claims, deflation)
  {
    if claims != [] {
      var init, last := claims[..|claims| - 1], claims[|claims| - 1];
      ClaimsPay(init, deflation);
      ValueAppend(ProofOutputs(init), [last.output]);
      assert ValueOf([last.output]) == last.output.value by { assert [last.output][..0] == []; }
    }
  }

  lemma {:induction false} AirdropsPay(airdrops: seq<BlockProof>)
    ensures ValueOf(ProofOutputs(airdrops)) + ProofFees(airdrops) == AirdropValue(airdrops)
  {
    if airdrops != [] {
      var init, last := airdrops[..|airdrops| - 1], airdrops[|airdrops| - 1];
      AirdropsPay(init);
      ValueAppend(ProofOutputs(init), [last.output]);
      assert ValueOf([last.output]) == last.output.value by { assert [last.output][..0] == []; }
    }
  }

  /** A coinbase that pays the subsidy and the fees of the template claims what
      verification allows it, no more; and no less, unless a claim that replaces
      another one before the deflation height leaves its fee behind. */
  lemma AssembledPays(t: Template, cb: TX, reward: Output, subsidy: nat, deflation: bool)
    requires t.Tallied() && cb.outputs == CoinbaseOutputs(reward, t.claims, t.airdrops)
    requires reward.value == subsidy + t.fees
    ensures var allowed := subsidy + ItemFees(t.items) + Conjured(t.claims, t.airdrops, deflation);
            && ValueOf(cb.outputs) <= allowed
            && (deflation || (forall p :: p in t.claims ==> p.paid || p.fee == 0) ==> ValueOf(cb.outputs) == allowed)
  {
    hide ProofOutputs, PaidFees, ProofFees, ItemFees, ClaimValue, AirdropValue, ItemTotals, CountsOf;
    ClaimsPay(t.claims, deflation);
    AirdropsPay(t.airdrops);
    ValueAppend([reward], ProofOutputs(t.claims));
    ValueAppend([reward] + ProofOutputs(t.claims), ProofOutputs(t.airdrops));
    assert ValueOf([reward]) == reward.value by { assert [reward][..0] == []; }
  }

  lemma {:induction false} CountsAppend(a: seq<Output>, b: seq<Output>)
    ensures CountsOf(a + b) == CountsOf(a).Plus(CountsOf(b))
  {
    hide CountOne, CountsOf;
    CountsNone();
    if b == [] {
      assert a + b == a;
    } else {
      var k := |b| - 1;
      CountsAppend(a, b[..k]);
      CountsStep(b, k);
      CountsStep(a + b, |a| + k);
      assert b[..k + 1] == b && (a + b)[..|a| + k + 1] == a + b && (a + b)[..|a| + k] == a + b[..k];
    }
  }

  lemma {:induction false} ProofCounts(proofs: seq<BlockProof>, claims: bool)
    requires forall p :: p in proofs ==> if claims then p.output.covenant.Claim? else p.output.covenant.NoCovenant?
    ensures CountsOf(ProofOutputs(proofs)) == Counts(0, if claims then |proofs| else 0, 0)
  {
    if proofs != [] {
      var init := proofs[..|proofs| - 1];
      ProofCounts(init, claims);
      CountsStep(ProofOutputs(proofs), |ProofOutputs(init)|);
      assert ProofOutputs(proofs)[..|ProofOutputs(init)|] == ProofOutputs(init);
      assert ProofOutputs(proofs)[..|ProofOutputs(init)| + 1] == ProofOutputs(proofs);
    }
  }

  lemma {:induction false} BlockTotals(cb: TX, items: seq<BlockEntry>)
    ensures BlockCounts([cb] + Txs(items)) == CountsOf(cb.outputs).Plus(ItemTotals(items).counts)
  {
    hide CountsOf;
    if items == [] {
      assert [cb] + Txs(items) == [cb] && [cb][..0] == [];
    } else {
      var init := items[..|items| - 1];
      BlockTotals(cb, init);
      var txs := [cb] + Txs(items);
      assert txs[..|txs| - 1] == [cb] + Txs(init);
    }
  }

  /** The pool holds no two transactions that touch one name, and no transaction
      that touches a claimed one. */
  ghost predicate PoolApart(pool: Items, claimed: set<Hash>) {
    && (forall h, g :: h in pool && g in pool && h != g ==>
          NamesOf(pool[h].tx.outputs) !! NamesOf(pool[g].tx.outputs))
    && (forall h :: h in pool ==> NamesOf(pool[h].tx.outputs) !! claimed)
  }

  lemma {:induction false} BlockApart(cb: TX, pool: Items, items: seq<BlockEntry>)
    requires Keyed(pool) && PoolApart(pool, NamesOf(cb.outputs))
    requires forall j :: 0 <= j < |items| ==> items[j].tx.hash in pool && pool[items[j].tx.hash] == items[j]
    requires forall i, j :: 0 <= i < j < |items| ==> items[i].tx.hash != items[j].tx.hash
    ensures NamesApart([cb] + Txs(items))
    ensures forall n :: n in BlockNames([cb] + Txs(items)) ==> n in NamesOf(cb.outputs) || NamedBy(items, n)
  {
    hide NamesOf, NamedBy, BlockNames, NamesApart;
    if items == [] {
      assert [cb] + Txs(items) == [] + [cb];
      MoreNames([], cb);
      NoNames();
    } else {
      var k := |items| - 1;
      var init, last := items[..k], items[k];
      BlockApart(cb, pool, init);
      assert init + [last] == items;
      var txs := [cb] + Txs(init);
      assert [cb] + Txs(items) == txs + [last.tx];
      MoreNames(txs, last.tx);
      forall n | n in BlockNames(txs) ensures n !in NamesOf(last.tx.outputs) {
        if n !in NamesOf(cb.outputs) {
          var j := NamerOf(init, n);
          assert items[j] == init[j] && pool[items[j].tx.hash] == items[j];
        }
      }
      forall n | n in BlockNames(txs + [last.tx]) ensures n in NamesOf(cb.outputs) || NamedBy(items, n) {
        NamedMore(init, last, n);
      }
    }
  }

  lemma NoNames()
    ensures BlockNames([]) == {} && NamesApart([])
  {
  }

  lemma MoreNames(txs: seq<TX>, tx: TX)
    ensures BlockNames(txs + [tx]) == BlockNames(txs) + NamesOf(tx.outputs)
    ensures NamesApart(txs + [tx]) <==> NamesApart(txs) && NamesOf(tx.outputs) !! BlockNames(txs)
  {
    hide NamesOf;
    assert (txs + [tx])[..|txs|] == txs;
  }

  predicate NamedBy(items: seq<BlockEntry>, n: Hash) {
    exists j :: 0 <= j < |items| && n in NamesOf(items[j].tx.outputs)
  }

  lemma NamerOf(items: seq<BlockEntry>, n: Hash) returns (j: nat)
    requires NamedBy(items, n)
    ensures j < |items| && n in NamesOf(items[j].tx.outputs)
  {
    j :| 0 <= j < |items| && n in NamesOf(items[j].tx.outputs);
  }

  lemma NamedMore(items: seq<BlockEntry>, e: BlockEntry, n: Hash)
    ensures NamedBy(items + [e], n) <==> NamedBy(items, n) || n in NamesOf(e.tx.outputs)
  {
    hide NamesOf;
    var all := items + [e];
    assert all[|items|] == e;
    assert forall j :: 0 <= j < |items| ==> all[j] == items[j];
    if NamedBy(items, n) {
      var j :| 0 <= j < |items| && n in NamesOf(items[j].tx.outputs);
      assert all[j] == items[j];
    }
  }

  /** A block built from the template passes the name limits of verification. */
  lemma AssembledPasses(o: Options, t: Template, pool: Items, cb: TX, reward: Output)
    requires o.Valid() && Keyed(pool) && t.Tallied() && t.Limited(o) && Sorted(pool, t.items)
    requires cb.outputs == CoinbaseOutputs(reward, t.claims, t.airdrops) && reward.covenant.NoCovenant?
    requires forall p :: p in t.claims ==> p.output.covenant.Claim?
    requires forall p :: p in t.airdrops ==> p.output.covenant.NoCovenant?
    requires PoolApart(pool, NamesOf(cb.outputs))
    ensures BlockCounts([cb] + Txs(t.items)).Within(BLOCK_LIMITS) && NamesApart([cb] + Txs(t.items))
  {
    hide NamesOf, PoolApart, CountsOf, ItemTotals, Sorted;
    BlockTotals(cb, t.items);
    ProofCounts(t.claims, true);
    ProofCounts(t.airdrops, false);
    RewardCounts(reward);
    CountsAppend([reward], ProofOutputs(t.claims));
    CountsAppend([reward] + ProofOutputs(t.claims), ProofOutputs(t.airdrops));
    SortedDistinct(pool, t.items);
    BlockApart(cb, pool, t.items);
  }

  /** What the contract state keeps: the entries it tracks touch different names, and
      none that a claim of the coinbase touches. */
  lemma ContractsApart(pool: Items, tracked: map<Hash, TX>, claimed: set<Hash>, cb: TX)
    requires Contracts.Apart(tracked, claimed)
    requires forall h :: h in pool ==> h in tracked && tracked[h] == pool[h].tx
    requires NamesOf(cb.outputs) <= claimed
    ensures PoolApart(pool, NamesOf(cb.outputs))
  {
    hide NamesOf;
  }

  /** A block assembled from what a mempool tracks passes the name limits. */
  lemma TrackedPasses(o: Options, t: Template, pool: Items, tracked: map<Hash, TX>, claimed: set<Hash>, cb: TX,
                      reward: Output)
    requires o.Valid() && Keyed(pool) && t.Tallied() && t.Limited(o) && Sorted(pool, t.items)
    requires cb.outputs == CoinbaseOutputs(reward, t.claims, t.airdrops) && reward.covenant.NoCovenant?
    requires forall p :: p in t.claims ==> p.output.covenant.Claim? && p.output.covenant.nameHash in claimed
    requires forall p :: p in t.airdrops ==> p.output.covenant.NoCovenant?
    requires Contracts.Apart(tracked, claimed)
    requires forall h :: h in pool ==> h in tracked && tracked[h] == pool[h].tx
    ensures BlockCounts([cb] + Txs(t.items)).Within(BLOCK_LIMITS) && NamesApart([cb] + Txs(t.items))
  {
    hide Contracts.Apart, PoolApart, Sorted, CountsOf, ItemTotals;
    CoinbaseNames(t, cb, reward, claimed);
    ContractsApart(pool, tracked, claimed, cb);
    AssembledPasses(o, t, pool, cb, reward);
  }

  lemma CoinbaseNames(t: Template, cb: TX, reward: Output, claimed: set<Hash>)
    requires cb.outputs == CoinbaseOutputs(reward, t.claims, t.airdrops) && reward.covenant.NoCovenant?
    requires forall p :: p in t.claims ==> p.output.covenant.Claim? && p.output.covenant.nameHash in claimed
    requires forall p :: p in t.airdrops ==> p.output.covenant.NoCovenant?
    ensures NamesOf(cb.outputs) <= claimed
  {
    OutputsFrom(t.claims);
    OutputsFrom(t.airdrops);
  }

  lemma {:induction false} OutputsFrom(proofs: seq<BlockProof>)
    ensures forall o :: o in ProofOutputs(proofs) ==> exists p :: p in proofs && p.output == o
  {
    if proofs != [] {
      OutputsFrom(proofs[..|proofs| - 1]);
    }
  }

  lemma NoCount(c: Covenant)
    requires c.NoCovenant?
    ensures CountOne(c) == NO_COUNTS
  {
  }

  lemma RewardCounts(reward: Output)
    requires reward.covenant.NoCovenant?
    ensures CountsOf([reward]) == NO_COUNTS
  {
    hide CountsOf, CountOne;
    CountsNone();
    NoCount(reward.covenant);
    CountsStep([reward], 0);
    assert [reward][..0] == [] && [reward][..1] == [reward];
  }

  lemma SortedDistinct(pool: Items, items: seq<BlockEntry>)
    requires Sorted(pool, items)
    ensures forall j :: 0 <= j < |items| ==> items[j].tx.hash in pool && pool[items[j].tx.hash] == items[j]
    ensures forall i, j :: 0 <= i < j < |items| ==> items[i].tx.hash != items[j].tx.hash
  {
  }

  lemma NothingPlaced(pool: Items)
    ensures Sorted(pool, []) && Hashes([]) == {}
  {
  }

  /** Waiting for nothing is having all parents placed. */
  lemma Waits(pool: Items, placed: set<Hash>, h: Hash)
    requires h in pool
    ensures AllMissing(pool, pool[h].tx, placed) == 0 <==> ParentsIn(pool, pool[h].tx, placed)
  {
    NoneMissing(pool, pool[h].tx, placed, |pool[h].tx.inputs|);
  }

  lemma NotFitting(o: Options, t: Totals, e: BlockEntry)
    ensures var g := Grown(t, e);
            !(e.final && g.weight <= o.maxWeight && g.sigops <= o.maxSigops && g.counts.Within(o.limits))
            || (e.free && g.weight >= o.minWeight)
            ==> Excluded(o, t, e)
  {
  }

  lemma StillOut(o: Options, pool: Items, out: set<Hash>, t: Totals, u: Totals, e: BlockEntry)
    requires u == Grown(t, e) && out <= pool.Keys
    ensures forall h :: h in out && Excluded(o, t, pool[h]) ==> Excluded(o, u, pool[h])
  {
  }

  lemma OneMoreItem(items: seq<BlockEntry>, e: BlockEntry)
    ensures ItemTotals(items + [e]) == Grown(ItemTotals(items), e)
    ensures ItemFees(items + [e]) == ItemFees(items) + e.fee
  {
    hide CountsOf;
    assert (items + [e])[..|items|] == items;
  }

  lemma PlusNone(c: Counts)
    ensures NO_COUNTS.Plus(c) == c
  {
  }

  lemma NoWeight()
    ensures ProofWeight([]) == ProofFees([]) == PaidFees([]) == ItemFees([]) == 0
    ensures ItemTotals([]) == Totals(0, 0, NO_COUNTS)
  {
  }

  lemma OneMore(proofs: seq<BlockProof>, p: BlockProof)
    ensures ProofWeight(proofs + [p]) == ProofWeight(proofs) + p.weight
    ensures ProofFees(proofs + [p]) == ProofFees(proofs) + p.fee
    ensures PaidFees(proofs + [p]) == PaidFees(proofs) + if p.paid then p.fee else 0
  {
  }
}
