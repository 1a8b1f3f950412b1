/**
 Deployment states (versionbits) and the median time past they depend on.

 `NextState` is the recursive definition in section "State transitions" of
 BIP 9; `GetState` is the program's memoised loop.
 */
module VersionBits {
  import opened Primitives
  import opened Bits

  /** A block header with its whole ancestry. */
  datatype Entry = Entry(hash: Hash, time: int, version: nat, prev: Option<Entry>) {
    function Height(): nat {
      if prev.None? then 0 else prev.value.Height() + 1
    }

    /** `getAncestor` */
    function Ancestor(height: nat): (e: Entry)
      requires height <= Height()
      ensures e.Height() == height
      decreases this
    {
      if height == Height() then this else prev.value.Ancestor(height)
    }

    predicate HasBit(bit: nat) {
      Bit(version, bit)
    }
  }

  // ---------------------------------------------------------------------
  // Median time past
  // ---------------------------------------------------------------------

  const MEDIAN_TIMESPAN := 11

  /** Times of `e` and its ancestors, at most `k` of them. */
  function Times(e: Entry, k: nat): (s: seq<int>)
    ensures k > 0 ==> |s| > 0
    ensures |s| <= k
  {
    if k == 0 then []
    else [e.time] + if e.prev.None? then [] else Times(e.prev.value, k - 1)
  }

  function Insert(x: int, s: seq<int>): (r: seq<int>)
    ensures |r| == |s| + 1
  {
    if s == [] || x <= s[0] then [x] + s else [s[0]] + Insert(x, s[1..])
  }

  function Sort(s: seq<int>): (r: seq<int>)
    ensures |r| == |s|
  {
    if s == [] then [] else Insert(s[0], Sort(s[1..]))
  }

  function MedianOf(s: seq<int>): int
    requires s != []
  {
    Sort(s)[|s| / 2]
  }

  function MedianTime(e: Entry): int {
    MedianOf(Times(e, MEDIAN_TIMESPAN))
  }

  predicate Sorted(s: seq<int>) {
    forall i, j :: 0 <= i < j < |s| ==> s[i] <= s[j]
  }

  function Below(s: seq<int>, x: int): nat {
    if s == [] then 0 else (if s[0] < x then 1 else 0) + Below(s[1..], x)
  }

  lemma {:induction false} InsertFacts(y: int, s: seq<int>, x: int)
    requires Sorted(s)
    ensures Sorted(Insert(y, s))
    ensures Below(Insert(y, s), x) == Below(s, x) + if y < x then 1 else 0
    ensures forall z :: z in Insert(y, s) ==> z == y || z in s
  {
    if s == [] || y <= s[0] {
      assert ([y] + s)[1..] == s;
    } else {
      InsertFacts(y, s[1..], x);
      var r := Insert(y, s[1..]);
      assert ([s[0]] + r)[1..] == r;
      forall i | 0 <= i < |r| ensures s[0] <= r[i] {
        assert r[i] in r;
      }
    }
  }

  lemma {:induction false} SortFacts(s: seq<int>, x: int)
    ensures Sorted(Sort(s)) && Below(Sort(s), x) == Below(s, x)
  {
    if s != [] {
      SortFacts(s[1..], x);
      InsertFacts(s[0], Sort(s[1..]), x);
    }
  }

  /** In a sorted sequence, position `i` is below `x` exactly when more than `i`
      elements are. */
  lemma {:induction false} RankSorted(s: seq<int>, i: nat, x: int)
    requires Sorted(s) && i < |s|
    ensures s[i] < x <==> Below(s, x) > i
  {
    if i == 0 {
      if s[0] >= x {
        NoneBelow(s, x);
      }
    } else {
      RankSorted(s[1..], i - 1, x);
      if s[0] >= x {
        NoneBelow(s, x);
      }
    }
  }

  lemma {:induction false} NoneBelow(s: seq<int>, x: int)
    requires forall i :: 0 <= i < |s| ==> s[i] >= x
    ensures Below(s, x) == 0
  {
    if s != [] {
      NoneBelow(s[1..], x);
    }
  }

  lemma MedianRank(s: seq<int>, x: int)
    requires s != []
    ensures MedianOf(s) < x <==> Below(s, x) > |s| / 2
  {
    SortFacts(s, x);
    RankSorted(Sort(s), |s| / 2, x);
  }

  lemma {:induction false} TimesGrow(e: Entry, k: nat, x: int)
    ensures |Times(e, k)| <= |Times(e, k + 1)| <= |Times(e, k)| + 1
    ensures Below(Times(e, k), x) <= Below(Times(e, k + 1), x)
  {
    if k > 0 && e.prev.Some? {
      TimesGrow(e.prev.value, k - 1, x);
      assert Times(e, k)[1..] == Times(e.prev.value, k - 1);
      assert Times(e, k + 1)[1..] == Times(e.prev.value, k);
    }
  }

  /** The time rule of block verification, on the whole ancestry. */
  predicate ValidTimes(e: Entry) {
    e.prev.None? || (e.time > MedianTime(e.prev.value) && ValidTimes(e.prev.value))
  }

  /** One block later than the median never lowers the median, whether the
      window is full or still filling. */
  lemma MedianStep(e: Entry)
    requires e.prev.Some? && e.time > MedianTime(e.prev.value)
    ensures MedianTime(e) >= MedianTime(e.prev.value)
  {
    var p, m := e.prev.value, MedianTime(e.prev.value);
    var before, after := Times(p, MEDIAN_TIMESPAN), Times(e, MEDIAN_TIMESPAN);
    MedianRank(before, m);
    MedianRank(after, m);
    TimesGrow(p, MEDIAN_TIMESPAN - 1, m);
    assert after[1..] == Times(p, MEDIAN_TIMESPAN - 1);
  }

  lemma {:induction false} MedianMonotone(e: Entry, height: nat)
    requires ValidTimes(e) && height <= e.Height()
    ensures MedianTime(e.Ancestor(height)) <= MedianTime(e)
    ensures ValidTimes(e.Ancestor(height))
    decreases e
  {
    if height < e.Height() {
      MedianStep(e);
      MedianMonotone(e.prev.value, height);
    }
  }

  // ---------------------------------------------------------------------
  // Deployment states
  // ---------------------------------------------------------------------

  datatype State = DEFINED | STARTED | LOCKED_IN | ACTIVE | FAILED

  datatype Deployment = Deployment(bit: nat, startTime: int, timeout: int, threshold: nat, window: nat) {
    predicate Valid() {
      1 <= window
    }

    /** A deployment does not time out before it starts. */
    predicate Ordered() {
      startTime <= timeout
    }

    /** The deployment that the program runs: one that times out before it starts
        times out at its start. */
    function Effective(): (d: Deployment)
      ensures d.Ordered() && (d == this <==> Ordered())
    {
      if Ordered() then this else this.(timeout := startTime)
    }
  }

  /** Signals in the `k` blocks ending at `e`. */
  function Signals(e: Entry, bit: nat, k: nat): nat
    requires k <= e.Height() + 1
  {
    if k == 0 then 0
    else
      (if e.HasBit(bit) then 1 else 0)
      + if k == 1 then 0 else Signals(e.prev.value, bit, k - 1)
  }

  /** The transition at the block after `e`, the last of a window. */
  function Transition(d: Deployment, state: State, e: Entry): State
    requires d.window <= e.Height() + 1
  {
    match state
    case DEFINED =>
      if MedianTime(e) >= d.timeout then FAILED
      else if MedianTime(e) >= d.startTime then STARTED
      else DEFINED
    case STARTED =>
      if MedianTime(e) >= d.timeout then FAILED
      else if Signals(e, d.bit, d.window) >= d.threshold then LOCKED_IN
      else STARTED
    case LOCKED_IN => ACTIVE
    case ACTIVE => ACTIVE
    case FAILED => FAILED
  }

  /** BIP 9: the state of the block after `e`. */
  function NextState(d: Deployment, e: Entry): State
    requires d.Valid()
    decreases e.Height()
  {
    var h := e.Height() + 1;
    if h % d.window != 0 then
      if e.prev.None? then DEFINED else NextState(d, e.prev.value)
    else
      Transition(d, Before(d, e), e)
  }

  /** The state during the window that ends at `e`. */
  function Before(d: Deployment, e: Entry): State
    requires d.Valid()
    decreases e.Height(), 0
  {
    if e.Height() < d.window then DEFINED else NextState(d, e.Ancestor(e.Height() - d.window))
  }

  predicate LastOfWindow(d: Deployment, e: Entry)
    requires d.window >= 1
  {
    (e.Height() + 1) % d.window == 0
  }

  /** The last block of the previous window, as `getState` computes it. */
  function WindowEnd(d: Deployment, e: Entry): Option<Entry>
    requires d.Valid()
  {
    var r := (e.Height() + 1) % d.window;
    if r == 0 then Some(e)
    else if e.Height() < r then None
    else Some(e.Ancestor(e.Height() - r))
  }

  lemma Remainder(h: nat, w: nat)
    requires w >= 1 && (h + 1) % w != 0
    ensures h >= 1 ==> h % w == (h + 1) % w - 1
    ensures h == 0 ==> (h + 1) % w == 1
  {
    var q, r := (h + 1) / w, (h + 1) % w;
    assert h + 1 == q * w + r;
    Quotient(h, w, q, r - 1);
  }

  lemma Quotient(n: int, w: int, q: int, r: int)
    requires w >= 1 && 0 <= r < w && n == q * w + r
    ensures n / w == q && n % w == r
  {
    var q', r' := n / w, n % w;
    assert n == q' * w + r';
    if q' > q {
      Gap(q', q, w);
    } else if q' < q {
      Gap(q, q', w);
    }
  }

  lemma {:induction false} Gap(a: int, b: int, w: int)
    requires w >= 1 && a > b
    ensures a * w >= b * w + w
    decreases a - b
  {
    assert a * w == (a - 1) * w + w;
    if a > b + 1 {
      Gap(a - 1, b, w);
    }
  }

  /** Every block of a window has the state set at its start. */
  lemma {:induction false} SameWindow(d: Deployment, e: Entry)
    requires d.Valid()
    ensures NextState(d, e) == if WindowEnd(d, e).Some? then NextState(d, WindowEnd(d, e).value) else DEFINED
    ensures WindowEnd(d, e).Some? ==> LastOfWindow(d, WindowEnd(d, e).value)
    decreases e.Height()
  {
    if !LastOfWindow(d, e) {
      Remainder(e.Height(), d.window);
      if e.prev.Some? {
        SameWindow(d, e.prev.value);
        var r := (e.Height() + 1) % d.window;
        if e.Height() >= r {
          AncestorOfPrev(e, e.Height() - r);
        }
      }
    }
  }

  /** A window whose end lies before the start time is still DEFINED: what the
      backward loop stops at. */
  lemma {:induction false} EarlyIsDefined(d: Deployment, e: Entry)
    requires d.Valid() && d.Ordered() && ValidTimes(e) && LastOfWindow(d, e)
    requires MedianTime(e) < d.startTime
    ensures NextState(d, e) == DEFINED
    decreases e.Height()
  {
    hide MedianTime, ValidTimes, Bit;
    if e.Height() >= d.window {
      var a := e.Ancestor(e.Height() - d.window);
      MedianMonotone(e, e.Height() - d.window);
      WindowStep(e.Height() + 1, d.window);
      assert LastOfWindow(d, a);
      EarlyIsDefined(d, a);
    }
  }

  /** Otherwise stopping there would be wrong: a deployment that times out first has
      already failed before its start time. */
  lemma EarlyCanBeFailed(startTime: int, timeout: int, hash: Hash)
    requires timeout < startTime
    ensures var d, e := Deployment(0, startTime, timeout, 1, 1), Entry(hash, timeout, 0, None);
            !d.Ordered() && ValidTimes(e) && LastOfWindow(d, e) && MedianTime(e) < d.startTime
            && NextState(d, e) == FAILED
  {
    var e := Entry(hash, timeout, 0, None);
    SingleMedian(e);
  }

  lemma SingleMedian(e: Entry)
    requires e.prev.None?
    ensures MedianTime(e) == e.time
  {
    assert Times(e, MEDIAN_TIMESPAN) == [e.time];
    assert Sort([e.time]) == [e.time];
  }

  /** The window before `e`'s ended after the timeout and before the start. */
  predicate TimedOutUnstarted(d: Deployment, e: Entry)
    requires d.Valid()
  {
    var end := WindowEnd(d, e);
    end.Some? && d.timeout <= MedianTime(end.value) < d.startTime
  }

  /** Exactly then does the program's answer differ from that of BIP 9, which has
      FAILED there. */
  lemma EffectiveAgrees(d: Deployment, e: Entry)
    requires d.Valid() && ValidTimes(e)
    ensures NextState(d.Effective(), e) == NextState(d, e) <==> !TimedOutUnstarted(d, e)
    ensures TimedOutUnstarted(d, e) ==> NextState(d, e) == FAILED && NextState(d.Effective(), e) == DEFINED
  {
    hide NextState, MedianTime, ValidTimes;
    if !d.Ordered() {
      var f, end := d.Effective(), WindowEnd(d, e);
      assert WindowEnd(f, e) == end;
      SameWindow(d, e);
      SameWindow(f, e);
      if end.Some? {
        EndIsAncestor(d, e);
        MedianMonotone(e, end.value.Height());
        NeverStarts(d, end.value);
        NeverStarts(f, end.value);
      }
    }
  }

  lemma EndIsAncestor(d: Deployment, e: Entry)
    requires d.Valid() && WindowEnd(d, e).Some?
    ensures var end := WindowEnd(d, e).value; end.Height() <= e.Height() && end == e.Ancestor(end.Height())
  {
  }

  /** A deployment that is not given time to start fails at its timeout. */
  lemma {:induction false} NeverStarts(d: Deployment, e: Entry)
    requires d.Valid() && d.timeout <= d.startTime && ValidTimes(e) && LastOfWindow(d, e)
    ensures NextState(d, e) == if MedianTime(e) >= d.timeout then FAILED else DEFINED
    decreases e.Height()
  {
    hide MedianTime, ValidTimes, Bit;
    if e.Height() >= d.window {
      var a := e.Ancestor(e.Height() - d.window);
      MedianMonotone(e, e.Height() - d.window);
      WindowStep(e.Height() + 1, d.window);
      assert LastOfWindow(d, a);
      NeverStarts(d, a);
    }
  }

  lemma WindowStep(h: int, w: int)
    requires w >= 1 && h % w == 0
    ensures (h - w) % w == 0
  {
    Quotient(h - w, w, h / w - 1, 0);
  }

  /** Neither ACTIVE nor FAILED is ever left along a chain. */
  lemma {:induction false} Terminal(d: Deployment, e: Entry, height: nat)
    requires d.Valid() && height <= e.Height()
    requires var s := NextState(d, e.Ancestor(height)); s == ACTIVE || s == FAILED
    ensures NextState(d, e) == NextState(d, e.Ancestor(height))
    decreases e.Height()
  {
    if height < e.Height() {
      Terminal(d, e.prev.value, height);
      if LastOfWindow(d, e) && e.Height() >= d.window {
        BoundaryState(d, e);
      } else if LastOfWindow(d, e) {
        FirstWindow(d, e.prev.value);
      }
    }
  }

  /** The state just before a boundary is the state of the whole window. */
  lemma BoundaryState(d: Deployment, e: Entry)
    requires d.Valid() && LastOfWindow(d, e) && d.window <= e.Height()
    ensures NextState(d, e.prev.value) == Before(d, e)
  {
    hide NextState, MedianTime;
    SameWindow(d, e.prev.value);
    BoundaryRemainder(e.Height(), d.window);
    AncestorOfPrev(e, e.Height() - d.window);
  }

  lemma BoundaryRemainder(h: nat, w: nat)
    requires 1 <= w <= h && (h + 1) % w == 0
    ensures h % w == w - 1
  {
    var q := (h + 1) / w;
    assert h + 1 == q * w;
    assert h == (q - 1) * w + (w - 1);
    Quotient(h, w, q - 1, w - 1);
  }

  lemma AncestorOfPrev(e: Entry, height: nat)
    requires height < e.Height()
    ensures e.Ancestor(height) == e.prev.value.Ancestor(height)
  {
  }

  lemma {:induction false} FirstWindow(d: Deployment, e: Entry)
    requires d.Valid() && e.Height() + 1 < d.window
    ensures NextState(d, e) == DEFINED
    decreases e.Height()
  {
    Quotient(e.Height() + 1, d.window, 0, e.Height() + 1);
    if e.prev.Some? {
      FirstWindow(d, e.prev.value);
    }
  }

  // ---------------------------------------------------------------------
  // The states in closed form
  // ---------------------------------------------------------------------

  /** The heights of the signalling blocks from one height up to another. */
  function Signalling(e: Entry, bit: nat, from: nat, to: nat): set<nat>
    requires to <= e.Height() + 1
  {
    set a: nat | from <= a < to && e.Ancestor(a).HasBit(bit)
  }

  /** The window that ends at `height` locks the deployment in: it had started before
      the window, has not timed out, and enough blocks of the window signal. */
  predicate LocksIn(d: Deployment, e: Entry, height: nat)
    requires d.Valid() && height <= e.Height()
  {
    && (height + 1) % d.window == 0 && d.window <= height
    && MedianTime(e.Ancestor(height - d.window)) >= d.startTime
    && MedianTime(e.Ancestor(height)) < d.timeout
    && |Signalling(e, d.bit, height + 1 - d.window, height + 1)| >= d.threshold
  }

  predicate LockedBefore(d: Deployment, e: Entry, height: nat)
    requires d.Valid() && height <= e.Height()
  {
    exists a: nat :: a < height && LocksIn(d, e, a)
  }

  /** After a window: ACTIVE when an earlier window locked it in, LOCKED_IN when this
      one did; otherwise the median time at its end says whether the deployment has
      timed out, started, or neither. */
  lemma {:induction false} ClosedForm(d: Deployment, e: Entry)
    requires d.Valid() && d.Ordered() && ValidTimes(e) && LastOfWindow(d, e)
    ensures NextState(d, e)
            == if LockedBefore(d, e, e.Height()) then ACTIVE
               else if LocksIn(d, e, e.Height()) then LOCKED_IN
               else if MedianTime(e) >= d.timeout then FAILED
               else if MedianTime(e) >= d.startTime then STARTED
               else DEFINED
    decreases e.Height()
  {
    hide MedianTime, ValidTimes, Signals, LocksIn;
    var h := e.Height();
    LongEnough(d, e);
    if h >= d.window {
      var p := e.Ancestor(h - d.window);
      MedianMonotone(e, h - d.window);
      WindowStep(h + 1, d.window);
      ClosedForm(d, p);
      LocksHere(d, e);
      NoneBetween(d, e);
    } else {
      NoLockYet(d, e);
    }
  }

  /** Whether the window that has just ended locks the deployment in. */
  lemma LocksHere(d: Deployment, e: Entry)
    requires d.Valid() && LastOfWindow(d, e) && d.window <= e.Height()
    ensures LocksIn(d, e, e.Height()) <==>
              && MedianTime(e.Ancestor(e.Height() - d.window)) >= d.startTime
              && MedianTime(e) < d.timeout && Signals(e, d.bit, d.window) >= d.threshold
  {
    hide MedianTime, Signals, Signalling;
    SignalsAre(e, d.bit, d.window);
  }

  /** No window ends between this end and the last. */
  lemma NoneBetween(d: Deployment, e: Entry)
    requires d.Valid() && LastOfWindow(d, e) && d.window <= e.Height()
    ensures var p := e.Ancestor(e.Height() - d.window);
            LockedBefore(d, e, e.Height()) <==> LockedBefore(d, p, p.Height()) || LocksIn(d, p, p.Height())
  {
    hide MedianTime, Signalling;
    var h, p := e.Height(), e.Ancestor(e.Height() - d.window);
    forall a: nat | a < h && LocksIn(d, e, a) ensures a <= p.Height() {
      OneWindow(a + 1, h + 1, d.window);
    }
    hide LocksIn;
    forall a: nat | a <= p.Height() ensures LocksIn(d, p, a) <==> LocksIn(d, e, a) {
      SameLock(d, e, p.Height(), a);
    }
  }

  lemma NoLockYet(d: Deployment, e: Entry)
    requires d.Valid() && e.Height() < d.window
    ensures !LockedBefore(d, e, e.Height()) && !LocksIn(d, e, e.Height())
  {
  }

  /** Two multiples of the window are a window apart. */
  lemma OneWindow(a: int, b: int, w: int)
    requires w >= 1 && 1 <= a < b && a % w == 0 && b % w == 0
    ensures a + w <= b
  {
    var i, j := a / w, b / w;
    assert a == i * w && b == j * w;
    if j > i { Gap(j, i, w); } else if j < i { Gap(i, j, w); }
  }

  lemma {:induction false} AncestorOfAncestor(e: Entry, height: nat, a: nat)
    requires a <= height <= e.Height()
    ensures e.Ancestor(height).Ancestor(a) == e.Ancestor(a)
    decreases e
  {
    if height < e.Height() {
      AncestorOfAncestor(e.prev.value, height, a);
      AncestorOfPrev(e, a);
    }
  }

  lemma SameLock(d: Deployment, e: Entry, height: nat, a: nat)
    requires d.Valid() && a <= height <= e.Height()
    ensures LocksIn(d, e.Ancestor(height), a) <==> LocksIn(d, e, a)
  {
    hide MedianTime, Entry.HasBit;
    var p := e.Ancestor(height);
    forall b: nat | b <= a ensures p.Ancestor(b) == e.Ancestor(b) {
      AncestorOfAncestor(e, height, b);
    }
    if d.window <= a + 1 {
      assert Signalling(p, d.bit, a + 1 - d.window, a + 1) == Signalling(e, d.bit, a + 1 - d.window, a + 1);
    }
  }

  /** The signals counted are those of the window. */
  lemma {:induction false} SignalsAre(e: Entry, bit: nat, k: nat)
    requires k <= e.Height() + 1
    ensures Signals(e, bit, k) == |Signalling(e, bit, e.Height() + 1 - k, e.Height() + 1)|
    decreases e
  {
    hide Entry.HasBit;
    var h := e.Height();
    if k == 0 {
      assert Signalling(e, bit, h + 1, h + 1) == {};
    } else if k == 1 {
      assert Signalling(e, bit, h, h + 1) == if e.HasBit(bit) then {h} else {};
    } else {
      SignalsAre(e.prev.value, bit, k - 1);
      OneMoreHeight(e, bit, h + 1 - k);
    }
  }

  lemma OneMoreHeight(e: Entry, bit: nat, from: nat)
    requires e.prev.Some? && from < e.Height()
    ensures var rest := Signalling(e.prev.value, bit, from, e.Height());
            && e.Height() !in rest
            && Signalling(e, bit, from, e.Height() + 1) == rest + if e.HasBit(bit) then {e.Height()} else {}
  {
    hide Entry.HasBit;
    forall a: nat | a < e.Height() ensures e.Ancestor(a) == e.prev.value.Ancestor(a) {
      AncestorOfPrev(e, a);
    }
  }

  // ---------------------------------------------------------------------
  // The cache and the loop
  // ---------------------------------------------------------------------

  datatype CacheUpdate = CacheUpdate(bit: nat, hash: Hash, state: State)

  /** Entries known to the database: hashes identify them, and every one obeys
      the time rule. */
  ghost predicate Known(entries: set<Entry>) {
    && (forall e :: e in entries ==> ValidTimes(e))
    && (forall e :: e in entries && e.prev.Some? ==> e.prev.value in entries)
    && (forall a, b :: a in entries && b in entries && a.hash == b.hash ==> a == b)
  }

  /** What the cache says about known entries is the state of the next block. */
  ghost predicate Sound(d: Deployment, entries: set<Entry>, cache: map<Hash, State>)
    requires d.Valid()
  {
    forall e :: e in entries && e.hash in cache ==> LastOfWindow(d, e) && cache[e.hash] == NextState(d, e)
  }

  function Put(cache: map<Hash, State>, hash: Hash, state: State): map<Hash, State> {
    cache[hash := state]
  }

  class StateCache {
    var bits: map<nat, map<Hash, State>>
    var updates: seq<CacheUpdate>

    constructor (deployed: set<nat>)
      ensures bits == map b | b in deployed :: map[]
      ensures updates == []
    {
      bits := map b | b in deployed :: map[];
      updates := [];
    }

    method Set(bit: nat, hash: Hash, state: State)
      requires bit in bits
      modifies this
      ensures bits == old(bits)[bit := Put(old(bits)[bit], hash, state)]
      ensures updates == if hash in old(bits)[bit] && old(bits)[bit][hash] == state then old(updates)
                         else old(updates) + [CacheUpdate(bit, hash, state)]
    {
      if hash !in bits[bit] || bits[bit][hash] != state {
        bits := bits[bit := Put(bits[bit], hash, state)];
        updates := updates + [CacheUpdate(bit, hash, state)];
      } else {
        assert Put(bits[bit], hash, state) == bits[bit];
        assert bits[bit := bits[bit]] == bits;
      }
    }

    method Commit()
      modifies this`updates
      ensures updates == []
    {
      updates := [];
    }

    /** `drop`: exactly the entries set since the last commit are forgotten. */
    method Drop()
      requires forall i :: 0 <= i < |updates| ==> updates[i].bit in bits
      modifies this
      ensures updates == [] && bits.Keys == old(bits).Keys
      ensures forall b :: b in bits ==> bits[b] == old(bits)[b] - Logged(old(updates), b)
    {
      var i := 0;
      while i < |updates|
        invariant 0 <= i <= |updates| && updates == old(updates)
        invariant bits.Keys == old(bits).Keys
        invariant forall b :: b in bits ==> bits[b] == old(bits)[b] - Logged(updates[..i], b)
      {
        LoggedMore(updates, i);
        var bit, hash := updates[i].bit, updates[i].hash;
        bits := bits[bit := bits[bit] - {hash}];
        i := i + 1;
      }
      updates := [];
    }
  }

  /** The hashes that the log names for a bit. */
  function Logged(updates: seq<CacheUpdate>, bit: nat): set<Hash> {
    set i | 0 <= i < |updates| && updates[i].bit == bit :: updates[i].hash
  }

  lemma LoggedMore(updates: seq<CacheUpdate>, i: nat)
    requires i < |updates|
    ensures forall b :: Logged(updates[..i + 1], b) ==
              Logged(updates[..i], b) + if updates[i].bit == b then {updates[i].hash} else {}
    ensures updates[..|updates|] == updates
  {
    forall b ensures Logged(updates[..i + 1], b) ==
        Logged(updates[..i], b) + if updates[i].bit == b then {updates[i].hash} else {}
    {
      assert forall j :: 0 <= j < i ==> updates[..i][j] == updates[..i + 1][j];
    }
  }

  predicate Submap(a: map<Hash, State>, b: map<Hash, State>) {
    forall h :: h in a ==> h in b && a[h] == b[h]
  }

  lemma SoundSubmap(d: Deployment, entries: set<Entry>, a: map<Hash, State>, b: map<Hash, State>)
    requires d.Valid() && Sound(d, entries, b) && Submap(a, b)
    ensures Sound(d, entries, a)
  {
  }

  lemma SoundSet(d: Deployment, entries: set<Entry>, cache: map<Hash, State>, e: Entry, state: State)
    requires d.Valid() && Known(entries) && Sound(d, entries, cache)
    requires e in entries && LastOfWindow(d, e) && state == NextState(d, e)
    ensures Sound(d, entries, Put(cache, e.hash, state))
  {
  }

  /** A new entry is nobody's cached hash. */
  lemma SoundGrow(d: Deployment, entries: set<Entry>, cache: map<Hash, State>, e: Entry)
    requires d.Valid() && Sound(d, entries, cache) && e.hash !in cache
    ensures Sound(d, entries + {e}, cache)
  {
  }

  /** `entries` holds the ancestors of its members. */
  lemma {:induction false} KnownAncestor(entries: set<Entry>, e: Entry, height: nat)
    requires Known(entries) && e in entries && height <= e.Height()
    ensures e.Ancestor(height) in entries
    decreases e
  {
    if height < e.Height() {
      KnownAncestor(entries, e.prev.value, height);
    }
  }

  /** The counting loop of the STARTED case: it never needs a block below
      genesis, and it may stop early. */
  method CountSignals(e: Entry, d: Deployment) returns (reached: bool)
    requires d.window <= e.Height() && 1 <= d.window
    ensures reached <==> Signals(e, d.bit, d.window) >= d.threshold
  {
    hide Entry.HasBit;
    var block, count, i := e, 0, 0;
    while i < d.window
      invariant 0 <= i <= d.window && block.Height() == e.Height() - i
      invariant count + (if i < d.window then Signals(block, d.bit, d.window - i) else 0)
                == Signals(e, d.bit, d.window)
      invariant i > 0 ==> count < d.threshold
    {
      if block.HasBit(d.bit) {
        count := count + 1;
      }
      if count >= d.threshold {
        return true;
      }
      assert block.prev.Some?;
      block := block.prev.value;
      i := i + 1;
    }
    return false;
  }

  /** One step of the forward loop: `state` was computed for the window before
      the one that ends at `entry`. */
  method Advance(d: Deployment, state: State, entry: Entry) returns (next: State)
    requires d.Valid() && d.window <= entry.Height() + 1
    requires state == STARTED ==> d.window <= entry.Height()
    ensures next == Transition(d, state, entry)
  {
    next := state;
    match state {
      case DEFINED =>
        var time := MedianTime(entry);
        if time >= d.timeout {
          next := FAILED;
        } else if time >= d.startTime {
          next := STARTED;
        }
      case STARTED =>
        var time := MedianTime(entry);
        if time >= d.timeout {
          next := FAILED;
        } else {
          var reached := CountSignals(entry, d);
          if reached {
            next := LOCKED_IN;
          }
        }
      case LOCKED_IN =>
        next := ACTIVE;
      case ACTIVE =>
      case FAILED =>
    }
  }

  /** The windows still to compute, latest first, each ending one window before
      the previous one. */
  ghost predicate Pending(d: Deployment, entries: set<Entry>, last: Entry, compute: seq<Entry>)
    requires d.Valid()
  {
    && (forall i :: 0 <= i < |compute| ==>
          && compute[i] in entries && LastOfWindow(d, compute[i]) && d.window <= compute[i].Height() + 1
          && MedianTime(compute[i]) >= d.startTime)
    && (|compute| > 0 ==> compute[0] == last)
    && (forall i :: 0 <= i < |compute| - 1 ==>
          && d.window <= compute[i].Height()
          && compute[i + 1] == compute[i].Ancestor(compute[i].Height() - d.window))
  }

  /** The state that the forward loop continues from. */
  function Resume(d: Deployment, last: Entry, compute: seq<Entry>): State
    requires d.Valid()
  {
    if compute == [] then NextState(d, last) else Before(d, compute[|compute| - 1])
  }

  lemma LongEnough(d: Deployment, e: Entry)
    requires d.Valid() && LastOfWindow(d, e)
    ensures d.window <= e.Height() + 1
  {
  }

  lemma StepToPrevious(d: Deployment, entries: set<Entry>, e: Entry)
    requires d.Valid() && Known(entries) && e in entries && LastOfWindow(d, e) && d.window <= e.Height()
    ensures e.Ancestor(e.Height() - d.window) in entries
    ensures LastOfWindow(d, e.Ancestor(e.Height() - d.window))
  {
    hide Known, MedianTime, ValidTimes;
    KnownAncestor(entries, e, e.Height() - d.window);
    WindowStep(e.Height() + 1, d.window);
  }

  lemma NextOfBoundary(d: Deployment, e: Entry)
    requires d.Valid() && LastOfWindow(d, e) && d.window <= e.Height() + 1
    ensures NextState(d, e) == Transition(d, Before(d, e), e)
    ensures Before(d, e) == STARTED ==> d.window <= e.Height()
  {
  }

  /** Past the start time it does not matter that the timeout was earlier. */
  lemma EffectiveStep(d: Deployment, state: State, e: Entry)
    requires d.Valid() && d.window <= e.Height() + 1 && MedianTime(e) >= d.startTime
    ensures Transition(d.Effective(), state, e) == Transition(d, state, e)
  {
    hide MedianTime;
  }

  /** The backward loop of `getState`, which looks at no timeout: `f` is any ordered
      deployment like `d`. */
  method Backward(cache: StateCache, d: Deployment, last: Entry, ghost f: Deployment, ghost entries: set<Entry>)
      returns (state: State, compute: seq<Entry>)
    requires f.Valid() && f.Ordered() && f.bit == d.bit && f.window == d.window && f.startTime == d.startTime
    requires d.bit in cache.bits
    requires Known(entries) && Sound(f, entries, cache.bits[d.bit])
    requires last in entries && LastOfWindow(f, last)
    modifies cache
    ensures Pending(f, entries, last, compute) && state == Resume(f, last, compute)
    ensures cache.bits.Keys == old(cache.bits.Keys)
    ensures Sound(f, entries, cache.bits[d.bit])
    ensures forall b :: b in cache.bits && b != d.bit ==> cache.bits[b] == old(cache.bits)[b]
  {
    hide NextState, MedianTime, Known, Sound, LastOfWindow, Pending, Resume, Seeking;
    var entry := Some(last);
    state, compute := DEFINED, [];
    SeekFirst(f, entries, last);
    while entry.Some?
      invariant Seeking(f, entries, last, compute, entry) && state == DEFINED
      invariant cache.bits == old(cache.bits)
      decreases if entry.Some? then entry.value.Height() + 1 else 0
    {
      var e := entry.value;
      SeekingNow(f, entries, last, compute, e);
      if e.hash in cache.bits[d.bit] {
        state := cache.bits[d.bit][e.hash];
        CachedState(f, entries, cache.bits[d.bit], e);
        return;
      }
      var time := MedianTime(e);
      if time < d.startTime {
        KnownTimes(entries, e);
        EarlyIsDefined(f, e);
        SoundSet(f, entries, cache.bits[d.bit], e, DEFINED);
        cache.Set(d.bit, e.hash, DEFINED);
        return;
      }
      SeekNext(f, entries, last, compute, e);
      compute := compute + [e];
      entry := if e.Height() < d.window then None else Some(e.Ancestor(e.Height() - d.window));
    }
    SeekDone(f, entries, last, compute);
  }

  /** What the backward loop keeps: the next window end to look at is the one
      before the last pushed, and its state is the one to resume from. */
  ghost predicate Seeking(d: Deployment, entries: set<Entry>, last: Entry, compute: seq<Entry>, entry: Option<Entry>)
    requires d.Valid()
  {
    && Pending(d, entries, last, compute)
    && (entry.None? ==> Resume(d, last, compute) == DEFINED)
    && (entry.Some? ==>
          && entry.value in entries && LastOfWindow(d, entry.value)
          && Resume(d, last, compute) == NextState(d, entry.value)
          && (compute == [] ==> entry.value == last)
          && (compute != [] ==>
                && d.window <= compute[|compute| - 1].Height()
                && entry.value == compute[|compute| - 1].Ancestor(compute[|compute| - 1].Height() - d.window)))
  }

  lemma SeekFirst(d: Deployment, entries: set<Entry>, last: Entry)
    requires d.Valid() && last in entries && LastOfWindow(d, last)
    ensures Seeking(d, entries, last, [], Some(last))
  {
  }

  lemma SeekingNow(d: Deployment, entries: set<Entry>, last: Entry, compute: seq<Entry>, e: Entry)
    requires d.Valid() && Seeking(d, entries, last, compute, Some(e))
    ensures e in entries && LastOfWindow(d, e) && Resume(d, last, compute) == NextState(d, e)
    ensures Pending(d, entries, last, compute)
  {
  }

  lemma SeekNext(d: Deployment, entries: set<Entry>, last: Entry, compute: seq<Entry>, e: Entry)
    requires d.Valid() && Known(entries) && Seeking(d, entries, last, compute, Some(e))
    requires MedianTime(e) >= d.startTime
    ensures Seeking(d, entries, last, compute + [e],
                    if e.Height() < d.window then None else Some(e.Ancestor(e.Height() - d.window)))
  {
    hide NextState, Known, LastOfWindow, MedianTime;
    LongEnough(d, e);
    if e.Height() >= d.window { StepToPrevious(d, entries, e); }
  }

  lemma SeekDone(d: Deployment, entries: set<Entry>, last: Entry, compute: seq<Entry>)
    requires d.Valid() && Seeking(d, entries, last, compute, None)
    ensures Pending(d, entries, last, compute) && Resume(d, last, compute) == DEFINED
  {
  }

  lemma KnownTimes(entries: set<Entry>, e: Entry)
    requires Known(entries) && e in entries
    ensures ValidTimes(e)
  {
  }

  lemma CachedState(d: Deployment, entries: set<Entry>, cache: map<Hash, State>, e: Entry)
    requires d.Valid() && Sound(d, entries, cache) && e in entries && e.hash in cache
    ensures cache[e.hash] == NextState(d, e)
  {
  }

  /** A deployment and its effective form have the same windows. */
  lemma EffectiveWindows(d: Deployment, last: Entry)
    requires d.Valid()
    ensures var f := d.Effective();
            && f.Valid() && f.Ordered() && f.bit == d.bit && f.window == d.window && f.startTime == d.startTime
            && WindowEnd(f, last) == WindowEnd(d, last) && LastOfWindow(f, last) == LastOfWindow(d, last)
  {
  }

  /** The forward loop of `getState`: the windows still to compute, earliest first. */
  method Forward(cache: StateCache, d: Deployment, last: Entry, start: State, todo: seq<Entry>,
                 ghost f: Deployment, ghost entries: set<Entry>) returns (state: State)
    requires d.Valid() && d.bit in cache.bits && f == d.Effective()
    requires Known(entries) && Sound(f, entries, cache.bits[d.bit])
    requires Pending(f, entries, last, todo) && start == Resume(f, last, todo)
    modifies cache
    ensures state == NextState(f, last)
    ensures cache.bits.Keys == old(cache.bits.Keys)
    ensures Sound(f, entries, cache.bits[d.bit])
    ensures forall b :: b in cache.bits && b != d.bit ==> cache.bits[b] == old(cache.bits)[b]
  {
    EffectiveWindows(d, last);
    hide NextState, Before, Known, Sound, Deployment.Effective, MedianTime, Transition, Pending, LastOfWindow, Resume;
    ResumeDone(f, last);
    state := start;
    var compute := todo;
    while compute != []
      invariant Pending(f, entries, last, compute) && state == Resume(f, last, compute)
      invariant d.bit in cache.bits && Sound(f, entries, cache.bits[d.bit])
      invariant cache.bits.Keys == old(cache.bits.Keys)
      invariant forall b :: b in cache.bits && b != d.bit ==> cache.bits[b] == old(cache.bits)[b]
      decreases |compute|
    {
      var entry := compute[|compute| - 1];
      PendingLast(f, entries, last, compute);
      NextOfBoundary(f, entry);
      EffectiveStep(d, state, entry);
      state := Advance(d, state, entry);
      SoundSet(f, entries, cache.bits[d.bit], entry, state);
      cache.Set(d.bit, entry.hash, state);
      ContinueFrom(f, entries, last, compute);
      compute := compute[..|compute| - 1];
    }
  }

  lemma PendingLast(d: Deployment, entries: set<Entry>, last: Entry, compute: seq<Entry>)
    requires d.Valid() && Pending(d, entries, last, compute) && compute != []
    ensures var e := compute[|compute| - 1];
            && e in entries && LastOfWindow(d, e) && d.window <= e.Height() + 1 && MedianTime(e) >= d.startTime
            && Resume(d, last, compute) == Before(d, e)
  {
    hide NextState, MedianTime;
  }

  lemma ResumeDone(d: Deployment, last: Entry)
    requires d.Valid()
    ensures Resume(d, last, []) == NextState(d, last)
  {
  }

  lemma ContinueFrom(d: Deployment, entries: set<Entry>, last: Entry, compute: seq<Entry>)
    requires d.Valid() && Pending(d, entries, last, compute) && compute != []
    ensures Pending(d, entries, last, compute[..|compute| - 1])
    ensures Resume(d, last, compute[..|compute| - 1]) == NextState(d, compute[|compute| - 1])
  {
    hide NextState, MedianTime, LastOfWindow;
  }

  /** The window end that `getState` starts from. */
  method FindWindowEnd(d: Deployment, prev: Entry, ghost entries: set<Entry>) returns (end: Option<Entry>)
    requires d.Valid() && Known(entries) && prev in entries
    ensures end == WindowEnd(d, prev)
    ensures end.Some? ==> end.value in entries
  {
    var r := (prev.Height() + 1) % d.window;
    if r == 0 {
      return Some(prev);
    }
    if prev.Height() < r {
      return None;
    }
    KnownAncestor(entries, prev, prev.Height() - r);
    return Some(prev.Ancestor(prev.Height() - r));
  }

  /** `getState`: with any sound cache, the state of the effective deployment,
      which is the BIP 9 state unless the timeout came first, and the cache stays
      sound. */
  method GetState(cache: StateCache, d: Deployment, prev: Entry, ghost entries: set<Entry>)
      returns (state: State)
    requires d.Valid() && d.bit in cache.bits
    requires Known(entries) && prev in entries && Sound(d.Effective(), entries, cache.bits[d.bit])
    modifies cache
    ensures state == NextState(d.Effective(), prev)
    ensures state == NextState(d, prev) <==> !TimedOutUnstarted(d, prev)
    ensures cache.bits.Keys == old(cache.bits.Keys)
    ensures Sound(d.Effective(), entries, cache.bits[d.bit])
    ensures forall b :: b in cache.bits && b != d.bit ==> cache.bits[b] == old(cache.bits)[b]
  {
    KnownTimes(entries, prev);
    EffectiveAgrees(d, prev);
    ghost var f := d.Effective();
    SameWindow(f, prev);
    EffectiveWindows(d, prev);
    var end := FindWindowEnd(d, prev, entries);
    hide *;
    if end.None? {
      return DEFINED;
    }
    var compute;
    state, compute := Backward(cache, d, end.value, f, entries);
    state := Forward(cache, d, end.value, state, compute, f, entries);
  }

  /** One block after its timeout a deployment has FAILED by BIP 9; the program
      answers DEFINED while its start time is still to come. */
  method DefinedAfterTimeout(startTime: int, timeout: int, hash: Hash) returns (state: State)
    requires timeout < startTime
    ensures state == DEFINED
    ensures NextState(Deployment(0, startTime, timeout, 1, 1), Entry(hash, timeout, 0, None)) == FAILED
  {
    var d, e := Deployment(0, startTime, timeout, 1, 1), Entry(hash, timeout, 0, None);
    var cache := new StateCache({0});
    EarlyCanBeFailed(startTime, timeout, hash);
    EffectiveAgrees(d, e);
    hide NextState, MedianTime;
    assert d.bit in cache.bits;
    state := GetState(cache, d, e, {e});
  }
}
