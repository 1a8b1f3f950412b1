/**
 How often covenants of each kind may occur in a block, and that a name is
 touched at most once.
 */
module NameLimits {
  import opened Primitives

  const MAX_BLOCK_OPENS := 300
  const MAX_BLOCK_UPDATES := 600
  const MAX_BLOCK_RENEWALS := 600

  predicate IsUpdate(c: Covenant) {
    c.Claim? || c.Open? || c.Update? || c.Transfer? || c.Revoke?
  }

  predicate IsRenewal(c: Covenant) {
    c.Register? || c.Renew? || c.Finalize?
  }

  /** Opens, updates and renewals. */
  datatype Counts = Counts(opens: nat, updates: nat, renewals: nat) {
    predicate Within(limits: Counts) {
      opens <= limits.opens && updates <= limits.updates && renewals <= limits.renewals
    }

    function Plus(other: Counts): Counts {
      Counts(opens + other.opens, updates + other.updates, renewals + other.renewals)
    }
  }

  const NO_COUNTS := Counts(0, 0, 0)
  const BLOCK_LIMITS := Counts(MAX_BLOCK_OPENS, MAX_BLOCK_UPDATES, MAX_BLOCK_RENEWALS)

  function CountOne(c: Covenant): Counts {
    Counts(if c.Open? then 1 else 0, if IsUpdate(c) then 1 else 0, if IsRenewal(c) then 1 else 0)
  }

  function CountsOf(outputs: seq<Output>): Counts {
    if outputs == [] then NO_COUNTS
    else
      CountsOf(outputs[..|outputs| - 1]).Plus(CountOne(outputs[|outputs| - 1].covenant))
  }

  function BlockCounts(txs: seq<TX>): Counts {
    if txs == [] then NO_COUNTS
    else BlockCounts(txs[..|txs| - 1]).Plus(CountsOf(txs[|txs| - 1].outputs))
  }

  function Opens(outputs: seq<Output>): set<nat> {
    set i: nat | i < |outputs| && outputs[i].covenant.Open?
  }

  /** Outputs that change the tree, but for those that renew a name. */
  function Updates(outputs: seq<Output>): set<nat> {
    set i: nat | i < |outputs|
                 && var c := outputs[i].covenant; c.Claim? || c.Open? || c.Update? || c.Transfer? || c.Revoke?
  }

  function Renewals(outputs: seq<Output>): set<nat> {
    set i: nat | i < |outputs| && var c := outputs[i].covenant; c.Register? || c.Renew? || c.Finalize?
  }

  /** The counts are numbers of outputs. */
  lemma {:induction false} CountsAre(outputs: seq<Output>)
    ensures CountsOf(outputs) == Counts(|Opens(outputs)|, |Updates(outputs)|, |Renewals(outputs)|)
  {
    if outputs == [] {
      assert Opens(outputs) == {} && Updates(outputs) == {} && Renewals(outputs) == {};
    } else {
      CountsAre(outputs[..|outputs| - 1]);
      LastPlace(outputs);
      hide Opens, Updates, Renewals, IsUpdate, IsRenewal;
    }
  }

  lemma LastPlace(outputs: seq<Output>)
    requires outputs != []
    ensures var init, last := outputs[..|outputs| - 1], CountOne(outputs[|outputs| - 1].covenant);
            && |Opens(outputs)| == |Opens(init)| + last.opens
            && |Updates(outputs)| == |Updates(init)| + last.updates
            && |Renewals(outputs)| == |Renewals(init)| + last.renewals
  {
    var k, c := |outputs| - 1, outputs[|outputs| - 1].covenant;
    LastSet(Opens(outputs), Opens(outputs[..k]), k, c.Open?);
    LastSet(Updates(outputs), Updates(outputs[..k]), k, IsUpdate(c));
    LastSet(Renewals(outputs), Renewals(outputs[..k]), k, IsRenewal(c));
  }

  lemma LastSet(all: set<nat>, init: set<nat>, k: nat, last: bool)
    requires forall i: nat :: i in all <==> i in init || (i == k && last)
    requires k !in init
    ensures |all| == |init| + if last then 1 else 0
  {
    assert all == init + if last then {k} else {};
  }

  lemma CountsNone()
    ensures CountsOf([]) == NO_COUNTS
  {
  }

  lemma CountsStep(outputs: seq<Output>, i: nat)
    requires i < |outputs|
    ensures CountsOf(outputs[..i + 1]) == CountsOf(outputs[..i]).Plus(CountOne(outputs[i].covenant))
  {
    assert outputs[..i + 1][..i] == outputs[..i];
  }

  method CountOpens(tx: TX) returns (total: nat)
    ensures total == CountsOf(tx.outputs).opens
  {
    hide IsUpdate, IsRenewal, CountsOf;
    assert tx.outputs[..0] == [];
    CountsNone();
    total := 0;
    for i := 0 to |tx.outputs|
      invariant total == CountsOf(tx.outputs[..i]).opens
    {
      CountsStep(tx.outputs, i);
      if tx.outputs[i].covenant.Open? { total := total + 1; }
    }
    assert tx.outputs[..|tx.outputs|] == tx.outputs;
  }

  method CountUpdates(tx: TX) returns (total: nat)
    ensures total == CountsOf(tx.outputs).updates
  {
    hide IsUpdate, IsRenewal, CountsOf;
    assert tx.outputs[..0] == [];
    CountsNone();
    total := 0;
    for i := 0 to |tx.outputs|
      invariant total == CountsOf(tx.outputs[..i]).updates
    {
      CountsStep(tx.outputs, i);
      if IsUpdate(tx.outputs[i].covenant) { total := total + 1; }
    }
    assert tx.outputs[..|tx.outputs|] == tx.outputs;
  }

  method CountRenewals(tx: TX) returns (total: nat)
    ensures total == CountsOf(tx.outputs).renewals
  {
    hide IsUpdate, IsRenewal, CountsOf;
    assert tx.outputs[..0] == [];
    CountsNone();
    total := 0;
    for i := 0 to |tx.outputs|
      invariant total == CountsOf(tx.outputs[..i]).renewals
    {
      CountsStep(tx.outputs, i);
      if IsRenewal(tx.outputs[i].covenant) { total := total + 1; }
    }
    assert tx.outputs[..|tx.outputs|] == tx.outputs;
  }

  /** Covenants that may touch a name only once in a block. */
  predicate Exclusive(c: Covenant) {
    c.IsName() && !c.Bid? && !c.Reveal? && !c.Redeem?
  }

  function NamesOf(outputs: seq<Output>): set<Hash> {
    set o | o in outputs && Exclusive(o.covenant) :: o.covenant.nameHash
  }

  method HasNames(tx: TX, names: set<Hash>) returns (found: bool)
    ensures found <==> !(NamesOf(tx.outputs) !! names)
  {
    for i := 0 to |tx.outputs|
      invariant NamesOf(tx.outputs[..i]) !! names
    {
      var o := tx.outputs[i];
      assert tx.outputs[..i + 1] == tx.outputs[..i] + [o];
      if Exclusive(o.covenant) && o.covenant.nameHash in names {
        assert o.covenant.nameHash in NamesOf(tx.outputs);
        return true;
      }
    }
    assert tx.outputs[..|tx.outputs|] == tx.outputs;
    return false;
  }

  method AddNames(tx: TX, names: set<Hash>) returns (more: set<Hash>)
    ensures more == names + NamesOf(tx.outputs)
  {
    more := names;
    for i := 0 to |tx.outputs|
      invariant more == names + NamesOf(tx.outputs[..i])
    {
      var o := tx.outputs[i];
      assert tx.outputs[..i + 1] == tx.outputs[..i] + [o];
      if Exclusive(o.covenant) {
        more := more + {o.covenant.nameHash};
      }
    }
    assert tx.outputs[..|tx.outputs|] == tx.outputs;
  }

  function BlockNames(txs: seq<TX>): set<Hash> {
    if txs == [] then {} else BlockNames(txs[..|txs| - 1]) + NamesOf(txs[|txs| - 1].outputs)
  }

  /** Each transaction touches only names that none before it touches. */
  predicate NamesApart(txs: seq<TX>) {
    txs == []
    || var init := txs[..|txs| - 1];
       NamesApart(init) && NamesOf(txs[|txs| - 1].outputs) !! BlockNames(init)
  }

  lemma NotApart(txs: seq<TX>, i: nat)
    requires i < |txs| && !(NamesOf(txs[i].outputs) !! BlockNames(txs[..i]))
    ensures !NamesApart(txs)
  {
    assert txs[..i + 1][..i] == txs[..i];
    if NamesApart(txs) { ApartPrefix(txs, i + 1); }
  }

  /** The loop of block verification: it accepts exactly the blocks whose totals
      are within the limits and whose transactions touch different names. */
  method CheckNameLimits(txs: seq<TX>) returns (o: Outcome<()>)
    ensures o.Accept? <==> BlockCounts(txs).Within(BLOCK_LIMITS) && NamesApart(txs)
    ensures o.Accept? || o == Reject("bad-blk-opens") || o == Reject("bad-blk-updates")
            || o == Reject("bad-blk-renewals") || o == Reject("bad-blk-names")
    ensures o == Reject("bad-blk-names") ==> !NamesApart(txs)
    ensures o.Reject? && o != Reject("bad-blk-names") ==> !BlockCounts(txs).Within(BLOCK_LIMITS)
  {
    hide NamesOf, CountsOf;
    var names: set<Hash>, counts := {}, NO_COUNTS;
    for i := 0 to |txs|
      invariant names == BlockNames(txs[..i]) && NamesApart(txs[..i])
      invariant counts == BlockCounts(txs[..i]) && counts.Within(BLOCK_LIMITS)
    {
      var tx := txs[i];
      assert txs[..i + 1][..i] == txs[..i] && txs[..i + 1] == txs[..i] + [tx];
      CountsGrow(txs, i + 1);
      var opens := CountOpens(tx);
      if counts.opens + opens > MAX_BLOCK_OPENS {
        return Reject("bad-blk-opens");
      }
      var updates := CountUpdates(tx);
      if counts.updates + updates > MAX_BLOCK_UPDATES {
        return Reject("bad-blk-updates");
      }
      var renewals := CountRenewals(tx);
      if counts.renewals + renewals > MAX_BLOCK_RENEWALS {
        return Reject("bad-blk-renewals");
      }
      counts := counts.Plus(Counts(opens, updates, renewals));
      var found := HasNames(tx, names);
      if found {
        NotApart(txs, i);
        return Reject("bad-blk-names");
      }
      names := AddNames(tx, names);
    }
    assert txs[..|txs|] == txs;
    return Accept(());
  }

  lemma {:induction false} InBlockNames(txs: seq<TX>, n: Hash)
    ensures n in BlockNames(txs) <==> exists i :: 0 <= i < |txs| && n in NamesOf(txs[i].outputs)
  {
    hide NamesOf;
    if txs != [] {
      var init, last := txs[..|txs| - 1], txs[|txs| - 1];
      InBlockNames(init, n);
      if i :| 0 <= i < |init| && n in NamesOf(init[i].outputs) {
        assert txs[i] == init[i];
      }
      if i :| 0 <= i < |txs| && n in NamesOf(txs[i].outputs) {
        if i < |init| { assert init[i] == txs[i]; }
      }
    }
  }

  /** Apart means that no two transactions touch the same name. */
  lemma {:induction false} ApartPairwise(txs: seq<TX>)
    ensures NamesApart(txs) <==>
            forall i, j :: 0 <= i < j < |txs| ==> NamesOf(txs[i].outputs) !! NamesOf(txs[j].outputs)
  {
    hide NamesOf, BlockNames;
    if txs != [] {
      var init, last := txs[..|txs| - 1], txs[|txs| - 1];
      ApartPairwise(init);
      assert forall i :: 0 <= i < |init| ==> init[i] == txs[i];
      forall n ensures n in BlockNames(init) <==> exists i :: 0 <= i < |init| && n in NamesOf(init[i].outputs) {
        InBlockNames(init, n);
      }
      forall i, n | 0 <= i < |init| && NamesApart(txs) && n in NamesOf(txs[i].outputs) ensures n !in NamesOf(last.outputs) {
        assert n in NamesOf(init[i].outputs);
      }
    }
  }

  lemma {:induction false} ApartPrefix(txs: seq<TX>, k: nat)
    requires k <= |txs| && NamesApart(txs)
    ensures NamesApart(txs[..k])
    decreases |txs|
  {
    hide NamesOf, BlockNames;
    if k == |txs| {
      assert txs[..k] == txs;
    } else {
      ApartPrefix(txs[..|txs| - 1], k);
      assert txs[..|txs| - 1][..k] == txs[..k];
    }
  }

  /** A prefix counts no more than the whole. */
  lemma {:induction false} CountsGrow(txs: seq<TX>, k: nat)
    requires k <= |txs|
    ensures BlockCounts(txs[..k]).Within(BlockCounts(txs))
    decreases |txs| - k
  {
    if k == |txs| {
      assert txs[..k] == txs;
    } else {
      CountsGrow(txs, k + 1);
      assert txs[..k + 1][..k] == txs[..k];
    }
  }
}
