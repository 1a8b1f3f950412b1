/**
 A registered name without any coin: the transfer of a name to a nulldata
 address, run from genesis.  Every output that is spent pays to the hash of a
 public key, so its spend is a matter of a signature.
 */
module BurnedName {
  import opened Primitives
  import opened Names
  import opened Ledger
  import opened Auction
  import opened Ownership

  function H(k: Byte): Hash {
    ZERO_HASH[0 := k]
  }

  function N(): Hash { H(200) }

  /** A version 0 program of 20 bytes: the hash of the public key that signs every
      spend below.  The name is sent to the same bytes under the version whose
      outputs hold data. */
  const KEY_HASH: Bytes := [1, 2, 3, 4, 5, 6, 7, 8, 9, 10, 11, 12, 13, 14, 15, 16, 17, 18, 19, 20]
  const HOME := Address(0, KEY_HASH)
  const NOWHERE := Address(NULLDATA_VERSION, KEY_HASH)

  /** All periods one block, coinbase maturity among them, except that renewals
      never fall due. */
  function Net(): Network {
    Network(NamePeriods(1, 1, 1, 1, 1000, 1, 1, 1000, 1000, 1000, 1, false), 1000, 0, {N()}, _ => 0,
            (_, _) => false, (_, _) => ZERO_HASH, _ => N(), _ => NameFlags(false, false), (_, _) => true)
  }

  function Coinbase(k: Byte): TX {
    TX(H(k), 0, [Input(NULL_OUTPOINT, 0)], [Output(0, HOME, NoCovenant)])
  }

  function ClaimTX(): TX {
    TX(H(21), 0, [Input(NULL_OUTPOINT, 0), Input(NULL_OUTPOINT, 0)],
       [Output(0, HOME, NoCovenant), Output(5, HOME, Claim(N(), 2, [97], 0, H(101), 1))])
  }

  /** The three steps of the owner, each spending the one before. */
  function RegisterTX(): TX {
    TX(H(32), 0, [Input(Outpoint(H(21), 1), 0)], [Output(0, HOME, Register(N(), 2, [], ZERO_HASH))])
  }

  function TransferTX(): TX {
    TX(H(42), 0, [Input(Outpoint(H(32), 0), 0)], [Output(0, HOME, Transfer(N(), 2, NULLDATA_VERSION, KEY_HASH))])
  }

  function FinalizeTX(): TX {
    TX(H(52), 0, [Input(Outpoint(H(42), 0), 0)],
       [Output(0, NOWHERE, Finalize(N(), 2, [97], 0, 1, 0, ZERO_HASH))])
  }

  function Claimed(): NameRec {
    NULL_REC.(name := [97], height := 2, renewal := 2, claimed := 1, owner := Outpoint(H(21), 1))
  }

  function Registered(): NameRec {
    Claimed().(registered := true, owner := Outpoint(H(32), 0), renewal := 3)
  }

  function Transferred(): NameRec {
    Registered().(owner := Outpoint(H(42), 0), transfer := 4)
  }

  function Finalized(): NameRec {
    Registered().(owner := Outpoint(H(52), 0), renewal := 5, renewals := 1)
  }

  function Blocks(): (bs: seq<Block>)
    ensures |bs| == 6
  {
    [Block(H(100), ZERO_HASH, 1, map[], [Coinbase(1)]),
     Block(H(101), H(100), 1, map[], [Coinbase(11)]),
     Block(H(102), H(101), 1, map[], [ClaimTX()]),
     Block(H(103), H(102), 1, map[N() := Claimed()], [Coinbase(31), RegisterTX()]),
     Block(H(104), H(103), 1, map[N() := Registered()], [Coinbase(41), TransferTX()]),
     Block(H(105), H(104), 1, map[N() := Transferred()], [Coinbase(51), FinalizeTX()])]
  }

  /** What matters of the state after k blocks: coins carry transaction ids with a
      first byte below 10 k, and the owner's output is unspent. */
  predicate At(k: nat, l: LedgerState, names: NameMap, owned: Option<(Outpoint, Output)>) {
    && |l.main| == k <= 6 && (forall i :: 0 <= i < k ==> l.main[i] == H(100 + i))
    && l.names == names && l.tree == names
    && (forall op :: op in l.coins ==> op.hash[0] < 10 * k)
    && (owned.Some? ==> owned.value.0 in l.coins && l.coins[owned.value.0].output == owned.value.1)
  }

  lemma Hashes(j: Byte, k: Byte)
    ensures H(j) == H(k) <==> j == k
    ensures H(j)[0] == j
    ensures j > 0 ==> H(j) != ZERO_HASH
  {
    assert H(j)[0] == j && H(k)[0] == k && ZERO_HASH[0] == 0;
  }

  lemma {:induction false} HeightAt(main: seq<Hash>, i: nat)
    requires i < |main| && forall j, k :: 0 <= j < k < |main| ==> main[j] != main[k]
    ensures MainHeight(main, main[i]) == i
  {
    if i < |main| - 1 {
      var init := main[..|main| - 1];
      assert forall j :: 0 <= j < |init| ==> init[j] == main[j];
      HeightAt(init, i);
    }
  }

  /** A block of a coinbase and one spend of the owner's coin. */
  lemma SpendBlock(k: nat, l: LedgerState, r: NameRec, coin: Output, tx: TX, next: NameRec)
    requires 3 <= k <= 5 && |tx.inputs| == 1 && |tx.outputs| == 1 && tx.hash == H(10 * k + 2)
    requires !tx.inputs[0].prevout.IsNull()
    requires At(k, l, map[N() := r], Some((tx.inputs[0].prevout, coin)))
    requires var cov := tx.outputs[0].covenant;
             cov.IsName() && !cov.Claim? && cov.nameHash == N() && SaneNamed(Net(), cov)
    requires tx.version == 0 && tx.outputs[0].Fits()
    requires LinkRule(Net(), coin, Some(tx.outputs[0])) == Accept(())
    requires OutputRule(ContextOf(Net(), l), r, tx, 0) == Accept(next)
    ensures var b := Block(H(100 + k), H(99 + k), 1, map[N() := r], [Coinbase(10 * k + 1), tx]);
            var o := tx.outputs[0];
            && ConnectBlock(Net(), l, b).Accept?
            && At(k + 1, ConnectBlock(Net(), l, b).value, map[N() := next],
                  if o.IsUnspendable() then None else Some((tx.OutpointAt(0), o)))
  {
    hide SaneNamed, LinkRule, OutputRule, SaneBlock, SaneTX, SaneCoinbase, CoinbaseStep, SpendStep, N, H;
    var cb := Coinbase(10 * k + 1);
    var b := Block(H(100 + k), H(99 + k), 1, map[N() := r], [cb, tx]);
    SpendSane(k, l, r, tx);
    BlockParts(l, b);
    var c, w0 := ContextOf(Net(), l), WorkOf(l, b);
    Hashes(10 * k + 1, 10 * k + 2);
    Hashes(10 * k + 2, 0);
    PlainCoinbase(c, w0, 10 * k + 1);
    var w1 := CoinbaseStep(c, w0, cb).value;
    SpendOnly(c, w1, r, coin, tx, next);
    var w2 := SpendStep(c, w1, tx).value;
    TwoSteps(c, w0, w1, w2, b.txs);
  }

  lemma BlockParts(l: LedgerState, b: Block)
    requires SaneBlock(Net(), l, b) && |b.txs| == 2
    ensures SaneCoinbase(Net(), b.txs[0]) && SaneTX(Net(), b.txs[1])
    ensures forall i :: 0 <= i < 2 ==> SaneAt(Net(), b.txs, i)
  {
  }

  lemma TwoSteps(c: Context, w0: Work, w1: Work, w2: Work, txs: seq<TX>)
    requires |txs| == 2 && forall i :: 0 <= i < 2 ==> SaneAt(c.net, txs, i)
    requires TxStep(c, w0, txs, 0) == Accept(w1) && TxStep(c, w1, txs, 1) == Accept(w2)
    ensures WorkAfter(c, w0, txs, 2) == Accept(w2)
  {
    hide TxStep, SaneAt;
    assert WorkAfter(c, w0, txs, 0) == Accept(w0);
    assert WorkAfter(c, w0, txs, 1) == Accept(w1);
  }

  lemma SpendSane(k: nat, l: LedgerState, r: NameRec, tx: TX)
    requires 3 <= k <= 5 && |tx.inputs| == 1 && |tx.outputs| == 1 && tx.hash == H(10 * k + 2)
    requires !tx.inputs[0].prevout.IsNull() && At(k, l, map[N() := r], None)
    requires var cov := tx.outputs[0].covenant; cov.IsName() && !cov.Claim? && SaneNamed(Net(), cov)
    requires tx.version == 0 && tx.outputs[0].Fits()
    ensures SaneBlock(Net(), l, Block(H(100 + k), H(99 + k), 1, map[N() := r], [Coinbase(10 * k + 1), tx]))
  {
    hide SaneNamed;
    Hashes(10 * k + 1, 10 * k + 2);
    Hashes(10 * k + 2, 10 * k + 1);
    forall i | 0 <= i < k ensures l.main[i] != H(100 + k) {
      Hashes(100 + i, 100 + k);
    }
    var b := Block(H(100 + k), H(99 + k), 1, map[N() := r], [Coinbase(10 * k + 1), tx]);
    assert BlockFits(b) by { SmallBlock(b); }
  }

  lemma SmallBlock(b: Block)
    requires |b.txs| == 2 && |b.txs[0].inputs| == |b.txs[1].inputs| == 1
    requires forall tx :: tx in b.txs ==> tx.version == 0 && |tx.outputs| == 1 && tx.outputs[0].Fits()
    ensures BlockFits(b)
  {
    hide Output.Fits;
    assert b.txs[..1] == [b.txs[0]] && b.txs[..1][..0] == [];
    assert InputCount(b.txs[..1]) == 1;
  }

  lemma PlainCoinbase(c: Context, w: Work, k: Byte)
    requires SaneCoinbase(c.net, Coinbase(k))
    ensures var r := CoinbaseStep(c, w, Coinbase(k));
            && r.Accept? && r.value.names == w.names
            && (forall op :: op in w.coins ==> op in r.value.coins)
            && (forall op :: op in r.value.coins ==> op in w.coins || op.hash == H(k))
            && (forall op :: op in w.coins && op.hash != H(k) ==> r.value.coins[op] == w.coins[op])
  {
    var tx := Coinbase(k);
    assert BitsAfter(c.net, w.airdrops, tx, 1) == Accept(w.airdrops);
    assert NamesAfter(c, w.names, tx, 0) == Accept(w.names);
    assert OutputStep(c, w.names, tx, 0) == Accept(w.names);
  }

  lemma SpendOnly(c: Context, w: Work, r: NameRec, coin: Output, tx: TX, next: NameRec)
    requires c.net == Net() && SaneTX(c.net, tx) && |tx.inputs| == 1 && |tx.outputs| == 1
    requires tx.inputs[0].prevout in w.coins && w.coins[tx.inputs[0].prevout].output == coin
    requires w.names == map[N() := r] && tx.outputs[0].covenant.IsName() && tx.outputs[0].covenant.nameHash == N()
    requires LinkRule(c.net, coin, Some(tx.outputs[0])) == Accept(())
    requires OutputRule(c, r, tx, 0) == Accept(next)
    ensures var s := SpendStep(c, w, tx);
            && s.Accept? && s.value.names == map[N() := next]
            && (forall op :: op in s.value.coins ==> op in w.coins || op.hash == tx.hash)
            && (!tx.outputs[0].IsUnspendable() ==>
                  tx.OutpointAt(0) in s.value.coins && s.value.coins[tx.OutpointAt(0)].output == tx.outputs[0])
  {
    hide LinkRule, OutputRule, SaneTX;
    assert LinksAfter(c.net, w.coins, tx, 0) == Accept(());
    assert LinksAfter(c.net, w.coins, tx, 1) == Accept(());
    assert NamesAfter(c, w.names, tx, 0) == Accept(w.names);
    assert Find(w.names, N()) == r;
    assert w.names[N() := next] == map[N() := next];
    assert OutputStep(c, w.names, tx, 0) == Accept(map[N() := next]);
    assert tx.OutpointAt(0) in CreatedBy(tx, c.Height()) <==> !tx.outputs[0].IsUnspendable();
  }

  lemma Registers(l: LedgerState)
    requires At(3, l, map[N() := Claimed()], None)
    ensures OutputRule(ContextOf(Net(), l), Claimed(), RegisterTX(), 0) == Accept(Registered())
    ensures LinkRule(Net(), ClaimTX().outputs[1], Some(RegisterTX().outputs[0])) == Accept(())
  {
    Hashes(21, 0);
  }

  lemma Transfers(l: LedgerState)
    requires At(4, l, map[N() := Registered()], None)
    ensures OutputRule(ContextOf(Net(), l), Registered(), TransferTX(), 0) == Accept(Transferred())
    ensures LinkRule(Net(), RegisterTX().outputs[0], Some(TransferTX().outputs[0])) == Accept(())
  {
  }

  lemma Finalizes(l: LedgerState)
    requires At(5, l, map[N() := Transferred()], None)
    ensures OutputRule(ContextOf(Net(), l), Transferred(), FinalizeTX(), 0) == Accept(Finalized())
    ensures LinkRule(Net(), TransferTX().outputs[0], Some(FinalizeTX().outputs[0])) == Accept(())
  {
  }

  /** The first two blocks: nothing but coinbases. */
  lemma CoinbaseBlock(k: nat, l: LedgerState)
    requires k <= 1 && At(k, l, map[], None)
    ensures ConnectBlock(Net(), l, Blocks()[k]).Accept? && At(k + 1, ConnectBlock(Net(), l, Blocks()[k]).value, map[], None)
  {
    hide CoinbaseStep, SaneBlock, SaneCoinbase, H;
    var b := Blocks()[k];
    CoinbaseSane(k, l);
    var c, w0 := ContextOf(Net(), l), WorkOf(l, b);
    Hashes(10 * k + 1, 0);
    PlainCoinbase(c, w0, 10 * k + 1);
    OneStep(c, w0, b.txs);
  }

  lemma CoinbaseSane(k: nat, l: LedgerState)
    requires k <= 1 && At(k, l, map[], None)
    ensures SaneBlock(Net(), l, Blocks()[k]) && SaneCoinbase(Net(), Blocks()[k].txs[0])
    ensures Blocks()[k].txs == [Coinbase(10 * k + 1)] && Blocks()[k].treeRoot == map[]
  {
    Hashes(10 * k + 1, 0);
    Hashes(100 + k, 100);
  }

  lemma OneStep(c: Context, w0: Work, txs: seq<TX>)
    requires |txs| == 1 && SaneAt(c.net, txs, 0)
    ensures WorkAfter(c, w0, txs, 1) == CoinbaseStep(c, w0, txs[0])
  {
    hide CoinbaseStep;
    assert WorkAfter(c, w0, txs, 0) == Accept(w0);
  }

  lemma Claims(c: Context)
    requires c.net == Net() && c.flags == NameFlags(false, false) && c.main == [H(100), H(101)]
    ensures OutputRule(c, NULL_REC, ClaimTX(), 1) == Accept(Claimed())
  {
    Hashes(100, 101);
    Hashes(101, 100);
    HeightAt(c.main, 1);
    var r := NULL_REC.(name := [97]).Reset(2);
    assert Prepare(c, NULL_REC, ClaimTX().outputs[1].covenant) == Accept(r);
    assert r.Phase(2, Net().names) == OPENING;
  }

  lemma ClaimStep(c: Context, w: Work)
    requires c.net == Net() && c.flags == NameFlags(false, false) && c.main == [H(100), H(101)]
    requires w.names == map[] && SaneCoinbase(c.net, ClaimTX())
    ensures var s := CoinbaseStep(c, w, ClaimTX());
            && s.Accept? && s.value.names == map[N() := Claimed()]
            && (forall op :: op in s.value.coins ==> op in w.coins || op.hash == H(21))
            && Outpoint(H(21), 1) in s.value.coins
            && s.value.coins[Outpoint(H(21), 1)].output == ClaimTX().outputs[1]
  {
    hide OutputRule;
    var tx := ClaimTX();
    Claims(c);
    assert BitsAfter(c.net, w.airdrops, tx, 1) == Accept(w.airdrops);
    assert BitsAfter(c.net, w.airdrops, tx, 2) == Accept(w.airdrops);
    assert NamesAfter(c, w.names, tx, 0) == Accept(w.names);
    assert NamesAfter(c, w.names, tx, 1) == Accept(w.names);
    assert Find(w.names, N()) == NULL_REC;
    assert OutputStep(c, w.names, tx, 1) == Accept(map[N() := Claimed()]);
    assert tx.OutpointAt(1) in CreatedBy(tx, 2);
  }

  lemma ClaimBlock(l: LedgerState)
    requires At(2, l, map[], None)
    ensures ConnectBlock(Net(), l, Blocks()[2]).Accept?
    ensures At(3, ConnectBlock(Net(), l, Blocks()[2]).value, map[N() := Claimed()],
               Some((Outpoint(H(21), 1), ClaimTX().outputs[1])))
  {
    hide CoinbaseStep, SaneBlock, SaneCoinbase;
    var b := Blocks()[2];
    ClaimSane(l);
    var c, w0 := ContextOf(Net(), l), WorkOf(l, b);
    assert l.main == [H(100), H(101)];
    ClaimStep(c, w0);
    OneStep(c, w0, b.txs);
  }

  lemma ClaimSane(l: LedgerState)
    requires At(2, l, map[], None)
    ensures SaneBlock(Net(), l, Blocks()[2]) && SaneCoinbase(Net(), Blocks()[2].txs[0])
  {
    Hashes(21, 0);
    Hashes(102, 100);
    Hashes(102, 101);
    assert SaneCoinbase(Net(), Blocks()[2].txs[0]);
  }

  lemma ReplayNext(k: nat)
    requires k < 6 && Replay(Net(), Blocks()[..k]).Accept?
    ensures Replay(Net(), Blocks()[..k + 1]) == ConnectBlock(Net(), Replay(Net(), Blocks()[..k]).value, Blocks()[k])
  {
    hide ConnectBlock;
    assert Blocks()[..k + 1][..k] == Blocks()[..k];
  }

  /** The state after the first k blocks. */
  predicate Ran(k: nat, names: NameMap, owned: Option<(Outpoint, Output)>)
    requires k <= 6
  {
    Replay(Net(), Blocks()[..k]).Accept? && At(k, Replay(Net(), Blocks()[..k]).value, names, owned)
  }

  lemma RanClaim()
    ensures Ran(3, map[N() := Claimed()], Some((Outpoint(H(21), 1), ClaimTX().outputs[1])))
  {
    hide ConnectBlock, Replay, N, H, Blocks, Net;
    NoBlocks();
    ReplayNext(0);
    CoinbaseBlock(0, Replay(Net(), Blocks()[..0]).value);
    ReplayNext(1);
    CoinbaseBlock(1, Replay(Net(), Blocks()[..1]).value);
    ReplayNext(2);
    ClaimBlock(Replay(Net(), Blocks()[..2]).value);
  }

  lemma RanStep(k: nat, r: NameRec, coin: Output, tx: TX, next: NameRec)
    requires 3 <= k <= 5 && |tx.inputs| == 1 && |tx.outputs| == 1 && tx.hash == H(10 * k + 2)
    requires !tx.inputs[0].prevout.IsNull()
    requires Ran(k, map[N() := r], Some((tx.inputs[0].prevout, coin)))
    requires var cov := tx.outputs[0].covenant;
             cov.IsName() && !cov.Claim? && cov.nameHash == N() && SaneNamed(Net(), cov)
    requires tx.version == 0 && tx.outputs[0].Fits()
    requires LinkRule(Net(), coin, Some(tx.outputs[0])) == Accept(())
    requires OutputRule(ContextOf(Net(), Replay(Net(), Blocks()[..k]).value), r, tx, 0) == Accept(next)
    requires Blocks()[k] == Block(H(100 + k), H(99 + k), 1, map[N() := r], [Coinbase(10 * k + 1), tx])
    ensures var o := tx.outputs[0];
            Ran(k + 1, map[N() := next], if o.IsUnspendable() then None else Some((tx.OutpointAt(0), o)))
  {
    hide ConnectBlock, Replay, N, H, LinkRule, OutputRule, SaneNamed, Net, Blocks, At, Coinbase;
    SpendBlock(k, Replay(Net(), Blocks()[..k]).value, r, coin, tx, next);
    ReplayNext(k);
  }

  lemma RanRegister()
    ensures Ran(4, map[N() := Registered()], Some((Outpoint(H(32), 0), RegisterTX().outputs[0])))
  {
    hide ConnectBlock, Replay, LinkRule, OutputRule, N, H, Net, At;
    RanClaim();
    Hashes(21, 0);
    Weaken(3, map[N() := Claimed()], Some((Outpoint(H(21), 1), ClaimTX().outputs[1])));
    Registers(Replay(Net(), Blocks()[..3]).value);
    RanStep(3, Claimed(), ClaimTX().outputs[1], RegisterTX(), Registered());
  }

  lemma RanTransfer()
    ensures Ran(5, map[N() := Transferred()], Some((Outpoint(H(42), 0), TransferTX().outputs[0])))
  {
    hide ConnectBlock, Replay, LinkRule, OutputRule, N, H, Net, At;
    RanRegister();
    Hashes(32, 0);
    Weaken(4, map[N() := Registered()], Some((Outpoint(H(32), 0), RegisterTX().outputs[0])));
    Transfers(Replay(Net(), Blocks()[..4]).value);
    RanStep(4, Registered(), RegisterTX().outputs[0], TransferTX(), Transferred());
  }

  lemma RanFinalize()
    ensures Ran(6, map[N() := Finalized()], None)
  {
    hide ConnectBlock, Replay, LinkRule, OutputRule, N, H, At;
    RanTransfer();
    Hashes(42, 0);
    Weaken(5, map[N() := Transferred()], Some((Outpoint(H(42), 0), TransferTX().outputs[0])));
    Finalizes(Replay(Net(), Blocks()[..5]).value);
    RanStep(5, Transferred(), TransferTX().outputs[0], FinalizeTX(), Finalized());
  }

  lemma Weaken(k: nat, names: NameMap, owned: Option<(Outpoint, Output)>)
    requires k <= 6 && Ran(k, names, owned)
    ensures At(k, Replay(Net(), Blocks()[..k]).value, names, None)
  {
    hide Replay;
  }

  lemma NoBlocks()
    ensures Replay(Net(), Blocks()[..0]) == Accept(EMPTY_LEDGER) && At(0, EMPTY_LEDGER, map[], None)
  {
  }

  /** Block k holds transactions with ids of its own. */
  lemma BlockTxids(k: nat)
    requires k < 6
    ensures forall tx :: tx in Blocks()[k].txs ==> 10 * k <= tx.hash[0] < 10 * k + 10
  {
    Hashes(10 * k + 1, 0);
    Hashes(10 * k + 2, 0);
    assert forall i :: 0 <= i < |Blocks()[k].txs| ==>
             Blocks()[k].txs[i].hash == H(10 * k + 1) || Blocks()[k].txs[i].hash == H(10 * k + 2);
  }

  lemma {:induction false} OwnTxids(k: nat)
    requires k <= 6
    ensures UniqueTxids(Blocks()[..k]) && forall h :: h in Txids(Blocks()[..k]) ==> h[0] < 10 * k
  {
    hide Blocks, H;
    if k > 0 {
      OwnTxids(k - 1);
      var bs := Blocks()[..k];
      assert bs[..|bs| - 1] == Blocks()[..k - 1] && bs[|bs| - 1] == Blocks()[k - 1];
      BlockTxids(k - 1);
    }
  }

  lemma OutputOfLast(outs: map<Outpoint, Output>, txs: seq<TX>)
    requires txs != [] && txs[|txs| - 1].outputs != []
    ensures var tx := txs[|txs| - 1];
            tx.OutpointAt(0) in OutsAfter(outs, txs, |txs|)
            && OutsAfter(outs, txs, |txs|)[tx.OutpointAt(0)] == tx.outputs[0]
  {
    var tx := txs[|txs| - 1];
    assert tx.OutpointAt(0) in OutsUpTo(tx, |tx.outputs|);
  }

  lemma LastOutput()
    ensures Outpoint(H(52), 0) in AllOutputs(Blocks())
    ensures AllOutputs(Blocks())[Outpoint(H(52), 0)] == FinalizeTX().outputs[0]
  {
    hide OutsAfter;
    OutputOfLast(AllOutputs(Blocks()[..5]), Blocks()[5].txs);
    assert Blocks()[..|Blocks()| - 1] == Blocks()[..5];
  }

  /** So "exactly one coin" fails: after these six blocks the name is registered and
      not revoked, and no coin carries its ownership. */
  lemma NobodyHolds()
    ensures UniqueTxids(Blocks()) && Replay(Net(), Blocks()).Accept?
    ensures var l := Replay(Net(), Blocks()).value;
            && N() in l.names && l.names[N()].registered && l.names[N()].revoked == 0
            && forall op :: !OwnershipCoin(l, N(), op)
  {
    hide Replay, ConnectBlock, AllOutputs, UniqueTxids, Blocks;
    assert Blocks()[..6] == Blocks();
    OwnTxids(6);
    RanFinalize();
    LastOutput();
    SingleOwner(Net(), Blocks(), N());
  }
}
