/**
 Airdrop proofs: each position of the field is claimed at most once on a chain,
 and the field is exactly what was claimed.
 */
module Airdrops {
  import opened Primitives
  import opened Ledger
  import opened Auction
  import opened Ownership

  /** The positions that inputs 1..k of a coinbase claim: those beside an output
      without a covenant. */
  function PositionsUpTo(tx: TX, k: nat): seq<nat>
    requires k <= |tx.inputs| <= |tx.outputs|
  {
    if k <= 1 then []
    else PositionsUpTo(tx, k - 1) + if tx.outputs[k - 1].covenant.NoCovenant? then [tx.inputs[k - 1].proof] else []
  }

  /** The positions a chain claims, in order. */
  function Positions(blocks: seq<Block>): seq<nat> {
    if blocks == [] then []
    else Positions(blocks[..|blocks| - 1]) + BlockPositions(blocks[|blocks| - 1])
  }

  function BlockPositions(block: Block): seq<nat> {
    if block.txs != [] && |block.txs[0].inputs| <= |block.txs[0].outputs|
    then PositionsUpTo(block.txs[0], |block.txs[0].inputs|) else []
  }

  /** Positions of the field, none of them twice. */
  predicate Fresh(net: Network, positions: seq<nat>) {
    && (forall i :: 0 <= i < |positions| ==> positions[i] < net.airdropLeaves)
    && (forall i, j :: 0 <= i < j < |positions| ==> positions[i] != positions[j])
  }

  function SetOf(positions: seq<nat>): set<nat> {
    set p | p in positions
  }

  lemma FreshMore(net: Network, positions: seq<nat>, p: nat)
    ensures Fresh(net, positions + [p]) <==> Fresh(net, positions) && p < net.airdropLeaves && p !in positions
    ensures SetOf(positions + [p]) == SetOf(positions) + {p}
  {
    var all := positions + [p];
    assert all[|positions|] == p;
    assert forall i :: 0 <= i < |positions| ==> all[i] == positions[i];
    if Fresh(net, all) {
      forall i, j | 0 <= i < j < |positions| ensures positions[i] != positions[j] {
        assert all[i] != all[j];
      }
      forall i | 0 <= i < |positions| ensures positions[i] < net.airdropLeaves && positions[i] != p {
        assert all[i] < net.airdropLeaves && all[i] != all[|positions|];
      }
    }
  }

  /** A coinbase is accepted exactly when what it claims is in the field, claimed
      once, and not claimed before; then it is marked. */
  lemma {:induction false} ClaimsOnce(net: Network, before: seq<nat>, tx: TX, k: nat)
    requires k <= |tx.inputs| <= |tx.outputs| && Fresh(net, before)
    ensures var all := before + PositionsUpTo(tx, k);
            && (BitsAfter(net, SetOf(before), tx, k).Accept? <==> Fresh(net, all))
            && (Fresh(net, all) ==> BitsAfter(net, SetOf(before), tx, k).value == SetOf(all))
  {
    hide Fresh, SetOf;
    if k <= 1 {
      assert before + PositionsUpTo(tx, k) == before;
    } else {
      ClaimsOnce(net, before, tx, k - 1);
      var most, p := before + PositionsUpTo(tx, k - 1), tx.inputs[k - 1].proof;
      if tx.outputs[k - 1].covenant.NoCovenant? {
        assert before + PositionsUpTo(tx, k) == most + [p];
        FreshMore(net, most, p);
        InSet(most, p);
      } else {
        assert before + PositionsUpTo(tx, k) == most;
      }
    }
  }

  lemma InSet(positions: seq<nat>, p: nat)
    ensures p in SetOf(positions) <==> p in positions
  {
  }

  /** Only the coinbase touches the field. */
  lemma {:induction false} WorkBits(c: Context, w: Work, txs: seq<TX>, k: nat)
    requires k <= |txs| && forall i :: 0 <= i < |txs| ==> SaneAt(c.net, txs, i)
    requires k > 0 ==> SaneCoinbase(c.net, txs[0])
    requires WorkAfter(c, w, txs, k).Accept?
    ensures k > 0 ==> BitsAfter(c.net, w.airdrops, txs[0], |txs[0].inputs|).Accept?
    ensures WorkAfter(c, w, txs, k).value.airdrops
            == if k == 0 then w.airdrops else BitsAfter(c.net, w.airdrops, txs[0], |txs[0].inputs|).value
  {
    hide NamesAfter, LinksAfter, CreatedBy, BitsAfter, Prevouts, StatsAddAll, StatsSpendAll, SpentBy, SaneNamed;
    if k > 0 {
      WorkBits(c, w, txs, k - 1);
      assert SaneAt(c.net, txs, k - 1);
    }
  }

  /** The field of a chain holds the positions it claimed; no position was claimed
      twice, and none lies outside the field. */
  lemma {:induction false} ClaimedOnce(net: Network, blocks: seq<Block>)
    requires UniqueTxids(blocks) && Replay(net, blocks).Accept?
    ensures Replay(net, blocks).value.airdrops == SetOf(Positions(blocks))
    ensures Fresh(net, Positions(blocks))
  {
    hide ConnectBlock, OutsAfter, SetOf, Fresh;
    if blocks == [] {
      assert SetOf([]) == {} && Fresh(net, []) by { NoPositions(net); }
    } else {
      var init, last := blocks[..|blocks| - 1], blocks[|blocks| - 1];
      assert init + [last] == blocks;
      ChainStep(net, blocks, init, last);
      ClaimedOnce(net, init);
      BlockBits(net, Replay(net, init).value, last, Positions(init));
    }
  }

  lemma NoPositions(net: Network)
    ensures SetOf([]) == {} && Fresh(net, [])
  {
  }

  lemma BlockBits(net: Network, before: LedgerState, block: Block, positions: seq<nat>)
    requires ConnectBlock(net, before, block).Accept?
    requires before.airdrops == SetOf(positions) && Fresh(net, positions)
    ensures var all := positions + BlockPositions(block);
            ConnectBlock(net, before, block).value.airdrops == SetOf(all) && Fresh(net, all)
  {
    hide WorkAfter, SetOf, Fresh, PositionsUpTo, BitsAfter;
    SaneBlockTxs(net, before, block);
    assert SaneCoinbase(net, block.txs[0]);
    WorkBits(ContextOf(net, before), WorkOf(before, block), block.txs, |block.txs|);
    ClaimsOnce(net, positions, block.txs[0], |block.txs[0].inputs|);
  }
}
