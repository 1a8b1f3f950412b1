/**
 What connecting a block means, stated on whole maps: coins, name records,
 airdrop bits, supply counters and the committed name tree.  The classes in
 ChainDB.dfy compute the same thing with per-block views and undo records.
 */
module Ledger {
  import opened Primitives
  import opened Names

  type Coins = map<Outpoint, CoinEntry>
  type NameMap = map<Hash, NameRec>

  datatype NameFlags = NameFlags(hardened: bool, lockup: bool)

  datatype ChainStats = ChainStats(tx: int, coin: int, value: int, burned: int)

  /** A committed tree root stands for the snapshot it commits to. */
  datatype Block = Block(hash: Hash, prevBlock: Hash, target: int, treeRoot: NameMap, txs: seq<TX>)

  datatype LedgerState = LedgerState(
    main: seq<Hash>,
    coins: Coins,
    names: NameMap,
    tree: NameMap,
    airdrops: set<nat>,
    stats: ChainStats)

  /** Consensus parameters.  `context` stands for every check on a block that
      does not touch names or the coin set's contents: proof of work, times,
      locks, maturity, amounts, proofs and scripts. */
  datatype Network = Network(
    names: NetworkNames,
    deflationHeight: nat,
    airdropLeaves: nat,
    reserved: set<Hash>,
    rollout: Hash -> nat,
    lockedUp: (Hash, nat) -> bool,
    blind: (nat, Hash) -> Hash,
    hashName: Bytes -> Hash,
    nameFlags: seq<Hash> -> NameFlags,
    context: (LedgerState, Block) -> bool)

  const EMPTY_LEDGER := LedgerState([], map[], map[], map[], {}, ChainStats(0, 0, 0, 0))

  /** What stays fixed while one block is being verified. */
  datatype Context = Context(
    net: Network,
    main: seq<Hash>,
    coins: Coins,
    flags: NameFlags)
  {
    function Height(): nat {
      |main|
    }
  }

  // ---------------------------------------------------------------------
  // Name rules: output against name state (chain.js, verifyCovenants)
  // ---------------------------------------------------------------------

  /** Main-chain height of a block hash, or -1. */
  function MainHeight(main: seq<Hash>, hash: Hash): (h: int)
    ensures -1 <= h < |main|
    ensures h >= 0 ==> main[h] == hash
    ensures h == -1 <==> hash !in main
  {
    if main == [] then -1
    else if main[|main| - 1] == hash then |main| - 1
    else MainHeight(main[..|main| - 1], hash)
  }

  predicate VerifyRenewal(c: Context, hash: Hash) {
    || c.Height() < c.net.names.renewalMaturity
    || (var h := MainHeight(c.main, hash);
        && h != -1
        && h <= c.Height() - c.net.names.renewalMaturity
        && h >= c.Height() - c.net.names.renewalPeriod)
  }

  predicate IsReserved(net: Network, nameHash: Hash, height: nat) {
    !net.names.noReserved && height < net.names.claimPeriod && nameHash in net.reserved
  }

  function Find(names: NameMap, nameHash: Hash): NameRec {
    if nameHash in names then names[nameHash] else NULL_REC
  }

  function ClaimRule(c: Context, r: NameRec, output: Output, op: Outpoint): Outcome<NameRec>
    requires output.covenant.Claim?
  {
    var cov := output.covenant;
    var h := c.Height();
    var phase := r.Phase(h, c.net.names);
    var claimed := MainHeight(c.main, cov.commitHash);
    if !(phase == OPENING || phase == LOCKED || (phase == CLOSED && !r.registered)) then
      Reject("bad-claim-state")
    else if r.expired || !IsReserved(c.net, cov.nameHash, h) then
      Reject("bad-claim-notreserved")
    else if c.flags.hardened && cov.IsWeak() then
      Reject("bad-claim-algorithm")
    else if claimed != cov.commitHeight then
      Reject("bad-claim-commit-height")
    else if claimed <= r.claimed then
      Reject("bad-claim-commit-hash")
    else if claimed < 1 then
      AssertFail
    else if h >= c.net.deflationHeight && r.owner.IsNull() && claimed != 1 then
      Reject("bad-claim-height")
    else if h >= c.net.deflationHeight && !r.owner.IsNull()
            && h < r.height + c.net.names.claimFrequency then
      Reject("bad-claim-frequency")
    else if h >= c.net.deflationHeight && !r.owner.IsNull()
            && !(r.owner in c.coins && output.value == c.coins[r.owner].output.value) then
      Reject("bad-claim-value")
    else
      Accept(r.(height := h, renewal := h, claimed := claimed, value := 0,
                owner := op, highest := 0, weak := cov.IsWeak()))
  }

  function OpenRule(c: Context, r: NameRec, cov: Covenant): Outcome<NameRec>
    requires cov.Open?
  {
    var h := c.Height();
    if r.Phase(h, c.net.names) != OPENING then
      Reject("bad-open-state")
    else if r.height != h then
      Reject("bad-open-multiple")
    else if !r.expired && IsReserved(c.net, cov.nameHash, h) then
      Reject("bad-open-reserved")
    else if c.flags.lockup && c.net.lockedUp(cov.nameHash, h) then
      Reject("bad-open-lockedup")
    else if h < c.net.rollout(cov.nameHash) then
      Reject("bad-open-rollout")
    else
      Accept(r)
  }

  function BidRule(c: Context, r: NameRec, cov: Covenant): Outcome<NameRec>
    requires cov.Bid?
  {
    if r.Phase(c.Height(), c.net.names) != BIDDING then
      Reject("bad-bid-state")
    else if cov.height != r.height then
      Reject("bad-bid-height")
    else
      Accept(r)
  }

  function RevealRule(c: Context, r: NameRec, output: Output, op: Outpoint): Outcome<NameRec>
    requires output.covenant.Reveal?
  {
    if output.covenant.height != r.height then
      Reject("bad-reveal-nonlocal")
    else if r.Phase(c.Height(), c.net.names) != REVEAL then
      Reject("bad-reveal-state")
    else if r.owner.IsNull() || output.value > r.highest then
      Accept(r.(value := r.highest, owner := op, highest := output.value))
    else if output.value > r.value then
      Accept(r.(value := output.value))
    else
      Accept(r)
  }

  function RedeemRule(c: Context, r: NameRec, cov: Covenant, prevout: Outpoint): Outcome<NameRec>
    requires cov.Redeem?
  {
    var phase := r.Phase(c.Height(), c.net.names);
    if cov.height != r.height then
      Reject("bad-redeem-nonlocal")
    else if phase != CLOSED && phase != REVOKED then
      Reject("bad-redeem-state")
    else if prevout == r.owner then
      Reject("bad-redeem-owner")
    else
      Accept(r)
  }

  function RegisterRule(c: Context, r: NameRec, output: Output, op: Outpoint, prevout: Outpoint):
      Outcome<NameRec>
    requires output.covenant.Register?
  {
    var cov := output.covenant;
    var h := c.Height();
    if cov.height != r.height then
      Reject("bad-register-nonlocal")
    else if r.Phase(h, c.net.names) != CLOSED then
      Reject("bad-register-state")
    else if !VerifyRenewal(c, cov.renewalBlock) then
      Reject("bad-register-renewal")
    else if prevout != r.owner then
      Reject("bad-register-owner")
    else if output.value != r.value then
      Reject("bad-register-value")
    else if r.IsClaimable(h, c.net.names) && c.flags.hardened && r.weak then
      Reject("bad-register-state")
    else
      Accept(r.(registered := true, owner := op, renewal := h,
                data := if |cov.data| > 0 then cov.data else r.data))
  }

  function UpdateRule(c: Context, r: NameRec, cov: Covenant, op: Outpoint): Outcome<NameRec>
    requires cov.Update?
  {
    if cov.height != r.height then
      Reject("bad-update-nonlocal")
    else if r.Phase(c.Height(), c.net.names) != CLOSED then
      Reject("bad-update-state")
    else
      Accept(r.(owner := op, transfer := 0,
                data := if |cov.data| > 0 then cov.data else r.data))
  }

  function RenewRule(c: Context, r: NameRec, cov: Covenant, op: Outpoint): Outcome<NameRec>
    requires cov.Renew?
  {
    var h := c.Height();
    if cov.height != r.height then
      Reject("bad-renewal-nonlocal")
    else if r.Phase(h, c.net.names) != CLOSED then
      Reject("bad-renewal-state")
    else if h < r.renewal + c.net.names.treeInterval then
      Reject("bad-renewal-premature")
    else if !VerifyRenewal(c, cov.renewalBlock) then
      Reject("bad-renewal")
    else
      Accept(r.(owner := op, transfer := 0, renewal := h, renewals := r.renewals + 1))
  }

  function TransferRule(c: Context, r: NameRec, cov: Covenant, op: Outpoint): Outcome<NameRec>
    requires cov.Transfer?
  {
    if cov.height != r.height then
      Reject("bad-transfer-nonlocal")
    else if r.Phase(c.Height(), c.net.names) != CLOSED then
      Reject("bad-transfer-state")
    else if r.transfer != 0 then
      AssertFail
    else
      Accept(r.(owner := op, transfer := c.Height()))
  }

  function FinalizeRule(c: Context, r: NameRec, cov: Covenant, op: Outpoint): Outcome<NameRec>
    requires cov.Finalize?
  {
    var h := c.Height();
    if cov.height != r.height then
      Reject("bad-finalize-nonlocal")
    else if r.Phase(h, c.net.names) != CLOSED then
      Reject("bad-finalize-state")
    else if r.transfer == 0 then
      AssertFail
    else if c.net.names.transferLockup < c.net.names.treeInterval then
      AssertFail
    else if h < r.transfer + c.net.names.transferLockup then
      Reject("bad-finalize-maturity")
    else if cov.IsWeak() != r.weak || cov.claimed != r.claimed || cov.renewals != r.renewals then
      Reject("bad-finalize-statetransfer")
    else if !VerifyRenewal(c, cov.renewalBlock) then
      Reject("bad-finalize-renewal")
    else
      Accept(r.(owner := op, transfer := 0, renewal := h, renewals := r.renewals + 1))
  }

  function RevokeRule(c: Context, r: NameRec, cov: Covenant): Outcome<NameRec>
    requires cov.Revoke?
  {
    if cov.height != r.height then
      Reject("bad-revoke-nonlocal")
    else if r.Phase(c.Height(), c.net.names) != CLOSED then
      Reject("bad-revoke-state")
    else if r.revoked != 0 then
      AssertFail
    else
      Accept(r.(revoked := c.Height(), transfer := 0, data := []))
  }

  /** The record an output sees: created for a first CLAIM or OPEN, then
      restarted when expired. */
  function Prepare(c: Context, r: NameRec, cov: Covenant): Outcome<NameRec>
    requires cov.IsName()
  {
    if !r.IsNull() then
      Accept(r.MaybeExpire(c.Height(), c.net.names))
    else if cov.Claim? || cov.Open? then
      Accept(r.(name := cov.name).Reset(c.Height()).MaybeExpire(c.Height(), c.net.names))
    else
      Throw("Database inconsistency.")
  }

  /** The rule of the output's covenant, on the prepared record. */
  function PreparedRule(c: Context, r: NameRec, tx: TX, i: nat): Outcome<NameRec>
    requires i < |tx.outputs| && tx.outputs[i].covenant.IsName()
  {
    var output, op := tx.outputs[i], tx.OutpointAt(i);
    var cov := output.covenant;
    if cov.Claim? then ClaimRule(c, r, output, op)
    else if tx.IsCoinbase() then AssertFail
    else if cov.Open? then OpenRule(c, r, cov)
    else if cov.Bid? then BidRule(c, r, cov)
    else if i >= |tx.inputs| then AssertFail
    else
      var prevout := tx.inputs[i].prevout;
      match cov
      case Reveal(_, _, _) => RevealRule(c, r, output, op)
      case Redeem(_, _) => RedeemRule(c, r, cov, prevout)
      case Register(_, _, _, _) => RegisterRule(c, r, output, op, prevout)
      case Update(_, _, _) => UpdateRule(c, r, cov, op)
      case Renew(_, _, _) => RenewRule(c, r, cov, op)
      case Transfer(_, _, _, _) => TransferRule(c, r, cov, op)
      case Finalize(_, _, _, _, _, _, _) => FinalizeRule(c, r, cov, op)
      case Revoke(_, _) => RevokeRule(c, r, cov)
      case _ => AssertFail
  }

  function OutputRule(c: Context, r0: NameRec, tx: TX, i: nat): Outcome<NameRec>
    requires i < |tx.outputs| && tx.outputs[i].covenant.IsName()
  {
    var r :- Prepare(c, r0, tx.outputs[i].covenant);
    PreparedRule(c, r, tx, i)
  }

  function OutputStep(c: Context, names: NameMap, tx: TX, i: nat): Outcome<NameMap>
    requires i < |tx.outputs|
  {
    var cov := tx.outputs[i].covenant;
    if !cov.IsName() then Accept(names)
    else
      var r :- OutputRule(c, Find(names, cov.nameHash), tx, i);
      Accept(names[cov.nameHash := r])
  }

  /** Name records after the first `k` outputs of `tx`. */
  function NamesAfter(c: Context, names: NameMap, tx: TX, k: nat): Outcome<NameMap>
    requires k <= |tx.outputs|
  {
    if k == 0 then Accept(names)
    else
      var before :- NamesAfter(c, names, tx, k - 1);
      OutputStep(c, before, tx, k - 1)
  }

  // ---------------------------------------------------------------------
  // Covenant rules: coin against linked output (rules.js, verifyCovenants)
  // ---------------------------------------------------------------------

  predicate SameName(a: Covenant, b: Covenant)
    requires a.IsName() && !a.Open? && b.IsName() && !b.Open?
  {
    a.nameHash == b.nameHash && a.height == b.height
  }

  predicate OwnerLink(coin: Output, output: Output)
    requires coin.covenant.IsOwnership()
  {
    var uc, cov := coin.covenant, output.covenant;
    && output.value == coin.value
    && if uc.Transfer? then
         || ((cov.Update? || cov.Renew? || cov.Revoke?)
             && SameName(uc, cov) && output.address == coin.address)
         || (cov.Finalize? && SameName(uc, cov)
             && output.address == Address(uc.version, uc.addressHash))
       else
         && (cov.Update? || cov.Renew? || cov.Transfer? || cov.Revoke?)
         && SameName(uc, cov) && output.address == coin.address
  }

  /** May `coin` be spent into the output at the same index (if any)? */
  function LinkRule(net: Network, coin: Output, linked: Option<Output>): Outcome<()> {
    var uc := coin.covenant;
    var bad := Reject("bad-txns-covenants");
    match uc
    case NoCovenant | Open(_, _) | Redeem(_, _) =>
      if linked.Some? && !(linked.value.covenant.NoCovenant? || linked.value.covenant.Open?
                           || linked.value.covenant.Bid?)
      then bad else Accept(())
    case Bid(_, _, _, _) =>
      if && linked.Some? && linked.value.covenant.Reveal?
         && SameName(uc, linked.value.covenant)
         && net.blind(linked.value.value, linked.value.covenant.nonce) == uc.blind
         && linked.value.value <= coin.value
      then Accept(()) else bad
    case Claim(_, _, _, _, _, _) | Reveal(_, _, _) =>
      if && linked.Some?
         && (linked.value.covenant.Register? || (linked.value.covenant.Redeem? && uc.Reveal?))
         && SameName(uc, linked.value.covenant)
         && (linked.value.covenant.Register? ==> linked.value.address == coin.address)
      then Accept(()) else bad
    case Register(_, _, _, _) | Update(_, _, _) | Renew(_, _, _)
      | Transfer(_, _, _, _) | Finalize(_, _, _, _, _, _, _) =>
      if linked.Some? && OwnerLink(coin, linked.value) then Accept(()) else bad
    case Revoke(_, _) => bad
    case UnknownCovenant(_, _) =>
      if linked.None? then Throw("TypeError")
      else if linked.value.covenant.IsName() then bad
      else Accept(())
  }

  function Linked(tx: TX, i: nat): Option<Output> {
    if i < |tx.outputs| then Some(tx.outputs[i]) else None
  }

  /** The link rule on the first `k` inputs. */
  function LinksAfter(net: Network, coins: Coins, tx: TX, k: nat): Outcome<()>
    requires k <= |tx.inputs|
    requires forall i :: 0 <= i < k ==> tx.inputs[i].prevout in coins
  {
    if k == 0 then Accept(())
    else
      var _ :- LinksAfter(net, coins, tx, k - 1);
      LinkRule(net, coins[tx.inputs[k - 1].prevout].output, Linked(tx, k - 1))
  }

  // ---------------------------------------------------------------------
  // Shape of transactions and blocks (tx.js checkSanity, hasSaneCovenants)
  // ---------------------------------------------------------------------

  predicate SaneNamed(net: Network, cov: Covenant) {
    match cov
    case Open(_, _) => net.hashName(cov.name) == cov.nameHash
    case Bid(_, _, _, _) => net.hashName(cov.name) == cov.nameHash
    case Finalize(_, _, _, _, _, _, _) => net.hashName(cov.name) == cov.nameHash
    case Claim(_, _, _, _, _, _) =>
      net.hashName(cov.name) == cov.nameHash && cov.nameHash in net.reserved
    case Register(_, _, _, _) => |cov.data| <= 512
    case Update(_, _, _) => |cov.data| <= 512
    case Transfer(_, _, _, _) => cov.version <= 31 && 2 <= |cov.addressHash| <= 40
    case _ => true
  }

  predicate SaneCoinbase(net: Network, tx: TX) {
    && 0 < |tx.inputs| <= |tx.outputs| < 0xffff_ffff
    && (forall i :: 0 <= i < |tx.inputs| ==> tx.inputs[i].prevout.IsNull())
    && (forall i :: 0 <= i < |tx.outputs| ==>
          || tx.outputs[i].covenant.NoCovenant?
          || (tx.outputs[i].covenant.Claim? && 0 < i < |tx.inputs|
              && SaneNamed(net, tx.outputs[i].covenant)))
  }

  predicate SaneTX(net: Network, tx: TX) {
    && 0 < |tx.inputs| && 0 < |tx.outputs| < 0xffff_ffff
    && (forall i :: 0 <= i < |tx.inputs| ==> !tx.inputs[i].prevout.IsNull())
    && (forall i, j :: 0 <= i < j < |tx.inputs| ==> tx.inputs[i].prevout != tx.inputs[j].prevout)
    && (forall i :: 0 <= i < |tx.outputs| ==>
          && !tx.outputs[i].covenant.Claim?
          && (tx.outputs[i].covenant.IsLinked() ==> i < |tx.inputs|)
          && SaneNamed(net, tx.outputs[i].covenant))
  }

  const MAX_BLOCK_SIZE := 1_000_000

  function InputCount(txs: seq<TX>): nat {
    if txs == [] then 0 else InputCount(txs[..|txs| - 1]) + |txs[|txs| - 1].inputs|
  }

  /** What the size limit, the amounts and the widths of the wire format bound. */
  predicate BlockFits(block: Block) {
    && InputCount(block.txs) <= MAX_BLOCK_SIZE
    && forall tx :: tx in block.txs ==> tx.version < WORD && forall o :: o in tx.outputs ==> o.Fits()
  }

  /** Shape of a block, the distinctness the hashes are relied on for, and
      genesis carrying no names. */
  predicate SaneBlock(net: Network, ledger: LedgerState, block: Block) {
    && 0 < |block.txs|
    && BlockFits(block)
    && SaneCoinbase(net, block.txs[0])
    && (forall i :: 1 <= i < |block.txs| ==> SaneTX(net, block.txs[i]))
    && (forall i, j :: 0 <= i < j < |block.txs| ==> block.txs[i].hash != block.txs[j].hash)
    && (forall op, i :: op in ledger.coins && 0 <= i < |block.txs| ==> op.hash != block.txs[i].hash)
    && block.hash !in ledger.main
    && (ledger.main != [] ==> block.prevBlock == ledger.main[|ledger.main| - 1])
    && (ledger.main == [] ==>
          |block.txs| == 1 && forall o :: o in block.txs[0].outputs ==> o.covenant.NoCovenant?)
  }

  // ---------------------------------------------------------------------
  // Coins, airdrop bits and counters
  // ---------------------------------------------------------------------

  function PrevoutsFirst(tx: TX, k: nat): set<Outpoint>
    requires k <= |tx.inputs|
  {
    set i | 0 <= i < k :: tx.inputs[i].prevout
  }

  function Prevouts(tx: TX): set<Outpoint> {
    PrevoutsFirst(tx, |tx.inputs|)
  }

  /** The coins the first `k` inputs consume, in input order. */
  function SpentFirst(coins: Coins, tx: TX, k: nat): seq<CoinEntry>
    requires k <= |tx.inputs|
    requires forall i :: 0 <= i < k ==> tx.inputs[i].prevout in coins
  {
    seq(k, i requires 0 <= i < k => coins[tx.inputs[i].prevout])
  }

  function SpentBy(coins: Coins, tx: TX): seq<CoinEntry>
    requires forall i :: 0 <= i < |tx.inputs| ==> tx.inputs[i].prevout in coins
  {
    SpentFirst(coins, tx, |tx.inputs|)
  }

  /** `Coins.fromTX`: the spendable outputs. */
  function CreatedBy(tx: TX, height: nat): Coins {
    map i: nat | 0 <= i < |tx.outputs| && !tx.outputs[i].IsUnspendable()
      :: tx.OutpointAt(i) := CoinEntry(tx.version, height, tx.IsCoinbase(), tx.outputs[i])
  }

  /** Airdrop bits after inputs 1..k of a coinbase. */
  function BitsAfter(net: Network, bits: set<nat>, tx: TX, k: nat): Outcome<set<nat>>
    requires k <= |tx.inputs| <= |tx.outputs|
  {
    if k <= 1 then Accept(bits)
    else
      var before :- BitsAfter(net, bits, tx, k - 1);
      if !tx.outputs[k - 1].covenant.NoCovenant? then Accept(before)
      else if tx.inputs[k - 1].proof >= net.airdropLeaves || tx.inputs[k - 1].proof in before then
        Reject("bad-txns-bits-missingorspent")
      else Accept(before + {tx.inputs[k - 1].proof})
  }

  function StatsSpend(stats: ChainStats, coin: CoinEntry): ChainStats {
    if coin.output.covenant.IsLocked() then stats
    else stats.(coin := stats.coin - 1, value := stats.value - coin.output.value)
  }

  function StatsAdd(stats: ChainStats, output: Output): ChainStats {
    if output.IsUnspendable() then stats
    else if output.covenant.Register? then
      stats.(coin := stats.coin + 1, burned := stats.burned + output.value)
    else if output.covenant.IsLocked() then stats
    else if output.covenant.Claim? && output.covenant.commitHeight != 1 then stats
    else stats.(coin := stats.coin + 1, value := stats.value + output.value)
  }

  function StatsSpendAll(stats: ChainStats, coins: seq<CoinEntry>): ChainStats {
    if coins == [] then stats
    else StatsSpend(StatsSpendAll(stats, coins[..|coins| - 1]), coins[|coins| - 1])
  }

  function StatsAddAll(stats: ChainStats, outputs: seq<Output>): ChainStats {
    if outputs == [] then stats
    else StatsAdd(StatsAddAll(stats, outputs[..|outputs| - 1]), outputs[|outputs| - 1])
  }

  // ---------------------------------------------------------------------
  // Transactions and blocks
  // ---------------------------------------------------------------------

  datatype Work = Work(coins: Coins, names: NameMap, airdrops: set<nat>, stats: ChainStats)

  function CoinbaseStep(c: Context, w: Work, tx: TX): Outcome<Work>
    requires SaneCoinbase(c.net, tx)
  {
    var bits :- BitsAfter(c.net, w.airdrops, tx, |tx.inputs|);
    if exists i :: 0 <= i < |tx.outputs| && tx.outputs[i].covenant.Claim?
                   && tx.outputs[i].covenant.height != c.Height()
    then Reject("bad-txns-claims")
    else
      var names :- NamesAfter(c, w.names, tx, |tx.outputs|);
      Accept(Work(w.coins + CreatedBy(tx, c.Height()), names, bits,
                  StatsAddAll(w.stats, tx.outputs)))
  }

  function SpendStep(c: Context, w: Work, tx: TX): Outcome<Work>
    requires SaneTX(c.net, tx)
  {
    if exists i :: 0 <= i < |tx.inputs| && tx.inputs[i].prevout !in w.coins then
      Reject("bad-txns-inputs-missingorspent")
    else
      var _ :- LinksAfter(c.net, w.coins, tx, |tx.inputs|);
      var names :- NamesAfter(c, w.names, tx, |tx.outputs|);
      Accept(Work(w.coins - Prevouts(tx) + CreatedBy(tx, c.Height()), names, w.airdrops,
                  StatsAddAll(StatsSpendAll(w.stats, SpentBy(w.coins, tx)), tx.outputs)))
  }

  predicate SaneAt(net: Network, txs: seq<TX>, i: nat)
    requires i < |txs|
  {
    if i == 0 then SaneCoinbase(net, txs[i]) else SaneTX(net, txs[i])
  }

  function TxStep(c: Context, w: Work, txs: seq<TX>, i: nat): Outcome<Work>
    requires i < |txs| && SaneAt(c.net, txs, i)
  {
    if i == 0 then CoinbaseStep(c, w, txs[i]) else SpendStep(c, w, txs[i])
  }

  /** The state of the block's verification after its first `k` transactions. */
  function WorkAfter(c: Context, w: Work, txs: seq<TX>, k: nat): Outcome<Work>
    requires k <= |txs|
    requires forall i :: 0 <= i < |txs| ==> SaneAt(c.net, txs, i)
  {
    if k == 0 then Accept(w)
    else
      var before :- WorkAfter(c, w, txs, k - 1);
      TxStep(c, before, txs, k - 1)
  }

  function ContextOf(net: Network, ledger: LedgerState): Context {
    Context(net, ledger.main, ledger.coins, net.nameFlags(ledger.main))
  }

  /** The starting point: the transactions of the block are counted first. */
  function WorkOf(ledger: LedgerState, block: Block): Work {
    Work(ledger.coins, ledger.names, ledger.airdrops,
         ledger.stats.(tx := ledger.stats.tx + |block.txs|))
  }

  /** `verifyContext` followed by `connectBlock`. */
  function ConnectBlock(net: Network, ledger: LedgerState, block: Block): Outcome<LedgerState> {
    if !SaneBlock(net, ledger, block) || !net.context(ledger, block) then
      Reject("invalid")
    else if block.treeRoot != ledger.tree then
      Reject("bad-tree-root")
    else
      var w :- WorkAfter(ContextOf(net, ledger), WorkOf(ledger, block), block.txs, |block.txs|);
      Accept(LedgerState(
        ledger.main + [block.hash],
        w.coins,
        w.names,
        if |ledger.main| % net.names.treeInterval == 0 then w.names else ledger.tree,
        w.airdrops,
        w.stats))
  }

  /** Connecting a sequence of blocks, genesis first. */
  function Replay(net: Network, blocks: seq<Block>): Outcome<LedgerState> {
    if blocks == [] then Accept(EMPTY_LEDGER)
    else
      var before :- Replay(net, blocks[..|blocks| - 1]);
      ConnectBlock(net, before, blocks[|blocks| - 1])
  }
}
