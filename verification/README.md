# hsd in Dafny

A model of the parts of hsd, the Handshake full node, in which the state is
hardest to keep right, and proofs about it.

- **The ledger.** `Ledger.dfy` says on whole maps what connecting a block does
  to coins, name records, the committed name tree, airdrop bits and supply
  counters. `Names.dfy`, `Views.dfy` and `Verify.dfy` are the objects that do
  the same with per-block views, and `ChainDB.dfy` the database with its undo
  records. The state is at every moment the replay of the main chain, so
  disconnecting a block inverts connecting it, also through the bytes that undo
  coins are stored as (`CoinCodec.dfy`, `StoredCoins.dfy`).
- **Reorganisation.** `BlockTree.dfy` and `Chain.dfy`: when a block is accepted,
  fork points, switching branches, going back after a failure, orphans, what is
  remembered as invalid, and what no sequence of additions can break.
- **The auction.** `Auction.dfy` holds the invariant across coins, name records
  and outputs; `Ownership.dfy` what it says about owners over all runs;
  `Vickrey.dfy` the price rule, `Settlement.dfy` what becomes of the reveals;
  `Spending.dfy` what is spent into what, so that a REVEAL opens its BID;
  `NameHistory.dfy` what a record says about the outputs of its name, and
  `Admission.dfy` when, in heights, an output and a block are let in;
  `StoredNames.dfy` the bounds within which records are stored; `BurnedName.dfy` a
  concrete run in which a registered name has no coin; `Supply.dfy` the counters
  and the committed tree, `CoinSet.dfy` the coins and `Airdrops.dfy` the airdrop
  field as functions of the blocks.
- **Deployments.** `VersionBits.dfy`: the cached computation of BIP 9 states, and
  median time past.
- **Pool and miner.** `Mempool.dfy`, `Contracts.dfy`, `NameLimits.dfy`,
  `Miner.dfy`.
- **Storage and wire.** `FileStore.dfy`, `Pieces.dfy` and `Packets.dfy`, the
  Brontide handshake, stream and runs of two peers (`Brontide.dfy`,
  `BrontideRuns.dfy`, `BrontideReplies.dfy`, `BrontideStream.dfy`), `CompactBlocks.dfy`,
  `Mnemonic.dfy`, `Nsec.dfy`, `Bits.dfy`, `Bitfield.dfy`, `Codecs.dfy`.

Objects that the program updates in place are classes here, and their methods
are proved against functions on values; the results about runs are lemmas about
those functions.

Six results differ from what one might expect of the program, and each comes
with an example and the exact condition.

- A registered name need not have a coin. A FINALIZE may go to a nulldata
  address, whose outputs are not stored (`BurnedName.NobodyHolds`). The coin is
  there, and is the only one, exactly when the output at the owner's outpoint is
  spendable (`Ownership.SingleOwner`), that is, unless it is a FINALIZE to address
  version 31 (`Ownership.OwnerBurned`).
- Stopping at a window before the start time agrees with BIP 9, for a deployment
  that does not time out before it starts (`VersionBits.EarlyIsDefined`). In
  general the answer is that of the deployment with its timeout moved to its
  start, and differs from BIP 9 exactly when the last window ended after the
  timeout and before the start (`VersionBits.GetState`,
  `VersionBits.DefinedAfterTimeout`).
- `limitSize` answers "not dropped" for a transaction that was thrown out with an
  expired ancestor when that alone made room (`Mempool.Pool.AddEntry`,
  `Mempool.ExpiredParentTakesChild`).
- A block file read with a length but no offset is not checked against the
  record: it gives a part of the record exactly when the length is at most that of
  the record, and runs on into what follows otherwise (`FileStore.ReadSlices`,
  `FileStore.ReadIntoNext`).
- `fromPhrase` accepts phrases whose number of words is not a multiple of three,
  one of every allowed length for every entropy of the right size
  (`Mnemonic.PhraseOfLength`, `Mnemonic.ThirteenWords`); `getPhrase` gives
  back exactly those whose number is one (`Mnemonic.Regenerate`).
- A stored coin keeps its height exactly when that is at least -1 and below
  0x7fffffff (`Codecs.CoinRoundTrip`, `CoinCodec.UndoCoinsRoundTrip`), so
  disconnecting blocks is right while all heights are below it
  (`ChainDB.ChainDB.Disconnect`).

What the results assume, beyond the shape of the data:

- The inputs of a transaction are distinct, as transaction sanity demands
  (`lib/primitives/tx.js`); `spendInputs` relies on it.
- Block hashes and transaction ids are injective: a block being connected brings
  ids that are not those of stored coins (part of `Ledger.SaneBlock`), and the
  results about owners and prices take chains on which no id occurs twice
  (`Ownership.UniqueTxids`).
- A block hash stands for one header: it determines the parent
  (`parentOf` in `Chain.Chain`).
- Outputs have the widths of the wire format and the bounds of the sanity checks,
  and a block no more inputs than bytes (`Ledger.BlockFits`, part of
  `Ledger.SaneBlock`).
- Every auction period is at least one block, the transfer lockup at least a
  tree interval, and the genesis block carries no names.
- Spending is well-founded in the pool: a transaction id commits to the ids it
  spends.
- For Brontide: opening undoes sealing, Diffie-Hellman commutes, and encoded
  points decode (`Brontide.Suite.Lawful`).

Proof of work, times, sequence locks, coinbase maturity, amounts, DNSSEC and
airdrop proofs, scripts, the reserved-name tables, the hash of a name, blinded
bids and the rollout schedule are parameters of `Ledger.Network`; the checks on
a block that need no ledger are the parameter `precheck` of `Chain.Chain`.

## Model

| member | source | states |
|---|---|---|
| Names.NameState.SetHeight | lib/covenants/namestate.js:272-284 | Changes the height only; the value before the first change since the block began is what the delta leads back to. |
| Names.NameState.SetRenewal | lib/covenants/namestate.js:286-298 | The same for the renewal height. |
| Names.NameState.SetOwner | lib/covenants/namestate.js:300-312 | The same for the owner. |
| Names.NameState.SetValue | lib/covenants/namestate.js:314-326 | The same for the value. |
| Names.NameState.SetHighest | lib/covenants/namestate.js:328-340 | The same for the highest bid. |
| Names.NameState.SetData | lib/covenants/namestate.js:342-357 | The same for the resource data. |
| Names.NameState.SetTransfer | lib/covenants/namestate.js:359-371 | The same for the transfer height. |
| Names.NameState.SetRevoked | lib/covenants/namestate.js:373-385 | The same for the revocation height. |
| Names.NameState.SetClaimed | lib/covenants/namestate.js:387-399 | The same for the claim height. |
| Names.NameState.SetRenewals | lib/covenants/namestate.js:401-413 | The same for the renewal counter. |
| Names.NameState.SetRegistered | lib/covenants/namestate.js:415-427 | The same for the registered flag. |
| Names.NameState.SetExpired | lib/covenants/namestate.js:429-441 | The same for the expired flag. |
| Names.NameState.SetWeak | lib/covenants/namestate.js:443-455 | The same for the weak flag. |
| Names.NameState.Reset | lib/covenants/namestate.js:243-261 | Starts a fresh auction at a height, keeping only the name; the delta still leads back. |
| Names.NameState.MaybeExpire | lib/covenants/namestate.js:227-241 | Restarts an expired name, keeping its data and marking it expired; the delta still leads back. |
| Names.NameState.ApplyState | lib/covenants/namestate.js:457-500 | Sets every field that the delta holds; applied to a state in use, its own delta gives back the record it was recorded against. |
| Views.CoinView.ReadCoin | lib/coins/coinview.js:454-466 | Finds a coin in the view or loads it from the database, without changing what the two together hold. |
| Views.CoinView.SpendInputs | lib/coins/coinview.js:495-519 | In batches of up to four inputs: succeeds iff every input is unspent in view over database; then the inputs are gone and their coins were pushed to the undo list in input order. |
| Views.CoinView.AddTX | lib/coins/coinview.js:120-124 | Adds exactly the spendable outputs of a transaction. |
| Views.CoinView.RemoveTX | lib/coins/coinview.js:133-141 | Removes exactly the spendable outputs of a transaction, also when it never reached the database. |
| Views.CoinView.ApplyUndo | lib/coins/undocoins.js:121-127 | Takes the last undo coin and restores it at the outpoint. |
| Views.CoinView.GetNameState | lib/covenants/view.js:52-74 | Caches the record of a name from the tree, a null one if there is none. |
| Views.CoinView.SpendBits | lib/covenants/bitfield.js:97-126 | Succeeds iff no airdrop position of the coinbase is spent already or twice; then exactly those positions are marked. |
| Views.CoinView.UndoBits | lib/covenants/bitfield.js:128-150 | Clears exactly the airdrop positions of the coinbase. |
| Verify.ApplyClaim | lib/blockchain/chain.js:1072-1187 | On a view, gives the verdict and the record of the CLAIM rule on plain records, with the same reason for every rejection. |
| Verify.ApplyOpen | lib/blockchain/chain.js:1191-1234 | The same for OPEN. |
| Verify.ApplyBid | lib/blockchain/chain.js:1238-1257 | The same for BID; the record stays as it is. |
| Verify.ApplyReveal | lib/blockchain/chain.js:1262-1287 | The same for REVEAL: a strictly higher bid becomes owner and the old maximum the price; otherwise the price may rise. |
| Verify.ApplyRedeem | lib/blockchain/chain.js:1290-1317 | The same for REDEEM. |
| Verify.ApplyRegister | lib/blockchain/chain.js:1320-1412 | The same for REGISTER. |
| Verify.ApplyUpdate | lib/blockchain/chain.js:1415-1440 | The same for UPDATE. |
| Verify.ApplyRenew | lib/blockchain/chain.js:1443-1480 | The same for RENEW. |
| Verify.ApplyTransfer | lib/blockchain/chain.js:1483-1504 | The same for TRANSFER, including the assertion that no transfer is pending. |
| Verify.ApplyFinalize | lib/blockchain/chain.js:1507-1560 | The same for FINALIZE, including its assertions. |
| Verify.ApplyRevoke | lib/blockchain/chain.js:1563-1588 | The same for REVOKE, including the assertion that the name is not revoked. |
| Verify.ApplyPrepare | lib/blockchain/chain.js:1054-1064 | First use creates the record for CLAIM and OPEN only and is a plain error otherwise; then expiry is applied. |
| Verify.VerifyCovenants | lib/blockchain/chain.js:1022-1594 | One transaction on the view: the verdict of applying the rules to whole name maps output by output, and that result in the view. |
| Verify.CheckLinks | lib/covenants/rules.js:1236-1460 | The coin-to-output check of every input gives the verdict of the link rules on the coins that were there. |
| Verify.VerifyCoinbase | lib/blockchain/chain.js:834-948 | The coinbase: airdrop bits, claim heights and names; the view follows the ledger step exactly. |
| Verify.VerifySpend | lib/blockchain/chain.js:834-948 | Any other transaction: inputs, links and names; the view follows the ledger step exactly. |
| Verify.VerifyInputs | lib/blockchain/chain.js:834-948 | A whole block: the verdict is that of the ledger specification, and on acceptance the view holds its coins, names, bits and undo coins. |
| Ledger.MainHeight | lib/blockchain/chain.js:976-1012 | The height found for a hash on the main chain is one where that hash stands, and -1 is found exactly when the hash is not on the main chain. |
| ChainDB.ChainDB.SaveCoins | lib/blockchain/chaindb.js:2079-2096 | Writing a view deletes spent coins and puts the others: the database becomes view over database. |
| ChainDB.ChainDB.SaveBits | lib/covenants/bitfield.js:152-159 | Writing the bits of a view makes the field what the view said. |
| ChainDB.ChainDB.CountTX | lib/blockchain/chaindb.js:2225-2274 | The counters move as the specification of spent and added coins says, REGISTER outputs being burned and locked coins left out. |
| ChainDB.ChainDB.ConnectNames | lib/blockchain/chaindb.js:2174-2183 | Names of the view go to the working tree; the undo record of the height leads back to the names before; at an interval boundary the tree is committed. |
| ChainDB.ChainDB.DisconnectNames | lib/blockchain/chaindb.js:2193-2209 | Applying the undo record of the height gives back the names before the block and deletes the record. |
| ChainDB.ApplyUndoDeltas | lib/blockchain/chaindb.js:2193-2209 | Exactly the recorded names are loaded, each with its delta applied. |
| ChainDB.UndoFromView | lib/covenants/undo.js:16-23 | The undo list holds exactly the names of the view with a delta. |
| ChainDB.UndoFromViewOk | lib/covenants/undo.js:16-23 | That list leads from the names after the block back to the names before it. |
| ChainDB.ChainDB.Connect | lib/blockchain/chaindb.js:1725-1761 | Connecting an accepted block gives the ledger of the specification, and every stored undo record stays the one its block needs. |
| ChainDB.ChainDB.RestoreInputs | lib/blockchain/chaindb.js:2318-2336 | The inputs of a transaction come back from the end of the undo list, counters included. |
| ChainDB.ChainDB.UncountOutputs | lib/blockchain/chaindb.js:2338-2362 | The counters give back what the outputs of a transaction had added. |
| ChainDB.ChainDB.UndoTXs | lib/blockchain/chaindb.js:2296-2376 | Going backwards through the block with its undo coins gives the coins, bits and counters before it, also for coins created and spent inside the block, and uses up the undo list. |
| ChainDB.ChainDB.ReadUndoRecord | lib/blockchain/chaindb.js:1308-1315 | The undo coins read back from the stored bytes are those that were written; none when nothing was stored. |
| ChainDB.UndoStored | lib/blockchain/chaindb.js:2278-2303 | The bytes that connecting a block writes for its undo coins read back as exactly the coins the block spent, on every chain whose heights stay below 0x7fffffff. |
| ChainDB.ChainDB.Disconnect | lib/blockchain/chaindb.js:1847-1865 | Disconnecting the tip, with its undo coins read from their bytes, gives exactly the replay of the chain without it: coins, names, committed tree, bits and counters. |
| BlockTree.ProofBounds | lib/blockchain/chainentry.js:122-129 | The work of a positive target is the greatest number of which target plus one multiples stay within 2^256; a lower target never has less. |
| BlockTree.Index.PathFacts | lib/blockchain/chainentry.js:138-145 | The chainwork stored for an entry is that of genesis plus the proofs of all blocks after it, and its height is the number of those. |
| BlockTree.Index.BranchFacts | lib/blockchain/chain.js:1639-1656 | A branch lists every entry from a tip down to above the fork, each the parent of the one before. |
| Chain.FindFork | lib/blockchain/chain.js:1604-1622 | Terminates and returns a common ancestor of both entries of which every common ancestor is an ancestor. |
| Chain.Chain.VerifyBlock | lib/blockchain/chain.js:260-280 | The verdict on a block is that of the ledger specification on the current state. |
| Chain.Chain.Disconnect | lib/blockchain/chain.js:1810-1830 | The parent of the tip becomes the tip, with the ledger it had. |
| Chain.Chain.Reconnect | lib/blockchain/chain.js:1841-1882 | Succeeds iff the block is valid on the current ledger, which is iff its path replays; otherwise tip and ledger stay, and the block alone is remembered as invalid, unless it was malleated. |
| Chain.Chain.CollectBranch | lib/blockchain/chain.js:1639-1656 | The entries collected are exactly the branch above the fork. |
| Chain.Chain.DisconnectBranch | lib/blockchain/chain.js:1658-1661 | Leads back to the fork. |
| Chain.Chain.ConnectBranch | lib/blockchain/chain.js:1666-1684 | Connects a branch from the fork up, with the outcome of replaying the whole path; when that fails for good, exactly the blocks of the path that do not replay are remembered as invalid. |
| Chain.Chain.GiveUp | lib/blockchain/chain.js:1671-1684 | A branch that failed at one entry: the whole path has that outcome, and what is lost on it is remembered as invalid if the failure is for good. |
| Chain.PathReplays | lib/blockchain/chain.js:1707-1750 | If a chain replays from genesis, so does the chain to every ancestor. |
| Chain.BranchReplays | lib/blockchain/chain.js:1707-1750 | On a chain that replays, every block connects to the state below it. |
| Chain.Chain.Unreorganize | lib/blockchain/chain.js:1707-1750 | Always gets back to the old tip, whose blocks connect again, and to its full ledger; nothing is remembered as invalid. |
| Chain.Chain.SwitchBranch | lib/blockchain/chain.js:1633-1684 | From the tip back to the fork and up to the parent of the block, as far as that replays. |
| Chain.Chain.Reorganize | lib/blockchain/chain.js:1633-1697 | The outcome is that of replaying the path of the parent. Accepted: the tip is that parent. Rejected by verification: the old tip, or one with more work; remembered as invalid are the new block and what does not replay below it, nothing else. |
| Chain.Chain.SetBestChain | lib/blockchain/chain.js:1895-1981 | The outcome is that of the block's own checks, if it is not on the tip, and of replaying its whole path. Accepted: the new block is indexed and the tip, and nothing is remembered as invalid. Rejected: the old tip with its ledger, or one with more work. |
| Chain.Chain.SaveAlternate | lib/blockchain/chain.js:1993-2050 | Indexes a block of a side chain iff it passes its own checks; tip and ledger stay, and an accepted block is not remembered as invalid. |
| Chain.Chain.Connect | lib/blockchain/chain.js:2513-2596 | Accepted iff not too early, and: with no more work than the tip, when its own checks pass; on the tip, when it connects to the ledger; elsewhere, when its own checks pass and its whole path replays. Otherwise the reason of the first failure. An accepted block is the new tip iff it has more work. Remembered as invalid are exactly a block rejected for good and what is lost on the path that was tried. |
| Chain.Chain.VerdictCases | lib/blockchain/chain.js:2513-2596 | The verdict case by case: too early; no more work than the tip, iff the own checks pass; on the tip, iff the block connects to the current ledger; elsewhere, iff the own checks pass and the whole path with the block replays. |
| Chain.EarlyBlocks | lib/blockchain/chain.js:2533-2566 | Early blocks are accepted iff they hold one transaction with one output and no covenant. |
| Chain.Chain.Refuse | lib/blockchain/chain.js:2899-2901 | Remembers a block as invalid that is bad or a child of one that was refused. |
| Chain.Chain.RefuseChild | lib/blockchain/chain.js:2879-2890 | A child of an invalid block is remembered as invalid, whether or not it is indexed. |
| Chain.PathFails | lib/blockchain/chain.js:1666-1684 | A path fails to replay with the reason of its first block that does not connect. |
| Chain.TracedAdd | lib/blockchain/chain.js:2493-2502 | Indexing a block that is not remembered as invalid keeps the reason of every hash that is. |
| Chain.Chain.TipIsClean | lib/blockchain/chain.js:2879-2901 | No ancestor of the tip is remembered as invalid. |
| Chain.Chain.MainChainClean | lib/blockchain/chain.js:2879-2901 | No block of the main chain is. |
| Chain.Chain.ConnectEntry | lib/blockchain/chain.js:2513-2596 | The same verdict in terms of the index: an accepted block adds one entry with the height and work of its parent plus its own; the tip stays or gets more work, and no indexed block has more. |
| Chain.Chain.ConnectNew | lib/blockchain/chain.js:2485-2497 | The same for a block new to the chain: afterwards only its own orphan may have stopped waiting. |
| Chain.Chain.RemoveOrphan | lib/blockchain/chain.js:2787-2806 | Takes an orphan out of both maps; its assertions hold. |
| Chain.Chain.LimitOrphans | lib/blockchain/chain.js:2849-2877 | Exactly the orphans of less than an hour stay, less the oldest of them when there are too many; if there were not too many before, there is room for one more. |
| Chain.Chain.StoreOrphan | lib/blockchain/chain.js:2733-2758 | Sets a block aside; an orphan goes only if it waits for the same parent, is too old, or is the oldest where there is no room; the number of orphans stays within the limit, if that is at least one, and the assertions hold. |
| Chain.Chain.ConnectOrphan | lib/blockchain/chain.js:2604-2626 | The orphan that waited for an entry is taken out and connected. |
| Chain.Chain.HandleOrphans | lib/blockchain/chain.js:2604-2634 | Terminates; only waiting orphans enter the index, all that go are indexed but for at most one that failed, none that is left waits for an indexed block, and the tip stays or gets more work. |
| Chain.Chain.AddKnown | lib/blockchain/chain.js:2485-2502 | A block with a known parent is indexed iff the verdict on it is to accept; then the orphans that waited for it are connected; without such orphans exactly its entry is added, and it becomes the tip iff it has more work. |
| Chain.Chain.CheckDuplicate | lib/blockchain/chain.js:2446-2483 | Duplicates are exactly the blocks that are indexed, wait, are remembered as invalid, or follow an invalid one; only the last are remembered anew. |
| Chain.Chain.AddNew | lib/blockchain/chain.js:2485-2502 | A new block is set aside iff its parent is unknown, and otherwise indexed iff the verdict is to accept. |
| Chain.Chain.Add | lib/blockchain/chain.js:2438-2502 | For any block whatsoever: a duplicate iff it is indexed, waits, is remembered as invalid or is a child of an invalid block; set aside iff its parent is unknown; otherwise indexed iff the verdict is to accept, and rejected with its reason if not. The tip stays, with its whole ledger, or gets more work, and no indexed block has more; entries never change; every hash remembered as invalid has its reason. |
| Chain.Chain.AddAll | lib/blockchain/chain.js:2421-2502 | The same over any sequence of additions in which nothing but verification errors occurs; no block of the main chain is ever remembered as invalid. |
| Auction.RevealKeepsInv | lib/blockchain/chain.js:1262-1287 | A REVEAL keeps the invariant between coins, names and outputs. |
| Auction.RedeemKeepsInv | lib/blockchain/chain.js:1290-1317 | So does a REDEEM. |
| Auction.RegisterKeepsInv | lib/blockchain/chain.js:1320-1412 | So does a REGISTER: the new output becomes the owner, at the price. |
| Auction.OwnerKeepsInv | lib/blockchain/chain.js:1415-1560 | So do UPDATE, RENEW, TRANSFER and FINALIZE, and their assertions hold. |
| Auction.RevokeKeepsInv | lib/blockchain/chain.js:1563-1588 | So does a REVOKE, and its assertion holds. |
| Auction.ClaimKeepsInv | lib/blockchain/chain.js:1072-1187 | So does a CLAIM, also one that replaces an earlier claim. |
| Auction.OpenBidKeepsInv | lib/blockchain/chain.js:1191-1257 | So do OPEN and BID. |
| Auction.PrepareKeepsInv | lib/covenants/namestate.js:227-241 | So does the expiry of a name before its next use: coins of the old auction no longer commit to it. |
| Auction.LinksHold | lib/covenants/rules.js:1236-1460 | Accepted links give every linked output a coin of the right kind for the same name and height. |
| Auction.OutputKeepsInv | lib/blockchain/chain.js:1030-1590 | One output with its linked coin keeps the invariant, whatever the covenant. |
| Auction.SpendKeepsInv | lib/blockchain/chain.js:1022-1594 | A transaction keeps the invariant; it never trips an assertion, and errors that are not rejections are only a BID on a name nobody opened or an unknown covenant without an output. |
| Auction.CoinbaseKeepsInv | lib/covenants/rules.js:1133-1234 | A coinbase with claims keeps the invariant and never trips an assertion. |
| Auction.BitsNeverFault | lib/covenants/bitfield.js:97-126 | Spending airdrop bits accepts or rejects, nothing else. |
| Auction.WorkKeepsInv | lib/blockchain/chain.js:834-948 | All transactions of a block, in order, keep the invariant. |
| Ownership.OutputsHaveTxids | lib/coins/coinview.js:120-124 | Every output ever created belongs to a transaction of the chain. |
| Ownership.FreshBlock | lib/blockchain/chain.js:834-948 | With unique transaction ids a new block creates only new outpoints. |
| Ownership.BlockKeepsInv | lib/blockchain/chain.js:834-948 | A block on any reachable state keeps the invariant and trips no assertion. |
| Ownership.ReachableInv | lib/blockchain/chain.js:1022-1594 | The invariant holds after every chain that connects. |
| Ownership.AssertionsNeverFail | lib/blockchain/chain.js:1483-1588 | On every reachable state no block whatever makes the assertions on transfer and revoked (or any other) fail. |
| Ownership.SingleOwner | lib/covenants/rules.js:1302-1448 | The coins carrying the ownership of a registered, unrevoked name are exactly its owner outpoint, iff the output there is spendable; it holds the price, and is a TRANSFER iff a transfer is pending. |
| Ownership.BurnedByTransfer | lib/covenants/rules.js:1302-1448 | An ownership output that may spend a coin is unspendable iff it is a FINALIZE of a TRANSFER that committed to address version 31. |
| Ownership.ReachableBurns | lib/covenants/rules.js:1302-1448 | On every chain, of the outputs that carry ownership only a FINALIZE can be unspendable. |
| Ownership.OwnerBurned | lib/covenants/rules.js:1302-1448 | A registered, unrevoked name has a coin iff the output at its owner is not a FINALIZE to address version 31. |
| Ownership.NoOwner | lib/blockchain/chain.js:1563-1588 | No coin carries the ownership of an unregistered or revoked name. |
| Spending.LinkFollows | lib/covenants/rules.js:1236-1460 | The coin-to-output check read from the output: for each covenant of the output, exactly the coins it may follow; without an output beside it, only a coin that carries no name may be spent. |
| Spending.ChainFollows | lib/covenants/rules.js:1236-1460 | On every chain, every input spends an output made before it, and the output beside the input may follow that. |
| Spending.ChainLinked | lib/covenants/rules.js:1236-1460 | On every chain, every linked output stands beside an input that spends what it may follow. |
| Spending.RevealOpensBid | lib/covenants/rules.js:1281-1295 | On every chain, the output that a REVEAL spends is a BID on the same name at the same height, whose blind is the blind of the revealed value and nonce, and whose value is at least the revealed one. |
| NameHistory.OwnerHistory | lib/blockchain/chain.js:1415-1560 | UPDATE, RENEW, TRANSFER and FINALIZE leave the record telling the history with that output added. |
| NameHistory.ReachableHistory | lib/blockchain/chain.js:1022-1594 | On every chain, every record tells the history of its name. |
| NameHistory.AuctionBegan | lib/blockchain/chain.js:1054-1234 | A name is on record iff it was opened or claimed; the record has the height of the last OPEN or CLAIM, the commitment, strength and outpoint of that claim, and the expired flag iff the name was opened anew. |
| NameHistory.OwnersDid | lib/blockchain/chain.js:1320-1588 | Registered iff a REGISTER of the auction is on the chain, which then comes first; renewal is the height of the last REGISTER, RENEW or FINALIZE, renewals the number of RENEWs and FINALIZEs, transfer the height of a TRANSFER that nothing followed, revoked that of the REVOKE, which comes last, and owner the last output before it. |
| NameHistory.Resolves | lib/blockchain/chain.js:1405-1440 | On every chain, the data of a name is what the last REGISTER or UPDATE with data brought, nothing after a REVOKE, and nothing if there was none. |
| Admission.LapsedExpires | lib/covenants/namestate.js:160-215 | A name expires some time after its REVOKE, or a renewal window after its last renewal, or when nobody won it, but not while its claim is protected. |
| Admission.RenewsIs | lib/blockchain/chain.js:974-1012 | A renewal block is accepted iff it is on the chain between the two ages, or the chain is too short. |
| Admission.OpenAdmits | lib/blockchain/chain.js:1191-1234 | OPEN is accepted iff the name is new, has lapsed, or was opened in this block, and is neither reserved and never auctioned, nor locked up, nor before its rollout. |
| Admission.ClaimAdmits | lib/blockchain/chain.js:1072-1187 | The exact conditions for a CLAIM: reserved, strong enough, a later commitment on the chain, and no auction, registration or recent claim in its way; from the deflation height on, the first commitment, or the value of the claim it replaces. |
| Admission.AuctionAdmits | lib/blockchain/chain.js:1238-1317 | BID, REVEAL and REDEEM are accepted exactly in their periods of the auction they name, REDEEM for any coin but the owner. |
| Admission.RegisterAdmits | lib/blockchain/chain.js:1320-1412 | The exact conditions for a REGISTER. |
| Admission.OwnerAdmits | lib/blockchain/chain.js:1415-1588 | For the coin that holds the name: UPDATE, TRANSFER and REVOKE are always accepted until it lapses, RENEW a tree interval after the last renewal, FINALIZE a lockup after the TRANSFER with the data of the record. |
| Admission.Admits | lib/blockchain/chain.js:1022-1594 | An output beside a coin that may become it is accepted iff it meets the conditions of its covenant on the record of its name, in heights. |
| Admission.BlockAdmits | lib/blockchain/chain.js:834-948 | On every chain a block connects iff its shape and context are right, it commits to the tree, its airdrop positions are unclaimed, every input finds a coin its output may follow, and every output is admitted. |
| BurnedName.NobodyHolds | lib/blockchain/chain.js:1507-1560 | A concrete chain of six blocks after which a registered name has no coin: a FINALIZE to a nulldata address is accepted and its output not stored. |
| Vickrey.RevealOutcome | lib/blockchain/chain.js:1262-1287 | One more reveal turns the outcome over the earlier ones into the outcome over all. |
| Vickrey.ReachablePrices | lib/blockchain/chain.js:1262-1361 | Price and maximum fit the reveals of the current auction after every chain that connects. |
| Vickrey.VickreyOutcome | lib/blockchain/chain.js:1262-1361 | For every name on every chain: highest is the maximal reveal, value the second largest with multiplicity (0 for one reveal), and the owner before registration the earliest maximal reveal. |
| Vickrey.OwnerPaidSecondPrice | lib/blockchain/chain.js:1320-1361 | The coin of a registered name that was auctioned holds the second price of its auction. |
| Vickrey.RegisterOrRedeem | lib/blockchain/chain.js:1290-1361 | On a record whose auction is finished and whose reveals are given: REGISTER is accepted iff the reveal won and the output has the second price, REDEEM iff it did not win. |
| Vickrey.SecondPriceUnique | lib/blockchain/chain.js:1262-1287 | There is only one second price. |
| Settlement.ReachableLog | lib/coins/coinview.js:120-124 | The log of a chain lists every output created on it, each outpoint once. |
| Settlement.CoinShown | lib/covenants/rules.js:1281-1300 | A coin is a REVEAL of an auction iff it is one of the listed reveals of that auction, and then at one place. |
| Settlement.RegisteredHow | lib/blockchain/chain.js:1320-1412 | A name is registered after an output only if it was before, or if the output is the REGISTER that spends its owner. |
| Settlement.ReachableSettled | lib/blockchain/chain.js:1320-1412 | On every chain, once a name is registered the winning reveal is no longer a coin. |
| Settlement.RegisterOrRedeemCoins | lib/blockchain/chain.js:1290-1412 | After any chain, for every REVEAL coin and every output that may spend it: REGISTER is accepted iff the auction is closed and not expired, the renewal block is right, and the reveal won and pays the second price; REDEEM iff the auction is closed or revoked, not expired, and the reveal did not win. |
| Settlement.RegisterOrRedeemInBlock | lib/blockchain/chain.js:1290-1412 | The same before every transaction of a block on top of any chain. |
| Supply.SupplyAccounts | lib/blockchain/records.js:143-161 | After every chain: value is the total of unspent coins outside REGISTER..REVOKE less all re-claims, coin the number of those coins less the re-claims and with all registrations, burned everything registered, and tx counts transactions. |
| CoinSet.UnspentCoins | lib/coins/coinview.js:120-124 | The coins of every chain are exactly the spendable outputs it made and did not spend; every outpoint is spent at most once, and only if it was made. |
| CoinSet.MadeAt | lib/coins/coins.js:198-213 | Each coin has the version of its transaction, the height of its block, and the coinbase flag iff it comes from the first transaction. |
| Airdrops.ClaimsOnce | lib/covenants/bitfield.js:97-126 | Airdrop proofs of a coinbase are accepted iff every position is in the field and claimed for the first time; then exactly these are marked. |
| Airdrops.ClaimedOnce | lib/covenants/bitfield.js:97-126 | On every chain the field holds exactly the claimed positions, each claimed once. |
| Supply.WorkCounts | lib/coins/coins.js:198-213 | Transaction by transaction, counters and coin totals move together, unspendable outputs counting in neither. |
| Supply.Boundary | lib/blockchain/chaindb.js:2125-2165 | The last height at or below the tip that is a multiple of the tree interval. |
| Supply.CommittedTree | lib/blockchain/chaindb.js:2125-2165 | The committed tree, and so the root a next block must carry, is the name map after that height, for any history of the same chain. |
| VersionBits.MedianRank | lib/blockchain/chain.js:388-408 | The sorted middle element, without reference to sorting: fewer than half the times are below it, at least half at or below. |
| VersionBits.MedianStep | lib/blockchain/chain.js:571-579 | A block later than the median of its predecessors has a median at least as large, also while the window fills. |
| VersionBits.MedianMonotone | lib/blockchain/chain.js:388-408 | Median time past never decreases along a valid chain. |
| VersionBits.SameWindow | lib/blockchain/chain.js:3577-3600 | All blocks of a window have the state of its start. |
| VersionBits.EarlyIsDefined | lib/blockchain/chain.js:3614-3620 | When the median is before the start time the state of BIP 9 is DEFINED: stopping there is right. |
| VersionBits.EarlyCanBeFailed | lib/blockchain/chain.js:3614-3620 | Not so for a deployment that times out before it starts: a concrete chain where BIP 9 says FAILED. |
| VersionBits.EffectiveAgrees | lib/blockchain/chain.js:3606-3692 | A deployment run with its timeout moved to its start, if it was earlier, has the BIP 9 state except exactly when the last window ended after the timeout and before the start; there BIP 9 has FAILED and the other DEFINED. |
| VersionBits.NeverStarts | lib/blockchain/chain.js:3632-3646 | A deployment without time to start goes from DEFINED to FAILED at its timeout. |
| VersionBits.DefinedAfterTimeout | lib/blockchain/chain.js:3577-3692 | A concrete call that answers DEFINED where BIP 9 has FAILED. |
| VersionBits.Terminal | lib/blockchain/chain.js:3674-3681 | ACTIVE and FAILED are never left along a chain. |
| VersionBits.FirstWindow | lib/blockchain/chain.js:3648-3672 | The state in the first window is DEFINED, so STARTED never counts signals past genesis. |
| VersionBits.SignalsAre | lib/blockchain/chain.js:3648-3672 | The count is the number of signalling blocks of the window. |
| VersionBits.ClosedForm | lib/blockchain/chain.js:3629-3689 | Without recursion: ACTIVE iff an earlier window locked in, that is, started before, had not timed out and had enough signals; LOCKED_IN iff this one did; otherwise the median time against timeout and start decides between FAILED, STARTED and DEFINED. |
| VersionBits.CountSignals | lib/blockchain/chain.js:3648-3672 | The counting loop stops early without changing the answer and never lacks a previous block. |
| VersionBits.Advance | lib/blockchain/chain.js:3629-3689 | One forward step is the transition of BIP 9. |
| VersionBits.FindWindowEnd | lib/blockchain/chain.js:3589-3599 | The last block of the window before, or none in the first window. |
| VersionBits.Backward | lib/blockchain/chain.js:3606-3627 | For every deployment: the backward loop stops at a cached or early window with the state from which the pending windows resume. |
| VersionBits.Forward | lib/blockchain/chain.js:3629-3689 | The forward loop ends with the state of the last window, and what it caches is right. |
| VersionBits.GetState | lib/blockchain/chain.js:3577-3692 | For every deployment, with any sound cache: the state of the deployment whose timeout is not before its start, which is the recursively defined state of BIP 9 except exactly when the last window ended after the timeout and before the start; the cache stays sound. |
| VersionBits.StateCache.Set | lib/blockchain/records.js:221-230 | Sets one entry and logs an update when it changed. |
| VersionBits.StateCache.Drop | lib/blockchain/records.js:249-257 | Exactly the entries set since the last commit are forgotten; every other stays. |
| VersionBits.StateCache.Commit | lib/blockchain/records.js:245-247 | Keeps the cache and empties the log. |
| VersionBits.SoundSubmap | lib/blockchain/records.js:249-257 | A cache with fewer entries stays sound. |
| VersionBits.SoundSet | lib/blockchain/records.js:221-230 | Setting the right state keeps a cache sound. |
| VersionBits.SoundGrow | lib/blockchain/records.js:221-243 | A new block without cached state keeps the cache sound. |
| Mempool.Pool.TrackEntry | lib/mempool/mempool.js:2559-2580 | Adds an entry; spents stays the exact inverse of the inputs and size the total usage. |
| Mempool.Pool.UntrackEntry | lib/mempool/mempool.js:2588-2608 | Removes an entry with the same guarantees. |
| Mempool.Pool.RemoveSpenders | lib/mempool/mempool.js:1864-1877 | Terminates; nothing spends the entry any more, only entries under it went, and no spender of a removed entry is left. |
| Mempool.Pool.EvictEntry | lib/mempool/mempool.js:1852-1856 | Removes exactly the entry and its transitive spenders. |
| Mempool.NothingLeft | lib/mempool/mempool.js:1864-1877 | Once a root is gone and no removed entry has a spender left, everything under the root is gone. |
| Mempool.Pool.TrackClaim | lib/mempool/mempool.js:1200-1213 | Adds a claim; the index by name stays its inverse. |
| Mempool.Pool.UntrackClaim | lib/mempool/mempool.js:1220-1229 | Removes a claim from both maps; the assertion on the index holds. |
| Mempool.Pool.TrackAirdrop | lib/mempool/mempool.js:1385-1397 | Adds an airdrop; the index by position stays its inverse. |
| Mempool.Pool.UntrackAirdrop | lib/mempool/mempool.js:1404-1412 | Removes an airdrop from both maps; the assertion on the index holds. |
| Mempool.Pool.EvictExpired | lib/mempool/mempool.js:624-640 | Exactly the entries under an expired root go. |
| Mempool.OtherRootsStay | lib/mempool/mempool.js:672-688 | Evicting one root leaves every other root: the assertion on dequeued roots never fails. |
| Mempool.NoRootNoEntry | lib/mempool/mempool.js:648-688 | A pool without roots is empty. |
| Mempool.Pool.EvictRoots | lib/mempool/mempool.js:642-694 | Ends below the threshold or with no transaction left, in whatever order the heap gives: roots go one by one, each with exactly its package, and each from a pool still above the threshold. |
| Mempool.Pool.EvictClaims | lib/mempool/mempool.js:703-715 | The same for claims, once no transaction is left. |
| Mempool.Pool.EvictAirdrops | lib/mempool/mempool.js:722-729 | The same for airdrops, once no claim is left. |
| Mempool.WithoutMore | lib/mempool/mempool.js:672-688 | Evicting one more root leaves what is under none of the roots evicted so far. |
| Mempool.Pool.LimitSize | lib/mempool/mempool.js:619-734 | Afterwards size is the tracked usage and within the limit; if expiry was enough nothing else went, otherwise the pool is below the threshold, and nothing went from a pool that already was: roots with their packages first, claims only once no transaction was left, airdrops only once no claim was; the answer says exactly when the added item is gone. |
| Mempool.Pool.AddEntry | lib/mempool/mempool.js:1482-1589 | Accepted iff still tracked, except exactly when the entry went with an expired ancestor and that made enough room; what else goes is what limiting the size takes, no more. |
| Mempool.ExpiredParentTakesChild | lib/mempool/mempool.js:624-644 | That exception, run: a pool over its limit with an expired transaction, within it once that is gone; adding a child of it is accepted, and the child is not in the pool. |
| NameLimits.CountOpens | lib/covenants/rules.js:585-596 | Counts the OPEN outputs. |
| NameLimits.CountUpdates | lib/covenants/rules.js:604-640 | Counts CLAIM, OPEN, UPDATE, TRANSFER and REVOKE outputs. |
| NameLimits.CountRenewals | lib/covenants/rules.js:648-668 | Counts REGISTER, RENEW and FINALIZE outputs. |
| NameLimits.CountsAre | lib/covenants/rules.js:585-668 | The counts are the numbers of outputs: OPEN; CLAIM, OPEN, UPDATE, TRANSFER and REVOKE; REGISTER, RENEW and FINALIZE. |
| NameLimits.HasNames | lib/covenants/rules.js:470-503 | Whether a transaction touches a name of the set exclusively. |
| NameLimits.AddNames | lib/covenants/rules.js:511-540 | Adds exactly the names a transaction touches exclusively. |
| NameLimits.CheckNameLimits | lib/blockchain/chain.js:511-543 | Accepts exactly the blocks with totals within the limits whose transactions touch different names, with a reason that fits. |
| NameLimits.ApartPairwise | lib/blockchain/chain.js:541-543 | The running set check is pairwise disjointness. |
| Miner.CountDeps | lib/mining/miner.js:337-362 | Every entry waits for as many inputs as spend pool entries, children are listed once per input, and the queue holds those that wait for nothing. |
| Miner.Release | lib/mining/miner.js:425-432 | Placing an entry lowers the counts by its edges and frees exactly those that reach zero. |
| Miner.Template.AddClaims | lib/mining/miner.js:273-300 | At most ten claims, none twice, within weight and updates; fewer only if none that was left would have fitted; the fees of first claims are added. |
| Miner.Template.AddAirdrops | lib/mining/miner.js:302-327 | The same for airdrop proofs, all of whose fees are added. |
| Miner.Template.AddEntries | lib/mining/miner.js:329-433 | The loop terminates despite reinsertion; entries come once, parents first, final, within every limit, and what is left out waits for something left out or did not fit; weight, sigops, counts and fees are the sums over what is placed. |
| Miner.Template.Assemble | lib/mining/miner.js:264-434 | All of this for the whole template; its weight, sigops, name counts and fees are those of what it holds. |
| Miner.AssembledPasses | lib/mining/template.js:256-345 | A block made from the template passes the name limits of block verification when the pool holds no two transactions on one name. |
| Miner.AssembledPays | lib/mining/template.js:241-316 | A coinbase that pays the subsidy and the fees of the template claims exactly what verification allows it; less only by the fees of replaced claims before the deflation height. |
| Contracts.ContractState.HasName | lib/mempool/contractstate.js:87-89 | Whether a claim or a tracked transaction touches the name. |
| Contracts.ContractState.AddName | lib/mempool/contractstate.js:96-99 | Adds the name of a claim; names stay unique. |
| Contracts.ContractState.RemoveName | lib/mempool/contractstate.js:106-109 | Frees the name of a claim. |
| Contracts.ContractState.HasNames | lib/mempool/contractstate.js:116-118 | Whether a claim or a tracked transaction touches a name of the transaction exclusively. |
| Contracts.ContractState.Track | lib/mempool/contractstate.js:291-346 | Adds the names of a transaction; tracked transactions go on touching different names. |
| Contracts.ContractState.Untrack | lib/mempool/contractstate.js:353-393 | Frees the names of a transaction, and no other transaction needed them. |
| Contracts.UntrackApart | lib/covenants/rules.js:548-577 | Taking one transaction out leaves the names in use exactly those of the others and of the claims. |
| Miner.TrackedPasses | lib/mining/template.js:256-345 | A block made from entries that the contract state tracks and claims it knows passes the name limits. |
| FileStore.FileBlockStore.Allocate | lib/blockstore/file.js:274-320 | Finds room without touching stored data; fails exactly when the file to use is being written or numbers run out. |
| FileStore.FileBlockStore.Write | lib/blockstore/file.js:366-451 | As a map: a new key gets its data, a known one stays, and a failure changes nothing. |
| FileStore.FileBlockStore.Append | lib/blockstore/file.js:394-440 | The new record lies behind the used part of its file, so no live record changes. |
| FileStore.FileBlockStore.Prune | lib/blockstore/file.js:579-609 | As a map: exactly this key is removed; its file is unlinked, and no longer known, iff no other record is in it, and no other file changes. |
| FileStore.LastGoes | lib/blockstore/file.js:579-609 | The count of a file is one iff it holds no other record. |
| FileStore.FileBlockStore.Read | lib/blockstore/file.js:498-536 | Every case of a read: the stored bytes, the slice asked for, a failure, and for a length without an offset the bytes from the start of the record on, unchecked against its end. |
| FileStore.ReadSlices | lib/blockstore/file.js:511-533 | With an offset and a length: the slice iff it lies within the record, otherwise a failure. With a length alone: a part of the record iff the length is at most that of the record. With an offset alone: what follows it, or a failure at or past the end. |
| FileStore.ReadIntoNext | lib/blockstore/file.js:511-533 | Two records, run: a read of the first by length alone gives it, the header of the second, and the second. |
| FileStore.AppendLocated | lib/blockstore/file.js:394-440 | Live records stay inside the used region of their file and apart from each other. |
| FileStore.AppendCounted | lib/blockstore/file.js:394-440 | The block count of a file stays the number of its live records. |
| FileStore.PruneHolding | lib/blockstore/file.js:579-609 | Pruning one record keeps the bytes of all others. |
| Packets.DrainSplit | lib/net/parser.js:60-83 | What is parsed from a prefix of the stream is parsed the same way when more follows. |
| Packets.ChunkingIrrelevant | lib/net/parser.js:60-83 | Packets and errors depend only on the concatenated bytes. |
| Packets.Parser.Feed | lib/net/parser.js:60-83 | Terminates, also for empty payloads, and does what draining the stream says. |
| Packets.Parser.ParseChunk | lib/net/parser.js:90-117 | One header or payload, with the error cases. |
| Packets.Parser.ParseHeader | lib/net/parser.js:120-140 | Magic and size checks of a header. |
| Pieces.Take | lib/net/parser.js:64-78 | The next bytes, copied piece by piece, and the rest of the stream unchanged. |
| Packets.FramePacket | lib/net/framer.js:35-54 | Header and payload in one buffer. |
| Packets.FramesRoundTrip | lib/net/parser.js:60-140 | Any sequence of framed messages, cut anywhere, parses to the same sequence and leaves nothing over. |
| Bytes32.U32RoundTrip | lib/net/framer.js:40-50 | Little-endian 32-bit numbers read back. |
| Brontide.RotationSchedule | lib/net/brontide.js:153-187 | After n uses a fresh cipher has rotated n / 1000 times and has nonce n % 1000. |
| Brontide.IvInjective | lib/net/brontide.js:133-136 | Different nonces give different initialisation vectors. |
| BrontideStream.CipherState.RotateKey | lib/net/brontide.js:153-162 | One rotation of key and salt. |
| BrontideStream.CipherState.Encrypt | lib/net/brontide.js:164-174 | Seals in place under the current nonce and advances; the nonce stays below 1000. |
| BrontideStream.CipherState.Decrypt | lib/net/brontide.js:176-187 | Opens in place and advances, or changes nothing. |
| BrontideStream.HandshakeState.MixKey | lib/net/brontide.js:216-226 | Chaining and temporary key move on; the cipher is rekeyed. |
| BrontideStream.HandshakeState.EncryptHash | lib/net/brontide.js:237-241 | Seals into the transcript. |
| BrontideStream.HandshakeState.DecryptHash | lib/net/brontide.js:243-254 | Opens from the transcript, or fails. |
| BrontideStream.HandshakeState.GenAct | lib/net/brontide.js:313-382 | Acts one and two as written: ephemeral key, shared secret, tag. |
| BrontideStream.HandshakeState.RecvAct | lib/net/brontide.js:336-407 | Acts one and two as read: accepted iff size, point, secret and tag are right. |
| BrontideStream.HandshakeState.GenActThree | lib/net/brontide.js:409-428 | Act three as written, ending in split keys. |
| BrontideStream.HandshakeState.RecvActThree | lib/net/brontide.js:430-461 | Act three as read, with all its failures, ending in split keys. |
| BrontideStream.HandshakeState.Split | lib/net/brontide.js:463-479 | Sending and receiving keys by role. |
| Brontide.HashAgrees | lib/net/brontide.js:237-254 | What one side seals into the transcript the other opens, and they still agree. |
| Brontide.ActAgrees | lib/net/brontide.js:313-407 | An act written against one key of a pair is accepted with the other, and both sides agree after it. |
| Brontide.ActThreeAgrees | lib/net/brontide.js:409-461 | The same for act three; the ciphers of the two sides match crosswise. |
| Brontide.HandshakeAgrees | lib/net/brontide.js:313-479 | Honest peers accept all three acts, agree on digest and chaining key after each, the responder learns the caller, and the ciphers pair up with nonce 0. |
| Brontide.HandshakeSpoken | lib/net/brontide.js:283-479 | The three acts and the two final keys of honest peers, written out from the four key pairs: which secrets are mixed in which order, and what each tag authenticates. |
| BrontideRuns.TwoUsesEach | lib/net/brontide.js:607-636 | Every message uses the cipher twice. |
| BrontideRuns.ChunkingIrrelevant | lib/net/brontide.js:638-652 | What a stream does depends on the bytes it reads and not on how they are cut, for any bytes. |
| BrontideRuns.StepHeader | lib/net/brontide.js:746-765 | A header that was sealed for the next message opens, and tells its length. |
| BrontideRuns.FlowHeader | lib/net/brontide.js:746-765 | Parsing the header of the next frame awaits its body iff the message is at most the limit; a longer one destroys the stream. |
| BrontideRuns.FlowBody | lib/net/brontide.js:767-776 | Parsing a body delivers the next message. |
| BrontideRuns.ApplyKeepsInv | lib/net/brontide.js:564-777 | Every step of two honest peers keeps the run invariant. |
| BrontideRuns.Delivery | lib/net/brontide.js:564-777 | In every run of two honest peers, however writes, arrivals and cuts interleave: no failure, delivered is a prefix of written in order, and when nothing is under way everything was delivered, including what was written during the handshake, with equal ciphers. |
| BrontideReplies.DrainWrite | lib/net/brontide.js:607-652 | After the handshake, a message written before a feed is sent as if it were written behind it, unless the feed destroys the stream. |
| BrontideReplies.RepliesCanWait | lib/net/brontide.js:638-777 | What listeners write while events are emitted, in the middle of a feed, is sent as if it were written behind the feed, in order. |
| BrontideReplies.AnswersAreMoves | lib/net/brontide.js:638-777 | After any run of honest peers, bytes that arrive and are answered at once, at either end, lead to the state of the run in which the answers are written next. |
| BrontideStream.EncryptedStream.Start | lib/net/brontide.js:564-582 | The initiator sends act one; the responder waits for it. |
| BrontideStream.EncryptedStream.Write | lib/net/brontide.js:607-636 | Dropped before the connection, queued during the handshake, sealed and sent after it. |
| BrontideStream.EncryptedStream.Unleash | lib/net/brontide.js:584-593 | Sends what was queued, in order. |
| BrontideStream.EncryptedStream.Destroy | lib/net/brontide.js:595-605 | Drops everything and reports the failure. |
| BrontideStream.EncryptedStream.Read | lib/net/brontide.js:654-695 | The next bytes on all three paths. |
| BrontideStream.EncryptedStream.Parse | lib/net/brontide.js:697-777 | One chunk; anything thrown destroys the stream. |
| BrontideStream.EncryptedStream.Feed | lib/net/brontide.js:638-652 | Does what draining the stream specification says. |
| CompactBlocks.CompactBlock.Init | lib/net/bip152.js:314-358 | Accepted iff sizes and indexes fit; the i-th short id stands for the i-th slot that is not prefilled; false iff two ids are equal. |
| CompactBlocks.SlotCount | lib/net/bip152.js:331-356 | There are as many free slots as short ids. |
| CompactBlocks.CompactBlock.FillMempool | lib/net/bip152.js:222-254 | For every pool: of the transactions looked at, a slot gets the one with its short id when there is one alone, and stays empty otherwise; all are looked at unless the answer is true, and then no slot is empty. Without collisions in the pool the answer is true iff no slot is empty. |
| CompactBlocks.CompactBlock.ToRequest | lib/net/bip152.js:498-507 | The indexes of the empty slots. |
| CompactBlocks.WriteIndexes | lib/net/bip152.js:578-593 | Indexes as distances. |
| CompactBlocks.ReadIndexes | lib/net/bip152.js:525-547 | Accepts exactly the distances of a rising list of indexes up to 0xffff, and gives that list. |
| CompactBlocks.DeltasAgree | lib/net/bip152.js:525-593 | The distances determine the list. |
| CompactBlocks.Respond | lib/net/bip152.js:660-671 | The transactions asked for, in order. |
| CompactBlocks.CompactBlock.FillMissing | lib/net/bip152.js:262-276 | True iff as many transactions came as were missing; each goes to the next empty slot. |
| CompactBlocks.CompactBlock.ToBlock | lib/net/bip152.js:366-388 | The transactions of all slots; an assertion fails iff one is empty. |
| CompactBlocks.CoinbaseEncodes | lib/net/bip152.js:397-429 | The compact form of a block stands for it. |
| CompactBlocks.Exchange | lib/net/bip152.js:222-671 | The whole exchange gives the block back for every pool, when short ids do not collide, whichever transactions were prefilled. |
| Mnemonic.GetPhrase | lib/hd/mnemonic.js:149-198 | Three words for every 32 bits, saying the entropy and the first bits of its digest. |
| Mnemonic.FromPhrase | lib/hd/mnemonic.js:205-273 | Accepts exactly the phrases of an allowed length whose trailing bits are the checksum of the leading ones, and returns those. |
| Mnemonic.PhraseRoundTrip | lib/hd/mnemonic.js:149-273 | The phrase of any entropy reads back as it and as nothing else. |
| Mnemonic.AcceptedRegenerates | lib/hd/mnemonic.js:205-273 | An accepted phrase is the phrase of its entropy iff its number of words is a multiple of three. |
| Mnemonic.PhraseOfLength | lib/hd/mnemonic.js:205-273 | For every allowed number of words, every entropy of its size has an accepted phrase of that many words. |
| Mnemonic.ThirteenWords | lib/hd/mnemonic.js:205-273 | Every 16 bytes of entropy have an accepted phrase of thirteen words. |
| Mnemonic.Regenerate | lib/hd/mnemonic.js:149-273 | Reading a phrase and writing it again, run: an accepted phrase comes back iff its number of words is a multiple of three. |
| Nsec.VerifyString | lib/covenants/rules.js:214-253 | Accepts exactly the allowed labels. |
| Nsec.NextOctets | lib/dns/nsec.js:23-34 | The octets of the successor, read from its text form. |
| Nsec.PrevOctets | lib/dns/nsec.js:37-62 | The octets of the predecessor. |
| Nsec.MinimalCover | lib/dns/nsec.js:23-62 | In canonical order the neighbours enclose the label, and an allowed label lies strictly between them iff it is that label. |
| Bits.SetBitSets | lib/covenants/bitfield.js:20-34 | Setting a bit sets it and no other. |
| Bitfield.ClearBitClears | lib/covenants/bitfield.js:20-34 | Clearing a bit clears it and no other. |
| Bitfield.Field.Set | lib/covenants/bitfield.js:20-34 | The marked positions change at one place. |
| Bitfield.Field.Get | lib/covenants/bitfield.js:36-43 | Marked, or outside the field. |
| Bitfield.Field.Commit | lib/covenants/bitfield.js:152-159 | Everything a view has seen is written, the rest stays. |
| Codecs.CoinRoundTrip | lib/coins/coinentry.js:182-239 | A coin reads back as stored iff its height is at least -1 and below 0x7fffffff. |
| Codecs.TripVarint | lib/coins/coinentry.js:200-224 | Variable-length integers read back. |
| Codecs.PackBits | lib/covenants/namedelta.js:113-189 | A packed field has exactly the flags that were set. |
| Codecs.DeltaRoundTrip | lib/covenants/namedelta.js:191-323 | Every delta reads back, also null owners, zeros, empty data and false flags. |
| Codecs.DeltaSized | lib/covenants/namedelta.js:59-111 | The size computed beforehand is the size written. |
| Codecs.ReadUndo | lib/covenants/undo.js:39-61 | The records of an undo entry read back in order. |
| Codecs.NameRoundTrip | lib/covenants/namestate.js:539-653 | Every name state reads back. |
| CoinCodec.CovenantItems | lib/primitives/covenant.js:752-829 | Kind and items determine a covenant of the widths that sanity checks leave. |
| CoinCodec.EncodeCovenant | lib/primitives/covenant.js:752-760 | Writes kind, number of items and items. |
| CoinCodec.DecodeCovenant | lib/primitives/covenant.js:817-829 | Reads them, at most a thousand, with all failures. |
| CoinCodec.OutputRoundTrip | lib/coins/compress.js:27-45 | Value, address and covenant of every output read back. |
| CoinCodec.EncodeUndoCoins | lib/coins/undocoins.js:71-78 | Writes the number of coins and the coins. |
| CoinCodec.DecodeUndoCoins | lib/coins/undocoins.js:86-93 | Reads a counted list of coins. |
| CoinCodec.TripCoin | lib/coins/coinentry.js:182-239 | A coin reads back with its output, and with the height and flag that the packed field can hold. |
| CoinCodec.UndoCoinsRoundTrip | lib/coins/undocoins.js:71-93 | A list of undo coins reads back iff every height is at least -1 and below 0x7fffffff. |
| StoredCoins.ReachableCoins | lib/coins/coinentry.js:182-239 | Every coin of every chain fits the widths it is stored in and has a height on the chain. |
| StoredCoins.UndoReadsBack | lib/coins/undocoins.js:71-93 | So does every coin that a block spends, and its undo record reads back. |
| StoredNames.ReachableNames | lib/covenants/namestate.js:539-653 | On every chain, heights in a name record are at most the number of blocks, amounts at most the supply, and renewals at most the height of the last one. |
| StoredNames.NamesReadBack | lib/covenants/namestate.js:539-653 | Every name record of every chain reads back. |
| StoredNames.DeltasReadBack | lib/covenants/namedelta.js:191-323 | So does every delta recorded against such a record. |

## Left out

- Checkpoint and SPV modes, pruning and tree compaction: they skip the checks
  the invariants rest on.
- Database batches and what a crash between two writes leaves: `start`,
  `commit` and `drop` act at once here, except on the deployment cache.
- `syncTree` and the recorded commit height after a restart: a disconnect at a
  tree boundary records the disconnected height with the earlier root
  (`lib/blockchain/chaindb.js:2152-2163`).
- Chain.Chain.Add: the work of the tip is said to be kept for accepted blocks
  and verification errors; an error of another kind, such as a BID on a name that
  was never opened, leaves a reorganisation where it stopped
  (`lib/blockchain/chain.js:1672-1683`), still with a valid state. Heights have
  to fit the 31 bits of a stored coin: the bound is the parameter `room`.
- Chain.Chain.Refuse: the hashes remembered as invalid are kept for good here; the
  program forgets the least recently used beyond 5000
  (`lib/blockchain/chain.js:79`).
- Locators, reindexing, and chain events.
- Views.CoinView.GetNameState: name states are kept by value in the map of the
  view, so sharing of one state object between views is not modelled.
- Views.CoinView.SpendInputs: coins are keyed by outpoint instead of by
  transaction and index, and the up to four concurrent reads of a batch are one
  step.
- ChainDB.ChainDB.DisconnectNames: name deltas and name states are kept as values
  in the database; that those of every chain read back from their bytes is
  `StoredNames.DeltasReadBack`, `StoredNames.NamesReadBack` and `Codecs.ReadUndo`.
  The coins of the coin set are values too, with `CoinCodec.TripCoin` beside them.
- Fee totals of descendants (`descFee`, `descSize`) and the order in which
  eviction and assembly take candidates of a heap: any order is allowed here,
  so the results hold for every one.
- Mempool.Pool.AddEntry: policy checks, the address and coin indexes, contract
  reference counts and the maps of opens, bids and reveals, and orphan
  transactions are not modelled.
- Miner.Template.Assemble: claims and airdrops arrive in the order their heap
  gives; weights, sigops, rates and finality are attributes of an entry.
- CompactBlocks.CompactBlock.FillMempool: with three or more colliding transactions
  the program counts too few (`lib/net/bip152.js:236-241`), so that a full block
  may be answered with false. Transactions are not serialised here.
- FileStore.FileBlockStore.Allocate: a failed allocation leaves the flag that
  blocks further writes of its type set, as in the program; rebuilding the index
  from files and batches of writes are not modelled.
- BrontideStream.EncryptedStream.Write: queued buffers are copied, so writing one
  buffer object twice before the handshake ends, which the program would encrypt
  twice in place, is not modelled; socket back-pressure is not either.
- BrontideStream.EncryptedStream.Start: a failure destroys the stream at once
  instead of on the next turn of the event loop.
- BrontideRuns.Delivery: runs in which every message is within the limit a
  receiver accepts; a longer one destroys the receiving stream
  (`BrontideRuns.FlowHeader`).
- Mnemonic.FromPhrase: phrases are lists of words of one known language; splitting
  at white space, the length limit of the string and language detection are not
  modelled.
- Nsec.MinimalCover: one label of a top-level name, without escaped octets in the
  input.
- Packets.Parser.Feed: decoding a payload is a parameter that gives a packet or
  fails.
- JSON conversions, fee estimation, key derivation, DNS and HTTP servers, the
  wallet, and the command line.
