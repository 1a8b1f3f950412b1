/**
 The values every other module speaks about: hashes, outpoints, covenants,
 outputs, coins, transactions and blocks.

 A hash is 32 bytes.  Nothing is assumed about how it was computed; where the
 program relies on distinct objects having distinct hashes, the property that
 needs it says so.
 */
module Primitives {

  datatype Option<+T> = None | Some(value: T)

  /** How a consensus routine ends: it accepts with a value, rejects with the
      reason of a VerifyError, throws some other error, or trips an `assert`. */
  datatype Outcome<+T> =
    | Accept(value: T)
    | Reject(reason: string)
    | Throw(message: string)
    | AssertFail
  {
    predicate IsFailure() {
      !Accept?
    }

    function PropagateFailure<U>(): Outcome<U>
      requires IsFailure()
    {
      match this
      case Reject(reason) => Reject(reason)
      case Throw(message) => Throw(message)
      case AssertFail => AssertFail
    }

    function Extract(): T
      requires Accept?
    {
      value
    }
  }

  type Byte = x: int | 0 <= x < 256
  type Bytes = seq<Byte>

  type Hash = s: seq<Byte> | |s| == 32 witness seq(32, _ => 0)

  const ZERO_HASH: Hash := [0, 0, 0, 0, 0, 0, 0, 0, 0, 0, 0, 0, 0, 0, 0, 0,
                            0, 0, 0, 0, 0, 0, 0, 0, 0, 0, 0, 0, 0, 0, 0, 0]

  datatype Outpoint = Outpoint(hash: Hash, index: nat) {
    predicate IsNull() {
      index == 0xffff_ffff && hash == ZERO_HASH
    }
  }

  const NULL_OUTPOINT := Outpoint(ZERO_HASH, 0xffff_ffff)

  const NULLDATA_VERSION := 31

  const WORD := 0x1_0000_0000
  const MAX_MONEY := 2_040_000_000_000_000
  const MAX_COVENANT_SIZE := 585

  datatype Address = Address(version: nat, hash: Bytes) {
    predicate IsUnspendable() {
      version == NULLDATA_VERSION
    }

    predicate Fits() {
      version <= 31 && 2 <= |hash| <= 40
    }
  }

  /** Covenants with their items already decoded by position. */
  datatype Covenant =
    | NoCovenant
    | Claim(nameHash: Hash, height: nat, name: Bytes, flags: Byte, commitHash: Hash, commitHeight: nat)
    | Open(nameHash: Hash, name: Bytes)
    | Bid(nameHash: Hash, height: nat, name: Bytes, blind: Hash)
    | Reveal(nameHash: Hash, height: nat, nonce: Hash)
    | Redeem(nameHash: Hash, height: nat)
    | Register(nameHash: Hash, height: nat, data: Bytes, renewalBlock: Hash)
    | Update(nameHash: Hash, height: nat, data: Bytes)
    | Renew(nameHash: Hash, height: nat, renewalBlock: Hash)
    | Transfer(nameHash: Hash, height: nat, version: nat, addressHash: Bytes)
    | Finalize(nameHash: Hash, height: nat, name: Bytes, flags: Byte,
               claimed: nat, renewals: nat, renewalBlock: Hash)
    | Revoke(nameHash: Hash, height: nat)
    | UnknownCovenant(kind: nat, items: seq<Bytes>)
  {
    predicate IsName() {
      !NoCovenant? && !UnknownCovenant?
    }

    /** REVEAL and later: the output must sit at the index of an input. */
    predicate IsLinked() {
      IsName() && !Claim? && !Open? && !Bid?
    }

    /** REGISTER up to REVOKE: value locked in a name, outside the supply. */
    predicate IsLocked() {
      Register? || Update? || Renew? || Transfer? || Finalize? || Revoke?
    }

    /** The lowest bit of the flags of a CLAIM or FINALIZE. */
    predicate IsWeak()
      requires Claim? || Finalize?
    {
      flags % 2 == 1
    }

    /** The widths of the items, as decoding and `hasSaneCovenants` leave them. */
    predicate Fits() {
      match this
      case NoCovenant => true
      case Claim(_, height, name, _, _, commitHeight) => height < WORD && |name| <= 63 && commitHeight < WORD
      case Open(_, name) => |name| <= 63
      case Bid(_, height, name, _) => height < WORD && |name| <= 63
      case Reveal(_, height, _) => height < WORD
      case Redeem(_, height) => height < WORD
      case Register(_, height, data, _) => height < WORD && |data| <= 512
      case Update(_, height, data) => height < WORD && |data| <= 512
      case Renew(_, height, _) => height < WORD
      case Transfer(_, height, version, addressHash) =>
        height < WORD && version <= 31 && 2 <= |addressHash| <= 40
      case Finalize(_, height, name, _, claimed, renewals, _) =>
        height < WORD && |name| <= 63 && claimed < WORD && renewals < WORD
      case Revoke(_, height) => height < WORD
      case UnknownCovenant(kind, items) =>
        12 <= kind < 256 && |items| <= 1000 && forall item :: item in items ==> |item| <= MAX_COVENANT_SIZE
    }

    /** The covenants an owner holds while the name is registered. */
    predicate IsOwnership() {
      IsLocked() && !Revoke?
    }
  }

  datatype Output = Output(value: nat, address: Address, covenant: Covenant) {
    predicate IsUnspendable() {
      address.IsUnspendable() || covenant.Revoke?
    }

    /** What `checkSanity` and `hasSaneCovenants` bound. */
    predicate Fits() {
      value <= MAX_MONEY && address.Fits() && covenant.Fits()
    }
  }

  datatype CoinEntry = CoinEntry(version: nat, height: int, coinbase: bool, output: Output)

  /** `proof` is the bitfield position of the airdrop proof in the witness of
      a coinbase input; other inputs do not use it. */
  datatype Input = Input(prevout: Outpoint, proof: nat)

  datatype TX = TX(hash: Hash, version: nat, inputs: seq<Input>, outputs: seq<Output>) {
    predicate IsCoinbase() {
      |inputs| > 0 && inputs[0].prevout.IsNull()
    }

    function OutpointAt(i: nat): Outpoint {
      Outpoint(hash, i)
    }
  }
}
