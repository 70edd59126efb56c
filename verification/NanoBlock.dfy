/** Nano state blocks (swap-core/nano-ceremony/src/block.rs), with 32-byte values as free terms. */
module NanoBlock {
  /** A 32-byte value: raw bytes, the signable hash of a channel state, or a block's hash.
      The subtype is a wire hint and not part of the block hash. */
  datatype Bytes32 =
    | Raw(n: nat)
    | StateHash(channel: nat, capacity: nat, takerAmount: nat, index: nat)
    | BlockHash(account: Bytes32, previous: Bytes32, representative: Bytes32, balance: nat, link: Bytes32)

  const ZERO := Raw(0)

  datatype Subtype = Open | Receive | Send | Change

  datatype StateBlock = StateBlock(
    account: Bytes32, previous: Bytes32, representative: Bytes32, balance: nat, link: Bytes32, subtype: Subtype)
  {
    function Hash(): Bytes32 {
      BlockHash(account, previous, representative, balance, link)
    }
  }

  /** A change block: it moves the frontier and no value. */
  function ChangeBlock(account: Bytes32, previous: Bytes32, representative: Bytes32, balance: nat): StateBlock {
    StateBlock(account, previous, representative, balance, ZERO, Change)
  }

  /** How many blocks deep the chain under a hash is. */
  function Height(h: Bytes32): nat {
    if h.BlockHash? then 1 + Height(h.previous) else 0
  }
}
