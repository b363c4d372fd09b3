// Points in time after which something has expired.
module Expirations {

  /** The block a message runs in. */
  datatype Block = Block(height: nat, time: nat) {
    predicate NotBefore(other: Block) {
      height >= other.height && time >= other.time
    }
  }

  datatype Expiration = AtHeight(height: nat) | AtTime(time: nat) | Never {
    predicate IsExpired(block: Block) {
      match this
      case AtHeight(h) => block.height >= h
      case AtTime(t) => block.time >= t
      case Never => false
    }
  }

  /** Expired in exactly the blocks that are not before the stated height, or time, whatever
      the other of the two: in the stated block for the first time. */
  lemma ExpiresInItsBlock(block: Block, at: nat)
    ensures AtHeight(at).IsExpired(block) <==> block.NotBefore(Block(at, block.time))
    ensures AtTime(at).IsExpired(block) <==> block.NotBefore(Block(block.height, at))
    ensures !Never.IsExpired(block)
  {
  }

  /** What has expired stays expired. */
  lemma ExpiredForGood(e: Expiration, block: Block, later: Block)
    requires e.IsExpired(block) && later.NotBefore(block)
    ensures e.IsExpired(later)
  {
  }
}
