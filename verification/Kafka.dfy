/** What the consumers and producers of this pipeline observe of Kafka. */
module Kafka {
  /** A send either is acknowledged, or fails with the record written or not. */
  datatype SendOutcome = Acked | Unacked(written: bool)

  /** The offsets of a partition below `n`. */
  function UpTo(n: nat): (offsets: set<nat>)
    ensures forall o: nat :: o in offsets <==> o < n
  {
    if n == 0 then {} else UpTo(n - 1) + {n - 1}
  }
}
