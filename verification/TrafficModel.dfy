/** Vocabulary of the accounting pipeline: traffic is counted per (config revision, rule) in two directions. */
module TrafficModel {

  /** Revision 0 is the generation used before a versioned Panel snapshot is active. */
  datatype Key = Key(revision: nat, rule: int)

  datatype Channel = Upload | Download

  datatype Amount = Amount(up: nat, down: nat) {
    function At(channel: Channel): nat {
      if channel.Upload? then up else down
    }

    predicate IsZero() {
      up == 0 && down == 0
    }
  }

  /** A per-key, per-direction running total. */
  type Ledger = (Key, Channel) -> int

  function EmptyLedger(): Ledger {
    (k, c) => 0
  }
}
