/** Spool records and the reservation of their sequence numbers. */
module SpoolSequence {
  import opened Wrappers
  import opened TrafficModel

  const U64_MAX: nat := 0xFFFF_FFFF_FFFF_FFFF

  /** One immutable batch of one config revision. */
  datatype Record = Record(sequence: nat, id: nat, revision: nat, reports: map<Key, Amount>)

  /** The next number after the highest committed file and the persisted reservation, if it still fits in 64 bits. */
  ghost function ReserveSequence(committed: set<nat>, persistedNext: Option<nat>): (r: Result<nat>)
    ensures r.Ok? ==> r.value >= 1 && r.value < U64_MAX && r.value >= persistedNext.GetOr(1)
    ensures r.Ok? ==> forall n | n in committed :: n < r.value
  {
    var sequence := Max(persistedNext.GetOr(1), Highest(committed) + 1);
    if sequence >= U64_MAX then Err("sequence overflow") else Ok(sequence)
  }

  /** Is there a 64-bit number left, with its successor, above all committed and reserved ones? */
  predicate NumberLeft(committed: set<nat>, persistedNext: Option<nat>) {
    persistedNext.GetOr(1) < U64_MAX && forall n | n in committed :: n < U64_MAX - 1
  }

  /** A number above all committed ones that no earlier reservation has handed out. */
  predicate NeverUsed(committed: set<nat>, persistedNext: Option<nat>, n: nat) {
    n >= 1 && n >= persistedNext.GetOr(1) && forall m | m in committed :: m < n
  }

  /** A reservation succeeds exactly if a number is left, and takes the least one that was never used. */
  lemma ReservesTheLeast(committed: set<nat>, persistedNext: Option<nat>)
    ensures var r := ReserveSequence(committed, persistedNext);
            && (r.Ok? <==> NumberLeft(committed, persistedNext))
            && (r.Ok? ==> NeverUsed(committed, persistedNext, r.value) && forall n | NeverUsed(committed, persistedNext, n) :: r.value <= n)
  {
    var h := Highest(committed);
    assert h in committed || h == 0;
  }

  function Max(a: nat, b: nat): nat {
    if a < b then b else a
  }

  /** The largest member of a set, 0 if it has none. */
  ghost function Highest(s: set<nat>): (h: nat)
    ensures forall n | n in s :: n <= h
    ensures h == 0 || h in s
  {
    if s == {} then 0
    else
      var n :| n in s;
      var rest := s - {n};
      assert forall m | m in s :: m == n || m in rest;
      Max(n, Highest(rest))
  }
}
