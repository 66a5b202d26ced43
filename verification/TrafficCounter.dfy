/**
 The counter map as its methods change it, each running alone under the map's write lock. CounterRace shows what
 stays true when lock-free handle operations slip in between their steps.
 */
module TrafficCounters {
  import opened Wrappers
  import opened TrafficModel
  import opened SortedByKey

  /** Handles point at one of these; a pruned and re-created rule gets a new object. */
  class RuleCounterState {
    var upload: nat
    var download: nat
    var liveHandles: nat

    constructor ()
      ensures upload == 0 && download == 0 && liveHandles == 0
    {
      upload, download, liveHandles := 0, 0, 0;
    }
  }

  datatype Counts = Counts(amount: Amount, live: nat) {
    predicate Finished() {
      amount.IsZero() && live == 0
    }
  }

  type View = map<Key, Counts>

  function CountsAt(v: View, k: Key): Counts {
    if k in v then v[k] else Counts(Amount(0, 0), 0)
  }

  /** What `retain` leaves: an entry is dropped only if it has no bytes and no handle. */
  function Retained(v: View, rule: Option<int>): View {
    map k | k in v && ((rule.Some? && k.rule != rule.value) || !v[k].Finished()) :: v[k]
  }

  /** The amounts a snapshot of one revision captures. */
  function AmountsOf(v: View, revision: nat): map<Key, Amount> {
    map k | k in v && k.revision == revision && !v[k].amount.IsZero() :: v[k].amount
  }

  /** The oldest revision with any bytes, if there are bytes at all. */
  ghost predicate IsOldestWithBytes(v: View, r: Option<nat>) {
    && (r.Some? ==> exists k :: k in v && k.revision == r.value && !v[k].amount.IsZero())
    && (forall k | k in v && !v[k].amount.IsZero() :: r.Some? && r.value <= k.revision)
  }

  function Minus(a: Amount, b: Amount): Amount
    requires b.up <= a.up && b.down <= a.down
  {
    Amount(a.up - b.up, a.down - b.down)
  }

  ghost predicate Covers(v: View, taken: map<Key, Amount>) {
    forall k | k in taken :: k in v && taken[k].up <= v[k].amount.up && taken[k].down <= v[k].amount.down
  }

  /** The view after subtracting what was captured and dropping entries that are finished by it. */
  function Committed(v: View, taken: map<Key, Amount>): View
    requires Covers(v, taken)
  {
    map k | k in v && !(k in taken && Counts(Minus(v[k].amount, taken[k]), v[k].live).Finished()) ::
      if k in taken then Counts(Minus(v[k].amount, taken[k]), v[k].live) else v[k]
  }

  /** Bytes that arrive between snapshot and commit are kept: commit subtracts, it does not clear. */
  lemma CommitSubtractsExactly(v: View, taken: map<Key, Amount>, k: Key, c: Channel)
    requires Covers(v, taken)
    ensures CountsAt(Committed(v, taken), k).amount.At(c) ==
            CountsAt(v, k).amount.At(c) - if k in taken then taken[k].At(c) else 0
    ensures k in v && k !in Committed(v, taken) ==> CountsAt(v, k).live == 0
  {
  }

  /** Once every generation of the oldest revision is committed, the next snapshot moves on to a later one. */
  lemma NextSnapshotIsLater(v: View, revision: nat, next: Option<nat>)
    requires IsOldestWithBytes(v, Some(revision))
    requires IsOldestWithBytes(Committed(v, AmountsOf(v, revision)), next)
    ensures next.Some? ==> next.value > revision
  {
    var w := Committed(v, AmountsOf(v, revision));
    if next.Some? {
      var k :| k in w && k.revision == next.value && !w[k].amount.IsZero();
      assert k in v && !v[k].amount.IsZero();
    }
  }

  datatype CapturedState = CapturedState(state: RuleCounterState, amount: Amount)

  datatype TrafficSnapshot = TrafficSnapshot(revision: nat, entries: seq<Keyed<Amount>>, captured: map<Key, CapturedState>) {
    /** Revision 0 is the generation without a versioned config, reported as none. */
    function ConfigRevision(): Option<nat> {
      if revision == 0 then None else Some(revision)
    }
  }

  class TrafficCounter {
    var data: map<Key, RuleCounterState>

    /** Two keys never share a counter pair. */
    ghost predicate Valid()
      reads this
    {
      forall k, q | k in data && q in data && k != q :: data[k] != data[q]
    }

    function Read(k: Key): Counts
      requires k in data
      reads this, data.Values
    {
      Counts(Amount(data[k].upload, data[k].download), data[k].liveHandles)
    }

    ghost function Current(): (v: View)
      reads this, data.Values
    {
      map k | k in data :: Read(k)
    }

    constructor ()
      ensures Valid() && data == map[]
    {
      data := map[];
    }

    method EnsureEntry(key: Key) returns (state: RuleCounterState)
      requires Valid()
      modifies this`data
      ensures Valid() && key in data && data[key] == state
      ensures Current() == old(Current())[key := CountsAt(old(Current()), key)]
      ensures if key in old(data) then data == old(data) else fresh(state) && data == old(data)[key := state]
    {
      if key in data {
        state := data[key];
      } else {
        state := new RuleCounterState();
        data := data[key := state];
      }
    }

    /** A handle keeps its counter pair registered; creation and registration are one critical section. */
    method HandleAt(key: Key) returns (state: RuleCounterState)
      requires Valid()
      modifies this`data, data.Values
      ensures Valid() && key in data && data[key] == state
      ensures var c := CountsAt(old(Current()), key); Current() == old(Current())[key := c.(live := c.live + 1)]
    {
      state := EnsureEntry(key);
      state.liveHandles := state.liveHandles + 1;
    }

    method AddAt(key: Key, upload: nat, download: nat)
      requires Valid()
      modifies this`data, data.Values
      ensures Valid()
      ensures var c := CountsAt(old(Current()), key);
              Current() == old(Current())[key := Counts(Amount(c.amount.up + upload, c.amount.down + download), c.live)]
    {
      var state := EnsureEntry(key);
      state.upload := state.upload + upload;
      state.download := state.download + download;
    }

    /** Drop the entries of one rule (or of all rules) that are provably finished. */
    method Retain(rule: Option<int>)
      requires Valid()
      modifies this`data
      ensures Valid() && forall k | k in data :: k in old(data) && data[k] == old(data)[k]
      ensures Current() == Retained(old(Current()), rule)
    {
      var kept := data;
      var todo := data.Keys;
      while todo != {}
        invariant todo <= data.Keys
        invariant forall k :: k in kept <==>
                    k in data && (k in todo || (rule.Some? && k.rule != rule.value) || !Read(k).Finished())
        invariant forall k | k in kept :: kept[k] == data[k]
        decreases |todo|
      {
        var k :| k in todo;
        if !(rule.Some? && k.rule != rule.value) && data[k].liveHandles == 0 && data[k].upload == 0 && data[k].download == 0 {
          kept := kept - {k};
        }
        todo := todo - {k};
      }
      data := kept;
    }

    method OldestRevision() returns (oldest: Option<nat>)
      ensures IsOldestWithBytes(Current(), oldest)
    {
      oldest := None;
      var todo := data.Keys;
      while todo != {}
        invariant todo <= data.Keys
        invariant oldest.Some? ==> exists k :: k in data && k.revision == oldest.value && !Read(k).amount.IsZero()
        invariant forall k | k in data && k !in todo && !Read(k).amount.IsZero() :: oldest.Some? && oldest.value <= k.revision
        decreases |todo|
      {
        var k :| k in todo;
        if !Read(k).amount.IsZero() && (oldest.None? || k.revision < oldest.value) {
          oldest := Some(k.revision);
        }
        todo := todo - {k};
      }
    }

    /** Capture the nonzero counters of one revision; the entries come out in rule order. */
    method Capture(revision: nat) returns (entries: seq<Keyed<Amount>>, captured: map<Key, CapturedState>)
      ensures IsCapture(AmountsOf(Current(), revision), entries, captured)
      ensures forall k | k in captured :: k in data && captured[k].state == data[k]
    {
      entries, captured := [], map[];
      ghost var v := Current();
      var todo := data.Keys;
      assert v - todo == map[];
      while todo != {}
        invariant todo <= data.Keys
        invariant IsCapture(AmountsOf(v - todo, revision), entries, captured)
        invariant forall k | k in captured :: k in data && captured[k].state == data[k]
        decreases |todo|
      {
        var k :| k in todo;
        var amount := Read(k).amount;
        assert v[k].amount == amount;
        AmountsStep(v, todo, k, revision);
        if k.revision == revision && !amount.IsZero() {
          CaptureStep(AmountsOf(v - todo, revision), entries, captured, revision, k, CapturedState(data[k], amount));
          entries := Insert(entries, Keyed(k.rule, amount));
          captured := captured[k := CapturedState(data[k], amount)];
        }
        todo := todo - {k};
      }
      assert v - {} == v;
    }

    /** Sweep, choose the oldest revision that has bytes, capture it. */
    method Snapshot() returns (s: TrafficSnapshot)
      requires Valid()
      modifies this`data
      ensures Valid() && Current() == Retained(old(Current()), None)
      ensures forall k | k in data :: k in old(data) && data[k] == old(data)[k]
      ensures IsSnapshot(Current(), s)
      ensures forall k | k in s.captured :: k in data && s.captured[k].state == data[k]
    {
      Retain(None);
      var oldest := OldestRevision();
      if oldest.None? {
        return TrafficSnapshot(0, [], map[]);
      }
      var entries, captured := Capture(oldest.value);
      OldestIsNotEmpty(Current(), oldest.value, entries, captured);
      return TrafficSnapshot(oldest.value, entries, captured);
    }

    /** The captured amounts that still belong to the generation they were read from. */
    ghost function Applicable(captured: map<Key, CapturedState>): map<Key, Amount>
      reads this
    {
      map k | k in captured && k in data && data[k] == captured[k].state :: captured[k].amount
    }

    /** Subtract one captured amount and drop the entry if that finishes it. */
    method Settle(k: Key, amount: Amount)
      requires Valid() && k in data && amount.up <= data[k].upload && amount.down <= data[k].download
      modifies this`data, data[k]
      ensures Valid() && (forall q | q in data :: q in old(data) && data[q] == old(data)[q])
      ensures forall q | q in old(data) && q != k :: q in data
      ensures Current() == AfterSettle(old(Current()), k, amount)
    {
      var state := data[k];
      state.upload := state.upload - amount.up;
      state.download := state.download - amount.down;
      if state.liveHandles == 0 && state.upload == 0 && state.download == 0 {
        data := data - {k};
      }
    }

    /** An entry that was removed and re-created since the snapshot belongs to another generation and is left alone. */
    method SettleCaptured(k: Key, c: CapturedState)
      requires Valid() && (k in data && data[k] == c.state ==> c.amount.up <= data[k].upload && c.amount.down <= data[k].download)
      modifies this`data, data.Values
      ensures Valid() && (forall q | q in data :: q in old(data) && data[q] == old(data)[q])
      ensures forall q | q in old(data) && q != k :: q in data
      ensures Current() == if k in old(data) && old(data)[k] == c.state then AfterSettle(old(Current()), k, c.amount) else old(Current())
    {
      if k in data && data[k] == c.state {
        Settle(k, c.amount);
      }
    }

    /** One iteration of the commit loop: the part of the snapshot outside `todo` has been subtracted before it. */
    method CommitEntry(captured: map<Key, CapturedState>, k: Key, ghost v: View, ghost taken: map<Key, Amount>,
                       ghost todo: set<Key>)
      requires Valid() && k in todo && k in captured && Covers(v, taken)
      requires Covers(v, taken - todo) && Current() == Committed(v, taken - todo)
      requires k in taken <==> k in data && data[k] == captured[k].state
      requires k in taken ==> taken[k] == captured[k].amount && k in v
      modifies this`data, data.Values
      ensures Valid() && (forall q | q in data :: q in old(data) && data[q] == old(data)[q])
      ensures forall q | q in old(data) && q != k :: q in data
      ensures Covers(v, taken - (todo - {k})) && Current() == Committed(v, taken - (todo - {k}))
    {
      CommitStep(v, taken, todo, k);
      assert k in data ==> Current()[k] == Read(k);
      SettleCaptured(k, captured[k]);
    }

    /** Subtract everything that was captured. */
    method Commit(captured: map<Key, CapturedState>)
      requires Valid() && Covers(Current(), Applicable(captured))
      modifies this`data, data.Values
      ensures Valid() && Current() == Committed(old(Current()), old(Applicable(captured)))
    {
      ghost var v := Current();
      ghost var taken := Applicable(captured);
      var todo := captured.Keys;
      CommitStart(v, taken, todo);
      CommitEnd(taken);
      while todo != {}
        invariant todo <= captured.Keys
        invariant forall k | k in data :: k in old(data) && data[k] == old(data)[k]
        invariant forall k | k in todo && k in old(data) :: k in data
        invariant Valid() && Covers(v, taken - todo)
        invariant Current() == Committed(v, taken - todo)
        decreases |todo|
      {
        var k :| k in todo;
        CommitEntry(captured, k, v, taken, todo);
        todo := todo - {k};
      }
    }
  }

  /** One entry after subtracting an amount from it, gone if that finishes it. */
  function AfterSettle(v: View, k: Key, amount: Amount): View
    requires k in v && amount.up <= v[k].amount.up && amount.down <= v[k].amount.down
  {
    var c := Counts(Minus(v[k].amount, amount), v[k].live);
    if c.Finished() then v - {k} else v[k := c]
  }

  /** A capture is ordered, lists each amount once under its rule, and remembers where each was read. */
  ghost predicate IsCapture(amounts: map<Key, Amount>, entries: seq<Keyed<Amount>>, captured: map<Key, CapturedState>) {
    && Increasing(entries) && ListsExactly(entries, amounts)
    && captured.Keys == amounts.Keys && forall k | k in captured :: captured[k].amount == amounts[k]
  }

  /** A snapshot is empty exactly if there are no bytes; otherwise it is the capture of the oldest revision that has some. */
  ghost predicate IsSnapshot(v: View, s: TrafficSnapshot) {
    if s.entries == [] then s.captured == map[] && IsOldestWithBytes(v, None)
    else IsOldestWithBytes(v, Some(s.revision)) && IsCapture(AmountsOf(v, s.revision), s.entries, s.captured)
  }

  lemma OldestIsNotEmpty(v: View, revision: nat, entries: seq<Keyed<Amount>>, captured: map<Key, CapturedState>)
    requires IsOldestWithBytes(v, Some(revision)) && IsCapture(AmountsOf(v, revision), entries, captured)
    ensures entries != []
  {
    var k :| k in v && k.revision == revision && !v[k].amount.IsZero();
    assert k in AmountsOf(v, revision);
  }

  lemma AmountsStep(v: View, todo: set<Key>, k: Key, revision: nat)
    requires k in todo && k in v
    ensures var before := AmountsOf(v - todo, revision);
            && k !in before && (forall q | q in before :: q.revision == revision)
            && AmountsOf(v - (todo - {k}), revision) ==
               if k.revision == revision && !v[k].amount.IsZero() then before[k := v[k].amount] else before
  {
  }

  lemma CaptureStep(amounts: map<Key, Amount>, entries: seq<Keyed<Amount>>, captured: map<Key, CapturedState>,
                    revision: nat, k: Key,
                    c: CapturedState)
    requires IsCapture(amounts, entries, captured)
    requires k !in amounts && k.revision == revision && forall q | q in amounts :: q.revision == revision
    ensures IsCapture(amounts[k := c.amount], Insert(entries, Keyed(k.rule, c.amount)), captured[k := c])
  {
    InsertListed(entries, amounts, revision, k, c.amount);
  }

  lemma CommitStart(v: View, taken: map<Key, Amount>, todo: set<Key>)
    requires taken.Keys <= todo
    ensures taken - todo == map[] && Committed(v, map[]) == v
  {
  }

  lemma CommitEnd(taken: map<Key, Amount>)
    ensures taken - {} == taken
  {
  }

  /** Settling entries one by one adds up to committing them all. */
  lemma CommitStep(v: View, taken: map<Key, Amount>, todo: set<Key>, k: Key)
    requires k in todo && Covers(v, taken)
    ensures Covers(v, taken - todo) && Covers(v, taken - (todo - {k}))
    ensures k !in taken ==> taken - (todo - {k}) == taken - todo
    ensures k in v ==> k in Committed(v, taken - todo) && Committed(v, taken - todo)[k] == v[k]
    ensures k in taken ==> AfterSettle(Committed(v, taken - todo), k, taken[k]) == Committed(v, taken - (todo - {k}))
  {
  }

  /** The entries are the amounts, each once, under its rule. */
  ghost predicate ListsExactly(entries: seq<Keyed<Amount>>, amounts: map<Key, Amount>) {
    && (forall k | k in amounts :: Keyed(k.rule, amounts[k]) in entries)
    && (forall e | e in entries :: exists k :: k in amounts && k.rule == e.key && amounts[k] == e.item)
  }

  lemma InsertListed(entries: seq<Keyed<Amount>>, amounts: map<Key, Amount>, revision: nat, k: Key, amount: Amount)
    requires Increasing(entries) && ListsExactly(entries, amounts)
    requires k !in amounts && k.revision == revision && forall q | q in amounts :: q.revision == revision
    ensures var r := Insert(entries, Keyed(k.rule, amount)); Increasing(r) && ListsExactly(r, amounts[k := amount])
  {
    var x := Keyed(k.rule, amount);
    forall e | e in entries ensures e.key != k.rule {
      var q :| q in amounts && q.rule == e.key;
      assert q != k;
    }
    InsertIncreasing(entries, x);
    forall y ensures y in Insert(entries, x) <==> y in entries || y == x {
      InsertContents(entries, x, y);
    }
    var after := amounts[k := amount];
    forall e | e in Insert(entries, x) ensures exists q :: q in after && q.rule == e.key && after[q] == e.item {
      if e == x {
        assert k in after && after[k] == amount;
      } else {
        var q :| q in amounts && q.rule == e.key && amounts[q] == e.item;
        assert q in after && after[q] == amounts[q];
      }
    }
  }
}
