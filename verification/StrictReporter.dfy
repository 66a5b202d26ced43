/** One strict report: snapshot, seal into the spool, subtract, drain. The report gate is held throughout. */
module StrictReporter {
  import opened Wrappers
  import opened TrafficModel
  import opened SpoolSequence
  import opened SpoolNames
  import opened SortedByKey
  import opened TrafficCounters
  import opened Spool

  /** Bytes of one key still in the counters. */
  function Held(v: View, k: Key, c: Channel): nat {
    CountsAt(v, k).amount.At(c)
  }

  function SealedBytes(r: Option<Record>, k: Key, c: Channel): nat {
    if r.Some? && k in r.value.reports then r.value.reports[k].At(c) else 0
  }

  datatype SealEnv = SealEnv(id: nat, save: SaveEnv, install: InstallEnv)

  /** The bytes before are the bytes that are left and the bytes of the batch that was sealed. */
  ghost predicate Balanced(before: View, after: View, sealed: Option<Record>) {
    forall k, c :: Held(before, k, c) == Held(after, k, c) + SealedBytes(sealed, k, c)
  }

  lemma NothingIsBalanced(v: View)
    ensures Balanced(v, v, None)
  {
  }

  lemma RetainedIsBalanced(v: View)
    ensures Balanced(v, Retained(v, None), None)
  {
  }

  lemma CommittedIsBalanced(v: View, taken: map<Key, Amount>, r: Record)
    requires Covers(v, taken) && r.reports == taken
    ensures Balanced(v, Committed(v, taken), Some(r))
  {
    forall k, c ensures Held(v, k, c) == Held(Committed(v, taken), k, c) + SealedBytes(Some(r), k, c) {
      CommitSubtractsExactly(v, taken, k, c);
    }
  }

  lemma BalancedTrans(a: View, b: View, c: View, r: Option<Record>)
    requires Balanced(a, b, None) && Balanced(b, c, r)
    ensures Balanced(a, c, r)
  {
    forall k, d ensures Held(a, k, d) == Held(c, k, d) + SealedBytes(r, k, d) {
      assert Held(a, k, d) == Held(b, k, d) + SealedBytes(None, k, d);
    }
  }

  function AmountsCaptured(captured: map<Key, CapturedState>): map<Key, Amount> {
    map k | k in captured :: captured[k].amount
  }

  function WithSealed(entries: map<string, Content>, sealed: Option<Record>): map<string, Content> {
    if sealed.Some? then entries[Filename(sealed.value.sequence) := Batch(sealed.value)] else entries
  }

  ghost predicate HasBytes(v: View) {
    exists k :: k in v && !v[k].amount.IsZero()
  }

  /** A number is left and reserved; what happens then is up to the install. */
  ghost predicate Reserves(entries: map<string, Content>, next: Option<nat>, env: SealEnv) {
    NumberLeft(Sequences(entries), next) && env.save.Saved?
  }

  /** A sealed batch is one more file under a new name. */
  ghost predicate Sealing(before: map<string, Content>, after: map<string, Content>, sealed: Option<Record>) {
    sealed.Some? ==>
      && Filename(sealed.value.sequence) !in before
      && after == WithSealed(before, sealed)
  }

  /** The answers to the turns of one drain: one for each batch and one to spare for the legacy batch. */
  function Turns(queue: seq<Record>, batches: nat -> BatchEnv): (env: seq<BatchEnv>)
    ensures |env| == |queue| + 1 && forall i | 0 <= i < |env| :: env[i] == batches(i)
  {
    seq(|queue| + 1, i requires 0 <= i => batches(i))
  }

  /** Every batch can be sent, is acknowledged and durably removed, within the time budget. */
  ghost predicate AllSucceed(whole: seq<Record>, batches: nat -> BatchEnv) {
    forall i | 0 <= i < |whole| :: Succeeds(whole[i], batches(i)) && !batches(i).budgetSpent
  }

  /** A drain that is not disturbed and may work through the whole queue leaves nothing. */
  lemma UndisturbedDrainEmpties(queue: seq<Record>, before: map<string, Content>, after: map<string, Content>,
                                hadLegacy: Option<Record>, batches: nat -> BatchEnv, limit: nat, drained: DrainResult)
    requires AllListed(before, queue) && OnDisk(before, queue, 0) && WellNamed(before)
    requires drained == DrainFrom(Whole(hadLegacy, queue), Turns(queue, batches), limit, 0)
    requires Drained(after, before, queue, SpooledPart(hadLegacy, drained.removed))
    ensures AllSucceed(Whole(hadLegacy, queue), batches) && |Whole(hadLegacy, queue)| <= limit ==>
              drained.outcome.Current? && drained.removed == |Whole(hadLegacy, queue)| && after == map[]
  {
    var whole := Whole(hadLegacy, queue);
    if AllSucceed(whole, batches) && |whole| <= limit {
      UndisturbedDrainIsExact(whole, Turns(queue, batches), limit, 0);
      assert queue[..|queue|] == queue;
      forall name | name in before ensures name in Names(queue) {
        var r := before[name].record;
        FilenameInvertsParse(name);
        assert r in queue && Filename(r.sequence) == name;
      }
    }
  }

  /**
   How far a report gets. With bytes in the counters the oldest revision is sealed if a number is left and every step
   works, and the process is poisoned if the install stays in doubt; the drain runs after a seal or without any bytes.
   */
  ghost predicate SealsExactly(v: View, entries: map<string, Content>, next: Option<nat>, env: SealEnv,
                                      sealed: Option<Record>, poisoned: bool, drains: bool)
  {
    && (sealed.Some? <==> HasBytes(v) && Reserves(entries, next, env) && Installs(env.install))
    && (poisoned <==> HasBytes(v) && Reserves(entries, next, env) && InDoubt(env.install))
    && (drains <==> sealed.Some? || !HasBytes(v))
    && (sealed.Some? ==>
          && sealed.value.id == env.id && IsOldestWithBytes(v, Some(sealed.value.revision))
          && sealed.value.reports == AmountsOf(v, sealed.value.revision))
  }

  class Reporter {
    const counter: TrafficCounter
    const spool: SpoolDirectory
    var poisoned: bool

    ghost predicate Valid()
      reads this, counter, spool
    {
      counter.Valid() && spool.Valid()
    }

    constructor (counter: TrafficCounter, spool: SpoolDirectory)
      requires counter.Valid() && spool.Valid()
      ensures Valid() && this.counter == counter && this.spool == spool && !poisoned
    {
      this.counter, this.spool, poisoned := counter, spool, false;
    }

    /** Make a snapshot durable; an install in doubt poisons the process. The counters are not touched. */
    method Install(snap: TrafficSnapshot, env: SealEnv) returns (sealed: Option<Record>)
      requires spool.Valid() && !poisoned
      modifies this`poisoned, spool`entries, spool`nextSequence
      ensures spool.Valid()
      ensures sealed.Some? ==> sealed.value == Record(sealed.value.sequence, env.id, snap.revision, AmountsCaptured(snap.captured)) && !poisoned
      ensures Sealing(old(spool.entries), spool.entries, sealed)
      ensures sealed.Some? <==> Reserves(old(spool.entries), old(spool.nextSequence), env) && Installs(env.install)
      ensures poisoned <==> Reserves(old(spool.entries), old(spool.nextSequence), env) && InDoubt(env.install)
      ensures sealed.None? && !poisoned ==> spool.entries == old(spool.entries)
    {
      sealed := None;
      var outcome, record := spool.SealBatch(env.id, snap.revision, AmountsCaptured(snap.captured), env.save, env.install);
      if outcome.Installed? {
        sealed := Some(record);
      } else if outcome.RestartRequired? {
        poisoned := true;
      }
    }

    /** Seal a snapshot, and only then subtract it. Without a sealed batch no byte leaves the counters. */
    method SealSnapshot(ghost v: View, snap: TrafficSnapshot, env: SealEnv) returns (sealed: Option<Record>)
      requires Valid() && !poisoned && v == counter.Current() && IsSnapshot(v, snap) && snap.entries != []
      requires forall k | k in snap.captured :: k in counter.data && snap.captured[k].state == counter.data[k]
      modifies this`poisoned, counter`data, counter.data.Values, spool`entries, spool`nextSequence
      ensures Valid() && Balanced(v, counter.Current(), sealed)
      ensures sealed.Some? ==> sealed.value.id == env.id && sealed.value.revision == snap.revision && !poisoned
      ensures sealed.Some? ==> sealed.value.reports == AmountsCaptured(snap.captured)
      ensures Sealing(old(spool.entries), spool.entries, sealed)
      ensures sealed.Some? <==> Reserves(old(spool.entries), old(spool.nextSequence), env) && Installs(env.install)
      ensures poisoned <==> Reserves(old(spool.entries), old(spool.nextSequence), env) && InDoubt(env.install)
      ensures sealed.None? && !poisoned ==> spool.entries == old(spool.entries)
    {
      sealed := Install(snap, env);
      if sealed.Some? {
        SubtractCaptured(v, snap, sealed.value);
      }
    }

    /** Sweep and capture the oldest revision that has bytes, and seal it. */
    method SealNext(env: SealEnv) returns (empty: bool, sealed: Option<Record>)
      requires Valid() && !poisoned
      modifies this`poisoned, counter`data, counter.data.Values, spool`entries, spool`nextSequence
      ensures Valid() && Balanced(old(counter.Current()), counter.Current(), sealed)
      ensures empty <==> !HasBytes(old(counter.Current()))
      ensures sealed.Some? ==>
                && sealed.value.id == env.id && IsOldestWithBytes(old(counter.Current()), Some(sealed.value.revision))
                && sealed.value.reports == AmountsOf(old(counter.Current()), sealed.value.revision)
      ensures sealed.Some? <==> !empty && Reserves(old(spool.entries), old(spool.nextSequence), env) && Installs(env.install)
      ensures poisoned <==> !empty && Reserves(old(spool.entries), old(spool.nextSequence), env) && InDoubt(env.install)
      ensures Sealing(old(spool.entries), spool.entries, sealed)
      ensures sealed.None? && !poisoned ==> spool.entries == old(spool.entries)
    {
      ghost var start := counter.Current();
      var snap := counter.Snapshot();
      ghost var v := counter.Current();
      RetainedIsBalanced(start);
      RetainedHasSameBytes(start);
      empty, sealed := snap.entries == [], None;
      if !empty {
        OldestWasOldest(start, snap.revision);
        CapturedIsApplicable(v, snap);
        sealed := SealSnapshot(v, snap, env);
        BalancedTrans(start, v, counter.Current(), sealed);
      }
    }

    /** The captured amounts are still there, so exactly they are subtracted. */
    method SubtractCaptured(ghost v: View, snap: TrafficSnapshot, ghost record: Record)
      requires Valid() && v == counter.Current() && IsSnapshot(v, snap) && snap.entries != []
      requires forall k | k in snap.captured :: k in counter.data && snap.captured[k].state == counter.data[k]
      requires record.reports == AmountsCaptured(snap.captured)
      modifies counter`data, counter.data.Values
      ensures Valid() && Balanced(v, counter.Current(), Some(record))
    {
      CapturedIsApplicable(v, snap);
      assert counter.Applicable(snap.captured) == AmountsCaptured(snap.captured);
      counter.Commit(snap.captured);
      CommittedIsBalanced(v, AmountsCaptured(snap.captured), record);
    }

    /** The queue is all batches there were, in order, and exactly the removed prefix of it is gone. */
    ghost predicate DrainedAs(queue: seq<Record>, before: map<string, Content>, hadLegacy: Option<Record>,
                              batches: nat -> BatchEnv, limit: nat, drained: DrainResult)
      reads spool
    {
      && Ordered(queue) && AllListed(before, queue) && OnDisk(before, queue, 0)
      && drained == DrainFrom(Whole(hadLegacy, queue), Turns(queue, batches), limit, 0)
      && spool.Ended(queue, before, hadLegacy, drained.removed)
      && RemovesOnlyApplied(Turns(queue, batches), before, spool.entries, hadLegacy, spool.legacy)
      && (AllSucceed(Whole(hadLegacy, queue), batches) && |Whole(hadLegacy, queue)| <= limit ==>
            drained.outcome.Current? && spool.entries == map[] && spool.legacy.None?)
    }

    /** The part after sealing: load the queue and drain it. Without a new batch it is the queue the report began with. */
    method DrainSpool(batches: nat -> BatchEnv, limit: nat) returns (queue: seq<Record>, drained: DrainResult)
      requires spool.Valid()
      modifies spool`entries, spool`legacy
      ensures spool.Valid()
      ensures DrainedAs(queue, old(spool.entries), old(spool.legacy), batches, limit, drained)
    {
      var loaded := spool.LoadQueue();
      queue := loaded.value;
      ghost var before, hadLegacy := spool.entries, spool.legacy;
      drained := spool.Drain(queue, Turns(queue, batches), limit);
      UndisturbedDrainEmpties(queue, before, spool.entries, hadLegacy, batches, limit, drained);
    }

    /** Seal what there is; go on to the drain unless that failed. */
    method SealAndDrain(env: SealEnv, batches: nat -> BatchEnv, limit: nat)
      returns (sealed: Option<Record>, queue: seq<Record>, drained: Option<DrainResult>)
      requires Valid() && !poisoned
      modifies this`poisoned, counter`data, counter.data.Values, spool`entries, spool`nextSequence, spool`legacy
      ensures Valid() && Balanced(old(counter.Current()), counter.Current(), sealed)
      ensures SealsExactly(old(counter.Current()), old(spool.entries), old(spool.nextSequence), env, sealed, poisoned, drained.Some?)
      ensures drained.None? ==> spool.legacy == old(spool.legacy)
      ensures drained.None? && !poisoned ==> spool.entries == old(spool.entries)
      ensures drained.Some? ==>
                DrainedAs(queue, WithSealed(old(spool.entries), sealed), old(spool.legacy), batches, limit, drained.value)
    {
      var empty;
      empty, sealed := SealNext(env);
      queue, drained := [], None;
      if sealed.Some? || empty {
        var d;
        queue, d := DrainSpool(batches, limit);
        drained := Some(d);
      }
    }

    /**
     One strict report. A poisoned process does nothing. Otherwise bytes only move: from the counters into the sealed
     batch, and off the disk only for the acknowledged prefix of the queue, which holds every batch of the spool.
     */
    method Report(env: SealEnv, batches: nat -> BatchEnv, limit: nat)
      returns (outcome: Outcome, sealed: Option<Record>, queue: seq<Record>, drained: Option<DrainResult>)
      requires Valid()
      modifies this`poisoned, counter`data, counter.data.Values, spool`entries, spool`nextSequence, spool`legacy
      ensures Valid() && Balanced(old(counter.Current()), counter.Current(), sealed)
      ensures old(poisoned) ==> poisoned && sealed.None? && drained.None? && counter.Current() == old(counter.Current())
      ensures !old(poisoned) ==>
                SealsExactly(old(counter.Current()), old(spool.entries), old(spool.nextSequence), env, sealed, poisoned, drained.Some?)
      ensures drained.None? ==> outcome.Stopped? && spool.legacy == old(spool.legacy)
      ensures drained.None? && poisoned == old(poisoned) ==> spool.entries == old(spool.entries)
      ensures drained.Some? ==>
                && outcome == drained.value.outcome
                && DrainedAs(queue, WithSealed(old(spool.entries), sealed), old(spool.legacy), batches, limit, drained.value)
    {
      outcome, sealed, queue, drained := Stopped, None, [], None;
      NothingIsBalanced(counter.Current());
      if !poisoned {
        sealed, queue, drained := SealAndDrain(env, batches, limit);
        outcome := if drained.Some? then drained.value.outcome else Stopped;
      }
    }
  }

  lemma CapturedIsApplicable(v: View, snap: TrafficSnapshot)
    requires IsSnapshot(v, snap) && snap.entries != []
    ensures AmountsCaptured(snap.captured) == AmountsOf(v, snap.revision) && Covers(v, AmountsCaptured(snap.captured))
  {
  }

  lemma RetainedHasSameBytes(v: View)
    ensures HasBytes(Retained(v, None)) <==> HasBytes(v)
    ensures !HasBytes(v) <==> IsOldestWithBytes(Retained(v, None), None)
    ensures forall revision :: AmountsOf(Retained(v, None), revision) == AmountsOf(v, revision)
  {
    var w := Retained(v, None);
    assert forall k | k in w :: k in v && w[k] == v[k];
    assert forall k | k in v && !v[k].amount.IsZero() :: k in w;
  }

  /** Dropping finished entries changes no bytes, so the oldest revision with bytes is the same before and after. */
  lemma OldestWasOldest(v: View, revision: nat)
    requires IsOldestWithBytes(Retained(v, None), Some(revision))
    ensures IsOldestWithBytes(v, Some(revision))
  {
    var w := Retained(v, None);
    var k :| k in w && k.revision == revision && !w[k].amount.IsZero();
    assert k in v;
    forall q | q in v && !v[q].amount.IsZero() ensures revision <= q.revision {
      assert q in w;
    }
  }
}
