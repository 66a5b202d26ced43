/**
 The whole accounting pipeline as one step relation: counters, access log, report gate, spool directory, network,
 Panel, crash.

 The counters are the interleaving model of CounterRace. A crash loses memory and keeps committed files; a file
 whose directory entry was not synced yet may or may not survive it. The Panel applies a batch id at most once and
 acknowledges only what it has applied; requests may be delivered late, repeatedly or never.
 The legacy pending file is the record with sequence 0, so "legacy first" is the sequence order.
 Access-log batches share gate, sequence numbers and queue with the counters' batches but never pass through the
 counters: their bytes are counted when their batch becomes durable, and each waits, blocking everything newer, until
 the durable cursor of its log has moved over it. `LogAccounting` runs this pipeline together with the ingester.
 */
module TrafficPipeline {
  import opened Wrappers
  import opened TrafficModel
  import Race = CounterRace
  import opened SpoolSequence

  datatype Reporter =
    | Resting
    | Snapshotting
    | Reserved(sequence: nat)
    | Linked
    | Committing
    | Draining(queue: set<nat>)
    | Sent(queue: set<nat>, head: nat)
    | Acknowledged(queue: set<nat>, head: nat)

  datatype State = State(
    mem: Race.Counters,
    reporter: Reporter,
    poisoned: bool,
    files: map<nat, Record>,
    persistedNext: Option<nat>,
    uncertain: Option<Record>,   // installed under its name, durability not established
    unlinked: map<nat, Record>,  // removed after an ACK, directory not synced
    waiting: set<nat>,           // log batches that the durable cursor has not been moved over
    network: set<Record>,
    applied: set<nat>,           // batch ids the Panel has applied
    billed: Ledger,              // the Panel's totals
    sealed: seq<Record>,         // history: every record that ever became durable
    firstAcks: seq<nat>,         // history: sequences in the order of their first ACK
    added: Ledger,               // history: bytes handed to the counters or consumed from the access log
    lost: Ledger)                // history: bytes that were only in memory at a crash

  /** How far the seal of an access-log batch gets. An uncertain install and a failed cursor write poison the process. */
  datatype LogSeal =
    | NotInstalled(advanced: bool)
    | InDoubt
    | Installed(crossed: bool, failed: bool)

  datatype Event =
    | Memory(event: Race.Event)
    | BeginReport
    | NothingNew
    | Reserve
    | ReserveFailed(advanced: bool)
    | Link(id: nat)
    | LinkFailed
    | Verified
    | RolledBack
    | Poison
    | BeginCommit
    | CommitDone
    | Send(head: nat)
    | Deliver(record: Record)
    | Ack
    | Unlink(synced: bool)
    | Stop
    | SealLog(record: Record, outcome: LogSeal)
    | CrossCursor(sequence: nat, crossed: bool, failed: bool)
    | Crash(survives: bool, resurrected: set<nat>)

  function BytesOf(r: Record, k: Key, c: Channel): nat {
    if k in r.reports then r.reports[k].At(c) else 0
  }

  ghost function Initial(legacy: Option<Record>): State {
    State(Race.Fresh(), Resting, false,
          if legacy.Some? then map[0 := legacy.value] else map[], None, None, map[], {}, {}, {}, EmptyLedger(),
          if legacy.Some? then [legacy.value] else [], [],
          (k, c) => if legacy.Some? then BytesOf(legacy.value, k, c) else 0, EmptyLedger())
  }

  function ReportsOf(captured: map<Key, Race.Captured>): map<Key, Amount> {
    map k | k in captured :: captured[k].amount
  }

  function Ids(records: seq<Record>): set<nat> {
    set r | r in records :: r.id
  }

  predicate OutsideThreads(e: Race.Event) {
    !e.SnapshotBegin? && !e.DropSnapshot? && !e.Seal? && !e.CommitBegin?
  }

  /** Reporting up to the commit, the report gate being held from BeginReport on. */
  predicate GateEvent(e: Event) {
    e.BeginReport? || e.NothingNew? || e.Reserve? || e.ReserveFailed? || e.Link? || e.LinkFailed? || e.RolledBack? || e.Poison? ||
    e.BeginCommit? || e.CommitDone?
  }

  ghost predicate GateEnabled(s: State, e: Event)
    requires GateEvent(e)
  {
    match e
    case BeginReport => s.reporter.Resting? && !s.poisoned && Race.Enabled(s.mem, Race.SnapshotBegin)
    case NothingNew => s.reporter.Snapshotting? && s.mem.held.Some? && s.mem.held.value.captured == map[]
    case Reserve =>
      && s.reporter.Snapshotting? && s.mem.held.Some? && s.mem.held.value.captured != map[]
      && ReserveSequence(s.files.Keys, s.persistedNext).Ok?
    case ReserveFailed(_) => s.reporter.Snapshotting? && s.mem.held.Some?
    case Link(id) => s.reporter.Reserved? && s.mem.held.Some? && id !in Ids(s.sealed)
    case LinkFailed => s.reporter.Reserved? && s.mem.held.Some?
    case RolledBack => s.reporter.Linked? && s.mem.held.Some?
    case Poison => s.reporter.Linked?
    case BeginCommit => s.reporter.Committing? && Race.Enabled(s.mem, Race.CommitBegin)
    case CommitDone => s.reporter.Committing? && s.mem.held.None? && !s.mem.phase.Settling?
  }

  /** A log batch is sealed under the report gate, with a reserved number, a fresh id and one revision. */
  ghost predicate LogEnabled(s: State, r: Record) {
    && s.reporter.Resting? && !s.poisoned
    && ReserveSequence(s.files.Keys, s.persistedNext) == Ok(r.sequence)
    && r.id !in Ids(s.sealed) && forall k | k in r.reports :: k.revision == r.revision
  }

  ghost predicate Enabled(s: State, e: Event) {
    match e
    case Memory(m) => OutsideThreads(m) && Race.Enabled(s.mem, m)
    case Verified => s.reporter.Linked? && s.uncertain.Some? && s.mem.held.Some?
    case Send(h) =>
      && s.reporter.Draining? && h in s.reporter.queue && h in s.files && h !in s.waiting
      && forall n | n in s.reporter.queue :: h <= n
    case Deliver(r) => r in s.network
    case Ack => s.reporter.Sent? && s.reporter.head in s.files && s.files[s.reporter.head].id in s.applied
    case Unlink(_) => s.reporter.Acknowledged? && s.reporter.head in s.files
    case Stop => s.reporter.Draining? || s.reporter.Sent? || s.reporter.Acknowledged?
    case SealLog(r, outcome) => LogEnabled(s, r) && (outcome.Installed? && !outcome.crossed ==> outcome.failed)
    case CrossCursor(n, crossed, failed) => s.reporter.Resting? && !s.poisoned && n in s.waiting && (crossed || failed)
    case Crash(_, back) => back <= s.unlinked.Keys
    case _ => GateEnabled(s, e)
  }

  ghost function Step(s: State, e: Event): State
    requires Enabled(s, e)
  {
    match e
    case Memory(m) => AfterMemory(s, m)
    case Verified => AfterVerified(s)
    case Send(h) => s.(network := s.network + {s.files[h]}, reporter := Sent(s.reporter.queue, h))
    case Deliver(r) => AfterDeliver(s, r)
    case Ack => AfterAck(s)
    case Unlink(synced) => AfterUnlink(s, synced)
    case Stop => s.(reporter := Resting)
    case SealLog(r, outcome) => AfterSealLog(s, r, outcome)
    case CrossCursor(n, crossed, failed) => s.(waiting := if crossed then s.waiting - {n} else s.waiting, poisoned := failed)
    case Crash(survives, back) => AfterCrash(s, survives, back)
    case _ => AfterGate(s, e)
  }

  function AfterMemory(s: State, m: Race.Event): State {
    s.(mem := Race.Step(s.mem, m), added := (k, c) => s.added(k, c) + Race.Produced(s.mem, m, k, c))
  }

  ghost function AfterGate(s: State, e: Event): State
    requires GateEvent(e) && GateEnabled(s, e)
  {
    match e
    case BeginReport => s.(mem := Race.Step(s.mem, Race.SnapshotBegin), reporter := Snapshotting)
    case NothingNew => s.(mem := Dropped(s.mem), reporter := Draining(s.files.Keys))
    case Reserve =>
      var n := ReserveSequence(s.files.Keys, s.persistedNext).value;
      s.(persistedNext := Some(n + 1), reporter := Reserved(n))
    case ReserveFailed(advanced) =>
      var r := ReserveSequence(s.files.Keys, s.persistedNext);
      s.(mem := Dropped(s.mem), reporter := Resting,
         persistedNext := if advanced && r.Ok? then Some(r.value + 1) else s.persistedNext)
    case Link(id) =>
      var h := s.mem.held.value;
      s.(uncertain := Some(Record(s.reporter.sequence, id, h.revision, ReportsOf(h.captured))), reporter := Linked)
    case LinkFailed => s.(mem := Dropped(s.mem), reporter := Resting)
    case RolledBack => s.(uncertain := None, mem := Dropped(s.mem), reporter := Resting)
    case Poison => s.(poisoned := true, reporter := Resting)
    case BeginCommit => s.(mem := Race.Step(s.mem, Race.CommitBegin))
    case CommitDone => s.(reporter := Draining(s.files.Keys))
  }

  function Dropped(m: Race.Counters): Race.Counters {
    m.(held := None)
  }

  /** The installed record passed its directory sync and read-back: it is durable, and commit may start. */
  function AfterVerified(s: State): State
    requires s.uncertain.Some? && s.mem.held.Some?
  {
    var r := s.uncertain.value;
    s.(files := s.files[r.sequence := r], sealed := s.sealed + [r], uncertain := None,
       mem := Race.Step(s.mem, Race.Seal), reporter := Committing)
  }

  /** The Panel applies a batch id at most once. */
  function AfterDeliver(s: State, r: Record): State {
    if r.id in s.applied then s
    else s.(applied := s.applied + {r.id}, billed := (k, c) => s.billed(k, c) + BytesOf(r, k, c))
  }

  function AfterAck(s: State): State
    requires s.reporter.Sent?
  {
    var h := s.reporter.head;
    s.(firstAcks := if h in s.firstAcks then s.firstAcks else s.firstAcks + [h],
       reporter := Acknowledged(s.reporter.queue, h))
  }

  function AfterUnlink(s: State, synced: bool): State
    requires s.reporter.Acknowledged? && s.reporter.head in s.files
  {
    var h := s.reporter.head;
    if synced then s.(files := s.files - {h}, reporter := Draining(s.reporter.queue - {h}))
    else s.(files := s.files - {h}, unlinked := s.unlinked[h := s.files[h]], reporter := Resting)
  }

  /** The log's bytes count from the moment their batch is durable; until then they are still in the log. */
  function AfterSealLog(s: State, r: Record, outcome: LogSeal): State {
    var reserved := s.(persistedNext := Some(r.sequence + 1));
    match outcome
    case NotInstalled(advanced) => if advanced then reserved else s
    case InDoubt => reserved.(uncertain := Some(r), poisoned := true)
    case Installed(crossed, failed) =>
      reserved.(files := s.files[r.sequence := r], sealed := s.sealed + [r], poisoned := failed,
                waiting := if crossed then s.waiting else s.waiting + {r.sequence},
                added := (k, c) => s.added(k, c) + BytesOf(r, k, c))
  }

  function Surviving(s: State, survives: bool): seq<Record> {
    if survives && s.uncertain.Some? then [s.uncertain.value] else []
  }

  /** An uncertain log batch: no snapshot belongs to it. */
  predicate LogInDoubt(s: State) {
    s.uncertain.Some? && s.mem.held.None?
  }

  /** A surviving batch of the counters takes its bytes out of the loss; one of the log adds them, and waits for its cursor. */
  ghost function AfterCrash(s: State, survives: bool, back: set<nat>): State
    requires back <= s.unlinked.Keys
  {
    var kept := Surviving(s, survives);
    var files := Resurrected(s, back);
    var log := LogInDoubt(s);
    State(Race.Fresh(), Resting, false, if kept == [] then files else files[kept[0].sequence := kept[0]],
          s.persistedNext, None, map[], if kept == [] || !log then s.waiting else s.waiting + {kept[0].sequence},
          s.network, s.applied, s.billed, s.sealed + kept, s.firstAcks,
          (k, c) => s.added(k, c) + if log then SumBytes(kept, k, c) else 0,
          (k, c) => s.lost(k, c) + Race.Unsealed(s.mem, k, c) - if log then 0 else SumBytes(kept, k, c))
  }

  function SumBytes(records: seq<Record>, k: Key, c: Channel): nat {
    if records == [] then 0 else SumBytes(records[..|records| - 1], k, c) + BytesOf(records[|records| - 1], k, c)
  }

  /** Bytes of the records whose ids are in a set. */
  function SumWithin(records: seq<Record>, ids: set<nat>, k: Key, c: Channel): nat {
    if records == [] then 0
    else
      var last := records[|records| - 1];
      SumWithin(records[..|records| - 1], ids, k, c) + if last.id in ids then BytesOf(last, k, c) else 0
  }

  // ---------------------------------------------------------------------------------------------------------
  // The invariant.

  /** Which gate holder may be where: a sealed but unsubtracted overlap exists only in `Committing`. */
  predicate ModeOk(s: State) {
    && (Race.SnapshotPhase(s.mem.phase) ==> s.reporter.Snapshotting?)
    && (s.mem.phase.Settling? ==> s.reporter.Committing?)
    && (s.mem.held.Some? ==>
          if s.mem.held.value.sealed then s.reporter.Committing?
          else s.reporter.Snapshotting? || s.reporter.Reserved? || s.reporter.Linked? || s.poisoned)
    && (s.reporter.Reserved? || s.reporter.Linked? ==> s.mem.held.Some? && !s.mem.held.value.sealed)
    && (s.reporter.Linked? ==> s.uncertain.Some?) && (s.uncertain.Some? ==> s.reporter.Linked? || s.poisoned)
    && (s.poisoned ==> s.reporter.Resting?)
  }

  /** Every sequence number handed out so far is below this. */
  function Bound(persistedNext: Option<nat>): nat {
    if persistedNext.Some? then persistedNext.value else 1
  }

  /** The history is in strictly increasing sequence order, below the bound, with distinct batch ids. */
  ghost predicate HistoryOk(sealed: seq<Record>, bound: nat) {
    && (forall r | r in sealed :: r.sequence < bound && (forall k | k in r.reports :: k.revision == r.revision))
    && (forall i, j | 0 <= i < j < |sealed| :: sealed[i].sequence < sealed[j].sequence && sealed[i].id != sealed[j].id)
  }

  /** A reserved number is above everything ever sealed. */
  ghost predicate Unused(sealed: seq<Record>, bound: nat, n: nat) {
    1 <= n < bound && forall r | r in sealed :: r.sequence < n
  }

  ghost predicate ReservationOk(s: State) {
    && (s.reporter.Reserved? ==> Unused(s.sealed, Bound(s.persistedNext), s.reporter.sequence))
    && (s.uncertain.Some? ==>
          && Unused(s.sealed, Bound(s.persistedNext), s.uncertain.value.sequence) && s.uncertain.value.id !in Ids(s.sealed)
          && (forall k | k in s.uncertain.value.reports :: k.revision == s.uncertain.value.revision)
          && (s.mem.held.Some? ==>
                && s.uncertain.value.reports == ReportsOf(s.mem.held.value.captured)
                && s.uncertain.value.revision == s.mem.held.value.revision))
  }

  /** Files and messages are records of the history; a record whose file is gone was applied by the Panel. */
  ghost predicate FilesOk(files: map<nat, Record>, unlinked: map<nat, Record>, network: set<Record>, applied: set<nat>,
                          sealed: seq<Record>)
  {
    && (forall n | n in files :: files[n] in sealed && files[n].sequence == n)
    && (forall n | n in unlinked :: unlinked[n] in sealed && unlinked[n].sequence == n && unlinked[n].id in applied)
    && (forall r | r in network :: r in sealed)
    && applied <= Ids(sealed)
    && (forall r | r in sealed :: r.sequence in files || r.id in applied)
  }

  /** First ACKs come in strictly increasing sequence order, and every file not yet acknowledged is newer than all of them. */
  ghost predicate FifoOk(files: map<nat, Record>, unlinked: map<nat, Record>, firstAcks: seq<nat>, applied: set<nat>,
                         sealed: seq<Record>)
  {
    && (forall i, j | 0 <= i < j < |firstAcks| :: firstAcks[i] < firstAcks[j])
    && (forall n, m | n in files && n !in firstAcks && m in firstAcks :: m < n)
    && (forall n | n in firstAcks :: exists r :: r in sealed && r.sequence == n && r.id in applied)
    && (forall n | n in unlinked :: n in firstAcks)
  }

  /** A log batch that waits for its cursor is in the spool and was never sent, let alone applied or acknowledged. */
  ghost predicate WaitingOk(waiting: set<nat>, files: map<nat, Record>, network: set<Record>, firstAcks: seq<nat>,
                            applied: set<nat>)
  {
    forall n | n in waiting :: n in files && files[n] !in network && files[n].id !in applied && n !in firstAcks
  }

  ghost predicate QueueOk(r: Reporter, files: map<nat, Record>, firstAcks: seq<nat>, applied: set<nat>) {
    match r
    case Draining(q) => q == files.Keys
    case Sent(q, h) => q == files.Keys && h in files && forall n | n in files :: h <= n
    case Acknowledged(q, h) =>
      q == files.Keys && h in files && files[h].id in applied && h in firstAcks && forall n | n in files :: h <= n
    case _ => true
  }

  ghost predicate DiskOk(s: State) {
    && HistoryOk(s.sealed, Bound(s.persistedNext))
    && FilesOk(s.files, s.unlinked, s.network, s.applied, s.sealed)
    && FifoOk(s.files, s.unlinked, s.firstAcks, s.applied, s.sealed)
    && WaitingOk(s.waiting, s.files, s.network, s.firstAcks, s.applied)
  }

  ghost predicate Outer(s: State) {
    && ModeOk(s) && ReservationOk(s) && DiskOk(s)
    && QueueOk(s.reporter, s.files, s.firstAcks, s.applied)
  }

  /** Every byte handed to the counters is in memory only, in a sealed batch, or was in memory at a crash. */
  ghost predicate Conserved(s: State) {
    forall k, c :: s.added(k, c) == Race.Unsealed(s.mem, k, c) + SumBytes(s.sealed, k, c) + s.lost(k, c)
  }

  /** The Panel has billed exactly the sealed batches it has applied, each once. */
  ghost predicate BilledOnce(s: State) {
    forall k, c :: s.billed(k, c) == SumWithin(s.sealed, s.applied, k, c)
  }

  ghost predicate LossOk(s: State) {
    forall k, c :: s.lost(k, c) >= 0
  }

  ghost predicate Inv(s: State) {
    Race.Inv(s.mem) && Outer(s) && Conserved(s) && BilledOnce(s) && LossOk(s)
  }

  // ---------------------------------------------------------------------------------------------------------
  // Who may be where.

  lemma MemoryFrame(s: State, t: State)
    requires Outer(s) && Race.GuardFrame(s.mem, t.mem) && t == s.(mem := t.mem, added := t.added)
    ensures Outer(t)
  {
  }

  lemma MemoryKeepsOuter(s: State, m: Race.Event)
    requires Race.Inv(s.mem) && Outer(s) && OutsideThreads(m) && Race.Enabled(s.mem, m)
    ensures Outer(AfterMemory(s, m))
  {
    Race.StepGuardFrame(s.mem, m);
    MemoryFrame(s, AfterMemory(s, m));
  }

  lemma GateKeepsMode(s: State, e: Event)
    requires ModeOk(s) && Race.GateOk(s.mem) && GateEvent(e) && GateEnabled(s, e)
    ensures ModeOk(AfterGate(s, e)) && QueueOk(AfterGate(s, e).reporter, s.files, s.firstAcks, s.applied)
  {
  }

  lemma GateKeepsReservation(s: State, e: Event)
    requires ModeOk(s) && Race.GateOk(s.mem) && ReservationOk(s) && DiskOk(s) && GateEvent(e) && GateEnabled(s, e)
    ensures ReservationOk(AfterGate(s, e)) && DiskOk(AfterGate(s, e))
  {
    if e.Reserve? || e.ReserveFailed? {
      var r := ReserveSequence(s.files.Keys, s.persistedNext);
      if r.Ok? {
        assert r.value >= Bound(s.persistedNext);
      }
    }
  }

  lemma AppendKeepsHistory(sealed: seq<Record>, r: Record, bound: nat)
    requires HistoryOk(sealed, bound) && Unused(sealed, bound, r.sequence) && r.id !in Ids(sealed)
    requires forall k | k in r.reports :: k.revision == r.revision
    ensures HistoryOk(sealed + [r], bound)
  {
    assert forall i | 0 <= i < |sealed| :: sealed[i] in sealed && sealed[i].id in Ids(sealed);
  }

  lemma AppendKeepsFifo(files: map<nat, Record>, unlinked: map<nat, Record>, firstAcks: seq<nat>, applied: set<nat>,
                        sealed: seq<Record>, r: Record)
    requires FifoOk(files, unlinked, firstAcks, applied, sealed)
    requires forall q | q in sealed :: q.sequence < r.sequence
    ensures FifoOk(files[r.sequence := r], unlinked, firstAcks, applied, sealed + [r])
  {
    forall n | n in firstAcks ensures n < r.sequence && exists q :: q in sealed + [r] && q.sequence == n && q.id in applied {
      var q :| q in sealed && q.sequence == n && q.id in applied;
      assert q in sealed + [r];
    }
  }

  lemma SendKeepsQueue(s: State, e: Event)
    requires Outer(s) && Enabled(s, e) && (e.Send? || e.Stop?)
    ensures Outer(Step(s, e))
  {
  }

  /** Applying a batch that was sent concerns no batch that waits: batch ids are unique. */
  lemma DeliverKeepsWaiting(s: State, r: Record)
    requires DiskOk(s) && r in s.network
    ensures WaitingOk(s.waiting, s.files, s.network, s.firstAcks, s.applied + {r.id})
  {
    var i :| 0 <= i < |s.sealed| && s.sealed[i] == r;
    forall n | n in s.waiting ensures s.files[n].id != r.id {
      var j :| 0 <= j < |s.sealed| && s.sealed[j] == s.files[n];
      assert i != j;
    }
  }

  lemma DeliverKeepsDisk(s: State, r: Record)
    requires DiskOk(s) && r in s.network
    ensures FilesOk(s.files, s.unlinked, s.network, s.applied + {r.id}, s.sealed)
    ensures FifoOk(s.files, s.unlinked, s.firstAcks, s.applied + {r.id}, s.sealed)
  {
    forall n | n in s.firstAcks ensures exists q :: q in s.sealed && q.sequence == n && q.id in s.applied + {r.id} {
      var q :| q in s.sealed && q.sequence == n && q.id in s.applied;
    }
  }

  lemma DeliverKeepsOuter(s: State, r: Record)
    requires Outer(s) && r in s.network
    ensures Outer(AfterDeliver(s, r))
  {
    DeliverKeepsDisk(s, r);
    DeliverKeepsWaiting(s, r);
  }

  /** The acknowledged head is the oldest file, so a first ACK is newer than all earlier ones. */
  lemma AckKeepsFifo(files: map<nat, Record>, unlinked: map<nat, Record>, firstAcks: seq<nat>, applied: set<nat>,
                     sealed: seq<Record>, h: nat)
    requires FifoOk(files, unlinked, firstAcks, applied, sealed)
    requires h in files && h !in firstAcks && (forall n | n in files :: h <= n)
    requires files[h] in sealed && files[h].sequence == h && files[h].id in applied
    ensures FifoOk(files, unlinked, firstAcks + [h], applied, sealed)
  {
    assert forall i | 0 <= i < |firstAcks| :: firstAcks[i] in firstAcks;
  }

  lemma AckKeepsOuter(s: State)
    requires Outer(s) && Enabled(s, Ack)
    ensures Outer(AfterAck(s))
  {
    var h := s.reporter.head;
    if h !in s.firstAcks {
      AckKeepsFifo(s.files, s.unlinked, s.firstAcks, s.applied, s.sealed, h);
    }
  }

  lemma UnlinkKeepsOuter(s: State, synced: bool)
    requires Outer(s) && s.reporter.Acknowledged? && s.reporter.head in s.files
    ensures Outer(AfterUnlink(s, synced))
  {
    assert AfterUnlink(s, synced).files.Keys == s.files.Keys - {s.reporter.head};
    SequenceIdentifies(s.sealed, Bound(s.persistedNext), s.files[s.reporter.head]);
  }

  /** Records of the history with the same sequence are the same record. */
  lemma SequenceIdentifies(sealed: seq<Record>, bound: nat, r: Record)
    requires HistoryOk(sealed, bound) && r in sealed
    ensures forall q | q in sealed && q.sequence == r.sequence :: q == r
  {
    var i :| 0 <= i < |sealed| && sealed[i] == r;
    forall q | q in sealed && q.sequence == r.sequence ensures q == r {
      var j :| 0 <= j < |sealed| && sealed[j] == q;
      assert i == j;
    }
  }

  lemma AppendKeepsFiles(files: map<nat, Record>, unlinked: map<nat, Record>, network: set<Record>, applied: set<nat>,
                         sealed: seq<Record>, r: Record)
    requires FilesOk(files, unlinked, network, applied, sealed)
    requires forall q | q in sealed :: q.sequence < r.sequence
    ensures FilesOk(files[r.sequence := r], unlinked, network, applied, sealed + [r])
  {
    assert forall q | q in sealed + [r] :: q in sealed || q == r;
    assert r in sealed + [r] && forall q | q in sealed :: q in sealed + [r];
    assert Ids(sealed) <= Ids(sealed + [r]);
  }

  /** A durable new record extends files and history without disturbing what is known about either. */
  lemma InstallKeepsDisk(files: map<nat, Record>, unlinked: map<nat, Record>, s: State, r: Record)
    requires HistoryOk(s.sealed, Bound(s.persistedNext)) && Unused(s.sealed, Bound(s.persistedNext), r.sequence)
    requires r.id !in Ids(s.sealed) && forall k | k in r.reports :: k.revision == r.revision
    requires FilesOk(files, unlinked, s.network, s.applied, s.sealed) && FifoOk(files, unlinked, s.firstAcks, s.applied, s.sealed)
    ensures HistoryOk(s.sealed + [r], Bound(s.persistedNext))
    ensures FilesOk(files[r.sequence := r], unlinked, s.network, s.applied, s.sealed + [r])
    ensures FifoOk(files[r.sequence := r], unlinked, s.firstAcks, s.applied, s.sealed + [r])
  {
    AppendKeepsHistory(s.sealed, r, Bound(s.persistedNext));
    AppendKeepsFiles(files, unlinked, s.network, s.applied, s.sealed, r);
    AppendKeepsFifo(files, unlinked, s.firstAcks, s.applied, s.sealed, r);
  }

  lemma VerifiedKeepsOuter(s: State)
    requires Outer(s) && s.reporter.Linked? && s.uncertain.Some? && s.mem.held.Some? && Race.GateOk(s.mem)
    ensures Outer(AfterVerified(s))
  {
    InstallKeepsDisk(s.files, s.unlinked, s, s.uncertain.value);
    VerifiedKeepsMode(s);
  }

  lemma VerifiedKeepsMode(s: State)
    requires ModeOk(s) && ReservationOk(s) && s.reporter.Linked? && s.uncertain.Some? && s.mem.held.Some?
    requires Race.GateOk(s.mem)
    ensures var t := AfterVerified(s);
            ModeOk(t) && ReservationOk(t) && QueueOk(t.reporter, t.files, t.firstAcks, t.applied)
  {
  }

  function Resurrected(s: State, back: set<nat>): map<nat, Record>
    requires back <= s.unlinked.Keys
  {
    s.files + map n | n in back :: s.unlinked[n]
  }

  lemma ResurrectedOk(s: State, back: set<nat>)
    requires DiskOk(s) && back <= s.unlinked.Keys
    ensures FilesOk(Resurrected(s, back), map[], s.network, s.applied, s.sealed)
    ensures FifoOk(Resurrected(s, back), map[], s.firstAcks, s.applied, s.sealed)
  {
  }

  lemma SurvivalKeepsDisk(s: State, back: set<nat>)
    requires DiskOk(s) && ReservationOk(s) && back <= s.unlinked.Keys && s.uncertain.Some?
    ensures DiskOk(AfterCrash(s, true, back))
  {
    ResurrectedOk(s, back);
    InstallKeepsDisk(Resurrected(s, back), map[], s, s.uncertain.value);
  }

  lemma CrashKeepsDisk(s: State, survives: bool, back: set<nat>)
    requires DiskOk(s) && back <= s.unlinked.Keys && !(survives && s.uncertain.Some?)
    ensures DiskOk(AfterCrash(s, survives, back))
  {
    ResurrectedOk(s, back);
    assert s.sealed + [] == s.sealed;
  }

  lemma CrashKeepsOuter(s: State, survives: bool, back: set<nat>)
    requires Outer(s) && back <= s.unlinked.Keys
    ensures Outer(AfterCrash(s, survives, back))
  {
    if survives && s.uncertain.Some? {
      SurvivalKeepsDisk(s, back);
    } else {
      CrashKeepsDisk(s, survives, back);
    }
  }

  predicate DrainEvent(e: Event) {
    e.Send? || e.Stop? || e.Deliver? || e.Ack? || e.Unlink?
  }

  lemma AckOrUnlinkKeepsOuter(s: State, e: Event)
    requires Outer(s) && Enabled(s, e) && (e.Ack? || e.Unlink?)
    ensures Outer(Step(s, e))
  {
    if e.Ack? {
      AckKeepsOuter(s);
    } else {
      UnlinkKeepsOuter(s, e.synced);
    }
  }

  lemma DrainKeepsOuter(s: State, e: Event)
    requires Outer(s) && Enabled(s, e) && DrainEvent(e)
    ensures Outer(Step(s, e))
  {
    if e.Deliver? {
      DeliverKeepsOuter(s, e.record);
    } else if e.Send? || e.Stop? {
      SendKeepsQueue(s, e);
    } else {
      AckOrUnlinkKeepsOuter(s, e);
    }
  }

  predicate LogEvent(e: Event) {
    e.SealLog? || e.CrossCursor?
  }

  lemma SealLogKeepsOuter(s: State, r: Record, outcome: LogSeal)
    requires Race.GateOk(s.mem) && Outer(s) && LogEnabled(s, r)
    ensures Outer(AfterSealLog(s, r, outcome))
  {
    var reserved := s.(persistedNext := Some(r.sequence + 1));
    assert r.sequence >= Bound(s.persistedNext);
    if outcome.Installed? {
      InstallKeepsDisk(s.files, s.unlinked, reserved, r);
      InstalledLogKeepsWaiting(s, r);
    }
  }

  /** A newly installed log batch has not been sent, and its number was never acknowledged. */
  lemma InstalledLogKeepsWaiting(s: State, r: Record)
    requires DiskOk(s) && r.id !in Ids(s.sealed) && forall q | q in s.sealed :: q.sequence < r.sequence
    ensures WaitingOk(s.waiting + {r.sequence}, s.files[r.sequence := r], s.network, s.firstAcks, s.applied)
  {
  }

  lemma CrossKeepsOuter(s: State, n: nat, crossed: bool, failed: bool)
    requires Outer(s) && s.reporter.Resting? && !s.poisoned
    ensures Outer(s.(waiting := if crossed then s.waiting - {n} else s.waiting, poisoned := failed))
  {
  }

  lemma LogKeepsOuter(s: State, e: Event)
    requires Race.GateOk(s.mem) && Outer(s) && Enabled(s, e) && LogEvent(e)
    ensures Outer(Step(s, e))
  {
    if e.SealLog? {
      SealLogKeepsOuter(s, e.record, e.outcome);
    } else {
      CrossKeepsOuter(s, e.sequence, e.crossed, e.failed);
    }
  }

  lemma GateKeepsOuter(s: State, e: Event)
    requires Race.Inv(s.mem) && Outer(s) && GateEvent(e) && Enabled(s, e)
    ensures Outer(Step(s, e))
  {
    GateKeepsMode(s, e);
    GateKeepsReservation(s, e);
  }

  lemma StepKeepsOuter(s: State, e: Event)
    requires Race.Inv(s.mem) && Outer(s) && Enabled(s, e)
    ensures Outer(Step(s, e))
  {
    if e.Memory? {
      MemoryKeepsOuter(s, e.event);
    } else if e.Verified? {
      VerifiedKeepsOuter(s);
    } else if e.Crash? {
      CrashKeepsOuter(s, e.survives, e.resurrected);
    } else if DrainEvent(e) {
      DrainKeepsOuter(s, e);
    } else if LogEvent(e) {
      LogKeepsOuter(s, e);
    } else {
      GateKeepsOuter(s, e);
    }
  }

  lemma StepKeepsMemory(s: State, e: Event)
    requires Race.Inv(s.mem) && Enabled(s, e)
    ensures Race.Inv(Step(s, e).mem)
  {
    match e
    case Memory(m) => Race.StepKeepsInv(s.mem, m);
    case BeginReport => Race.StepKeepsInv(s.mem, Race.SnapshotBegin);
    case BeginCommit => Race.StepKeepsInv(s.mem, Race.CommitBegin);
    case _ =>
  }

  // ---------------------------------------------------------------------------------------------------------
  // Conservation.

  lemma SumAppend(records: seq<Record>, r: Record, k: Key, c: Channel)
    ensures SumBytes(records + [r], k, c) == SumBytes(records, k, c) + BytesOf(r, k, c)
  {
    assert (records + [r])[..|records|] == records;
  }

  /** Sealing moves exactly the captured bytes from "memory only" to the history. */
  lemma VerifiedConserves(s: State)
    requires Conserved(s) && Race.Inv(s.mem)
    requires s.uncertain.Some? && s.mem.held.Some? && !s.mem.held.value.sealed
    requires s.uncertain.value.reports == ReportsOf(s.mem.held.value.captured)
    ensures Conserved(AfterVerified(s))
  {
    var t := AfterVerified(s);
    forall k, c ensures t.added(k, c) == Race.Unsealed(t.mem, k, c) + SumBytes(t.sealed, k, c) + t.lost(k, c) {
      SumAppend(s.sealed, s.uncertain.value, k, c);
      Race.SealingBalance(s.mem, k, c);
    }
  }

  lemma MemoryConserves(s: State, m: Race.Event)
    requires Conserved(s) && Race.Inv(s.mem) && OutsideThreads(m) && Race.Enabled(s.mem, m)
    ensures Conserved(AfterMemory(s, m))
  {
    forall k, c {
      Race.StepConserves(s.mem, m, k, c);
    }
  }

  lemma SurvivorsAppend(sealed: seq<Record>, kept: seq<Record>, k: Key, c: Channel)
    requires |kept| <= 1
    ensures SumBytes(sealed + kept, k, c) == SumBytes(sealed, k, c) + SumBytes(kept, k, c)
  {
    if kept == [] {
      assert sealed + kept == sealed;
    } else {
      SumAppend(sealed, kept[0], k, c);
      SumAppend([], kept[0], k, c);
      assert kept == [kept[0]] && [] + [kept[0]] == [kept[0]];
    }
  }

  lemma CrashConserves(s: State, survives: bool, back: set<nat>)
    requires Conserved(s) && back <= s.unlinked.Keys
    ensures Conserved(AfterCrash(s, survives, back))
  {
    forall k, c {
      SurvivorsAppend(s.sealed, Surviving(s, survives), k, c);
    }
  }

  /** A log batch brings its bytes along when it becomes durable. */
  lemma LogConserves(s: State, r: Record, outcome: LogSeal)
    requires Conserved(s)
    ensures Conserved(AfterSealLog(s, r, outcome))
  {
    forall k, c {
      SumAppend(s.sealed, r, k, c);
    }
  }

  lemma GateConserves(s: State, e: Event)
    requires Conserved(s) && Race.Inv(s.mem) && ModeOk(s) && GateEvent(e) && GateEnabled(s, e)
    ensures Conserved(AfterGate(s, e))
  {
    forall k, c ensures Race.Unsealed(AfterGate(s, e).mem, k, c) == Race.Unsealed(s.mem, k, c) {
      match e
      case BeginReport => Race.StepConserves(s.mem, Race.SnapshotBegin, k, c);
      case BeginCommit => Race.StepConserves(s.mem, Race.CommitBegin, k, c);
      case _ =>
    }
  }

  lemma StepConserves(s: State, e: Event)
    requires Race.Inv(s.mem) && ModeOk(s) && ReservationOk(s) && Conserved(s) && Enabled(s, e)
    ensures Conserved(Step(s, e))
  {
    match e
    case Memory(m) => MemoryConserves(s, m);
    case Verified => VerifiedConserves(s);
    case Crash(survives, back) => CrashConserves(s, survives, back);
    case SealLog(r, outcome) => LogConserves(s, r, outcome);
    case _ =>
      if GateEvent(e) {
        GateConserves(s, e);
      }
  }

  // ---------------------------------------------------------------------------------------------------------
  // Billing.

  lemma {:induction false} WithinUnchanged(records: seq<Record>, ids: set<nat>, id: nat, k: Key, c: Channel)
    requires id !in Ids(records)
    ensures SumWithin(records, ids + {id}, k, c) == SumWithin(records, ids, k, c)
  {
    if records != [] {
      var front, last := records[..|records| - 1], records[|records| - 1];
      assert last in records;
      assert forall r | r in front :: r in records;
      WithinUnchanged(front, ids, id, k, c);
    }
  }

  /** Applying one more batch of the history adds its bytes once. */
  lemma {:induction false} WithinGrows(records: seq<Record>, ids: set<nat>, r: Record, k: Key, c: Channel)
    requires r in records && r.id !in ids
    requires forall i, j | 0 <= i < j < |records| :: records[i].id != records[j].id
    ensures SumWithin(records, ids + {r.id}, k, c) == SumWithin(records, ids, k, c) + BytesOf(r, k, c)
  {
    var front, last := records[..|records| - 1], records[|records| - 1];
    if last == r {
      assert r.id !in Ids(front);
      WithinUnchanged(front, ids, r.id, k, c);
    } else {
      WithinGrows(front, ids, r, k, c);
    }
  }

  lemma WithinAppend(records: seq<Record>, r: Record, ids: set<nat>, k: Key, c: Channel)
    requires r.id !in ids
    ensures SumWithin(records + [r], ids, k, c) == SumWithin(records, ids, k, c)
  {
    assert (records + [r])[..|records|] == records;
  }

  /** Up to the durable install, and from the commit on, the history stays as it is. */
  lemma GateKeepsHistory(s: State, e: Event)
    requires GateEvent(e) && GateEnabled(s, e)
    ensures var t := AfterGate(s, e); t.applied == s.applied && t.billed == s.billed && t.sealed == s.sealed
  {
  }

  /** The record an event makes durable. */
  function MadeDurable(s: State, e: Event): seq<Record> {
    match e
    case Verified => if s.uncertain.Some? then [s.uncertain.value] else []
    case SealLog(r, outcome) => if outcome.Installed? then [r] else []
    case Crash(survives, _) => Surviving(s, survives)
    case _ => []
  }

  /** The history grows by the record made durable, and only a delivery bills anything. */
  ghost predicate HistoryFrame(s: State, t: State, more: seq<Record>) {
    t.sealed == s.sealed + more && t.applied == s.applied && t.billed == s.billed
  }

  lemma QuietStep(s: State, e: Event)
    requires Enabled(s, e) && (e.Memory? || e.Send? || e.Ack? || e.Unlink? || e.Stop? || e.CrossCursor?)
    ensures HistoryFrame(s, Step(s, e), [])
  {
    assert s.sealed + [] == s.sealed;
  }

  lemma HistoryStep(s: State, e: Event)
    requires Enabled(s, e) && !e.Deliver?
    ensures HistoryFrame(s, Step(s, e), MadeDurable(s, e))
  {
    assert s.sealed + [] == s.sealed;
    if GateEvent(e) {
      GateKeepsHistory(s, e);
    } else if !e.Crash? && !e.Verified? && !e.SealLog? {
      QuietStep(s, e);
    }
  }

  /** What becomes durable has a fresh id and a number above all before, below the persisted reservation. */
  lemma MadeDurableIsNew(s: State, e: Event)
    requires ModeOk(s) && ReservationOk(s) && Enabled(s, e) && MadeDurable(s, e) != []
    ensures var r := MadeDurable(s, e)[0];
            && MadeDurable(s, e) == [r] && r.id !in Ids(s.sealed)
            && (e.SealLog? || Unused(s.sealed, Bound(s.persistedNext), r.sequence))
            && (e.SealLog? ==> r.sequence >= Bound(s.persistedNext))
  {
  }

  lemma DeliveryBillsOnce(s: State, r: Record)
    requires Outer(s) && BilledOnce(s) && r in s.network
    ensures BilledOnce(AfterDeliver(s, r))
  {
    if r.id !in s.applied {
      forall k, c {
        WithinGrows(s.sealed, s.applied, r, k, c);
      }
    }
  }

  lemma StepBillsOnce(s: State, e: Event)
    requires Outer(s) && BilledOnce(s) && Enabled(s, e)
    ensures BilledOnce(Step(s, e))
  {
    if e.Deliver? {
      DeliveryBillsOnce(s, e.record);
    } else {
      HistoryStep(s, e);
      if MadeDurable(s, e) == [] {
        assert s.sealed + [] == s.sealed;
      } else {
        MadeDurableIsNew(s, e);
        MoreIsUnbilled(s, Step(s, e), MadeDurable(s, e)[0]);
      }
    }
  }

  lemma MoreIsUnbilled(s: State, t: State, r: Record)
    requires BilledOnce(s) && HistoryFrame(s, t, [r]) && r.id !in s.applied
    ensures BilledOnce(t)
  {
    forall k, c {
      WithinAppend(s.sealed, r, s.applied, k, c);
    }
  }

  /**
   A crash loses at most what was only in memory, and nothing of a batch of the counters whose file survives it. It
   loses nothing of the access log.
   */
  lemma CrashLoss(s: State, survives: bool, back: set<nat>, k: Key, c: Channel)
    requires Race.Inv(s.mem) && Outer(s) && Enabled(s, Crash(survives, back))
    ensures var loss := Step(s, Crash(survives, back)).lost(k, c) - s.lost(k, c);
            && 0 <= loss <= Race.Unsealed(s.mem, k, c)
            && loss == Race.Unsealed(s.mem, k, c) -
                         if survives && s.uncertain.Some? && !LogInDoubt(s) then BytesOf(s.uncertain.value, k, c) else 0
  {
    Race.UnsealedIsNonNegative(s.mem, k, c);
    if survives && s.uncertain.Some? {
      OneRecord(s.uncertain.value, k, c);
      if !LogInDoubt(s) {
        HeldIsUnsealed(s, k, c);
      }
    }
  }

  lemma {:induction false} OneRecord(r: Record, k: Key, c: Channel)
    ensures SumBytes([r], k, c) == BytesOf(r, k, c)
  {
    SumAppend([], r, k, c);
    assert [] + [r] == [r];
  }

  /** While its durability is in doubt, all the bytes of a counters' batch are still in memory. */
  lemma HeldIsUnsealed(s: State, k: Key, c: Channel)
    requires Race.Inv(s.mem) && ModeOk(s) && ReservationOk(s) && s.uncertain.Some? && s.mem.held.Some?
    ensures BytesOf(s.uncertain.value, k, c) <= Race.Unsealed(s.mem, k, c)
  {
    assert Race.Unsettled(s.mem, k, c) == 0;
  }

  lemma StepLossOk(s: State, e: Event)
    requires Race.Inv(s.mem) && Outer(s) && LossOk(s) && Enabled(s, e)
    ensures LossOk(Step(s, e))
  {
    if e.Crash? {
      forall k, c ensures Step(s, e).lost(k, c) >= 0 {
        CrashLoss(s, e.survives, e.resurrected, k, c);
      }
    }
  }

  /** Every event keeps the whole invariant. */
  lemma StepKeepsInv(s: State, e: Event)
    requires Inv(s) && Enabled(s, e)
    ensures Inv(Step(s, e))
  {
    StepKeepsMemory(s, e);
    StepKeepsOuter(s, e);
    StepConserves(s, e);
    StepBillsOnce(s, e);
    StepLossOk(s, e);
  }

  // ---------------------------------------------------------------------------------------------------------
  // Whole runs, over any failures, crashes and restarts.

  /** A legacy pending file from an earlier release, if there is one. */
  ghost predicate LegacyOk(legacy: Option<Record>) {
    legacy.Some? ==> legacy.value.sequence == 0 && forall k | k in legacy.value.reports :: k.revision == legacy.value.revision
  }

  ghost predicate Reachable(s: State) {
    exists legacy, events :: LegacyOk(legacy) && Reaches(Initial(legacy), events, s)
  }

  ghost predicate Reaches(start: State, events: seq<Event>, s: State)
    decreases |events|
  {
    if events == [] then s == start
    else Enabled(start, events[0]) && Reaches(Step(start, events[0]), events[1..], s)
  }

  lemma {:induction false} RunKeepsInv(start: State, events: seq<Event>, s: State)
    requires Inv(start) && Reaches(start, events, s)
    ensures Inv(s)
    decreases |events|
  {
    if events != [] {
      StepKeepsInv(start, events[0]);
      RunKeepsInv(Step(start, events[0]), events[1..], s);
    }
  }

  lemma InitialInv(legacy: Option<Record>)
    requires LegacyOk(legacy)
    ensures Inv(Initial(legacy))
  {
    var s := Initial(legacy);
    if legacy.Some? {
      assert legacy.value in s.sealed;
    }
    forall k, c ensures SumBytes(s.sealed, k, c) == if legacy.Some? then BytesOf(legacy.value, k, c) else 0 {
      if legacy.Some? {
        SumAppend([], legacy.value, k, c);
        assert [] + [legacy.value] == s.sealed;
      }
    }
    forall k, c ensures SumWithin(s.sealed, {}, k, c) == 0 {
      if legacy.Some? {
        WithinAppend([], legacy.value, {}, k, c);
        assert [] + [legacy.value] == s.sealed;
      }
    }
  }

  lemma ReachableInv(s: State)
    requires Reachable(s)
    ensures Inv(s)
  {
    var legacy, events :| LegacyOk(legacy) && Reaches(Initial(legacy), events, s);
    InitialInv(legacy);
    RunKeepsInv(Initial(legacy), events, s);
  }

  /** Sealed bytes that the Panel has not applied yet. */
  function Outstanding(s: State, k: Key, c: Channel): int {
    SumBytes(s.sealed, k, c) - SumWithin(s.sealed, s.applied, k, c)
  }

  lemma {:induction false} WithinAtMostAll(records: seq<Record>, ids: set<nat>, k: Key, c: Channel)
    ensures SumWithin(records, ids, k, c) <= SumBytes(records, k, c)
    ensures Ids(records) <= ids ==> SumWithin(records, ids, k, c) == SumBytes(records, k, c)
  {
    if records != [] {
      var front, last := records[..|records| - 1], records[|records| - 1];
      assert last in records && last.id in Ids(records);
      assert Ids(front) <= Ids(records);
      WithinAtMostAll(front, ids, k, c);
    }
  }

  /**
   Conservation. Per key and direction, in every reachable state: added bytes are in memory only, or sealed and
   waiting in a spool file, or billed by the Panel, or were lost from memory by a crash; nothing is billed twice.
   */
  lemma NoByteIsLostOrBilledTwice(s: State, k: Key, c: Channel)
    requires Reachable(s)
    ensures s.added(k, c) == Race.Unsealed(s.mem, k, c) + Outstanding(s, k, c) + s.billed(k, c) + s.lost(k, c)
    ensures Race.Unsealed(s.mem, k, c) >= 0 && Outstanding(s, k, c) >= 0 && s.lost(k, c) >= 0
    ensures 0 <= s.billed(k, c) <= s.added(k, c)
    ensures forall r | r in s.sealed && r.id !in s.applied :: r.sequence in s.files && s.files[r.sequence] == r
  {
    ReachableInv(s);
    Race.UnsealedIsNonNegative(s.mem, k, c);
    WithinAtMostAll(s.sealed, s.applied, k, c);
    forall r | r in s.sealed && r.id !in s.applied ensures r.sequence in s.files && s.files[r.sequence] == r {
      SequenceIdentifies(s.sealed, Bound(s.persistedNext), r);
    }
  }

  /** With the spool drained, the Panel has billed everything that was neither lost in a crash nor still only in memory. */
  lemma DrainedMeansBilled(s: State, k: Key, c: Channel)
    requires Reachable(s) && s.files == map[]
    ensures s.billed(k, c) == s.added(k, c) - Race.Unsealed(s.mem, k, c) - s.lost(k, c)
  {
    NoByteIsLostOrBilledTwice(s, k, c);
    WithinAtMostAll(s.sealed, s.applied, k, c);
  }

  /**
   Bytes are both sealed and live only while the report gate's holder is committing. A poisoned process has no such
   bytes because a file whose durability is in doubt does not count as sealed: its bytes still count as memory only,
   and a crash that the file survives is what seals it.
   */
  lemma OverlapOnlyWhileCommitting(s: State, k: Key, c: Channel)
    requires Reachable(s) && Race.Unsettled(s.mem, k, c) > 0
    ensures s.reporter.Committing? && !s.poisoned
  {
    ReachableInv(s);
  }

  /** A poisoned process neither seals, sends nor deletes again: only traffic, late deliveries and a crash remain. */
  lemma PoisonStopsReporting(s: State, e: Event)
    requires Reachable(s) && s.poisoned && Enabled(s, e)
    ensures e.Memory? || e.Deliver? || e.Crash?
  {
    ReachableInv(s);
    assert ModeOk(s);
  }

  /** A batch is acknowledged for the first time only after every older batch was. */
  lemma FirstAcksAreFifo(s: State)
    requires Reachable(s)
    ensures forall i, j | 0 <= i < j < |s.firstAcks| :: s.firstAcks[i] < s.firstAcks[j]
    ensures forall r, n | r in s.sealed && n in s.firstAcks && r.sequence < n :: r.id in s.applied
    ensures forall r, n | r in s.sealed && n in s.firstAcks && r.sequence < n && r.sequence in s.files :: r.sequence in s.firstAcks
  {
    ReachableInv(s);
  }

  /** A file is removed only when the Panel has applied exactly that batch and its oldest position was acknowledged. */
  lemma RemovalFollowsAck(s: State, e: Event, n: nat)
    requires Reachable(s) && Enabled(s, e) && n in s.files && n !in Step(s, e).files
    ensures e.Unlink? && s.files[n].id in s.applied && n in s.firstAcks && forall m | m in s.files :: n <= m
  {
    ReachableInv(s);
    OnlyUnlinkRemoves(s, e, n);
    assert QueueOk(s.reporter, s.files, s.firstAcks, s.applied);
  }

  lemma OnlyUnlinkRemoves(s: State, e: Event, n: nat)
    requires Enabled(s, e) && n in s.files && n !in Step(s, e).files
    ensures e.Unlink? && s.reporter.Acknowledged? && n == s.reporter.head
  {
    match e
    case Crash(survives, back) =>
    case _ =>
  }

  /** What the loader demands of the directory always holds: the reservation file exists and lies beyond every batch. */
  lemma LoaderAcceptsTheSpool(s: State)
    requires Reachable(s)
    ensures forall n | n in s.files && n != 0 :: s.persistedNext.Some? && n < s.persistedNext.value && s.files[n].sequence == n
  {
    ReachableInv(s);
  }

  /** What a report has captured and not yet subtracted is covered by the live map, in every reachable state. */
  lemma CapturedStaysMapped(s: State)
    requires Reachable(s)
    ensures var promised := Race.Promised(s.mem);
            forall k | k in promised ::
              && k in s.mem.table && s.mem.table[k] == promised[k].gen
              && Race.Live(s.mem, k, Upload) >= promised[k].amount.up
              && Race.Live(s.mem, k, Download) >= promised[k].amount.down
    ensures s.mem.held.Some? && s.uncertain.Some? ==> s.uncertain.value.reports == ReportsOf(Race.Promised(s.mem))
  {
    ReachableInv(s);
    assert Race.PhaseOk(s.mem);
  }

  /** Apart from a crash, only the counters' own steps change the map and its entries. */
  lemma GateLeavesTheMap(s: State, e: Event)
    requires GateEvent(e) && GateEnabled(s, e)
    ensures var n := AfterGate(s, e).mem; n.gens == s.mem.gens && n.table == s.mem.table
  {
  }

  lemma OthersLeaveTheMap(s: State, e: Event)
    requires Enabled(s, e) && !e.Memory? && !e.Crash?
    ensures var n := Step(s, e).mem; n.gens == s.mem.gens && n.table == s.mem.table
  {
    if GateEvent(e) {
      GateLeavesTheMap(s, e);
    }
  }

  lemma DetachedStep(s: State, e: Event, g: nat)
    requires Race.Inv(s.mem) && Enabled(s, e) && !e.Crash? && g in s.mem.gens && !Race.Mapped(s.mem, g)
    ensures var n := Step(s, e).mem; g in n.gens && n.gens[g] == s.mem.gens[g] && !Race.Mapped(n, g)
  {
    if e.Memory? {
      Race.UntouchedWhenDetached(s.mem, e.event, g);
    } else {
      OthersLeaveTheMap(s, e);
    }
  }

  /**
   An entry that left the map is finished: through every snapshot, seal, commit and prune that follows while the
   process lives, it holds no bytes, has no handle and is never written to or mapped again.
   */
  lemma {:induction false} RemovedStaysFinished(start: State, events: seq<Event>, s: State, g: nat)
    requires Inv(start) && Reaches(start, events, s) && forall e | e in events :: !e.Crash?
    requires g in start.mem.gens && !Race.Mapped(start.mem, g)
    ensures g in s.mem.gens && s.mem.gens[g] == start.mem.gens[g] && s.mem.gens[g].Idle() && !Race.Mapped(s.mem, g)
    decreases |events|
  {
    if events != [] {
      StepKeepsInv(start, events[0]);
      DetachedStep(start, events[0], g);
      RemovedStaysFinished(Step(start, events[0]), events[1..], s, g);
    }
  }

  lemma StepKeepsHistory(s: State, e: Event)
    requires Enabled(s, e)
    ensures s.sealed <= Step(s, e).sealed
  {
    match e
    case Crash(survives, back) => assert Step(s, e).sealed == s.sealed + Surviving(s, survives);
    case _ =>
  }

  lemma {:induction false} HistoryGrows(start: State, events: seq<Event>, s: State)
    requires Inv(start) && Reaches(start, events, s)
    ensures Inv(s) && start.sealed <= s.sealed
    decreases |events|
  {
    if events != [] {
      StepKeepsInv(start, events[0]);
      StepKeepsHistory(start, events[0]);
      HistoryGrows(Step(start, events[0]), events[1..], s);
    }
  }

  /**
   Stable identity: whatever was sent for a sequence number before is sent again with the same batch id, revision
   and entries, and a batch id never stands for two batches.
   */
  lemma ResendsAreIdentical(start: State, events: seq<Event>, s: State, first: Record, again: Record)
    requires Reachable(start) && Reaches(start, events, s)
    requires first in start.network && again in s.network
    requires first.sequence == again.sequence || first.id == again.id
    ensures first == again
  {
    ReachableInv(start);
    HistoryGrows(start, events, s);
    var i :| 0 <= i < |start.sealed| && start.sealed[i] == first;
    var j :| 0 <= j < |s.sealed| && s.sealed[j] == again;
    assert s.sealed[i] == first;
    assert HistoryOk(s.sealed, Bound(s.persistedNext));
  }

  /** Sequence numbers are never reused: every newly sealed batch is above all batches ever sealed, deleted ones included. */
  lemma SealedSequencesIncrease(s: State, e: Event)
    requires Reachable(s) && Enabled(s, e) && Step(s, e).sealed != s.sealed
    ensures var t := Step(s, e);
            && |t.sealed| == |s.sealed| + 1 && s.sealed == t.sealed[..|s.sealed|]
            && (forall r | r in s.sealed :: r.sequence < t.sealed[|s.sealed|].sequence)
            && t.persistedNext.Some? && t.sealed[|s.sealed|].sequence < t.persistedNext.value
  {
    ReachableInv(s);
    assert s.sealed + [] == s.sealed;
    if !e.Deliver? {
      HistoryStep(s, e);
      MadeDurableIsNew(s, e);
    }
  }

  /**
   A log batch whose cursor is not durable yet is on disk, has never been sent, and holds back everything newer: no
   batch above it has been acknowledged.
   */
  lemma WaitingBlocksTheQueue(s: State, n: nat)
    requires Reachable(s) && n in s.waiting
    ensures n in s.files && s.files[n] !in s.network && s.files[n].id !in s.applied
    ensures forall m | m in s.firstAcks :: m < n
  {
    ReachableInv(s);
  }

  // ---------------------------------------------------------------------------------------------------------
  // What can happen next.

  /** After a snapshot the report goes on to the drain exactly if it captured no byte, and to a seal exactly if it did and a number is left. */
  lemma AfterSnapshotIff(s: State)
    requires Reachable(s) && s.reporter.Snapshotting? && s.mem.held.Some?
    ensures Enabled(s, NothingNew) <==> forall k, c :: Race.CapturedAt(s.mem.held.value.captured, k, c) == 0
    ensures Enabled(s, Reserve) <==>
            (exists k, c :: Race.CapturedAt(s.mem.held.value.captured, k, c) > 0) && NumberLeft(s.files.Keys, s.persistedNext)
  {
    ReachableInv(s);
    ReservesTheLeast(s.files.Keys, s.persistedNext);
    var captured := s.mem.held.value.captured;
    if captured != map[] {
      var k :| k in captured;
      assert !captured[k].amount.IsZero();
      assert Race.CapturedAt(captured, k, Upload) > 0 || Race.CapturedAt(captured, k, Download) > 0;
    }
  }

  lemma {:induction false} LeastOf(numbers: set<nat>) returns (least: nat)
    requires numbers != {}
    ensures least in numbers && forall n | n in numbers :: least <= n
    decreases |numbers|
  {
    least :| least in numbers;
    var rest := numbers - {least};
    if rest != {} {
      var l := LeastOf(rest);
      forall m | m in numbers ensures l <= m || least <= m {
        assert m == least || m in rest;
      }
      least := if l < least then l else least;
    } else {
      forall m | m in numbers ensures least <= m {
        assert m == least || m in rest;
      }
    }
  }

  /** The queue of a drain is the set of the files, so only the oldest file can be sent, and only if no cursor holds it back. */
  lemma OldestIsSent(s: State, h: nat)
    requires s.reporter.Draining? && QueueOk(s.reporter, s.files, s.firstAcks, s.applied)
    ensures Enabled(s, Send(h)) <==> h in s.files && h !in s.waiting && forall n | n in s.files :: h <= n
  {
  }

  /**
   The drain goes on with the oldest file and no other, and there is one as long as there are files: it is sent exactly
   if no cursor holds it back.
   */
  lemma DrainGoesOn(s: State) returns (oldest: nat)
    requires Reachable(s) && s.reporter.Draining? && s.files != map[]
    ensures oldest in s.files && forall n | n in s.files :: oldest <= n
    ensures forall h :: Enabled(s, Send(h)) <==> h == oldest && oldest !in s.waiting
  {
    ReachableInv(s);
    assert s.files.Keys != {};
    oldest := LeastOf(s.files.Keys);
    forall h ensures Enabled(s, Send(h)) <==> h == oldest && oldest !in s.waiting {
      OldestIsSent(s, h);
    }
  }

  /** A batch that was sent can be acknowledged exactly if the Panel has applied it, and an acknowledged one can always be removed. */
  lemma AckIff(s: State)
    requires Reachable(s)
    ensures s.reporter.Sent? ==> s.reporter.head in s.files && (Enabled(s, Ack) <==> s.files[s.reporter.head].id in s.applied)
    ensures s.reporter.Acknowledged? ==> forall synced :: Enabled(s, Unlink(synced))
  {
    ReachableInv(s);
    assert QueueOk(s.reporter, s.files, s.firstAcks, s.applied);
  }

  /** A step takes a batch out of the waiting ones exactly if it moves the durable cursor over it, and only a log batch can begin to wait. */
  lemma WaitingChangesIff(s: State, e: Event, n: nat)
    requires Enabled(s, e) && !e.Crash?
    ensures n in s.waiting && n !in Step(s, e).waiting <==> e.CrossCursor? && e.sequence == n && e.crossed
    ensures n !in s.waiting && n in Step(s, e).waiting <==>
            n !in s.waiting && e.SealLog? && e.record.sequence == n && e.outcome.Installed? && !e.outcome.crossed
  {
  }

  /** Does the event get the reservation file written? */
  predicate Saves(e: Event) {
    e.Reserve? || (e.ReserveFailed? && e.advanced) || (e.SealLog? && (e.outcome.NotInstalled? ==> e.outcome.advanced))
  }

  /** A number that was saved is used up, whether its batch came to be or not; no other step moves the reservation. */
  lemma SavedNumberIsUsedUp(s: State, e: Event) returns (least: nat)
    requires Enabled(s, e)
    ensures NumberLeft(s.files.Keys, s.persistedNext) ==>
            NeverUsed(s.files.Keys, s.persistedNext, least) && forall n | NeverUsed(s.files.Keys, s.persistedNext, n) :: least <= n
    ensures Step(s, e).persistedNext ==
            if Saves(e) && NumberLeft(s.files.Keys, s.persistedNext) then Some(least + 1) else s.persistedNext
  {
    ReservesTheLeast(s.files.Keys, s.persistedNext);
    var r := ReserveSequence(s.files.Keys, s.persistedNext);
    least := if r.Ok? then r.value else 0;
  }

  /** The process can die in every state, with any outcome of what was not synced; and a log batch that its cursor has not crossed poisons it. */
  lemma CrashIsAlwaysPossible(s: State, survives: bool, back: set<nat>, r: Record)
    requires back <= s.unlinked.Keys
    ensures Enabled(s, Crash(survives, back))
    ensures forall failed :: Enabled(s, SealLog(r, Installed(false, failed))) <==> failed && LogEnabled(s, r)
    ensures forall failed :: Enabled(s, SealLog(r, Installed(true, failed))) <==> LogEnabled(s, r)
  {
  }

  /** A restart ends every poisoning: the next report can begin. */
  lemma RestartCanReport(s: State, survives: bool, back: set<nat>)
    requires Enabled(s, Crash(survives, back))
    ensures Enabled(Step(s, Crash(survives, back)), BeginReport)
  {
  }
}
