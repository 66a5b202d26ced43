/**
 Access-log accounting from end to end: the ingester of one log source and the shared spool pipeline stepping together.

 The ingester decides which range a batch covers and where the durable cursor is; the pipeline decides what is on
 disk, sent, billed and removed. All the ingester's steps hold the report gate. Whether an uncertain install is durable
 is fixed when it happens and comes out at the crash.
 */
module LogAccounting {
  import opened Wrappers
  import opened TrafficModel
  import opened SpoolSequence
  import Pipe = TrafficPipeline
  import Log = NginxCheckpoint

  datatype State = State(pipe: Pipe.State, log: Log.State)

  datatype Event =
    | Reporting(event: Pipe.Event)
    | SealRange(record: Record, end: nat, outcome: Log.SealOutcome, advanced: bool)
    | MoveCursor(batch: Log.Batch, written: bool, persisted: bool)
    | Reading(step: Log.Event)
    | Crash(survives: bool, resurrected: set<nat>)

  function PipeOutcome(outcome: Log.SealOutcome, advanced: bool): Pipe.LogSeal {
    match outcome
    case Refused => Pipe.NotInstalled(advanced)
    case Uncertain(_) => Pipe.InDoubt
    case CursorFailed(persisted) => Pipe.Installed(persisted, true)
    case Sealed => Pipe.Installed(true, false)
  }

  predicate OwnEvent(e: Pipe.Event) {
    !e.SealLog? && !e.CrossCursor? && !e.Crash?
  }

  predicate ReadingEvent(e: Log.Event) {
    e.Open? || e.Skip? || e.RecoveryDone?
  }

  /** The batch of the log with this number is among those that were installed. */
  predicate InQueue(g: Log.State, n: nat) {
    exists b :: b in g.queue && b.sequence == n
  }

  ghost predicate Enabled(source: nat, s: State, e: Event) {
    match e
    case Reporting(p) => OwnEvent(p) && Pipe.Enabled(s.pipe, p)
    case SealRange(r, end, outcome, advanced) =>
      && Pipe.Enabled(s.pipe, Pipe.SealLog(r, PipeOutcome(outcome, advanced)))
      && Log.Enabled(source, s.log, Log.Seal(r.sequence, end, outcome))
    case MoveCursor(b, written, persisted) =>
      && Log.Enabled(source, s.log, Log.Recover(b, written, persisted))
      && s.pipe.reporter.Resting? && !s.pipe.poisoned
    case Reading(g) => ReadingEvent(g) && Log.Enabled(source, s.log, g) && s.pipe.reporter.Resting? && !s.pipe.poisoned
    case Crash(survives, back) =>
      && Pipe.Enabled(s.pipe, Pipe.Crash(survives, back))
      && (Pipe.LogInDoubt(s.pipe) ==> (survives <==> InQueue(s.log, s.pipe.uncertain.value.sequence)))
  }

  /** A removed file takes its batch out of the log's queue, if it was one of the log's. */
  function AfterRemoval(g: Log.State, n: nat, synced: bool): Log.State {
    var gone := set b | b in g.queue && b.sequence == n;
    g.(queue := g.queue - gone, unlinked := if synced then g.unlinked else g.unlinked + gone)
  }

  function LogAfterReport(s: State, p: Pipe.Event): Log.State {
    if p.Unlink? && s.pipe.reporter.Acknowledged? then AfterRemoval(s.log, s.pipe.reporter.head, p.synced) else s.log
  }

  /** The pipeline's part of moving the cursor over an installed batch: its step `CrossCursor`. */
  function MovedPipe(p: Pipe.State, n: nat, crossed: bool, failed: bool): Pipe.State {
    p.(waiting := if crossed then p.waiting - {n} else p.waiting, poisoned := failed)
  }

  function Back(g: Log.State, back: set<nat>): set<Log.Batch> {
    set b | b in g.unlinked && b.sequence in back
  }

  ghost function Step(source: nat, s: State, e: Event): State
    requires Enabled(source, s, e)
  {
    match e
    case Reporting(p) => State(Pipe.Step(s.pipe, p), LogAfterReport(s, p))
    case SealRange(r, end, outcome, advanced) =>
      State(Pipe.Step(s.pipe, Pipe.SealLog(r, PipeOutcome(outcome, advanced))),
            if outcome.Refused? then s.log else Log.AfterSeal(source, s.log, r.sequence, end, outcome))
    case MoveCursor(b, written, persisted) =>
      State(MovedPipe(s.pipe, b.sequence, written || persisted, !written),
            Log.Step(source, s.log, Log.Recover(b, written, persisted)))
    case Reading(g) => s.(log := Log.Step(source, s.log, g))
    case Crash(survives, back) =>
      State(Pipe.Step(s.pipe, Pipe.Crash(survives, back)), Log.Step(source, s.log, Log.Crash(Back(s.log, back))))
  }

  // ---------------------------------------------------------------------------------------------------------
  // How the two halves agree.

  /** Numbers whose batch may not be sent: waiting for the cursor, or not even certainly installed. */
  function Blocked(p: Pipe.State): set<nat> {
    if Pipe.LogInDoubt(p) then p.waiting + {p.uncertain.value.sequence} else p.waiting
  }

  ghost predicate HasRecord(p: Pipe.State, n: nat) {
    exists r :: r in p.sealed && r.sequence == n
  }

  /** Each sealed range is a sealed record, except for one in doubt; numbers are in sealing order. */
  ghost predicate SameHistory(p: Pipe.State, g: Log.State) {
    && g.highest < Pipe.Bound(p.persistedNext)
    && (forall i, j | 0 <= i < j < |g.sealed| :: g.sealed[i].sequence < g.sealed[j].sequence)
    && (forall b | b in g.sealed :: HasRecord(p, b.sequence) || (Pipe.LogInDoubt(p) && p.uncertain.value.sequence == b.sequence))
  }

  /** On disk for certain, or in doubt. */
  predicate Installed(p: Pipe.State, n: nat) {
    n in p.files || (Pipe.LogInDoubt(p) && p.uncertain.value.sequence == n)
  }

  /** The log's batches in its queue and among the unsynced removals are the pipeline's files and unsynced removals. */
  ghost predicate SameFiles(p: Pipe.State, g: Log.State) {
    && (forall b | b in g.queue :: Installed(p, b.sequence))
    && (forall b | b in g.sealed && Installed(p, b.sequence) :: b in g.queue)
    && (forall b | b in g.sealed && b.sequence in p.unlinked :: b in g.unlinked)
    && (forall b | b in g.unlinked :: b.sequence in p.unlinked)
  }

  /** A batch is held back exactly until the durable cursor proves it. */
  ghost predicate SameReadiness(p: Pipe.State, g: Log.State) {
    && (forall b | b in g.queue :: b.sequence in Blocked(p) <==> !(g.cursor.Some? && Log.SendReady(b, g.cursor.value)))
    && (forall n | n in p.waiting :: InQueue(g, n))
  }

  ghost predicate Agrees(p: Pipe.State, g: Log.State) {
    && SameHistory(p, g) && SameFiles(p, g) && SameReadiness(p, g)
    && (g.poisoned ==> p.poisoned)
  }

  ghost predicate Inv(source: nat, s: State) {
    Pipe.Inv(s.pipe) && Log.Inv(source, s.log) && Agrees(s.pipe, s.log)
  }

  // ---------------------------------------------------------------------------------------------------------
  // Each event keeps the agreement.

  /** Among the sealed ranges only the one that starts at the cursor is not sendable. */
  lemma ReadyUnlessAtCursor(source: nat, g: Log.State, b: Log.Batch)
    requires Log.Inv(source, g) && b in g.sealed
    ensures g.cursor.Some? && b.checkpoint.Some?
    ensures Log.SendReady(b, g.cursor.value) <==> !Log.At(b.checkpoint.value, g.cursor.value)
    ensures Log.At(b.checkpoint.value, g.cursor.value) ==> b in g.queue && b == g.sealed[|g.sealed| - 1]
  {
    var i :| 0 <= i < |g.sealed| && g.sealed[i] == b;
  }

  /** Different batches of the log have different numbers. */
  lemma NumbersIdentify(p: Pipe.State, g: Log.State, a: Log.Batch, b: Log.Batch)
    requires SameHistory(p, g) && a in g.sealed && b in g.sealed && a.sequence == b.sequence
    ensures a == b
  {
    var i :| 0 <= i < |g.sealed| && g.sealed[i] == a;
    var j :| 0 <= j < |g.sealed| && g.sealed[j] == b;
    assert i == j;
  }

  /** What a step of the reporter other than a removal leaves as it is, as far as the log is concerned. */
  ghost predicate Framed(p: Pipe.State, q: Pipe.State) {
    && q.waiting == p.waiting && q.unlinked == p.unlinked && (p.poisoned ==> q.poisoned)
    && Pipe.LogInDoubt(q) == Pipe.LogInDoubt(p) && (Pipe.LogInDoubt(p) ==> q.uncertain == p.uncertain)
    && Pipe.Bound(p.persistedNext) <= Pipe.Bound(q.persistedNext)
    && (forall r | r in p.sealed :: r in q.sealed)
    && (forall n | n in p.files :: n in q.files)
    && (forall n | n in q.files && n !in p.files :: !Pipe.LogInDoubt(p) && !HasRecord(p, n))
  }

  lemma FrameKeepsAgreement(p: Pipe.State, q: Pipe.State, g: Log.State)
    requires Agrees(p, g) && Framed(p, q)
    ensures Agrees(q, g)
  {
    forall b | b in g.sealed && HasRecord(p, b.sequence) ensures HasRecord(q, b.sequence) {
      var r :| r in p.sealed && r.sequence == b.sequence;
    }
  }

  lemma GateIsFramed(p: Pipe.State, e: Pipe.Event)
    requires Pipe.ModeOk(p) && Pipe.GateEvent(e) && Pipe.GateEnabled(p, e)
    ensures Framed(p, Pipe.AfterGate(p, e))
  {
    if e.Reserve? || e.ReserveFailed? {
      assert ReserveSequence(p.files.Keys, p.persistedNext).Ok? ==>
               ReserveSequence(p.files.Keys, p.persistedNext).value >= Pipe.Bound(p.persistedNext);
    }
  }

  lemma VerifiedIsFramed(p: Pipe.State)
    requires Pipe.ReservationOk(p) && p.reporter.Linked? && p.uncertain.Some? && p.mem.held.Some?
    ensures Framed(p, Pipe.AfterVerified(p))
  {
    var r := p.uncertain.value;
    forall n | n in Pipe.AfterVerified(p).files && n !in p.files ensures !HasRecord(p, n) {
      assert n == r.sequence && Pipe.Unused(p.sealed, Pipe.Bound(p.persistedNext), n);
    }
  }

  lemma MemoryIsFramed(p: Pipe.State, m: Pipe.Race.Event)
    requires Pipe.Race.Inv(p.mem) && Pipe.ModeOk(p) && Pipe.OutsideThreads(m) && Pipe.Race.Enabled(p.mem, m)
    ensures Framed(p, Pipe.AfterMemory(p, m))
  {
    Pipe.Race.StepGuardFrame(p.mem, m);
  }

  lemma DrainIsFramed(p: Pipe.State, e: Pipe.Event)
    requires Pipe.Enabled(p, e) && (e.Send? || e.Deliver? || e.Ack? || e.Stop?)
    ensures Framed(p, Pipe.Step(p, e))
  {
  }

  lemma ReportIsFramed(p: Pipe.State, e: Pipe.Event)
    requires Pipe.Inv(p) && Pipe.Enabled(p, e) && OwnEvent(e) && !e.Unlink?
    ensures Framed(p, Pipe.Step(p, e))
  {
    if Pipe.GateEvent(e) {
      GateIsFramed(p, e);
    } else if e.Verified? {
      VerifiedIsFramed(p);
    } else if e.Memory? {
      MemoryIsFramed(p, e.event);
    } else {
      DrainIsFramed(p, e);
    }
  }

  /** A file about to be removed is held back by nothing. */
  lemma AcknowledgedIsFree(p: Pipe.State)
    requires Pipe.ModeOk(p) && p.reporter.Acknowledged?
    requires Pipe.WaitingOk(p.waiting, p.files, p.network, p.firstAcks, p.applied)
    requires Pipe.QueueOk(p.reporter, p.files, p.firstAcks, p.applied)
    ensures p.reporter.head !in p.waiting && !Pipe.LogInDoubt(p) && !p.poisoned
  {
  }

  lemma GoneIsOne(p: Pipe.State, g: Log.State, b: Log.Batch)
    requires SameHistory(p, g) && b in g.queue && forall a | a in g.queue :: a in g.sealed
    ensures (set a | a in g.queue && a.sequence == b.sequence) == {b}
  {
    forall a | a in g.queue && a.sequence == b.sequence ensures a == b {
      NumbersIdentify(p, g, a, b);
    }
  }

  /** A removed file was acknowledged, so its batch, if it is one of the log's, was sendable. */
  lemma RemovalIsALogStep(source: nat, p: Pipe.State, g: Log.State, h: nat, synced: bool)
    requires Log.Inv(source, g) && Agrees(p, g) && h !in p.waiting && !Pipe.LogInDoubt(p) && !p.poisoned
    ensures Log.Inv(source, AfterRemoval(g, h, synced))
  {
    if InQueue(g, h) {
      var b :| b in g.queue && b.sequence == h;
      assert b in g.queue + g.unlinked && b in g.sealed;
      GoneIsOne(p, g, b);
      ReadyUnlessAtCursor(source, g, b);
      Log.StepKeepsInv(source, g, Log.Remove(b, synced));
      assert AfterRemoval(g, h, synced) == Log.Step(source, g, Log.Remove(b, synced));
    } else {
      assert AfterRemoval(g, h, synced) == g;
    }
  }

  lemma RemovalAgrees(p: Pipe.State, g: Log.State, synced: bool)
    requires Agrees(p, g) && p.reporter.Acknowledged? && p.reporter.head in p.files
    requires p.reporter.head !in p.waiting && !Pipe.LogInDoubt(p)
    ensures Agrees(Pipe.AfterUnlink(p, synced), AfterRemoval(g, p.reporter.head, synced))
  {
    var q, f := Pipe.AfterUnlink(p, synced), AfterRemoval(g, p.reporter.head, synced);
    forall n | n in q.waiting ensures InQueue(f, n) {
      var b :| b in g.queue && b.sequence == n;
      assert b in f.queue;
    }
  }

  lemma ReportKeepsInv(source: nat, s: State, e: Pipe.Event)
    requires Inv(source, s) && OwnEvent(e) && Pipe.Enabled(s.pipe, e)
    ensures Inv(source, Step(source, s, Reporting(e)))
  {
    Pipe.StepKeepsInv(s.pipe, e);
    if e.Unlink? {
      AcknowledgedIsFree(s.pipe);
      RemovalIsALogStep(source, s.pipe, s.log, s.pipe.reporter.head, e.synced);
      RemovalAgrees(s.pipe, s.log, e.synced);
    } else {
      ReportIsFramed(s.pipe, e);
      FrameKeepsAgreement(s.pipe, Pipe.Step(s.pipe, e), s.log);
    }
  }

  // ---------------------------------------------------------------------------------------------------------
  // Sealing a range.

  /** While the gate is free and nothing is in doubt, the ingester's batches are all sendable once it has recovered. */
  lemma IngestingMeansReady(source: nat, g: Log.State, b: Log.Batch)
    requires Log.Inv(source, g) && Log.Ingesting(g) && b in g.queue
    ensures g.cursor.Some? && Log.SendReady(b, g.cursor.value)
  {
    assert b in g.sealed;
    ReadyUnlessAtCursor(source, g, b);
  }

  /** What sealing a log batch with a new number does to the pipeline, installed for certain or in doubt. */
  ghost predicate OneMore(p: Pipe.State, q: Pipe.State, n: nat) {
    && !Pipe.LogInDoubt(p) && (Pipe.LogInDoubt(q) ==> q.uncertain.value.sequence == n)
    && (forall r | r in p.sealed :: r in q.sealed) && (HasRecord(q, n) || Pipe.LogInDoubt(q))
    && n < Pipe.Bound(q.persistedNext) && q.unlinked == p.unlinked && n !in p.unlinked
    && (forall m :: m in q.files <==> m in p.files || (m == n && !Pipe.LogInDoubt(q)))
  }

  /** A reserved number is new to the disk and to the history. */
  lemma NumberIsNew(p: Pipe.State, r: Record)
    requires Pipe.ModeOk(p) && Pipe.DiskOk(p) && Pipe.LogEnabled(p, r)
    ensures r.sequence >= Pipe.Bound(p.persistedNext) && r.sequence !in p.files && r.sequence !in p.unlinked
    ensures !Pipe.LogInDoubt(p) && p.mem.held.None? && p.uncertain.None?
  {
    assert forall q | q in p.sealed :: q.sequence < r.sequence;
  }

  lemma InstallIsOneMore(p: Pipe.State, r: Record, crossed: bool, failed: bool)
    requires Pipe.ModeOk(p) && Pipe.DiskOk(p) && Pipe.LogEnabled(p, r)
    ensures var q := Pipe.AfterSealLog(p, r, Pipe.Installed(crossed, failed));
            && OneMore(p, q, r.sequence) && !Pipe.LogInDoubt(q) && q.poisoned == failed
            && q.waiting == if crossed then p.waiting else p.waiting + {r.sequence}
  {
    NumberIsNew(p, r);
    assert r in Pipe.AfterSealLog(p, r, Pipe.Installed(crossed, failed)).sealed;
  }

  lemma DoubtIsOneMore(p: Pipe.State, r: Record)
    requires Pipe.ModeOk(p) && Pipe.DiskOk(p) && Pipe.LogEnabled(p, r)
    ensures var q := Pipe.AfterSealLog(p, r, Pipe.InDoubt);
            && OneMore(p, q, r.sequence) && Pipe.LogInDoubt(q) && q.poisoned && q.waiting == p.waiting
            && q.files == p.files && q.sealed == p.sealed
  {
    NumberIsNew(p, r);
  }

  lemma LongerHistory(source: nat, p: Pipe.State, q: Pipe.State, g: Log.State, b: Log.Batch)
    requires Log.Inv(source, g) && SameHistory(p, g) && g.highest < b.sequence && OneMore(p, q, b.sequence)
    ensures SameHistory(q, g.(sealed := g.sealed + [b], highest := b.sequence))
  {
    forall a | a in g.sealed ensures HasRecord(q, a.sequence) && a.sequence < b.sequence {
      var r :| r in p.sealed && r.sequence == a.sequence;
    }
  }

  /** One more file and one more batch. */
  lemma LongerFiles(source: nat, p: Pipe.State, q: Pipe.State, g: Log.State, b: Log.Batch)
    requires Log.Inv(source, g) && SameFiles(p, g) && g.highest < b.sequence && OneMore(p, q, b.sequence)
    ensures SameFiles(q, g.(queue := g.queue + {b}, sealed := g.sealed + [b]))
  {
    assert forall a | a in g.sealed :: a.sequence <= g.highest;
  }

  lemma NothingWaits(source: nat, p: Pipe.State, g: Log.State)
    requires Log.Inv(source, g) && Log.Ingesting(g) && SameReadiness(p, g)
    ensures p.waiting == {}
  {
    if p.waiting != {} {
      var n :| n in p.waiting;
      var b :| b in g.queue && b.sequence == n;
      IngestingMeansReady(source, g, b);
    }
  }

  /** The new batch is held back unless the cursor has crossed it; the older ones are all free, and stay so. */
  lemma LongerReadiness(source: nat, p: Pipe.State, q: Pipe.State, g: Log.State, b: Log.Batch, cursor: Log.Cursor)
    requires Log.Inv(source, g) && Log.Ingesting(g) && SameReadiness(p, g) && g.cursor.Some? && g.highest < b.sequence
    requires Blocked(q) == (if Log.SendReady(b, cursor) then {} else {b.sequence}) && q.waiting <= Blocked(q)
    requires Log.Later(g.cursor.value, cursor)
    ensures SameReadiness(q, g.(queue := g.queue + {b}, cursor := Some(cursor)))
  {
    var f := g.(queue := g.queue + {b}, cursor := Some(cursor));
    forall a | a in g.queue ensures Log.SendReady(a, cursor) && a.sequence !in Blocked(q) {
      IngestingMeansReady(source, g, a);
      Log.ReadinessIsPermanent(a, g.cursor.value, cursor);
      assert a in g.queue + g.unlinked && a in g.sealed;
    }
    assert b in f.queue;
  }

  /** The agreement after one more batch, with the cursor where the seal leaves it. */
  lemma LongerAgrees(source: nat, p: Pipe.State, q: Pipe.State, g: Log.State, b: Log.Batch, cursor: Log.Cursor, poisoned: bool)
    requires Log.Inv(source, g) && Log.Ingesting(g) && Agrees(p, g) && g.cursor.Some? && g.highest < b.sequence
    requires OneMore(p, q, b.sequence) && (poisoned ==> q.poisoned) && Log.Later(g.cursor.value, cursor)
    requires Blocked(q) == (if Log.SendReady(b, cursor) then {} else {b.sequence}) && q.waiting <= Blocked(q)
    ensures Agrees(q, g.(queue := g.queue + {b}, sealed := g.sealed + [b], highest := b.sequence, poisoned := poisoned, cursor := Some(cursor)))
  {
    LongerHistory(source, p, q, g, b);
    LongerFiles(source, p, q, g, b);
    LongerReadiness(source, p, q, g, b, cursor);
  }

  /** The next range is not proved by the cursor it starts at, and is once that has crossed it. */
  lemma CrossingProves(source: nat, cursor: Log.Cursor, n: nat, end: nat)
    requires cursor.identity.Some? && cursor.offset < end
    ensures var b := Log.NextBatch(source, cursor, n, end);
            !Log.SendReady(b, cursor) && Log.SendReady(b, Log.Crossed(cursor, b)) && Log.Later(cursor, Log.Crossed(cursor, b))
  {
  }

  function CursorAfter(g: Log.State, b: Log.Batch, crossed: bool): Log.Cursor
    requires g.cursor.Some? && b.checkpoint.Some?
  {
    if crossed then Log.Crossed(g.cursor.value, b) else g.cursor.value
  }

  /** Installed for certain: the batch waits unless the cursor has crossed it. */
  lemma InstalledAgrees(source: nat, p: Pipe.State, g: Log.State, r: Record, end: nat, crossed: bool, failed: bool)
    requires Pipe.ModeOk(p) && Pipe.DiskOk(p) && Log.Inv(source, g) && Agrees(p, g)
    requires Pipe.LogEnabled(p, r) && Log.Enabled(source, g, Log.Seal(r.sequence, end, Log.Sealed))
    ensures var b := Log.NextBatch(source, g.cursor.value, r.sequence, end);
            Agrees(Pipe.AfterSealLog(p, r, Pipe.Installed(crossed, failed)),
                   g.(queue := g.queue + {b}, sealed := g.sealed + [b], highest := r.sequence, poisoned := failed,
                      cursor := Some(CursorAfter(g, b, crossed))))
  {
    var b := Log.NextBatch(source, g.cursor.value, r.sequence, end);
    InstallIsOneMore(p, r, crossed, failed);
    NothingWaits(source, p, g);
    CrossingProves(source, g.cursor.value, r.sequence, end);
    LongerAgrees(source, p, Pipe.AfterSealLog(p, r, Pipe.Installed(crossed, failed)), g, b, CursorAfter(g, b, crossed), failed);
  }

  /** An install in doubt is held back like a waiting one. */
  lemma DoubtAgrees(source: nat, p: Pipe.State, g: Log.State, r: Record, end: nat, durable: bool)
    requires Pipe.ModeOk(p) && Pipe.DiskOk(p) && Log.Inv(source, g) && Agrees(p, g)
    requires Pipe.LogEnabled(p, r) && Log.Enabled(source, g, Log.Seal(r.sequence, end, Log.Uncertain(durable)))
    ensures Agrees(Pipe.AfterSealLog(p, r, Pipe.InDoubt), Log.AfterSeal(source, g, r.sequence, end, Log.Uncertain(durable)))
  {
    var b := Log.NextBatch(source, g.cursor.value, r.sequence, end);
    var q := Pipe.AfterSealLog(p, r, Pipe.InDoubt);
    DoubtIsOneMore(p, r);
    NothingWaits(source, p, g);
    CrossingProves(source, g.cursor.value, r.sequence, end);
    if durable {
      LongerAgrees(source, p, q, g, b, g.cursor.value, true);
    } else {
      DoubtWithoutBatch(source, p, q, g, r.sequence);
    }
  }

  lemma DoubtWithoutBatch(source: nat, p: Pipe.State, q: Pipe.State, g: Log.State, n: nat)
    requires Log.Inv(source, g) && Log.Ingesting(g) && Agrees(p, g) && !Pipe.LogInDoubt(p) && p.waiting == {} && g.highest < n
    requires Pipe.LogInDoubt(q) && q.uncertain.value.sequence == n && q.poisoned && n < Pipe.Bound(q.persistedNext)
    requires q.files == p.files && q.unlinked == p.unlinked && q.waiting == p.waiting && q.sealed == p.sealed
    ensures Agrees(q, g.(highest := n, poisoned := true))
  {
    forall b | b in g.queue ensures b.sequence < n {
      assert b in g.queue + g.unlinked && b in g.sealed;
    }
  }

  lemma RefusedAgrees(p: Pipe.State, g: Log.State, r: Record, advanced: bool)
    requires Pipe.ModeOk(p) && Pipe.DiskOk(p) && Agrees(p, g) && Pipe.LogEnabled(p, r)
    ensures Agrees(Pipe.AfterSealLog(p, r, Pipe.NotInstalled(advanced)), g)
  {
    NumberIsNew(p, r);
    FrameKeepsAgreement(p, Pipe.AfterSealLog(p, r, Pipe.NotInstalled(advanced)), g);
  }

  lemma SealKeepsInv(source: nat, s: State, r: Record, end: nat, outcome: Log.SealOutcome, advanced: bool)
    requires Inv(source, s) && Enabled(source, s, SealRange(r, end, outcome, advanced))
    ensures Inv(source, Step(source, s, SealRange(r, end, outcome, advanced)))
  {
    Pipe.StepKeepsInv(s.pipe, Pipe.SealLog(r, PipeOutcome(outcome, advanced)));
    Log.SealKeepsInv(source, s.log, r.sequence, end, outcome);
    SealAgrees(source, s, r, end, outcome, advanced);
  }

  lemma SealAgrees(source: nat, s: State, r: Record, end: nat, outcome: Log.SealOutcome, advanced: bool)
    requires Pipe.Outer(s.pipe) && Log.Inv(source, s.log) && Agrees(s.pipe, s.log)
    requires Enabled(source, s, SealRange(r, end, outcome, advanced))
    ensures Agrees(Pipe.AfterSealLog(s.pipe, r, PipeOutcome(outcome, advanced)),
                   if outcome.Refused? then s.log else Log.AfterSeal(source, s.log, r.sequence, end, outcome))
  {
    match outcome
    case Refused => RefusedAgrees(s.pipe, s.log, r, advanced);
    case Uncertain(durable) => DoubtAgrees(source, s.pipe, s.log, r, end, durable);
    case CursorFailed(persisted) => InstalledAgrees(source, s.pipe, s.log, r, end, persisted, true);
    case Sealed => InstalledAgrees(source, s.pipe, s.log, r, end, true, false);
  }

  // ---------------------------------------------------------------------------------------------------------
  // Recovery, reading, crash.

  /** What recovery selects is the one batch the pipeline holds back. */
  lemma SelectedIsWaiting(source: nat, p: Pipe.State, g: Log.State, b: Log.Batch)
    requires Pipe.ModeOk(p) && Log.Inv(source, g) && Agrees(p, g) && p.reporter.Resting? && !p.poisoned
    requires b in g.queue && Log.Selectable(b, source, g.cursor)
    ensures b.sequence in p.waiting && !Pipe.LogInDoubt(p)
    ensures forall a | a in g.queue && a != b :: a.sequence !in p.waiting && Log.SendReady(a, g.cursor.value)
  {
    Log.SelectableIsLast(source, g, b);
    assert b in g.sealed;
    ReadyUnlessAtCursor(source, g, b);
    forall a | a in g.queue && a != b ensures Log.SendReady(a, g.cursor.value) {
      assert a in g.queue + g.unlinked && a in g.sealed;
      ReadyUnlessAtCursor(source, g, a);
    }
  }

  lemma MovedReadiness(p: Pipe.State, g: Log.State, b: Log.Batch, cursor: Log.Cursor)
    requires SameReadiness(p, g) && SameHistory(p, g) && b in g.queue && b.sequence in p.waiting && !Pipe.LogInDoubt(p)
    requires forall a | a in g.queue :: a in g.sealed
    requires forall a | a in g.queue :: Log.SendReady(a, cursor)
    requires forall a | a in g.queue && a != b :: a.sequence !in p.waiting
    ensures SameReadiness(p.(waiting := p.waiting - {b.sequence}), g.(cursor := Some(cursor)))
  {
    var q := p.(waiting := p.waiting - {b.sequence});
    assert Blocked(q) == q.waiting;
    forall n | n in p.waiting ensures n == b.sequence {
      var a :| a in g.queue && a.sequence == n;
    }
  }

  /** Crossing the selected batch leaves every queued batch sendable. */
  lemma CrossedIsReady(source: nat, g: Log.State, b: Log.Batch)
    requires Log.Inv(source, g) && b in g.queue && Log.Selectable(b, source, g.cursor)
    requires forall a | a in g.queue && a != b :: g.cursor.Some? && Log.SendReady(a, g.cursor.value)
    ensures g.cursor.Some? && b.checkpoint.Some? && forall a | a in g.queue :: a in g.sealed && Log.SendReady(a, Log.Crossed(g.cursor.value, b))
  {
    Log.SelectableIsLast(source, g, b);
    assert b in g.sealed;
    forall a | a in g.queue ensures a in g.sealed && Log.SendReady(a, Log.Crossed(g.cursor.value, b)) {
      assert a in g.queue + g.unlinked;
      if a != b {
        Log.ReadinessIsPermanent(a, g.cursor.value, Log.Crossed(g.cursor.value, b));
      }
    }
  }

  /** What was moved is on disk as before: only the cursor and what waits for it have changed. */
  lemma MovedFiles(p: Pipe.State, q: Pipe.State, g: Log.State, f: Log.State)
    requires SameHistory(p, g) && SameFiles(p, g)
    requires q == p.(waiting := q.waiting, poisoned := q.poisoned) && f == g.(cursor := f.cursor, poisoned := f.poisoned)
    ensures SameHistory(q, f) && SameFiles(q, f)
  {
  }

  lemma MoveAgrees(source: nat, p: Pipe.State, g: Log.State, b: Log.Batch, written: bool, persisted: bool)
    requires Pipe.ModeOk(p) && Log.Inv(source, g) && Agrees(p, g) && p.reporter.Resting? && !p.poisoned
    requires Log.Enabled(source, g, Log.Recover(b, written, persisted))
    ensures Agrees(MovedPipe(p, b.sequence, written || persisted, !written), Log.Step(source, g, Log.Recover(b, written, persisted)))
  {
    SelectedIsWaiting(source, p, g, b);
    CrossedIsReady(source, g, b);
    MovedFiles(p, MovedPipe(p, b.sequence, written || persisted, !written), g, Log.Step(source, g, Log.Recover(b, written, persisted)));
    if written || persisted {
      MovedReadiness(p, g, b, Log.Crossed(g.cursor.value, b));
    }
  }

  lemma MoveKeepsPipe(p: Pipe.State, n: nat, crossed: bool, failed: bool)
    requires Pipe.Inv(p) && Pipe.Enabled(p, Pipe.CrossCursor(n, crossed, failed))
    ensures Pipe.Inv(MovedPipe(p, n, crossed, failed)) && Pipe.Step(p, Pipe.CrossCursor(n, crossed, failed)) == MovedPipe(p, n, crossed, failed)
  {
    Pipe.StepKeepsInv(p, Pipe.CrossCursor(n, crossed, failed));
  }

  lemma MoveKeepsHalves(source: nat, p: Pipe.State, g: Log.State, b: Log.Batch, written: bool, persisted: bool)
    requires Pipe.Inv(p) && Log.Inv(source, g) && Agrees(p, g) && p.reporter.Resting? && !p.poisoned
    requires Log.Enabled(source, g, Log.Recover(b, written, persisted))
    ensures Pipe.Inv(MovedPipe(p, b.sequence, written || persisted, !written))
    ensures Log.Inv(source, Log.Step(source, g, Log.Recover(b, written, persisted)))
  {
    SelectedIsWaiting(source, p, g, b);
    MoveKeepsPipe(p, b.sequence, written || persisted, !written);
    Log.RecoverKeepsInv(source, g, b, written, persisted);
  }

  lemma MoveKeepsInv(source: nat, s: State, b: Log.Batch, written: bool, persisted: bool)
    requires Inv(source, s) && Enabled(source, s, MoveCursor(b, written, persisted))
    ensures Inv(source, Step(source, s, MoveCursor(b, written, persisted)))
  {
    MoveKeepsHalves(source, s.pipe, s.log, b, written, persisted);
    MoveAgrees(source, s.pipe, s.log, b, written, persisted);
  }

  /** Opening a generation and skipping lines move the cursor forward, past nothing that waits. */
  lemma ReadingAgrees(source: nat, p: Pipe.State, g: Log.State, e: Log.Event)
    requires Log.Inv(source, g) && Agrees(p, g) && ReadingEvent(e) && Log.Enabled(source, g, e)
    ensures Agrees(p, Log.Step(source, g, e))
  {
    var f := Log.Step(source, g, e);
    if !e.RecoveryDone? {
      forall b | b in g.queue ensures g.cursor.Some? && Log.SendReady(b, g.cursor.value) && f.cursor.Some? && Log.SendReady(b, f.cursor.value) {
        IngestingMeansReady(source, g, b);
        Log.CursorMovesForward(source, g, e);
        Log.ReadinessIsPermanent(b, g.cursor.value, f.cursor.value);
      }
    }
    forall n | n in p.waiting ensures InQueue(f, n) {
      var b :| b in g.queue && b.sequence == n;
      assert b in f.queue;
    }
  }

  lemma ReadingKeepsInv(source: nat, s: State, e: Log.Event)
    requires Inv(source, s) && Enabled(source, s, Reading(e))
    ensures Inv(source, Step(source, s, Reading(e)))
  {
    Log.StepKeepsInv(source, s.log, e);
    ReadingAgrees(source, s.pipe, s.log, e);
  }

  lemma CrashHistory(p: Pipe.State, g: Log.State, survives: bool, back: set<nat>)
    requires back <= p.unlinked.Keys && SameHistory(p, g)
    requires Pipe.LogInDoubt(p) && !survives ==> forall b | b in g.sealed :: b.sequence != p.uncertain.value.sequence
    ensures SameHistory(Pipe.AfterCrash(p, survives, back), g)
  {
    var q := Pipe.AfterCrash(p, survives, back);
    forall b | b in g.sealed ensures HasRecord(q, b.sequence) {
      if HasRecord(p, b.sequence) {
        var r :| r in p.sealed && r.sequence == b.sequence;
        assert r in q.sealed;
      } else {
        assert p.uncertain.value in q.sealed;
      }
    }
  }

  /** The certainty a crash brings: a batch in doubt is on disk afterwards exactly if it was installed. */
  predicate Decided(p: Pipe.State, g: Log.State, survives: bool) {
    Pipe.LogInDoubt(p) ==> (survives <==> InQueue(g, p.uncertain.value.sequence))
  }

  function AfterLogCrash(g: Log.State, back: set<nat>): Log.State {
    g.(queue := g.queue + Back(g, back), unlinked := {}, recovered := false, poisoned := false)
  }

  /** A number in doubt, of either kind, belongs to no record and to no removed file. */
  lemma DoubtIsNew(p: Pipe.State)
    requires Pipe.ReservationOk(p) && Pipe.DiskOk(p) && p.uncertain.Some?
    ensures !HasRecord(p, p.uncertain.value.sequence) && p.uncertain.value.sequence !in p.unlinked
  {
  }

  lemma CrashedQueue(p: Pipe.State, g: Log.State, survives: bool, back: set<nat>)
    requires back <= p.unlinked.Keys && SameFiles(p, g) && Decided(p, g, survives)
    ensures forall b | b in AfterLogCrash(g, back).queue :: b.sequence in Pipe.AfterCrash(p, survives, back).files
  {
    forall b | b in g.queue ensures b.sequence in Pipe.AfterCrash(p, survives, back).files {
      if b.sequence !in p.files {
        assert InQueue(g, p.uncertain.value.sequence);
      }
    }
  }

  lemma CrashedFiles(p: Pipe.State, g: Log.State, survives: bool, back: set<nat>, b: Log.Batch)
    requires back <= p.unlinked.Keys && SameFiles(p, g) && SameHistory(p, g) && Decided(p, g, survives)
    requires Pipe.ReservationOk(p) && Pipe.DiskOk(p) && forall a | a in g.queue :: a in g.sealed
    requires b in g.sealed && b.sequence in Pipe.AfterCrash(p, survives, back).files
    ensures b in AfterLogCrash(g, back).queue
  {
    if b.sequence !in p.files && b.sequence !in back {
      assert survives && p.uncertain.Some? && b.sequence == p.uncertain.value.sequence;
      DoubtIsNew(p);
    }
  }

  /** Files that come back were acknowledged, so their batches are sendable and wait for nothing. */
  lemma ReturnedIsReady(source: nat, p: Pipe.State, g: Log.State, b: Log.Batch)
    requires Log.Inv(source, g) && SameFiles(p, g) && SameReadiness(p, g)
    requires Pipe.ReservationOk(p) && Pipe.DiskOk(p) && b in g.unlinked
    ensures g.cursor.Some? && Log.SendReady(b, g.cursor.value) && b.sequence !in Blocked(p)
  {
    assert b in g.queue + g.unlinked && b in g.sealed;
    ReadyUnlessAtCursor(source, g, b);
    if p.uncertain.Some? {
      DoubtIsNew(p);
    }
    assert b.sequence in p.firstAcks;
  }

  lemma CrashedBlocked(p: Pipe.State, g: Log.State, survives: bool, back: set<nat>)
    requires back <= p.unlinked.Keys && Decided(p, g, survives)
    ensures forall b | b in g.queue :: b.sequence in Pipe.AfterCrash(p, survives, back).waiting <==> b.sequence in Blocked(p)
    ensures Pipe.AfterCrash(p, survives, back).waiting <= Blocked(p)
  {
    forall b | b in g.queue && Pipe.LogInDoubt(p) && b.sequence == p.uncertain.value.sequence ensures survives {
      assert InQueue(g, b.sequence);
    }
  }

  lemma CrashedReadiness(source: nat, p: Pipe.State, g: Log.State, survives: bool, back: set<nat>, b: Log.Batch)
    requires back <= p.unlinked.Keys && Decided(p, g, survives) && Log.Inv(source, g) && SameFiles(p, g) && SameReadiness(p, g)
    requires Pipe.ReservationOk(p) && Pipe.DiskOk(p) && b in AfterLogCrash(g, back).queue
    ensures b.sequence in Pipe.AfterCrash(p, survives, back).waiting <==> !(g.cursor.Some? && Log.SendReady(b, g.cursor.value))
  {
    CrashedBlocked(p, g, survives, back);
    if b in g.unlinked {
      ReturnedIsReady(source, p, g, b);
    }
  }

  lemma CrashKeepsHistory(p: Pipe.State, g: Log.State, survives: bool, back: set<nat>)
    requires back <= p.unlinked.Keys && SameHistory(p, g) && SameFiles(p, g) && Decided(p, g, survives)
    ensures SameHistory(Pipe.AfterCrash(p, survives, back), g)
  {
    forall b | b in g.sealed && Pipe.LogInDoubt(p) && b.sequence == p.uncertain.value.sequence ensures survives {
      assert Installed(p, b.sequence) && InQueue(g, b.sequence);
    }
    CrashHistory(p, g, survives, back);
  }

  lemma CrashKeepsFiles(source: nat, p: Pipe.State, g: Log.State, survives: bool, back: set<nat>)
    requires back <= p.unlinked.Keys && Decided(p, g, survives) && Log.Inv(source, g) && SameHistory(p, g) && SameFiles(p, g)
    requires Pipe.ReservationOk(p) && Pipe.DiskOk(p)
    ensures SameFiles(Pipe.AfterCrash(p, survives, back), AfterLogCrash(g, back))
  {
    var q, f := Pipe.AfterCrash(p, survives, back), AfterLogCrash(g, back);
    forall a | a in g.queue ensures a in g.sealed {
      assert a in g.queue + g.unlinked;
    }
    CrashedQueue(p, g, survives, back);
    forall b | b in g.sealed && b.sequence in q.files ensures b in f.queue {
      CrashedFiles(p, g, survives, back, b);
    }
  }

  lemma CrashKeepsReadiness(source: nat, p: Pipe.State, g: Log.State, survives: bool, back: set<nat>)
    requires back <= p.unlinked.Keys && Decided(p, g, survives) && Log.Inv(source, g) && SameFiles(p, g) && SameReadiness(p, g)
    requires Pipe.ReservationOk(p) && Pipe.DiskOk(p)
    ensures SameReadiness(Pipe.AfterCrash(p, survives, back), AfterLogCrash(g, back))
  {
    var q, f := Pipe.AfterCrash(p, survives, back), AfterLogCrash(g, back);
    forall b | b in f.queue ensures b.sequence in q.waiting <==> !(g.cursor.Some? && Log.SendReady(b, g.cursor.value)) {
      CrashedReadiness(source, p, g, survives, back, b);
    }
    forall n | n in q.waiting ensures InQueue(f, n) {
      var b :| b in g.queue && b.sequence == n;
      assert b in f.queue;
    }
  }

  lemma CrashAgrees(source: nat, p: Pipe.State, g: Log.State, survives: bool, back: set<nat>)
    requires back <= p.unlinked.Keys && Decided(p, g, survives) && Log.Inv(source, g) && Agrees(p, g)
    requires Pipe.ReservationOk(p) && Pipe.DiskOk(p)
    ensures Agrees(Pipe.AfterCrash(p, survives, back), AfterLogCrash(g, back))
  {
    CrashKeepsHistory(p, g, survives, back);
    CrashKeepsFiles(source, p, g, survives, back);
    CrashKeepsReadiness(source, p, g, survives, back);
  }

  lemma LogSurvivesCrash(source: nat, g: Log.State, back: set<nat>)
    requires Log.Inv(source, g)
    ensures Log.Enabled(source, g, Log.Crash(Back(g, back)))
    ensures Log.Step(source, g, Log.Crash(Back(g, back))) == AfterLogCrash(g, back) && Log.Inv(source, AfterLogCrash(g, back))
  {
    Log.StepKeepsInv(source, g, Log.Crash(Back(g, back)));
  }

  lemma CrashKeepsInv(source: nat, s: State, survives: bool, back: set<nat>)
    requires Inv(source, s) && Enabled(source, s, Crash(survives, back))
    ensures Inv(source, Step(source, s, Crash(survives, back)))
  {
    Pipe.StepKeepsInv(s.pipe, Pipe.Crash(survives, back));
    LogSurvivesCrash(source, s.log, back);
    CrashAgrees(source, s.pipe, s.log, survives, back);
  }

  // ---------------------------------------------------------------------------------------------------------
  // Whole runs.

  lemma StepKeepsInv(source: nat, s: State, e: Event)
    requires Inv(source, s) && Enabled(source, s, e)
    ensures Inv(source, Step(source, s, e))
  {
    match e
    case Reporting(p) => ReportKeepsInv(source, s, p);
    case SealRange(r, end, outcome, advanced) => SealKeepsInv(source, s, r, end, outcome, advanced);
    case MoveCursor(b, written, persisted) => MoveKeepsInv(source, s, b, written, persisted);
    case Reading(g) => ReadingKeepsInv(source, s, g);
    case Crash(survives, back) => CrashKeepsInv(source, s, survives, back);
  }

  /** A node whose spool is new, but for a legacy pending file, and which has never sealed a range of this log. */
  ghost predicate Initial(s: State) {
    && (exists legacy :: Pipe.LegacyOk(legacy) && s.pipe == Pipe.Initial(legacy))
    && Log.Initial(s.log) && s.log.highest == 0
  }

  ghost predicate Reaches(source: nat, start: State, events: seq<Event>, s: State)
    decreases |events|
  {
    if events == [] then s == start
    else Enabled(source, start, events[0]) && Reaches(source, Step(source, start, events[0]), events[1..], s)
  }

  ghost predicate Reachable(source: nat, s: State) {
    exists start, events :: Initial(start) && Reaches(source, start, events, s)
  }

  lemma InitialInv(source: nat, s: State)
    requires Initial(s)
    ensures Inv(source, s)
  {
    var legacy :| Pipe.LegacyOk(legacy) && s.pipe == Pipe.Initial(legacy);
    Pipe.InitialInv(legacy);
  }

  lemma {:induction false} RunKeepsInv(source: nat, start: State, events: seq<Event>, s: State)
    requires Inv(source, start) && Reaches(source, start, events, s)
    ensures Inv(source, s)
    decreases |events|
  {
    if events != [] {
      StepKeepsInv(source, start, events[0]);
      RunKeepsInv(source, Step(source, start, events[0]), events[1..], s);
    }
  }

  lemma ReachableInv(source: nat, s: State)
    requires Reachable(source, s)
    ensures Inv(source, s)
  {
    var start, events :| Initial(start) && Reaches(source, start, events, s);
    InitialInv(source, start);
    RunKeepsInv(source, start, events, s);
  }

  /**
   Every range of the log is billed at most once. A sealed range that is not in doubt is exactly one record; it is on
   disk until the Panel has applied it; and once applied, no recovery selects it again, so its bytes are never read
   twice.
   */
  lemma EveryRangeIsBilledAtMostOnce(source: nat, s: State, b: Log.Batch)
    requires Reachable(source, s) && b in s.log.sealed
    requires !(Pipe.LogInDoubt(s.pipe) && s.pipe.uncertain.value.sequence == b.sequence)
    ensures exists r :: r in s.pipe.sealed && r.sequence == b.sequence
    ensures forall r | r in s.pipe.sealed && r.sequence == b.sequence ::
              if r.id in s.pipe.applied then !Log.Selectable(b, source, s.log.cursor)
              else b.sequence in s.pipe.files && s.pipe.files[b.sequence] == r && b in s.log.queue
  {
    ReachableInv(source, s);
    assert HasRecord(s.pipe, b.sequence);
    forall r | r in s.pipe.sealed && r.sequence == b.sequence
      ensures if r.id in s.pipe.applied then !Log.Selectable(b, source, s.log.cursor)
              else b.sequence in s.pipe.files && s.pipe.files[b.sequence] == r && b in s.log.queue
    {
      RecordIsOnDiskOrApplied(s.pipe, r);
      if r.id in s.pipe.applied {
        AppliedIsNotSelected(source, s.pipe, s.log, b, r);
      }
    }
  }

  lemma RecordIsOnDiskOrApplied(p: Pipe.State, r: Record)
    requires Pipe.DiskOk(p) && r in p.sealed
    ensures r.id !in p.applied ==> r.sequence in p.files && p.files[r.sequence] == r
    ensures r.sequence in p.files ==> p.files[r.sequence] == r
  {
    Pipe.SequenceIdentifies(p.sealed, Pipe.Bound(p.persistedNext), r);
  }

  lemma AppliedIsNotSelected(source: nat, p: Pipe.State, g: Log.State, b: Log.Batch, r: Record)
    requires Pipe.DiskOk(p) && Log.Inv(source, g) && Agrees(p, g) && b in g.sealed
    requires r in p.sealed && r.sequence == b.sequence && r.id in p.applied
    requires !(Pipe.LogInDoubt(p) && p.uncertain.value.sequence == b.sequence)
    ensures !Log.Selectable(b, source, g.cursor)
  {
    ReadyUnlessAtCursor(source, g, b);
    RecordIsOnDiskOrApplied(p, r);
    assert b.sequence !in p.waiting && b.sequence !in Blocked(p);
  }

  /** What blocks the queue is exactly what the next recovery selects, so no batch is stuck. */
  lemma BlockedIsRecoverable(source: nat, s: State, b: Log.Batch)
    requires Reachable(source, s) && b in s.log.queue
    ensures b.sequence in Blocked(s.pipe) <==> Log.Selectable(b, source, s.log.cursor)
    ensures forall n | n in s.pipe.waiting :: exists a :: a in s.log.queue && a.sequence == n
  {
    ReachableInv(source, s);
    assert b in s.log.queue + s.log.unlinked && b in s.log.sealed;
    ReadyUnlessAtCursor(source, s.log, b);
  }

  /** Ranges of one generation never overlap, and their batches leave in order: no log byte reaches the Panel twice. */
  lemma RangesAreBilledInOrder(source: nat, s: State, i: nat, j: nat)
    requires Reachable(source, s) && i < j < |s.log.sealed|
    ensures s.log.sealed[i].sequence < s.log.sealed[j].sequence
    ensures s.log.sealed[i].checkpoint.Some? && s.log.sealed[j].checkpoint.Some?
    ensures var a, b := s.log.sealed[i].checkpoint.value, s.log.sealed[j].checkpoint.value;
            a.generation <= b.generation && (a.generation == b.generation ==> a.start < a.end <= b.start < b.end)
    ensures s.log.sealed[j].sequence in s.pipe.firstAcks ==>
              exists r :: r in s.pipe.sealed && r.sequence == s.log.sealed[i].sequence && r.id in s.pipe.applied
  {
    ReachableInv(source, s);
    var a, b := s.log.sealed[i], s.log.sealed[j];
    assert a in s.log.sealed && b in s.log.sealed;
    if b.sequence in s.pipe.firstAcks {
      OlderIsApplied(s.pipe, s.log, a, b.sequence);
    }
  }

  lemma OlderIsApplied(p: Pipe.State, g: Log.State, a: Log.Batch, n: nat)
    requires Pipe.ReservationOk(p) && Pipe.DiskOk(p) && SameHistory(p, g) && a in g.sealed
    requires a.sequence < n && n in p.firstAcks
    ensures exists r :: r in p.sealed && r.sequence == a.sequence && r.id in p.applied
  {
    var q :| q in p.sealed && q.sequence == n && q.id in p.applied;
    assert p.uncertain.Some? ==> q.sequence < p.uncertain.value.sequence;
    assert HasRecord(p, a.sequence);
    var r :| r in p.sealed && r.sequence == a.sequence;
    assert r.sequence in p.files ==> r.sequence in p.firstAcks;
  }

  /** With a free gate in a live process the ingester never hangs: either some batch is to be recovered first, or recovery is done. */
  lemma IngesterGoesOn(source: nat, s: State, written: bool, persisted: bool)
    requires Reachable(source, s) && s.pipe.reporter.Resting? && !s.pipe.poisoned
    ensures Enabled(source, s, Reading(Log.RecoveryDone)) <==> forall b | b in s.log.queue :: !Log.Selectable(b, source, s.log.cursor)
    ensures forall b | b in s.log.queue && Log.Selectable(b, source, s.log.cursor) :: Enabled(source, s, MoveCursor(b, written, persisted))
  {
    ReachableInv(source, s);
    RecoveryGoesOn(source, s, written, persisted);
  }

  lemma RecoveryGoesOn(source: nat, s: State, written: bool, persisted: bool)
    requires (s.log.poisoned ==> s.pipe.poisoned) && s.pipe.reporter.Resting? && !s.pipe.poisoned
    ensures Enabled(source, s, Reading(Log.RecoveryDone)) <==> forall b | b in s.log.queue :: !Log.Selectable(b, source, s.log.cursor)
    ensures forall b | b in s.log.queue && Log.Selectable(b, source, s.log.cursor) :: Enabled(source, s, MoveCursor(b, written, persisted))
  {
  }

  /** While its process lives, the ingester can seal what is new in the log whenever the gate is free, however that ends. */
  lemma NewRangeCanBeSealed(source: nat, s: State, r: Record, end: nat, outcome: Log.SealOutcome, advanced: bool)
    requires Reachable(source, s) && Pipe.LogEnabled(s.pipe, r) && Log.Ingesting(s.log)
    requires s.log.cursor.Some? && s.log.cursor.value.identity.Some? && s.log.cursor.value.offset < end
    requires outcome.CursorFailed? || outcome.Sealed?
    ensures Enabled(source, s, SealRange(r, end, outcome, advanced))
    ensures var t := Step(source, s, SealRange(r, end, outcome, advanced));
            && r.sequence in t.pipe.files && (t.pipe.poisoned <==> t.log.poisoned) && (t.log.poisoned <==> outcome.CursorFailed?)
            && (r.sequence in t.pipe.waiting <==> outcome == Log.CursorFailed(false))
  {
    ReachableInv(source, s);
    NewNumberIsAbove(s.pipe, s.log, r.sequence);
  }

  lemma NewNumberIsAbove(p: Pipe.State, g: Log.State, n: nat)
    requires SameHistory(p, g) && Pipe.DiskOk(p) && ReserveSequence(p.files.Keys, p.persistedNext) == Ok(n)
    ensures g.highest < n && n !in p.waiting
  {
  }
}
