/**
 Access-log batches: each names the log range it covers, the durable cursor proves which ranges are finished, and a
 restart moves the cursor over a batch that was installed but not yet crossed.
 */
module NginxCheckpoint {
  import opened Wrappers

  datatype Identity = Identity(device: nat, inode: nat)

  /**
   A byte range of one generation of the log; a replaced or truncated log starts a new generation. The source is named
   by its cursor file.
   */
  datatype Checkpoint = Checkpoint(source: nat, identity: Identity, generation: nat, start: nat, end: nat)

  datatype Batch = Batch(sequence: nat, checkpoint: Option<Checkpoint>)

  /** The persisted cursor; an offset-only file of earlier releases has no identity. */
  datatype Cursor = Cursor(identity: Option<Identity>, generation: nat, offset: nat, committed: Option<nat>)

  const NEW_CURSOR := Cursor(None, 0, 0, None)

  /** May this batch be sent, judged by the durable cursor of its source? */
  predicate SendReady(b: Batch, proof: Cursor) {
    b.checkpoint.Some? ==>
      var c := b.checkpoint.value;
      && proof.committed.Some? && b.sequence <= proof.committed.value
      && c.generation <= proof.generation
      && (c.generation == proof.generation ==> proof.identity == Some(c.identity) && c.end <= proof.offset)
  }

  /** Without an identity only the very first range of the source can be meant. */
  predicate Claims(c: Checkpoint, cursor: Option<Cursor>) {
    if cursor.Some? && cursor.value.identity.Some? then
      c.identity == cursor.value.identity.value && c.generation == cursor.value.generation && c.start == cursor.value.offset
    else c.generation == 0 && c.start == 0
  }

  predicate Of(b: Batch, source: nat) {
    b.checkpoint.Some? && b.checkpoint.value.source == source
  }

  predicate Selectable(b: Batch, source: nat, cursor: Option<Cursor>) {
    Of(b, source) && Claims(b.checkpoint.value, cursor)
  }

  ghost predicate Unique(queue: seq<Batch>, source: nat, cursor: Option<Cursor>) {
    forall i, j | 0 <= i < j < |queue| :: !(Selectable(queue[i], source, cursor) && Selectable(queue[j], source, cursor))
  }

  ghost predicate NoneClaims(queue: seq<Batch>, source: nat, cursor: Option<Cursor>) {
    forall i | 0 <= i < |queue| :: !Selectable(queue[i], source, cursor)
  }

  /** There is history of this source, but neither an identity nor a first range to go by. */
  ghost predicate HistoryLost(queue: seq<Batch>, source: nat, cursor: Option<Cursor>) {
    && (cursor.None? || cursor.value.identity.None?)
    && (exists i :: 0 <= i < |queue| && Of(queue[i], source))
    && NoneClaims(queue, source, cursor)
  }

  /** The batch to resume from: the only one that claims the cursor. Two claims, or lost history, are errors. */
  method RecoverCheckpoint(queue: seq<Batch>, source: nat, cursor: Option<Cursor>) returns (r: Result<Option<Batch>>)
    ensures r.Ok? ==> Unique(queue, source, cursor)
    ensures r.Ok? && r.value.Some? ==> r.value.value in queue && Selectable(r.value.value, source, cursor)
    ensures r.Ok? && r.value.None? ==> NoneClaims(queue, source, cursor)
    ensures r.Err? <==> !Unique(queue, source, cursor) || HistoryLost(queue, source, cursor)
  {
    var matched: Option<Batch> := None;
    var seen := false;
    ghost var at := 0;
    for i := 0 to |queue|
      invariant seen <==> exists j | 0 <= j < i :: Of(queue[j], source)
      invariant matched.Some? ==> at < i && queue[at] == matched.value && Selectable(queue[at], source, cursor)
      invariant forall j | 0 <= j < i && Selectable(queue[j], source, cursor) :: matched.Some? && j == at
    {
      var b := queue[i];
      if Of(b, source) {
        seen := true;
        if Claims(b.checkpoint.value, cursor) {
          if matched.Some? {
            return Err("multiple checkpoints claim the cursor");
          }
          matched, at := Some(b), i;
        }
      }
    }
    if (cursor.None? || cursor.value.identity.None?) && matched.None? && seen {
      return Err("cursor is missing");
    }
    return Ok(matched);
  }

  // ---------------------------------------------------------------------------------------------------------
  // A sendable batch is never replayed.

  /** Cursors move forward in (generation, offset), keep their identity within a generation, and never forget a sequence. */
  predicate Later(a: Cursor, b: Cursor) {
    && (|| a.generation < b.generation
        || (a.generation == b.generation && a.offset <= b.offset && (a.identity.Some? ==> b.identity == a.identity)))
    && (a.committed.Some? ==> b.committed.Some? && a.committed.value <= b.committed.value)
  }

  predicate WellFormed(b: Batch) {
    b.checkpoint.Some? ==> b.checkpoint.value.start < b.checkpoint.value.end
  }

  /** Readiness never reverts as the cursor and the committed sequence advance. */
  lemma ReadinessIsPermanent(b: Batch, proof: Cursor, later: Cursor)
    requires SendReady(b, proof) && Later(proof, later)
    ensures SendReady(b, later)
  {
  }

  /**
   A batch that a durable cursor proof made sendable is not selected by recovery from that cursor or any later one
   in (generation, offset) order; if that cursor has no identity, the one exception is the very first range.
   */
  lemma ReadyIsReplayedOnlyWithoutIdentity(b: Batch, proof: Cursor, source: nat, later: Cursor)
    requires WellFormed(b) && Of(b, source) && SendReady(b, proof)
    requires proof.generation < later.generation || (proof.generation == later.generation && proof.offset <= later.offset)
    ensures Selectable(b, source, Some(later)) <==>
            later.identity.None? && b.checkpoint.value.generation == 0 && b.checkpoint.value.start == 0
  {
  }

  /** The exception is real: a cursor that lost its identity would replay the first range of the log. */
  lemma IdentityIsNeeded(source: nat, id: Identity)
    ensures var b := Batch(1, Some(Checkpoint(source, id, 0, 0, 10)));
            && SendReady(b, Cursor(Some(id), 0, 10, Some(1)))
            && Selectable(b, source, Some(Cursor(None, 0, 10, Some(1)))) && Selectable(b, source, None)
  {
  }

  // ---------------------------------------------------------------------------------------------------------
  // The ingester of one source over whole runs. All its steps, and the reporter's, hold the report gate.

  datatype State = State(
    cursor: Option<Cursor>,
    queue: set<Batch>,
    unlinked: set<Batch>,        // removed, directory not synced
    highest: nat,                // every sequence number handed out so far is at most this
    recovered: bool,             // this process has moved the cursor over all installed batches
    poisoned: bool,
    sealed: seq<Batch>)          // history: every batch of this source that became durable

  /** How far the seal of one range gets. */
  datatype SealOutcome =
    | Refused                       // nothing installed
    | Uncertain(durable: bool)      // the install may or may not survive: poisoned
    | CursorFailed(persisted: bool) // installed, the cursor write reported an error: poisoned
    | Sealed

  datatype Event =
    | Open(file: Identity, length: nat, persisted: bool)
    | Seal(sequence: nat, end: nat, outcome: SealOutcome)
    | Skip(end: nat, persisted: bool)
    | Recover(batch: Batch, written: bool, persisted: bool)
    | RecoveryDone
    | OtherBatch(sequence: nat)
    | Remove(batch: Batch, synced: bool)
    | Crash(back: set<Batch>)

  /** What the cursor becomes for the log file that is there now. */
  function Prepared(c: Cursor, file: Identity, length: nat): Cursor {
    if (c.identity.Some? && c.identity.value != file) || c.offset > length then Cursor(Some(file), c.generation + 1, 0, c.committed)
    else c.(identity := Some(file))
  }

  function MaxCommitted(committed: Option<nat>, sequence: nat): Option<nat> {
    Some(if committed.Some? && sequence < committed.value then committed.value else sequence)
  }

  function Crossed(c: Cursor, b: Batch): Cursor
    requires b.checkpoint.Some?
  {
    var k := b.checkpoint.value;
    Cursor(Some(k.identity), k.generation, k.end, MaxCommitted(c.committed, b.sequence))
  }

  function NextBatch(source: nat, c: Cursor, sequence: nat, end: nat): Batch
    requires c.identity.Some?
  {
    Batch(sequence, Some(Checkpoint(source, c.identity.value, c.generation, c.offset, end)))
  }

  ghost predicate Ingesting(s: State) {
    s.recovered && !s.poisoned
  }

  ghost predicate Enabled(source: nat, s: State, e: Event) {
    match e
    case Open(_, _, _) => Ingesting(s)
    case Seal(n, end, _) => Ingesting(s) && s.cursor.Some? && s.cursor.value.identity.Some? && s.cursor.value.offset < end && s.highest < n
    case Skip(end, _) => Ingesting(s) && s.cursor.Some? && s.cursor.value.identity.Some? && s.cursor.value.offset < end
    case Recover(b, _, _) => !s.poisoned && b in s.queue && Selectable(b, source, s.cursor)
    case RecoveryDone => !s.poisoned && forall b | b in s.queue :: !Selectable(b, source, s.cursor)
    case OtherBatch(n) => !s.poisoned && s.highest < n
    case Remove(b, _) => !s.poisoned && b in s.queue && s.cursor.Some? && SendReady(b, s.cursor.value)
    case Crash(back) => back <= s.unlinked
  }

  ghost function AfterSeal(source: nat, s: State, n: nat, end: nat, outcome: SealOutcome): State
    requires s.cursor.Some? && s.cursor.value.identity.Some?
  {
    var b := NextBatch(source, s.cursor.value, n, end);
    var installed := s.(queue := s.queue + {b}, sealed := s.sealed + [b], highest := n);
    match outcome
    case Refused => s.(highest := n)
    case Uncertain(durable) => if durable then installed.(poisoned := true) else s.(highest := n, poisoned := true)
    case CursorFailed(persisted) =>
      if persisted then installed.(cursor := Some(Crossed(s.cursor.value, b)), poisoned := true) else installed.(poisoned := true)
    case Sealed => installed.(cursor := Some(Crossed(s.cursor.value, b)))
  }

  ghost function Step(source: nat, s: State, e: Event): State
    requires Enabled(source, s, e)
  {
    match e
    case Open(file, length, persisted) => if persisted then s.(cursor := Some(Prepared(s.cursor.GetOr(NEW_CURSOR), file, length))) else s
    case Seal(n, end, outcome) => AfterSeal(source, s, n, end, outcome)
    case Skip(end, persisted) => if persisted then s.(cursor := Some(s.cursor.value.(offset := end))) else s
    case Recover(b, written, persisted) =>
      var moved := if written || persisted then s.(cursor := Some(Crossed(s.cursor.GetOr(NEW_CURSOR), b))) else s;
      if written then moved else moved.(poisoned := true)
    case RecoveryDone => s.(recovered := true)
    case OtherBatch(n) => s.(highest := n)
    case Remove(b, synced) => s.(queue := s.queue - {b}, unlinked := if synced then s.unlinked else s.unlinked + {b})
    case Crash(back) => s.(queue := s.queue + back, unlinked := {}, recovered := false, poisoned := false)
  }

  /** A range that ends at or before the cursor. */
  predicate Behind(c: Checkpoint, cursor: Cursor) {
    c.generation < cursor.generation || (c.generation == cursor.generation && cursor.identity == Some(c.identity) && c.end <= cursor.offset)
  }

  /** The range that starts exactly at the cursor. */
  predicate At(c: Checkpoint, cursor: Cursor) {
    c.generation == cursor.generation && cursor.identity == Some(c.identity) && c.start == cursor.offset
  }

  predicate BatchOk(b: Batch, source: nat, highest: nat) {
    Of(b, source) && WellFormed(b) && b.sequence <= highest
  }

  /** Ranges were sealed in order and do not overlap. */
  ghost predicate InOrder(sealed: seq<Batch>) {
    forall i, j | 0 <= i < j < |sealed| && sealed[i].checkpoint.Some? && sealed[j].checkpoint.Some? ::
      var a, b := sealed[i].checkpoint.value, sealed[j].checkpoint.value;
      a.generation < b.generation || (a.generation == b.generation && a.end <= b.start)
  }

  /** A crossed batch: sent or sendable. */
  predicate Done(b: Batch, cursor: Cursor) {
    b.checkpoint.Some? && Behind(b.checkpoint.value, cursor) && cursor.committed.Some? && b.sequence <= cursor.committed.value
  }

  /** A batch may be sent exactly if it is not of the log, or its range is behind the cursor and its number committed: neither alone suffices. */
  lemma SendReadyIff(b: Batch, proof: Cursor)
    ensures SendReady(b, proof) <==> b.checkpoint.None? || Done(b, proof)
  {
  }

  /** The position in the log is kept exactly if the same file is there and no shorter than what was read; otherwise a new generation starts. */
  lemma PositionKeptIff(c: Cursor, file: Identity, length: nat)
    ensures var p := Prepared(c, file, length);
            && p.identity == Some(file) && p.committed == c.committed
            && ((p.generation, p.offset) == (c.generation, c.offset) <==> c.identity.GetOr(file) == file && c.offset <= length)
            && ((p.generation, p.offset) != (c.generation, c.offset) ==> p.generation == c.generation + 1 && p.offset == 0)
  {
  }

  /** All sealed ranges are behind the cursor, except perhaps the last one, which starts there and is still queued. */
  ghost predicate Inv(source: nat, s: State) {
    && (forall b | b in s.sealed :: BatchOk(b, source, s.highest))
    && (forall b | b in s.queue + s.unlinked :: b in s.sealed)
    && InOrder(s.sealed)
    && (s.sealed != [] ==> s.cursor.Some? && s.cursor.value.identity.Some?)
    && (s.cursor.Some? && s.cursor.value.identity.None? ==> s.cursor.value.generation == 0)
    && (forall i | 0 <= i < |s.sealed| - 1 :: Done(s.sealed[i], s.cursor.value))
    && (s.sealed != [] ==>
          var last := s.sealed[|s.sealed| - 1];
          if last.checkpoint.Some? && At(last.checkpoint.value, s.cursor.value) then last in s.queue && (s.recovered ==> s.poisoned)
          else Done(last, s.cursor.value))
  }

  lemma OpenKeepsInv(source: nat, s: State, file: Identity, length: nat)
    requires Inv(source, s) && Ingesting(s)
    ensures Inv(source, s.(cursor := Some(Prepared(s.cursor.GetOr(NEW_CURSOR), file, length))))
  {
  }

  lemma InstallKeepsOrder(source: nat, s: State, b: Batch)
    requires Inv(source, s) && Ingesting(s) && s.cursor.Some? && s.cursor.value.identity.Some?
    requires BatchOk(b, source, b.sequence) && At(b.checkpoint.value, s.cursor.value) && s.highest < b.sequence
    ensures InOrder(s.sealed + [b])
    ensures forall i | 0 <= i < |s.sealed| :: Done(s.sealed[i], s.cursor.value)
  {
  }

  /** Installing the next range leaves it as the one uncrossed batch; crossing it finishes it. */
  lemma InstalledInv(source: nat, s: State, b: Batch, crossed: bool, poisoned: bool)
    requires Inv(source, s) && Ingesting(s) && s.cursor.Some? && s.cursor.value.identity.Some?
    requires BatchOk(b, source, b.sequence) && At(b.checkpoint.value, s.cursor.value) && s.highest < b.sequence
    requires crossed || poisoned
    ensures Inv(source, s.(queue := s.queue + {b}, sealed := s.sealed + [b], highest := b.sequence, poisoned := poisoned,
                           cursor := Some(if crossed then Crossed(s.cursor.value, b) else s.cursor.value)))
  {
    InstallKeepsOrder(source, s, b);
    var t := s.(queue := s.queue + {b}, sealed := s.sealed + [b], highest := b.sequence, poisoned := poisoned,
                cursor := Some(if crossed then Crossed(s.cursor.value, b) else s.cursor.value));
    forall i | 0 <= i < |s.sealed| ensures Done(t.sealed[i], t.cursor.value) {
      assert t.sealed[i] == s.sealed[i];
    }
  }

  lemma SealKeepsInv(source: nat, s: State, n: nat, end: nat, outcome: SealOutcome)
    requires Inv(source, s) && Enabled(source, s, Seal(n, end, outcome))
    ensures Inv(source, AfterSeal(source, s, n, end, outcome))
  {
    var b := NextBatch(source, s.cursor.value, n, end);
    match outcome
    case Refused =>
    case Uncertain(durable) =>
      if durable {
        InstalledInv(source, s, b, false, true);
      }
    case CursorFailed(persisted) => InstalledInv(source, s, b, persisted, true);
    case Sealed => InstalledInv(source, s, b, true, false);
  }

  /** Whatever recovery selects is the one batch the cursor has not crossed. */
  lemma SelectableIsLast(source: nat, s: State, b: Batch)
    requires Inv(source, s) && b in s.queue && Selectable(b, source, s.cursor)
    ensures s.sealed != [] && b == s.sealed[|s.sealed| - 1] && At(b.checkpoint.value, s.cursor.value)
  {
    assert b in s.sealed;
    var i :| 0 <= i < |s.sealed| && s.sealed[i] == b;
  }

  lemma RecoverKeepsInv(source: nat, s: State, b: Batch, written: bool, persisted: bool)
    requires Inv(source, s) && Enabled(source, s, Recover(b, written, persisted))
    ensures Inv(source, Step(source, s, Recover(b, written, persisted)))
  {
    SelectableIsLast(source, s, b);
    var t := Step(source, s, Recover(b, written, persisted));
    assert b in s.sealed;
    if written || persisted {
      assert t.cursor == Some(Crossed(s.cursor.value, b)) && Later(s.cursor.value, t.cursor.value);
      forall i | 0 <= i < |s.sealed| - 1 ensures Done(s.sealed[i], t.cursor.value) {
        DoneStaysDone(s.sealed[i], s.cursor.value, t.cursor.value);
      }
    }
  }

  lemma DoneStaysDone(b: Batch, cursor: Cursor, later: Cursor)
    requires Done(b, cursor) && Later(cursor, later)
    ensures Done(b, later)
  {
  }

  /** Every event keeps the invariant. */
  lemma StepKeepsInv(source: nat, s: State, e: Event)
    requires Inv(source, s) && Enabled(source, s, e)
    ensures Inv(source, Step(source, s, e))
  {
    match e
    case Open(file, length, _) => OpenKeepsInv(source, s, file, length);
    case Seal(n, end, outcome) => SealKeepsInv(source, s, n, end, outcome);
    case Recover(b, written, persisted) => RecoverKeepsInv(source, s, b, written, persisted);
    case _ =>
      if s.sealed != [] {
        var last := s.sealed[|s.sealed| - 1];
        assert last in s.sealed;
      }
  }

  /** Once poisoned, only a crash remains; what poisons is an install or a cursor write in doubt, and nothing else. */
  lemma PoisonStopsIngesting(source: nat, s: State, e: Event)
    requires Enabled(source, s, e)
    ensures s.poisoned ==> e.Crash?
    ensures Step(source, s, e).poisoned <==>
            (e.Seal? && (e.outcome.Uncertain? || e.outcome.CursorFailed?)) || (e.Recover? && !e.written)
  {
  }

  /** Ingesting goes on exactly after the cursor has been moved over all installed batches. */
  lemma RecoveryReleases(source: nat, s: State)
    ensures Enabled(source, s, RecoveryDone) <==> !s.poisoned && forall b | b in s.queue :: !Selectable(b, source, s.cursor)
    ensures Enabled(source, s, RecoveryDone) ==> Ingesting(Step(source, s, RecoveryDone))
    ensures forall back | Enabled(source, s, Crash(back)) :: !Ingesting(Step(source, s, Crash(back)))
  {
  }

  /** A node that has never sealed a range of this source; its cursor is absent, offset-only, or complete. */
  predicate Initial(s: State) {
    && s.queue == {} && s.unlinked == {} && s.sealed == [] && !s.recovered && !s.poisoned
    && (s.cursor.Some? && s.cursor.value.identity.None? ==> s.cursor.value.generation == 0)
  }

  ghost predicate Reaches(source: nat, start: State, events: seq<Event>, s: State)
    decreases |events|
  {
    if events == [] then s == start
    else Enabled(source, start, events[0]) && Reaches(source, Step(source, start, events[0]), events[1..], s)
  }

  ghost predicate Reachable(source: nat, s: State) {
    exists start, events :: Initial(start) && Reaches(source, start, events, s)
  }

  lemma {:induction false} RunKeepsInv(source: nat, start: State, events: seq<Event>, s: State)
    requires Inv(source, start) && Reaches(source, start, events, s)
    ensures Inv(source, s)
    decreases |events|
  {
    if events != [] {
      StepKeepsInv(source, start, events[0]);
      RunKeepsInv(source, Step(source, start, events[0]), events[1..], s);
    }
  }

  lemma ReachableInv(source: nat, s: State)
    requires Reachable(source, s)
    ensures Inv(source, s)
  {
    var start, events :| Initial(start) && Reaches(source, start, events, s);
    RunKeepsInv(source, start, events, s);
  }

  /** Over any failures, crashes and restarts, no byte of a log generation is sealed into two batches. */
  lemma NoLogByteIsSealedTwice(source: nat, s: State, i: nat, j: nat)
    requires Reachable(source, s) && i < j < |s.sealed|
    ensures s.sealed[i].checkpoint.Some? && s.sealed[j].checkpoint.Some?
    ensures var a, b := s.sealed[i].checkpoint.value, s.sealed[j].checkpoint.value;
            a.generation == b.generation ==> a.start < a.end <= b.start < b.end
  {
    ReachableInv(source, s);
    assert s.sealed[i] in s.sealed && s.sealed[j] in s.sealed;
  }

  /** Recovery never finds two claims, and never misses its history. */
  lemma RecoveryIsUnambiguous(source: nat, s: State, a: Batch, b: Batch)
    requires Reachable(source, s) && a in s.queue && b in s.queue
    ensures Selectable(a, source, s.cursor) && Selectable(b, source, s.cursor) ==> a == b
    ensures s.cursor.Some? && s.cursor.value.identity.Some?
  {
    ReachableInv(source, s);
    assert a in s.sealed;
    if Selectable(a, source, s.cursor) && Selectable(b, source, s.cursor) {
      SelectableIsLast(source, s, a);
      SelectableIsLast(source, s, b);
    }
  }

  /** A queued batch is sendable exactly if recovery would not select it: nothing is stuck and nothing is replayed. */
  lemma SendableIffNotReplayed(source: nat, s: State, b: Batch)
    requires Reachable(source, s) && b in s.queue
    ensures s.cursor.Some? && (SendReady(b, s.cursor.value) <==> !Selectable(b, source, s.cursor))
  {
    ReachableInv(source, s);
    assert b in s.sealed;
    var i :| 0 <= i < |s.sealed| && s.sealed[i] == b;
  }

  lemma CursorMovesForward(source: nat, s: State, e: Event)
    requires Inv(source, s) && Enabled(source, s, e) && s.cursor.Some?
    ensures Step(source, s, e).cursor.Some? && Later(s.cursor.value, Step(source, s, e).cursor.value)
  {
    if e.Recover? {
      SelectableIsLast(source, s, e.batch);
      assert e.batch in s.sealed;
    }
  }

  lemma {:induction false} ReadyStaysReady(source: nat, start: State, events: seq<Event>, s: State, b: Batch)
    requires Inv(source, start) && Reaches(source, start, events, s)
    requires start.cursor.Some? && SendReady(b, start.cursor.value)
    ensures s.cursor.Some? && SendReady(b, s.cursor.value)
    decreases |events|
  {
    if events != [] {
      StepKeepsInv(source, start, events[0]);
      CursorMovesForward(source, start, events[0]);
      ReadinessIsPermanent(b, start.cursor.value, Step(source, start, events[0]).cursor.value);
      ReadyStaysReady(source, Step(source, start, events[0]), events[1..], s, b);
    }
  }

  /** Once a batch could be sent, no restart ever moves the cursor back over it: it is never selected again. */
  lemma OnceSendableNeverReplayed(source: nat, start: State, events: seq<Event>, s: State, b: Batch)
    requires Reachable(source, start) && Reaches(source, start, events, s)
    requires b in start.queue && SendReady(b, start.cursor.GetOr(NEW_CURSOR)) && start.cursor.Some?
    ensures !Selectable(b, source, s.cursor)
  {
    ReachableInv(source, start);
    RunKeepsInv(source, start, events, s);
    ReadyStaysReady(source, start, events, s, b);
    assert b in start.sealed;
    SealedHistoryGrows(source, start, events, s);
    assert b in s.sealed;
    ReadyIsReplayedOnlyWithoutIdentity(b, s.cursor.value, source, s.cursor.value);
  }

  lemma {:induction false} SealedHistoryGrows(source: nat, start: State, events: seq<Event>, s: State)
    requires Reaches(source, start, events, s)
    ensures start.sealed <= s.sealed
    decreases |events|
  {
    if events != [] {
      SealedHistoryGrows(source, Step(source, start, events[0]), events[1..], s);
    }
  }
}
