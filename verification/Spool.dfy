/**
 The spool directory as the reporter changes it: reserve a number, install an immutable record under its name,
 load the queue, drain it in order. Every I/O call that can fail takes its outcome from an environment value.
 */
module Spool {
  import opened Wrappers
  import opened TrafficModel
  import opened SpoolSequence
  import opened SpoolNames
  import opened SortedByKey
  import opened CrashImages

  datatype Content = Batch(record: Record) | Malformed

  /** Saving the reservation: done, failed before the rename, or failed after it. */
  datatype SaveEnv = Saved | NotSaved | SavedButUnsynced

  datatype InstallEnv = InstallEnv(written: bool, linked: bool, verified: bool, removed: bool, removalSynced: bool)

  datatype InstallOutcome = Installed | Clean | RestartRequired

  datatype AckStatus = Applied | AlreadyApplied

  /** The payload digest is modelled as the digested content. */
  datatype BatchAck = BatchAck(version: nat, id: nat, digest: map<Key, Amount>, status: AckStatus)

  datatype Reply = RequestFailed | Response(code: int, data: Option<BatchAck>)

  const PROTOCOL_VERSION: nat := 1

  predicate StrictAckMatches(record: Record, reply: Reply) {
    && reply.Response? && reply.code == 0 && reply.data.Some?
    && reply.data.value.version == PROTOCOL_VERSION
    && reply.data.value.id == record.id
    && reply.data.value.digest == record.reports
  }

  /** What the Panel answers for a batch it has applied, now or before. */
  function PanelAck(record: Record, status: AckStatus): Reply {
    Response(0, Some(BatchAck(1, record.id, record.reports, status)))
  }

  ghost predicate Acknowledges(reply: Reply, record: Record) {
    exists status :: reply == PanelAck(record, status)
  }

  /** A reply is taken as the acknowledgement of a batch exactly if it is the Panel's answer for that batch. */
  lemma AckIsExact(record: Record, reply: Reply)
    ensures StrictAckMatches(record, reply) <==> Acknowledges(reply, record)
  {
    if StrictAckMatches(record, reply) {
      assert reply == PanelAck(record, reply.data.value.status);
    }
  }

  /** No reply acknowledges two batches that differ in id or content. */
  lemma OneReplyOneBatch(a: Record, b: Record, reply: Reply)
    requires Acknowledges(reply, a) && Acknowledges(reply, b)
    ensures a.id == b.id && a.reports == b.reports
  {
  }

  datatype Readiness = Ready | WaitingForCursor | ProofUnavailable

  datatype RemovalEnv = Removed | NotRemoved | RemovedButUnsynced

  datatype BatchEnv = BatchEnv(budgetSpent: bool, ready: Readiness, reply: Reply, removal: RemovalEnv)

  datatype Outcome = Current | BacklogRemaining | Stopped

  datatype DrainResult = DrainResult(confirmed: nat, removed: nat, outcome: Outcome)

  /** How a drain ends at the i-th batch, if it ends there: limit or budget reached, or this batch not durably done. */
  function Turn(record: Record, e: BatchEnv, limit: nat, i: nat): Option<DrainResult> {
    if i >= limit || (i > 0 && e.budgetSpent) then Some(DrainResult(i, i, BacklogRemaining))
    else if !e.ready.Ready? || !StrictAckMatches(record, e.reply) || e.removal.NotRemoved? then Some(DrainResult(i, i, Stopped))
    else if e.removal.RemovedButUnsynced? then Some(DrainResult(i, i + 1, Stopped))
    else None
  }

  predicate Removes(record: Record, e: BatchEnv, limit: nat, i: nat) {
    var t := Turn(record, e, limit, i);
    t.None? || t.value.removed == i + 1
  }

  /** What one bounded drain does to its queue, from position i on. */
  function DrainFrom(queue: seq<Record>, env: seq<BatchEnv>, limit: nat, i: nat): (r: DrainResult)
    requires i <= |queue| <= |env|
    ensures i <= r.confirmed <= r.removed <= |queue|
    ensures r.confirmed < |queue| || r.outcome.Current?
    decreases |queue| - i
  {
    if i == |queue| then DrainResult(i, i, Current)
    else
      var t := Turn(queue[i], env[i], limit, i);
      if t.Some? then t.value else DrainFrom(queue, env, limit, i + 1)
  }

  /** The batch may be sent, the Panel acknowledges it, and its removal is durable. */
  ghost predicate Succeeds(record: Record, e: BatchEnv) {
    e.ready.Ready? && Acknowledges(e.reply, record) && e.removal.Removed?
  }

  /** How one turn ends, in terms of what the Panel answers. */
  lemma TurnByAck(record: Record, e: BatchEnv, limit: nat, i: nat)
    ensures var t := Turn(record, e, limit, i);
            && (t.None? <==> i < limit && !(i > 0 && e.budgetSpent) && Succeeds(record, e))
            && (Removes(record, e, limit, i) <==>
                  i < limit && !(i > 0 && e.budgetSpent) && e.ready.Ready? && Acknowledges(e.reply, record) && !e.removal.NotRemoved?)
            && (t.Some? ==>
                  && t.value.confirmed == i && t.value.removed == i + (if Removes(record, e, limit, i) then 1 else 0)
                  && t.value.outcome == if i >= limit || (i > 0 && e.budgetSpent) then BacklogRemaining else Stopped)
  {
    AckIsExact(record, e.reply);
  }

  /**
   Bounded drain is exact: if every send succeeds and the time budget is never hit, a call with limit L on n batches
   removes exactly the first min(n, L) and reports Current exactly when n is at most L.
   */
  lemma {:induction false} UndisturbedDrainIsExact(queue: seq<Record>, env: seq<BatchEnv>, limit: nat, i: nat)
    requires i <= |queue| <= |env| && i <= limit
    requires forall j | i <= j < |queue| :: Succeeds(queue[j], env[j]) && !env[j].budgetSpent
    ensures var n := if |queue| <= limit then |queue| else limit;
            DrainFrom(queue, env, limit, i) == DrainResult(n, n, if |queue| <= limit then Current else BacklogRemaining)
    decreases |queue| - i
  {
    if i < |queue| {
      TurnByAck(queue[i], env[i], limit, i);
      if i < limit {
        UndisturbedDrainIsExact(queue, env, limit, i + 1);
      }
    }
  }

  /**
   Whatever fails, the removed batches are a prefix of the queue and the Panel acknowledged every one of them by its own
   id and content. They are exactly the confirmed ones unless the last removal reached the directory but its sync failed.
   */
  lemma {:induction false} DrainRemovesAcknowledgedPrefix(queue: seq<Record>, env: seq<BatchEnv>, limit: nat, i: nat)
    requires i <= |queue| <= |env|
    requires forall j | 0 <= j < i :: Succeeds(queue[j], env[j])
    ensures var r := DrainFrom(queue, env, limit, i);
            && r.removed <= |queue| && r.confirmed <= (if i <= limit then limit else i)
            && (forall j | 0 <= j < r.confirmed :: Succeeds(queue[j], env[j]))
            && (forall j | 0 <= j < r.removed :: Acknowledges(env[j].reply, queue[j]) && env[j].ready.Ready? && !env[j].removal.NotRemoved?)
            && (if r.outcome.Stopped? && r.confirmed < |queue| && env[r.confirmed].removal.RemovedButUnsynced? && env[r.confirmed].ready.Ready?
                     && Acknowledges(env[r.confirmed].reply, queue[r.confirmed])
                then r.removed == r.confirmed + 1 else r.removed == r.confirmed)
            && (r.outcome.Current? <==> r.confirmed == |queue|)
    decreases |queue| - i
  {
    if i < |queue| {
      TurnByAck(queue[i], env[i], limit, i);
      if Turn(queue[i], env[i], limit, i).None? {
        DrainRemovesAcknowledgedPrefix(queue, env, limit, i + 1);
      }
    }
  }

  /**
   A drain stops early only for a batch that was not ready, not acknowledged, or not durably removed, and leaves a
   backlog only for its limit or, after the first batch, its budget.
   */
  lemma {:induction false} StoppedMeansFailure(queue: seq<Record>, env: seq<BatchEnv>, limit: nat, i: nat)
    requires i <= |queue| <= |env|
    ensures var r := DrainFrom(queue, env, limit, i);
            && i <= r.confirmed <= |queue|
            && (r.outcome.Stopped? ==> r.confirmed < |queue| && r.confirmed < limit && !Succeeds(queue[r.confirmed], env[r.confirmed]))
            && (r.outcome.BacklogRemaining? ==>
                  r.confirmed < |queue| && (r.confirmed >= limit || (r.confirmed > 0 && env[r.confirmed].budgetSpent)))
    decreases |queue| - i
  {
    if i < |queue| {
      TurnByAck(queue[i], env[i], limit, i);
      if Turn(queue[i], env[i], limit, i).None? {
        StoppedMeansFailure(queue, env, limit, i + 1);
      }
    }
  }

  /** The sequence numbers that appear as file names. */
  ghost function Sequences(entries: map<string, Content>): set<nat> {
    set name | name in entries && ParseFilename(name).Some? :: ParseFilename(name).value
  }

  /** Every file carries the name of its record. */
  ghost predicate WellNamed(entries: map<string, Content>) {
    forall name | name in entries :: entries[name].Batch? && ParseFilename(name) == Some(entries[name].record.sequence)
  }

  /** What the loader accepts: files under their own numbers, all below the persisted reservation. */
  ghost predicate Loadable(entries: map<string, Content>, next: Option<nat>) {
    WellNamed(entries) && forall name | name in entries && entries[name].Batch? :: next.Some? && entries[name].record.sequence < next.value
  }

  /** The persisted reservation exists whenever there are files, and lies beyond all of them. */
  ghost predicate Beyond(entries: map<string, Content>, next: Option<nat>) {
    && (next.Some? ==> 0 < next.value <= U64_MAX)
    && (forall name | name in entries && entries[name].Batch? :: next.Some? && entries[name].record.sequence < next.value)
  }

  const SAVE_FAILED := "sequence state not replaced"

  /** The reservation left behind and what the caller is told; the number must be persisted before it may be used. */
  ghost function AfterReserve(committed: set<nat>, next: Option<nat>, env: SaveEnv): (Option<nat>, Result<nat>) {
    var reserved := SpoolSequence.ReserveSequence(committed, next);
    if reserved.Err? then (next, reserved)
    else (if env.NotSaved? then next else Some(reserved.value + 1), if env.Saved? then reserved else Err(SAVE_FAILED))
  }

  /**
   A number is handed out exactly if one is left and its reservation is durable; the reservation changes exactly if one is
   left and the save reached the file, and then lies beyond a number never used.
   */
  lemma ReservationOutcome(committed: set<nat>, next: Option<nat>, env: SaveEnv)
    ensures var (now, r) := AfterReserve(committed, next, env);
            && (r.Ok? <==> NumberLeft(committed, next) && env.Saved?)
            && (now == next || (now.Some? && now.value > 0 && NeverUsed(committed, next, now.value - 1)))
            && (now != next <==> NumberLeft(committed, next) && !env.NotSaved?)
            && (r.Ok? ==> now == Some(r.value + 1))
  {
    ReservesTheLeast(committed, next);
  }

  /** A number that may be used is persisted as used, and above every committed and reserved one. */
  ghost predicate MayUse(committed: set<nat>, next: Option<nat>, now: Option<nat>, n: nat) {
    now == Some(n + 1) && n >= next.GetOr(1) && forall m | m in committed :: m < n
  }

  /** The directory and verdict after an install attempt, by the first thing that goes wrong. */
  function AfterWrite(entries: map<string, Content>, record: Record, env: InstallEnv): (r: (map<string, Content>,
                      InstallOutcome))
    ensures r.1.Installed? <==> record.sequence != 0 && Filename(record.sequence) !in entries && env.written && env.linked && env.verified
    ensures r.1.Installed? ==> r.0 == entries[Filename(record.sequence) := Batch(record)]
    ensures r.1.Clean? ==> r.0 == entries
    ensures r.1.RestartRequired? ==> !env.verified && !(env.removed && env.removalSynced)
  {
    var name := Filename(record.sequence);
    if record.sequence == 0 || name in entries || !env.written || !env.linked then (entries, Clean)
    else if env.verified then (entries[name := Batch(record)], Installed)
    else if !env.removed then (entries[name := Batch(record)], RestartRequired)
    else (entries, if env.removalSynced then Clean else RestartRequired)
  }

  // ---------------------------------------------------------------------------------------------------------
  // What a crash after an install attempt can leave.

  /** The file operations of an install attempt. `synced` says whether the first sync of the directory took effect. */
  function Attempted(entries: map<string, Content>, record: Record, env: InstallEnv, synced: bool): Directory<Content> {
    var name := Filename(record.sequence);
    var start := Directory(entries, entries);
    if record.sequence == 0 || name in entries || !env.written || !env.linked then start
    else
      var linked := Linked(start, name, Batch(record));
      var seen := if synced then Synced(linked) else linked;
      if env.verified || !env.removed then seen
      else if env.removalSynced then Synced(Unlinked(seen, name))
      else Unlinked(seen, name)
  }

  /** A directory that a crash after the attempt may leave; what was verified was synced before. */
  ghost predicate MayLeave(entries: map<string, Content>, record: Record, env: InstallEnv, m: map<string, Content>) {
    exists synced: bool :: (env.verified ==> synced) && MayBecome(Attempted(entries, record, env, synced), m)
  }

  /** The attempt certainly leaves this directory, crash or not. */
  ghost predicate Leaves(entries: map<string, Content>, record: Record, env: InstallEnv, m: map<string, Content>) {
    forall x :: MayLeave(entries, record, env, x) <==> x == m
  }

  /**
   The verdict of a write is exact: it is clean exactly if no crash can leave the batch behind, and installed exactly if
   no crash can take it away again and it was not there before. In every other case the process must stop.
   */
  lemma WriteVerdict(entries: map<string, Content>, record: Record, env: InstallEnv)
    ensures var (after, outcome) := AfterWrite(entries, record, env);
            var with := entries[Filename(record.sequence) := Batch(record)];
            && (outcome.Clean? <==> Leaves(entries, record, env, entries))
            && (outcome.Installed? ==> Leaves(entries, record, env, with) && with != entries)
            && (outcome.RestartRequired? ==> (forall m | MayLeave(entries, record, env, m) :: m == entries || m == with)
                                             && MayLeave(entries, record, env, with))
            && after == Attempted(entries, record, env, true).now
  {
    var name := Filename(record.sequence);
    var with := entries[name := Batch(record)];
    assert name in with && MayLeave(entries, record, env, with) && name !in entries ==> !Leaves(entries, record, env, entries);
    if record.sequence == 0 || name in entries || !env.written || !env.linked {
      UnlinkedLeaves(entries, record, env);
    } else if env.verified {
      VerifiedLeaves(entries, record, env);
      assert MayLeave(entries, record, env, with);
    } else {
      RolledBackLeaves(entries, record, env);
      assert with - {name} == entries;
    }
  }

  lemma UnlinkedLeaves(entries: map<string, Content>, record: Record, env: InstallEnv)
    requires record.sequence == 0 || Filename(record.sequence) in entries || !env.written || !env.linked
    ensures Leaves(entries, record, env, entries)
  {
    forall m ensures MayLeave(entries, record, env, m) <==> m == entries {
      SyncedIsCertain(Directory(entries, entries), m);
      assert Attempted(entries, record, env, true) == Directory(entries, entries);
    }
  }

  lemma VerifiedLeaves(entries: map<string, Content>, record: Record, env: InstallEnv)
    requires record.sequence != 0 && Filename(record.sequence) !in entries && env.written && env.linked && env.verified
    ensures Leaves(entries, record, env, entries[Filename(record.sequence) := Batch(record)])
  {
    var with := entries[Filename(record.sequence) := Batch(record)];
    forall m ensures MayLeave(entries, record, env, m) <==> m == with {
      SyncedIsCertain(Directory(with, with), m);
      assert Attempted(entries, record, env, true) == Directory(with, with);
    }
  }

  lemma RolledBackLeaves(entries: map<string, Content>, record: Record, env: InstallEnv)
    requires record.sequence != 0 && Filename(record.sequence) !in entries && env.written && env.linked && !env.verified
    ensures var with := entries[Filename(record.sequence) := Batch(record)];
            && (forall m | MayLeave(entries, record, env, m) :: m == entries || m == with)
            && (env.removed && env.removalSynced ==> Leaves(entries, record, env, entries))
            && (!(env.removed && env.removalSynced) ==> MayLeave(entries, record, env, with))
  {
    var name := Filename(record.sequence);
    var with := entries[name := Batch(record)];
    assert with - {name} == entries && entries - {name} == entries;
    forall m, synced | MayBecome(Attempted(entries, record, env, synced), m) ensures m == entries || m == with {
      OneChange(Attempted(entries, record, env, synced), name, m);
    }
    BothArePossible(Attempted(entries, record, env, true));
    if env.removed && env.removalSynced {
      forall m ensures MayLeave(entries, record, env, m) <==> m == entries {
        SyncedIsCertain(Directory(entries, entries), m);
        assert Attempted(entries, record, env, true) == Directory(entries, entries) == Attempted(entries, record, env, false);
      }
    }
  }

  /** Linked, not verified, and not taken back for certain. */
  predicate InDoubt(env: InstallEnv) {
    env.written && env.linked && !env.verified && !(env.removed && env.removalSynced)
  }

  /** Every step of an install works. */
  predicate Installs(env: InstallEnv) {
    env.written && env.linked && env.verified
  }

  // ---------------------------------------------------------------------------------------------------------
  // What a drain may take off the disk.

  /** The Panel acknowledges no batch id it has not applied. */
  ghost predicate Honest(env: seq<BatchEnv>, applied: set<nat>) {
    forall e, r | e in env && Acknowledges(e.reply, r) :: r.id in applied
  }

  /** Whatever was removed holds an applied batch, if the Panel acknowledges only what it has applied. */
  ghost predicate RemovesOnlyApplied(env: seq<BatchEnv>, before: map<string, Content>, after: map<string, Content>,
                                     legacyBefore: Option<Record>, legacyAfter: Option<Record>)
  {
    forall applied | Honest(env, applied) ::
      && (forall name | name in before && name !in after :: before[name].Batch? && before[name].record.id in applied)
      && (legacyBefore.Some? && legacyAfter.None? ==> legacyBefore.value.id in applied)
  }

  lemma RemovedWasApplied(queue: seq<Record>, env: seq<BatchEnv>, limit: nat, before: map<string, Content>, after: map<string, Content>,
                          hadLegacy: Option<Record>, legacy: Option<Record>)
    requires |queue| < |env| && OnDisk(before, queue, 0)
    requires var r := DrainFrom(Whole(hadLegacy, queue), env, limit, 0);
             Drained(after, before, queue, SpooledPart(hadLegacy, r.removed)) && legacy == if r.removed == 0 then hadLegacy else None
    ensures RemovesOnlyApplied(env, before, after, hadLegacy, legacy)
  {
    var whole := Whole(hadLegacy, queue);
    var r := DrainFrom(whole, env, limit, 0);
    DrainRemovesAcknowledgedPrefix(whole, env, limit, 0);
    forall applied, j | Honest(env, applied) && 0 <= j < r.removed ensures whole[j].id in applied {
      assert env[j] in env && Acknowledges(env[j].reply, whole[j]);
    }
    forall name | name in before && name !in after
      ensures exists j :: 0 <= j < r.removed && before[name] == Batch(whole[j])
    {
      var n := SpooledPart(hadLegacy, r.removed);
      var q :| q in queue[..n] && Filename(q.sequence) == name;
      var i :| 0 <= i < n && queue[i] == q;
      var j := if hadLegacy.Some? then i + 1 else i;
      assert whole[j] == queue[i] && before[name] == Batch(whole[j]);
    }
  }

  class SpoolDirectory {
    var entries: map<string, Content>
    var nextSequence: Option<nat>
    var legacy: Option<Record>  // the single pending file of earlier releases

    ghost predicate Valid()
      reads this
    {
      WellNamed(entries) && Beyond(entries, nextSequence)
    }

    constructor ()
      ensures Valid() && entries == map[] && nextSequence == None && legacy == None
    {
      entries, nextSequence, legacy := map[], None, None;
    }

    /** The committed files in increasing order of their numbers; a foreign name is an error. */
    method List() returns (r: Result<seq<Keyed<string>>>)
      ensures r.Ok? <==> forall name | name in entries :: ParseFilename(name).Some?
      ensures r.Ok? ==> ListingOf(entries, r.value)
    {
      var files: seq<Keyed<string>> := [];
      var todo := entries.Keys;
      while todo != {}
        invariant todo <= entries.Keys
        invariant Increasing(files)
        invariant forall name | name in entries && name !in todo :: ParseFilename(name).Some?
        invariant forall f | f in files :: f.item in entries && f.item !in todo && ParseFilename(f.item) == Some(f.key)
        invariant forall name | name in entries && name !in todo :: Keyed(ParseFilename(name).value, name) in files
        decreases |todo|
      {
        var name :| name in todo;
        var sequence := ParseFilename(name);
        if sequence.None? {
          return Err("unexpected entry");
        }
        var f := Keyed(sequence.value, name);
        FilenameInvertsParse(name);
        forall g | g in files ensures g.key != f.key {
          FilenameInvertsParse(g.item);
        }
        InsertIncreasing(files, f);
        forall g ensures g in Insert(files, f) <==> g in files || g == f {
          InsertContents(files, f, g);
        }
        files := Insert(files, f);
        todo := todo - {name};
      }
      return Ok(files);
    }

    method HighestCommitted() returns (r: Result<nat>)
      ensures r.Ok? <==> forall name | name in entries :: ParseFilename(name).Some?
      ensures r.Ok? ==> r.value == Highest(Sequences(entries))
    {
      var listed := List();
      if listed.Err? {
        return Err(listed.message);
      }
      LastIsHighest(entries, listed.value);
      return Ok(if listed.value == [] then 0 else listed.value[|listed.value| - 1].key);
    }

    /** Reserve before install: the number is above every committed file and every earlier reservation. */
    method Reserve(env: SaveEnv) returns (r: Result<nat>)
      modifies this`nextSequence
      ensures old(Valid()) ==> Valid()
      ensures (forall name | name in entries :: ParseFilename(name).Some?) ==>
                (nextSequence, r) == AfterReserve(Sequences(entries), old(nextSequence), env)
      ensures (exists name | name in entries :: ParseFilename(name).None?) ==> nextSequence == old(nextSequence) && r.Err?
      ensures r.Ok? ==> Filename(r.value) !in entries && r.value <= U64_MAX
      ensures old(Valid()) && r.Ok? ==> MayUse(Sequences(entries), old(nextSequence), nextSequence, r.value)
    {
      var highest := HighestCommitted();
      if highest.Err? {
        return Err(highest.message);
      }
      var sequence := Max(nextSequence.GetOr(1), highest.value + 1);
      if sequence >= U64_MAX {
        return Err("sequence overflow");
      }
      UnusedName(entries, sequence);
      if !env.NotSaved? {
        nextSequence := Some(sequence + 1);
      }
      if !env.Saved? {
        return Err(SAVE_FAILED);
      }
      return Ok(sequence);
    }

    /**
     Install a record under its own name. An existing name is never replaced; a failure after the install is rolled
     back, and only if the rollback itself is in doubt must the process stop.
     */
    method WriteRecord(record: Record, env: InstallEnv) returns (outcome: InstallOutcome)
      requires record.sequence <= U64_MAX
      modifies this`entries
      ensures old(Valid()) && nextSequence.Some? && record.sequence < nextSequence.value ==> Valid()
      ensures forall name | name in old(entries) :: name in entries && entries[name] == old(entries)[name]
      ensures outcome == AfterWrite(old(entries), record, env).1 && entries == AfterWrite(old(entries), record, env).0
      ensures outcome.Clean? <==> Leaves(old(entries), record, env, old(entries))
      ensures outcome.RestartRequired? <==> record.sequence != 0 && Filename(record.sequence) !in old(entries) && InDoubt(env)
    {
      WriteVerdict(entries, record, env);
      if record.sequence == 0 {
        return Clean;
      }
      var name := Filename(record.sequence);
      ParseInvertsFilename(record.sequence);
      if name in entries || !env.written || !env.linked {
        return Clean;
      }
      entries := entries[name := Batch(record)];
      if !env.verified {
        if env.removed {
          entries := entries - {name};
        }
        return if env.removed && env.removalSynced then Clean else RestartRequired;
      }
      return Installed;
    }

    /** Reserve a number and install a batch under it. */
    method SealBatch(id: nat, revision: nat, reports: map<Key, Amount>, save: SaveEnv, install: InstallEnv)
      returns (outcome: InstallOutcome, record: Record)
      requires Valid()
      modifies this`entries, this`nextSequence
      ensures Valid()
      ensures outcome.Installed? ==>
                && record == Record(record.sequence, id, revision, reports)
                && Filename(record.sequence) !in old(entries) && entries == old(entries)[Filename(record.sequence) := Batch(record)]
                && MayUse(Sequences(old(entries)), old(nextSequence), nextSequence, record.sequence)
      ensures outcome.Clean? ==> entries == old(entries)
      ensures outcome.Clean? <==> Leaves(old(entries), record, install, old(entries))
      ensures outcome.Installed? <==> NumberLeft(Sequences(old(entries)), old(nextSequence)) && save.Saved? && Installs(install)
      ensures outcome.RestartRequired? <==> NumberLeft(Sequences(old(entries)), old(nextSequence)) && save.Saved? && InDoubt(install)
    {
      WriteVerdict(entries, Record(0, id, revision, reports), install);
      ReservesTheLeast(Sequences(entries), nextSequence);
      outcome, record := Clean, Record(0, id, revision, reports);
      var reserved := Reserve(save);
      if reserved.Ok? {
        record := record.(sequence := reserved.value);
        outcome := WriteRecord(record, install);
      }
    }

    /** The listed files' records; a record that contradicts its name is an error. */
    method ReadBatches(files: seq<Keyed<string>>) returns (r: Result<seq<Record>>)
      requires forall f | f in files :: f.item in entries
      ensures r.Ok? <==> forall f | f in files :: entries[f.item].Batch? && entries[f.item].record.sequence == f.key
      ensures r.Ok? ==> |r.value| == |files|
      ensures r.Ok? ==> forall j | 0 <= j < |files| :: entries[files[j].item] == Batch(r.value[j]) && r.value[j].sequence == files[j].key
    {
      var queue: seq<Record> := [];
      for i := 0 to |files|
        invariant |queue| == i
        invariant forall j | 0 <= j < i :: entries[files[j].item] == Batch(queue[j]) && queue[j].sequence == files[j].key
      {
        assert files[i] in files;
        var content := entries[files[i].item];
        if content.Malformed? || content.record.sequence != files[i].key {
          return Err("sequence mismatch");
        }
        queue := queue + [content.record];
      }
      return Ok(queue);
    }

    /** The queue in sequence order, or an error if anything in the directory is not what these methods write. */
    method LoadQueue() returns (r: Result<seq<Record>>)
      ensures Valid() ==> r.Ok?
      ensures r.Ok? <==> Loadable(entries, nextSequence)
      ensures r.Ok? ==>
                && Ordered(r.value) && OnDisk(entries, r.value, 0)
                && AllListed(entries, r.value)
                && (forall q | q in r.value :: nextSequence.Some? && q.sequence < nextSequence.value)
    {
      r := ReadListed();
      if r.Ok? {
        LoadableQueue(entries, nextSequence, r.value);
        if r.value != [] {
          if nextSequence.None? {
            r := Err("sequence state missing");
          } else if nextSequence.value <= r.value[|r.value| - 1].sequence {
            r := Err("sequence state behind");
          }
        }
      }
    }

    /** The records of all files in the order of their numbers; a foreign name or a contradicting record is an error. */
    method ReadListed() returns (r: Result<seq<Record>>)
      ensures r.Ok? <==> WellNamed(entries)
      ensures r.Ok? ==> Ordered(r.value) && OnDisk(entries, r.value, 0) && AllListed(entries, r.value)
    {
      var listed := List();
      if listed.Err? {
        return Err(listed.message);
      }
      ListedAreWellNamed(entries, listed.value);
      r := ReadBatches(listed.value);
      if r.Ok? {
        QueueMatchesListing(entries, listed.value, r.value);
      }
    }

    /** Take a batch off the disk after its ACK: only if the file still holds exactly that batch. */
    method RemoveBatch(record: Record, isLegacy: bool, env: RemovalEnv) returns (result: RemovalEnv)
      modifies this`entries, this`legacy
      ensures result == if (if isLegacy then old(legacy) == Some(record)
                            else Filename(record.sequence) in old(entries) && old(entries)[Filename(record.sequence)] == Batch(record))
                        then env else NotRemoved
      ensures legacy == if isLegacy && !result.NotRemoved? then None else old(legacy)
      ensures entries == if !isLegacy && !result.NotRemoved? then old(entries) - {Filename(record.sequence)} else old(entries)
    {
      var name := Filename(record.sequence);
      if isLegacy {
        result := if legacy == Some(record) then env else NotRemoved;
        if !result.NotRemoved? {
          legacy := None;
        }
      } else {
        result := if name in entries && entries[name] == Batch(record) then env else NotRemoved;
        if !result.NotRemoved? {
          entries := entries - {name};
        }
      }
    }

    /** One turn: a batch is removed only within limit and budget, ready to be sent, and after its own ACK. */
    method DrainOne(record: Record, isLegacy: bool, e: BatchEnv, limit: nat,
                    i: nat) returns (ended: Option<DrainResult>)
      requires if isLegacy then legacy == Some(record) else Filename(record.sequence) in entries && entries[Filename(record.sequence)] == Batch(record)
      modifies this`entries, this`legacy
      ensures ended == Turn(record, e, limit, i)
      ensures legacy == if isLegacy && Removes(record, e, limit, i) then None else old(legacy)
      ensures entries == if !isLegacy && Removes(record, e, limit, i) then old(entries) - {Filename(record.sequence)} else old(entries)
    {
      if i >= limit || (i > 0 && e.budgetSpent) {
        return Some(DrainResult(i, i, BacklogRemaining));
      }
      if !e.ready.Ready? || !StrictAckMatches(record, e.reply) {
        return Some(DrainResult(i, i, Stopped));
      }
      var removal := RemoveBatch(record, isLegacy, e.removal);
      match removal {
        case Removed => ended := None;
        case NotRemoved => ended := Some(DrainResult(i, i, Stopped));
        case RemovedButUnsynced => ended := Some(DrainResult(i, i + 1, Stopped));
      }
    }

    /** What the loop of a drain keeps: the removed ones are the first `confirmed` of legacy batch and queue. */
    ghost predicate Draining(queue: seq<Record>, origin: map<string, Content>, hadLegacy: Option<Record>,
                             pendingLegacy: Option<Record>, confirmed: nat, queueIndex: nat)
      reads this
    {
      && queueIndex <= |queue| && OnDisk(entries, queue, queueIndex)
      && Drained(entries, origin, queue, queueIndex) && legacy == pendingLegacy
      && (if pendingLegacy.Some? then pendingLegacy == hadLegacy && confirmed == 0 && queueIndex == 0
          else confirmed == queueIndex + if hadLegacy.Some? then 1 else 0)
    }

    ghost predicate Ended(queue: seq<Record>, origin: map<string, Content>, hadLegacy: Option<Record>, removed: nat)
      reads this
    {
      && Drained(entries, origin, queue, SpooledPart(hadLegacy, removed))
      && legacy == if removed == 0 then hadLegacy else None
    }

    /** The next batch of a drain: its turn, and the state after it. */
    method DrainNext(batch: Record, e: BatchEnv, limit: nat, confirmed: nat, queueIndex: nat,
                     pendingLegacy: Option<Record>,
                     ghost queue: seq<Record>, ghost origin: map<string, Content>, ghost hadLegacy: Option<Record>)
      returns (ended: Option<DrainResult>)
      requires Draining(queue, origin, hadLegacy, pendingLegacy, confirmed, queueIndex) && Ordered(queue)
      requires pendingLegacy.Some? ==> batch == pendingLegacy.value
      requires pendingLegacy.None? ==> queueIndex < |queue| && batch == queue[queueIndex]
      modifies this`entries, this`legacy
      ensures ended == Turn(batch, e, limit, confirmed)
      ensures ended.None? ==> Draining(queue, origin, hadLegacy, None, confirmed + 1, if pendingLegacy.Some? then queueIndex else queueIndex + 1)
      ensures ended.Some? ==> Ended(queue, origin, hadLegacy, ended.value.removed)
    {
      if pendingLegacy.None? {
        RemovalKeepsRest(origin, queue, queueIndex);
      }
      ended := DrainOne(batch, pendingLegacy.Some?, e, limit, confirmed);
    }

    /** The loop of a drain: legacy batch first, then the queue, until a turn ends it. */
    method DrainLoop(queue: seq<Record>, env: seq<BatchEnv>, limit: nat) returns (r: DrainResult)
      requires |queue| < |env| && Ordered(queue) && OnDisk(entries, queue, 0)
      modifies this`entries, this`legacy
      ensures r == DrainFrom(Whole(old(legacy), queue), env, limit, 0)
      ensures Ended(queue, old(entries), old(legacy), r.removed)
    {
      var confirmed, queueIndex := 0, 0;
      ghost var whole := Whole(legacy, queue);
      var pendingLegacy := legacy;
      assert queue[..0] == [];
      while true
        invariant Draining(queue, old(entries), old(legacy), pendingLegacy, confirmed, queueIndex)
        invariant confirmed <= |whole| && DrainFrom(whole, env, limit, 0) == DrainFrom(whole, env, limit, confirmed)
        decreases |whole| - confirmed
      {
        if pendingLegacy.None? && queueIndex == |queue| {
          return DrainResult(confirmed, confirmed, Current);
        }
        var batch := if pendingLegacy.Some? then pendingLegacy.value else queue[queueIndex];
        assert batch == whole[confirmed];
        var ended := DrainNext(batch, env[confirmed], limit, confirmed, queueIndex, pendingLegacy, queue, old(entries), old(legacy));
        if ended.Some? {
          return ended.value;
        }
        confirmed := confirmed + 1;
        if pendingLegacy.Some? {
          pendingLegacy := None;
        } else {
          queueIndex := queueIndex + 1;
        }
      }
    }

    /**
     The bounded FIFO drain of one report call. Each batch that leaves the disk was ready, and the Panel acknowledged it
     by its own id and content; so if the Panel acknowledges only what it has applied, nothing else is ever removed.
     */
    method Drain(queue: seq<Record>, env: seq<BatchEnv>, limit: nat) returns (r: DrainResult)
      requires |queue| < |env| && Ordered(queue) && OnDisk(entries, queue, 0)
      modifies this`entries, this`legacy
      ensures r == DrainFrom(Whole(old(legacy), queue), env, limit, 0)
      ensures Ended(queue, old(entries), old(legacy), r.removed)
      ensures forall j | 0 <= j < r.removed :: Acknowledges(env[j].reply, Whole(old(legacy), queue)[j]) && env[j].ready.Ready?
      ensures RemovesOnlyApplied(env, old(entries), entries, old(legacy), legacy)
    {
      DrainRemovesAcknowledgedPrefix(Whole(legacy, queue), env, limit, 0);
      ghost var before, hadLegacy := entries, legacy;
      r := DrainLoop(queue, env, limit);
      RemovedWasApplied(queue, env, limit, before, entries, hadLegacy, legacy);
    }
  }

  /** Every file holds a batch of the queue. */
  ghost predicate AllListed(entries: map<string, Content>, queue: seq<Record>) {
    forall name | name in entries :: entries[name].Batch? && entries[name].record in queue
  }

  ghost predicate Ordered(queue: seq<Record>) {
    && (forall i | 0 <= i < |queue| :: 1 <= queue[i].sequence <= U64_MAX)
    && (forall j, k | 0 <= j < k < |queue| :: queue[j].sequence < queue[k].sequence)
  }

  /** The batches from position i on are still there, each under its own name. */
  ghost predicate OnDisk(entries: map<string, Content>, queue: seq<Record>, i: nat) {
    forall j | i <= j < |queue| :: Filename(queue[j].sequence) in entries && entries[Filename(queue[j].sequence)] == Batch(queue[j])
  }

  lemma NamesAreDistinct(queue: seq<Record>, i: nat, j: nat)
    requires Ordered(queue) && i < j < |queue|
    ensures Filename(queue[j].sequence) != Filename(queue[i].sequence)
  {
    ParseInvertsFilename(queue[i].sequence);
    ParseInvertsFilename(queue[j].sequence);
  }

  /** Removing one batch of the queue leaves all later ones in place. */
  lemma RemovalKeepsRest(entries: map<string, Content>, queue: seq<Record>, i: nat)
    requires Ordered(queue) && i < |queue| && OnDisk(entries - Names(queue[..i]), queue, i)
    ensures OnDisk(entries - Names(queue[..i + 1]), queue, i + 1)
    ensures entries - Names(queue[..i + 1]) == entries - Names(queue[..i]) - {Filename(queue[i].sequence)}
  {
    assert queue[..i + 1] == queue[..i] + [queue[i]];
    assert Names(queue[..i + 1]) == Names(queue[..i]) + {Filename(queue[i].sequence)};
    forall j | i < j < |queue| ensures Filename(queue[j].sequence) != Filename(queue[i].sequence) {
      NamesAreDistinct(queue, i, j);
    }
  }

  /** Exactly the files of the first n batches are gone. */
  ghost predicate Drained(entries: map<string, Content>, origin: map<string, Content>, queue: seq<Record>, n: nat) {
    n <= |queue| && entries == origin - Names(queue[..n])
  }

  /** How many of the removed batches came from the spool rather than from the legacy file. */
  function SpooledPart(legacy: Option<Record>, removed: nat): nat {
    if legacy.Some? && removed > 0 then removed - 1 else removed
  }

  /** What a drain works through: the legacy pending batch first, then the spool in sequence order. */
  function Whole(legacy: Option<Record>, queue: seq<Record>): seq<Record> {
    if legacy.Some? then [legacy.value] + queue else queue
  }

  ghost function Names(queue: seq<Record>): set<string> {
    set q | q in queue :: Filename(q.sequence)
  }

  /** No file is named for a number beyond all committed ones. */
  lemma UnusedName(entries: map<string, Content>, sequence: nat)
    requires 1 <= sequence <= U64_MAX && forall n | n in Sequences(entries) :: n < sequence
    ensures Filename(sequence) !in entries
  {
    ParseInvertsFilename(sequence);
    assert Filename(sequence) in entries ==> sequence in Sequences(entries);
  }

  ghost predicate ListingOf(entries: map<string, Content>, files: seq<Keyed<string>>) {
    && Increasing(files)
    && (forall f | f in files :: f.item in entries && ParseFilename(f.item) == Some(f.key))
    && (forall name | name in entries :: ParseFilename(name).Some? && Keyed(ParseFilename(name).value, name) in files)
  }

  /** Reading the listed files one by one yields exactly the records of the directory, each under its own name. */
  lemma QueueMatchesListing(entries: map<string, Content>, files: seq<Keyed<string>>, queue: seq<Record>)
    requires ListingOf(entries, files) && |queue| == |files|
    requires forall j | 0 <= j < |queue| :: entries[files[j].item] == Batch(queue[j]) && queue[j].sequence == files[j].key
    ensures Ordered(queue) && OnDisk(entries, queue, 0) && AllListed(entries, queue)
  {
    forall j | 0 <= j < |queue|
      ensures Filename(queue[j].sequence) in entries && entries[Filename(queue[j].sequence)] == Batch(queue[j])
      ensures 1 <= queue[j].sequence <= U64_MAX
    {
      assert files[j] in files;
      FilenameInvertsParse(files[j].item);
    }
    forall name | name in entries ensures entries[name].Batch? && entries[name].record in queue {
      var f := Keyed(ParseFilename(name).value, name);
      assert f in files;
      var j :| 0 <= j < |files| && files[j] == f;
      assert queue[j] in queue;
    }
  }

  lemma ListedAreWellNamed(entries: map<string, Content>, files: seq<Keyed<string>>)
    requires ListingOf(entries, files)
    ensures WellNamed(entries) <==> forall f | f in files :: entries[f.item].Batch? && entries[f.item].record.sequence == f.key
  {
    if forall f | f in files :: entries[f.item].Batch? && entries[f.item].record.sequence == f.key {
      forall name | name in entries ensures entries[name].Batch? && ParseFilename(name) == Some(entries[name].record.sequence) {
        assert Keyed(ParseFilename(name).value, name) in files;
      }
    }
  }

  /** The last record of the queue has the highest number, so the reservation lies beyond all exactly if it lies beyond that. */
  lemma LoadableQueue(entries: map<string, Content>, next: Option<nat>, queue: seq<Record>)
    requires WellNamed(entries) && Ordered(queue) && OnDisk(entries, queue, 0) && AllListed(entries, queue)
    ensures Loadable(entries, next) <==> (queue == [] || (next.Some? && queue[|queue| - 1].sequence < next.value))
    ensures Loadable(entries, next) ==> forall q | q in queue :: next.Some? && q.sequence < next.value
  {
    if queue == [] {
      assert forall name | name in entries :: entries[name].record in queue;
    } else {
      var last := queue[|queue| - 1];
      assert Filename(last.sequence) in entries && entries[Filename(last.sequence)].record == last;
      forall q | q in queue ensures q.sequence <= last.sequence {
        var i :| 0 <= i < |queue| && queue[i] == q;
      }
    }
  }

  /** The last file of an ordered listing carries the highest number. */
  lemma LastIsHighest(entries: map<string, Content>, files: seq<Keyed<string>>)
    requires ListingOf(entries, files)
    ensures Highest(Sequences(entries)) == if files == [] then 0 else files[|files| - 1].key
  {
    if files != [] {
      var last := files[|files| - 1];
      assert last in files && last.key in Sequences(entries);
      forall n | n in Sequences(entries) ensures n <= last.key {
        var name :| name in entries && ParseFilename(name) == Some(n);
        var f := Keyed(n, name);
        assert f in files;
      }
    } else {
      assert Sequences(entries) == {};
    }
  }
}
