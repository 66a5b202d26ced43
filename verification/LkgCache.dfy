/**
 The last-known-good cache: a primary file, a backup and two temporary files.

 Files are written through a temporary file and a rename. Writes may be torn, renames are atomic; every state the
 directory passes through is recorded, so "a crash at any moment" is "any state of the trace".
 */
module LkgCache {
  import opened Wrappers
  import opened NodeConfig
  import opened Traces

  /** A config with the revision and the desired fingerprint it was applied for. */
  datatype CacheRecord = CacheRecord(config: Config, revision: nat, fingerprint: Fingerprint)

  /** `Bare` is the format of older releases: only the config. */
  datatype Content = Missing | Garbage | Stored(record: CacheRecord) | Bare(config: Config)

  datatype Disk = Disk(primary: Content, backup: Content, tmp: Content, backupTmp: Content)

  /** What a file says, if it can be trusted. Without a revision, the fingerprint is that of the content. */
  function Read(c: Content): Option<CacheRecord> {
    match c
    case Stored(r) =>
      if !ValidConfig(r.config) then None
      else if r.revision > 0 then Some(r)
      else Some(CacheRecord(r.config, 0, FingerprintOf(r.config)))
    case Bare(config) => if ValidConfig(config) then Some(CacheRecord(config, 0, FingerprintOf(config))) else None
    case _ => None
  }

  /** What was written is read back as it is, in either format, exactly if its config is valid and its fingerprint its own. */
  lemma ReadInvertsWrite(r: CacheRecord)
    ensures Read(Stored(r)) == Some(r) <==> ValidConfig(r.config) && (r.revision > 0 || r.fingerprint == FingerprintOf(r.config))
    ensures Read(Bare(r.config)) == Some(r) <==> ValidConfig(r.config) && r.revision == 0 && r.fingerprint == FingerprintOf(r.config)
    ensures Read(Stored(r)).Some? <==> ValidConfig(r.config)
  {
  }

  /** What a restart recovers from: the primary, or the backup if the primary is not usable. */
  function Authority(d: Disk): Option<CacheRecord> {
    if Read(d.primary).Some? then Read(d.primary) else Read(d.backup)
  }

  datatype WriteFault = Written | NotOpened | Torn | NotSynced

  datatype RenameFault = Renamed | Refused | RenamedNotSynced

  datatype CommitEnv = CommitEnv(
    tmpWrite: WriteFault, tmpReadable: bool,
    primaryReadable: bool, primaryBytes: bool,
    backupWrite: WriteFault, backupRename: RenameFault,
    primaryRename: RenameFault, tmpRemoved: bool)

  datatype Attempt = Attempt(states: seq<Disk>, ok: bool)

  /** The contents a file goes through while it is being written. */
  function Writing(w: WriteFault, content: Content): seq<Content> {
    match w
    case NotOpened => []
    case Torn => [Garbage]
    case _ => [Garbage, content]
  }

  function WithTmp(d: Disk, contents: seq<Content>): (states: seq<Disk>)
    ensures |states| == |contents|
    ensures forall i | 0 <= i < |contents| :: states[i] == d.(tmp := contents[i])
  {
    seq(|contents|, i requires 0 <= i < |contents| => d.(tmp := contents[i]))
  }

  function WithBackupTmp(d: Disk, contents: seq<Content>): (states: seq<Disk>)
    ensures |states| == |contents|
    ensures forall i | 0 <= i < |contents| :: states[i] == d.(backupTmp := contents[i])
  {
    seq(|contents|, i requires 0 <= i < |contents| => d.(backupTmp := contents[i]))
  }

  function RemoveTmp(d: Disk, removed: bool): seq<Disk> {
    if removed then [d.(tmp := Missing)] else []
  }

  /** The temporary file written and read back. */
  function WriteTmp(d: Disk, content: Content, env: CommitEnv): Attempt {
    var states := WithTmp(d, Writing(env.tmpWrite, content));
    if !env.tmpWrite.Written? then Attempt(states, false)
    else if !env.tmpReadable then Attempt(states + RemoveTmp(Last(d, states), env.tmpRemoved), false)
    else Attempt(states, true)
  }

  /** A healthy primary is copied over the backup; an unusable one never is. */
  function SaveBackup(d: Disk, env: CommitEnv): Attempt {
    if Read(d.primary).None? || !env.primaryReadable then Attempt([], true)
    else if !env.primaryBytes then Attempt([], false)
    else
      var states := WithBackupTmp(d, Writing(env.backupWrite, d.primary));
      var written := Last(d, states);
      if !env.backupWrite.Written? || env.backupRename.Refused? then Attempt(states + RemoveTmp(written, env.tmpRemoved), false)
      else
        var renamed := written.(backup := written.backupTmp, backupTmp := Missing);
        if env.backupRename.Renamed? then Attempt(states + [renamed], true)
        else Attempt(states + [renamed] + RemoveTmp(renamed, env.tmpRemoved), false)
  }

  function InstallPrimary(d: Disk, env: CommitEnv): Attempt {
    var renamed := d.(primary := d.tmp, tmp := Missing);
    match env.primaryRename
    case Refused => Attempt(RemoveTmp(d, env.tmpRemoved), false)
    case Renamed => Attempt([renamed], true)
    case RenamedNotSynced => Attempt([renamed] + RemoveTmp(renamed, env.tmpRemoved), false)
  }

  /** Every state of a commit, in order, and whether it reports success. */
  function Commit(d: Disk, record: CacheRecord, env: CommitEnv): Attempt {
    if !ValidConfig(record.config) then Attempt([], false)
    else
      var first := WriteTmp(d, Stored(record), env);
      if !first.ok then first
      else
        var second := SaveBackup(Last(d, first.states), env);
        if !second.ok then Attempt(first.states + second.states, false)
        else
          var third := InstallPrimary(Last(d, first.states + second.states), env);
          Attempt(first.states + second.states + third.states, third.ok)
  }

  datatype LoadEnv = LoadEnv(
    primaryReadable: bool, backupReadable: bool, backupBytes: bool, backupStillReadable: bool,
    repairWrite: WriteFault, repairRename: RenameFault, repairReadback: bool, tmpRemoved: bool)

  datatype Source = PrimaryLkg | RepairedFromBackup | BackupFallback

  datatype Loaded = Loaded(states: seq<Disk>, record: Option<CacheRecord>, source: Option<Source>)

  /** The backup's bytes written back over the primary, through the same temporary file as a commit. */
  function Repair(d: Disk, env: LoadEnv): Attempt {
    if !env.backupBytes || !env.backupStillReadable then Attempt([], false)
    else
      var states := WithTmp(d, Writing(env.repairWrite, d.backup));
      var written := Last(d, states);
      if !env.repairWrite.Written? || env.repairRename.Refused? then Attempt(states, false)
      else
        var renamed := written.(primary := written.tmp, tmp := Missing);
        Attempt(states + [renamed], env.repairRename.Renamed? && env.repairReadback)
  }

  /** Every state of a load, in order, and what it found. */
  function Load(d: Disk, env: LoadEnv): Loaded {
    if Read(d.primary).Some? && env.primaryReadable then
      Loaded(RemoveTmp(d, env.tmpRemoved), Read(d.primary), Some(PrimaryLkg))
    else if Read(d.backup).Some? && env.backupReadable then
      var repair := Repair(d, env);
      if repair.ok then Loaded(repair.states, Read(d.backup), Some(RepairedFromBackup))
      else Loaded(repair.states + RemoveTmp(Last(d, repair.states), env.tmpRemoved), Read(d.backup), Some(BackupFallback))
    else Loaded(RemoveTmp(d, env.tmpRemoved), None, None)
  }

  // ---------------------------------------------------------------------------------------------------------
  // Crash atomicity.

  /** What may be seen of the disk before the new primary is in place. */
  ghost predicate BeforeInstall(d: Disk, s: Disk) {
    && s.primary == d.primary
    && (s.backup == d.backup || (Read(d.primary).Some? && s.backup == d.primary))
  }

  ghost predicate AfterInstall(d: Disk, s: Disk, record: CacheRecord) {
    && s.primary == Stored(record)
    && (s.backup == d.backup || (Read(d.primary).Some? && s.backup == d.primary))
  }

  lemma WriteTmpStates(d: Disk, content: Content, env: CommitEnv)
    ensures var a := WriteTmp(d, content, env);
            && (forall s | s in a.states :: s.primary == d.primary && s.backup == d.backup)
            && (a.ok ==> a.states != [] && Last(d, a.states) == d.(tmp := content))
  {
  }

  lemma SaveBackupStates(d: Disk, env: CommitEnv)
    ensures var a := SaveBackup(d, env);
            && (forall s | s in a.states :: BeforeInstall(d, s))
            && BeforeInstall(d, Last(d, a.states))
            && (a.ok ==> Last(d, a.states).tmp == d.tmp)
            && (a.ok && Read(d.primary).Some? && env.primaryReadable ==> Last(d, a.states).backup == d.primary)
            && (Read(d.primary).None? ==> a.states == [])
  {
  }

  /** Each state of a commit is one before the install or one after it; success means after. */
  lemma CommitStates(d: Disk, record: CacheRecord, env: CommitEnv)
    ensures var a := Commit(d, record, env);
            && (forall s | s in a.states :: BeforeInstall(d, s) || (ValidConfig(record.config) && AfterInstall(d, s, record)))
            && (a.ok ==> ValidConfig(record.config) && AfterInstall(d, Last(d, a.states), record))
            && (!a.ok && !env.primaryRename.RenamedNotSynced? ==> BeforeInstall(d, Last(d, a.states)))
  {
    if ValidConfig(record.config) {
      WriteTmpStates(d, Stored(record), env);
      var first := WriteTmp(d, Stored(record), env);
      if first.ok {
        var e := Last(d, first.states);
        SaveBackupStates(e, env);
        var second := SaveBackup(e, env);
        assert Last(e, second.states) == Last(d, first.states + second.states);
      }
    }
  }

  /**
   Whenever the process stops during a commit, the next load finds either what was trusted before or exactly the new
   record: never the temporary file, and never nothing if there was something.
   */
  lemma CommitIsCrashAtomic(d: Disk, record: CacheRecord, env: CommitEnv, s: Disk)
    requires record.revision > 0 && (s == d || s in Commit(d, record, env).states)
    ensures Authority(s) == Authority(d) || Authority(s) == Some(record)
    ensures Authority(d).Some? ==> Authority(s).Some?
    ensures Read(s.primary) == Read(d.primary) || Read(s.primary) == Some(record)
  {
    CommitStates(d, record, env);
  }

  /** Success means that the new record is the authority; failure can leave it only after a rename that was not synced. */
  lemma CommitOutcome(d: Disk, record: CacheRecord, env: CommitEnv)
    requires record.revision > 0
    ensures var a := Commit(d, record, env);
            && (a.ok ==> ValidConfig(record.config) && Read(Last(d, a.states).primary) == Some(record))
            && (!a.ok && !env.primaryRename.RenamedNotSynced? ==>
                  Last(d, a.states).primary == d.primary && Authority(Last(d, a.states)) == Authority(d))
  {
    CommitStates(d, record, env);
  }

  /** What a caller of the commit can rely on, whatever fails. */
  predicate CommitSafe(d: Disk, record: CacheRecord, env: CommitEnv, passed: seq<Disk>, ok: bool, e: Disk) {
    && (forall s | s in passed :: Authority(s) == Authority(d) || Authority(s) == Some(record))
    && (ok <==> CommitWorks(d, record, env))
    && Authority(e) == (if Replaces(d, record, env) then Some(record) else Authority(d))
    && (!env.tmpWrite.Written? || !env.tmpReadable ==> forall s | s in passed :: s.primary == d.primary && s.backup == d.backup)
  }

  /**
   A commit that ran to its end leaves its temporary file exactly if it did not replace the primary and the file could
   not be removed, or was not even tried to be because a healthy primary's bytes could not be read for the backup.
   */
  lemma CommitCleansUp(d: Disk, record: CacheRecord, env: CommitEnv)
    requires ValidConfig(record.config) && env.tmpWrite.Written?
    ensures var unread := env.tmpReadable && Read(d.primary).Some? && env.primaryReadable && !env.primaryBytes;
            Last(d, Commit(d, record, env).states).tmp ==
              if Replaces(d, record, env) || (env.tmpRemoved && !unread) then Missing else Stored(record)
  {
    WriteTmpStates(d, Stored(record), env);
    var first := WriteTmp(d, Stored(record), env);
    if first.ok {
      var e := Last(d, first.states);
      var second := SaveBackup(e, env);
      SaveBackupOutcome(e, env);
      SaveBackupTmp(e, env);
      assert Last(e, second.states) == Last(d, first.states + second.states);
    }
  }

  lemma SaveBackupTmp(d: Disk, env: CommitEnv)
    ensures var a := SaveBackup(d, env);
            Last(d, a.states).tmp == if !a.ok && env.primaryBytes && env.tmpRemoved then Missing else d.tmp
  {
  }

  /** A load removes what a commit left in the temporary file, unless it repaired the primary through that file. */
  lemma LoadCleansUp(d: Disk, env: LoadEnv)
    ensures var l := Load(d, env);
            var e := Last(d, l.states);
            && (env.tmpRemoved || l.source == Some(RepairedFromBackup) ==> e.tmp.Missing?)
            && (!env.tmpRemoved && (l.source.None? || l.source.value.PrimaryLkg?) ==> e == d)
  {
    RepairStates(d, env);
  }

  /** What is recovered after a commit that ran to its end is the new record exactly if it replaced the primary. */
  lemma CommitLeavesAuthority(d: Disk, record: CacheRecord, env: CommitEnv)
    requires record.revision > 0
    ensures Authority(Last(d, Commit(d, record, env).states)) == if Replaces(d, record, env) then Some(record) else Authority(d)
  {
    var a := Commit(d, record, env);
    CommitSucceedsIff(d, record, env);
    CommitStates(d, record, env);
    if a.states != [] {
      assert Last(d, a.states) in a.states;
    }
  }

  lemma CommittedSafely(before: seq<Disk>, d: Disk, record: CacheRecord, env: CommitEnv)
    requires before != [] && before[|before| - 1] == d
    ensures var a := Commit(d, record, env);
            var trace := before + a.states;
            record.revision > 0 ==> CommitSafe(d, record, env, trace[|before|..], a.ok, trace[|trace| - 1])
  {
    var a := Commit(d, record, env);
    Split(before, a.states);
    if record.revision > 0 {
      CommitOutcome(d, record, env);
      CommitSucceedsIff(d, record, env);
      CommitLeavesAuthority(d, record, env);
      forall s | s in a.states ensures Authority(s) == Authority(d) || Authority(s) == Some(record) {
        CommitIsCrashAtomic(d, record, env, s);
      }
    }
  }

  /** The new record gets as far as replacing the primary: checked in the temporary file, and with the old primary saved. */
  predicate Replaces(d: Disk, record: CacheRecord, env: CommitEnv) {
    && ValidConfig(record.config) && env.tmpWrite.Written? && env.tmpReadable
    && (Read(d.primary).Some? && env.primaryReadable ==> env.primaryBytes && env.backupWrite.Written? && env.backupRename.Renamed?)
    && !env.primaryRename.Refused?
  }

  predicate CommitWorks(d: Disk, record: CacheRecord, env: CommitEnv) {
    Replaces(d, record, env) && env.primaryRename.Renamed?
  }

  lemma SaveBackupOutcome(d: Disk, env: CommitEnv)
    ensures var a := SaveBackup(d, env);
            && (a.ok <==> Read(d.primary).None? || !env.primaryReadable
                          || (env.primaryBytes && env.backupWrite.Written? && env.backupRename.Renamed?))
            && (forall s | s in a.states :: s.primary == d.primary) && Last(d, a.states).primary == d.primary
  {
  }

  /**
   A commit succeeds exactly if the config is valid, the temporary file was written and read back, a healthy readable
   primary was saved as backup, and the rename over the primary was done and synced. It touches the primary exactly if
   all but that last sync went well, and neither primary nor backup before the temporary file has been checked.
   */
  lemma CommitSucceedsIff(d: Disk, record: CacheRecord, env: CommitEnv)
    ensures var a := Commit(d, record, env);
            && (a.ok <==> CommitWorks(d, record, env))
            && Last(d, a.states).primary == (if Replaces(d, record, env) then Stored(record) else d.primary)
            && (!Replaces(d, record, env) ==> forall s | s in a.states :: s.primary == d.primary)
            && (!env.tmpWrite.Written? || !env.tmpReadable ==> forall s | s in a.states :: s.primary == d.primary && s.backup == d.backup)
  {
    if ValidConfig(record.config) {
      WriteTmpStates(d, Stored(record), env);
      var first := WriteTmp(d, Stored(record), env);
      if first.ok {
        var e := Last(d, first.states);
        SaveBackupOutcome(e, env);
        SaveBackupStates(e, env);
        var second := SaveBackup(e, env);
        assert Last(e, second.states) == Last(d, first.states + second.states);
      }
    }
  }

  /** A commit over a healthy primary keeps it as backup: losing the new primary afterwards loses one generation only. */
  lemma PreviousStaysRecoverable(d: Disk, record: CacheRecord, env: CommitEnv, damaged: Content)
    requires Commit(d, record, env).ok && Read(d.primary).Some? && env.primaryReadable && Read(damaged).None?
    ensures Authority(Last(d, Commit(d, record, env).states).(primary := damaged)) == Read(d.primary)
  {
    WriteTmpStates(d, Stored(record), env);
    var first := WriteTmp(d, Stored(record), env);
    var e := Last(d, first.states);
    SaveBackupStates(e, env);
    assert Last(e, SaveBackup(e, env).states) == Last(d, first.states + SaveBackup(e, env).states);
  }

  /** A corrupt primary is never copied over the backup. */
  lemma CorruptPrimaryLeavesBackup(d: Disk, record: CacheRecord, env: CommitEnv, load: LoadEnv, s: Disk)
    requires (s in Commit(d, record, env).states && Read(d.primary).None?) || s in Load(d, load).states
    ensures s.backup == d.backup
  {
    CommitStates(d, record, env);
    RepairStates(d, load);
  }

  lemma RepairStates(d: Disk, env: LoadEnv)
    ensures var a := Repair(d, env);
            && (forall s | s in a.states :: s.backup == d.backup && (s.primary == d.primary || s.primary == d.backup))
            && (a.ok ==> Last(d, a.states).primary == d.backup && Last(d, a.states).backup == d.backup)
            && (a.states != [] ==> Last(d, a.states) in a.states)
  {
  }

  /** The files a load depends on could be read, or it did not matter that they could not. */
  predicate ReadsEnough(d: Disk, env: LoadEnv) {
    if Read(d.primary).Some? then env.primaryReadable || (env.backupReadable && Read(d.backup) == Read(d.primary))
    else Read(d.backup).Some? ==> env.backupReadable
  }

  /** A load returns the authority exactly if it could read the files it depends on. */
  lemma LoadFindsAuthority(d: Disk, env: LoadEnv)
    ensures Load(d, env).record == Authority(d) <==> ReadsEnough(d, env)
    ensures Load(d, env).source == Some(PrimaryLkg) ==> Load(d, env).record == Read(d.primary)
    ensures Load(d, env).source == Some(RepairedFromBackup) ==> Last(d, Load(d, env).states).primary == d.backup
  {
    RepairStates(d, env);
  }

  /**
   The read and write results by which a load puts the backup over a healthy primary: the primary's bytes were good but
   could not be read, and the repair got as far as its rename. Whether the repair then reports success does not matter.
   */
  predicate Overwrites(d: Disk, env: LoadEnv) {
    && Read(d.primary).Some? && !env.primaryReadable
    && Read(d.backup).Some? && env.backupReadable && Read(d.backup) != Read(d.primary)
    && env.backupBytes && env.backupStillReadable && env.repairWrite.Written? && !env.repairRename.Refused?
  }

  /** What a repair leaves: the backup over the primary, exactly if it got as far as its rename. */
  lemma RepairOutcome(d: Disk, env: LoadEnv)
    ensures var e := Last(d, Repair(d, env).states);
            e.primary == if env.backupBytes && env.backupStillReadable && env.repairWrite.Written? && !env.repairRename.Refused? then d.backup
                         else d.primary
    ensures Last(d, Repair(d, env).states).backup == d.backup
  {
  }

  /** Files a load leaves and passes through: those of its repair, if it makes one. */
  lemma LoadOutcome(d: Disk, env: LoadEnv)
    ensures var repairs := !(Read(d.primary).Some? && env.primaryReadable) && Read(d.backup).Some? && env.backupReadable;
            var e := Last(d, Load(d, env).states);
            && e.primary == (if repairs then Last(d, Repair(d, env).states).primary else d.primary) && e.backup == d.backup
            && (e == d || e in Load(d, env).states)
            && (forall s | s in Load(d, env).states :: s.backup == d.backup && (s.primary == d.primary || s.primary == e.primary))
  {
    RepairStates(d, env);
    RepairOutcome(d, env);
  }

  /** A load leaves what can be recovered as it was, at its end and wherever it stops, exactly if it does not overwrite a healthy primary. */
  lemma UnreadablePrimaryIsReplaced(d: Disk, env: LoadEnv)
    ensures Authority(Last(d, Load(d, env).states)) == Authority(d) <==> !Overwrites(d, env)
    ensures (forall s | s in Load(d, env).states :: Authority(s) == Authority(d)) <==> !Overwrites(d, env)
    ensures Overwrites(d, env) ==> Authority(Last(d, Load(d, env).states)) == Read(d.backup)
    ensures forall s | s in Load(d, env).states :: Authority(s) == Authority(d) || Authority(s) == Read(d.backup)
  {
    LoadOutcome(d, env);
    RepairOutcome(d, env);
  }

  /** Where a loaded record is said to come from, exactly. */
  lemma LoadSourceIff(d: Disk, env: LoadEnv)
    ensures var l := Load(d, env);
            var fromPrimary := Read(d.primary).Some? && env.primaryReadable;
            var fromBackup := !fromPrimary && Read(d.backup).Some? && env.backupReadable;
            var repaired := env.backupBytes && env.backupStillReadable && env.repairWrite.Written? && env.repairRename.Renamed? && env.repairReadback;
            && (l.source == Some(PrimaryLkg) <==> fromPrimary) && (l.source == Some(RepairedFromBackup) <==> fromBackup && repaired)
            && (l.source == Some(BackupFallback) <==> fromBackup && !repaired)
            && l.record == (if fromPrimary then Read(d.primary) else if fromBackup then Read(d.backup) else None)
  {
  }

  /** Loading, stopped anywhere and repeated, keeps finding the same record, unless it overwrites a healthy primary. */
  lemma LoadingTwiceIsStable(d: Disk, env: LoadEnv, s: Disk, again: LoadEnv)
    requires !Overwrites(d, env)
    requires s == d || s in Load(d, env).states
    ensures Authority(s) == Authority(d)
    ensures ReadsEnough(d, env) && ReadsEnough(s, again) ==> Load(s, again).record == Load(d, env).record
  {
    UnreadablePrimaryIsReplaced(d, env);
    LoadFindsAuthority(d, env);
    LoadFindsAuthority(s, again);
  }

  const PRIMARY_UNREADABLE := LoadEnv(false, true, true, true, Written, Renamed, true, true)

  /** One failed read of a healthy primary takes the cache from any revision back to that of the backup. */
  lemma OneFailedReadGoesBack(newer: CacheRecord, older: CacheRecord, repairRename: RenameFault)
    requires ValidConfig(newer.config) && ValidConfig(older.config) && 0 < older.revision < newer.revision
    requires !repairRename.Refused?
    ensures var d := Disk(Stored(newer), Stored(older), Missing, Missing);
            var load := Load(d, PRIMARY_UNREADABLE.(repairRename := repairRename));
            && Authority(d) == Some(newer) && Authority(Last(d, load.states)) == Some(older)
            && load.source == Some(if repairRename.Renamed? then RepairedFromBackup else BackupFallback)
  {
    var d := Disk(Stored(newer), Stored(older), Missing, Missing);
    var env := PRIMARY_UNREADABLE.(repairRename := repairRename);
    assert Read(d.primary) == Some(newer) && Read(d.backup) == Some(older);
    UnreadablePrimaryIsReplaced(d, env);
  }

  // ---------------------------------------------------------------------------------------------------------
  // Whole histories.

  datatype Access = Committing(record: CacheRecord, commit: CommitEnv) | Loading(load: LoadEnv)

  function States(d: Disk, a: Access): seq<Disk> {
    match a
    case Committing(record, env) => Commit(d, record, env).states
    case Loading(env) => Load(d, env).states
  }

  /** A commit or load that ran to its end or was cut short in any of its states. */
  datatype Visit = Visit(access: Access, left: Disk)

  ghost predicate History(d: Disk, visits: seq<Visit>, e: Disk)
    decreases |visits|
  {
    if visits == [] then e == d
    else
      var v := visits[0];
      && (v.left == d || v.left in States(d, v.access))
      && (v.access.Committing? ==> v.access.record.revision > 0)
      && History(v.left, visits[1..], e)
  }

  /** No load of the history puts the backup over a healthy primary. */
  predicate NeverOverwrites(d: Disk, visits: seq<Visit>)
    decreases |visits|
  {
    visits != [] ==>
      && (visits[0].access.Loading? ==> !Overwrites(d, visits[0].access.load))
      && NeverOverwrites(visits[0].left, visits[1..])
  }

  ghost predicate Attempted(visits: seq<Visit>, record: CacheRecord) {
    exists i :: 0 <= i < |visits| && visits[i].access.Committing? && visits[i].access.record == record
  }

  /** What one of the files said at first, or a record whose commit was attempted. */
  ghost predicate HasOrigin(d: Disk, visits: seq<Visit>, r: Option<CacheRecord>) {
    r.Some? ==> r == Read(d.primary) || r == Read(d.backup) || Attempted(visits, r.value)
  }

  /** One commit or load moves records between the files; a new one can only be the committed one. */
  lemma FilesHaveOrigin(d: Disk, a: Access, s: Disk)
    requires s == d || s in States(d, a)
    requires a.Committing? ==> a.record.revision > 0
    ensures Authority(d).Some? ==> Authority(s).Some?
    ensures forall r | r == Read(s.primary) || r == Read(s.backup) ::
              r.Some? ==> r == Read(d.primary) || r == Read(d.backup) || (a.Committing? && r.value == a.record)
  {
    match a
    case Committing(record, env) =>
      CommitStates(d, record, env);
      CommitIsCrashAtomic(d, record, env, s);
    case Loading(env) =>
      RepairStates(d, env);
  }

  lemma AttemptedLater(visits: seq<Visit>, record: CacheRecord)
    requires visits != [] && Attempted(visits[1..], record)
    ensures Attempted(visits, record)
  {
    var i :| 0 <= i < |visits[1..]| && visits[1..][i].access.Committing? && visits[1..][i].access.record == record;
    assert visits[i + 1] == visits[1..][i];
  }

  lemma OriginBefore(d: Disk, visits: seq<Visit>, r: Option<CacheRecord>)
    requires visits != [] && HasOrigin(visits[0].left, visits[1..], r)
    requires visits[0].left == d || visits[0].left in States(d, visits[0].access)
    requires visits[0].access.Committing? ==> visits[0].access.record.revision > 0
    ensures HasOrigin(d, visits, r)
  {
    var v := visits[0];
    FilesHaveOrigin(d, v.access, v.left);
    if r.Some? {
      if Attempted(visits[1..], r.value) {
        AttemptedLater(visits, r.value);
      } else if v.access.Committing? && r.value == v.access.record {
        assert visits[0].access.record == r.value;
      }
    }
  }

  /**
   Over any history, each file says nothing, what one of the two said at first, or a record whose commit was attempted;
   and once something could be recovered, something always can.
   */
  lemma {:induction false} EveryRecordHasOrigin(d: Disk, visits: seq<Visit>, e: Disk)
    requires History(d, visits, e)
    ensures HasOrigin(d, visits, Read(e.primary)) && HasOrigin(d, visits, Read(e.backup)) && HasOrigin(d, visits, Authority(e))
    ensures Authority(d).Some? ==> Authority(e).Some?
    decreases |visits|
  {
    if visits != [] {
      var v := visits[0];
      FilesHaveOrigin(d, v.access, v.left);
      EveryRecordHasOrigin(v.left, visits[1..], e);
      OriginBefore(d, visits, Read(e.primary));
      OriginBefore(d, visits, Read(e.backup));
    }
  }

  /** Without an overwriting load, what is recovered is what was trusted at first or some record whose commit was attempted. */
  lemma {:induction false} AuthorityHasProvenance(d: Disk, visits: seq<Visit>, e: Disk)
    requires History(d, visits, e) && NeverOverwrites(d, visits)
    ensures Authority(d).Some? ==> Authority(e).Some?
    ensures Authority(e) == Authority(d) || (Authority(e).Some? && Attempted(visits, Authority(e).value))
    decreases |visits|
  {
    if visits != [] {
      var v := visits[0];
      match v.access {
        case Committing(record, env) => CommitIsCrashAtomic(d, record, env, v.left);
        case Loading(env) => LoadingTwiceIsStable(d, env, v.left, env);
      }
      AuthorityHasProvenance(v.left, visits[1..], e);
      if Authority(e).Some? && Attempted(visits[1..], Authority(e).value) {
        AttemptedLater(visits, Authority(e).value);
      } else if Authority(v.left) != Authority(d) {
        assert v.access.Committing? && v == visits[0];
      }
    }
  }

  // ---------------------------------------------------------------------------------------------------------
  // The directory as it is changed, file by file.

  class CacheDirectory {
    var primary: Content
    var backup: Content
    var tmp: Content
    var backupTmp: Content
    ghost var trace: seq<Disk>

    function Current(): Disk
      reads this
    {
      Disk(primary, backup, tmp, backupTmp)
    }

    /** Everything passed through so far, the present state last. */
    ghost predicate Valid()
      reads this
    {
      trace != [] && trace[|trace| - 1] == Current()
    }

    constructor (d: Disk)
      ensures Valid() && Current() == d && trace == [d]
    {
      primary, backup, tmp, backupTmp := d.primary, d.backup, d.tmp, d.backupTmp;
      trace := [d];
    }

    ghost method Note()
      modifies this`trace
      ensures trace == old(trace) + [Current()] && Valid()
    {
      trace := trace + [Current()];
    }

    method WriteTmpFile(content: Content, fault: WriteFault) returns (ok: bool)
      requires Valid()
      modifies this`tmp, this`trace
      ensures Valid() && ok == fault.Written?
      ensures trace == old(trace) + WithTmp(old(Current()), Writing(fault, content))
      ensures Current() == Last(old(Current()), WithTmp(old(Current()), Writing(fault, content)))
    {
      if fault.NotOpened? {
        return false;
      }
      tmp := Garbage;
      Note();
      if fault.Torn? {
        return false;
      }
      tmp := content;
      Note();
      return fault.Written?;
    }

    method WriteBackupTmpFile(content: Content, fault: WriteFault) returns (ok: bool)
      requires Valid()
      modifies this`backupTmp, this`trace
      ensures Valid() && ok == fault.Written?
      ensures trace == old(trace) + WithBackupTmp(old(Current()), Writing(fault, content))
      ensures Current() == Last(old(Current()), WithBackupTmp(old(Current()), Writing(fault, content)))
    {
      if fault.NotOpened? {
        return false;
      }
      backupTmp := Garbage;
      Note();
      if fault.Torn? {
        return false;
      }
      backupTmp := content;
      Note();
      return fault.Written?;
    }

    method RemoveTmpFile(removed: bool)
      requires Valid()
      modifies this`tmp, this`trace
      ensures Valid() && trace == old(trace) + RemoveTmp(old(Current()), removed)
      ensures Current() == Last(old(Current()), RemoveTmp(old(Current()), removed))
    {
      if removed {
        tmp := Missing;
        Note();
      }
    }

    method WriteCheckedTmp(content: Content, env: CommitEnv) returns (ok: bool)
      requires Valid()
      modifies this`tmp, this`trace
      ensures Valid() && ok == WriteTmp(old(Current()), content, env).ok
      ensures trace == old(trace) + WriteTmp(old(Current()), content, env).states
      ensures Current() == Last(old(Current()), WriteTmp(old(Current()), content, env).states)
    {
      ok := WriteTmpFile(content, env.tmpWrite);
      if ok && !env.tmpReadable {
        RemoveTmpFile(env.tmpRemoved);
        ok := false;
      }
    }

    method SaveBackupFile(env: CommitEnv) returns (ok: bool)
      requires Valid()
      modifies this
      ensures Valid() && ok == SaveBackup(old(Current()), env).ok
      ensures trace == old(trace) + SaveBackup(old(Current()), env).states
      ensures Current() == Last(old(Current()), SaveBackup(old(Current()), env).states)
    {
      ok := true;
      if Read(primary).Some? && env.primaryReadable {
        if !env.primaryBytes {
          return false;
        }
        ok := WriteBackupTmpFile(primary, env.backupWrite);
        if ok && !env.backupRename.Refused? {
          backup, backupTmp := backupTmp, Missing;
          Note();
        }
        ok := ok && env.backupRename.Renamed?;
        if !ok {
          RemoveTmpFile(env.tmpRemoved);
        }
      }
    }

    method InstallPrimaryFile(env: CommitEnv) returns (ok: bool)
      requires Valid()
      modifies this
      ensures Valid() && ok == InstallPrimary(old(Current()), env).ok
      ensures trace == old(trace) + InstallPrimary(old(Current()), env).states
    {
      if !env.primaryRename.Refused? {
        primary, tmp := tmp, Missing;
        Note();
      }
      ok := env.primaryRename.Renamed?;
      if !ok {
        RemoveTmpFile(env.tmpRemoved);
      }
    }

    /** The commit, step by step, passes through exactly the states of `Commit`. */
    method CommitSteps(record: CacheRecord, env: CommitEnv) returns (ok: bool)
      requires Valid()
      modifies this
      ensures Valid() && ok == Commit(old(Current()), record, env).ok
      ensures trace == old(trace) + Commit(old(Current()), record, env).states
    {
      ok := ValidateConfig(record.config);
      if !ok {
        return;
      }
      ghost var start, before := Current(), trace;
      ok := WriteCheckedTmp(Stored(record), env);
      if !ok {
        return;
      }
      ghost var first := WriteTmp(start, Stored(record), env);
      ok := SaveBackupFile(env);
      ghost var second := SaveBackup(Last(start, first.states), env);
      Regroup(before, first.states, second.states, []);
      if !ok {
        return;
      }
      assert Current() == Last(start, first.states + second.states);
      ok := InstallPrimaryFile(env);
      Regroup(before, first.states, second.states, InstallPrimary(Last(start, first.states + second.states), env).states);
    }

    /**
     The commit of a versioned record. In each state it passes through, a restart recovers what was trusted before or
     exactly the new record; after success, the new record.
     */
    method CommitRecord(record: CacheRecord, env: CommitEnv) returns (ok: bool)
      requires Valid()
      modifies this
      ensures Valid() && ok == Commit(old(Current()), record, env).ok
      ensures trace == old(trace) + Commit(old(Current()), record, env).states
      ensures record.revision > 0 ==> CommitSafe(old(Current()), record, env, trace[|old(trace)|..], ok, Current())
    {
      ghost var before, start := trace, Current();
      ok := CommitSteps(record, env);
      CommittedSafely(before, start, record, env);
    }

    method RepairPrimary(env: LoadEnv) returns (ok: bool)
      requires Valid()
      modifies this
      ensures Valid() && ok == Repair(old(Current()), env).ok
      ensures trace == old(trace) + Repair(old(Current()), env).states
    {
      if !env.backupBytes || !env.backupStillReadable {
        return false;
      }
      ok := WriteTmpFile(backup, env.repairWrite);
      if !ok || env.repairRename.Refused? {
        return false;
      }
      primary, tmp := tmp, Missing;
      Note();
      ok := env.repairRename.Renamed? && env.repairReadback;
    }

    /** The load passes through exactly the states of `Load` and returns what it says. */
    method LoadState(env: LoadEnv) returns (record: Option<CacheRecord>, source: Option<Source>)
      requires Valid()
      modifies this
      ensures Valid() && (record, source) == (Load(old(Current()), env).record, Load(old(Current()), env).source)
      ensures trace == old(trace) + Load(old(Current()), env).states
    {
      record, source := None, None;
      if Read(primary).Some? && env.primaryReadable {
        record, source := Read(primary), Some(PrimaryLkg);
      } else if Read(backup).Some? && env.backupReadable {
        record := Read(backup);
        var repaired := RepairPrimary(env);
        if repaired {
          source := Some(RepairedFromBackup);
          return;
        }
        source := Some(BackupFallback);
      }
      RemoveTmpFile(env.tmpRemoved);
    }
  }
}
