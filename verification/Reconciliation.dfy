/**
 One reconciliation as a function: the new memory of the reconciler, every state the node passes through, and the
 verdict. What the host answers (listener apply, certificate work, file operations, health) is an environment value.
 */
module Reconciliation {
  import opened Wrappers
  import opened NodeConfig
  import opened EffectiveConfig
  import opened LkgCache
  import opened Traces

  datatype Snapshot = Snapshot(config: Config, fingerprint: Fingerprint, revision: nat)

  datatype LocalSource = FromPrimary | FromRepairedBackup | FromBackupFallback | NoTrustedLkg

  datatype Origin = ValidatedPanel | LocalRecovery

  /** A snapshot becomes trusted only through this check; a versioned Panel snapshot must carry its own fingerprint. */
  function NewSnapshot(source: Origin, config: Config, revision: nat, fingerprint: Fingerprint): Result<Snapshot> {
    if !ValidConfig(config) then Err("invalid config")
    else if revision > 0 && source.ValidatedPanel? && fingerprint != FingerprintOf(config) then Err("config snapshot fingerprint mismatch")
    else Ok(Snapshot(config, if revision > 0 then fingerprint else FingerprintOf(config), revision))
  }

  datatype Input =
    | Panel(snapshot: Snapshot)
    | Local(snapshot: Snapshot, source: LocalSource)
    | Degraded
    | Untrusted

  /** An apply whose LKG commit or site cleanup failed: the runtime already runs `effective`. */
  datatype Pending = Pending(desired: Fingerprint, withheld: bool, effective: Config, referenced: set<string>,
                             lkgCommitted: bool, revision: nat, fingerprint: Fingerprint)

  datatype Outcome = Converged | DependencyWithheld | DegradedLocalRecovery | InvalidUntrustedInput | ApplyFailed | StaleIgnored

  datatype Verdict = Verdict(outcome: Outcome, source: Option<Origin>, desired: Option<Fingerprint>, applied: Option<Fingerprint>,
                             applyRequired: bool, withheld: bool, recovery: Option<LocalSource>)

  datatype StatusState = Starting | IsConverged | IsWithheld | IsDegraded | WaitingForAuthority | HasFailed

  datatype Status = Status(state: StatusState, desired: Option<Fingerprint>, applied: Option<Fingerprint>,
                           desiredRevision: Option<nat>, appliedRevision: Option<nat>, failed: bool, source: Option<Origin>)

  /** The fields of the reconciler. */
  datatype Memory = Memory(
    latest: Option<Snapshot>,
    lastPanelDesired: Option<Fingerprint>,
    lastApplied: Option<Fingerprint>,
    pending: Option<Pending>,
    highest: nat,
    lastAppliedRevision: Option<nat>,
    status: Status)

  const FRESH := Memory(None, None, None, None, 0, None, Status(Starting, None, None, None, None, false, None))

  /** The running listeners, the SNIs with an active site, and the cache directory. */
  datatype World = World(runtime: Option<Config>, active: set<string>, disk: Disk)

  datatype Env = Env(
    load: LoadEnv,
    prepared: set<string>,     // active SNIs after certificate work
    effective: Config,         // the effective config, sites in hash-set order
    applied: bool,
    commit: CommitEnv,
    finalized: set<string>,    // active SNIs after cleanup
    finalizedOk: bool,
    healthy: bool, repaired: bool, healthyAfter: bool,
    retryDue: bool)

  datatype Effects = Effects(memory: Memory, worlds: seq<World>, verdict: Verdict)

  function OnDisk(w: World, disks: seq<Disk>): (worlds: seq<World>)
    ensures |worlds| == |disks| && forall i | 0 <= i < |disks| :: worlds[i] == w.(disk := disks[i])
  {
    seq(|disks|, i requires 0 <= i < |disks| => w.(disk := disks[i]))
  }

  // ---------------------------------------------------------------------------------------------------------
  // Status.

  function StateOf(outcome: Outcome): StatusState
    requires !outcome.StaleIgnored?
  {
    match outcome
    case Converged => IsConverged
    case DependencyWithheld => IsWithheld
    case DegradedLocalRecovery => IsDegraded
    case InvalidUntrustedInput => WaitingForAuthority
    case ApplyFailed => HasFailed
  }

  /** A stale delivery does not touch the status of the newer snapshot. */
  function RecordStatus(m: Memory, v: Verdict): Memory {
    if v.outcome.StaleIgnored? then m
    else
      m.(status := Status(StateOf(v.outcome), v.desired, v.applied,
                          if m.latest.Some? then Some(m.latest.value.revision) else None, m.lastAppliedRevision,
                          v.outcome.ApplyFailed?, v.source))
  }

  // ---------------------------------------------------------------------------------------------------------
  // The coordinated apply.

  datatype Applying = Applying(worlds: seq<World>, success: bool, effective: Option<Config>, withheld: bool, pending: Option<Pending>)

  /** Certificates first, then listeners: nothing is removed up to here. */
  function Listen(w: World, env: Env): seq<World> {
    var prepared := w.(active := env.prepared);
    if env.applied then [prepared, prepared.(runtime := Some(env.effective))] else [prepared]
  }

  function PendingFor(s: Snapshot, withheld: bool, env: Env, committed: bool): Pending {
    Pending(s.fingerprint, withheld, env.effective, RequiredSnis(env.effective.listeners), committed, s.revision, s.fingerprint)
  }

  /** Commit the LKG, and only then clean up sites that nothing references any more. */
  function CommitAndFinalize(w: World, s: Snapshot, withheld: bool, env: Env): Applying {
    var commit := Commit(w.disk, CacheRecord(env.effective, s.revision, s.fingerprint), env.commit);
    var worlds := OnDisk(w, commit.states);
    if !commit.ok then Applying(worlds, false, Some(env.effective), withheld, Some(PendingFor(s, withheld, env, false)))
    else
      var done := worlds + [Last(w, worlds).(active := env.finalized)];
      if env.finalizedOk then Applying(done, true, Some(env.effective), withheld, None)
      else Applying(done, false, Some(env.effective), withheld, Some(PendingFor(s, withheld, env, true)))
  }

  function SwitchAndFinish(w: World, s: Snapshot, withheld: bool, env: Env): Applying {
    var listening := Listen(w, env);
    if !env.applied then Applying(listening, false, Some(env.effective), withheld, None)
    else
      var rest := CommitAndFinalize(Last(w, listening), s, withheld, env);
      rest.(worlds := listening + rest.worlds)
  }

  function ApplyCoordinated(w: World, s: Snapshot, env: Env): Applying {
    if !ValidConfig(s.config) then Applying([], false, None, false, None)
    else SwitchAndFinish(w, s, Withheld(s.config, env.prepared), env)
  }

  /** The previous config is read from the cache first, which may repair the cache. */
  function ApplyPanel(w: World, s: Snapshot, env: Env): Applying {
    var loading := OnDisk(w, Load(w.disk, env.load).states);
    var a := ApplyCoordinated(Last(w, loading), s, env);
    a.(worlds := loading + a.worlds)
  }

  /** Local recovery applies without commit and without cleanup. */
  function ApplyLocal(w: World, s: Snapshot, env: Env): Applying {
    if !ValidConfig(s.config) then Applying([], false, None, false, None)
    else Applying(Listen(w, env), env.applied, Some(env.effective), Withheld(s.config, env.prepared), None)
  }

  // ---------------------------------------------------------------------------------------------------------
  // The branches of one reconciliation. The memory passed in already has the revision bookkeeping of the input.

  function Fp(c: Option<Config>): Option<Fingerprint> {
    if c.Some? then Some(FingerprintOf(c.value)) else None
  }

  datatype Order = Accept | Stale | Conflict

  function PanelOrder(m: Memory, s: Snapshot): Order {
    if s.revision == 0 then Accept
    else if s.revision < m.highest then Stale
    else if s.revision == m.highest && m.latest.Some? && m.latest.value.fingerprint != s.fingerprint then Conflict
    else Accept
  }

  function Ignored(m: Memory, s: Snapshot): Effects {
    Effects(m, [], Verdict(StaleIgnored, Some(ValidatedPanel), Some(s.fingerprint), m.lastApplied, false, false, None))
  }

  function Larger(a: nat, b: nat): nat {
    if a < b then b else a
  }

  /** The running config is left alone; only its health is looked at and reported. */
  function LocalWhilePending(m: Memory, p: Pending, source: LocalSource, env: Env): Effects {
    Effects(m, [], Verdict(if env.healthy then DegradedLocalRecovery else ApplyFailed, Some(LocalRecovery), Some(p.desired),
                           Some(FingerprintOf(p.effective)), !env.healthy, p.withheld, Some(source)))
  }

  function Matches(p: Option<Pending>, s: Snapshot): bool {
    p.Some? && p.value.desired == s.fingerprint && p.value.revision == s.revision
  }

  /** The file states of the retried commit; none if the LKG is already committed. */
  function RetryCommit(w: World, p: Pending, env: Env): Attempt {
    if p.lkgCommitted then Attempt([], true)
    else Commit(w.disk, CacheRecord(p.effective, p.revision, p.fingerprint), env.commit)
  }

  function RetryPending(m: Memory, w: World, p: Pending, s: Snapshot, env: Env): Effects {
    var applied := Some(FingerprintOf(p.effective));
    var commit := RetryCommit(w, p, env);
    var worlds := OnDisk(w, commit.states);
    var failed := Verdict(ApplyFailed, Some(ValidatedPanel), Some(s.fingerprint), applied, true, p.withheld, None);
    if !commit.ok then Effects(m, worlds, failed)
    else
      var done := worlds + [Last(w, worlds).(active := env.finalized)];
      if !env.finalizedOk then Effects(m.(pending := Some(p.(lkgCommitted := true))), done, failed)
      else
        Effects(m.(pending := None, lastApplied := applied, lastAppliedRevision := Some(s.revision), lastPanelDesired := Some(s.fingerprint)),
                done, Verdict(if p.withheld then DependencyWithheld else Converged, Some(ValidatedPanel), Some(s.fingerprint), applied, false, p.withheld, None))
  }

  function PanelUnchanged(m: Memory, running: Config, s: Snapshot): bool {
    && m.lastPanelDesired == Some(s.fingerprint)
    && m.lastApplied == Some(FingerprintOf(running))
    && m.lastAppliedRevision == Some(s.revision)
  }

  /** Nothing new is desired and no withheld dependency asks for another attempt. */
  function InspectOnly(m: Memory, w: World, running: Config, s: Snapshot, env: Env): bool {
    && PanelUnchanged(m, running, s)
    && (FingerprintOf(running) != s.fingerprint ==> !(RequiredSnis(s.config.listeners) <= w.active) && !env.retryDue)
  }

  /** Look at the runtime, repair it if needed, and report; the config that runs does not change. */
  function Inspect(m: Memory, running: Config, s: Snapshot, source: Option<LocalSource>, env: Env): Effects {
    var applied := FingerprintOf(running);
    var withheld := applied != s.fingerprint;
    var authority := Some(if source.Some? then LocalRecovery else ValidatedPanel);
    if env.healthy || (env.repaired && env.healthyAfter) then
      Effects(m, [], Verdict(if source.Some? then DegradedLocalRecovery else if withheld then DependencyWithheld else Converged,
                             authority, Some(s.fingerprint), Some(applied), false, withheld, source))
    else
      Effects(m, [], Verdict(ApplyFailed, authority, Some(s.fingerprint), Some(applied), true, withheld, source))
  }

  function AfterPanelApply(m: Memory, s: Snapshot, a: Applying): Effects {
    if !a.success then
      Effects(m.(pending := if a.pending.Some? then a.pending else m.pending), a.worlds,
              Verdict(ApplyFailed, Some(ValidatedPanel), Some(s.fingerprint), Fp(a.effective), true, a.withheld, None))
    else
      Effects(m.(lastApplied := Fp(a.effective), lastAppliedRevision := Some(s.revision), lastPanelDesired := Some(s.fingerprint)), a.worlds,
              Verdict(if a.withheld then DependencyWithheld else Converged, Some(ValidatedPanel), Some(s.fingerprint), Fp(a.effective), false, a.withheld, None))
  }

  function AfterLocalApply(m: Memory, s: Snapshot, source: LocalSource, a: Applying): Effects {
    if !a.success then
      Effects(m, a.worlds, Verdict(ApplyFailed, Some(LocalRecovery), Some(s.fingerprint), Fp(a.effective), true, a.withheld, Some(source)))
    else
      Effects(m.(lastApplied := Fp(a.effective), lastAppliedRevision := Some(s.revision)), a.worlds,
              Verdict(DegradedLocalRecovery, Some(LocalRecovery), Some(s.fingerprint), Fp(a.effective), false, a.withheld, Some(source)))
  }

  /** The memory after accepting a snapshot, with the pending apply of an older revision forgotten. */
  function Accepted(m: Memory, s: Snapshot): Memory {
    m.(highest := Larger(m.highest, s.revision), latest := Some(s), pending := None)
  }

  function ReconcilePanel(m: Memory, w: World, s: Snapshot, env: Env): Effects {
    if !PanelOrder(m, s).Accept? then Ignored(m, s)
    else
      var seen := m.(highest := Larger(m.highest, s.revision), latest := Some(s));
      if Matches(m.pending, s) then RetryPending(seen, w, m.pending.value, s, env)
      else
        var idle := Accepted(m, s);
        if w.runtime.Some? && InspectOnly(idle, w, w.runtime.value, s, env) then Inspect(idle, w.runtime.value, s, None, env)
        else AfterPanelApply(idle, s, ApplyPanel(w, s, env))
  }

  function ReconcileLocal(m: Memory, w: World, s: Snapshot, source: LocalSource, env: Env): Effects {
    var seen := m.(highest := Larger(m.highest, s.revision));
    if seen.pending.Some? then LocalWhilePending(seen, seen.pending.value, source, env)
    else if w.runtime.Some? then Inspect(seen, w.runtime.value, s, Some(source), env)
    else AfterLocalApply(seen, s, source, ApplyLocal(w, s, env))
  }

  /** One input, worked off completely. */
  function Reconcile(m: Memory, w: World, input: Input, env: Env): Effects {
    match input
    case Panel(s) => ReconcilePanel(m, w, s, env)
    case Local(s, source) => ReconcileLocal(m, w, s, source, env)
    case Degraded => Effects(m, [], Verdict(DegradedLocalRecovery, Some(LocalRecovery), None, None, false, false, Some(NoTrustedLkg)))
    case Untrusted => Effects(m, [], Verdict(InvalidUntrustedInput, None, None, None, false, false, None))
  }

  /** The memory after the status of the input has been recorded as well. */
  function Remembered(e: Effects): Memory {
    RecordStatus(e.memory, e.verdict)
  }

  /** A healthy state from a Panel snapshot survives a failed poll without local recovery. */
  function PreservesConverged(m: Memory, healthy: bool): bool {
    && m.status.state.IsConverged? && m.pending.None? && m.latest.Some?
    && m.lastPanelDesired == Some(m.latest.value.fingerprint)
    && m.lastApplied == Some(FingerprintOf(m.latest.value.config))
    && m.lastAppliedRevision == Some(m.latest.value.revision)
    && healthy
  }

  // ---------------------------------------------------------------------------------------------------------
  // What is assumed of the host.

  /** Files whose content is good can be read. */
  predicate LoadAnswers(d: Disk, env: LoadEnv) {
    if Read(d.primary).Some? then env.primaryReadable else Read(d.backup).Some? ==> env.backupReadable
  }

  /** Cleanup removes only sites nothing references, and all of those if it succeeds. */
  predicate CleanupAnswers(active: set<string>, referenced: set<string>, env: Env) {
    && active * referenced <= env.finalized <= active
    && (env.finalizedOk ==> env.finalized == active * referenced)
  }

  function PreviousConfig(r: Option<CacheRecord>): Option<Config> {
    if r.Some? then Some(r.value.config) else None
  }

  /** The branches that build an effective config and apply it. */
  predicate Builds(m: Memory, w: World, input: Input, env: Env) {
    match input
    case Panel(s) =>
      && PanelOrder(m, s).Accept? && !Matches(m.pending, s)
      && !(w.runtime.Some? && InspectOnly(Accepted(m, s), w, w.runtime.value, s, env))
    case Local(_, _) => m.pending.None? && w.runtime.None?
    case _ => false
  }

  /** The config an effective config falls back on: what the cache says, or the recovered config itself. */
  function PreviousFor(w: World, input: Input, env: Env): Option<Config> {
    match input
    case Panel(_) => PreviousConfig(Load(w.disk, env.load).record)
    case Local(s, _) => Some(s.config)
    case _ => None
  }

  /** The node's own part: where an effective config is needed, it is the one built from what is active then. */
  ghost predicate Built(m: Memory, w: World, input: Input, env: Env) {
    Builds(m, w, input, env) && ValidConfig(input.snapshot.config) ==>
      IsEffective(input.snapshot.config, PreviousFor(w, input, env), env.prepared, env.effective)
  }

  /**
   The host's part: certificate work only adds active sites, cleanup removes what it should, and the load before an
   apply does not overwrite a healthy primary with the backup.
   */
  predicate HostAnswers(m: Memory, w: World, input: Input, env: Env) {
    match input
    case Panel(s) =>
      if PanelOrder(m, s).Accept? && Matches(m.pending, s) then CleanupAnswers(w.active, m.pending.value.referenced, env)
      else Builds(m, w, input, env) ==>
             && !Overwrites(w.disk, env.load)
             && w.active <= env.prepared
             && CleanupAnswers(env.prepared, RequiredSnis(env.effective.listeners), env)
    case Local(_, _) => Builds(m, w, input, env) ==> w.active <= env.prepared
    case _ => true
  }

  ghost predicate Answers(m: Memory, w: World, input: Input, env: Env) {
    HostAnswers(m, w, input, env) && Built(m, w, input, env)
  }
}
