/**
 Whole runs of a node: boot with local recovery, Panel snapshots in any order and number, cache loads that race with
 them, and a crash in any state any of these passes through.
 */
module ReconciliationRuns {
  import opened Wrappers
  import opened NodeConfig
  import opened EffectiveConfig
  import opened LkgCache
  import opened Reconciliation
  import opened Traces
  import opened ReconciliationSafety

  datatype System = System(
    memory: Memory,
    world: World,
    up: bool,
    loaded: set<CacheRecord>,    // what this process has read from the cache
    accepted: set<Snapshot>,     // history: the Panel snapshots this process accepted
    acked: nat)                  // history: the highest revision ever reported as applied

  datatype Action =
    | Boot(env: Env)
    | Deliver(snapshot: Snapshot, env: Env)
    | LoadCache(load: LoadEnv)
    | Recover(record: CacheRecord, source: LocalSource, env: Env)
    | Reject(env: Env)

  /** An action runs to its end, or the process dies in one of the states on the way. */
  datatype Event = Complete(action: Action) | Crash(action: Action, at: World)

  function SourceOf(source: Option<Source>): LocalSource {
    match source
    case Some(PrimaryLkg) => FromPrimary
    case Some(RepairedFromBackup) => FromRepairedBackup
    case Some(BackupFallback) => FromBackupFallback
    case None => NoTrustedLkg
  }

  function SnapshotOf(r: CacheRecord): Snapshot {
    Snapshot(r.config, r.fingerprint, r.revision)
  }

  /** Whatever the cache reader accepts is accepted as local recovery input, unchanged. */
  lemma LoadedRecordIsAccepted(c: Content)
    requires Read(c).Some?
    ensures var r := Read(c).value; NewSnapshot(LocalRecovery, r.config, r.revision, r.fingerprint) == Ok(SnapshotOf(r))
  {
  }

  function BootInput(w: World, load: LoadEnv): Input {
    var l := Load(w.disk, load);
    if l.record.Some? then Local(SnapshotOf(l.record.value), SourceOf(l.source)) else Degraded
  }

  function Loading(w: World, load: LoadEnv): seq<World> {
    OnDisk(w, Load(w.disk, load).states)
  }

  /** What an action does, before the status is recorded. A cache load alone records none, like a stale delivery. */
  function Run(s: System, a: Action): Effects {
    match a
    case Boot(env) =>
      var e := Reconcile(FRESH, Last(s.world, Loading(s.world, env.load)), BootInput(s.world, env.load), env);
      e.(worlds := Loading(s.world, env.load) + e.worlds)
    case Deliver(snapshot, env) => Reconcile(s.memory, s.world, Panel(snapshot), env)
    case LoadCache(load) => Effects(s.memory, Loading(s.world, load), Verdict(StaleIgnored, None, None, None, false, false, None))
    case Recover(record, source, env) => Reconcile(s.memory, s.world, Local(SnapshotOf(record), source), env)
    case Reject(env) => Reconcile(s.memory, s.world, Untrusted, env)
  }

  ghost predicate Enabled(s: System, a: Action) {
    match a
    case Boot(env) =>
      && !s.up && LoadAnswers(s.world.disk, env.load)
      && Answers(FRESH, Last(s.world, Loading(s.world, env.load)), BootInput(s.world, env.load), env)
    case Deliver(snapshot, env) => s.up && Trusted(snapshot) && Answers(s.memory, s.world, Panel(snapshot), env)
    case LoadCache(load) => s.up && LoadAnswers(s.world.disk, load)
    case Recover(record, source, env) => s.up && record in s.loaded && Answers(s.memory, s.world, Local(SnapshotOf(record), source), env)
    case Reject(_) => s.up
  }

  ghost predicate Possible(s: System, e: Event) {
    && Enabled(s, e.action)
    && (e.Crash? ==> e.at == s.world || e.at in Run(s, e.action).worlds)
  }

  function NowLoaded(s: System, a: Action): set<CacheRecord> {
    match a
    case Boot(env) => if Load(s.world.disk, env.load).record.Some? then {Load(s.world.disk, env.load).record.value} else {}
    case LoadCache(load) => s.loaded + if Load(s.world.disk, load).record.Some? then {Load(s.world.disk, load).record.value} else {}
    case _ => s.loaded
  }

  function NowAccepted(s: System, a: Action): set<Snapshot> {
    if a.Deliver? && PanelOrder(s.memory, a.snapshot).Accept? then s.accepted + {a.snapshot} else s.accepted
  }

  function Step(s: System, e: Event): System {
    var effects := Run(s, e.action);
    if e.Crash? then System(FRESH, e.at.(runtime := None), false, {}, {}, s.acked)
    else
      var m := Remembered(effects);
      System(m, Last(s.world, effects.worlds), true, NowLoaded(s, e.action), NowAccepted(s, e.action),
             Larger(s.acked, m.lastAppliedRevision.GetOr(0)))
  }

  predicate AcceptedOk(s: System) {
    && (forall a | a in s.accepted :: a.revision <= s.memory.highest)
    && (forall a | a in s.accepted && a.revision == s.memory.highest ::
          s.memory.latest.Some? && a.fingerprint == s.memory.latest.value.fingerprint)
    && (forall a, b | a in s.accepted && b in s.accepted && a.revision == b.revision :: a.fingerprint == b.fingerprint)
  }

  predicate SystemInv(s: System) {
    && s.memory.lastAppliedRevision.GetOr(0) <= s.acked <= TrustedRevision(s.world.disk)
    && (if s.up then Inv(s.memory, s.world)
        else s.memory == FRESH && s.world.runtime.None? && Safe(s.world) && s.loaded == {} && s.accepted == {})
    && (forall r | r in s.loaded :: r.revision <= TrustedRevision(s.world.disk))
    && AcceptedOk(s)
  }

  // ---------------------------------------------------------------------------------------------------------
  // Each action keeps the invariant, in every state on the way.

  lemma StatusIsIrrelevant(m: Memory, v: Verdict, w: World)
    requires Inv(m, w)
    ensures Inv(RecordStatus(m, v), w)
    ensures RecordStatus(m, v).(status := m.status) == m
  {
  }

  /** After its boot, the node is at least at the revision a restart recovers. */
  lemma BootKeeps(s: System, env: Env)
    requires SystemInv(s) && Enabled(s, Boot(env))
    ensures var e := Run(s, Boot(env));
            && (forall x | x in e.worlds :: Safe(x) && TrustedRevision(s.world.disk) <= TrustedRevision(x.disk))
            && Inv(e.memory, Last(s.world, e.worlds)) && e.memory.latest.None?
            && TrustedRevision(s.world.disk) <= TrustedRevision(Last(s.world, e.worlds).disk)
            && e.memory.lastAppliedRevision.GetOr(0) <= TrustedRevision(Last(s.world, e.worlds).disk)
  {
    var loading := Loading(s.world, env.load);
    var w := Last(s.world, loading);
    LoadIsFaithful(s.world.disk, env.load);
    LoadOnTheWay(s.world, env.load, TrustedRevision(s.world.disk));
    LastIsIn(s.world, loading);
    RecoverKeeps(w, BootInput(s.world, env.load), env);
    var rest := Reconcile(FRESH, w, BootInput(s.world, env.load), env).worlds;
    LastConcat(s.world, loading, rest);
    LastIsIn(w, rest);
  }

  /** The first input of a process: what was recovered, or that nothing could be. */
  lemma RecoverKeeps(w: World, input: Input, env: Env)
    requires Safe(w) && w.runtime.None? && Answers(FRESH, w, input, env)
    requires if Authority(w.disk).Some? then input.Local? && input.snapshot == SnapshotOf(Authority(w.disk).value) else input.Degraded?
    ensures var e := Reconcile(FRESH, w, input, env);
            && (forall x | x in e.worlds :: OnTheWay(w, x, TrustedRevision(w.disk)))
            && Inv(e.memory, Last(w, e.worlds)) && e.memory.latest.None?
            && TrustedRevision(w.disk) <= TrustedRevision(Last(w, e.worlds).disk)
  {
    var raised := FRESH.(highest := TrustedRevision(w.disk));
    assert Inv(raised, w);
    LastIsIn(w, Reconcile(FRESH, w, input, env).worlds);
    if input.Local? {
      LocalKeepsInv(raised, w, input.snapshot, input.source, env);
      assert Reconcile(FRESH, w, input, env) == Reconcile(raised, w, input, env);
    }
  }

  /** Every state on the way is one a crash may leave; the end satisfies the invariant of a running node. */
  ghost predicate ActionKeeps(s: System, e: Effects) {
    && (forall x | x in e.worlds :: Safe(x) && TrustedRevision(s.world.disk) <= TrustedRevision(x.disk))
    && Inv(e.memory, Last(s.world, e.worlds))
    && TrustedRevision(s.world.disk) <= TrustedRevision(Last(s.world, e.worlds).disk)
  }

  lemma ReconcileKeeps(s: System, input: Input, env: Env)
    requires Inv(s.memory, s.world) && Answers(s.memory, s.world, input, env)
    requires input.Panel? ==> Trusted(input.snapshot)
    requires input.Local? ==> input.snapshot.revision <= TrustedRevision(s.world.disk)
    ensures ActionKeeps(s, Reconcile(s.memory, s.world, input, env))
  {
    match input
    case Panel(snapshot) =>
      PanelKeepsInv(s.memory, s.world, snapshot, env);
      LastIsIn(s.world, Reconcile(s.memory, s.world, input, env).worlds);
    case Local(snapshot, source) =>
      LocalKeepsInv(s.memory, s.world, snapshot, source, env);
      LastIsIn(s.world, Reconcile(s.memory, s.world, input, env).worlds);
    case _ =>
  }

  lemma LoadKeeps(s: System, load: LoadEnv)
    requires Inv(s.memory, s.world) && LoadAnswers(s.world.disk, load)
    ensures ActionKeeps(s, Run(s, LoadCache(load)))
    ensures Load(s.world.disk, load).record == Authority(s.world.disk)
  {
    LoadIsFaithful(s.world.disk, load);
    LoadOnTheWay(s.world, load, s.memory.highest);
    LastIsIn(s.world, Loading(s.world, load));
  }

  lemma EveryActionKeeps(s: System, a: Action)
    requires SystemInv(s) && Enabled(s, a)
    ensures ActionKeeps(s, Run(s, a))
  {
    match a
    case Boot(env) => BootKeeps(s, env);
    case Deliver(snapshot, env) => ReconcileKeeps(s, Panel(snapshot), env);
    case LoadCache(load) => LoadKeeps(s, load);
    case Recover(record, source, env) => ReconcileKeeps(s, Local(SnapshotOf(record), source), env);
    case Reject(env) => ReconcileKeeps(s, Untrusted, env);
  }

  /** Only an accepted Panel snapshot moves the process's revision bookkeeping. */
  lemma Bookkeeping(s: System, a: Action)
    requires SystemInv(s) && Enabled(s, a) && !a.Boot?
    ensures var m := Run(s, a).memory;
            if a.Deliver? && PanelOrder(s.memory, a.snapshot).Accept?
            then m.highest == a.snapshot.revision && m.latest == Some(a.snapshot)
            else m.highest == s.memory.highest && m.latest == s.memory.latest
  {
    if a.Deliver? && PanelOrder(s.memory, a.snapshot).Accept? {
      AcceptedBecomesLatest(s.memory, s.world, a.snapshot, a.env);
    } else if a.Recover? {
      LocalKeepsInv(s.memory, s.world, SnapshotOf(a.record), a.source, a.env);
    }
  }

  lemma AcceptingKeeps(accepted: set<Snapshot>, m: Memory, snapshot: Snapshot)
    requires LatestOk(m) && Trusted(snapshot) && PanelOrder(m, snapshot).Accept?
    requires forall a | a in accepted :: a.revision <= m.highest
    requires forall a | a in accepted && a.revision == m.highest :: m.latest.Some? && a.fingerprint == m.latest.value.fingerprint
    requires forall a, b | a in accepted && b in accepted && a.revision == b.revision :: a.fingerprint == b.fingerprint
    ensures m.highest <= snapshot.revision
    ensures forall a | a in accepted + {snapshot} :: a.revision <= snapshot.revision
    ensures forall a | a in accepted + {snapshot} && a.revision == snapshot.revision :: a.fingerprint == snapshot.fingerprint
    ensures forall a, b | a in accepted + {snapshot} && b in accepted + {snapshot} && a.revision == b.revision :: a.fingerprint == b.fingerprint
  {
  }

  /** The process's own bookkeeping: revisions only grow, and one revision never stands for two configs. */
  lemma AcceptanceKeeps(s: System, a: Action)
    requires SystemInv(s) && Enabled(s, a) && !a.Boot?
    ensures var m := Run(s, a).memory;
            AcceptedOk(s.(memory := RecordStatus(m, Run(s, a).verdict), accepted := NowAccepted(s, a))) && s.memory.highest <= m.highest
  {
    Bookkeeping(s, a);
    if a.Deliver? && PanelOrder(s.memory, a.snapshot).Accept? {
      AcceptingKeeps(s.accepted, s.memory, a.snapshot);
    }
  }

  lemma LoadedKeeps(s: System, a: Action)
    requires SystemInv(s) && Enabled(s, a)
    ensures forall r | r in NowLoaded(s, a) :: r.revision <= TrustedRevision(Step(s, Complete(a)).world.disk)
  {
    EveryActionKeeps(s, a);
    match a
    case Boot(env) => LoadIsFaithful(s.world.disk, env.load);
    case LoadCache(load) => LoadKeeps(s, load);
    case _ =>
  }

  lemma StepKeepsSystemInv(s: System, e: Event)
    requires SystemInv(s) && Possible(s, e)
    ensures SystemInv(Step(s, e))
  {
    EveryActionKeeps(s, e.action);
    if e.Complete? {
      var effects := Run(s, e.action);
      StatusIsIrrelevant(effects.memory, effects.verdict, Last(s.world, effects.worlds));
      if !e.action.Boot? {
        AcceptanceKeeps(s, e.action);
      }
      LoadedKeeps(s, e.action);
    }
  }

  // ---------------------------------------------------------------------------------------------------------
  // All reachable states.

  ghost predicate Initial(s: System) {
    s.memory == FRESH && !s.up && s.loaded == {} && s.accepted == {} && s.acked == 0 && s.world.runtime.None? && Safe(s.world)
  }

  ghost predicate Reaches(start: System, events: seq<Event>, s: System)
    decreases |events|
  {
    if events == [] then s == start
    else Possible(start, events[0]) && Reaches(Step(start, events[0]), events[1..], s)
  }

  ghost predicate Reachable(s: System) {
    exists start, events :: Initial(start) && Reaches(start, events, s)
  }

  lemma {:induction false} RunsKeepSystemInv(start: System, events: seq<Event>, s: System)
    requires SystemInv(start) && Reaches(start, events, s)
    ensures SystemInv(s)
    decreases |events|
  {
    if events != [] {
      StepKeepsSystemInv(start, events[0]);
      RunsKeepSystemInv(Step(start, events[0]), events[1..], s);
    }
  }

  lemma ReachableKeepsInv(s: System)
    requires Reachable(s)
    ensures SystemInv(s)
  {
    var start, events :| Initial(start) && Reaches(start, events, s);
    RunsKeepSystemInv(start, events, s);
  }

  /**
   A route never outlives its site: in every reachable state and in every state an action passes through, each
   required SNI of the running config and of the recoverable LKG has an active site.
   */
  lemma RoutesNeverOutliveSites(s: System, e: Event, x: World)
    requires Reachable(s) && Possible(s, e) && (x == s.world || x in Run(s, e.action).worlds)
    ensures Safe(x) && Safe(Step(s, e).world)
  {
    ReachableKeepsInv(s);
    EveryActionKeeps(s, e.action);
    StepKeepsSystemInv(s, e);
  }

  /** Wherever a crash falls, what can be recovered is at least the last acknowledged revision. */
  lemma AcknowledgedIsRecoverable(s: System, e: Event, x: World)
    requires Reachable(s) && Possible(s, e) && (x == s.world || x in Run(s, e.action).worlds)
    ensures s.acked <= TrustedRevision(x.disk)
    ensures Step(s, e).acked <= TrustedRevision(Step(s, e).world.disk)
  {
    ReachableKeepsInv(s);
    EveryActionKeeps(s, e.action);
    StepKeepsSystemInv(s, e);
  }

  /** After any crashes and restarts, a snapshot older than an acknowledged revision changes nothing at all. */
  lemma OlderThanAcknowledgedIsIgnored(s: System, snapshot: Snapshot, env: Env)
    requires Reachable(s) && Enabled(s, Deliver(snapshot, env)) && snapshot.revision < s.acked
    ensures Step(s, Complete(Deliver(snapshot, env))) == s
  {
    ReachableKeepsInv(s);
    IgnoredLeavesEverything(s.memory, s.world, snapshot, env);
  }

  /** In one process, two accepted snapshots with the same revision are the same config. */
  lemma EqualRevisionsAreEqualConfigs(s: System, a: Snapshot, b: Snapshot)
    requires Reachable(s) && a in s.accepted && b in s.accepted && a.revision == b.revision
    ensures a.fingerprint == b.fingerprint
  {
    ReachableKeepsInv(s);
  }

  /** The highest revision never decreases while the process lives. */
  lemma HighestNeverDecreases(s: System, a: Action)
    requires Reachable(s) && Enabled(s, a)
    ensures s.memory.highest <= Step(s, Complete(a)).memory.highest
  {
    ReachableKeepsInv(s);
    if !a.Boot? {
      AcceptanceKeeps(s, a);
    }
  }

  /** Whenever a delivery ends as converged, runtime, LKG and desired config agree at that revision. */
  lemma ConvergedAlwaysAgrees(s: System, snapshot: Snapshot, env: Env)
    requires Reachable(s) && Enabled(s, Deliver(snapshot, env)) && Run(s, Deliver(snapshot, env)).verdict.outcome.Converged?
    ensures var t := Step(s, Complete(Deliver(snapshot, env)));
            && Agreed(t.memory, t.world, snapshot)
            && t.memory.status.state.IsConverged? && t.memory.status.appliedRevision == Some(snapshot.revision)
  {
    ReachableKeepsInv(s);
    ConvergedIsHonest(s.memory, s.world, snapshot, env);
  }

  /** A failed poll that leaves a converged node alone leaves it in agreement. */
  lemma PreservedAlwaysAgrees(s: System, healthy: bool)
    requires Reachable(s) && s.up && PreservesConverged(s.memory, healthy)
    ensures Agreed(s.memory, s.world, s.memory.latest.value)
  {
    ReachableKeepsInv(s);
    PreservedStateAgrees(s.memory, s.world, healthy);
  }

  /** In any reachable state with a pending apply, recovery of anything this process loaded leaves it all alone. */
  lemma RecoveryNeverTouchesPending(s: System, record: CacheRecord, source: LocalSource, env: Env)
    requires Reachable(s) && Enabled(s, Recover(record, source, env)) && s.memory.pending.Some?
    ensures var t := Step(s, Complete(Recover(record, source, env)));
            t.world == s.world && t.memory == s.memory.(status := t.memory.status) && t.acked == s.acked
  {
    ReachableKeepsInv(s);
    LocalRecoveryRespectsPending(s.memory, s.world, SnapshotOf(record), source, env);
    var e := Run(s, Recover(record, source, env));
    assert e.worlds == [] && e.memory == s.memory;
    StatusIsIrrelevant(s.memory, e.verdict, s.world);
  }

  /** How a delivery can end a pending apply. */
  predicate PendingEnd(p: Pending, s: System, t: System, snapshot: Snapshot) {
    if snapshot.revision == p.revision && snapshot.fingerprint == p.desired then
      && t.world.runtime == s.world.runtime
      && (if t.memory.pending.Some?
          then t.memory.pending.value.(lkgCommitted := p.lkgCommitted) == p && t.memory.status.state.HasFailed?
          else t.memory.lastAppliedRevision == Some(p.revision))
    else if snapshot.revision <= p.revision then t == s
    else t.memory.pending.None? || t.memory.pending.value.revision == snapshot.revision
  }

  lemma RetriedPending(s: System, snapshot: Snapshot, env: Env)
    requires SystemInv(s) && Enabled(s, Deliver(snapshot, env)) && s.memory.pending.Some?
    requires !(snapshot.revision <= s.memory.pending.value.revision && !Matches(s.memory.pending, snapshot))
    ensures PendingEnd(s.memory.pending.value, s, Step(s, Complete(Deliver(snapshot, env))), snapshot)
  {
    PendingEndsByItsOwnSnapshot(s.memory, s.world, snapshot, env);
    AcceptedBecomesLatest(s.memory, s.world, snapshot, env);
  }

  lemma IgnoredWhilePending(s: System, snapshot: Snapshot, env: Env)
    requires SystemInv(s) && Enabled(s, Deliver(snapshot, env)) && s.memory.pending.Some?
    requires snapshot.revision <= s.memory.pending.value.revision && !Matches(s.memory.pending, snapshot)
    ensures Step(s, Complete(Deliver(snapshot, env))) == s
  {
    IgnoredLeavesEverything(s.memory, s.world, snapshot, env);
  }

  /**
   Over any run, a pending apply is completed only by its own revision and fingerprint, without the listeners being
   applied again, or superseded by a newer revision; whatever else arrives changes nothing.
   */
  lemma PendingAlwaysEndsByItsOwnSnapshot(s: System, snapshot: Snapshot, env: Env)
    requires Reachable(s) && Enabled(s, Deliver(snapshot, env)) && s.memory.pending.Some?
    ensures PendingEnd(s.memory.pending.value, s, Step(s, Complete(Deliver(snapshot, env))), snapshot)
  {
    ReachableKeepsInv(s);
    if snapshot.revision <= s.memory.pending.value.revision && !Matches(s.memory.pending, snapshot) {
      IgnoredWhilePending(s, snapshot, env);
    } else {
      RetriedPending(s, snapshot, env);
    }
  }

  /** Over any run, a delivery acknowledges a revision only once it is committed together with what runs. */
  lemma AcknowledgedIsAlwaysRecorded(s: System, snapshot: Snapshot, env: Env)
    requires Reachable(s) && Enabled(s, Deliver(snapshot, env))
    ensures var t := Step(s, Complete(Deliver(snapshot, env)));
            t.memory.lastAppliedRevision != s.memory.lastAppliedRevision ==>
              && t.memory.lastAppliedRevision == Some(snapshot.revision) && t.memory.latest == Some(snapshot)
              && t.memory.pending.None? && t.world.runtime.Some?
              && Primary(t.world, t.world.runtime.value, snapshot.revision, snapshot.fingerprint)
  {
    ReachableKeepsInv(s);
    if ReconcilePanel(s.memory, s.world, snapshot, env).memory.lastAppliedRevision != s.memory.lastAppliedRevision {
      AcknowledgedMeansRecorded(s.memory, s.world, snapshot, env);
    }
  }

  // ---------------------------------------------------------------------------------------------------------
  // What a failed read of a healthy primary does.

  /**
   A load that cannot read what it should loses an acknowledged revision in exactly one case: it puts the backup over
   the healthy primary, and the backup is older than what was acknowledged.
   */
  lemma AcknowledgedSurvivesLoadIff(s: System, load: LoadEnv)
    requires Reachable(s)
    ensures (forall x | x in Loading(s.world, load) :: s.acked <= TrustedRevision(x.disk)) <==>
            !(Overwrites(s.world.disk, load) && Read(s.world.disk.backup).value.revision < s.acked)
  {
    ReachableKeepsInv(s);
    UnreadablePrimaryIsReplaced(s.world.disk, load);
    var states := Load(s.world.disk, load).states;
    var worlds := Loading(s.world, load);
    LastOnDisk(s.world, states);
    if Overwrites(s.world.disk, load) {
      assert Last(s.world.disk, states) != s.world.disk;
      assert worlds[|states| - 1] == Last(s.world, worlds);
    }
  }

  const NOTHING := Config([], [])

  function NothingAt(revision: nat): CacheRecord {
    CacheRecord(NOTHING, revision, FingerprintOf(NOTHING))
  }

  /** A node that is down, its cache holding one revision and, as backup, the one before. */
  function StoppedNode(revision: nat): System
    requires revision > 0
  {
    System(FRESH, World(None, {}, Disk(Stored(NothingAt(revision)), Stored(NothingAt(revision - 1)), Missing, Missing)), false, {}, {}, 0)
  }

  const UNDISTURBED := Env(LoadEnv(true, true, true, true, Written, Renamed, true, false), {}, NOTHING, true,
                           CommitEnv(Written, true, true, true, Written, Renamed, Renamed, true), {}, true, true, true, true, false)

  /** The node after an undisturbed boot: it runs and has acknowledged the recovered revision. */
  function BootedNode(revision: nat): System
    requires revision > 0
  {
    Step(StoppedNode(revision), Complete(Boot(UNDISTURBED)))
  }

  /** A reachable state and one failed read after which an acknowledged revision can no longer be recovered. */
  lemma FailedReadLosesAcknowledged(n: nat)
    requires n >= 2
    ensures var s := BootedNode(n);
            var x := Last(s.world, Loading(s.world, PRIMARY_UNREADABLE));
            && Reachable(s) && s.up && s.acked == n == TrustedRevision(s.world.disk)
            && TrustedRevision(x.disk) == n - 1
  {
    var start := StoppedNode(n);
    var s := BootedNode(n);
    BootOfStoppedNode(n);
    assert Reaches(s, [], s);
    assert [Complete(Boot(UNDISTURBED))][1..] == [];
    assert Reaches(start, [Complete(Boot(UNDISTURBED))], s);
    OneFailedReadGoesBack(NothingAt(n), NothingAt(n - 1), Renamed);
    LastOnDisk(s.world, Load(s.world.disk, PRIMARY_UNREADABLE).states);
  }

  lemma BootOfStoppedNode(n: nat)
    requires n >= 2
    ensures var start := StoppedNode(n);
            && Initial(start) && Enabled(start, Boot(UNDISTURBED))
            && BootedNode(n).up && BootedNode(n).acked == n && BootedNode(n).world.disk == start.world.disk
  {
  }
}
