/** What every reconciliation keeps, at every state it passes through and in the memory it leaves. */
module ReconciliationSafety {
  import opened Wrappers
  import opened NodeConfig
  import opened EffectiveConfig
  import opened LkgCache
  import opened Reconciliation
  import opened Traces

  /** The revision a restart would recover. */
  function TrustedRevision(d: Disk): nat {
    if Authority(d).Some? then Authority(d).value.revision else 0
  }

  predicate SitesActive(c: Config, active: set<string>) {
    RequiredSnis(c.listeners) <= active
  }

  /** No route outlives its site: neither in the running config nor in the one a restart would recover. */
  predicate Safe(w: World) {
    && (w.runtime.Some? ==> SitesActive(w.runtime.value, w.active))
    && (Authority(w.disk).Some? ==> SitesActive(Authority(w.disk).value.config, w.active))
  }

  /** A state on the way: safe, and the recoverable revision has neither gone back nor beyond what was accepted. */
  predicate OnTheWay(w: World, s: World, highest: nat) {
    Safe(s) && TrustedRevision(w.disk) <= TrustedRevision(s.disk) <= highest
  }

  predicate Primary(w: World, c: Config, revision: nat, fingerprint: Fingerprint) {
    Read(w.disk.primary) == Some(CacheRecord(c, revision, fingerprint))
  }

  /** A Panel snapshot as the input check lets it through, with a positive revision. */
  predicate Trusted(s: Snapshot) {
    s.revision > 0 && s.fingerprint == FingerprintOf(s.config) && ValidConfig(s.config)
  }

  /**
   A snapshot is let through exactly if its config is valid and, from the Panel with a revision, its fingerprint is that
   of the config; without a revision it carries the fingerprint of its config, whatever was sent.
   */
  lemma LetThroughIff(source: Origin, config: Config, revision: nat, fingerprint: Fingerprint)
    ensures NewSnapshot(source, config, revision, fingerprint).Ok? <==>
            ValidConfig(config) && (source.ValidatedPanel? && revision != 0 ==> fingerprint == FingerprintOf(config))
    ensures revision != 0 ==>
              (NewSnapshot(ValidatedPanel, config, revision, fingerprint).Ok? <==> Trusted(Snapshot(config, fingerprint, revision)))
    ensures NewSnapshot(source, config, revision, fingerprint).Ok? ==>
              var s := NewSnapshot(source, config, revision, fingerprint).value;
              s.config == config && s.revision == revision && s.fingerprint == if revision == 0 then FingerprintOf(config) else fingerprint
  {
  }

  predicate LatestOk(m: Memory) {
    m.latest.Some? ==> Trusted(m.latest.value) && m.latest.value.revision == m.highest
  }

  /** A pending apply belongs to the latest snapshot and owns the runtime. */
  predicate PendingOk(m: Memory, w: World) {
    m.pending.Some? ==>
      var p := m.pending.value;
      && m.latest.Some? && p.revision == m.highest && p.desired == p.fingerprint == m.latest.value.fingerprint
      && w.runtime == Some(p.effective) && p.referenced == RequiredSnis(p.effective.listeners)
      && (p.lkgCommitted ==> Primary(w, p.effective, p.revision, p.fingerprint))
      && (!p.withheld ==> FingerprintOf(p.effective) == p.desired)
  }

  /** The latest snapshot has been applied and committed, and nothing is pending. */
  predicate Settled(m: Memory) {
    m.pending.None? && m.lastPanelDesired.Some? && m.lastAppliedRevision == Some(m.highest)
  }

  predicate SettledOk(m: Memory, w: World) {
    Settled(m) ==>
      && m.latest.Some? && m.lastPanelDesired == Some(m.latest.value.fingerprint)
      && w.runtime.Some? && Primary(w, w.runtime.value, m.highest, m.latest.value.fingerprint)
      && m.lastApplied == Fp(w.runtime)
  }

  predicate AppliedOk(m: Memory, w: World) {
    && (m.lastPanelDesired.Some? ==> w.runtime.Some?)
    && (m.lastAppliedRevision.Some? ==> m.lastAppliedRevision.value <= TrustedRevision(w.disk))
  }

  predicate Inv(m: Memory, w: World) {
    Safe(w) && LatestOk(m) && PendingOk(m, w) && SettledOk(m, w) && AppliedOk(m, w) && TrustedRevision(w.disk) <= m.highest
  }

  // ---------------------------------------------------------------------------------------------------------
  // The pieces of an apply.

  lemma LastIsIn(w: World, worlds: seq<World>)
    ensures Last(w, worlds) == w || Last(w, worlds) in worlds
  {
  }

  lemma LastOnDisk(w: World, disks: seq<Disk>)
    ensures Last(w, OnDisk(w, disks)) == w.(disk := Last(w.disk, disks))
    ensures forall s | s in OnDisk(w, disks) :: s == w.(disk := s.disk) && s.disk in disks
  {
  }

  lemma LastConcat(w: World, a: seq<World>, b: seq<World>)
    ensures Last(w, a + b) == Last(Last(w, a), b)
  {
  }

  /** Writing the LKG: old or new authority at every state, so the revision never goes back. */
  lemma CommitOnTheWay(w: World, r: CacheRecord, env: CommitEnv, highest: nat)
    requires Safe(w) && r.revision > 0 && TrustedRevision(w.disk) <= r.revision <= highest && SitesActive(r.config, w.active)
    ensures forall s | s in OnDisk(w, Commit(w.disk, r, env).states) :: OnTheWay(w, s, highest)
    ensures Commit(w.disk, r, env).ok ==>
              var s := Last(w, OnDisk(w, Commit(w.disk, r, env).states));
              Primary(s, r.config, r.revision, r.fingerprint) && s == w.(disk := s.disk)
  {
    LastOnDisk(w, Commit(w.disk, r, env).states);
    forall s | s in OnDisk(w, Commit(w.disk, r, env).states) ensures OnTheWay(w, s, highest) {
      CommitIsCrashAtomic(w.disk, r, env, s.disk);
    }
    CommitOutcome(w.disk, r, env);
  }

  /** Loading the previous config changes no authority, and no healthy primary, unless it overwrites one. */
  lemma LoadOnTheWay(w: World, env: LoadEnv, highest: nat)
    requires Safe(w) && TrustedRevision(w.disk) <= highest && !Overwrites(w.disk, env)
    ensures forall s | s in OnDisk(w, Load(w.disk, env).states) :: OnTheWay(w, s, highest)
    ensures var s := Last(w, OnDisk(w, Load(w.disk, env).states));
            && s == w.(disk := s.disk) && Authority(s.disk) == Authority(w.disk)
            && (Read(w.disk.primary).Some? ==> Read(s.disk.primary) == Read(w.disk.primary))
  {
    LastOnDisk(w, Load(w.disk, env).states);
    UnreadablePrimaryIsReplaced(w.disk, env);
    LastIsIn(w, OnDisk(w, Load(w.disk, env).states));
    LoadOutcome(w.disk, env);
  }

  /** A load that can read what it depends on also returns what a restart would recover. */
  lemma LoadIsFaithful(d: Disk, env: LoadEnv)
    requires LoadAnswers(d, env)
    ensures Load(d, env).record == Authority(d) && !Overwrites(d, env)
  {
    LoadFindsAuthority(d, env);
  }

  /** Certificates, then listeners: the new routes have active sites, and the old ones keep theirs until then. */
  lemma ListenOnTheWay(w: World, env: Env, highest: nat)
    requires Safe(w) && TrustedRevision(w.disk) <= highest
    requires w.active <= env.prepared && SitesActive(env.effective, env.prepared)
    ensures forall s | s in Listen(w, env) :: OnTheWay(w, s, highest) && s.disk == w.disk && s.active == env.prepared
    ensures var s := Last(w, Listen(w, env));
            s == World(if env.applied then Some(env.effective) else w.runtime, env.prepared, w.disk)
  {
  }

  /** Cleanup after the commit takes no site away from the config that runs and is recorded. */
  lemma CleanupOnTheWay(w: World, c: Config, revision: nat, fingerprint: Fingerprint, env: Env)
    requires Safe(w) && w.runtime == Some(c) && Primary(w, c, revision, fingerprint)
    requires CleanupAnswers(w.active, RequiredSnis(c.listeners), env)
    ensures Safe(w.(active := env.finalized))
  {
  }

  /** After the listeners run: commit, then cleanup. A failure leaves a pending record that says how far it got. */
  lemma CommitAndFinalizeOnTheWay(w: World, s: Snapshot, withheld: bool, env: Env, highest: nat)
    requires Safe(w) && w.runtime == Some(env.effective) && s.revision > 0
    requires TrustedRevision(w.disk) <= s.revision <= highest
    requires CleanupAnswers(w.active, RequiredSnis(env.effective.listeners), env)
    ensures var a := CommitAndFinalize(w, s, withheld, env);
            var e := Last(w, a.worlds);
            && (forall x | x in a.worlds :: OnTheWay(w, x, highest)) && OnTheWay(w, e, highest)
            && e.runtime == Some(env.effective) && a.effective == Some(env.effective) && a.withheld == withheld
            && (a.success ==> Primary(e, env.effective, s.revision, s.fingerprint) && a.pending.None?)
            && (!a.success ==>
                  && a.pending.Some? && a.pending == Some(PendingFor(s, withheld, env, a.pending.value.lkgCommitted))
                  && (a.pending.value.lkgCommitted ==> Primary(e, env.effective, s.revision, s.fingerprint)))
  {
    var r := CacheRecord(env.effective, s.revision, s.fingerprint);
    var commit := Commit(w.disk, r, env.commit);
    var worlds := OnDisk(w, commit.states);
    CommitOnTheWay(w, r, env.commit, highest);
    LastIsIn(w, worlds);
    LastOnDisk(w, commit.states);
    if commit.ok {
      var e := Last(w, worlds);
      CleanupOnTheWay(e, env.effective, s.revision, s.fingerprint, env);
      assert Last(w, worlds + [e.(active := env.finalized)]) == e.(active := env.finalized);
    }
  }

  lemma EffectiveIsServed(desired: Config, previous: Option<Config>, env: Env)
    requires IsEffective(desired, previous, env.prepared, env.effective)
    ensures SitesActive(env.effective, env.prepared)
    ensures !Withheld(desired, env.prepared) ==> env.effective == desired
  {
    RequiredListenersHaveActiveSites(desired, previous, env.prepared, env.effective);
    if !Withheld(desired, env.prepared) {
      NothingWithheldIsExact(desired, previous, env.prepared, env.effective);
    }
  }

  lemma OnTheWayTrans(w: World, v: World, s: World, highest: nat)
    requires OnTheWay(w, v, highest) && OnTheWay(v, s, highest)
    ensures OnTheWay(w, s, highest)
  {
  }

  /** What the coordinated apply of a Panel snapshot can leave behind. */
  ghost predicate ApplyResult(w: World, s: Snapshot, a: Applying, highest: nat) {
    var e := Last(w, a.worlds);
    && (forall x | x in a.worlds :: OnTheWay(w, x, highest)) && OnTheWay(w, e, highest)
    && (a.success ==>
          && a.pending.None? && a.effective.Some? && e.runtime == a.effective
          && Primary(e, a.effective.value, s.revision, s.fingerprint)
          && (!a.withheld ==> a.effective.value == s.config))
    && (!a.success && a.pending.None? ==>
          && e.runtime == w.runtime && Authority(e.disk) == Authority(w.disk)
          && (Read(w.disk.primary).Some? ==> Read(e.disk.primary) == Read(w.disk.primary)))
    && (!a.success && a.pending.Some? ==>
          var p := a.pending.value;
          && e.runtime == Some(p.effective) && p.desired == p.fingerprint == s.fingerprint && p.revision == s.revision
          && p.referenced == RequiredSnis(p.effective.listeners) && p.withheld == a.withheld
          && (p.lkgCommitted ==> Primary(e, p.effective, p.revision, p.fingerprint))
          && (!p.withheld ==> p.effective == s.config))
  }

  lemma CoordinatedApply(w: World, s: Snapshot, previous: Option<Config>, env: Env)
    requires Safe(w) && Trusted(s) && TrustedRevision(w.disk) <= s.revision
    requires w.active <= env.prepared && IsEffective(s.config, previous, env.prepared, env.effective)
    requires CleanupAnswers(env.prepared, RequiredSnis(env.effective.listeners), env)
    ensures ApplyResult(w, s, ApplyCoordinated(w, s, env), s.revision)
  {
    var listening := Listen(w, env);
    EffectiveIsServed(s.config, previous, env);
    ListenOnTheWay(w, env, s.revision);
    if env.applied {
      var e := Last(w, listening);
      var withheld := Withheld(s.config, env.prepared);
      CommitAndFinalizeOnTheWay(e, s, withheld, env, s.revision);
      var rest := CommitAndFinalize(e, s, withheld, env);
      LastConcat(w, listening, rest.worlds);
      forall x | x in listening + rest.worlds ensures OnTheWay(w, x, s.revision) {
        if x in rest.worlds {
          OnTheWayTrans(w, e, x, s.revision);
        }
      }
    }
  }

  lemma PanelApply(w: World, s: Snapshot, env: Env)
    requires Safe(w) && Trusted(s) && TrustedRevision(w.disk) <= s.revision
    requires !Overwrites(w.disk, env.load) && w.active <= env.prepared
    requires IsEffective(s.config, PreviousConfig(Load(w.disk, env.load).record), env.prepared, env.effective)
    requires CleanupAnswers(env.prepared, RequiredSnis(env.effective.listeners), env)
    ensures ApplyResult(w, s, ApplyPanel(w, s, env), s.revision)
  {
    var loading := OnDisk(w, Load(w.disk, env.load).states);
    var v := Last(w, loading);
    LoadOnTheWay(w, env.load, s.revision);
    LastIsIn(w, loading);
    CoordinatedApply(v, s, PreviousConfig(Load(w.disk, env.load).record), env);
    var a := ApplyCoordinated(v, s, env);
    LastConcat(w, loading, a.worlds);
    forall x | x in loading + a.worlds ensures OnTheWay(w, x, s.revision) {
      if x in a.worlds {
        OnTheWayTrans(w, v, x, s.revision);
      }
    }
  }

  // ---------------------------------------------------------------------------------------------------------
  // The branches.

  /** Every state on the way is safe, and what is left at the end satisfies the invariant. */
  ghost predicate Keeps(m: Memory, w: World, e: Effects) {
    && m.highest <= e.memory.highest
    && (forall x | x in e.worlds :: OnTheWay(w, x, e.memory.highest))
    && Inv(e.memory, Last(w, e.worlds))
  }

  /** Before its apply, a newly accepted snapshot is settled only if it already was. */
  lemma AcceptedIsSettledBefore(m: Memory, w: World, s: Snapshot)
    requires Inv(m, w) && Trusted(s) && PanelOrder(m, s).Accept? && !Matches(m.pending, s)
    ensures var n := Accepted(m, s);
            && n.highest == s.revision && LatestOk(n)
            && (Settled(n) ==> Settled(m) && m.highest == n.highest && m.latest.Some? && m.latest.value.fingerprint == s.fingerprint)
  {
  }

  lemma FailedApplyKeepsInv(m: Memory, w: World, s: Snapshot, a: Applying)
    requires Inv(m, w) && Trusted(s) && PanelOrder(m, s).Accept? && !Matches(m.pending, s)
    requires ApplyResult(w, s, a, s.revision) && !a.success
    ensures Keeps(m, w, AfterPanelApply(Accepted(m, s), s, a))
  {
    AcceptedIsSettledBefore(m, w, s);
  }

  lemma ApplyKeepsInv(m: Memory, w: World, s: Snapshot, a: Applying)
    requires Inv(m, w) && Trusted(s) && PanelOrder(m, s).Accept? && !Matches(m.pending, s)
    requires ApplyResult(w, s, a, s.revision) && a.success
    ensures Keeps(m, w, AfterPanelApply(Accepted(m, s), s, a))
  {
    AcceptedIsSettledBefore(m, w, s);
  }

  lemma InspectKeepsInv(m: Memory, w: World, s: Snapshot, env: Env)
    requires Inv(m, w) && Trusted(s) && PanelOrder(m, s).Accept? && !Matches(m.pending, s)
    requires w.runtime.Some? && PanelUnchanged(Accepted(m, s), w.runtime.value, s)
    ensures Keeps(m, w, Inspect(Accepted(m, s), w.runtime.value, s, None, env))
  {
    AcceptedIsSettledBefore(m, w, s);
  }

  /** The retried commit and cleanup of the pending apply. */
  lemma RetryKeepsInv(m: Memory, w: World, s: Snapshot, env: Env)
    requires Inv(m, w) && Trusted(s) && PanelOrder(m, s).Accept? && Matches(m.pending, s)
    requires CleanupAnswers(w.active, m.pending.value.referenced, env)
    ensures Keeps(m, w, RetryPending(m.(highest := Larger(m.highest, s.revision), latest := Some(s)), w, m.pending.value, s, env))
  {
    var p := m.pending.value;
    var r := CacheRecord(p.effective, p.revision, p.fingerprint);
    var commit := RetryCommit(w, p, env);
    var worlds := OnDisk(w, commit.states);
    CommitOnTheWay(w, r, env.commit, m.highest);
    LastIsIn(w, worlds);
    LastOnDisk(w, commit.states);
    if commit.ok {
      var e := Last(w, worlds);
      CleanupOnTheWay(e, p.effective, p.revision, p.fingerprint, env);
      assert Last(w, worlds + [e.(active := env.finalized)]) == e.(active := env.finalized);
    }
  }

  lemma PanelKeepsInv(m: Memory, w: World, s: Snapshot, env: Env)
    requires Inv(m, w) && Trusted(s) && Answers(m, w, Panel(s), env)
    ensures Keeps(m, w, ReconcilePanel(m, w, s, env))
  {
    if PanelOrder(m, s).Accept? {
      if Matches(m.pending, s) {
        RetryKeepsInv(m, w, s, env);
      } else if w.runtime.Some? && InspectOnly(Accepted(m, s), w, w.runtime.value, s, env) {
        InspectKeepsInv(m, w, s, env);
      } else {
        PanelApply(w, s, env);
        var a := ApplyPanel(w, s, env);
        if a.success {
          ApplyKeepsInv(m, w, s, a);
        } else {
          FailedApplyKeepsInv(m, w, s, a);
        }
      }
    }
  }

  /** With nothing running yet, the recovered config is applied without touching the cache. */
  lemma LocalApplyKeepsInv(m: Memory, w: World, s: Snapshot, source: LocalSource, env: Env)
    requires Inv(m, w) && s.revision <= TrustedRevision(w.disk) && w.runtime.None? && w.active <= env.prepared
    requires ValidConfig(s.config) ==> IsEffective(s.config, Some(s.config), env.prepared, env.effective)
    ensures Keeps(m, w, AfterLocalApply(m, s, source, ApplyLocal(w, s, env)))
  {
    if ValidConfig(s.config) {
      EffectiveIsServed(s.config, Some(s.config), env);
      ListenOnTheWay(w, env, m.highest);
    }
  }

  lemma LocalKeepsInv(m: Memory, w: World, s: Snapshot, source: LocalSource, env: Env)
    requires Inv(m, w) && s.revision <= TrustedRevision(w.disk) && Answers(m, w, Local(s, source), env)
    ensures Keeps(m, w, ReconcileLocal(m, w, s, source, env))
    ensures ReconcileLocal(m, w, s, source, env).memory.highest == m.highest
  {
    assert m.(highest := Larger(m.highest, s.revision)) == m;
    if w.runtime.None? && m.pending.None? {
      LocalApplyKeepsInv(m, w, s, source, env);
    }
  }

  // ---------------------------------------------------------------------------------------------------------
  // What a verdict means.

  /** The running config, the recorded one and the desired one are the same, at the same revision. */
  predicate Agreed(m: Memory, w: World, s: Snapshot) {
    && m.latest == Some(s) && m.lastAppliedRevision == Some(s.revision)
    && w.runtime.Some? && FingerprintOf(w.runtime.value) == FingerprintOf(s.config)
    && Primary(w, w.runtime.value, s.revision, s.fingerprint)
  }

  lemma RetryAgrees(m: Memory, w: World, s: Snapshot, env: Env)
    requires Inv(m, w) && Trusted(s) && PanelOrder(m, s).Accept? && Matches(m.pending, s)
    requires CleanupAnswers(w.active, m.pending.value.referenced, env)
    requires ReconcilePanel(m, w, s, env).verdict.outcome.Converged?
    ensures var e := ReconcilePanel(m, w, s, env); Agreed(e.memory, Last(w, e.worlds), s)
  {
    RetryKeepsInv(m, w, s, env);
  }

  /** "Converged" is honest on all three paths: fresh apply, retried finalization, inspection or repair. */
  lemma ConvergedIsHonest(m: Memory, w: World, s: Snapshot, env: Env)
    requires Inv(m, w) && Trusted(s) && Answers(m, w, Panel(s), env)
    requires ReconcilePanel(m, w, s, env).verdict.outcome.Converged?
    ensures var e := ReconcilePanel(m, w, s, env); Agreed(e.memory, Last(w, e.worlds), s)
  {
    if Matches(m.pending, s) {
      RetryAgrees(m, w, s, env);
    } else if w.runtime.Some? && InspectOnly(Accepted(m, s), w, w.runtime.value, s, env) {
      AcceptedIsSettledBefore(m, w, s);
    } else {
      PanelApply(w, s, env);
    }
  }

  /** Inputs as the checks in front of the reconciler let them through. */
  predicate Admissible(w: World, input: Input) {
    match input
    case Panel(s) => Trusted(s)
    case Local(s, _) => s.revision <= TrustedRevision(w.disk)
    case _ => true
  }

  /** What holds after any input: the invariant, safety in every state passed through, and an honest verdict. */
  ghost predicate Guaranteed(m: Memory, w: World, input: Input, after: Memory, passed: seq<World>, e: World, v: Verdict) {
    && Inv(after, e) && m.highest <= after.highest
    && (forall x | x in passed :: OnTheWay(w, x, after.highest))
    && (v.outcome.Converged? ==> input.Panel? && Agreed(after, e, input.snapshot))
  }

  /** Recording the status disturbs nothing. */
  lemma RecordedIsGuaranteed(m: Memory, w: World, input: Input, e: Effects)
    requires Keeps(m, w, e)
    requires e.verdict.outcome.Converged? ==> input.Panel? && Agreed(e.memory, Last(w, e.worlds), input.snapshot)
    ensures Guaranteed(m, w, input, Remembered(e), e.worlds, Last(w, e.worlds), e.verdict)
  {
    assert Remembered(e) == e.memory.(status := Remembered(e).status);
  }

  lemma PanelIsGuaranteed(m: Memory, w: World, s: Snapshot, env: Env)
    requires Inv(m, w) && Trusted(s) && Answers(m, w, Panel(s), env)
    ensures var e := ReconcilePanel(m, w, s, env);
            Keeps(m, w, e) && (e.verdict.outcome.Converged? ==> Agreed(e.memory, Last(w, e.worlds), s))
  {
    PanelKeepsInv(m, w, s, env);
    if ReconcilePanel(m, w, s, env).verdict.outcome.Converged? {
      ConvergedIsHonest(m, w, s, env);
    }
  }

  lemma EveryInputIsGuaranteed(m: Memory, w: World, input: Input, env: Env)
    requires Inv(m, w) && Admissible(w, input) && Answers(m, w, input, env)
    ensures var e := Reconcile(m, w, input, env);
            Guaranteed(m, w, input, Remembered(e), e.worlds, Last(w, e.worlds), e.verdict)
  {
    match input
    case Panel(s) =>
      PanelIsGuaranteed(m, w, s, env);
      RecordedIsGuaranteed(m, w, input, ReconcilePanel(m, w, s, env));
    case Local(s, source) =>
      LocalKeepsInv(m, w, s, source, env);
      if Reconcile(m, w, input, env).verdict.outcome.Converged? {
        OnlyThePanelConverges(m, w, input, env);
      }
      RecordedIsGuaranteed(m, w, input, ReconcileLocal(m, w, s, source, env));
    case _ => RecordedIsGuaranteed(m, w, input, Reconcile(m, w, input, env));
  }

  /** Only the Panel's snapshots ever converge. */
  lemma OnlyThePanelConverges(m: Memory, w: World, input: Input, env: Env)
    requires Reconcile(m, w, input, env).verdict.outcome.Converged? || Reconcile(m, w, input, env).verdict.outcome.DependencyWithheld?
    ensures input.Panel?
  {
  }

  /** So is the decision to leave a converged node alone when a poll fails. */
  lemma PreservedStateAgrees(m: Memory, w: World, healthy: bool)
    requires Inv(m, w) && PreservesConverged(m, healthy)
    ensures Agreed(m, w, m.latest.value)
  {
  }

  // ---------------------------------------------------------------------------------------------------------
  // What an input may change.

  /** An accepted snapshot becomes the latest one, whatever happens to it then. */
  lemma AcceptedBecomesLatest(m: Memory, w: World, s: Snapshot, env: Env)
    requires PanelOrder(m, s).Accept?
    ensures var e := ReconcilePanel(m, w, s, env);
            !e.verdict.outcome.StaleIgnored? && e.memory.highest == Larger(m.highest, s.revision) && e.memory.latest == Some(s)
  {
    var seen := m.(highest := Larger(m.highest, s.revision), latest := Some(s));
    var idle := seen.(pending := None);
    var a := ApplyPanel(w, s, env);
    assert AfterPanelApply(idle, s, a).memory.latest == Some(s);
  }

  /** A snapshot is ignored exactly if it is older, or reuses the latest revision for something else; then nothing at all changes. */
  lemma IgnoredLeavesEverything(m: Memory, w: World, s: Snapshot, env: Env)
    requires Inv(m, w) && Trusted(s)
    ensures var e := ReconcilePanel(m, w, s, env);
            && (e.verdict.outcome.StaleIgnored? <==>
                  || s.revision < m.highest
                  || (m.latest.Some? && s.revision == m.latest.value.revision && s.fingerprint != m.latest.value.fingerprint))
            && (e.verdict.outcome.StaleIgnored? ==> Remembered(e) == m && e.worlds == [])
  {
    if PanelOrder(m, s).Accept? {
      AcceptedBecomesLatest(m, w, s, env);
    }
  }

  /** Untrusted or missing input is reported, and nothing else happens. */
  lemma UntrustedOnlyReports(m: Memory, w: World, input: Input, env: Env)
    requires input.Untrusted? || input.Degraded?
    ensures var e := Reconcile(m, w, input, env);
            && e.worlds == [] && Remembered(e) == m.(status := Remembered(e).status)
            && Remembered(e).status.appliedRevision == m.lastAppliedRevision && !Remembered(e).status.state.IsConverged?
  {
  }

  /** While an apply is pending, local recovery changes neither runtime nor cache nor the pending record. */
  lemma LocalRecoveryRespectsPending(m: Memory, w: World, s: Snapshot, source: LocalSource, env: Env)
    requires Inv(m, w) && s.revision <= TrustedRevision(w.disk) && m.pending.Some?
    ensures var e := ReconcileLocal(m, w, s, source, env);
            e.worlds == [] && e.memory == m && e.verdict.desired == Some(m.pending.value.desired)
  {
  }

  /** A running config is never replaced by local recovery; it is applied only to a node that runs nothing. */
  lemma LocalRecoveryOnlyStartsUp(m: Memory, w: World, s: Snapshot, source: LocalSource, env: Env)
    requires Inv(m, w) && s.revision <= TrustedRevision(w.disk)
    ensures var e := ReconcileLocal(m, w, s, source, env);
            && Last(w, e.worlds).disk == w.disk
            && (w.runtime.Some? ==> e.worlds == [] && e.memory == m)
  {
    assert m.(highest := Larger(m.highest, s.revision)) == m;
  }

  /**
   A pending apply ends in one of two ways: its own revision and fingerprint come again and the retry succeeds, or a
   newer revision takes over.
   */
  lemma PendingEndsByItsOwnSnapshot(m: Memory, w: World, s: Snapshot, env: Env)
    requires Inv(m, w) && Trusted(s) && m.pending.Some? && Answers(m, w, Panel(s), env)
    ensures var e := ReconcilePanel(m, w, s, env);
            var p := m.pending.value;
            && (s.revision == p.revision && s.fingerprint == p.desired ==>
                  && Last(w, e.worlds).runtime == w.runtime
                  && (e.memory.pending.Some? ==> e.memory.pending.value.(lkgCommitted := p.lkgCommitted) == p && e.verdict.outcome.ApplyFailed?)
                  && (e.memory.pending.None? ==> e.memory.lastAppliedRevision == Some(p.revision)))
            && (s.revision <= p.revision && !(s.revision == p.revision && s.fingerprint == p.desired) ==> e.memory == m && e.worlds == [])
            && (s.revision > p.revision ==> e.memory.pending.None? || e.memory.pending.value.revision == s.revision)
  {
  }

  /** A Panel revision is acknowledged only when exactly that revision has been committed, with what runs. */
  lemma AcknowledgedMeansRecorded(m: Memory, w: World, s: Snapshot, env: Env)
    requires Inv(m, w) && Trusted(s) && Answers(m, w, Panel(s), env)
    requires ReconcilePanel(m, w, s, env).memory.lastAppliedRevision != m.lastAppliedRevision
    ensures var e := ReconcilePanel(m, w, s, env);
            var f := Last(w, e.worlds);
            && e.memory.lastAppliedRevision == Some(s.revision) && e.memory.latest == Some(s) && e.memory.pending.None?
            && f.runtime.Some? && Primary(f, f.runtime.value, s.revision, s.fingerprint)
  {
    AcceptedBecomesLatest(m, w, s, env);
    if Matches(m.pending, s) {
      RetryKeepsInv(m, w, s, env);
    } else {
      PanelApply(w, s, env);
      assert ReconcilePanel(m, w, s, env) == AfterPanelApply(Accepted(m, s), s, ApplyPanel(w, s, env));
    }
  }

  /** A recovered revision is acknowledged only for a node that ran nothing, and is the recoverable one. */
  lemma RecoveredMeansRecoverable(m: Memory, w: World, s: Snapshot, source: LocalSource, env: Env)
    requires Inv(m, w) && s.revision <= TrustedRevision(w.disk) && Answers(m, w, Local(s, source), env)
    requires ReconcileLocal(m, w, s, source, env).memory.lastAppliedRevision != m.lastAppliedRevision
    ensures var e := ReconcileLocal(m, w, s, source, env);
            && w.runtime.None? && Last(w, e.worlds).runtime == Some(env.effective)
            && e.memory.lastAppliedRevision == Some(s.revision) && s.revision <= TrustedRevision(Last(w, e.worlds).disk)
  {
    LocalKeepsInv(m, w, s, source, env);
    EffectiveIsServed(s.config, Some(s.config), env);
    ListenOnTheWay(w, env, m.highest);
  }
}
