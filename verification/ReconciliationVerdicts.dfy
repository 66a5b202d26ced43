/**
 When exactly an input succeeds, and what it leaves and reports then and otherwise: in terms of what the host answered,
 for each way an input can be worked off.
 */
module ReconciliationVerdicts {
  import opened Wrappers
  import opened NodeConfig
  import opened EffectiveConfig
  import opened LkgCache
  import opened Reconciliation
  import opened Traces
  import opened ReconciliationSafety

  /** What the host says about the running config in the end: healthy at once, or repaired and healthy then. */
  predicate FoundHealthy(env: Env) {
    env.healthy || (env.repaired && env.healthyAfter)
  }

  /** The snapshot that is applied and committed already comes again, and nothing withheld calls for another attempt. */
  predicate Redelivered(m: Memory, w: World, s: Snapshot, env: Env) {
    && Settled(m) && m.latest.Some? && m.latest.value.revision == s.revision && m.latest.value.fingerprint == s.fingerprint
    && w.runtime.Some?
    && (FingerprintOf(w.runtime.value) == s.fingerprint || !(RequiredSnis(s.config.listeners) <= w.active || env.retryDue))
  }

  /** A settled snapshot is looked at and nothing else exactly if it is the one that is settled. */
  lemma RedeliveredIff(m: Memory, w: World, s: Snapshot, env: Env)
    requires Inv(m, w) && Trusted(s) && PanelOrder(m, s).Accept? && !Matches(m.pending, s)
    ensures (w.runtime.Some? && InspectOnly(Accepted(m, s), w, w.runtime.value, s, env)) <==> Redelivered(m, w, s, env)
  {
  }

  /** The record a fresh apply commits, and the cache it commits it to. */
  function NewRecord(s: Snapshot, env: Env): CacheRecord {
    CacheRecord(env.effective, s.revision, s.fingerprint)
  }

  function DiskLoaded(w: World, env: Env): Disk {
    Last(w.disk, Load(w.disk, env.load).states)
  }

  /** Every step that an accepted Panel snapshot needs works. */
  predicate PanelSucceeds(m: Memory, w: World, s: Snapshot, env: Env) {
    if Matches(m.pending, s) then
      var p := m.pending.value;
      (p.lkgCommitted || CommitWorks(w.disk, CacheRecord(p.effective, p.revision, p.fingerprint), env.commit)) && env.finalizedOk
    else if Redelivered(m, w, s, env) then FoundHealthy(env)
    else env.applied && CommitWorks(DiskLoaded(w, env), NewRecord(s, env), env.commit) && env.finalizedOk
  }

  /** Is a required site missing from what runs in the end? */
  predicate WithheldInTheEnd(m: Memory, w: World, s: Snapshot, env: Env) {
    if Matches(m.pending, s) then m.pending.value.withheld
    else if Redelivered(m, w, s, env) then FingerprintOf(w.runtime.value) != s.fingerprint
    else Withheld(s.config, env.prepared)
  }

  /** The verdict on an accepted Panel snapshot. */
  predicate ToldPanel(s: Snapshot, v: Verdict, ok: bool, withheld: bool) {
    && v.outcome == (if !ok then ApplyFailed else if withheld then DependencyWithheld else Converged)
    && v.applyRequired == !ok && v.withheld == withheld
    && v.desired == Some(s.fingerprint) && v.source == Some(ValidatedPanel) && v.recovery.None?
  }

  /** What success leaves: the config that runs is recorded for this snapshot, and nothing is pending. */
  predicate LeftSettled(after: Memory, f: World, s: Snapshot, v: Verdict) {
    && after.latest == Some(s) && after.highest == s.revision && after.pending.None?
    && after.lastPanelDesired == Some(s.fingerprint) && after.lastAppliedRevision == Some(s.revision)
    && f.runtime.Some? && after.lastApplied == Fp(f.runtime) && v.applied == Fp(f.runtime)
    && Primary(f, f.runtime.value, s.revision, s.fingerprint)
  }

  /** What a failed fresh apply leaves: nothing if the listeners were not switched, and otherwise how far it got. */
  predicate LeftUnfinished(m: Memory, w: World, after: Memory, f: World, s: Snapshot, v: Verdict, env: Env) {
    var committed := CommitWorks(DiskLoaded(w, env), NewRecord(s, env), env.commit);
    && after.pending == (if env.applied then Some(PendingFor(s, Withheld(s.config, env.prepared), env, committed)) else None)
    && f.runtime == (if env.applied then Some(env.effective) else w.runtime)
    && after.latest == Some(s) && after.lastApplied == m.lastApplied && after.lastAppliedRevision == m.lastAppliedRevision
    && after.lastPanelDesired == m.lastPanelDesired && v.applied == Some(FingerprintOf(env.effective))
  }

  /** What a failed retry leaves: the same pending apply, with its commit marked as done if it was. */
  predicate LeftPending(m: Memory, w: World, after: Memory, f: World, s: Snapshot, env: Env)
    requires m.pending.Some?
  {
    var p := m.pending.value;
    && after == m.(pending := Some(p.(lkgCommitted :=
                     p.lkgCommitted || CommitWorks(w.disk, CacheRecord(p.effective, p.revision, p.fingerprint), env.commit))),
                   highest := after.highest, latest := Some(s))
    && f.runtime == w.runtime
  }

  /** The whole effect of an accepted Panel snapshot. */
  ghost predicate PanelExact(m: Memory, w: World, s: Snapshot, env: Env, after: Memory, f: World, v: Verdict) {
    && ToldPanel(s, v, PanelSucceeds(m, w, s, env), WithheldInTheEnd(m, w, s, env))
    && (if PanelSucceeds(m, w, s, env) then
          && LeftSettled(after, f, s, v)
          && (if Matches(m.pending, s) || Redelivered(m, w, s, env) then f.runtime == w.runtime
              else f.runtime == Some(env.effective) && f.active == env.finalized)
        else if Matches(m.pending, s) then LeftPending(m, w, after, f, s, env)
        else if Redelivered(m, w, s, env) then f == w && after == Accepted(m, s)
        else LeftUnfinished(m, w, after, f, s, v, env))
  }

  lemma RetryIsExact(m: Memory, w: World, s: Snapshot, env: Env)
    requires Inv(m, w) && Trusted(s) && PanelOrder(m, s).Accept? && Matches(m.pending, s) && Answers(m, w, Panel(s), env)
    ensures var e := ReconcilePanel(m, w, s, env); PanelExact(m, w, s, env, e.memory, Last(w, e.worlds), e.verdict)
  {
    var p := m.pending.value;
    var r := CacheRecord(p.effective, p.revision, p.fingerprint);
    RetryKeepsInv(m, w, s, env);
    CommitSucceedsIff(w.disk, r, env.commit);
    LastOnDisk(w, RetryCommit(w, p, env).states);
  }

  lemma LookIsExact(m: Memory, w: World, s: Snapshot, env: Env)
    requires Inv(m, w) && Trusted(s) && PanelOrder(m, s).Accept? && !Matches(m.pending, s) && Redelivered(m, w, s, env)
    ensures var e := ReconcilePanel(m, w, s, env); PanelExact(m, w, s, env, e.memory, Last(w, e.worlds), e.verdict)
  {
    RedeliveredIff(m, w, s, env);
  }

  /** The coordinated apply from a given state, exactly. */
  lemma ApplyIsExact(w: World, s: Snapshot, env: Env)
    requires ValidConfig(s.config)
    ensures var a := ApplyCoordinated(w, s, env);
            var f := Last(w, a.worlds);
            var committed := CommitWorks(w.disk, NewRecord(s, env), env.commit);
            && (a.success <==> env.applied && committed && env.finalizedOk)
            && a.effective == Some(env.effective) && a.withheld == Withheld(s.config, env.prepared)
            && a.pending == (if env.applied && !a.success then Some(PendingFor(s, a.withheld, env, committed)) else None)
            && f.runtime == (if env.applied then Some(env.effective) else w.runtime)
            && (a.success ==> f.active == env.finalized)
  {
    var listening := Listen(w, env);
    var v := Last(w, listening);
    if env.applied {
      var withheld := Withheld(s.config, env.prepared);
      CommitSucceedsIff(w.disk, NewRecord(s, env), env.commit);
      LastOnDisk(v, Commit(v.disk, NewRecord(s, env), env.commit).states);
      var rest := CommitAndFinalize(v, s, withheld, env);
      LastConcat(w, listening, rest.worlds);
      FinalizedExactly(v, s, withheld, env);
    }
  }

  lemma FinalizedExactly(w: World, s: Snapshot, withheld: bool, env: Env)
    ensures var a := CommitAndFinalize(w, s, withheld, env);
            var f := Last(w, a.worlds);
            var committed := CommitWorks(w.disk, NewRecord(s, env), env.commit);
            && (a.success <==> committed && env.finalizedOk) && f.runtime == w.runtime
            && a.effective == Some(env.effective) && a.withheld == withheld
            && a.pending == (if a.success then None else Some(PendingFor(s, withheld, env, committed)))
            && (a.success ==> f.active == env.finalized)
  {
    CommitSucceedsIff(w.disk, NewRecord(s, env), env.commit);
    LastOnDisk(w, Commit(w.disk, NewRecord(s, env), env.commit).states);
  }

  lemma PanelApplyIsExact(w: World, s: Snapshot, env: Env)
    requires ValidConfig(s.config)
    ensures var a := ApplyPanel(w, s, env);
            var f := Last(w, a.worlds);
            var committed := CommitWorks(DiskLoaded(w, env), NewRecord(s, env), env.commit);
            && (a.success <==> env.applied && committed && env.finalizedOk)
            && a.effective == Some(env.effective) && a.withheld == Withheld(s.config, env.prepared)
            && a.pending == (if env.applied && !a.success then Some(PendingFor(s, a.withheld, env, committed)) else None)
            && f.runtime == (if env.applied then Some(env.effective) else w.runtime)
            && (a.success ==> f.active == env.finalized)
  {
    var loading := OnDisk(w, Load(w.disk, env.load).states);
    LastOnDisk(w, Load(w.disk, env.load).states);
    ApplyIsExact(Last(w, loading), s, env);
    LastConcat(w, loading, ApplyCoordinated(Last(w, loading), s, env).worlds);
  }

  lemma FreshIsExact(m: Memory, w: World, s: Snapshot, env: Env)
    requires Inv(m, w) && Trusted(s) && PanelOrder(m, s).Accept? && !Matches(m.pending, s) && !Redelivered(m, w, s, env)
    requires Answers(m, w, Panel(s), env)
    ensures var e := ReconcilePanel(m, w, s, env); PanelExact(m, w, s, env, e.memory, Last(w, e.worlds), e.verdict)
  {
    RedeliveredIff(m, w, s, env);
    PanelApply(w, s, env);
    PanelApplyIsExact(w, s, env);
    AcceptedIsSettledBefore(m, w, s);
    assert ReconcilePanel(m, w, s, env) == AfterPanelApply(Accepted(m, s), s, ApplyPanel(w, s, env));
  }

  /** An accepted Panel snapshot succeeds exactly if every step it needs works, and says and leaves exactly what follows from that. */
  lemma PanelIsExact(m: Memory, w: World, s: Snapshot, env: Env)
    requires Inv(m, w) && Trusted(s) && PanelOrder(m, s).Accept? && Answers(m, w, Panel(s), env)
    ensures var e := ReconcilePanel(m, w, s, env); PanelExact(m, w, s, env, e.memory, Last(w, e.worlds), e.verdict)
  {
    if Matches(m.pending, s) {
      RetryIsExact(m, w, s, env);
    } else if Redelivered(m, w, s, env) {
      LookIsExact(m, w, s, env);
    } else {
      FreshIsExact(m, w, s, env);
    }
  }

  /** What local recovery does and says, by what it finds: a pending apply, a running config, or nothing. */
  ghost predicate LocalExact(m: Memory, w: World, s: Snapshot, source: LocalSource, env: Env, after: Memory, f: World, v: Verdict) {
    && v.source == Some(LocalRecovery) && v.recovery == Some(source) && v.applyRequired == v.outcome.ApplyFailed?
    && (v.outcome.DegradedLocalRecovery? || v.outcome.ApplyFailed?)
    && (if m.pending.Some? then
          && (v.outcome.DegradedLocalRecovery? <==> env.healthy) && after == m && f == w
          && v.desired == Some(m.pending.value.desired) && v.applied == Fp(w.runtime) && v.withheld == m.pending.value.withheld
        else if w.runtime.Some? then
          && (v.outcome.DegradedLocalRecovery? <==> FoundHealthy(env)) && after == m && f == w
          && v.desired == Some(s.fingerprint) && v.applied == Fp(w.runtime) && v.withheld == (v.applied != v.desired)
        else
          && (v.outcome.DegradedLocalRecovery? <==> ValidConfig(s.config) && env.applied) && v.desired == Some(s.fingerprint)
          && f.disk == w.disk && f.runtime == (if v.outcome.DegradedLocalRecovery? then Some(env.effective) else None)
          && v.withheld == (ValidConfig(s.config) && Withheld(s.config, env.prepared))
          && after == (if v.outcome.DegradedLocalRecovery?
                       then m.(lastApplied := Fp(f.runtime), lastAppliedRevision := Some(s.revision)) else m))
  }

  lemma StartupIsExact(m: Memory, w: World, s: Snapshot, source: LocalSource, env: Env)
    requires m.pending.None? && w.runtime.None?
    ensures var e := AfterLocalApply(m, s, source, ApplyLocal(w, s, env));
            LocalExact(m, w, s, source, env, e.memory, Last(w, e.worlds), e.verdict)
  {
  }

  lemma LocalIsExact(m: Memory, w: World, s: Snapshot, source: LocalSource, env: Env)
    requires Inv(m, w) && s.revision <= TrustedRevision(w.disk)
    ensures var e := ReconcileLocal(m, w, s, source, env); LocalExact(m, w, s, source, env, e.memory, Last(w, e.worlds), e.verdict)
  {
    assert m.(highest := Larger(m.highest, s.revision)) == m;
    if m.pending.None? && w.runtime.None? {
      StartupIsExact(m, w, s, source, env);
    }
  }

  /** Each input, exactly; the status of whatever is not ignored says what the verdict says. */
  ghost predicate Exact(m: Memory, w: World, input: Input, env: Env, after: Memory, f: World, v: Verdict) {
    && (!v.outcome.StaleIgnored? ==>
          && after.status.desired == v.desired && after.status.applied == v.applied && after.status.source == v.source
          && after.status.state == StateOf(v.outcome) && after.status.appliedRevision == after.lastAppliedRevision
          && (after.status.failed <==> v.outcome.ApplyFailed?))
    && (match input
        case Panel(s) =>
          if PanelOrder(m, s).Accept? then PanelExact(m, w, s, env, after.(status := m.status), f, v)
          else
            && v.outcome.StaleIgnored? && v.source == Some(ValidatedPanel) && v.recovery.None?
            && v.desired == Some(s.fingerprint) && v.applied == m.lastApplied
            && !v.applyRequired && !v.withheld && after == m && f == w
        case Local(s, source) => LocalExact(m, w, s, source, env, after.(status := m.status), f, v)
        case Degraded =>
          && v.outcome.DegradedLocalRecovery? && v.recovery == Some(NoTrustedLkg) && !v.applyRequired && !v.withheld
          && after.(status := m.status) == m && f == w
        case Untrusted =>
          v.outcome.InvalidUntrustedInput? && v.recovery.None? && !v.applyRequired && !v.withheld && after.(status := m.status) == m && f == w)
  }

  lemma EveryInputIsExact(m: Memory, w: World, input: Input, env: Env)
    requires Inv(m, w) && Admissible(w, input) && Answers(m, w, input, env)
    ensures var e := Reconcile(m, w, input, env); Exact(m, w, input, env, Remembered(e), Last(w, e.worlds), e.verdict)
  {
    var e := Reconcile(m, w, input, env);
    match input
    case Panel(s) =>
      if PanelOrder(m, s).Accept? {
        PanelIsExact(m, w, s, env);
        AcceptedBecomesLatest(m, w, s, env);
        StatusOnly(e);
      }
    case Local(s, source) =>
      LocalIsExact(m, w, s, source, env);
      StatusOnly(e);
    case _ =>
  }

  /** Recording a status changes only the status, and takes it from the verdict. */
  lemma StatusOnly(e: Effects)
    ensures Remembered(e).(status := e.memory.status) == e.memory
    ensures !e.verdict.outcome.StaleIgnored? ==>
              var status := Remembered(e).status;
              && status.desired == e.verdict.desired && status.applied == e.verdict.applied && status.source == e.verdict.source
              && status.state == StateOf(e.verdict.outcome) && status.appliedRevision == e.memory.lastAppliedRevision
              && (status.failed <==> e.verdict.outcome.ApplyFailed?)
  {
  }

  /** The host can do everything that is asked of it. */
  predicate Cooperates(env: Env) {
    && env.applied && env.finalizedOk && env.healthy
    && env.commit.tmpWrite.Written? && env.commit.tmpReadable && env.commit.primaryBytes
    && env.commit.backupWrite.Written? && env.commit.backupRename.Renamed? && env.commit.primaryRename.Renamed?
  }

  /** On a host that cooperates every accepted snapshot with nothing withheld converges, whichever way it takes. */
  lemma CooperationConverges(m: Memory, w: World, s: Snapshot, env: Env)
    requires Inv(m, w) && Trusted(s) && PanelOrder(m, s).Accept? && Answers(m, w, Panel(s), env)
    requires Cooperates(env) && !WithheldInTheEnd(m, w, s, env)
    ensures var e := ReconcilePanel(m, w, s, env);
            && e.verdict.outcome.Converged? && Agreed(e.memory, Last(w, e.worlds), s)
            && (!Matches(m.pending, s) && !Redelivered(m, w, s, env) ==> Last(w, e.worlds).runtime == Some(s.config))
  {
    PanelIsExact(m, w, s, env);
    if Matches(m.pending, s) {
      ValidityFollowsFingerprint(s.config, m.pending.value.effective);
    } else if !Redelivered(m, w, s, env) {
      RedeliveredIff(m, w, s, env);
      EffectiveIsServed(s.config, PreviousConfig(Load(w.disk, env.load).record), env);
    }
    ConvergedIsHonest(m, w, s, env);
  }

  /** A failed poll leaves a node alone exactly if it last reported convergence, still runs what it settled on, and is healthy. */
  lemma PreservesIff(m: Memory, w: World, healthy: bool)
    requires Inv(m, w)
    ensures PreservesConverged(m, healthy) <==>
            healthy && m.status.state.IsConverged? && Settled(m) && Agreed(m, w, m.latest.value)
  {
  }

  /** Even if an invalid config got this far, it would be refused: nothing is switched or committed. */
  lemma InvalidConfigIsRefused(m: Memory, w: World, s: Snapshot, env: Env)
    requires !ValidConfig(s.config) && PanelOrder(m, s).Accept? && !Matches(m.pending, s)
    requires w.runtime.None? || !InspectOnly(Accepted(m, s), w, w.runtime.value, s, env)
    ensures var e := ReconcilePanel(m, w, s, env);
            var f := Last(w, e.worlds);
            && e.verdict.outcome.ApplyFailed? && e.verdict.applied.None? && !e.verdict.withheld && e.memory == Accepted(m, s)
            && f == w.(disk := DiskLoaded(w, env))
  {
    LastOnDisk(w, Load(w.disk, env.load).states);
    assert OnDisk(w, Load(w.disk, env.load).states) + [] == OnDisk(w, Load(w.disk, env.load).states);
  }

  /** A runtime that is not what was applied last, or not for this snapshot, is never just looked at: the snapshot is applied. */
  lemma DriftIsApplied(m: Memory, w: World, s: Snapshot, env: Env)
    requires PanelOrder(m, s).Accept? && !Matches(m.pending, s)
    requires || w.runtime.None? || m.lastApplied != Fp(w.runtime)
             || m.lastPanelDesired != Some(s.fingerprint) || m.lastAppliedRevision != Some(s.revision)
    ensures ReconcilePanel(m, w, s, env) == AfterPanelApply(Accepted(m, s), s, ApplyPanel(w, s, env))
  {
  }
}
