/** The reconciler as it changes its fields, its node and its cache directory, step by step. */
module Reconcilers {
  import opened Wrappers
  import opened NodeConfig
  import opened EffectiveConfig
  import opened LkgCache
  import opened Reconciliation
  import opened ReconciliationSafety
  import opened ReconciliationVerdicts
  import opened Traces

  /** The node the reconciler acts on; `passed` lists every state it has been in, the present one last. */
  class Node {
    var runtime: Option<Config>
    var active: set<string>
    const cache: CacheDirectory
    ghost var passed: seq<World>

    ghost function Now(): World
      reads this, cache
    {
      World(runtime, active, cache.Current())
    }

    ghost predicate Valid()
      reads this, cache
    {
      cache.Valid() && passed != [] && passed[|passed| - 1] == Now()
    }

    constructor (cache: CacheDirectory)
      requires cache.Valid()
      ensures Valid() && this.cache == cache && Now() == World(None, {}, cache.Current())
    {
      this.cache := cache;
      runtime, active, passed := None, {}, [World(None, {}, cache.Current())];
    }

    ghost method Note(states: seq<World>)
      requires cache.Valid() && passed != [] && Last(passed[|passed| - 1], states) == Now()
      modifies this`passed
      ensures Valid() && passed == old(passed) + states
    {
      passed := passed + states;
    }

    method LoadLkg(env: LoadEnv) returns (record: Option<CacheRecord>)
      requires Valid()
      modifies this`passed, cache
      ensures Valid() && record == Load(old(Now()).disk, env).record
      ensures passed == old(passed) + OnDisk(old(Now()), Load(old(Now()).disk, env).states)
      ensures Now() == Last(old(Now()), OnDisk(old(Now()), Load(old(Now()).disk, env).states))
    {
      ghost var w, before := Now(), cache.trace;
      var source;
      record, source := cache.LoadState(env);
      LastOfTrace(before, Load(w.disk, env).states, w);
      Note(OnDisk(w, Load(w.disk, env).states));
    }

    method CommitLkg(record: CacheRecord, env: CommitEnv) returns (ok: bool)
      requires Valid()
      modifies this`passed, cache
      ensures Valid() && ok == Commit(old(Now()).disk, record, env).ok
      ensures passed == old(passed) + OnDisk(old(Now()), Commit(old(Now()).disk, record, env).states)
      ensures Now() == Last(old(Now()), OnDisk(old(Now()), Commit(old(Now()).disk, record, env).states))
    {
      ghost var w, before := Now(), cache.trace;
      ok := cache.CommitRecord(record, env);
      LastOfTrace(before, Commit(w.disk, record, env).states, w);
      Note(OnDisk(w, Commit(w.disk, record, env).states));
    }

    /** Certificate work and then the all-or-nothing listener change. */
    method PrepareAndListen(effective: Config, prepared: set<string>, applied: bool)
      requires Valid()
      modifies this
      ensures Valid()
      ensures var p := old(Now()).(active := prepared);
              && passed == old(passed) + (if applied then [p, p.(runtime := Some(effective))] else [p])
              && Now() == if applied then p.(runtime := Some(effective)) else p
    {
      active := prepared;
      Note([Now()]);
      if applied {
        runtime := Some(effective);
        Note([Now()]);
      }
    }

    method CleanUp(finalized: set<string>)
      requires Valid()
      modifies this`active, this`passed
      ensures Valid() && passed == old(passed) + [old(Now()).(active := finalized)] && Now() == old(Now()).(active := finalized)
    {
      active := finalized;
      Note([Now()]);
    }
  }

  lemma LastOfTrace(before: seq<Disk>, states: seq<Disk>, w: World)
    requires before != [] && before[|before| - 1] == w.disk
    ensures var t := before + states; Last(w, OnDisk(w, states)) == w.(disk := t[|t| - 1])
  {
  }

  class Reconciler {
    var latest: Option<Snapshot>
    var lastPanelDesired: Option<Fingerprint>
    var lastApplied: Option<Fingerprint>
    var pending: Option<Pending>
    var highest: nat
    var lastAppliedRevision: Option<nat>
    var status: Status

    ghost function State(): Memory
      reads this
    {
      Memory(latest, lastPanelDesired, lastApplied, pending, highest, lastAppliedRevision, status)
    }

    constructor ()
      ensures State() == FRESH
    {
      latest, lastPanelDesired, lastApplied, pending, highest, lastAppliedRevision := None, None, None, None, 0, None;
      status := FRESH.status;
    }

    /** Commit, then cleanup; whatever fails is handed back as pending. */
    method FinishApply(node: Node, s: Snapshot, withheld: bool, env: Env) returns (success: bool, left: Option<Pending>)
      requires node.Valid()
      modifies node, node.cache
      ensures var a := CommitAndFinalize(old(node.Now()), s, withheld, env);
              && node.Valid() && node.passed == old(node.passed) + a.worlds && node.Now() == Last(old(node.Now()), a.worlds)
              && success == a.success && left == a.pending
    {
      ghost var w := node.Now();
      var committed := node.CommitLkg(CacheRecord(env.effective, s.revision, s.fingerprint), env.commit);
      if !committed {
        return false, Some(PendingFor(s, withheld, env, false));
      }
      node.CleanUp(env.finalized);
      if !env.finalizedOk {
        return false, Some(PendingFor(s, withheld, env, true));
      }
      return true, None;
    }

    /** Switch the listeners to the effective config, commit it, clean up. */
    method SwitchAndFinishApply(node: Node, s: Snapshot, withheld: bool, env: Env) returns (success: bool,
                                left: Option<Pending>)
      requires node.Valid()
      modifies node, node.cache
      ensures var a := SwitchAndFinish(old(node.Now()), s, withheld, env);
              && Did(a.worlds, old(node.Now()), old(node.passed), node)
              && a == Applying(a.worlds, success, Some(env.effective), withheld, left)
    {
      ghost var w, before := node.Now(), node.passed;
      node.PrepareAndListen(env.effective, env.prepared, env.applied);
      success, left := false, None;
      if env.applied {
        ghost var v := node.Now();
        success, left := FinishApply(node, s, withheld, env);
        Regroup(before, Listen(w, env), CommitAndFinalize(v, s, withheld, env).worlds, []);
      }
    }

    /** The coordinated apply; the effective config is built here, the rest of `env` is the host's answer. */
    method ApplyFrom(node: Node, s: Snapshot, previous: Option<Config>, env: Env)
      returns (success: bool, effective: Option<Config>, withheld: bool, left: Option<Pending>, used: Env)
      requires node.Valid()
      modifies node, node.cache
      ensures used == env.(effective := used.effective)
      ensures ValidConfig(s.config) ==> IsEffective(s.config, previous, env.prepared, used.effective)
      ensures Did(ApplyCoordinated(old(node.Now()), s, used).worlds, old(node.Now()), old(node.passed), node)
      ensures Applying(ApplyCoordinated(old(node.Now()), s, used).worlds, success, effective, withheld, left) ==
              ApplyCoordinated(old(node.Now()), s, used)
    {
      var valid := ValidateConfig(s.config);
      success, effective, withheld, left, used := false, None, false, None, env;
      if valid {
        var built, referenced;
        built, referenced, withheld := BuildEffectiveConfig(s.config, previous, env.prepared);
        used := env.(effective := built);
        success, left := SwitchAndFinishApply(node, s, withheld, used);
        effective := Some(built);
      }
    }

    method ApplyPanelSnapshot(node: Node, s: Snapshot, env: Env)
      returns (success: bool, effective: Option<Config>, withheld: bool, left: Option<Pending>, used: Env)
      requires node.Valid()
      modifies node, node.cache
      ensures used == env.(effective := used.effective)
      ensures ValidConfig(s.config) ==> IsEffective(s.config, PreviousConfig(Load(old(node.Now()).disk, env.load).record), env.prepared, used.effective)
      ensures Did(ApplyPanel(old(node.Now()), s, used).worlds, old(node.Now()), old(node.passed), node)
      ensures Applying(ApplyPanel(old(node.Now()), s, used).worlds, success, effective, withheld, left) == ApplyPanel(old(node.Now()), s, used)
    {
      ghost var w, before := node.Now(), node.passed;
      var previous := node.LoadLkg(env.load);
      ghost var loaded := node.Now();
      success, effective, withheld, left, used := ApplyFrom(node, s, PreviousConfig(previous), env);
      LoadThenApply(w, loaded, s, used, before);
    }

    /** Commit what is still uncommitted, then clean up. */
    method RetryFinalization(node: Node, p: Pending, env: Env) returns (ok: bool, left: Pending)
      requires node.Valid()
      modifies node, node.cache
      ensures var commit := RetryCommit(old(node.Now()), p, env);
              var worlds := OnDisk(old(node.Now()), commit.states);
              && ok == (commit.ok && env.finalizedOk) && left == (if commit.ok then p.(lkgCommitted := true) else p)
              && Did(if commit.ok then worlds + [Last(old(node.Now()), worlds).(active := env.finalized)] else worlds,
                     old(node.Now()), old(node.passed), node)
    {
      ghost var w, before := node.Now(), node.passed;
      left := p;
      if !p.lkgCommitted {
        var committed := node.CommitLkg(CacheRecord(p.effective, p.revision, p.fingerprint), env.commit);
        if !committed {
          return false, p;
        }
        left := p.(lkgCommitted := true);
      }
      ghost var worlds := OnDisk(w, RetryCommit(w, p, env).states);
      node.CleanUp(env.finalized);
      Regroup(before, worlds, [Last(w, worlds).(active := env.finalized)], []);
      return env.finalizedOk, left;
    }

    /** A failure keeps the pending record and what it has achieved. */
    method RetryPendingApply(node: Node, s: Snapshot, env: Env) returns (v: Verdict)
      requires node.Valid() && pending.Some?
      modifies this`pending, this`lastApplied, this`lastAppliedRevision, this`lastPanelDesired, node, node.cache
      ensures var e := RetryPending(old(State()), old(node.Now()), old(pending).value, s, env);
              State() == e.memory && v == e.verdict && Did(e.worlds, old(node.Now()), old(node.passed), node)
    {
      var p := pending.value;
      var applied := Some(FingerprintOf(p.effective));
      var retried, left := RetryFinalization(node, p, env);
      if retried {
        pending, lastApplied, lastAppliedRevision, lastPanelDesired := None, applied, Some(s.revision), Some(s.fingerprint);
        v := Verdict(if p.withheld then DependencyWithheld else Converged, Some(ValidatedPanel), Some(s.fingerprint), applied, false, p.withheld, None);
      } else {
        pending := Some(left);
        v := Verdict(ApplyFailed, Some(ValidatedPanel), Some(s.fingerprint), applied, true, p.withheld, None);
      }
    }

    /** What the outcome of an apply leaves in the fields. */
    method RecordApply(s: Snapshot, success: bool, effective: Option<Config>, withheld: bool,
                       left: Option<Pending>) returns (v: Verdict)
      modifies this`pending, this`lastApplied, this`lastAppliedRevision, this`lastPanelDesired
      ensures var e := AfterPanelApply(old(State()), s, Applying([], success, effective, withheld, left)); State() == e.memory && v == e.verdict
    {
      if success {
        lastApplied, lastAppliedRevision, lastPanelDesired := Fp(effective), Some(s.revision), Some(s.fingerprint);
        v := Verdict(if withheld then DependencyWithheld else Converged, Some(ValidatedPanel), Some(s.fingerprint), Fp(effective), false, withheld, None);
      } else {
        if left.Some? {
          pending := left;
        }
        v := Verdict(ApplyFailed, Some(ValidatedPanel), Some(s.fingerprint), Fp(effective), true, withheld, None);
      }
    }

    method ApplyAccepted(node: Node, s: Snapshot, env: Env) returns (v: Verdict, used: Env)
      requires node.Valid()
      modifies this`pending, this`lastApplied, this`lastAppliedRevision, this`lastPanelDesired, node, node.cache
      ensures used == env.(effective := used.effective)
      ensures ValidConfig(s.config) ==> IsEffective(s.config, PreviousConfig(Load(old(node.Now()).disk, env.load).record), env.prepared, used.effective)
      ensures var e := AfterPanelApply(old(State()), s, ApplyPanel(old(node.Now()), s, used));
              State() == e.memory && v == e.verdict && Did(e.worlds, old(node.Now()), old(node.passed), node)
    {
      ghost var m, w := State(), node.Now();
      var success, effective, withheld, left;
      success, effective, withheld, left, used := ApplyPanelSnapshot(node, s, env);
      v := RecordApply(s, success, effective, withheld, left);
      WorldsDoNotMatter(m, s, ApplyPanel(w, s, used));
    }

    /** One Panel snapshot: order check, pending retry, inspection, or apply. */
    method ReconcilePanelSnapshot(node: Node, s: Snapshot, env: Env) returns (v: Verdict, used: Env)
      requires node.Valid()
      modifies this, node, node.cache
      ensures used == env.(effective := used.effective) && Built(old(State()), old(node.Now()), Panel(s), used)
      ensures var e := ReconcilePanel(old(State()), old(node.Now()), s, used);
              State() == e.memory && v == e.verdict && Did(e.worlds, old(node.Now()), old(node.passed), node)
    {
      used := env;
      if !PanelOrder(Memory(latest, lastPanelDesired, lastApplied, pending, highest, lastAppliedRevision, status), s).Accept? {
        return Verdict(StaleIgnored, Some(ValidatedPanel), Some(s.fingerprint), lastApplied, false, false, None), env;
      }
      highest := Larger(highest, s.revision);
      latest := Some(s);
      if Matches(pending, s) {
        v := RetryPendingApply(node, s, env);
        return;
      }
      pending := None;
      v, used := InspectOrApply(node, s, env);
    }

    /** An accepted snapshot without a pending apply of its own: look at what runs, or apply. */
    method InspectOrApply(node: Node, s: Snapshot, env: Env) returns (v: Verdict, used: Env)
      requires node.Valid()
      modifies this`pending, this`lastApplied, this`lastAppliedRevision, this`lastPanelDesired, node, node.cache
      ensures used == env.(effective := used.effective)
      ensures var m, w := old(State()), old(node.Now());
              var inspects := w.runtime.Some? && InspectOnly(m, w, w.runtime.value, s, env);
              var e := if inspects then Inspect(m, w.runtime.value, s, None, env) else AfterPanelApply(m, s, ApplyPanel(w, s, used));
              && State() == e.memory && v == e.verdict && Did(e.worlds, w, old(node.passed), node)
              && (inspects ==> used == env)
              && (!inspects && ValidConfig(s.config) ==>
                    IsEffective(s.config, PreviousConfig(Load(w.disk, env.load).record), env.prepared, used.effective))
    {
      used := env;
      var memory := Memory(latest, lastPanelDesired, lastApplied, pending, highest, lastAppliedRevision, status);
      if node.runtime.Some? && PanelUnchanged(memory, node.runtime.value, s) &&
         (FingerprintOf(node.runtime.value) != s.fingerprint ==> !(RequiredSnis(s.config.listeners) <= node.active) && !env.retryDue)
      {
        v := Inspect(memory, node.runtime.value, s, None, env).verdict;
      } else {
        v, used := ApplyAccepted(node, s, env);
      }
    }

    /** A recovered config on a node that runs nothing: no commit, no cleanup. */
    method ApplyRecovered(node: Node, s: Snapshot, source: LocalSource, env: Env) returns (v: Verdict, used: Env)
      requires node.Valid()
      modifies this`lastApplied, this`lastAppliedRevision, node
      ensures used == env.(effective := used.effective)
      ensures ValidConfig(s.config) ==> IsEffective(s.config, Some(s.config), env.prepared, used.effective)
      ensures var e := AfterLocalApply(old(State()), s, source, ApplyLocal(old(node.Now()), s, used));
              State() == e.memory && v == e.verdict && Did(e.worlds, old(node.Now()), old(node.passed), node)
    {
      used := env;
      var valid := ValidateConfig(s.config);
      if !valid {
        return Verdict(ApplyFailed, Some(LocalRecovery), Some(s.fingerprint), None, true, false, Some(source)), env;
      }
      var built, referenced, withheld := BuildEffectiveConfig(s.config, Some(s.config), env.prepared);
      used := env.(effective := built);
      node.PrepareAndListen(built, env.prepared, env.applied);
      if env.applied {
        lastApplied, lastAppliedRevision := Some(FingerprintOf(built)), Some(s.revision);
      }
      v := Verdict(if env.applied then DegradedLocalRecovery else ApplyFailed, Some(LocalRecovery), Some(s.fingerprint), Some(FingerprintOf(built)),
                   !env.applied, withheld, Some(source));
    }

    method ReconcileLocalSnapshot(node: Node, s: Snapshot, source: LocalSource, env: Env) returns (v: Verdict,
                                  used: Env)
      requires node.Valid()
      modifies this`highest, this`lastApplied, this`lastAppliedRevision, node
      ensures used == env.(effective := used.effective) && Built(old(State()), old(node.Now()), Local(s, source), used)
      ensures var e := ReconcileLocal(old(State()), old(node.Now()), s, source, used);
              State() == e.memory && v == e.verdict && Did(e.worlds, old(node.Now()), old(node.passed), node)
    {
      used := env;
      highest := Larger(highest, s.revision);
      var memory := Memory(latest, lastPanelDesired, lastApplied, pending, highest, lastAppliedRevision, status);
      if pending.Some? {
        v := LocalWhilePending(memory, pending.value, source, env).verdict;
      } else if node.runtime.Some? {
        v := Inspect(memory, node.runtime.value, s, Some(source), env).verdict;
      } else {
        v, used := ApplyRecovered(node, s, source, env);
      }
    }

    method Record(v: Verdict)
      modifies this`status
      ensures State() == RecordStatus(old(State()), v)
    {
      if !v.outcome.StaleIgnored? {
        status := Status(StateOf(v.outcome), v.desired, v.applied, if latest.Some? then Some(latest.value.revision) else None,
                         lastAppliedRevision, v.outcome.ApplyFailed?, v.source);
      }
    }

    /** One input, worked off step by step. */
    method WorkOff(node: Node, input: Input, env: Env) returns (v: Verdict, used: Env)
      requires node.Valid()
      modifies this, node, node.cache
      ensures used == env.(effective := used.effective) && Built(old(State()), old(node.Now()), input, used)
      ensures var e := Reconcile(old(State()), old(node.Now()), input, used);
              State() == Remembered(e) && v == e.verdict && Did(e.worlds, old(node.Now()), old(node.passed), node)
    {
      used := env;
      match input {
        case Panel(s) => v, used := ReconcilePanelSnapshot(node, s, env);
        case Local(s, source) => v, used := ReconcileLocalSnapshot(node, s, source, env);
        case Degraded => v := Verdict(DegradedLocalRecovery, Some(LocalRecovery), None, None, false, false, Some(NoTrustedLkg));
        case Untrusted => v := Verdict(InvalidUntrustedInput, None, None, None, false, false, None);
      }
      Record(v);
    }

    /**
     The single entry for startup recovery, polls and pushed snapshots. If the host does its part, the invariant is
     kept, each state passed through is safe, and a converged verdict means that runtime, LKG and desired config agree;
     and the input succeeds exactly if every step it needs works.
     */
    method ReconcileInput(node: Node, input: Input, env: Env) returns (v: Verdict, used: Env)
      requires node.Valid()
      modifies this, node, node.cache
      ensures used == env.(effective := used.effective) && Built(old(State()), old(node.Now()), input, used)
      ensures var e := Reconcile(old(State()), old(node.Now()), input, used);
              State() == Remembered(e) && v == e.verdict && Did(e.worlds, old(node.Now()), old(node.passed), node)
      ensures Inv(old(State()), old(node.Now())) && Admissible(old(node.Now()), input) &&
              HostAnswers(old(State()), old(node.Now()), input, used) ==>
                && Guaranteed(old(State()), old(node.Now()), input, State(), node.passed[|old(node.passed)|..], node.Now(), v)
                && Exact(old(State()), old(node.Now()), input, used, State(), node.Now(), v)
    {
      ghost var m, w, before := State(), node.Now(), node.passed;
      v, used := WorkOff(node, input, env);
      Split(before, Reconcile(m, w, input, used).worlds);
      if Inv(m, w) && Admissible(w, input) && HostAnswers(m, w, input, used) {
        EveryInputIsGuaranteed(m, w, input, used);
        EveryInputIsExact(m, w, input, used);
      }
    }
  }

  lemma WorldsDoNotMatter(m: Memory, s: Snapshot, a: Applying)
    ensures var e := AfterPanelApply(m, s, a.(worlds := [])); AfterPanelApply(m, s, a) == e.(worlds := a.worlds)
  {
  }

  lemma LoadThenApply(w: World, loaded: World, s: Snapshot, env: Env, before: seq<World>)
    requires loaded == Last(w, OnDisk(w, Load(w.disk, env.load).states))
    ensures var a := ApplyCoordinated(loaded, s, env);
            && ApplyPanel(w, s, env) == a.(worlds := OnDisk(w, Load(w.disk, env.load).states) + a.worlds)
            && before + ApplyPanel(w, s, env).worlds == before + OnDisk(w, Load(w.disk, env.load).states) + a.worlds
            && Last(w, ApplyPanel(w, s, env).worlds) == Last(loaded, a.worlds)
  {
    var a := ApplyCoordinated(loaded, s, env);
    Regroup(before, OnDisk(w, Load(w.disk, env.load).states), a.worlds, []);
  }

  /** The node has gone through exactly these states. */
  ghost predicate Did(worlds: seq<World>, w: World, before: seq<World>, node: Node)
    reads node, node.cache
  {
    node.Valid() && node.passed == before + worlds && node.Now() == Last(w, worlds)
  }
}
