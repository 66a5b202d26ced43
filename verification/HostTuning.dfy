/**
 Host tuning with rollback: congestion control and queue discipline are switched only after the original values have
 been saved, a failed switch is taken back, and cleanup restores what was saved. Every state passed through is listed.
 */
module HostTuning {
  import opened Traces
  import SiteChecks

  /** `Stale` carries the managed header with other content; everything else that is not exactly ours is foreign. */
  datatype File = Absent | Ours | Stale | Foreign

  datatype Baseline = NoBaseline | Known(congestion: string, qdisc: string) | Unreadable

  datatype Host = Host(congestion: string, qdisc: string, sysctl: File, modules: File, baseline: Baseline)

  const BBR := "bbr"
  const FQ := "fq"

  /** Setting a kernel value: done, refused, or accepted without effect. */
  datatype ApplyEnv = Applied | Refused | Ineffective

  /** Replacing a file; an error after the rename leaves the new content. */
  datatype WriteEnv = Written | NotWritten | WrittenNotSynced

  datatype Env = Env(
    readValues: bool, readSysctl: bool,
    readAvailable: bool, exposed: bool,                   // is BBR available, after loading its module if need be
    needsModule: bool, loaded: bool, readModules: bool,   // was a module loaded, and did that work
    readBaseline: bool, baselineWrite: WriteEnv,
    setQdisc: ApplyEnv, setCongestion: ApplyEnv, readBack: bool,
    undoQdisc: ApplyEnv, undoCongestion: ApplyEnv,
    sysctlWrite: WriteEnv, modulesWrite: WriteEnv)

  datatype Attempt = Attempt(states: seq<Host>, ok: bool)

  function Then(h: Host, first: Attempt, next: Host -> Attempt): Attempt {
    if !first.ok then first
    else
      var second := next(Last(h, first.states));
      Attempt(first.states + second.states, second.ok)
  }

  function Write(after: Host, env: WriteEnv): Attempt {
    Attempt(if env.NotWritten? then [] else [after], env.Written?)
  }

  function Apply(after: Host, env: ApplyEnv): Attempt {
    Attempt(if env.Applied? then [after] else [], !env.Refused?)
  }

  /** A slot may be filled if it is empty or carries the managed header. */
  predicate Managed(f: File) {
    !f.Foreign?
  }

  /** The baseline is written once and never replaced. */
  function SaveBaseline(h: Host, env: Env): Attempt {
    if !env.readBaseline then Attempt([], false)
    else if !h.baseline.NoBaseline? then Attempt([], true)
    else Write(h.(baseline := Known(h.congestion, h.qdisc)), env.baselineWrite)
  }

  function PersistSysctl(h: Host, env: Env): Attempt {
    if h.sysctl.Ours? then Attempt([], true) else Write(h.(sysctl := Ours), env.sysctlWrite)
  }

  function PersistModules(h: Host, env: Env): Attempt {
    if !env.needsModule || h.modules.Ours? then Attempt([], true) else Write(h.(modules := Ours), env.modulesWrite)
  }

  /** Put both values back as they were; what refuses stays. */
  function Undo(h: Host, congestion: string, qdisc: string, env: Env): Attempt {
    var first := Apply(h.(congestion := congestion), env.undoCongestion).states;
    var second := Apply(Last(h, first).(qdisc := qdisc), env.undoQdisc).states;
    Attempt(first + second, false)
  }

  function UndoQdisc(h: Host, qdisc: string, env: Env): Attempt {
    Attempt(Apply(h.(qdisc := qdisc), env.undoQdisc).states, false)
  }

  function SetCongestion(h: Host, qdisc: string, env: Env): Attempt {
    if h.congestion == BBR then Attempt([], true)
    else
      var attempt := Apply(h.(congestion := BBR), env.setCongestion);
      if attempt.ok then attempt else UndoQdisc(h, qdisc, env)
  }

  function SetQdisc(h: Host, env: Env): Attempt {
    if h.qdisc == FQ then Attempt([], true) else Apply(h.(qdisc := FQ), env.setQdisc)
  }

  /** Read both values again; anything but ours is taken back. */
  function ReadBack(h: Host, congestion: string, qdisc: string, env: Env): Attempt {
    if env.readBack && h.congestion == BBR && h.qdisc == FQ then Attempt([], true) else Undo(h, congestion, qdisc, env)
  }

  function SetAndCheck(h: Host, congestion: string, qdisc: string, env: Env): Attempt {
    Then(h, SetCongestion(h, qdisc, env), e => ReadBack(e, congestion, qdisc, env))
  }

  /** Set what is not ours yet; whatever goes wrong, try to put back what was there. */
  function Switch(h: Host, env: Env): Attempt {
    Then(h, SetQdisc(h, env), e => SetAndCheck(e, h.congestion, h.qdisc, env))
  }

  function Persist(h: Host, env: Env): Attempt {
    Then(h, PersistSysctl(h, env), e => PersistModules(e, env))
  }

  function SwitchAndPersist(h: Host, env: Env): Attempt {
    Then(h, Switch(h, env), e => Persist(e, env))
  }

  function Enable(h: Host, env: Env): Attempt {
    Then(h, SaveBaseline(h, env), e => SwitchAndPersist(e, env))
  }

  function AlreadyEnabled(h: Host): bool {
    h.congestion == BBR && h.qdisc == FQ
  }

  /** Everything is looked at before anything is changed. */
  predicate MayEnable(h: Host, env: Env) {
    && env.readAvailable && env.exposed
    && (env.needsModule ==> env.loaded && env.readModules && Managed(h.modules))
  }

  function TryEnsure(h: Host, env: Env): Attempt {
    if !env.readValues || !env.readSysctl || !Managed(h.sysctl) then Attempt([], false)
    else if AlreadyEnabled(h) then Then(h, SaveBaseline(h, env), e => PersistSysctl(e, env))
    else if !MayEnable(h, env) then Attempt([], false)
    else Enable(h, env)
  }

  datatype CleanEnv = CleanEnv(
    readBaseline: bool, readCongestion: bool, readQdisc: bool, setCongestion: ApplyEnv, setQdisc: ApplyEnv,
    readSysctl: bool, removeSysctl: bool, readModules: bool, removeModules: bool, removeBaseline: bool)

  predicate NameChar(c: char) {
    'a' <= c <= 'z' || 'A' <= c <= 'Z' || '0' <= c <= '9' || c == '_'
  }

  predicate Restorable(v: string) {
    v != "" && forall i | 0 <= i < |v| :: NameChar(v[i])
  }

  function RestoreCongestion(h: Host, original: string, env: CleanEnv): Attempt {
    if !env.readCongestion then Attempt([], false)
    else if h.congestion == BBR && original != BBR then Apply(h.(congestion := original), env.setCongestion)
    else Attempt([], true)
  }

  function RestoreQdisc(h: Host, original: string, env: CleanEnv): Attempt {
    if !env.readQdisc then Attempt([], false)
    else if h.qdisc == FQ && original != FQ then Apply(h.(qdisc := original), env.setQdisc)
    else Attempt([], true)
  }

  /** Values are restored only from a valid baseline, and only while they still are ours. */
  function Restore(h: Host, env: CleanEnv): Attempt {
    match h.baseline
    case NoBaseline => Attempt([], true)
    case Unreadable => Attempt([], false)
    case Known(c, q) =>
      if !Restorable(c) || !Restorable(q) then Attempt([], false)
      else Then(h, RestoreCongestion(h, c, env), e => RestoreQdisc(e, q, env))
  }

  function RemoveSysctl(h: Host, env: CleanEnv): Attempt {
    if !env.readSysctl then Attempt([], false)
    else if !h.sysctl.Ours? then Attempt([], true)
    else if env.removeSysctl then Attempt([h.(sysctl := Absent)], true)
    else Attempt([], false)
  }

  function RemoveModules(h: Host, env: CleanEnv): Attempt {
    if !env.readModules then Attempt([], false)
    else if !h.modules.Ours? then Attempt([], true)
    else if env.removeModules then Attempt([h.(modules := Absent)], true)
    else Attempt([], false)
  }

  function RemoveBaseline(h: Host, env: CleanEnv): Attempt {
    if h.baseline.NoBaseline? then Attempt([], true)
    else if env.removeBaseline then Attempt([h.(baseline := NoBaseline)], true)
    else Attempt([], false)
  }

  function RemoveRest(h: Host, env: CleanEnv): Attempt {
    Then(h, RemoveModules(h, env), e => RemoveBaseline(e, env))
  }

  function RemoveFiles(h: Host, env: CleanEnv): Attempt {
    Then(h, RemoveSysctl(h, env), e => RemoveRest(e, env))
  }

  function Cleanup(h: Host, env: CleanEnv): Attempt {
    if !env.readBaseline then Attempt([], false) else Then(h, Restore(h, env), e => RemoveFiles(e, env))
  }

  // ---------------------------------------------------------------------------------------------------------
  // What every state keeps, relative to the host as it was found.

  /** A slot is as found, ours, or emptied by us; a foreign file stays. */
  predicate SlotOk(found: File, now: File) {
    now == found || (!found.Foreign? && (now.Ours? || now.Absent?))
  }

  /** Nothing is changed without a baseline of the original values; then each value is the original or ours. */
  ghost predicate Kept(o: Host, h: Host) {
    && SlotOk(o.sysctl, h.sysctl) && SlotOk(o.modules, h.modules)
    && (match h.baseline
        case NoBaseline => h.congestion == o.congestion && h.qdisc == o.qdisc
        case Known(c, q) =>
          && c == o.congestion && q == o.qdisc
          && (h.congestion == c || h.congestion == BBR) && (h.qdisc == q || h.qdisc == FQ)
        case Unreadable => false)
  }

  ghost predicate AllKept(o: Host, h: Host, a: Attempt) {
    (forall s | s in a.states :: Kept(o, s)) && Kept(o, Last(h, a.states))
  }

  lemma ThenKept(o: Host, h: Host, first: Attempt, next: Host -> Attempt)
    requires AllKept(o, h, first)
    requires first.ok ==> AllKept(o, Last(h, first.states), next(Last(h, first.states)))
    ensures AllKept(o, h, Then(h, first, next))
    ensures first.ok ==> Last(h, Then(h, first, next).states) == Last(Last(h, first.states), next(Last(h, first.states)).states)
  {
    if first.ok {
      var e := Last(h, first.states);
      assert Last(h, first.states + next(e).states) == Last(e, next(e).states);
    }
  }

  lemma ThenLast(h: Host, first: Attempt, next: Host -> Attempt)
    ensures var e := Last(h, first.states);
            Last(h, Then(h, first, next).states) == if first.ok then Last(e, next(e).states) else e
  {
    var e := Last(h, first.states);
    assert Last(h, first.states + next(e).states) == Last(e, next(e).states);
  }

  predicate Based(h: Host) {
    h.baseline.Known?
  }

  /** Same files and same baseline. */
  predicate SameFiles(h: Host, s: Host) {
    s.sysctl == h.sysctl && s.modules == h.modules && s.baseline == h.baseline
  }

  /** A value an undo may put back: the original one or ours. */
  predicate Undoable(o: Host, congestion: string, qdisc: string) {
    (congestion == o.congestion || congestion == BBR) && (qdisc == o.qdisc || qdisc == FQ)
  }

  lemma SetCongestionKept(o: Host, h: Host, congestion: string, qdisc: string, env: Env)
    requires Kept(o, h) && Based(h) && Undoable(o, congestion, qdisc)
    ensures AllKept(o, h, SetCongestion(h, qdisc, env)) && SameFiles(h, Last(h, SetCongestion(h, qdisc, env).states))
  {
  }

  lemma ReadBackKept(o: Host, h: Host, congestion: string, qdisc: string, env: Env)
    requires Kept(o, h) && Based(h) && Undoable(o, congestion, qdisc)
    ensures AllKept(o, h, ReadBack(h, congestion, qdisc, env)) && SameFiles(h, Last(h, ReadBack(h, congestion, qdisc, env).states))
    ensures ReadBack(h, congestion, qdisc, env).ok ==> AlreadyEnabled(h) && ReadBack(h, congestion, qdisc, env).states == []
  {
  }

  lemma SetAndCheckKept(o: Host, h: Host, congestion: string, qdisc: string, env: Env)
    requires Kept(o, h) && Based(h) && Undoable(o, congestion, qdisc)
    ensures AllKept(o, h, SetAndCheck(h, congestion, qdisc, env))
    ensures var e := Last(h, SetAndCheck(h, congestion, qdisc, env).states);
            SameFiles(h, e) && (SetAndCheck(h, congestion, qdisc, env).ok ==> AlreadyEnabled(e))
  {
    SetCongestionKept(o, h, congestion, qdisc, env);
    ReadBackKept(o, Last(h, SetCongestion(h, qdisc, env).states), congestion, qdisc, env);
    ThenKept(o, h, SetCongestion(h, qdisc, env), e => ReadBack(e, congestion, qdisc, env));
  }

  lemma SwitchKept(o: Host, h: Host, env: Env)
    requires Kept(o, h) && Based(h)
    ensures AllKept(o, h, Switch(h, env))
    ensures var e := Last(h, Switch(h, env).states); SameFiles(h, e) && (Switch(h, env).ok ==> AlreadyEnabled(e))
  {
    var a := Last(h, SetQdisc(h, env).states);
    if SetQdisc(h, env).ok {
      SetAndCheckKept(o, a, h.congestion, h.qdisc, env);
    }
    ThenKept(o, h, SetQdisc(h, env), e => SetAndCheck(e, h.congestion, h.qdisc, env));
  }

  lemma PersistKept(o: Host, h: Host, env: Env)
    requires Kept(o, h) && Managed(o.sysctl) && (env.needsModule ==> Managed(o.modules))
    ensures AllKept(o, h, Persist(h, env)) && AllKept(o, h, PersistSysctl(h, env))
    ensures var e := Last(h, Persist(h, env).states);
            e.congestion == h.congestion && e.qdisc == h.qdisc && e.baseline == h.baseline && (Persist(h, env).ok ==> e.sysctl.Ours? && (env.needsModule ==> e.modules.Ours?))
  {
    ThenKept(o, h, PersistSysctl(h, env), e => PersistModules(e, env));
  }

  lemma SaveBaselineKept(o: Host, h: Host, env: Env)
    requires Kept(o, h)
    ensures AllKept(o, h, SaveBaseline(h, env))
    ensures var e := Last(h, SaveBaseline(h, env).states);
            && (SaveBaseline(h, env).ok ==> Based(e)) && e.(baseline := h.baseline) == h
            && (Based(h) ==> e == h)
  {
  }

  lemma SwitchAndPersistKept(o: Host, h: Host, env: Env)
    requires Kept(o, h) && Based(h) && Managed(o.sysctl) && (env.needsModule ==> Managed(o.modules))
    ensures AllKept(o, h, SwitchAndPersist(h, env))
    ensures SwitchAndPersist(h, env).ok ==>
              var e := Last(h, SwitchAndPersist(h, env).states); AlreadyEnabled(e) && e.sysctl.Ours? && e.baseline == h.baseline
  {
    SwitchKept(o, h, env);
    var a := Last(h, Switch(h, env).states);
    PersistKept(o, a, env);
    ThenKept(o, h, Switch(h, env), e => Persist(e, env));
  }

  /** A slot that may be filled now was not foreign when it was found. */
  lemma ManagedWasManaged(found: File, now: File)
    requires SlotOk(found, now) && Managed(now)
    ensures Managed(found)
  {
  }

  lemma AlreadyEnabledKept(o: Host, h: Host, env: Env)
    requires Kept(o, h) && AlreadyEnabled(h) && Managed(h.sysctl)
    ensures var a := Then(h, SaveBaseline(h, env), e => PersistSysctl(e, env));
            && AllKept(o, h, a)
            && (a.ok ==> AlreadyEnabled(Last(h, a.states)) && Last(h, a.states).sysctl.Ours? && Based(Last(h, a.states)))
  {
    SaveBaselineKept(o, h, env);
    PersistKept(o, Last(h, SaveBaseline(h, env).states), env.(needsModule := false));
    ThenKept(o, h, SaveBaseline(h, env), e => PersistSysctl(e, env));
  }

  lemma EnableKept(o: Host, h: Host, env: Env)
    requires Kept(o, h) && MayEnable(h, env) && Managed(h.sysctl)
    ensures var a := Enable(h, env);
            && AllKept(o, h, a)
            && (a.ok ==> AlreadyEnabled(Last(h, a.states)) && Last(h, a.states).sysctl.Ours? && Based(Last(h, a.states)))
  {
    SaveBaselineKept(o, h, env);
    if SaveBaseline(h, env).ok {
      SwitchAndPersistKept(o, Last(h, SaveBaseline(h, env).states), env);
    }
    ThenKept(o, h, SaveBaseline(h, env), e => SwitchAndPersist(e, env));
  }

  /** Success means both values are ours, the drop-in is ours, and the originals are saved; nothing else is ever touched. */
  lemma EnsureKept(o: Host, h: Host, env: Env)
    requires Kept(o, h)
    ensures AllKept(o, h, TryEnsure(h, env))
    ensures TryEnsure(h, env).ok ==>
              var e := Last(h, TryEnsure(h, env).states);
              AlreadyEnabled(e) && e.sysctl.Ours? && e.baseline == Known(o.congestion, o.qdisc)
  {
    if env.readValues && env.readSysctl && Managed(h.sysctl) {
      if AlreadyEnabled(h) {
        AlreadyEnabledKept(o, h, env);
      } else if MayEnable(h, env) {
        EnableKept(o, h, env);
      }
    }
  }

  predicate SavesBaseline(h: Host, env: Env) {
    env.readBaseline && (h.baseline.NoBaseline? ==> env.baselineWrite.Written?)
  }

  predicate PersistsSysctl(h: Host, env: Env) {
    h.sysctl.Ours? || env.sysctlWrite.Written?
  }

  /** Each value that is not ours is taken by the kernel, and both are read back. */
  predicate Switches(h: Host, env: Env) {
    (h.qdisc == FQ || env.setQdisc.Applied?) && (h.congestion == BBR || env.setCongestion.Applied?) && env.readBack
  }

  lemma SwitchesIff(h: Host, env: Env)
    ensures Switch(h, env).ok <==> Switches(h, env)
    ensures Switch(h, env).ok ==> Last(h, Switch(h, env).states) == h.(congestion := BBR, qdisc := FQ)
  {
    var a := Last(h, SetQdisc(h, env).states);
    ThenLast(h, SetQdisc(h, env), e => SetAndCheck(e, h.congestion, h.qdisc, env));
    ThenLast(a, SetCongestion(a, h.qdisc, env), e => ReadBack(e, h.congestion, h.qdisc, env));
  }

  lemma PersistIff(h: Host, env: Env)
    ensures Persist(h, env).ok <==> PersistsSysctl(h, env) && (env.needsModule ==> h.modules.Ours? || env.modulesWrite.Written?)
    ensures Persist(h, env).ok ==>
              Last(h, Persist(h, env).states) == h.(sysctl := Ours, modules := if env.needsModule then Ours else h.modules)
  {
    ThenLast(h, PersistSysctl(h, env), e => PersistModules(e, env));
  }

  lemma SwitchAndPersistIff(h: Host, env: Env)
    ensures SwitchAndPersist(h, env).ok <==>
            Switches(h, env) && PersistsSysctl(h, env) && (env.needsModule ==> h.modules.Ours? || env.modulesWrite.Written?)
    ensures SwitchAndPersist(h, env).ok ==>
              Last(h, SwitchAndPersist(h, env).states) ==
                h.(congestion := BBR, qdisc := FQ, sysctl := Ours, modules := if env.needsModule then Ours else h.modules)
  {
    SwitchesIff(h, env);
    PersistIff(Last(h, Switch(h, env).states), env);
    ThenLast(h, Switch(h, env), e => Persist(e, env));
  }

  /** The host as a successful ensure leaves it. */
  function Enabled(h: Host, env: Env): Host {
    Host(BBR, FQ, Ours, if !AlreadyEnabled(h) && env.needsModule then Ours else h.modules,
         if h.baseline.NoBaseline? then Known(h.congestion, h.qdisc) else h.baseline)
  }

  /** An ensure succeeds exactly if each step it needs works, and then leaves exactly this. */
  lemma EnsureSucceedsIff(h: Host, env: Env)
    ensures TryEnsure(h, env).ok <==>
            && env.readValues && env.readSysctl && Managed(h.sysctl) && SavesBaseline(h, env) && PersistsSysctl(h, env)
            && (!AlreadyEnabled(h) ==>
                  && env.readAvailable && env.exposed && Switches(h, env)
                  && (env.needsModule ==>
                        env.loaded && env.readModules && !h.modules.Foreign? && (h.modules.Ours? || env.modulesWrite.Written?)))
    ensures TryEnsure(h, env).ok ==> Last(h, TryEnsure(h, env).states) == Enabled(h, env)
  {
    var saved := Last(h, SaveBaseline(h, env).states);
    ThenLast(h, SaveBaseline(h, env), e => PersistSysctl(e, env));
    ThenLast(h, SaveBaseline(h, env), e => SwitchAndPersist(e, env));
    if SaveBaseline(h, env).ok {
      SwitchAndPersistIff(saved, env);
    }
  }

  // ---------------------------------------------------------------------------------------------------------
  // Cleanup.

  lemma RestoreKept(o: Host, h: Host, env: CleanEnv)
    requires Kept(o, h)
    ensures AllKept(o, h, Restore(h, env)) && SameFiles(h, Last(h, Restore(h, env).states))
  {
    if h.baseline.Known? && Restorable(h.baseline.congestion) && Restorable(h.baseline.qdisc) {
      ThenKept(o, h, RestoreCongestion(h, h.baseline.congestion, env), e => RestoreQdisc(e, h.baseline.qdisc, env));
    }
  }

  /** The kernel accepts each original value that has to be set; cleanup does not read back. */
  predicate Effective(o: Host, h: Host, env: CleanEnv) {
    && (h.congestion != o.congestion ==> !env.setCongestion.Ineffective?)
    && (h.qdisc != o.qdisc ==> !env.setQdisc.Ineffective?)
  }

  /** What a successful restoration leaves: the original values, exactly if the kernel really took them. */
  lemma RestoreRestores(o: Host, h: Host, env: CleanEnv)
    requires Kept(o, h) && Restore(h, env).ok
    ensures var e := Last(h, Restore(h, env).states);
            (e.congestion == o.congestion && e.qdisc == o.qdisc) <==> Effective(o, h, env)
  {
    if h.baseline.Known? {
      ThenKept(o, h, RestoreCongestion(h, h.baseline.congestion, env), e => RestoreQdisc(e, h.baseline.qdisc, env));
    }
  }

  predicate SameValues(h: Host, s: Host) {
    s.congestion == h.congestion && s.qdisc == h.qdisc
  }

  /** Only our files are removed, the baseline last. */
  lemma RemoveFilesKept(o: Host, h: Host, env: CleanEnv)
    requires Kept(o, h)
    ensures forall s | s in RemoveFiles(h, env).states :: SameValues(h, s) && (s.baseline == h.baseline || s.baseline.NoBaseline?)
    ensures SameValues(h, Last(h, RemoveFiles(h, env).states))
    ensures RemoveFiles(h, env).ok ==>
              Last(h, RemoveFiles(h, env).states) ==
                h.(baseline := NoBaseline,
                   sysctl := if h.sysctl.Ours? then Absent else h.sysctl,
                   modules := if h.modules.Ours? then Absent else h.modules)
  {
    var a := Last(h, RemoveSysctl(h, env).states);
    ThenLast(h, RemoveSysctl(h, env), e => RemoveRest(e, env));
    ThenLast(a, RemoveModules(a, env), e => RemoveBaseline(e, env));
  }

  /**
   The baseline restores: after any number of ensures, a cleanup that reports success has put back both original values
   (if the kernel took what it accepted) and removed exactly our files and the baseline.
   */
  lemma CleanupRestores(o: Host, h: Host, env: CleanEnv)
    requires Kept(o, h) && Cleanup(h, env).ok
    ensures var e := Last(h, Cleanup(h, env).states);
            && (e.congestion == o.congestion && e.qdisc == o.qdisc <==> Effective(o, h, env)) && e.baseline.NoBaseline?
            && e.sysctl == (if h.sysctl.Ours? then Absent else h.sysctl) && e.modules == (if h.modules.Ours? then Absent else h.modules)
            && (o.sysctl.Foreign? ==> e.sysctl == o.sysctl) && (o.modules.Foreign? ==> e.modules == o.modules)
  {
    RestoreKept(o, h, env);
    RestoreRestores(o, h, env);
    var a := Last(h, Restore(h, env).states);
    RemoveFilesKept(o, a, env);
    ThenLast(h, Restore(h, env), e => RemoveFiles(e, env));
  }

  /** The saved values can be put back: both are restorable names, and the kernel refuses none that has to be set. */
  predicate Restores(h: Host, env: CleanEnv) {
    h.baseline.NoBaseline? ||
    (&& h.baseline.Known? && Restorable(h.baseline.congestion) && Restorable(h.baseline.qdisc)
     && env.readCongestion && (h.congestion == BBR && h.baseline.congestion != BBR ==> !env.setCongestion.Refused?)
     && env.readQdisc && (h.qdisc == FQ && h.baseline.qdisc != FQ ==> !env.setQdisc.Refused?))
  }

  /** A cleanup succeeds exactly if what was saved can be put back and what is ours can be removed. */
  lemma CleanupSucceedsExactly(h: Host, env: CleanEnv)
    ensures Cleanup(h, env).ok <==>
            && env.readBaseline && Restores(h, env)
            && env.readSysctl && (h.sysctl.Ours? ==> env.removeSysctl) && env.readModules && (h.modules.Ours? ==> env.removeModules)
            && (!h.baseline.NoBaseline? ==> env.removeBaseline)
  {
    var e := Last(h, Restore(h, env).states);
    RestoreIff(h, env);
    if Restore(h, env).ok {
      RemovalIff(e, env);
    }
  }

  lemma RestoreIff(h: Host, env: CleanEnv)
    ensures Restore(h, env).ok <==> Restores(h, env)
    ensures SameFiles(h, Last(h, Restore(h, env).states))
  {
    if h.baseline.Known? && Restorable(h.baseline.congestion) && Restorable(h.baseline.qdisc) {
      ThenLast(h, RestoreCongestion(h, h.baseline.congestion, env), e => RestoreQdisc(e, h.baseline.qdisc, env));
    }
  }

  lemma RemovalIff(h: Host, env: CleanEnv)
    ensures RemoveFiles(h, env).ok <==>
            && env.readSysctl && (h.sysctl.Ours? ==> env.removeSysctl) && env.readModules && (h.modules.Ours? ==> env.removeModules)
            && (!h.baseline.NoBaseline? ==> env.removeBaseline)
  {
  }

  /** A cleanup that is not interfered with succeeds exactly if the original values are ones it accepts. */
  lemma CleanupSucceedsIff(o: Host, h: Host, env: CleanEnv)
    requires Kept(o, h)
    requires env.readBaseline && env.readCongestion && env.readQdisc && env.setCongestion.Applied? && env.setQdisc.Applied?
    requires env.readSysctl && env.removeSysctl && env.readModules && env.removeModules && env.removeBaseline
    ensures Cleanup(h, env).ok <==> h.baseline.NoBaseline? || (Restorable(o.congestion) && Restorable(o.qdisc))
    ensures !Cleanup(h, env).ok ==> Cleanup(h, env).states == []
  {
  }

  /** A saved name can be restored exactly if it has at least one character and only letters, digits and underscores. */
  lemma RestorableIff(v: string)
    ensures Restorable(v) <==>
            |v| > 0 && forall c | c in v :: c in SiteChecks.SMALL || c in SiteChecks.CAPITALS || c in SiteChecks.DIGITS || c in ['_']
  {
    forall c | c in v ensures NameChar(c) <==> c in SiteChecks.SMALL || c in SiteChecks.CAPITALS || c in SiteChecks.DIGITS || c in ['_'] {
      SiteChecks.LowerIff(c);
      SiteChecks.UpperIff(c);
      SiteChecks.DigitIff(c);
    }
  }

  /** An original name with another character is saved but never restored. */
  lemma UnrestorableExample(h: Host, env: CleanEnv)
    requires h.baseline == Known("bbr-lan", FQ)
    ensures !Cleanup(h, env).ok
  {
    assert "bbr-lan"[3] == '-';
  }

  /** A value that is not ours is not touched. */
  predicate Respected(h: Host, s: Host) {
    (h.congestion != BBR ==> s.congestion == h.congestion) && (h.qdisc != FQ ==> s.qdisc == h.qdisc)
  }

  lemma RestoreRespects(h: Host, env: CleanEnv)
    ensures Respected(h, Last(h, Restore(h, env).states))
  {
    if h.baseline.Known? && Restorable(h.baseline.congestion) && Restorable(h.baseline.qdisc) {
      ThenLast(h, RestoreCongestion(h, h.baseline.congestion, env), e => RestoreQdisc(e, h.baseline.qdisc, env));
    }
  }

  lemma RemovalKeepsValues(h: Host, env: CleanEnv)
    ensures SameValues(h, Last(h, RemoveFiles(h, env).states))
  {
    ThenLast(h, RemoveSysctl(h, env), e => RemoveRest(e, env));
    ThenLast(Last(h, RemoveSysctl(h, env).states), RemoveModules(Last(h, RemoveSysctl(h, env).states), env), e => RemoveBaseline(e, env));
  }

  /** Values an operator has set meanwhile are left alone, whatever the baseline says. */
  lemma OperatorValuesStay(h: Host, env: CleanEnv)
    ensures Respected(h, Last(h, Cleanup(h, env).states))
  {
    RestoreRespects(h, env);
    RemovalKeepsValues(Last(h, Restore(h, env).states), env);
    ThenLast(h, Restore(h, env), e => RemoveFiles(e, env));
  }

  // ---------------------------------------------------------------------------------------------------------
  // Whole histories.

  datatype Action = Ensuring(env: Env) | Cleaning(clean: CleanEnv)

  function Acting(h: Host, a: Action): Attempt {
    match a
    case Ensuring(env) => TryEnsure(h, env)
    case Cleaning(env) => Cleanup(h, env)
  }

  /** An ensure or a cleanup that ran to its end, successfully or not, or was cut short in any of its states. */
  datatype Visit = Visit(action: Action, left: Host)

  ghost predicate Reaches(h: Host, visits: seq<Visit>, e: Host)
    decreases |visits|
  {
    if visits == [] then e == h
    else (visits[0].left == h || visits[0].left in Acting(h, visits[0].action).states) && Reaches(visits[0].left, visits[1..], e)
  }

  /** What a cleanup must not do: report success although the kernel ignored a value it accepted. */
  predicate Deceived(o: Host, h: Host, a: Action) {
    a.Cleaning? && Cleanup(h, a.clean).ok && !Effective(o, h, a.clean)
  }

  predicate NeverDeceived(o: Host, h: Host, visits: seq<Visit>)
    decreases |visits|
  {
    visits != [] ==> !Deceived(o, h, visits[0].action) && NeverDeceived(o, visits[0].left, visits[1..])
  }

  lemma FilesGoKept(o: Host, h: Host, env: CleanEnv)
    requires Kept(o, h)
    ensures AllKept(o, h, RemoveSysctl(h, env))
    ensures AllKept(o, h, RemoveModules(h, env))
    ensures SameValues(h, Last(h, RemoveSysctl(h, env).states)) && SameValues(h, Last(h, RemoveModules(h, env).states))
    ensures Last(h, RemoveSysctl(h, env).states).baseline == h.baseline
    ensures Last(h, RemoveModules(h, env).states).baseline == h.baseline
  {
  }

  /** The baseline may go once both values are the original ones again. */
  lemma RemovalKept(o: Host, h: Host, env: CleanEnv)
    requires Kept(o, h)
    requires RemoveFiles(h, env).ok ==> h.congestion == o.congestion && h.qdisc == o.qdisc
    ensures AllKept(o, h, RemoveFiles(h, env))
  {
    var a := Last(h, RemoveSysctl(h, env).states);
    FilesGoKept(o, h, env);
    if RemoveSysctl(h, env).ok {
      FilesGoKept(o, a, env);
      ThenKept(o, a, RemoveModules(a, env), e => RemoveBaseline(e, env));
    }
    ThenKept(o, h, RemoveSysctl(h, env), e => RemoveRest(e, env));
  }

  /** A cleanup keeps everything in order, wherever it stops, exactly if it is not deceived by the kernel. */
  lemma CleanupKeptIff(o: Host, h: Host, env: CleanEnv)
    requires Kept(o, h)
    ensures AllKept(o, h, Cleanup(h, env)) <==> !Deceived(o, h, Cleaning(env))
  {
    if Cleanup(h, env).ok && !Effective(o, h, env) {
      CleanupRestores(o, h, env);
    } else if env.readBaseline {
      RestoreKept(o, h, env);
      var e := Last(h, Restore(h, env).states);
      if Restore(h, env).ok {
        RestoreRestores(o, h, env);
        RemovalKept(o, e, env);
      }
      ThenKept(o, h, Restore(h, env), e => RemoveFiles(e, env));
    }
  }

  lemma {:induction false} VisitsKeep(o: Host, h: Host, visits: seq<Visit>, e: Host)
    requires Kept(o, h) && Reaches(h, visits, e) && NeverDeceived(o, h, visits)
    ensures Kept(o, e)
    decreases |visits|
  {
    if visits != [] {
      match visits[0].action {
        case Ensuring(env) => EnsureKept(o, h, env);
        case Cleaning(env) => CleanupKeptIff(o, h, env);
      }
      VisitsKeep(o, visits[0].left, visits[1..], e);
    }
  }

  /**
   From an untouched host, over any ensures and cleanups with any failures, crashes and repetitions, a successful
   cleanup restores the host's values, exactly if the kernel takes what it accepts.
   */
  lemma TuningIsReversible(o: Host, visits: seq<Visit>, h: Host, env: CleanEnv)
    requires o.baseline.NoBaseline? && Reaches(o, visits, h) && NeverDeceived(o, o, visits) && Cleanup(h, env).ok
    ensures var e := Last(h, Cleanup(h, env).states);
            (e.congestion == o.congestion && e.qdisc == o.qdisc <==> Effective(o, h, env)) && e.baseline.NoBaseline?
  {
    VisitsKeep(o, o, visits, h);
    CleanupRestores(o, h, env);
  }

  /** The baseline always holds the values the host had before anything was changed, or nothing has been changed. */
  lemma BaselineIsOriginal(o: Host, visits: seq<Visit>, h: Host)
    requires o.baseline.NoBaseline? && Reaches(o, visits, h) && NeverDeceived(o, o, visits)
    ensures h.baseline.NoBaseline? ==> h.congestion == o.congestion && h.qdisc == o.qdisc
    ensures !h.baseline.NoBaseline? ==> h.baseline == Known(o.congestion, o.qdisc)
    ensures (o.sysctl.Foreign? ==> h.sysctl == o.sysctl) && (o.modules.Foreign? ==> h.modules == o.modules)
  {
    VisitsKeep(o, o, visits, h);
  }

  const ENSURE := Env(true, true, true, true, false, true, true, true, Written, Applied, Applied, true, Applied, Applied, Written, Written)
  const CLEAN := CleanEnv(true, true, true, Applied, Applied, true, true, true, true, true)

  lemma UndisturbedEnsure(h: Host)
    requires h.sysctl.Absent? && h.baseline.NoBaseline? && h.qdisc != FQ
    ensures var e := Last(h, TryEnsure(h, ENSURE).states);
            && TryEnsure(h, ENSURE).ok && e in TryEnsure(h, ENSURE).states
            && e == Host(BBR, FQ, Ours, h.modules, Known(h.congestion, h.qdisc))
  {
  }

  lemma DeceivedCleanup(h: Host)
    requires h.congestion == BBR && h.qdisc == FQ && h.sysctl.Ours? && h.modules.Absent? && h.baseline.Known?
    requires Restorable(h.baseline.congestion) && Restorable(h.baseline.qdisc) && h.baseline.congestion != BBR && h.baseline.qdisc != FQ
    ensures var a := Cleanup(h, CLEAN.(setCongestion := Ineffective));
            var e := Host(BBR, h.baseline.qdisc, Absent, Absent, NoBaseline);
            a.ok && e in a.states && Last(h, a.states) == e
  {
  }

  lemma ThreeVisits(h: Host, a: Visit, b: Visit, c: Visit)
    requires a.left in Acting(h, a.action).states && b.left in Acting(a.left, b.action).states && c.left in Acting(b.left, c.action).states
    ensures Reaches(h, [a, b, c], c.left)
  {
    assert Reaches(c.left, [], c.left);
    assert [c][1..] == [] && Reaches(b.left, [c], c.left);
    assert [b, c][1..] == [c] && Reaches(a.left, [b, c], c.left);
    assert [a, b, c][1..] == [b, c];
  }

  /**
   Why the condition is needed: a cleanup that the kernel deceives about the congestion control drops the baseline with
   our value still in force, and the next ensure saves our own value as the original.
   */
  lemma DeceptionForgetsTheOriginal(o: Host)
    requires o.sysctl.Absent? && o.modules.Absent? && o.baseline.NoBaseline?
    requires Restorable(o.congestion) && Restorable(o.qdisc) && o.congestion != BBR && o.qdisc != FQ
    ensures exists visits, h :: Reaches(o, visits, h) && |visits| == 3 && h.baseline == Known(BBR, o.qdisc)
  {
    var clean := CLEAN.(setCongestion := Ineffective);
    UndisturbedEnsure(o);
    var first := Last(o, TryEnsure(o, ENSURE).states);
    DeceivedCleanup(first);
    var second := Last(first, Cleanup(first, clean).states);
    UndisturbedEnsure(second);
    var third := Last(second, TryEnsure(second, ENSURE).states);
    ThreeVisits(o, Visit(Ensuring(ENSURE), first), Visit(Cleaning(clean), second), Visit(Ensuring(ENSURE), third));
  }

  /** A failed switch whose undo works leaves both values as they were. */
  lemma FailedSwitchIsTakenBack(h: Host, env: Env)
    requires !Switch(h, env).ok && env.undoCongestion.Applied? && env.undoQdisc.Applied?
    ensures SameValues(h, Last(h, Switch(h, env).states))
  {
    var a := Last(h, SetQdisc(h, env).states);
    ThenLast(h, SetQdisc(h, env), e => SetAndCheck(e, h.congestion, h.qdisc, env));
    ThenLast(a, SetCongestion(a, h.qdisc, env), e => ReadBack(e, h.congestion, h.qdisc, env));
  }

  // ---------------------------------------------------------------------------------------------------------
  // What a caller can rely on.

  ghost predicate Tuned(h: Host, passed: seq<Host>, e: Host, ok: bool) {
    forall o | Kept(o, h) ::
      && (forall s | s in passed :: Kept(o, s)) && Kept(o, e)
      && (ok ==> AlreadyEnabled(e) && e.sysctl.Ours? && e.baseline == Known(o.congestion, o.qdisc))
  }

  lemma EnsureIsTuned(h: Host, env: Env)
    ensures var a := TryEnsure(h, env); Tuned(h, a.states, Last(h, a.states), a.ok)
  {
    forall o | Kept(o, h) {
      EnsureKept(o, h, env);
    }
  }

  ghost predicate Reversed(h: Host, env: CleanEnv, passed: seq<Host>, e: Host, ok: bool) {
    forall o | Kept(o, h) && !(ok && !Effective(o, h, env)) ::
      && (forall s | s in passed :: Kept(o, s))
      && (ok ==> e.congestion == o.congestion && e.qdisc == o.qdisc && e.baseline.NoBaseline? && !e.sysctl.Ours? && !e.modules.Ours?)
  }

  lemma CleanupIsReversed(h: Host, env: CleanEnv)
    ensures var a := Cleanup(h, env); Reversed(h, env, a.states, Last(h, a.states), a.ok)
  {
    var a := Cleanup(h, env);
    forall o | Kept(o, h) && !(a.ok && !Effective(o, h, env))
      ensures AllKept(o, h, a)
      ensures var e := Last(h, a.states);
              a.ok ==> e.congestion == o.congestion && e.qdisc == o.qdisc && e.baseline.NoBaseline? && !e.sysctl.Ours? && !e.modules.Ours?
    {
      CleanupKeptIff(o, h, env);
      if a.ok {
        CleanupRestores(o, h, env);
      }
    }
  }

  // ---------------------------------------------------------------------------------------------------------
  // The tuning as it changes the host.

  class TunedHost {
    var congestion: string
    var qdisc: string
    var sysctl: File
    var modules: File
    var baseline: Baseline
    ghost var passed: seq<Host>

    function Now(): Host
      reads this
    {
      Host(congestion, qdisc, sysctl, modules, baseline)
    }

    constructor (h: Host)
      ensures Now() == h && passed == []
    {
      congestion, qdisc, sysctl, modules, baseline, passed := h.congestion, h.qdisc, h.sysctl, h.modules, h.baseline, [];
    }

    ghost method Passes()
      modifies this`passed
      ensures passed == old(passed) + [Now()]
    {
      passed := passed + [Now()];
    }

    method ApplyCongestion(value: string, env: ApplyEnv) returns (ok: bool)
      modifies this`congestion, this`passed
      ensures var a := Apply(old(Now()).(congestion := value), env); ok == a.ok && Went(a, old(Now()), old(passed), this)
    {
      if env.Applied? {
        congestion := value;
        Passes();
      }
      ok := !env.Refused?;
    }

    method ApplyQdisc(value: string, env: ApplyEnv) returns (ok: bool)
      modifies this`qdisc, this`passed
      ensures var a := Apply(old(Now()).(qdisc := value), env); ok == a.ok && Went(a, old(Now()), old(passed), this)
    {
      if env.Applied? {
        qdisc := value;
        Passes();
      }
      ok := !env.Refused?;
    }

    method SaveOriginals(env: Env) returns (ok: bool)
      modifies this`baseline, this`passed
      ensures var a := SaveBaseline(old(Now()), env); ok == a.ok && Went(a, old(Now()), old(passed), this)
    {
      if !env.readBaseline {
        return false;
      }
      if !baseline.NoBaseline? {
        return true;
      }
      if !env.baselineWrite.NotWritten? {
        baseline := Known(congestion, qdisc);
        Passes();
      }
      ok := env.baselineWrite.Written?;
    }

    method WriteSysctl(env: Env) returns (ok: bool)
      modifies this`sysctl, this`passed
      ensures var a := PersistSysctl(old(Now()), env); ok == a.ok && Went(a, old(Now()), old(passed), this)
    {
      ok := true;
      if !sysctl.Ours? {
        if !env.sysctlWrite.NotWritten? {
          sysctl := Ours;
          Passes();
        }
        ok := env.sysctlWrite.Written?;
      }
    }

    method WriteModules(env: Env) returns (ok: bool)
      modifies this`modules, this`passed
      ensures var a := PersistModules(old(Now()), env); ok == a.ok && Went(a, old(Now()), old(passed), this)
    {
      ok := true;
      if env.needsModule && !modules.Ours? {
        if !env.modulesWrite.NotWritten? {
          modules := Ours;
          Passes();
        }
        ok := env.modulesWrite.Written?;
      }
    }

    method SetCongestionValue(oldQdisc: string, env: Env) returns (ok: bool)
      modifies this`congestion, this`qdisc, this`passed
      ensures var a := SetCongestion(old(Now()), oldQdisc, env); ok == a.ok && Went(a, old(Now()), old(passed), this)
    {
      ok := true;
      if congestion != BBR {
        ok := ApplyCongestion(BBR, env.setCongestion);
        if !ok {
          var undone := ApplyQdisc(oldQdisc, env.undoQdisc);
        }
      }
    }

    method CheckValues(oldCongestion: string, oldQdisc: string, env: Env) returns (ok: bool)
      modifies this`congestion, this`qdisc, this`passed
      ensures var a := ReadBack(old(Now()), oldCongestion, oldQdisc, env); ok == a.ok && Went(a, old(Now()), old(passed), this)
    {
      ok := env.readBack && congestion == BBR && qdisc == FQ;
      if !ok {
        var undone := ApplyCongestion(oldCongestion, env.undoCongestion);
        undone := ApplyQdisc(oldQdisc, env.undoQdisc);
      }
    }

    /** Congestion control, then read-back; what fails puts back what was there. */
    method SetAndCheckValues(oldCongestion: string, oldQdisc: string, env: Env) returns (ok: bool)
      modifies this`congestion, this`qdisc, this`passed
      ensures var a := SetAndCheck(old(Now()), oldCongestion, oldQdisc, env); ok == a.ok && Went(a, old(Now()), old(passed), this)
    {
      ghost var h, before := Now(), passed;
      ok := SetCongestionValue(oldQdisc, env);
      if ok {
        ghost var e := Now();
        ok := CheckValues(oldCongestion, oldQdisc, env);
        Chain(h, before, SetCongestion(h, oldQdisc, env).states, ReadBack(e, oldCongestion, oldQdisc, env).states);
      }
    }

    method SwitchValues(env: Env) returns (ok: bool)
      modifies this`congestion, this`qdisc, this`passed
      ensures var a := Switch(old(Now()), env); ok == a.ok && Went(a, old(Now()), old(passed), this)
    {
      ghost var h, before := Now(), passed;
      var oldCongestion, oldQdisc := congestion, qdisc;
      ok := true;
      if qdisc != FQ {
        ok := ApplyQdisc(FQ, env.setQdisc);
      }
      if ok {
        ghost var e := Now();
        ok := SetAndCheckValues(oldCongestion, oldQdisc, env);
        Chain(h, before, SetQdisc(h, env).states, SetAndCheck(e, oldCongestion, oldQdisc, env).states);
      }
    }

    method SwitchAndWrite(env: Env) returns (ok: bool)
      modifies this`congestion, this`qdisc, this`sysctl, this`modules, this`passed
      ensures var a := SwitchAndPersist(old(Now()), env); ok == a.ok && Went(a, old(Now()), old(passed), this)
    {
      ghost var h, before := Now(), passed;
      ok := SwitchValues(env);
      if ok {
        ghost var e := Now();
        ok := WriteFiles(env);
        Chain(h, before, Switch(h, env).states, Persist(e, env).states);
      }
    }

    method WriteFiles(env: Env) returns (ok: bool)
      modifies this`sysctl, this`modules, this`passed
      ensures var a := Persist(old(Now()), env); ok == a.ok && Went(a, old(Now()), old(passed), this)
    {
      ghost var h, before := Now(), passed;
      ok := WriteSysctl(env);
      if ok {
        ghost var e := Now();
        ok := WriteModules(env);
        Chain(h, before, PersistSysctl(h, env).states, PersistModules(e, env).states);
      }
    }

    /** Look first, save the originals, switch, persist. */
    method EnsureSteps(env: Env) returns (ok: bool)
      modifies this
      ensures var a := TryEnsure(old(Now()), env); ok == a.ok && Went(a, old(Now()), old(passed), this)
    {
      if !env.readValues || !env.readSysctl || sysctl.Foreign? {
        return false;
      }
      var enabled := congestion == BBR && qdisc == FQ;
      if !enabled && !(env.readAvailable && env.exposed && (env.needsModule ==> env.loaded && env.readModules && !modules.Foreign?)) {
        return false;
      }
      ghost var h, before := Now(), passed;
      ok := SaveOriginals(env);
      if ok {
        ghost var e := Now();
        if enabled {
          ok := WriteSysctl(env);
          Chain(h, before, SaveBaseline(h, env).states, PersistSysctl(e, env).states);
        } else {
          ok := SwitchAndWrite(env);
          Chain(h, before, SaveBaseline(h, env).states, SwitchAndPersist(e, env).states);
        }
      }
    }

    /**
     The whole ensure. Whatever the host was at first, nothing is changed without a baseline of its values, and success
     means that both values and the drop-in are ours.
     */
    method Ensure(env: Env) returns (ok: bool)
      modifies this
      ensures var a := TryEnsure(old(Now()), env); ok == a.ok && Went(a, old(Now()), old(passed), this)
      ensures Tuned(old(Now()), passed[|old(passed)|..], Now(), ok)
      ensures ok ==> Now() == Enabled(old(Now()), env)
    {
      ghost var h, before := Now(), passed;
      ok := EnsureSteps(env);
      Split(before, TryEnsure(h, env).states);
      EnsureIsTuned(h, env);
      EnsureSucceedsIff(h, env);
    }

    method RestoreValues(original: string, discipline: string, env: CleanEnv) returns (ok: bool)
      modifies this`congestion, this`qdisc, this`passed
      ensures var a := Then(old(Now()), RestoreCongestion(old(Now()), original, env), e => RestoreQdisc(e, discipline, env));
              ok == a.ok && Went(a, old(Now()), old(passed), this)
    {
      ghost var h, before := Now(), passed;
      ok := env.readCongestion;
      if ok && congestion == BBR && original != BBR {
        ok := ApplyCongestion(original, env.setCongestion);
      }
      if ok {
        ghost var e := Now();
        ok := env.readQdisc;
        if ok && qdisc == FQ && discipline != FQ {
          ok := ApplyQdisc(discipline, env.setQdisc);
        }
        Chain(h, before, RestoreCongestion(h, original, env).states, RestoreQdisc(e, discipline, env).states);
      }
    }

    method RemoveSysctlFile(env: CleanEnv) returns (ok: bool)
      modifies this`sysctl, this`passed
      ensures var a := RemoveSysctl(old(Now()), env); ok == a.ok && Went(a, old(Now()), old(passed), this)
    {
      ok := env.readSysctl && (sysctl.Ours? ==> env.removeSysctl);
      if ok && sysctl.Ours? {
        sysctl := Absent;
        Passes();
      }
    }

    method RemoveModulesFile(env: CleanEnv) returns (ok: bool)
      modifies this`modules, this`passed
      ensures var a := RemoveModules(old(Now()), env); ok == a.ok && Went(a, old(Now()), old(passed), this)
    {
      ok := env.readModules && (modules.Ours? ==> env.removeModules);
      if ok && modules.Ours? {
        modules := Absent;
        Passes();
      }
    }

    method RemoveRemaining(env: CleanEnv) returns (ok: bool)
      modifies this`modules, this`baseline, this`passed
      ensures var a := RemoveRest(old(Now()), env); ok == a.ok && Went(a, old(Now()), old(passed), this)
    {
      ghost var h, before := Now(), passed;
      ok := RemoveModulesFile(env);
      if ok {
        ghost var e := Now();
        ok := baseline.NoBaseline? || env.removeBaseline;
        if ok && !baseline.NoBaseline? {
          baseline := NoBaseline;
          Passes();
        }
        Chain(h, before, RemoveModules(h, env).states, RemoveBaseline(e, env).states);
      }
    }

    method RemoveOurs(env: CleanEnv) returns (ok: bool)
      modifies this`sysctl, this`modules, this`baseline, this`passed
      ensures var a := RemoveFiles(old(Now()), env); ok == a.ok && Went(a, old(Now()), old(passed), this)
    {
      ghost var h, before := Now(), passed;
      ok := RemoveSysctlFile(env);
      if ok {
        ghost var e := Now();
        ok := RemoveRemaining(env);
        Chain(h, before, RemoveSysctl(h, env).states, RemoveRest(e, env).states);
      }
    }

    method RestoreBaseline(env: CleanEnv) returns (ok: bool)
      modifies this`congestion, this`qdisc, this`passed
      ensures var a := Restore(old(Now()), env); ok == a.ok && Went(a, old(Now()), old(passed), this)
    {
      match baseline {
        case NoBaseline => ok := true;
        case Unreadable => ok := false;
        case Known(c, q) =>
          ok := Restorable(c) && Restorable(q);
          if ok {
            ok := RestoreValues(c, q, env);
          }
      }
    }

    /** Restore the saved values while they still are ours, then remove our files, the baseline last. */
    method CleanUpSteps(env: CleanEnv) returns (ok: bool)
      modifies this
      ensures var a := Cleanup(old(Now()), env); ok == a.ok && Went(a, old(Now()), old(passed), this)
    {
      if !env.readBaseline {
        return false;
      }
      ghost var h, before := Now(), passed;
      ok := RestoreBaseline(env);
      if ok {
        ghost var e := Now();
        ok := RemoveOurs(env);
        Chain(h, before, Restore(h, env).states, RemoveFiles(e, env).states);
      }
    }

    /**
     The whole cleanup. Wherever it stops, the originals are in force or still saved, unless the kernel ignored a value
     it accepted; success means that they are in force.
     */
    method CleanUp(env: CleanEnv) returns (ok: bool)
      modifies this
      ensures var a := Cleanup(old(Now()), env); ok == a.ok && Went(a, old(Now()), old(passed), this)
      ensures Reversed(old(Now()), env, passed[|old(passed)|..], Now(), ok)
    {
      ghost var h, before := Now(), passed;
      ok := CleanUpSteps(env);
      Split(before, Cleanup(h, env).states);
      CleanupIsReversed(h, env);
    }
  }

  ghost predicate Went(a: Attempt, h: Host, before: seq<Host>, t: TunedHost)
    reads t
  {
    t.passed == before + a.states && t.Now() == Last(h, a.states)
  }
}
