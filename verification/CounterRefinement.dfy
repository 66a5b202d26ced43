/**
 Left alone, the step machine of the counters does what the methods of the counter map say: its single loads and
 subtractions, in any order of the entries, add up to `Retained`, a snapshot, and `Committed`.
 */
module CounterRefinement {
  import opened Wrappers
  import opened TrafficModel
  import Race = CounterRace
  import opened TrafficCounters

  function Natural(n: int): nat {
    if n < 0 then 0 else n
  }

  function CountsOf(g: Race.Generation): Counts {
    Counts(Amount(Natural(g.up), Natural(g.down)), Natural(g.live))
  }

  /** The map as the methods see it. */
  function ViewOf(m: Race.Counters): View {
    map k | k in m.table :: CountsOf(Race.Entry(m, k))
  }

  function Amounts(captured: map<Key, Race.Captured>): map<Key, Amount> {
    map k | k in captured :: captured[k].amount
  }

  /** The lock holder runs from m to n without any other thread. */
  ghost predicate Alone(m: Race.Counters, keys: seq<Key>, n: Race.Counters)
    decreases |keys|
  {
    if keys == [] then n == m
    else
      && !m.phase.Unlocked? && Race.Enabled(m, Race.LockStep(keys[0]))
      && Alone(Race.Step(m, Race.LockStep(keys[0])), keys[1..], n)
  }

  // ---------------------------------------------------------------------------------------------------------
  // Commit.

  /** What is still to be subtracted; an entry whose turn is not over is still to be looked at. */
  function Remaining(pending: map<Key, Race.Captured>, s: Race.Settlement): map<Key, Amount> {
    match s
    case Next => Amounts(pending)
    case UploadTaken(q) => if q in pending then Amounts(pending)[q := Amount(0, pending[q].amount.down)] else Amounts(pending)
    case Taken(q) => Amounts(pending)[q := Amount(0, 0)]
    case Unreferenced(q) => Amounts(pending)[q := Amount(0, 0)]
    case NoUploadLeft(q) => Amounts(pending)[q := Amount(0, 0)]
  }

  lemma RemainingIsCovered(m: Race.Counters)
    requires Race.Inv(m) && m.phase.Settling?
    ensures Covers(ViewOf(m), Remaining(m.phase.pending, m.phase.settlement))
  {
  }

  /** Subtracting in parts is subtracting. */
  lemma SubtractPart(v: View, taken: map<Key, Amount>, k: Key, part: Amount)
    requires Covers(v, taken) && k in taken && part.up <= taken[k].up && part.down <= taken[k].down
    ensures var after, rest := v[k := Counts(Minus(v[k].amount, part), v[k].live)], taken[k := Minus(taken[k], part)];
            Covers(after, rest) && Committed(after, rest) == Committed(v, taken)
  {
  }

  /** Changing one mapped entry changes one entry of the view. */
  lemma PutView(m: Race.Counters, k: Key, g: Race.Generation)
    requires Race.TableOk(m) && k in m.table && g.key == k
    ensures ViewOf(Race.Put(m, k, g)) == ViewOf(m)[k := CountsOf(g)]
  {
  }

  lemma TakeUploadView(m: Race.Counters, k: Key, amount: Amount)
    requires Race.TableOk(m) && k in m.table && 0 <= amount.up <= Race.Entry(m, k).up
    ensures var g := Race.Entry(m, k);
            ViewOf(Race.Put(m, k, g.(up := g.up - amount.up))) ==
            ViewOf(m)[k := Counts(Minus(ViewOf(m)[k].amount, Amount(amount.up, 0)), ViewOf(m)[k].live)]
  {
    var g := Race.Entry(m, k);
    PutView(m, k, g.(up := g.up - amount.up));
  }

  lemma TakeDownloadView(m: Race.Counters, k: Key, down: nat)
    requires Race.TableOk(m) && k in m.table && down <= Race.Entry(m, k).down
    ensures var g := Race.Entry(m, k);
            ViewOf(Race.Put(m, k, g.(down := g.down - down))) ==
            ViewOf(m)[k := Counts(Minus(ViewOf(m)[k].amount, Amount(0, down)), ViewOf(m)[k].live)]
  {
    var g := Race.Entry(m, k);
    PutView(m, k, g.(down := g.down - down));
  }

  /** A commit's goal, for a state given by its view and what remains to be subtracted. */
  ghost predicate LeadsTo(v: View, taken: map<Key, Amount>, goal: View) {
    Covers(v, taken) && Committed(v, taken) == goal
  }

  lemma TakeUploadKeepsGoal(m: Race.Counters, k: Key, goal: View)
    requires Race.TableOk(m) && m.phase.Settling? && m.phase.settlement.Next? && k in m.phase.pending
    requires k in m.table && m.table[k] == m.phase.pending[k].gen && m.phase.pending[k].amount.up <= Race.Entry(m, k).up
    requires LeadsTo(ViewOf(m), Amounts(m.phase.pending), goal)
    ensures var n := Race.SettleStep(m, k);
            n.phase.Settling? && LeadsTo(ViewOf(n), Remaining(n.phase.pending, n.phase.settlement), goal)
  {
    var n := Race.SettleStep(m, k);
    var v, amount := ViewOf(m), m.phase.pending[k].amount;
    TakeUploadView(m, k, amount);
    SubtractPart(v, Amounts(m.phase.pending), k, Amount(amount.up, 0));
    RemainingAfterUpload(m.phase.pending, k);
    SameTables(n, Race.Put(m, k, Race.Entry(m, k).(up := Race.Entry(m, k).up - amount.up)));
  }

  lemma RemainingAfterUpload(pending: map<Key, Race.Captured>, k: Key)
    requires k in pending
    ensures var amount := pending[k].amount;
            && Remaining(pending, Race.UploadTaken(k)) == Amounts(pending)[k := Minus(amount, Amount(amount.up, 0))]
            && Remaining(pending - {k}, Race.Taken(k)) == Remaining(pending, Race.UploadTaken(k))[k := Amount(0, 0)]
  {
  }

  lemma SameTables(m: Race.Counters, n: Race.Counters)
    requires m.table == n.table && m.gens == n.gens
    ensures ViewOf(m) == ViewOf(n)
  {
    assert forall k | k in m.table :: Race.Entry(m, k) == Race.Entry(n, k);
  }

  lemma TakeDownloadKeepsGoal(m: Race.Counters, k: Key, goal: View)
    requires Race.TableOk(m) && m.phase.Settling? && m.phase.settlement.UploadTaken?
    requires Race.SettlementOk(m, m.phase.pending, m.phase.settlement)
    requires LeadsTo(ViewOf(m), Remaining(m.phase.pending, m.phase.settlement), goal)
    ensures var n := Race.SettleStep(m, k);
            n.phase.Settling? && LeadsTo(ViewOf(n), Remaining(n.phase.pending, n.phase.settlement), goal)
  {
    var n, q := Race.SettleStep(m, k), m.phase.settlement.key;
    var down := m.phase.pending[q].amount.down;
    TakeDownloadView(m, q, down);
    SubtractPart(ViewOf(m), Remaining(m.phase.pending, m.phase.settlement), q, Amount(0, down));
    RemainingAfterUpload(m.phase.pending, q);
    SameTables(n, Race.Put(m, q, Race.Entry(m, q).(down := Race.Entry(m, q).down - down)));
  }

  /** An entry that is not finished stays, and one that is finished goes, whether that is decided now or later. */
  lemma Decide(v: View, taken: map<Key, Amount>, q: Key, goal: View)
    requires q in v && q !in taken && LeadsTo(v, taken[q := Amount(0, 0)], goal)
    ensures !v[q].Finished() ==> LeadsTo(v, taken, goal)
    ensures v[q].Finished() ==> LeadsTo(v - {q}, taken, goal)
  {
    assert Minus(v[q].amount, Amount(0, 0)) == v[q].amount;
  }

  /** Looking at an entry that was subtracted: it goes exactly if it is finished. */
  lemma ReleaseKeepsGoal(m: Race.Counters, k: Key, goal: View)
    requires Race.TableOk(m) && Race.GensOk(m) && m.phase.Settling?
    requires m.phase.settlement.Taken? || m.phase.settlement.Unreferenced? || m.phase.settlement.NoUploadLeft?
    requires Race.SettlementOk(m, m.phase.pending, m.phase.settlement)
    requires LeadsTo(ViewOf(m), Remaining(m.phase.pending, m.phase.settlement), goal)
    ensures var n := Race.SettleStep(m, k);
            n.phase.Settling? && LeadsTo(ViewOf(n), Remaining(n.phase.pending, n.phase.settlement), goal)
  {
    var n, q := Race.SettleStep(m, k), m.phase.settlement.key;
    Decide(ViewOf(m), Amounts(m.phase.pending), q, goal);
    if n.table == m.table {
      SameTables(m, n);
    } else {
      RemovedView(m, n, q);
    }
  }

  lemma RemovedView(m: Race.Counters, n: Race.Counters, q: Key)
    requires n.table == m.table - {q} && n.gens == m.gens
    ensures ViewOf(n) == ViewOf(m) - {q}
  {
    assert forall k | k in n.table :: Race.Entry(m, k) == Race.Entry(n, k);
  }

  /** Every single subtraction, load and removal of a commit leads to the same end. */
  lemma SettleStepKeepsGoal(m: Race.Counters, k: Key, goal: View)
    requires Race.Inv(m) && m.phase.Settling? && Race.Enabled(m, Race.LockStep(k))
    requires LeadsTo(ViewOf(m), Remaining(m.phase.pending, m.phase.settlement), goal)
    ensures var n := Race.SettleStep(m, k);
            if n.phase.Settling? then LeadsTo(ViewOf(n), Remaining(n.phase.pending, n.phase.settlement), goal)
            else n.phase.Unlocked? && ViewOf(n) == goal
  {
    if m.phase.settlement.Next? {
      if m.phase.pending != map[] {
        TakeUploadKeepsGoal(m, k, goal);
      } else {
        NothingLeft(ViewOf(m));
        SameTables(m, Race.SettleStep(m, k));
      }
    } else if m.phase.settlement.UploadTaken? {
      TakeDownloadKeepsGoal(m, k, goal);
    } else {
      ReleaseKeepsGoal(m, k, goal);
    }
  }

  lemma NothingLeft(v: View)
    ensures Committed(v, map[]) == v
  {
  }

  lemma {:induction false} CommitReachesGoal(m: Race.Counters, keys: seq<Key>, n: Race.Counters, goal: View)
    requires Race.Inv(m) && m.phase.Settling? && Alone(m, keys, n) && n.phase.Unlocked?
    requires LeadsTo(ViewOf(m), Remaining(m.phase.pending, m.phase.settlement), goal)
    ensures ViewOf(n) == goal
    decreases |keys|
  {
    var next := Race.Step(m, Race.LockStep(keys[0]));
    SettleStepKeepsGoal(m, keys[0], goal);
    Race.StepKeepsInv(m, Race.LockStep(keys[0]));
    if next.phase.Settling? {
      CommitReachesGoal(next, keys[1..], n, goal);
    } else {
      UnlockedIsTheEnd(next, keys[1..], n);
    }
  }

  lemma UnlockedIsTheEnd(m: Race.Counters, keys: seq<Key>, n: Race.Counters)
    requires m.phase.Unlocked? && Alone(m, keys, n)
    ensures n == m
  {
  }

  /** An undisturbed commit, in whatever order it takes the entries, ends as `Committed` says. */
  lemma UndisturbedCommit(m: Race.Counters, keys: seq<Key>, n: Race.Counters)
    requires Race.Inv(m) && Race.Enabled(m, Race.CommitBegin)
    requires Alone(Race.Step(m, Race.CommitBegin), keys, n) && n.phase.Unlocked?
    ensures Covers(ViewOf(m), Amounts(m.held.value.captured))
    ensures ViewOf(n) == Committed(ViewOf(m), Amounts(m.held.value.captured))
  {
    Race.StepKeepsInv(m, Race.CommitBegin);
    var begun := Race.Step(m, Race.CommitBegin);
    RemainingIsCovered(begun);
    SameTables(m, begun);
    CommitReachesGoal(begun, keys, n, Committed(ViewOf(m), Amounts(m.held.value.captured)));
  }

  // ---------------------------------------------------------------------------------------------------------
  // Sweep and snapshot.

  /** What a sweep of the entries in `todo` leaves. */
  function Swept(v: View, rule: Option<int>, todo: set<Key>): View {
    map k | k in v && (k !in todo || (rule.Some? && k.rule != rule.value) || !v[k].Finished()) :: v[k]
  }

  lemma PassOver(v: View, rule: Option<int>, todo: set<Key>, k: Key)
    requires k in v && ((rule.Some? && k.rule != rule.value) || !v[k].Finished())
    ensures Swept(v, rule, todo - {k}) == Swept(v, rule, todo)
  {
  }

  lemma SweepAway(v: View, rule: Option<int>, todo: set<Key>, k: Key)
    requires k in v && k in todo && (rule.None? || k.rule == rule.value) && v[k].Finished()
    ensures Swept(v - {k}, rule, todo - {k}) == Swept(v, rule, todo)
  {
  }

  /** The entry under test belongs to the rule that is swept. */
  predicate ProbesRule(rule: Option<int>, probe: Race.Probe) {
    !probe.Between? ==> rule.None? || rule.value == probe.key.rule
  }

  /** A sweep on its way to a goal. */
  ghost predicate SweepingTo(m: Race.Counters, goal: View) {
    m.phase.Sweeping? && ProbesRule(m.phase.rule, m.phase.probe) && Swept(ViewOf(m), m.phase.rule, m.phase.todo) == goal
  }

  lemma SweepStepKeepsGoal(m: Race.Counters, k: Key, goal: View)
    requires Race.TableOk(m) && Race.GensOk(m) && SweepingTo(m, goal) && Race.LockEnabled(m.phase, k)
    requires m.phase.todo <= m.table.Keys && Race.ProbeOk(m, m.phase.todo, m.phase.probe)
    ensures var n := Race.SweepStep(m, k);
            if n.phase.Sweeping? then SweepingTo(n, goal) && n.phase.rule == m.phase.rule
            else ViewOf(n) == goal && (n.phase.Unlocked? <==> m.phase.rule.Some?)
  {
    var n, p := Race.SweepStep(m, k), m.phase;
    if n.table == m.table {
      SameTables(m, n);
      if p.probe.Between? && p.todo != {} {
        SweepBetween(m, k);
      } else if !p.probe.Between? && n.phase.probe.Between? {
        PassOver(ViewOf(m), p.rule, p.todo, p.probe.key);
      }
    } else {
      SweepAway(ViewOf(m), p.rule, p.todo, p.probe.key);
      RemovedView(m, n, p.probe.key);
    }
  }

  lemma SweepBetween(m: Race.Counters, k: Key)
    requires Race.TableOk(m) && Race.GensOk(m) && m.phase.Sweeping? && m.phase.probe.Between?
    requires k in m.phase.todo && m.phase.todo <= m.table.Keys
    ensures var n := Race.SweepStep(m, k);
            n.phase.probe.Between? ==> Swept(ViewOf(m), m.phase.rule, n.phase.todo) == Swept(ViewOf(m), m.phase.rule, m.phase.todo)
  {
    if Race.SweepStep(m, k).phase.probe.Between? {
      PassOver(ViewOf(m), m.phase.rule, m.phase.todo, k);
    }
  }

  lemma {:induction false} SweepReachesGoal(m: Race.Counters, keys: seq<Key>, n: Race.Counters, goal: View)
    requires Race.Inv(m) && SweepingTo(m, goal) && m.phase.rule.Some? && Alone(m, keys, n) && n.phase.Unlocked?
    ensures ViewOf(n) == goal
    decreases |keys|
  {
    var next := Race.Step(m, Race.LockStep(keys[0]));
    SweepStepKeepsGoal(m, keys[0], goal);
    Race.StepKeepsInv(m, Race.LockStep(keys[0]));
    if next.phase.Sweeping? {
      SweepReachesGoal(next, keys[1..], n, goal);
    } else {
      UnlockedIsTheEnd(next, keys[1..], n);
    }
  }

  /** An undisturbed prune leaves what `Retained` says for its rule. */
  lemma UndisturbedPrune(m: Race.Counters, rule: int, keys: seq<Key>, n: Race.Counters)
    requires Race.Inv(m) && Race.Enabled(m, Race.PruneBegin(rule))
    requires Alone(Race.Step(m, Race.PruneBegin(rule)), keys, n) && n.phase.Unlocked?
    ensures ViewOf(n) == Retained(ViewOf(m), Some(rule))
  {
    Race.StepKeepsInv(m, Race.PruneBegin(rule));
    var begun := Race.Step(m, Race.PruneBegin(rule));
    SameTables(m, begun);
    SweptAll(ViewOf(m), Some(rule), begun.phase.todo);
    SweepReachesGoal(begun, keys, n, Retained(ViewOf(m), Some(rule)));
  }

  lemma SweptAll(v: View, rule: Option<int>, todo: set<Key>)
    requires v.Keys <= todo
    ensures Swept(v, rule, todo) == Retained(v, rule)
  {
  }

  /** The oldest revision with bytes among the entries looked at. */
  ghost predicate OldestAmong(v: View, todo: set<Key>, oldest: Option<nat>) {
    && (oldest.Some? ==> exists k :: k in v && k.revision == oldest.value && !v[k].amount.IsZero())
    && (forall k | k in v && k !in todo && !v[k].amount.IsZero() :: oldest.Some? && oldest.value <= k.revision)
  }

  ghost predicate Loaded(v: View, load: Race.Load) {
    load.UploadLoaded? ==> load.key in v && load.up == v[load.key].amount.up
  }

  /** A snapshot on its way: swept, the oldest revision among the entries seen so far, their captured amounts. */
  ghost predicate Snapshotting(m: Race.Counters, v: View) {
    match m.phase
    case Sweeping(rule, _, _) => rule.None? && SweepingTo(m, v)
    case Choosing(todo, load, oldest) => ViewOf(m) == v && OldestAmong(v, todo, oldest) && Loaded(v, load)
    case Capturing(r, todo, load, captured) =>
      && ViewOf(m) == v && IsOldestWithBytes(v, Some(r)) && Loaded(v, load)
      && Amounts(captured) == AmountsOf(v - todo, r)
    case Unlocked => ViewOf(m) == v && m.held.Some? && IsSnapshotOf(v, m.held.value)
    case Settling(_, _) => false
  }

  /** Empty exactly if there are no bytes; otherwise the amounts of the oldest revision that has some. */
  ghost predicate IsSnapshotOf(v: View, h: Race.Held) {
    if h.captured == map[] then IsOldestWithBytes(v, None)
    else IsOldestWithBytes(v, Some(h.revision)) && Amounts(h.captured) == AmountsOf(v, h.revision)
  }

  lemma NothingCaptured(v: View, todo: set<Key>, revision: nat)
    requires forall k | k in v && k.revision == revision :: k in todo
    ensures AmountsOf(v - todo, revision) == map[]
  {
  }

  lemma ChooseStepSnapshots(m: Race.Counters, k: Key, v: View)
    requires Race.TableOk(m) && Race.GensOk(m) && m.phase.Choosing? && Race.LockEnabled(m.phase, k) && Snapshotting(m, v)
    requires m.phase.todo <= m.table.Keys
    ensures Snapshotting(Race.ChooseStep(m, k), v)
  {
    var n := Race.ChooseStep(m, k);
    SameTables(m, n);
    if n.phase.Capturing? {
      NothingCaptured(v, n.phase.todo, n.phase.revision);
    }
  }

  /** The captured amounts after one more entry. */
  lemma CaptureOne(m: Race.Counters, k: Key, v: View)
    requires Race.TableOk(m) && Race.GensOk(m) && m.phase.Capturing? && m.phase.load.UploadLoaded? && Snapshotting(m, v)
    requires m.phase.load.key in m.phase.todo && m.phase.load.key in m.table && m.phase.load.key.revision == m.phase.revision
    requires m.phase.load.up >= 0
    ensures Snapshotting(Race.CaptureStep(m, k), v)
  {
    var n := Race.CaptureStep(m, k);
    SameTables(m, n);
    AmountsStep(v, m.phase.todo, m.phase.load.key, m.phase.revision);
  }

  lemma OldestHasAmounts(v: View, revision: nat)
    requires IsOldestWithBytes(v, Some(revision))
    ensures AmountsOf(v, revision) != map[] && v - {} == v
  {
    var q :| q in v && q.revision == revision && !v[q].amount.IsZero();
    assert q in AmountsOf(v, revision);
  }

  lemma CaptureStepSnapshots(m: Race.Counters, k: Key, v: View)
    requires Race.TableOk(m) && Race.GensOk(m) && m.phase.Capturing? && Race.LockEnabled(m.phase, k) && Snapshotting(m, v)
    requires m.phase.todo <= m.table.Keys && Race.LoadOk(m, m.phase.todo, m.phase.load)
    requires forall q | q in m.phase.todo :: q.revision == m.phase.revision
    ensures Snapshotting(Race.CaptureStep(m, k), v)
  {
    if m.phase.load.UploadLoaded? {
      CaptureOne(m, k, v);
    } else {
      SameTables(m, Race.CaptureStep(m, k));
      OldestHasAmounts(v, m.phase.revision);
    }
  }

  lemma SweepStepSnapshots(m: Race.Counters, k: Key, v: View)
    requires Race.Inv(m) && m.phase.Sweeping? && Race.LockEnabled(m.phase, k) && Snapshotting(m, v)
    ensures Snapshotting(Race.SweepStep(m, k), v)
  {
    SweepStepKeepsGoal(m, k, v);
  }

  lemma {:induction false} SnapshotReachesEnd(m: Race.Counters, keys: seq<Key>, n: Race.Counters, v: View)
    requires Race.Inv(m) && Snapshotting(m, v) && Alone(m, keys, n)
    ensures Snapshotting(n, v)
    decreases |keys|
  {
    if keys != [] {
      match m.phase {
        case Sweeping(_, _, _) => SweepStepSnapshots(m, keys[0], v);
        case Choosing(_, _, _) => ChooseStepSnapshots(m, keys[0], v);
        case Capturing(_, _, _, _) => CaptureStepSnapshots(m, keys[0], v);
        case _ =>
      }
      Race.StepKeepsInv(m, Race.LockStep(keys[0]));
      SnapshotReachesEnd(Race.Step(m, Race.LockStep(keys[0])), keys[1..], n, v);
    }
  }

  /**
   An undisturbed snapshot, in whatever order it takes the entries, sweeps as `Retained` says and then holds the
   amounts of the oldest revision that has bytes.
   */
  lemma UndisturbedSnapshot(m: Race.Counters, keys: seq<Key>, n: Race.Counters)
    requires Race.Inv(m) && Race.Enabled(m, Race.SnapshotBegin)
    requires Alone(Race.Step(m, Race.SnapshotBegin), keys, n) && n.phase.Unlocked?
    ensures ViewOf(n) == Retained(ViewOf(m), None) && n.held.Some? && IsSnapshotOf(ViewOf(n), n.held.value)
  {
    Race.StepKeepsInv(m, Race.SnapshotBegin);
    var begun := Race.Step(m, Race.SnapshotBegin);
    SameTables(m, begun);
    SweptAll(ViewOf(m), None, begun.phase.todo);
    SnapshotReachesEnd(begun, keys, n, Retained(ViewOf(m), None));
  }

  // ---------------------------------------------------------------------------------------------------------
  // The operations that take the lock for one step.

  /** Looking an entry up creates it empty if it is missing. */
  lemma EnsuredView(m: Race.Counters, k: Key)
    requires Race.TableOk(m) && Race.GensOk(m)
    ensures ViewOf(Race.EnsureEntry(m, k)) == ViewOf(m)[k := CountsAt(ViewOf(m), k)]
    ensures CountsOf(Race.Entry(Race.EnsureEntry(m, k), k)) == CountsAt(ViewOf(m), k)
    ensures k in Race.EnsureEntry(m, k).table && Race.TableOk(Race.EnsureEntry(m, k))
    ensures var g := Race.Entry(Race.EnsureEntry(m, k), k); g.up >= 0 && g.down >= 0 && g.live >= 0
  {
    var n := Race.EnsureEntry(m, k);
    forall q | q in m.table && q != k ensures Race.Entry(n, q) == Race.Entry(m, q) {
    }
  }

  lemma AcquiredView(m: Race.Counters, k: Key)
    requires Race.TableOk(m) && k in m.table && Race.Entry(m, k).live >= 0
    ensures var c := CountsOf(Race.Entry(m, k)); ViewOf(Race.Acquire(m, k)) == ViewOf(m)[k := c.(live := c.live + 1)]
  {
    PutView(m, k, Race.Entry(m, k).(live := Race.Entry(m, k).live + 1));
  }

  function Plus(c: Counts, a: Amount): Counts {
    c.(amount := Amount(c.amount.up + a.up, c.amount.down + a.down))
  }

  lemma AddedView(m: Race.Counters, k: Key, a: Amount)
    requires Race.TableOk(m) && k in m.table && Race.Entry(m, k).up >= 0 && Race.Entry(m, k).down >= 0
    ensures ViewOf(Race.Add(m, k, a)) == ViewOf(m)[k := Plus(CountsOf(Race.Entry(m, k)), a)]
  {
    var g := Race.Entry(m, k);
    PutView(m, k, g.(up := g.up + a.up, down := g.down + a.down));
  }

  /** A view into which one entry has been written. */
  lemma WrittenAfterEnsure(v: View, w: View, x: View, k: Key, a: Counts, b: Counts)
    requires w == v[k := a] && x == w[k := b]
    ensures x == v[k := b]
  {
  }

  /** Acquiring a handle is one more live handle of that entry, created if it is missing. */
  lemma UndisturbedHandleAt(m: Race.Counters, k: Key)
    requires Race.TableOk(m) && Race.GensOk(m)
    ensures var c := CountsAt(ViewOf(m), k); ViewOf(Race.Step(m, Race.HandleAt(k))) == ViewOf(m)[k := c.(live := c.live + 1)]
  {
    var n, c := Race.EnsureEntry(m, k), CountsAt(ViewOf(m), k);
    EnsuredView(m, k);
    AcquiredView(n, k);
    WrittenAfterEnsure(ViewOf(m), ViewOf(n), ViewOf(Race.Acquire(n, k)), k, c, c.(live := c.live + 1));
  }

  lemma UndisturbedAddAt(m: Race.Counters, k: Key, a: Amount)
    requires Race.TableOk(m) && Race.GensOk(m)
    ensures ViewOf(Race.Step(m, Race.AddAt(k, a))) == ViewOf(m)[k := Plus(CountsAt(ViewOf(m), k), a)]
  {
    var n, c := Race.EnsureEntry(m, k), CountsAt(ViewOf(m), k);
    EnsuredView(m, k);
    AddedView(n, k, a);
    WrittenAfterEnsure(ViewOf(m), ViewOf(n), ViewOf(Race.Add(n, k, a)), k, c, Plus(c, a));
  }

  // ---------------------------------------------------------------------------------------------------------
  // Whoever holds the lock gives it back.

  function LoopsLeft(p: Race.Phase): nat {
    match p
    case Unlocked => 0
    case Sweeping(_, _, _) => 3
    case Choosing(_, _, _) => 2
    case Capturing(_, _, _, _) => 1
    case Settling(_, _) => 1
  }

  function EntriesLeft(p: Race.Phase): nat {
    match p
    case Unlocked => 0
    case Sweeping(_, todo, _) => |todo|
    case Choosing(todo, _, _) => |todo|
    case Capturing(_, todo, _, _) => |todo|
    case Settling(pending, _) => |pending.Keys|
  }

  function StagesLeft(p: Race.Phase): nat {
    match p
    case Unlocked => 0
    case Sweeping(_, _, probe) => (match probe case Between => 2 case NoHandles(_) => 1 case NoUpload(_) => 0)
    case Choosing(_, load, _) => if load.NotLoaded? then 1 else 0
    case Capturing(_, _, load, _) => if load.NotLoaded? then 1 else 0
    case Settling(_, s) =>
      match s
      case Taken(_) => 4
      case Unreferenced(_) => 3
      case NoUploadLeft(_) => 2
      case Next => 1
      case UploadTaken(_) => 0
  }

  predicate NearerToTheEnd(p: Race.Phase, q: Race.Phase) {
    || LoopsLeft(q) < LoopsLeft(p)
    || (LoopsLeft(q) == LoopsLeft(p) && EntriesLeft(q) < EntriesLeft(p))
    || (LoopsLeft(q) == LoopsLeft(p) && EntriesLeft(q) == EntriesLeft(p) && StagesLeft(q) < StagesLeft(p))
  }

  lemma OneLess<T>(s: set<T>, x: T)
    requires x in s
    ensures |s - {x}| < |s|
  {
  }

  lemma OneKeyLess<K, V>(m: map<K, V>, x: K)
    requires x in m
    ensures |(m - {x}).Keys| < |m.Keys|
  {
    assert (m - {x}).Keys == m.Keys - {x};
  }

  lemma SettleStepIsNearer(m: Race.Counters, k: Key)
    requires m.phase.Settling? && Race.SettlementOk(m, m.phase.pending, m.phase.settlement) && Race.LockEnabled(m.phase, k)
    ensures NearerToTheEnd(m.phase, Race.SettleStep(m, k).phase)
  {
    var pending := m.phase.pending;
    if m.phase.settlement.Next? && k in pending {
      OneKeyLess(pending, k);
    } else if m.phase.settlement.UploadTaken? {
      OneKeyLess(pending, m.phase.settlement.key);
    }
  }

  lemma SweepStepIsNearer(m: Race.Counters, k: Key)
    requires m.phase.Sweeping? && Race.ProbeOk(m, m.phase.todo, m.phase.probe) && Race.LockEnabled(m.phase, k)
    ensures NearerToTheEnd(m.phase, Race.SweepStep(m, k).phase)
  {
    var q := if m.phase.probe.Between? then k else m.phase.probe.key;
    if q in m.phase.todo {
      OneLess(m.phase.todo, q);
    }
  }

  lemma LoadStepIsNearer(m: Race.Counters, k: Key)
    requires m.phase.Choosing? || m.phase.Capturing?
    requires Race.LoadOk(m, m.phase.todo, m.phase.load) && Race.LockEnabled(m.phase, k)
    ensures NearerToTheEnd(m.phase, if m.phase.Choosing? then Race.ChooseStep(m, k).phase else Race.CaptureStep(m, k).phase)
  {
    if m.phase.load.UploadLoaded? {
      OneLess(m.phase.todo, m.phase.load.key);
    }
  }

  /**
   Each step of the lock holder brings the end of its loops nearer, whatever the other threads do in between: they never
   change where it is.
   */
  lemma LockStepIsNearer(m: Race.Counters, e: Race.Event)
    requires Race.PhaseOk(m) && Race.Enabled(m, e) && !m.phase.Unlocked?
    ensures if e.LockStep? then NearerToTheEnd(m.phase, Race.Step(m, e).phase) else Race.Step(m, e).phase == m.phase
  {
    if e.LockStep? {
      match m.phase
      case Sweeping(_, _, _) => SweepStepIsNearer(m, e.key);
      case Choosing(_, _, _) => LoadStepIsNearer(m, e.key);
      case Capturing(_, _, _, _) => LoadStepIsNearer(m, e.key);
      case Settling(_, _) => SettleStepIsNearer(m, e.key);
      case Unlocked => assert false;
    }
  }

  /** The lock holder always has a next step. */
  lemma LockHolderGoesOn(m: Race.Counters) returns (k: Key)
    requires !m.phase.Unlocked?
    ensures Race.Enabled(m, Race.LockStep(k))
  {
    k := Key(0, 0);
    match m.phase
    case Sweeping(_, todo, _) => if todo != {} { k :| k in todo; }
    case Choosing(todo, _, _) => if todo != {} { k :| k in todo; }
    case Capturing(_, todo, _, _) => if todo != {} { k :| k in todo; }
    case Settling(pending, _) => if pending != map[] { k :| k in pending; }
  }

  /** Left alone, a prune, snapshot or commit ends; so there are the runs that the undisturbed results speak of. */
  lemma {:induction false} LockHolderFinishes(m: Race.Counters) returns (keys: seq<Key>, n: Race.Counters)
    requires Race.Inv(m)
    ensures Alone(m, keys, n) && n.phase.Unlocked? && Race.Inv(n)
    decreases LoopsLeft(m.phase), EntriesLeft(m.phase), StagesLeft(m.phase)
  {
    if m.phase.Unlocked? {
      keys, n := [], m;
    } else {
      var k := LockHolderGoesOn(m);
      LockStepIsNearer(m, Race.LockStep(k));
      Race.StepKeepsInv(m, Race.LockStep(k));
      var next := Race.Step(m, Race.LockStep(k));
      var rest, end := LockHolderFinishes(next);
      keys, n := [k] + rest, end;
      assert keys[0] == k && keys[1..] == rest;
    }
  }
}
