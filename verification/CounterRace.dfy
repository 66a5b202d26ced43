/**
 The live traffic counters under every interleaving of their atomic operations.

 Connection handles write and drop without a lock. `snapshot`, `commit` and `prune_rule` hold the map's write
 lock, yet each of their loads and subtractions is a separate step that handle operations can slip between.
 `add_at` and `handle_at` need the lock themselves, so they are single steps that run while it is free.
 A counter's `live` field is the number of outstanding handles: a handle exists exactly while it is counted.
 */
module CounterRace {
  import opened Wrappers
  import opened TrafficModel

  /** One reference-counted counter pair. Counters are `int` so that an underflow would be visible. */
  datatype Generation = Generation(key: Key, up: int, down: int, live: int) {
    function At(channel: Channel): int {
      if channel.Upload? then up else down
    }

    predicate Idle() {
      up == 0 && down == 0 && live == 0
    }
  }

  datatype Captured = Captured(gen: nat, amount: Amount)

  /** How far the three loads of the emptiness test have got: live handles, then upload, then download. */
  datatype Probe = Between | NoHandles(key: Key) | NoUpload(key: Key)

  /** One captured entry on its way through `commit`. */
  datatype Settlement = Next | UploadTaken(key: Key) | Taken(key: Key) | Unreferenced(key: Key) | NoUploadLeft(key: Key)

  datatype Load = NotLoaded | UploadLoaded(key: Key, up: int)

  datatype Phase =
    | Unlocked
    | Sweeping(rule: Option<int>, todo: set<Key>, probe: Probe)
    | Choosing(todo: set<Key>, load: Load, oldest: Option<nat>)
    | Capturing(revision: nat, todo: set<Key>, load: Load, captured: map<Key, Captured>)
    | Settling(pending: map<Key, Captured>, settlement: Settlement)

  /** The snapshot guard while no lock is held; `sealed` once the same bytes are durable in the spool. */
  datatype Held = Held(revision: nat, captured: map<Key, Captured>, sealed: bool)

  datatype Counters = Counters(
    gens: map<nat, Generation>,
    table: map<Key, nat>,
    next: nat,
    phase: Phase,
    held: Option<Held>)

  datatype Event =
    | HandleAt(key: Key)
    | AddAt(key: Key, amount: Amount)
    | HandleAdd(gen: nat, channel: Channel, bytes: nat)
    | HandleDrop(gen: nat)
    | SnapshotBegin
    | PruneBegin(rule: int)
    | LockStep(key: Key)
    | DropSnapshot
    | Seal
    | CommitBegin

  function Fresh(): Counters {
    Counters(map[], map[], 0, Unlocked, None)
  }

  /** The entry a key is mapped to, or an empty one. */
  function Entry(m: Counters, k: Key): Generation {
    if k in m.table && m.table[k] in m.gens then m.gens[m.table[k]] else Generation(k, 0, 0, 0)
  }

  function Put(m: Counters, k: Key, g: Generation): Counters {
    if k in m.table then m.(gens := m.gens[m.table[k] := g]) else m
  }

  function EnsureEntry(m: Counters, k: Key): Counters {
    if k in m.table then m
    else m.(gens := m.gens[m.next := Generation(k, 0, 0, 0)], table := m.table[k := m.next], next := m.next + 1)
  }

  function Acquire(m: Counters, k: Key): Counters {
    Put(m, k, Entry(m, k).(live := Entry(m, k).live + 1))
  }

  function Add(m: Counters, k: Key, a: Amount): Counters {
    Put(m, k, Entry(m, k).(up := Entry(m, k).up + a.up, down := Entry(m, k).down + a.down))
  }

  predicate Enabled(m: Counters, e: Event) {
    match e
    case HandleAt(_) => m.phase.Unlocked?
    case AddAt(_, _) => m.phase.Unlocked?
    case HandleAdd(g, _, _) => g in m.gens && m.gens[g].live > 0
    case HandleDrop(g) => g in m.gens && m.gens[g].live > 0
    case SnapshotBegin => m.phase.Unlocked? && m.held.None?
    case PruneBegin(_) => m.phase.Unlocked?
    case LockStep(k) => LockEnabled(m.phase, k)
    case DropSnapshot => m.held.Some? && !m.held.value.sealed
    case Seal => m.held.Some? && !m.held.value.sealed
    case CommitBegin => m.phase.Unlocked? && m.held.Some? && m.held.value.sealed
  }

  /** Between two entries the lock holder picks any entry left; with none left the step ends the loop. */
  predicate LockEnabled(p: Phase, k: Key) {
    match p
    case Unlocked => false
    case Sweeping(_, todo, probe) => probe.Between? && todo != {} ==> k in todo
    case Choosing(todo, load, _) => load.NotLoaded? && todo != {} ==> k in todo
    case Capturing(_, todo, load, _) => load.NotLoaded? && todo != {} ==> k in todo
    case Settling(pending, s) => s.Next? && pending != map[] ==> k in pending
  }

  function Step(m: Counters, e: Event): Counters {
    match e
    case HandleAt(k) => Acquire(EnsureEntry(m, k), k)
    case AddAt(k, a) => Add(EnsureEntry(m, k), k, a)
    case HandleAdd(g, c, n) =>
      if g !in m.gens then m
      else m.(gens := m.gens[g := if c.Upload? then m.gens[g].(up := m.gens[g].up + n)
                                  else m.gens[g].(down := m.gens[g].down + n)])
    case HandleDrop(g) => if g !in m.gens then m else m.(gens := m.gens[g := m.gens[g].(live := m.gens[g].live - 1)])
    case SnapshotBegin => m.(phase := Sweeping(None, m.table.Keys, Between))
    case PruneBegin(rule) => m.(phase := Sweeping(Some(rule), m.table.Keys, Between))
    case LockStep(k) =>
      (match m.phase
       case Unlocked => m
       case Sweeping(_, _, _) => SweepStep(m, k)
       case Choosing(_, _, _) => ChooseStep(m, k)
       case Capturing(_, _, _, _) => CaptureStep(m, k)
       case Settling(_, _) => SettleStep(m, k))
    case DropSnapshot => m.(held := None)
    case Seal => if m.held.None? then m else m.(held := Some(m.held.value.(sealed := true)))
    case CommitBegin => if m.held.None? then m else m.(phase := Settling(m.held.value.captured, Next), held := None)
  }

  /** One step of `retain`: an entry goes only if its handles, uploads and downloads are loaded as zero, in that order. */
  function SweepStep(m: Counters, k: Key): Counters
    requires m.phase.Sweeping?
  {
    var p := m.phase;
    match p.probe
    case Between =>
      if p.todo == {} then
        if p.rule.None? then m.(phase := Choosing(m.table.Keys, NotLoaded, None)) else m.(phase := Unlocked)
      else if (p.rule.Some? && p.rule.value != k.rule) || Entry(m, k).live != 0 then
        m.(phase := Sweeping(p.rule, p.todo - {k}, Between))
      else
        m.(phase := Sweeping(p.rule, p.todo, NoHandles(k)))
    case NoHandles(q) =>
      if Entry(m, q).up != 0 then m.(phase := Sweeping(p.rule, p.todo - {q}, Between))
      else m.(phase := Sweeping(p.rule, p.todo, NoUpload(q)))
    case NoUpload(q) =>
      var rest := Sweeping(p.rule, p.todo - {q}, Between);
      if Entry(m, q).down != 0 then m.(phase := rest)
      else m.(table := m.table - {q}, phase := rest)
  }

  /** Selecting the oldest revision that has any bytes. */
  function ChooseStep(m: Counters, k: Key): Counters
    requires m.phase.Choosing?
  {
    var p := m.phase;
    match p.load
    case NotLoaded =>
      if p.todo != {} then m.(phase := Choosing(p.todo, UploadLoaded(k, Entry(m, k).up), p.oldest))
      else if p.oldest.None? then m.(phase := Unlocked, held := Some(Held(0, map[], false)))
      else
        var r := p.oldest.value;
        m.(phase := Capturing(r, (set q | q in m.table.Keys && q.revision == r), NotLoaded, map[]))
    case UploadLoaded(q, up) =>
      var found := up != 0 || Entry(m, q).down != 0;
      var best := if found && (p.oldest.None? || q.revision < p.oldest.value) then Some(q.revision) else p.oldest;
      m.(phase := Choosing(p.todo - {q}, NotLoaded, best))
  }

  /** Capturing the amounts of the selected revision. */
  function CaptureStep(m: Counters, k: Key): Counters
    requires m.phase.Capturing?
  {
    var p := m.phase;
    match p.load
    case NotLoaded =>
      if p.todo != {} then m.(phase := Capturing(p.revision, p.todo, UploadLoaded(k, Entry(m, k).up), p.captured))
      else m.(phase := Unlocked, held := Some(Held(p.revision, p.captured, false)))
    case UploadLoaded(q, up) =>
      var down := Entry(m, q).down;
      var captured :=
        if (up == 0 && down == 0) || up < 0 || down < 0 || q !in m.table then p.captured
        else p.captured[q := Captured(m.table[q], Amount(up, down))];
      m.(phase := Capturing(p.revision, p.todo - {q}, NotLoaded, captured))
  }

  /** `commit`: subtract exactly what was captured, then drop the entry if it is provably finished. */
  function SettleStep(m: Counters, k: Key): Counters
    requires m.phase.Settling?
  {
    var p := m.phase;
    match p.settlement
    case Next =>
      if p.pending == map[] then m.(phase := Unlocked)
      else if k !in p.pending || k !in m.table || m.table[k] != p.pending[k].gen then
        m.(phase := Settling(p.pending - {k}, Next))
      else
        Put(m, k, Entry(m, k).(up := Entry(m, k).up - p.pending[k].amount.up)).(phase := Settling(p.pending, UploadTaken(k)))
    case UploadTaken(q) =>
      var down := if q in p.pending then p.pending[q].amount.down else 0;
      Put(m, q, Entry(m, q).(down := Entry(m, q).down - down)).(phase := Settling(p.pending - {q}, Taken(q)))
    case Taken(q) => m.(phase := Settling(p.pending, if Entry(m, q).live != 0 then Next else Unreferenced(q)))
    case Unreferenced(q) => m.(phase := Settling(p.pending, if Entry(m, q).up != 0 then Next else NoUploadLeft(q)))
    case NoUploadLeft(q) =>
      if Entry(m, q).down != 0 then m.(phase := Settling(p.pending, Next))
      else m.(table := m.table - {q}, phase := Settling(p.pending, Next))
  }

  // ---------------------------------------------------------------------------------------------------------
  // The invariant of every reachable state.

  ghost predicate TableOk(m: Counters) {
    forall k | k in m.table :: m.table[k] in m.gens && m.gens[m.table[k]].key == k
  }

  /** No counter is ever negative, and generation numbers are fresh. */
  ghost predicate GensOk(m: Counters) {
    forall g | g in m.gens :: g < m.next && m.gens[g].up >= 0 && m.gens[g].down >= 0 && m.gens[g].live >= 0
  }

  predicate Mapped(m: Counters, g: nat) {
    g in m.gens && m.gens[g].key in m.table && m.table[m.gens[g].key] == g
  }

  /** An entry that left the map holds no bytes and has no handle, so nothing can ever be written to it again. */
  ghost predicate DetachedIdle(m: Counters) {
    forall g | g in m.gens && !Mapped(m, g) :: m.gens[g].Idle()
  }

  /** A captured amount is still covered by the very generation it was read from. */
  ghost predicate Covered(m: Counters, captured: map<Key, Captured>) {
    forall k | k in captured ::
      && k in m.table && m.table[k] == captured[k].gen
      && Entry(m, k).up >= captured[k].amount.up && Entry(m, k).down >= captured[k].amount.down
      && !captured[k].amount.IsZero()
  }

  ghost predicate ProbeOk(m: Counters, todo: set<Key>, probe: Probe) {
    match probe
    case Between => true
    case NoHandles(k) => k in todo && Entry(m, k).live == 0
    case NoUpload(k) => k in todo && Entry(m, k).live == 0 && Entry(m, k).up == 0
  }

  ghost predicate LoadOk(m: Counters, todo: set<Key>, load: Load) {
    load.UploadLoaded? ==> load.key in todo && 0 <= load.up <= Entry(m, load.key).up
  }

  ghost predicate SettlementOk(m: Counters, pending: map<Key, Captured>, s: Settlement) {
    match s
    case Next => true
    case UploadTaken(k) =>
      k in pending && k in m.table && m.table[k] == pending[k].gen && Entry(m, k).down >= pending[k].amount.down
    case Taken(k) => k in m.table && k !in pending
    case Unreferenced(k) => k in m.table && k !in pending && Entry(m, k).live == 0
    case NoUploadLeft(k) => k in m.table && k !in pending && Entry(m, k).live == 0 && Entry(m, k).up == 0
  }

  /** Entries of a running commit that have not been touched yet. */
  function Untouched(pending: map<Key, Captured>, s: Settlement): map<Key, Captured> {
    if s.UploadTaken? then pending - {s.key} else pending
  }

  ghost predicate OfRevision(captured: map<Key, Captured>, revision: nat) {
    forall k | k in captured :: k.revision == revision
  }

  ghost predicate PhaseOk(m: Counters) {
    match m.phase
    case Unlocked => true
    case Sweeping(rule, todo, probe) => todo <= m.table.Keys && ProbeOk(m, todo, probe) && (rule.None? ==> m.held.None?)
    case Choosing(todo, load, _) => todo <= m.table.Keys && LoadOk(m, todo, load) && m.held.None?
    case Capturing(r, todo, load, captured) =>
      && todo <= m.table.Keys && LoadOk(m, todo, load) && m.held.None?
      && Covered(m, captured) && OfRevision(captured, r) && (forall q | q in todo :: q.revision == r)
    case Settling(pending, s) => m.held.None? && SettlementOk(m, pending, s) && Covered(m, Untouched(pending, s))
  }

  ghost predicate Inv(m: Counters) {
    && TableOk(m) && GensOk(m) && DetachedIdle(m) && PhaseOk(m)
    && (m.held.Some? ==> Covered(m, m.held.value.captured) && OfRevision(m.held.value.captured, m.held.value.revision))
  }

  // ---------------------------------------------------------------------------------------------------------
  // Bytes in memory.

  /** Bytes of a key that sit in the live map. */
  function Live(m: Counters, k: Key, c: Channel): int {
    Entry(m, k).At(c)
  }

  function CapturedAt(captured: map<Key, Captured>, k: Key, c: Channel): nat {
    if k in captured then captured[k].amount.At(c) else 0
  }

  /** Bytes already sealed into the spool that commit has not subtracted from the live map yet. */
  function Unsettled(m: Counters, k: Key, c: Channel): nat {
    match m.phase
    case Settling(pending, s) =>
      if s.UploadTaken? && s.key == k && c.Upload? then 0 else CapturedAt(pending, k, c)
    case _ =>
      if m.held.Some? && m.held.value.sealed then CapturedAt(m.held.value.captured, k, c) else 0
  }

  /** Bytes of a key that exist only in memory. */
  function Unsealed(m: Counters, k: Key, c: Channel): int {
    Live(m, k, c) - Unsettled(m, k, c)
  }

  /** Bytes an event adds to a key. */
  function Produced(m: Counters, e: Event, k: Key, c: Channel): nat {
    match e
    case AddAt(q, a) => if q == k then a.At(c) else 0
    case HandleAdd(g, ch, n) => if g in m.gens && m.gens[g].key == k && ch == c then n else 0
    case _ => 0
  }

  /** Bytes an event moves from memory into the spool. */
  function Moved(m: Counters, e: Event, k: Key, c: Channel): nat {
    if e.Seal? && m.held.Some? then CapturedAt(m.held.value.captured, k, c) else 0
  }

  // ---------------------------------------------------------------------------------------------------------
  // Every step keeps the invariant and accounts for every byte.

  lemma EnsureEntryKeeps(m: Counters, k: Key)
    requires Inv(m) && m.phase.Unlocked?
    ensures var n := EnsureEntry(m, k);
            Inv(n) && k in n.table && n.phase == m.phase && n.held == m.held
            && forall q :: Entry(n, q) == Entry(m, q)
  {
  }

  /** Replacing a mapped entry by one of the same key that is nowhere below what is promised keeps the map in order. */
  lemma PutKeeps(m: Counters, k: Key, g: Generation)
    requires TableOk(m) && GensOk(m) && DetachedIdle(m)
    requires k in m.table && g.key == k && g.up >= 0 && g.down >= 0 && g.live >= 0
    ensures var n := Put(m, k, g);
            && TableOk(n) && GensOk(n) && DetachedIdle(n) && n.table == m.table && Entry(n, k) == g
            && forall q | q != k :: Entry(n, q) == Entry(m, q)
  {
    var n := Put(m, k, g);
    forall i | i in n.gens && !Mapped(n, i) ensures n.gens[i].Idle() {
      assert !Mapped(m, i);
    }
  }

  /** Unmapping an idle entry keeps the map in order and changes no byte count. */
  lemma UnmapKeeps(m: Counters, k: Key)
    requires TableOk(m) && GensOk(m) && DetachedIdle(m)
    requires k in m.table && Entry(m, k).Idle()
    ensures var n := m.(table := m.table - {k});
            && TableOk(n) && GensOk(n) && DetachedIdle(n)
            && (forall q, c :: Live(n, q, c) == Live(m, q, c))
            && (forall q | q != k :: Entry(n, q) == Entry(m, q))
  {
    var n := m.(table := m.table - {k});
    forall i | i in n.gens && !Mapped(n, i) ensures n.gens[i].Idle() {
      if Mapped(m, i) {
        assert m.gens[i].key == k;
      }
    }
  }

  lemma CoverGrows(m: Counters, n: Counters, captured: map<Key, Captured>)
    requires Covered(m, captured)
    requires forall k | k in captured ::
               k in n.table && n.table[k] == m.table[k] && Entry(n, k).up >= Entry(m, k).up && Entry(n, k).down >= Entry(m, k).down
    ensures Covered(n, captured)
  {
  }

  /** Adding to an entry, by the lock's holder or through a live handle, disturbs no phase of the lock holder. */
  lemma GrowKeeps(m: Counters, k: Key, g: Generation)
    requires Inv(m) && k in m.table && g.key == k
    requires g.up >= Entry(m, k).up && g.down >= Entry(m, k).down && g.live >= 0
    requires m.phase.Unlocked? || Entry(m, k).live > 0
    ensures Inv(Put(m, k, g))
    ensures forall q | q != k :: Entry(Put(m, k, g), q) == Entry(m, q)
    ensures Entry(Put(m, k, g), k) == g
  {
    PutKeeps(m, k, g);
    var n := Put(m, k, g);
    if m.held.Some? {
      CoverGrows(m, n, m.held.value.captured);
    }
    match m.phase
    case Capturing(_, _, _, captured) => CoverGrows(m, n, captured);
    case Settling(pending, s) => CoverGrows(m, n, Untouched(pending, s));
    case _ =>
  }

  lemma AcquireKeepsInv(m: Counters, k: Key)
    requires Inv(m) && m.phase.Unlocked? && k in m.table
    ensures Inv(Acquire(m, k))
    ensures forall q, c :: Live(Acquire(m, k), q, c) == Live(m, q, c)
  {
    GrowKeeps(m, k, Entry(m, k).(live := Entry(m, k).live + 1));
  }

  lemma AddKeepsInv(m: Counters, k: Key, a: Amount)
    requires Inv(m) && m.phase.Unlocked? && k in m.table
    ensures Inv(Add(m, k, a))
    ensures forall q, c :: Live(Add(m, k, a), q, c) == Live(m, q, c) + if q == k then a.At(c) else 0
  {
    GrowKeeps(m, k, Entry(m, k).(up := Entry(m, k).up + a.up, down := Entry(m, k).down + a.down));
  }

  lemma HandleAtKeepsInv(m: Counters, k: Key)
    requires Inv(m) && m.phase.Unlocked?
    ensures Inv(Step(m, HandleAt(k)))
    ensures forall q, c :: Live(Step(m, HandleAt(k)), q, c) == Live(m, q, c)
  {
    EnsureEntryKeeps(m, k);
    AcquireKeepsInv(EnsureEntry(m, k), k);
  }

  lemma AddAtKeepsInv(m: Counters, k: Key, a: Amount)
    requires Inv(m) && m.phase.Unlocked?
    ensures Inv(Step(m, AddAt(k, a)))
    ensures forall q, c :: Live(Step(m, AddAt(k, a)), q, c) == Live(m, q, c) + if q == k then a.At(c) else 0
  {
    EnsureEntryKeeps(m, k);
    AddKeepsInv(EnsureEntry(m, k), k, a);
  }

  /** A lock-free write goes through a live handle, so its generation is still the mapped one. */
  lemma HandleAddKeepsInv(m: Counters, g: nat, c: Channel, n: nat)
    requires Inv(m) && g in m.gens && m.gens[g].live > 0
    ensures Mapped(m, g) && Inv(Step(m, HandleAdd(g, c, n)))
    ensures forall q, ch ::
              Live(Step(m, HandleAdd(g, c, n)), q, ch) == Live(m, q, ch) + if q == m.gens[g].key && ch == c then n else 0
  {
    assert Mapped(m, g);
    GrowKeeps(m, m.gens[g].key, Step(m, HandleAdd(g, c, n)).gens[g]);
  }

  lemma HandleDropKeepsInv(m: Counters, g: nat)
    requires Inv(m) && g in m.gens && m.gens[g].live > 0
    ensures Inv(Step(m, HandleDrop(g)))
    ensures forall q, c :: Live(Step(m, HandleDrop(g)), q, c) == Live(m, q, c)
  {
    assert Mapped(m, g);
    GrowKeeps(m, m.gens[g].key, m.gens[g].(live := m.gens[g].live - 1));
  }

  lemma SweepKeepsInv(m: Counters, k: Key)
    requires Inv(m) && m.phase.Sweeping? && LockEnabled(m.phase, k)
    ensures Inv(SweepStep(m, k))
    ensures forall q, c :: Live(SweepStep(m, k), q, c) == Live(m, q, c)
  {
    var p := m.phase;
    if p.probe.NoUpload? && Entry(m, p.probe.key).down == 0 {
      UnmapKeeps(m, p.probe.key);
      if m.held.Some? {
        // A captured entry still has bytes, so it is never the one being removed.
        assert p.probe.key !in m.held.value.captured;
        CoverGrows(m, SweepStep(m, k), m.held.value.captured);
      }
    }
  }

  lemma ChooseKeepsInv(m: Counters, k: Key)
    requires Inv(m) && m.phase.Choosing? && LockEnabled(m.phase, k)
    ensures Inv(ChooseStep(m, k))
  {
  }

  lemma CaptureKeepsInv(m: Counters, k: Key)
    requires Inv(m) && m.phase.Capturing? && LockEnabled(m.phase, k)
    ensures Inv(CaptureStep(m, k))
  {
  }

  /** A subtraction takes no more than the entry still holds. */
  lemma TakeUploadKeepsInv(m: Counters, k: Key)
    requires Inv(m) && m.phase.Settling? && m.phase.settlement.Next? && k in m.phase.pending
    ensures Inv(SettleStep(m, k))
    ensures k in m.table && Entry(SettleStep(m, k), k) == Entry(m, k).(up := Entry(m, k).up - m.phase.pending[k].amount.up)
    ensures forall q | q != k :: Entry(SettleStep(m, k), q) == Entry(m, q)
  {
    var pending := m.phase.pending;
    PutKeeps(m, k, Entry(m, k).(up := Entry(m, k).up - pending[k].amount.up));
    CoverGrows(m, SettleStep(m, k), pending - {k});
  }

  lemma TakeDownloadKeepsInv(m: Counters, k: Key)
    requires Inv(m) && m.phase.Settling? && m.phase.settlement.UploadTaken?
    ensures Inv(SettleStep(m, k))
    ensures var q := m.phase.settlement.key;
            && q in m.table && q in m.phase.pending
            && Entry(SettleStep(m, k), q) == Entry(m, q).(down := Entry(m, q).down - m.phase.pending[q].amount.down)
            && forall r | r != q :: Entry(SettleStep(m, k), r) == Entry(m, r)
  {
    var q := m.phase.settlement.key;
    var pending := m.phase.pending;
    PutKeeps(m, q, Entry(m, q).(down := Entry(m, q).down - pending[q].amount.down));
    CoverGrows(m, SettleStep(m, k), pending - {q});
  }

  lemma ReleaseKeepsInv(m: Counters, k: Key)
    requires Inv(m) && m.phase.Settling? && LockEnabled(m.phase, k)
    requires !m.phase.settlement.UploadTaken? && (m.phase.settlement.Next? ==> m.phase.pending == map[])
    ensures Inv(SettleStep(m, k))
    ensures forall q, c :: Live(SettleStep(m, k), q, c) == Live(m, q, c)
  {
    if m.phase.settlement.NoUploadLeft? && Entry(m, m.phase.settlement.key).down == 0 {
      UnmapKeeps(m, m.phase.settlement.key);
      CoverGrows(m, SettleStep(m, k), m.phase.pending);
    }
  }

  // ---------------------------------------------------------------------------------------------------------

  lemma StepKeepsInv(m: Counters, e: Event)
    requires Inv(m) && Enabled(m, e)
    ensures Inv(Step(m, e))
  {
    match e
    case HandleAt(k) => HandleAtKeepsInv(m, k);
    case AddAt(k, a) => AddAtKeepsInv(m, k, a);
    case HandleAdd(g, c, n) => HandleAddKeepsInv(m, g, c, n);
    case HandleDrop(g) => HandleDropKeepsInv(m, g);
    case LockStep(k) =>
      if m.phase.Sweeping? {
        SweepKeepsInv(m, k);
      } else if m.phase.Choosing? {
        ChooseKeepsInv(m, k);
      } else if m.phase.Capturing? {
        CaptureKeepsInv(m, k);
      } else if m.phase.settlement.Next? && m.phase.pending != map[] {
        TakeUploadKeepsInv(m, k);
      } else if m.phase.settlement.UploadTaken? {
        TakeDownloadKeepsInv(m, k);
      } else {
        ReleaseKeepsInv(m, k);
      }
    case _ =>
  }

  lemma SettleConserves(m: Counters, q: Key, k: Key, c: Channel)
    requires Inv(m) && m.phase.Settling? && LockEnabled(m.phase, q)
    ensures Unsealed(SettleStep(m, q), k, c) == Unsealed(m, k, c)
  {
    if m.phase.settlement.Next? && m.phase.pending != map[] {
      TakeUploadKeepsInv(m, q);
    } else if m.phase.settlement.UploadTaken? {
      TakeDownloadKeepsInv(m, q);
    } else {
      ReleaseKeepsInv(m, q);
    }
  }

  lemma LockStepConserves(m: Counters, q: Key, k: Key, c: Channel)
    requires Inv(m) && Enabled(m, LockStep(q))
    ensures Unsealed(Step(m, LockStep(q)), k, c) == Unsealed(m, k, c)
  {
    if m.phase.Sweeping? {
      SweepKeepsInv(m, q);
    } else if m.phase.Settling? {
      SettleConserves(m, q, k, c);
    }
  }

  /** No event of any thread loses or invents a byte: traffic adds to what is unsealed, sealing takes the captured bytes out. */
  lemma StepConserves(m: Counters, e: Event, k: Key, c: Channel)
    requires Inv(m) && Enabled(m, e)
    ensures Unsealed(Step(m, e), k, c) == Unsealed(m, k, c) + Produced(m, e, k, c) - Moved(m, e, k, c)
  {
    match e
    case HandleAt(q) => HandleAtKeepsInv(m, q);
    case AddAt(q, a) => AddAtKeepsInv(m, q, a);
    case HandleAdd(g, ch, n) => HandleAddKeepsInv(m, g, ch, n);
    case HandleDrop(g) => HandleDropKeepsInv(m, g);
    case LockStep(q) => LockStepConserves(m, q, k, c);
    case _ => GuardConserves(m, e, k, c);
  }

  /** Opening, dropping, sealing and committing a snapshot; sealing is what moves bytes. */
  lemma GuardConserves(m: Counters, e: Event, k: Key, c: Channel)
    requires Inv(m) && Enabled(m, e)
    requires e.SnapshotBegin? || e.PruneBegin? || e.DropSnapshot? || e.Seal? || e.CommitBegin?
    ensures Unsealed(Step(m, e), k, c) == Unsealed(m, k, c) + Produced(m, e, k, c) - Moved(m, e, k, c)
  {
  }

  /** Sealing the held snapshot takes exactly the captured bytes out of what is unsealed. */
  lemma SealingBalance(m: Counters, k: Key, c: Channel)
    requires Inv(m) && Enabled(m, Seal)
    ensures Unsealed(Step(m, Seal), k, c) == Unsealed(m, k, c) - CapturedAt(m.held.value.captured, k, c)
  {
  }

  /** What commit still has to subtract never exceeds what the live map holds. */
  lemma UnsealedIsNonNegative(m: Counters, k: Key, c: Channel)
    requires Inv(m)
    ensures Unsealed(m, k, c) >= 0
  {
    if m.phase.Settling? && m.phase.settlement.UploadTaken? && m.phase.settlement.key == k {
      assert Entry(m, k).up >= 0;
    }
  }

  /** The generation a handle event is about: the one mapped afterwards for an acquisition, the named one for a drop. */
  predicate Acquires(m: Counters, e: Event, g: nat) {
    e.HandleAt? && e.key in Step(m, e).table && Step(m, e).table[e.key] == g
  }

  /** A generation's live handles are exactly those acquired and not dropped yet: every other event leaves their number alone. */
  lemma HandlesAreCounted(m: Counters, e: Event, g: nat)
    requires Inv(m) && Enabled(m, e)
    ensures var n := Step(m, e);
            var before := if g in m.gens then m.gens[g].live else 0;
            && (g in m.gens ==> g in n.gens) && (g in n.gens && g !in m.gens ==> g == m.next)
            && (g in n.gens ==>
                  n.gens[g].live == before + (if Acquires(m, e, g) then 1 else 0) - (if e == HandleDrop(g) then 1 else 0))
  {
    match e
    case HandleAt(k) => EnsureEntryKeeps(m, k);
    case AddAt(k, _) => EnsureEntryKeeps(m, k);
    case LockStep(k) => LockStepKeepsHandles(m, k, g);
    case _ =>
  }

  lemma LockStepKeepsHandles(m: Counters, k: Key, g: nat)
    requires Inv(m) && Enabled(m, LockStep(k))
    ensures var n := Step(m, LockStep(k)); (g in m.gens <==> g in n.gens) && (g in n.gens ==> n.gens[g].live == m.gens[g].live)
  {
  }

  predicate SnapshotPhase(p: Phase) {
    (p.Sweeping? && p.rule.None?) || p.Choosing? || p.Capturing?
  }

  /** The snapshot gate: while a snapshot is held, no other snapshot or commit is running. */
  ghost predicate GateOk(m: Counters) {
    m.held.Some? ==>
      !SnapshotPhase(m.phase) && !m.phase.Settling? && OfRevision(m.held.value.captured, m.held.value.revision)
  }

  /** What traffic, `prune_rule` and the lock holder's own steps can do to the snapshot guard. */
  ghost predicate GuardFrame(m: Counters, n: Counters) {
    && (SnapshotPhase(n.phase) ==> SnapshotPhase(m.phase))
    && (n.phase.Settling? ==> m.phase.Settling?)
    && (m.held.Some? ==> n.held == m.held)
    && (n.held.Some? && m.held.None? ==> SnapshotPhase(m.phase) && !n.held.value.sealed)
  }

  lemma StepGuardFrame(m: Counters, e: Event)
    requires Inv(m) && Enabled(m, e) && !e.SnapshotBegin? && !e.DropSnapshot? && !e.Seal? && !e.CommitBegin?
    ensures GuardFrame(m, Step(m, e))
  {
    if e.LockStep? {
      match m.phase
      case Sweeping(_, _, _) =>
      case Choosing(_, _, _) =>
      case Capturing(_, _, _, _) =>
      case Settling(_, s) =>
    }
  }

  // ---------------------------------------------------------------------------------------------------------
  // Whole runs.

  ghost predicate Run(m: Counters, events: seq<Event>)
    decreases |events|
  {
    events != [] ==> Enabled(m, events[0]) && Run(Step(m, events[0]), events[1..])
  }

  ghost function After(m: Counters, events: seq<Event>): Counters
    decreases |events|
  {
    if events == [] then m else After(Step(m, events[0]), events[1..])
  }

  lemma {:induction false} RunKeepsInv(m: Counters, events: seq<Event>)
    requires Inv(m) && Run(m, events)
    ensures Inv(After(m, events))
    decreases |events|
  {
    if events != [] {
      StepKeepsInv(m, events[0]);
      RunKeepsInv(Step(m, events[0]), events[1..]);
    }
  }

  /**
   A generation that has left the map is finished for good: it holds no bytes, has no handle, and stays exactly as
   it is through every continuation of the run, whatever is snapshot, sealed, committed and pruned in it.
   */
  lemma {:induction false} RemovedEntriesAreFinished(m: Counters, events: seq<Event>, g: nat)
    requires Inv(m) && Run(m, events)
    requires g in m.gens && !Mapped(m, g)
    ensures var n := After(m, events); g in n.gens && n.gens[g] == m.gens[g] && n.gens[g].Idle() && !Mapped(n, g)
    decreases |events|
  {
    if events != [] {
      StepKeepsInv(m, events[0]);
      UntouchedWhenDetached(m, events[0], g);
      RemovedEntriesAreFinished(Step(m, events[0]), events[1..], g);
    }
  }

  lemma UntouchedWhenDetached(m: Counters, e: Event, g: nat)
    requires Inv(m) && Enabled(m, e) && g in m.gens && !Mapped(m, g)
    ensures var n := Step(m, e); g in n.gens && n.gens[g] == m.gens[g] && !Mapped(n, g)
  {
    assert m.gens[g].Idle() && g < m.next;
    if e.LockStep? {
      assert m.table.Keys >= Step(m, e).table.Keys;
    }
  }

  /** The captured entries whose bytes are still in the live map: those of the held snapshot or left to the running commit. */
  function Promised(m: Counters): map<Key, Captured> {
    if m.held.Some? then m.held.value.captured
    else if m.phase.Settling? then Untouched(m.phase.pending, m.phase.settlement)
    else map[]
  }

  /** From capture until commit takes it, a captured entry keeps its generation and at least the captured bytes. */
  lemma HeldSnapshotStaysCovered(events: seq<Event>)
    requires Run(Fresh(), events)
    ensures var m := After(Fresh(), events);
            forall k | k in Promised(m) ::
              && k in m.table && m.table[k] == Promised(m)[k].gen
              && Live(m, k, Upload) >= Promised(m)[k].amount.up
              && Live(m, k, Download) >= Promised(m)[k].amount.down
  {
    RunKeepsInv(Fresh(), events);
    assert PhaseOk(After(Fresh(), events));
  }

  // ---------------------------------------------------------------------------------------------------------
  // Why the handles are loaded first.

  /** The emptiness test with its loads in the opposite order: upload, then download, then live handles. */
  datatype OppositeProbe = NothingLoaded | UploadWasZero | BytesWereZero

  /** One step of a sweep that tests an entry in the opposite order; all else is as in `SweepStep`. */
  function OppositeSweepStep(m: Counters, probe: OppositeProbe, k: Key): (Counters, OppositeProbe)
    requires m.phase.Sweeping?
  {
    var p := m.phase;
    var rest := m.(phase := Sweeping(p.rule, p.todo - {k}, Between));
    match probe
    case NothingLoaded =>
      if (p.rule.Some? && p.rule.value != k.rule) || Entry(m, k).up != 0 then (rest, NothingLoaded) else (m, UploadWasZero)
    case UploadWasZero => if Entry(m, k).down != 0 then (rest, NothingLoaded) else (m, BytesWereZero)
    case BytesWereZero =>
      if Entry(m, k).live != 0 then (rest, NothingLoaded) else (rest.(table := m.table - {k}), NothingLoaded)
  }

  /**
   Wherever a sweep comes to an entry without bytes whose last handle is still in use, the opposite order loses bytes:
   both byte loads see zero, the handle then writes and goes, and the entry leaves the map with the bytes in it.
   The code's order keeps the entry, since its first load sees the handle.
   */
  lemma CountersFirstLosesBytes(m: Counters, k: Key, n: nat)
    requires Inv(m) && m.phase.Sweeping? && m.phase.probe.Between? && k in m.phase.todo
    requires m.phase.rule.Some? ==> m.phase.rule.value == k.rule
    requires Entry(m, k).up == 0 && Entry(m, k).down == 0 && Entry(m, k).live == 1 && n > 0
    ensures var g := m.table[k];
            var (m1, p1) := OppositeSweepStep(m, NothingLoaded, k);
            var (m2, p2) := OppositeSweepStep(m1, p1, k);
            var m3 := Step(m2, HandleAdd(g, Upload, n));
            var m4 := Step(m3, HandleDrop(g));
            var (m5, p5) := OppositeSweepStep(m4, p2, k);
            && Enabled(m2, HandleAdd(g, Upload, n)) && Enabled(m3, HandleDrop(g))
            && k !in m5.table && m5.gens[g].up == n && Live(m5, k, Upload) == 0
            && !DetachedIdle(m5)
    ensures k in SweepStep(m, k).table && k !in SweepStep(m, k).phase.todo
  {
    var g := m.table[k];
    var m4 := Step(Step(m, HandleAdd(g, Upload, n)), HandleDrop(g));
    assert m4.gens[g].up == n && m4.gens[g].live == 0 && m4.gens[g].key == k;
    var m5 := OppositeSweepStep(m4, BytesWereZero, k).0;
    assert !Mapped(m5, g) && !m5.gens[g].Idle();
  }
}
