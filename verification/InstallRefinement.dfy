/**
 The imperative install does what the pipeline's steps say: a clean failure is a rolled-back link, an installed batch a
 verified one, and the process is poisoned exactly when the pipeline is, with exactly its two outcomes of a crash.
 */
module InstallRefinement {
  import opened Wrappers
  import opened TrafficModel
  import opened SpoolSequence
  import opened SpoolNames
  import opened Spool
  import Pipe = TrafficPipeline

  /** The spool directory holds the pipeline's files, the legacy pending file apart. */
  ghost predicate Holds(entries: map<string, Content>, files: map<nat, Record>) {
    && (forall n | n in files && n != 0 :: n <= U64_MAX && Filename(n) in entries && entries[Filename(n)] == Batch(files[n]))
    && (forall name | name in entries :: exists n :: n in files && n != 0 && name == Filename(n))
  }

  function RecordFor(s: Pipe.State, id: nat): Record
    requires s.reporter.Reserved? && s.mem.held.Some?
  {
    var h := s.mem.held.value;
    Record(s.reporter.sequence, id, h.revision, Pipe.ReportsOf(h.captured))
  }

  ghost function AfterOutcome(s: Pipe.State, id: nat, outcome: InstallOutcome): Pipe.State
    requires Pipe.Enabled(s, Pipe.Link(id))
  {
    var linked := Pipe.Step(s, Pipe.Link(id));
    match outcome
    case Installed => Pipe.Step(linked, Pipe.Verified)
    case Clean => Pipe.Step(linked, Pipe.RolledBack)
    case RestartRequired => Pipe.Step(linked, Pipe.Poison)
  }

  lemma OneMoreFile(entries: map<string, Content>, files: map<nat, Record>, r: Record)
    requires Holds(entries, files) && 1 <= r.sequence <= U64_MAX && r.sequence !in files
    ensures Filename(r.sequence) !in entries
    ensures Holds(entries[Filename(r.sequence) := Batch(r)], files[r.sequence := r])
  {
    var more := files[r.sequence := r];
    ParseInvertsFilename(r.sequence);
    forall n | n in files && n != 0 ensures Filename(n) != Filename(r.sequence) {
      ParseInvertsFilename(n);
    }
    var with := entries[Filename(r.sequence) := Batch(r)];
    forall name | name in with ensures exists n :: n in more && n != 0 && name == Filename(n) {
      if name != Filename(r.sequence) {
        var n :| n in files && n != 0 && name == Filename(n);
        assert n in more;
      } else {
        assert r.sequence in more;
      }
    }
  }

  /** Where each outcome leaves the pipeline. */
  lemma OutcomeState(s: Pipe.State, id: nat, outcome: InstallOutcome)
    requires Pipe.Enabled(s, Pipe.Link(id)) && !s.poisoned
    ensures var t := AfterOutcome(s, id, outcome);
            var r := RecordFor(s, id);
            && (t.poisoned <==> outcome.RestartRequired?)
            && t.files == (if outcome.Installed? then s.files[r.sequence := r] else s.files)
            && (outcome.RestartRequired? ==> t.uncertain == Some(r))
  {
  }

  /**
   Whatever happens to the writes, the directory and the pipeline agree afterwards; after an install in doubt they agree
   on what a crash can leave, with or without the batch.
   */
  lemma InstallRefinesPipeline(s: Pipe.State, id: nat, entries: map<string, Content>, env: InstallEnv)
    requires Pipe.ModeOk(s) && Pipe.ReservationOk(s) && Pipe.DiskOk(s) && s.reporter.Reserved? && Pipe.Enabled(s, Pipe.Link(id)) && s.reporter.sequence <= U64_MAX
    requires Holds(entries, s.files)
    ensures var (after, outcome) := AfterWrite(entries, RecordFor(s, id), env);
            var t := AfterOutcome(s, id, outcome);
            && (t.poisoned <==> outcome.RestartRequired?)
            && (!outcome.RestartRequired? ==> Holds(after, t.files))
            && (outcome.RestartRequired? ==>
                  forall m | MayLeave(entries, RecordFor(s, id), env, m) ::
                    Holds(m, Pipe.Step(t, Pipe.Crash(false, {})).files) || Holds(m, Pipe.Step(t, Pipe.Crash(true, {})).files))
  {
    var r := RecordFor(s, id);
    NumberIsNew(s);
    WriteVerdict(entries, r, env);
    OneMoreFile(entries, s.files, r);
    var outcome := AfterWrite(entries, r, env).1;
    OutcomeState(s, id, outcome);
    if outcome.RestartRequired? {
      CrashFiles(AfterOutcome(s, id, outcome));
    }
  }

  lemma NumberIsNew(s: Pipe.State)
    requires Pipe.ModeOk(s) && Pipe.ReservationOk(s) && Pipe.DiskOk(s) && s.reporter.Reserved?
    ensures s.reporter.sequence >= 1 && s.reporter.sequence !in s.files && !s.poisoned
  {
  }

  lemma CrashFiles(t: Pipe.State)
    requires t.uncertain.Some?
    ensures Pipe.Step(t, Pipe.Crash(false, {})).files == t.files
    ensures Pipe.Step(t, Pipe.Crash(true, {})).files == t.files[t.uncertain.value.sequence := t.uncertain.value]
  {
    assert Pipe.Resurrected(t, {}) == t.files;
  }
}
