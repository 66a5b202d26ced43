/**
 Completion of an uninstall: a retried finalizer with a durable receipt that reports to the Panel in two phases.

 The host carries a history of what happened to the outside world. Every durable state an attempt passes through is
 listed, so a crash is any of them, and the next attempt starts from there.
 */
module Uninstall {
  import opened Traces
  import opened Wrappers

  datatype Receipt = Receipt(acknowledged: bool, cleaned: bool, started: bool, message: nat)

  datatype Entry =
    | Saved(receipt: Receipt)
    | CleanedUp(ok: bool)
    | Reported(success: bool, started: bool, pending: bool)
    | Retired
    | ReceiptRemoved

  /** `service`, `timer` and `enabled` are the retry entry points; `binary` is what they run. */
  datatype Host = Host(receipt: Option<Receipt>, service: bool, timer: bool, enabled: bool, binary: bool, history: seq<Entry>)

  datatype WriteEnv = Persisted | NotPersisted | PersistedNotSynced

  datatype AttemptEnv = AttemptEnv(readable: bool, startSave: WriteEnv, cleanup: bool, message: nat, endSave: WriteEnv,
                                   accepted: bool, ackSave: WriteEnv)

  datatype RetireEnv = RetireEnv(
    validated: bool, disabled: bool, serviceRemoved: bool, timerRemoved: bool, reloaded: bool, retired: bool,
    serviceRestored: bool, timerRestored: bool, enabledAgain: bool,
    stampRemoved: bool, binaryRemoved: bool, receiptRemoved: bool)

  datatype Outcome = Failed | Finished(done: bool)

  datatype Attempt = Attempt(states: seq<Host>, outcome: Outcome)

  function Note(h: Host, e: Entry): Host {
    h.(history := h.history + [e])
  }

  /** Writing the receipt: an error after the rename leaves the new one in place. */
  function Save(h: Host, r: Receipt, env: WriteEnv): seq<Host> {
    if env.NotPersisted? then [] else [Note(h, Saved(r)).(receipt := Some(r))]
  }

  function Then(first: seq<Host>, rest: Attempt): Attempt {
    rest.(states := first + rest.states)
  }

  /** Report what the receipt says as pending; only an accepted success is acknowledged. */
  function Acknowledge(h: Host, r: Receipt, env: AttemptEnv): Attempt {
    var told := Note(h, Reported(r.cleaned, r.started, true));
    if !env.accepted || !r.cleaned then Attempt([told], Finished(false))
    else
      Attempt([told] + Save(told, r.(acknowledged := true), env.ackSave), if env.ackSave.Persisted? then Finished(true) else Failed)
  }

  /** Record that destruction starts, clean up, record how it went. */
  function CleanUp(h: Host, r: Receipt, env: AttemptEnv): Attempt {
    var starting := Save(h, r.(started := true), env.startSave);
    if !env.startSave.Persisted? then Attempt(starting, Failed)
    else
      var cleaned := Note(Last(h, starting), CleanedUp(env.cleanup));
      var s := Receipt(r.acknowledged, env.cleanup, true, env.message);
      var states := starting + [cleaned] + Save(cleaned, s, env.endSave);
      if !env.endSave.Persisted? then Attempt(states, Failed) else Then(states, Acknowledge(Last(h, states), s, env))
  }

  function CompletionAttempt(h: Host, env: AttemptEnv): Attempt {
    if h.receipt.None? || !env.readable then Attempt([], Failed)
    else if h.receipt.value.acknowledged then Attempt([], Finished(true))
    else if h.receipt.value.cleaned then Acknowledge(h, h.receipt.value, env)
    else CleanUp(h, h.receipt.value, env)
  }

  /** The retry units put back after a failed retirement; a write that fails ends the restoration. */
  function Restore(h: Host, env: RetireEnv): seq<Host> {
    if !env.serviceRestored then []
    else
      var withService := h.(service := true);
      if !env.timerRestored then [withService]
      else
        var restored := withService.(timer := true);
        [withService, restored] + if env.enabledAgain then [restored.(enabled := true)] else []
  }

  function RemoveReceipt(h: Host, env: RetireEnv): Attempt {
    if !env.stampRemoved then Attempt([], Failed)
    else if !env.binaryRemoved then Attempt([], Failed)
    else
      var bare := h.(binary := false);
      if !env.receiptRemoved then Attempt([bare], Failed)
      else Attempt([bare, Note(bare, ReceiptRemoved).(receipt := None)], Finished(true))
  }

  /** Retire the credentials between removing the retry units and removing binary and receipt. */
  function RetireUnits(h: Host, env: RetireEnv): Attempt {
    if !env.reloaded || !env.retired then Attempt(Restore(h, env), Failed)
    else
      var retired := Note(h, Retired);
      Then([retired], RemoveReceipt(retired, env))
  }

  function CleanupFinalizer(h: Host, env: RetireEnv): Attempt {
    if !env.validated || !env.disabled then Attempt([], Failed)
    else
      var stopped := h.(enabled := false);
      if !env.serviceRemoved then Attempt([stopped], Failed)
      else
        var noService := stopped.(service := false);
        if !env.timerRemoved then Attempt([stopped, noService], Failed)
        else
          var noTimer := noService.(timer := false);
          Then([stopped, noService, noTimer], RetireUnits(noTimer, env))
  }

  datatype TickEnv = TickEnv(attempt: AttemptEnv, readableAgain: bool, retire: RetireEnv, finalAccepted: bool)

  /** One run of the retry service. */
  function Tick(h: Host, env: TickEnv): Attempt {
    var first := CompletionAttempt(h, env.attempt);
    var after := Last(h, first.states);
    if first.outcome != Finished(true) then first
    else if !env.readableAgain then Attempt(first.states, Failed)
    else
      var second := CleanupFinalizer(after, env.retire);
      var gone := Last(after, second.states);
      if second.outcome.Failed? then Then(first.states, second)
      else Attempt(first.states + second.states + [Note(gone, Reported(true, true, false))], Finished(env.finalAccepted))
  }

  // ---------------------------------------------------------------------------------------------------------
  // What the history must say.

  predicate IsFinal(e: Entry) {
    e.Reported? && !e.pending
  }

  predicate SavedClean(e: Entry) {
    e.Saved? && e.receipt.cleaned
  }

  /** What must have happened before an entry. */
  ghost predicate Justified(before: seq<Entry>, e: Entry) {
    && (e.Saved? ==> (e.receipt.acknowledged ==> e.receipt.cleaned) && (e.receipt.cleaned ==> e.receipt.started))
    && (e.Saved? && e.receipt.cleaned ==> CleanedUp(true) in before)
    && (e.Reported? && e.success ==> e.started && CleanedUp(true) in before)
    && (e.CleanedUp? ==> forall x | x in before :: !SavedClean(x))
    && (IsFinal(e) ==> e.success && Retired in before && ReceiptRemoved in before && forall x | x in before :: !IsFinal(x))
  }

  ghost predicate Truthful(history: seq<Entry>) {
    history == [] || (Truthful(history[..|history| - 1]) && Justified(history[..|history| - 1], history[|history| - 1]))
  }

  /** The receipt agrees with the history, and once it is gone it stays gone. */
  ghost predicate Inv(h: Host) {
    && Truthful(h.history)
    && (h.receipt.Some? ==>
          var r := h.receipt.value;
          && (r.acknowledged ==> r.cleaned) && (r.cleaned ==> r.started) && (r.cleaned ==> CleanedUp(true) in h.history)
          && ((exists x :: x in h.history && SavedClean(x)) ==> r.cleaned)
          && (forall x | x in h.history :: !IsFinal(x)))
  }

  /** Also between running the cleanup and saving its result. */
  ghost predicate CrashSafe(h: Host, states: seq<Host>) {
    Inv(h) && forall s | s in states :: Inv(s)
  }

  lemma NoteTruthful(h: Host, e: Entry)
    requires Inv(h) && Justified(h.history, e)
    requires SavedClean(e) || IsFinal(e) ==> h.receipt.None? || (h.receipt.value.cleaned && !IsFinal(e))
    ensures Inv(Note(h, e))
  {
    assert Note(h, e).history[..|h.history|] == h.history;
  }

  lemma SaveTruthful(h: Host, r: Receipt, env: WriteEnv)
    requires Inv(h) && h.receipt.Some?
    requires Justified(h.history, Saved(r)) && ((exists x :: x in h.history && SavedClean(x)) ==> r.cleaned)
    ensures forall s | s in Save(h, r, env) :: Inv(s) && s.receipt == Some(r) && s.history == h.history + [Saved(r)]
  {
    var s := Note(h, Saved(r)).(receipt := Some(r));
    assert s.history[..|h.history|] == h.history;
  }

  lemma AcknowledgeTruthful(h: Host, r: Receipt, env: AttemptEnv)
    requires Inv(h) && h.receipt == Some(r)
    ensures var a := Acknowledge(h, r, env);
            && (forall s | s in a.states :: Inv(s))
            && (a.outcome == Finished(true) ==> Last(h, a.states).receipt == Some(r.(acknowledged := true)) && r.cleaned)
  {
    var told := Note(h, Reported(r.cleaned, r.started, true));
    NoteTruthful(h, Reported(r.cleaned, r.started, true));
    if env.accepted && r.cleaned {
      SaveTruthful(told, r.(acknowledged := true), env.ackSave);
    }
  }

  lemma CleanUpTruthful(h: Host, r: Receipt, env: AttemptEnv)
    requires Inv(h) && h.receipt == Some(r) && !r.cleaned
    ensures var a := CleanUp(h, r, env);
            && (forall s | s in a.states :: Inv(s))
            && (a.outcome == Finished(true) ==> Last(h, a.states).receipt.Some? && Last(h, a.states).receipt.value.acknowledged)
  {
    var starting := Save(h, r.(started := true), env.startSave);
    SaveTruthful(h, r.(started := true), env.startSave);
    if env.startSave.Persisted? {
      var begun := Last(h, starting);
      var cleaned := Note(begun, CleanedUp(env.cleanup));
      NoteTruthful(begun, CleanedUp(env.cleanup));
      var s := Receipt(r.acknowledged, env.cleanup, true, env.message);
      assert env.cleanup ==> CleanedUp(true) in cleaned.history;
      SaveTruthful(cleaned, s, env.endSave);
      if env.endSave.Persisted? {
        AcknowledgeTruthful(Last(cleaned, Save(cleaned, s, env.endSave)), s, env);
      }
    }
  }

  lemma CompletionTruthful(h: Host, env: AttemptEnv)
    requires Inv(h)
    ensures var a := CompletionAttempt(h, env);
            && (forall s | s in a.states :: Inv(s))
            && (a.outcome == Finished(true) ==> Last(h, a.states).receipt.Some? && Last(h, a.states).receipt.value.acknowledged)
  {
    if h.receipt.Some? && env.readable && !h.receipt.value.acknowledged {
      if h.receipt.value.cleaned {
        AcknowledgeTruthful(h, h.receipt.value, env);
      } else {
        CleanUpTruthful(h, h.receipt.value, env);
      }
    }
  }

  /** Only the retry units change: the receipt and the history stay as they are. */
  predicate SameRecord(h: Host, s: Host) {
    s.receipt == h.receipt && s.history == h.history
  }

  /** Everything is gone, after a cleanup that succeeded and before any final report. */
  ghost predicate AllGone(h: Host) {
    && h.receipt.None? && !h.binary && !h.service && !h.timer && !h.enabled
    && CleanedUp(true) in h.history && Retired in h.history && ReceiptRemoved in h.history
    && forall x | x in h.history :: !IsFinal(x)
  }

  /** Truthful at every state; a failure keeps the receipt, success leaves nothing. */
  ghost predicate RetiresTruthfully(h: Host, a: Attempt) {
    && (forall s | s in a.states :: Inv(s))
    && (a.outcome.Failed? ==> Last(h, a.states).receipt == h.receipt)
    && (a.outcome.Finished? ==> AllGone(Last(h, a.states)))
  }

  /** The retry units are gone already. */
  predicate UnitsGone(h: Host) {
    !h.service && !h.timer && !h.enabled
  }

  predicate ReadyToRetire(h: Host) {
    h.receipt.Some? && h.receipt.value.cleaned
  }

  lemma RemoveReceiptTruthful(h: Host, env: RetireEnv)
    requires Inv(h) && Retired in h.history && ReadyToRetire(h) && UnitsGone(h)
    ensures RetiresTruthfully(h, RemoveReceipt(h, env))
  {
    var bare := h.(binary := false);
    if env.receiptRemoved {
      NoteTruthful(bare, ReceiptRemoved);
    }
  }

  lemma RetireUnitsTruthful(h: Host, env: RetireEnv)
    requires Inv(h) && ReadyToRetire(h) && UnitsGone(h)
    ensures RetiresTruthfully(h, RetireUnits(h, env))
  {
    if env.reloaded && env.retired {
      NoteTruthful(h, Retired);
      RemoveReceiptTruthful(Note(h, Retired), env);
    } else {
      assert forall s | s in Restore(h, env) :: SameRecord(h, s);
    }
  }

  lemma AfterUnits(h: Host, units: seq<Host>, v: Host, a: Attempt)
    requires Inv(h) && units != [] && v == units[|units| - 1] && v.receipt == h.receipt
    requires forall s | s in units :: Inv(s)
    requires RetiresTruthfully(v, a)
    ensures RetiresTruthfully(h, Then(units, a))
  {
  }

  lemma FinalizerTruthful(h: Host, env: RetireEnv)
    requires Inv(h) && ReadyToRetire(h)
    ensures RetiresTruthfully(h, CleanupFinalizer(h, env))
  {
    var stopped := h.(enabled := false);
    var noService := stopped.(service := false);
    var noTimer := noService.(timer := false);
    RetireUnitsTruthful(noTimer, env);
    AfterUnits(h, [stopped, noService, noTimer], noTimer, RetireUnits(noTimer, env));
  }

  /** Every state is one the next tick can start from; success leaves nothing, and says so last. */
  ghost predicate TickResult(h: Host, a: Attempt) {
    var e := Last(h, a.states);
    && (forall s | s in a.states :: Inv(s)) && Inv(e)
    && (a.outcome == Finished(true) ==>
          && e.receipt.None? && !e.binary && UnitsGone(e)
          && CleanedUp(true) in e.history && Retired in e.history && ReceiptRemoved in e.history
          && e.history != [] && IsFinal(e.history[|e.history| - 1]) && e.history[|e.history| - 1].success)
  }

  lemma TickTruthful(h: Host, env: TickEnv)
    requires Inv(h)
    ensures TickResult(h, Tick(h, env))
  {
    var first := CompletionAttempt(h, env.attempt);
    CompletionTruthful(h, env.attempt);
    if first.outcome == Finished(true) && env.readableAgain {
      var after := Last(h, first.states);
      FinalizerTruthful(after, env.retire);
      var second := CleanupFinalizer(after, env.retire);
      LastOfBoth(h, first.states, second.states);
      if second.outcome.Finished? {
        NoteTruthful(Last(after, second.states), Reported(true, true, false));
      }
    }
  }

  /** The Panel has acknowledged before, or everything up to its acknowledgement works now. */
  predicate Completes(h: Host, env: AttemptEnv) {
    && h.receipt.Some? && env.readable
    && (h.receipt.value.acknowledged ||
        ((h.receipt.value.cleaned || (env.startSave.Persisted? && env.cleanup && env.endSave.Persisted?)) &&
         env.accepted && env.ackSave.Persisted?))
  }

  /** Every step of the retirement works. */
  predicate Retires(env: RetireEnv) {
    && env.validated && env.disabled && env.serviceRemoved && env.timerRemoved && env.reloaded && env.retired
    && env.stampRemoved && env.binaryRemoved && env.receiptRemoved
  }

  /**
   A tick finishes exactly if the completion is acknowledged, the retirement works and the Panel takes the final report.
   Once acknowledged it fails exactly if the retirement does.
   */
  lemma TickFinishesIff(h: Host, env: TickEnv)
    ensures CompletionAttempt(h, env.attempt).outcome == Finished(true) <==> Completes(h, env.attempt)
    ensures CleanupFinalizer(h, env.retire).outcome == (if Retires(env.retire) then Finished(true) else Failed)
    ensures Tick(h, env).outcome == Finished(true) <==>
            Completes(h, env.attempt) && env.readableAgain && Retires(env.retire) && env.finalAccepted
    ensures Completes(h, env.attempt) ==>
              (Tick(h, env).outcome.Failed? <==> !(env.readableAgain && Retires(env.retire)))
  {
    var after := Last(h, CompletionAttempt(h, env.attempt).states);
    FinalizerOutcome(after, env.retire);
    FinalizerOutcome(h, env.retire);
  }

  lemma FinalizerOutcome(h: Host, env: RetireEnv)
    ensures CleanupFinalizer(h, env).outcome == if Retires(env) then Finished(true) else Failed
  {
  }

  /** Without an acknowledgement the retry service stays: it fails if something could not be read or saved, and is unfinished otherwise. */
  lemma UnfinishedIff(h: Host, env: AttemptEnv)
    requires !Completes(h, env)
    ensures CompletionAttempt(h, env).outcome == Finished(false) <==>
            && h.receipt.Some? && env.readable
            && (h.receipt.value.cleaned || (env.startSave.Persisted? && env.endSave.Persisted?))
            && !(env.accepted && (h.receipt.value.cleaned || env.cleanup))
  {
  }

  lemma LastOfBoth(h: Host, first: seq<Host>, second: seq<Host>)
    ensures Last(h, first + second) == Last(Last(h, first), second)
    ensures Last(h, first + second) == h || Last(h, first + second) in first + second
  {
  }

  // ---------------------------------------------------------------------------------------------------------
  // Any number of retries and crashes.

  /** A tick that ran to its end or was cut short in any of its states. */
  datatype Visit = Visit(env: TickEnv, left: Host)

  ghost predicate Reaches(h: Host, visits: seq<Visit>, e: Host)
    decreases |visits|
  {
    if visits == [] then e == h
    else (visits[0].left == h || visits[0].left in Tick(h, visits[0].env).states) && Reaches(visits[0].left, visits[1..], e)
  }

  /** The receipt as the uninstall job writes it, next to its installed retry units. */
  function Installed(message: nat): Host {
    Host(Some(Receipt(false, false, false, message)), true, true, true, true, [])
  }

  ghost predicate Reachable(e: Host) {
    exists message, visits :: Reaches(Installed(message), visits, e)
  }

  lemma {:induction false} VisitsKeepInv(h: Host, visits: seq<Visit>, e: Host)
    requires Inv(h) && Reaches(h, visits, e)
    ensures Inv(e)
    decreases |visits|
  {
    if visits != [] {
      TickTruthful(h, visits[0].env);
      VisitsKeepInv(visits[0].left, visits[1..], e);
    }
  }

  lemma {:induction false} TruthfulAt(history: seq<Entry>, i: nat)
    requires Truthful(history) && i < |history|
    ensures Justified(history[..i], history[i])
  {
    var front := history[..|history| - 1];
    if i < |front| {
      TruthfulAt(front, i);
      assert front[..i] == history[..i];
    }
  }

  lemma ReachableHistory(e: Host, i: nat)
    requires Reachable(e) && i < |e.history|
    ensures Inv(e) && Justified(e.history[..i], e.history[i])
  {
    var message, visits :| Reaches(Installed(message), visits, e);
    VisitsKeepInv(Installed(message), visits, e);
    TruthfulAt(e.history, i);
  }

  /** In every receipt ever persisted, acknowledged implies cleaned implies destruction started. */
  lemma PersistedReceiptsAreConsistent(e: Host, i: nat)
    requires Reachable(e) && i < |e.history| && e.history[i].Saved?
    ensures var r := e.history[i].receipt; (r.acknowledged ==> r.cleaned) && (r.cleaned ==> r.started)
  {
    ReachableHistory(e, i);
  }

  /** Once success has been persisted, the cleanup never runs again. */
  lemma CleanupIsNotRepeated(e: Host, i: nat, j: nat)
    requires Reachable(e) && i < j < |e.history| && SavedClean(e.history[i])
    ensures !e.history[j].CleanedUp?
  {
    ReachableHistory(e, j);
    assert e.history[i] in e.history[..j];
  }

  /** Success is reported only after the cleanup has succeeded. */
  lemma SuccessFollowsCleanup(e: Host, i: nat)
    requires Reachable(e) && i < |e.history| && e.history[i].Reported? && e.history[i].success
    ensures CleanedUp(true) in e.history[..i] && e.history[i].started
  {
    ReachableHistory(e, i);
  }

  /** The final report comes after credentials and receipt are gone, says success, and is sent at most once. */
  lemma FinalReportIsLast(e: Host, i: nat, j: nat)
    requires Reachable(e) && i < |e.history| && IsFinal(e.history[i])
    ensures e.history[i].success && Retired in e.history[..i] && ReceiptRemoved in e.history[..i] && CleanedUp(true) in e.history[..i]
    ensures i < j < |e.history| ==> !IsFinal(e.history[j])
  {
    ReachableHistory(e, i);
    if i < j < |e.history| {
      ReachableHistory(e, j);
      assert e.history[i] in e.history[..j];
    }
  }

  /** A tick finds nothing to do once the receipt is gone. */
  lemma GoneMeansGone(h: Host, env: TickEnv)
    requires h.receipt.None?
    ensures Tick(h, env) == Attempt([], Failed)
  {
  }

  // ---------------------------------------------------------------------------------------------------------
  // What a failed retirement leaves.

  predicate CanRetry(h: Host) {
    h.service && h.timer && h.enabled
  }

  /** Recovery material is never lost by a returned error: the receipt stays, and the executable unless it was being removed last. */
  lemma FailureKeepsReceipt(h: Host, env: RetireEnv)
    requires CleanupFinalizer(h, env).outcome.Failed?
    ensures var e := Last(h, CleanupFinalizer(h, env).states);
            && e.receipt == h.receipt
            && (!(env.reloaded && env.retired) ==> e.binary == h.binary && e.history == h.history)
  {
  }

  /**
   After a returned error the retry units are in place exactly if the error came before they were touched, or came from
   reload or retirement and the restoration went through. An error in between or afterwards leaves none.
   */
  lemma RetryAfterFailure(h: Host, env: RetireEnv)
    requires CanRetry(h) && CleanupFinalizer(h, env).outcome.Failed?
    ensures CanRetry(Last(h, CleanupFinalizer(h, env).states)) <==>
              || !env.validated || !env.disabled
              || (env.serviceRemoved && env.timerRemoved && !(env.reloaded && env.retired)
                  && env.serviceRestored && env.timerRestored && env.enabledAgain)
  {
  }

  // ---------------------------------------------------------------------------------------------------------
  // The finalizer as it changes the host.

  class Finalizer {
    var receipt: Option<Receipt>
    var service: bool
    var timer: bool
    var enabled: bool
    var binary: bool
    ghost var history: seq<Entry>
    ghost var passed: seq<Host>

    ghost function Now(): Host
      reads this
    {
      Host(receipt, service, timer, enabled, binary, history)
    }

    constructor (message: nat)
      ensures Now() == Installed(message) && passed == []
    {
      receipt := Some(Receipt(false, false, false, message));
      service, timer, enabled, binary := true, true, true, true;
      history, passed := [], [];
    }

    ghost method Happens(e: Entry)
      modifies this`history, this`passed
      ensures Now() == old(Note(Now(), e)) && passed == old(passed) + [Now()]
    {
      history := history + [e];
      passed := passed + [Now()];
    }

    ghost method Passes()
      modifies this`passed
      ensures passed == old(passed) + [Now()]
    {
      passed := passed + [Now()];
    }

    method SaveReceipt(r: Receipt, env: WriteEnv) returns (ok: bool)
      modifies this`receipt, this`history, this`passed
      ensures ok == env.Persisted?
      ensures passed == old(passed) + Save(old(Now()), r, env) && Now() == Last(old(Now()), Save(old(Now()), r, env))
    {
      if !env.NotPersisted? {
        receipt := Some(r);
        Happens(Saved(r));
      }
      ok := env.Persisted?;
    }

    method ReportPending(r: Receipt, env: AttemptEnv) returns (outcome: Outcome)
      modifies this`receipt, this`history, this`passed
      ensures var a := Acknowledge(old(Now()), r, env); outcome == a.outcome && Went(a, old(Now()), old(passed), this)
    {
      Happens(Reported(r.cleaned, r.started, true));
      if !env.accepted || !r.cleaned {
        return Finished(false);
      }
      var saved := SaveReceipt(r.(acknowledged := true), env.ackSave);
      outcome := if saved then Finished(true) else Failed;
    }

    /** Mark destruction as started, clean up, mark the result; false if a mark could not be saved. */
    method RunCleanup(r: Receipt, env: AttemptEnv) returns (ok: bool, s: Receipt)
      modifies this`receipt, this`history, this`passed
      ensures var starting := Save(old(Now()), r.(started := true), env.startSave);
              var cleaned := Note(Last(old(Now()), starting), CleanedUp(env.cleanup));
              s == Receipt(r.acknowledged, env.cleanup, true, env.message) && ok == (env.startSave.Persisted? && env.endSave.Persisted?) &&
              Went(Attempt(if env.startSave.Persisted? then starting + [cleaned] + Save(cleaned, s, env.endSave) else starting, Failed),
                   old(Now()), old(passed), this)
    {
      s := Receipt(r.acknowledged, env.cleanup, true, env.message);
      ok := SaveReceipt(r.(started := true), env.startSave);
      if ok {
        Happens(CleanedUp(env.cleanup));
        ok := SaveReceipt(s, env.endSave);
      }
    }

    method AttemptCompletion(env: AttemptEnv) returns (outcome: Outcome)
      modifies this`receipt, this`history, this`passed
      ensures var a := CompletionAttempt(old(Now()), env); outcome == a.outcome && Went(a, old(Now()), old(passed), this)
    {
      if receipt.None? || !env.readable {
        return Failed;
      }
      if receipt.value.acknowledged {
        return Finished(true);
      }
      if receipt.value.cleaned {
        outcome := ReportPending(receipt.value, env);
        return;
      }
      var ok, s := RunCleanup(receipt.value, env);
      if !ok {
        return Failed;
      }
      outcome := ReportPending(s, env);
    }

    method RestoreUnits(env: RetireEnv)
      modifies this`service, this`timer, this`enabled, this`passed
      ensures Went(Attempt(Restore(old(Now()), env), Failed), old(Now()), old(passed), this)
    {
      if env.serviceRestored {
        service := true;
        Passes();
        if env.timerRestored {
          timer := true;
          Passes();
          if env.enabledAgain {
            enabled := true;
            Passes();
          }
        }
      }
    }

    method RemoveMaterial(env: RetireEnv) returns (outcome: Outcome)
      modifies this`receipt, this`binary, this`history, this`passed
      ensures var a := RemoveReceipt(old(Now()), env); outcome == a.outcome && Went(a, old(Now()), old(passed), this)
    {
      if !env.stampRemoved || !env.binaryRemoved {
        return Failed;
      }
      binary := false;
      Passes();
      if !env.receiptRemoved {
        return Failed;
      }
      receipt := None;
      Happens(ReceiptRemoved);
      return Finished(true);
    }

    /** With the units gone: credentials, then executable and receipt; a failure puts the units back. */
    method RetireCredentials(env: RetireEnv) returns (outcome: Outcome)
      modifies this
      ensures var a := RetireUnits(old(Now()), env); outcome == a.outcome && Went(a, old(Now()), old(passed), this)
    {
      outcome := Failed;
      if env.reloaded && env.retired {
        ghost var h, before := Now(), passed;
        Happens(Retired);
        ghost var retired := Now();
        outcome := RemoveMaterial(env);
        Chain(h, before, [retired], RemoveReceipt(retired, env).states);
      } else {
        RestoreUnits(env);
      }
    }

    /** The retry units go first. */
    method RetireFinalizer(env: RetireEnv) returns (outcome: Outcome)
      modifies this
      ensures var a := CleanupFinalizer(old(Now()), env); outcome == a.outcome && Went(a, old(Now()), old(passed), this)
    {
      outcome := Failed;
      ghost var h, before := Now(), passed;
      if env.validated && env.disabled {
        enabled := false;
        Passes();
        if env.serviceRemoved {
          service := false;
          Passes();
          if env.timerRemoved {
            timer := false;
            Passes();
            ghost var units, v := [h.(enabled := false), h.(enabled := false, service := false), Now()], Now();
            assert passed == before + units;
            outcome := RetireCredentials(env);
            Chain(h, before, units, RetireUnits(v, env).states);
          }
        }
      }
    }

    method TickSteps(env: TickEnv) returns (outcome: Outcome)
      modifies this
      ensures var a := Tick(old(Now()), env); outcome == a.outcome && Went(a, old(Now()), old(passed), this)
    {
      ghost var h, before := Now(), passed;
      outcome := AttemptCompletion(env.attempt);
      ghost var first := CompletionAttempt(h, env.attempt).states;
      if outcome == Finished(true) {
        outcome := Failed;
        if env.readableAgain {
          ghost var after := Now();
          outcome := RetireFinalizer(env.retire);
          ghost var second, gone := CleanupFinalizer(after, env.retire).states, Now();
          Chain(h, before, first, second);
          if outcome.Finished? {
            Happens(Reported(true, true, false));
            Chain(h, before, first + second, [Note(gone, Reported(true, true, false))]);
            outcome := Finished(env.finalAccepted);
          }
        }
      }
    }

    /**
     One run of the retry service. Every state it passes through is one the next run can start from, and it succeeds
     only with credentials retired and nothing left, after a cleanup that succeeded.
     */
    method RunTick(env: TickEnv) returns (outcome: Outcome)
      modifies this
      ensures var a := Tick(old(Now()), env); outcome == a.outcome && Went(a, old(Now()), old(passed), this)
      ensures Inv(old(Now())) ==> TickResult(old(Now()), Attempt(passed[|old(passed)|..], outcome))
      ensures outcome == Finished(true) <==>
              Completes(old(Now()), env.attempt) && env.readableAgain && Retires(env.retire) && env.finalAccepted
    {
      ghost var h, before := Now(), passed;
      outcome := TickSteps(env);
      Split(before, Tick(h, env).states);
      TickFinishesIff(h, env);
      if Inv(h) {
        TickTruthful(h, env);
      }
    }
  }

  /** The host went through exactly the states of an attempt. */
  ghost predicate Went(a: Attempt, h: Host, before: seq<Host>, f: Finalizer)
    reads f
  {
    f.passed == before + a.states && f.Now() == Last(h, a.states)
  }
}
