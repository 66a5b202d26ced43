/**
 Credential bootstrap: state file, secret file, claimant nonce and runtime descriptor, each replaced atomically.

 Every durable state a run passes through is listed, so a crash is any of them; the next run starts from there with
 fresh random values at hand. The history records what was presented to the Panel.
 */
module Credential {
  import opened Traces
  import opened Wrappers

  datatype Phase = SecretPending | PrepareReady | ActivateReady | ActiveConfirmed

  function Rank(p: Phase): nat {
    match p
    case SecretPending => 0
    case PrepareReady => 1
    case ActivateReady => 2
    case ActiveConfirmed => 3
  }

  /** Ids, nonces and secrets are random values; only their identity matters here. */
  datatype Saved = Saved(id: nat, deliveryNonce: nat, phase: Phase)

  datatype Entry =
    | Claimed(claimNonce: nat)
    | Prepared(id: nat, deliveryNonce: nat, claimNonce: nat, secret: nat)
    | Activated(id: nat, deliveryNonce: nat, secret: nat)
    | IdentityChecked(id: nat, secret: nat, matches: bool)

  datatype Disk = Disk(state: Option<Saved>, secret: Option<nat>, claimNonce: Option<nat>, descriptor: Option<nat>, history: seq<Entry>)

  /** An error after the replacement leaves the new content in place. */
  datatype WriteEnv = Replaced | NotReplaced | ReplacedNotVerified

  datatype Env = Env(
    freshId: nat, freshNonce: nat, freshSecret: nat, freshClaimNonce: nat,
    stateWrite: WriteEnv, secretWrite: WriteEnv, phaseWrite: WriteEnv, nonceWrite: WriteEnv,
    claimAccepted: bool, prepareAccepted: bool, prepareWrite: WriteEnv,
    activateAccepted: bool, identityThen: bool, activateWrite: WriteEnv,
    identityNow: bool, descriptorWrite: WriteEnv, completed: bool)

  datatype Outcome = Orphaned | SecretMissing | Stopped | Ready

  datatype Attempt = Attempt(states: seq<Disk>, outcome: Outcome)

  /** One atomic replacement: `after` is the disk if it takes place. */
  function Write(after: Disk, env: WriteEnv): Attempt {
    Attempt(if env.NotReplaced? then [] else [after], if env.Replaced? then Ready else Stopped)
  }

  /** Go on with the next step only if this one was ready. */
  function Then(d: Disk, first: Attempt, next: Disk -> Attempt): Attempt {
    if !first.outcome.Ready? then first
    else
      var second := next(Last(d, first.states));
      Attempt(first.states + second.states, second.outcome)
  }

  function Note(d: Disk, e: Entry): Disk {
    d.(history := d.history + [e])
  }

  function WithPhase(d: Disk, p: Phase): Disk {
    if d.state.Some? then d.(state := Some(d.state.value.(phase := p))) else d
  }

  /** A state file first, and never next to a secret that has none. */
  function EnsureState(d: Disk, env: Env): Attempt {
    if d.state.Some? then Attempt([], Ready)
    else if d.secret.Some? then Attempt([], Orphaned)
    else Write(d.(state := Some(Saved(env.freshId, env.freshNonce, SecretPending))), env.stateWrite)
  }

  /** Then the secret, and the phase that says it exists. */
  function EnsureSecret(d: Disk, env: Env): Attempt {
    if d.state.None? then Attempt([], Stopped)
    else if !d.state.value.phase.SecretPending? then Attempt([], if d.secret.Some? then Ready else SecretMissing)
    else
      var secret := if d.secret.Some? then Attempt([], Ready) else Write(d.(secret := Some(env.freshSecret)), env.secretWrite);
      Then(d, secret, e => Write(WithPhase(e, PrepareReady), env.phaseWrite))
  }

  function Ensure(d: Disk, env: Env): Attempt {
    Then(d, EnsureState(d, env), e => EnsureSecret(e, env))
  }

  function EnsureNonce(d: Disk, env: Env): Attempt {
    if d.claimNonce.Some? then Attempt([], Ready) else Write(d.(claimNonce := Some(env.freshClaimNonce)), env.nonceWrite)
  }

  predicate Complete(d: Disk) {
    d.state.Some? && d.secret.Some? && d.claimNonce.Some?
  }

  function ClaimAndPrepare(d: Disk, env: Env): Attempt {
    if !Complete(d) || !d.state.value.phase.PrepareReady? then Attempt([], Ready)
    else
      var claimed := Note(d, Claimed(d.claimNonce.value));
      var prepared := Note(claimed, Prepared(d.state.value.id, d.state.value.deliveryNonce, d.claimNonce.value, d.secret.value));
      if !env.claimAccepted then Attempt([claimed], Stopped)
      else if !env.prepareAccepted then Attempt([claimed, prepared], Stopped)
      else Then(d, Attempt([claimed, prepared], Ready), e => Write(WithPhase(e, ActivateReady), env.prepareWrite))
  }

  /** A lost activation reply is settled by asking for the identity. */
  function Activate(d: Disk, env: Env): Attempt {
    if !Complete(d) || !d.state.value.phase.ActivateReady? then Attempt([], Ready)
    else
      var sent := Note(d, Activated(d.state.value.id, d.state.value.deliveryNonce, d.secret.value));
      var asked := Note(sent, IdentityChecked(d.state.value.id, d.secret.value, env.identityThen));
      if env.activateAccepted then Then(d, Attempt([sent], Ready), e => Write(WithPhase(e, ActiveConfirmed), env.activateWrite))
      else if !env.identityThen then Attempt([sent, asked], Stopped)
      else Then(d, Attempt([sent, asked], Ready), e => Write(WithPhase(e, ActiveConfirmed), env.activateWrite))
  }

  /** The descriptor that switches the node over is written only behind a fresh identity check. */
  function CommitDescriptor(d: Disk, env: Env): Attempt {
    if !Complete(d) then Attempt([], Stopped)
    else
      var asked := Note(d, IdentityChecked(d.state.value.id, d.secret.value, env.identityNow));
      if !env.identityNow then Attempt([asked], Stopped)
      else
        Then(d, Attempt([asked], Ready), (e: Disk) =>
          var w := Write(e.(descriptor := Some(d.state.value.id)), env.descriptorWrite);
          if w.outcome.Ready? && !env.completed then w.(outcome := Stopped) else w)
  }

  function Finish(d: Disk, env: Env): Attempt {
    Then(d, Activate(d, env), e => CommitDescriptor(e, env))
  }

  function Authorize(d: Disk, env: Env): Attempt {
    Then(d, ClaimAndPrepare(d, env), e => Finish(e, env))
  }

  function Present(d: Disk, env: Env): Attempt {
    Then(d, EnsureNonce(d, env), e => Authorize(e, env))
  }

  /** One run of the bootstrap, from whatever an earlier one left. */
  function Run(d: Disk, env: Env): Attempt {
    Then(d, Ensure(d, env), e => Present(e, env))
  }

  /** The helper's own phase change: any phase may follow the expected one. */
  function SetPhase(d: Disk, expected: Phase, next: Phase, env: WriteEnv): Attempt {
    if d.state.None? || d.state.value.phase != expected then Attempt([], Stopped) else Write(WithPhase(d, next), env)
  }

  // ---------------------------------------------------------------------------------------------------------
  // One identity.

  predicate IsIdentity(d: Disk, id: nat, secret: nat) {
    d.state.Some? && d.state.value.id == id && d.secret == Some(secret)
  }

  /** What was presented carries the id, nonces and secret that are on disk. */
  predicate Presented(d: Disk, e: Entry) {
    match e
    case Claimed(n) => d.claimNonce == Some(n)
    case Prepared(id, nonce, n, secret) => IsIdentity(d, id, secret) && d.state.value.deliveryNonce == nonce && d.claimNonce == Some(n)
    case Activated(id, nonce, secret) => IsIdentity(d, id, secret) && d.state.value.deliveryNonce == nonce
    case IdentityChecked(id, secret, _) => IsIdentity(d, id, secret)
  }

  ghost predicate Inv(d: Disk) {
    && (d.secret.Some? ==> d.state.Some?)
    && (d.state.Some? && !d.state.value.phase.SecretPending? ==> d.secret.Some?)
    && (forall i | 0 <= i < |d.history| :: Presented(d, d.history[i]))
    && (d.state.None? || d.state.value.phase.SecretPending? || d.state.value.phase.PrepareReady? || d.claimNonce.Some?)
    && (d.descriptor.Some? ==>
          && d.state.Some? && d.secret.Some? && d.state.value.phase.ActiveConfirmed? && d.descriptor.value == d.state.value.id
          && IdentityChecked(d.state.value.id, d.secret.value, true) in d.history)
  }

  /** What is on disk stays; phase and history only move forward. */
  ghost predicate Extends(d: Disk, s: Disk) {
    && (d.state.Some? ==>
          && s.state.Some? && s.state.value.(phase := d.state.value.phase) == d.state.value
          && Rank(d.state.value.phase) <= Rank(s.state.value.phase))
    && (d.secret.Some? ==> s.secret == d.secret) && (d.claimNonce.Some? ==> s.claimNonce == d.claimNonce)
    && d.history <= s.history
  }

  ghost predicate Good(d: Disk, a: Attempt) {
    && (forall s | s in a.states :: Inv(s) && Extends(d, s))
    && Inv(Last(d, a.states)) && Extends(d, Last(d, a.states))
    && !a.outcome.Orphaned? && !a.outcome.SecretMissing?
  }

  lemma ThenGood(d: Disk, first: Attempt, next: Disk -> Attempt)
    requires Good(d, first)
    requires first.outcome.Ready? ==> Good(Last(d, first.states), next(Last(d, first.states)))
    ensures Good(d, Then(d, first, next))
  {
    if first.outcome.Ready? {
      var e := Last(d, first.states);
      var second := next(e);
      assert Last(d, first.states + second.states) == Last(e, second.states);
    }
  }

  /** A step that is good and, when it is done, has reached a phase. */
  ghost predicate Reaching(d: Disk, a: Attempt, rank: nat) {
    Good(d, a) && (a.outcome.Ready? ==> HasReached(Last(d, a.states), rank))
  }

  predicate HasReached(d: Disk, rank: nat) {
    d.state.Some? && d.secret.Some? && rank <= Rank(d.state.value.phase) && (rank >= 2 ==> d.claimNonce.Some?)
  }

  lemma EnsureStateGood(d: Disk, env: Env)
    requires Inv(d)
    ensures Good(d, EnsureState(d, env)) && (EnsureState(d, env).outcome.Ready? ==> Last(d, EnsureState(d, env).states).state.Some?)
  {
  }

  lemma PhaseWriteGood(d: Disk, p: Phase, env: WriteEnv)
    requires Inv(d) && d.state.Some? && d.secret.Some? && Rank(d.state.value.phase) <= Rank(p)
    requires Rank(p) >= 2 ==> d.claimNonce.Some?
    ensures Reaching(d, Write(WithPhase(d, p), env), Rank(p))
  {
  }

  lemma EnsureSecretGood(d: Disk, env: Env)
    requires Inv(d) && d.state.Some?
    ensures Reaching(d, EnsureSecret(d, env), 1)
  {
    if d.state.value.phase.SecretPending? {
      var secret := if d.secret.Some? then Attempt([], Ready) else Write(d.(secret := Some(env.freshSecret)), env.secretWrite);
      var e := Last(d, secret.states);
      if secret.outcome.Ready? {
        PhaseWriteGood(e, PrepareReady, env.phaseWrite);
      }
      ThenGood(d, secret, e => Write(WithPhase(e, PrepareReady), env.phaseWrite));
    }
  }

  lemma EnsureGood(d: Disk, env: Env)
    requires Inv(d)
    ensures Reaching(d, Ensure(d, env), 1)
  {
    EnsureStateGood(d, env);
    var first := EnsureState(d, env);
    if first.outcome.Ready? {
      EnsureSecretGood(Last(d, first.states), env);
    }
    ThenGood(d, first, e => EnsureSecret(e, env));
  }

  lemma NoteGood(d: Disk, e: Entry)
    requires Inv(d) && Presented(d, e)
    ensures Inv(Note(d, e)) && Extends(d, Note(d, e)) && Extends(Note(d, e), Note(d, e))
  {
  }

  lemma ClaimAndPrepareGood(d: Disk, env: Env)
    requires Inv(d) && HasReached(d, 1) && d.claimNonce.Some?
    ensures Reaching(d, ClaimAndPrepare(d, env), 2)
  {
    if d.state.value.phase.PrepareReady? {
      var claimed := Note(d, Claimed(d.claimNonce.value));
      NoteGood(d, Claimed(d.claimNonce.value));
      NoteGood(claimed, Prepared(d.state.value.id, d.state.value.deliveryNonce, d.claimNonce.value, d.secret.value));
      var prepared := Note(claimed, Prepared(d.state.value.id, d.state.value.deliveryNonce, d.claimNonce.value, d.secret.value));
      PhaseWriteGood(prepared, ActivateReady, env.prepareWrite);
      ThenGood(d, Attempt([claimed, prepared], Ready), e => Write(WithPhase(e, ActivateReady), env.prepareWrite));
    }
  }

  lemma ActivateGood(d: Disk, env: Env)
    requires Inv(d) && HasReached(d, 2)
    ensures Reaching(d, Activate(d, env), 3)
  {
    if d.state.value.phase.ActivateReady? {
      var sent := Note(d, Activated(d.state.value.id, d.state.value.deliveryNonce, d.secret.value));
      var asked := Note(sent, IdentityChecked(d.state.value.id, d.secret.value, env.identityThen));
      NoteGood(d, Activated(d.state.value.id, d.state.value.deliveryNonce, d.secret.value));
      NoteGood(sent, IdentityChecked(d.state.value.id, d.secret.value, env.identityThen));
      PhaseWriteGood(sent, ActiveConfirmed, env.activateWrite);
      PhaseWriteGood(asked, ActiveConfirmed, env.activateWrite);
      ThenGood(d, Attempt([sent], Ready), e => Write(WithPhase(e, ActiveConfirmed), env.activateWrite));
      ThenGood(d, Attempt([sent, asked], Ready), e => Write(WithPhase(e, ActiveConfirmed), env.activateWrite));
    }
  }

  lemma CommitDescriptorGood(d: Disk, env: Env)
    requires Inv(d) && HasReached(d, 3)
    ensures Good(d, CommitDescriptor(d, env))
  {
    NoteGood(d, IdentityChecked(d.state.value.id, d.secret.value, env.identityNow));
  }

  lemma FinishGood(d: Disk, env: Env)
    requires Inv(d) && HasReached(d, 2)
    ensures Good(d, Finish(d, env))
  {
    ActivateGood(d, env);
    if Activate(d, env).outcome.Ready? {
      CommitDescriptorGood(Last(d, Activate(d, env).states), env);
    }
    ThenGood(d, Activate(d, env), e => CommitDescriptor(e, env));
  }

  lemma AuthorizeGood(d: Disk, env: Env)
    requires Inv(d) && HasReached(d, 1) && d.claimNonce.Some?
    ensures Good(d, Authorize(d, env))
  {
    ClaimAndPrepareGood(d, env);
    if ClaimAndPrepare(d, env).outcome.Ready? {
      FinishGood(Last(d, ClaimAndPrepare(d, env).states), env);
    }
    ThenGood(d, ClaimAndPrepare(d, env), e => Finish(e, env));
  }

  lemma PresentGood(d: Disk, env: Env)
    requires Inv(d) && HasReached(d, 1)
    ensures Good(d, Present(d, env))
  {
    if EnsureNonce(d, env).outcome.Ready? {
      AuthorizeGood(Last(d, EnsureNonce(d, env).states), env);
    }
    ThenGood(d, EnsureNonce(d, env), e => Authorize(e, env));
  }

  /** Every state of a run keeps the invariant and extends what was there; neither consistency error is reached. */
  lemma RunGood(d: Disk, env: Env)
    requires Inv(d)
    ensures Good(d, Run(d, env))
  {
    EnsureGood(d, env);
    if Ensure(d, env).outcome.Ready? {
      PresentGood(Last(d, Ensure(d, env).states), env);
    }
    ThenGood(d, Ensure(d, env), e => Present(e, env));
  }

  // ---------------------------------------------------------------------------------------------------------
  // Any number of runs, each stopped anywhere.

  const NOTHING := Disk(None, None, None, None, [])

  datatype Visit = Visit(env: Env, left: Disk)

  ghost predicate Reaches(d: Disk, visits: seq<Visit>, e: Disk)
    decreases |visits|
  {
    if visits == [] then e == d
    else (visits[0].left == d || visits[0].left in Run(d, visits[0].env).states) && Reaches(visits[0].left, visits[1..], e)
  }

  ghost predicate Reachable(d: Disk) {
    exists visits :: Reaches(NOTHING, visits, d)
  }

  lemma ExtendsTrans(a: Disk, b: Disk, c: Disk)
    requires Extends(a, b) && Extends(b, c)
    ensures Extends(a, c)
  {
  }

  lemma {:induction false} VisitsKeepInv(d: Disk, visits: seq<Visit>, e: Disk)
    requires Inv(d) && Reaches(d, visits, e)
    ensures Inv(e) && Extends(d, e)
    decreases |visits|
  {
    if visits != [] {
      RunGood(d, visits[0].env);
      VisitsKeepInv(visits[0].left, visits[1..], e);
      ExtendsTrans(d, visits[0].left, e);
    }
  }

  lemma ReachableInv(d: Disk)
    requires Reachable(d)
    ensures Inv(d)
  {
    var visits :| Reaches(NOTHING, visits, d);
    VisitsKeepInv(NOTHING, visits, d);
  }

  /** From a crash in any durable step, running again never ends in an orphaned or a missing secret. */
  lemma RerunIsNeverStuck(d: Disk, env: Env)
    requires Reachable(d)
    ensures !Run(d, env).outcome.Orphaned? && !Run(d, env).outcome.SecretMissing?
  {
    ReachableInv(d);
    RunGood(d, env);
  }

  /** All that was ever presented, over all runs, carries one id, one secret and one nonce of each kind. */
  lemma OneIdentity(d: Disk, i: nat, j: nat)
    requires Reachable(d) && i < |d.history| && j < |d.history|
    ensures var a, b := d.history[i], d.history[j];
            && (!a.Claimed? && !b.Claimed? ==> a.id == b.id && a.secret == b.secret)
            && ((a.Claimed? || a.Prepared?) && (b.Claimed? || b.Prepared?) ==> a.claimNonce == b.claimNonce)
            && ((a.Prepared? || a.Activated?) && (b.Prepared? || b.Activated?) ==> a.deliveryNonce == b.deliveryNonce)
  {
    ReachableInv(d);
    assert Presented(d, d.history[i]) && Presented(d, d.history[j]);
  }

  /** Over all runs the phase only advances, and identity, secret and nonces stay what they were first. */
  lemma PhaseOnlyAdvances(d: Disk, visits: seq<Visit>, e: Disk)
    requires Reachable(d) && Reaches(d, visits, e)
    ensures Extends(d, e)
  {
    ReachableInv(d);
    VisitsKeepInv(d, visits, e);
  }

  /** A runtime descriptor exists only for the confirmed credential, after its identity check has passed. */
  lemma DescriptorFollowsIdentityCheck(d: Disk)
    requires Reachable(d) && d.descriptor.Some?
    ensures d.state.Some? && d.secret.Some? && d.state.value.phase.ActiveConfirmed? && d.descriptor == Some(d.state.value.id)
    ensures IdentityChecked(d.state.value.id, d.secret.value, true) in d.history
  {
    ReachableInv(d);
  }

  predicate Cooperates(env: Env) {
    && env.stateWrite.Replaced? && env.secretWrite.Replaced? && env.phaseWrite.Replaced? && env.nonceWrite.Replaced?
    && env.claimAccepted && env.prepareAccepted && env.prepareWrite.Replaced?
    && (env.activateAccepted || env.identityThen) && env.activateWrite.Replaced?
    && env.identityNow && env.descriptorWrite.Replaced? && env.completed
  }

  predicate Completes(d: Disk, a: Attempt) {
    a.outcome.Ready? && Last(d, a.states).descriptor.Some?
  }

  lemma FinishCompletes(d: Disk, env: Env)
    requires Inv(d) && HasReached(d, 2) && Cooperates(env)
    ensures Completes(d, Finish(d, env))
  {
    ActivateGood(d, env);
    ThenCompletes(d, Activate(d, env), e => CommitDescriptor(e, env));
  }

  lemma AuthorizeCompletes(d: Disk, env: Env)
    requires Inv(d) && HasReached(d, 1) && d.claimNonce.Some? && Cooperates(env)
    ensures Completes(d, Authorize(d, env))
  {
    ClaimAndPrepareGood(d, env);
    FinishCompletes(Last(d, ClaimAndPrepare(d, env).states), env);
    ThenCompletes(d, ClaimAndPrepare(d, env), e => Finish(e, env));
  }

  lemma PresentCompletes(d: Disk, env: Env)
    requires Inv(d) && HasReached(d, 1) && Cooperates(env)
    ensures Completes(d, Present(d, env))
  {
    AuthorizeCompletes(Last(d, EnsureNonce(d, env).states), env);
    ThenCompletes(d, EnsureNonce(d, env), e => Authorize(e, env));
  }

  /** Whatever was interrupted before, one run with a cooperating Panel and disk completes the bootstrap. */
  lemma RerunCompletes(d: Disk, env: Env)
    requires Reachable(d) && Cooperates(env)
    ensures Completes(d, Run(d, env))
  {
    ReachableInv(d);
    RunCompletes(d, env);
  }

  lemma RunCompletes(d: Disk, env: Env)
    requires Inv(d) && Cooperates(env)
    ensures Completes(d, Run(d, env))
  {
    EnsureGood(d, env);
    EnsureCompletes(d, env);
    PresentCompletes(Last(d, Ensure(d, env).states), env);
    ThenCompletes(d, Ensure(d, env), e => Present(e, env));
  }

  lemma EnsureCompletes(d: Disk, env: Env)
    requires Inv(d) && Cooperates(env)
    ensures Ensure(d, env).outcome.Ready?
  {
  }

  lemma ThenCompletes(d: Disk, first: Attempt, next: Disk -> Attempt)
    requires first.outcome.Ready?
    ensures var e := Last(d, first.states);
            Then(d, first, next).outcome == next(e).outcome && Last(d, Then(d, first, next).states) == Last(e, next(e).states)
  {
    var e := Last(d, first.states);
    assert Last(d, first.states + next(e).states) == Last(e, next(e).states);
  }

  // ---------------------------------------------------------------------------------------------------------
  // When exactly a run succeeds, and what it leaves and has sent then.

  function IdOf(d: Disk, env: Env): nat {
    if d.state.Some? then d.state.value.id else env.freshId
  }

  function DeliveryNonceOf(d: Disk, env: Env): nat {
    if d.state.Some? then d.state.value.deliveryNonce else env.freshNonce
  }

  /** No later phase than this one has been reached. */
  predicate NotBeyond(d: Disk, p: Phase) {
    d.state.None? || Rank(d.state.value.phase) <= Rank(p)
  }

  /** The writes that the local state still needs. */
  predicate Prepares(d: Disk, env: Env) {
    && (d.state.None? ==> env.stateWrite.Replaced?)
    && (NotBeyond(d, SecretPending) ==> (d.secret.None? ==> env.secretWrite.Replaced?) && env.phaseWrite.Replaced?)
  }

  predicate Claims(d: Disk, env: Env) {
    NotBeyond(d, PrepareReady) ==> env.claimAccepted && env.prepareAccepted && env.prepareWrite.Replaced?
  }

  /** The Panel accepts the activation, or says afterwards that the credential is the active one. */
  predicate Activates(d: Disk, env: Env) {
    NotBeyond(d, ActivateReady) ==> (env.activateAccepted || env.identityThen) && env.activateWrite.Replaced?
  }

  predicate Commits(env: Env) {
    env.identityNow && env.descriptorWrite.Replaced? && env.completed
  }

  /** Everything that involves the Panel works. */
  predicate Presents(d: Disk, env: Env) {
    (d.claimNonce.None? ==> env.nonceWrite.Replaced?) && Claims(d, env) && Activates(d, env) && Commits(env)
  }

  predicate RunSucceeds(d: Disk, env: Env) {
    Prepares(d, env) && Presents(d, env)
  }

  /** The requests of a successful run, in order: only those whose phase is not behind yet, then the final identity check. */
  function Requests(d: Disk, env: Env): seq<Entry> {
    var id, nonce, claim, secret := IdOf(d, env), DeliveryNonceOf(d, env), d.claimNonce.GetOr(env.freshClaimNonce), d.secret.GetOr(env.freshSecret);
    (if NotBeyond(d, PrepareReady) then [Claimed(claim), Prepared(id, nonce, claim, secret)] else []) +
    (if !NotBeyond(d, ActivateReady) then []
     else if env.activateAccepted then [Activated(id, nonce, secret)]
     else [Activated(id, nonce, secret), IdentityChecked(id, secret, true)]) +
    [IdentityChecked(id, secret, true)]
  }

  /** What a successful run leaves. */
  function Completed(d: Disk, env: Env): Disk {
    Disk(Some(Saved(IdOf(d, env), DeliveryNonceOf(d, env), ActiveConfirmed)), Some(d.secret.GetOr(env.freshSecret)),
         Some(d.claimNonce.GetOr(env.freshClaimNonce)), Some(IdOf(d, env)), d.history + Requests(d, env))
  }

  /** The two consistency errors, exactly. */
  lemma EnsureErrorsIff(d: Disk, env: Env)
    ensures Ensure(d, env).outcome.Orphaned? <==> d.state.None? && d.secret.Some?
    ensures Ensure(d, env).outcome.SecretMissing? <==> d.state.Some? && !d.state.value.phase.SecretPending? && d.secret.None?
  {
  }

  function AfterEnsure(d: Disk, env: Env): Disk {
    d.(secret := Some(d.secret.GetOr(env.freshSecret)),
       state := Some(Saved(IdOf(d, env), DeliveryNonceOf(d, env), if NotBeyond(d, SecretPending) then PrepareReady else d.state.value.phase)))
  }

  function AfterClaim(d: Disk): Disk
    requires Complete(d)
  {
    if !d.state.value.phase.PrepareReady? then d
    else
      var s := d.state.value;
      WithPhase(d.(history := d.history + [Claimed(d.claimNonce.value), Prepared(s.id, s.deliveryNonce, d.claimNonce.value, d.secret.value)]),
                ActivateReady)
  }

  function AfterActivate(d: Disk, env: Env): Disk
    requires Complete(d)
  {
    if !d.state.value.phase.ActivateReady? then d
    else
      var s := d.state.value;
      var asked := if env.activateAccepted then [] else [IdentityChecked(s.id, d.secret.value, true)];
      WithPhase(d.(history := d.history + ([Activated(s.id, s.deliveryNonce, d.secret.value)] + asked)), ActiveConfirmed)
  }

  function AfterCommit(d: Disk): Disk
    requires Complete(d)
  {
    Note(d, IdentityChecked(d.state.value.id, d.secret.value, true)).(descriptor := Some(d.state.value.id))
  }

  /** Two steps succeed exactly if both do, the second from where the first left off. */
  lemma ThenIs(d: Disk, first: Attempt, next: Disk -> Attempt, ok: bool, mid: Disk, done: bool, end: Disk)
    requires (first.outcome.Ready? <==> ok) && (ok ==> Last(d, first.states) == mid)
    requires ok ==> (next(mid).outcome.Ready? <==> done) && (done ==> Last(mid, next(mid).states) == end)
    ensures Then(d, first, next).outcome.Ready? <==> ok && done
    ensures ok && done ==> Last(d, Then(d, first, next).states) == end
  {
    if ok {
      ThenCompletes(d, first, next);
    }
  }

  lemma EnsureExact(d: Disk, env: Env)
    requires Inv(d)
    ensures Ensure(d, env).outcome.Ready? <==> Prepares(d, env)
    ensures Ensure(d, env).outcome.Ready? ==> Last(d, Ensure(d, env).states) == AfterEnsure(d, env)
  {
    var first := EnsureState(d, env);
    if first.outcome.Ready? {
      var e := Last(d, first.states);
      EnsureSecretExact(e, env);
      ThenCompletes(d, first, e => EnsureSecret(e, env));
    }
  }

  lemma EnsureSecretExact(d: Disk, env: Env)
    requires d.state.Some? && (!d.state.value.phase.SecretPending? ==> d.secret.Some?)
    ensures EnsureSecret(d, env).outcome.Ready? <==>
            (d.state.value.phase.SecretPending? ==> (d.secret.None? ==> env.secretWrite.Replaced?) && env.phaseWrite.Replaced?)
    ensures EnsureSecret(d, env).outcome.Ready? ==> Last(d, EnsureSecret(d, env).states) == AfterEnsure(d, env)
  {
  }

  lemma ClaimExact(d: Disk, env: Env)
    requires Complete(d)
    ensures ClaimAndPrepare(d, env).outcome.Ready? <==>
            (d.state.value.phase.PrepareReady? ==> env.claimAccepted && env.prepareAccepted && env.prepareWrite.Replaced?)
    ensures ClaimAndPrepare(d, env).outcome.Ready? ==> Last(d, ClaimAndPrepare(d, env).states) == AfterClaim(d)
  {
    if d.state.value.phase.PrepareReady? {
      var x, y := Claimed(d.claimNonce.value), Prepared(d.state.value.id, d.state.value.deliveryNonce, d.claimNonce.value, d.secret.value);
      assert d.history + [x] + [y] == d.history + [x, y];
    }
  }

  lemma ActivateExact(d: Disk, env: Env)
    requires Complete(d)
    ensures Activate(d, env).outcome.Ready? <==>
            (d.state.value.phase.ActivateReady? ==> (env.activateAccepted || env.identityThen) && env.activateWrite.Replaced?)
    ensures Activate(d, env).outcome.Ready? ==> Last(d, Activate(d, env).states) == AfterActivate(d, env)
  {
    if d.state.value.phase.ActivateReady? {
      var x, y := Activated(d.state.value.id, d.state.value.deliveryNonce, d.secret.value), IdentityChecked(d.state.value.id, d.secret.value, true);
      assert d.history + [x] + [y] == d.history + ([x] + [y]) && [x] + [] == [x];
    }
  }

  lemma CommitExact(d: Disk, env: Env)
    requires Complete(d)
    ensures CommitDescriptor(d, env).outcome.Ready? <==> Commits(env)
    ensures CommitDescriptor(d, env).outcome.Ready? ==> Last(d, CommitDescriptor(d, env).states) == AfterCommit(d)
  {
  }

  lemma FinishExact(d: Disk, env: Env)
    requires Complete(d) && Rank(d.state.value.phase) >= 2
    ensures Finish(d, env).outcome.Ready? <==> Activates(d, env) && Commits(env)
    ensures Finish(d, env).outcome.Ready? ==> Last(d, Finish(d, env).states) == AfterCommit(AfterActivate(d, env))
  {
    ActivateExact(d, env);
    if Activate(d, env).outcome.Ready? {
      CommitExact(AfterActivate(d, env), env);
      ThenCompletes(d, Activate(d, env), e => CommitDescriptor(e, env));
    }
  }

  lemma AuthorizeExact(d: Disk, env: Env)
    requires Complete(d) && Rank(d.state.value.phase) >= 1
    ensures Authorize(d, env).outcome.Ready? <==> Claims(d, env) && Activates(d, env) && Commits(env)
    ensures Authorize(d, env).outcome.Ready? ==> Last(d, Authorize(d, env).states) == AfterCommit(AfterActivate(AfterClaim(d), env))
  {
    ClaimExact(d, env);
    if ClaimAndPrepare(d, env).outcome.Ready? {
      FinishExact(AfterClaim(d), env);
      ThenCompletes(d, ClaimAndPrepare(d, env), e => Finish(e, env));
    }
  }

  lemma PresentExact(d: Disk, env: Env)
    requires d.state.Some? && d.secret.Some? && Rank(d.state.value.phase) >= 1
    ensures Present(d, env).outcome.Ready? <==> Presents(d, env)
    ensures Present(d, env).outcome.Ready? ==>
              Last(d, Present(d, env).states) ==
                AfterCommit(AfterActivate(AfterClaim(d.(claimNonce := Some(d.claimNonce.GetOr(env.freshClaimNonce)))), env))
  {
    var mid := d.(claimNonce := Some(d.claimNonce.GetOr(env.freshClaimNonce)));
    NonceExact(d, env);
    AuthorizeExact(mid, env);
    ThenIs(d, EnsureNonce(d, env), e => Authorize(e, env), d.claimNonce.None? ==> env.nonceWrite.Replaced?, mid,
           Claims(d, env) && Activates(d, env) && Commits(env), AfterCommit(AfterActivate(AfterClaim(mid), env)));
  }

  lemma NonceExact(d: Disk, env: Env)
    ensures EnsureNonce(d, env).outcome.Ready? <==> (d.claimNonce.None? ==> env.nonceWrite.Replaced?)
    ensures EnsureNonce(d, env).outcome.Ready? ==>
              Last(d, EnsureNonce(d, env).states) == d.(claimNonce := Some(d.claimNonce.GetOr(env.freshClaimNonce)))
  {
  }

  /** The stages together: the requests they add are those of `Requests`. */
  lemma StagesComplete(d: Disk, env: Env)
    requires Inv(d)
    ensures var e := AfterEnsure(d, env).(claimNonce := Some(d.claimNonce.GetOr(env.freshClaimNonce)));
            AfterCommit(AfterActivate(AfterClaim(e), env)) == Completed(d, env)
  {
    var e := AfterEnsure(d, env).(claimNonce := Some(d.claimNonce.GetOr(env.freshClaimNonce)));
    var c := AfterClaim(e);
    var a := AfterActivate(c, env);
    var id, nonce, claim, secret := IdOf(d, env), DeliveryNonceOf(d, env), d.claimNonce.GetOr(env.freshClaimNonce), d.secret.GetOr(env.freshSecret);
    var first := if NotBeyond(d, PrepareReady) then [Claimed(claim), Prepared(id, nonce, claim, secret)] else [];
    var second :=
      if !NotBeyond(d, ActivateReady) then []
      else if env.activateAccepted then [Activated(id, nonce, secret)]
      else [Activated(id, nonce, secret), IdentityChecked(id, secret, true)];
    assert c.history == d.history + first;
    assert a.history == c.history + second;
    Regroup(d.history, first, second, [IdentityChecked(id, secret, true)]);
  }

  /** The local state leaves open what it left open before. */
  lemma PresentsAlike(d: Disk, env: Env)
    ensures Presents(AfterEnsure(d, env), env) <==> Presents(d, env)
  {
  }

  /** A run succeeds exactly if each step that is not done yet works, sends exactly the requests it still needs, and leaves exactly this. */
  lemma RunIsExact(d: Disk, env: Env)
    requires Inv(d)
    ensures Run(d, env).outcome.Ready? <==> RunSucceeds(d, env)
    ensures Run(d, env).outcome.Ready? ==> Last(d, Run(d, env).states) == Completed(d, env)
  {
    var mid := AfterEnsure(d, env);
    EnsureExact(d, env);
    PresentExact(mid, env);
    PresentsAlike(d, env);
    StagesComplete(d, env);
    ThenIs(d, Ensure(d, env), e => Present(e, env), Prepares(d, env), mid,
           Presents(d, env), Completed(d, env));
  }

  // ---------------------------------------------------------------------------------------------------------
  // The helper's phase change on its own.

  /** The helper checks where it comes from, not where it goes: it advances exactly if it is asked to. */
  lemma SetPhaseAdvancesIffAsked(d: Disk, expected: Phase, next: Phase)
    requires d.state.Some? && d.state.value.phase == expected
    ensures var s := Last(d, SetPhase(d, expected, next, Replaced).states);
            && SetPhase(d, expected, next, Replaced).outcome.Ready?
            && (Rank(s.state.value.phase) > Rank(d.state.value.phase) <==> Rank(next) > Rank(expected))
  {
  }

  /** Asked for an earlier phase, it goes back. */
  lemma SetPhaseCanGoBack(d: Disk)
    requires d.state.Some? && d.state.value.phase.ActiveConfirmed?
    ensures Last(d, SetPhase(d, ActiveConfirmed, PrepareReady, Replaced).states).state.value.phase.PrepareReady?
  {
  }

  /** The two changes the bootstrap script asks for advance and keep the invariant. */
  lemma ScriptedChangesAdvance(d: Disk, expected: Phase, next: Phase, env: WriteEnv)
    requires Inv(d) && d.claimNonce.Some?
    requires (expected.PrepareReady? && next.ActivateReady?) || (expected.ActivateReady? && next.ActiveConfirmed?)
    ensures Good(d, SetPhase(d, expected, next, env))
  {
    if d.state.Some? && d.state.value.phase == expected {
      PhaseWriteGood(d, next, env);
    }
  }

  // ---------------------------------------------------------------------------------------------------------
  // The bootstrap as it changes its files.

  class Bootstrap {
    var state: Option<Saved>
    var secret: Option<nat>
    var claimNonce: Option<nat>
    var descriptor: Option<nat>
    ghost var history: seq<Entry>
    ghost var passed: seq<Disk>

    ghost function Now(): Disk
      reads this
    {
      Disk(state, secret, claimNonce, descriptor, history)
    }

    constructor ()
      ensures Now() == NOTHING && passed == []
    {
      state, secret, claimNonce, descriptor := None, None, None, None;
      history, passed := [], [];
    }

    ghost method Passes()
      modifies this`passed
      ensures passed == old(passed) + [Now()]
    {
      passed := passed + [Now()];
    }

    ghost method Happens(e: Entry)
      modifies this`history, this`passed
      ensures Now() == Note(old(Now()), e) && passed == old(passed) + [Now()]
    {
      history := history + [e];
      passed := passed + [Now()];
    }

    method SaveState(s: Saved, env: WriteEnv) returns (o: Outcome)
      modifies this`state, this`passed
      ensures var a := Write(old(Now()).(state := Some(s)), env); o == a.outcome && Went(a, old(Now()), old(passed), this)
    {
      if !env.NotReplaced? {
        state := Some(s);
        Passes();
      }
      o := if env.Replaced? then Ready else Stopped;
    }

    method EnsureStateFile(env: Env) returns (o: Outcome)
      modifies this`state, this`passed
      ensures var a := EnsureState(old(Now()), env); o == a.outcome && Went(a, old(Now()), old(passed), this)
    {
      if state.Some? {
        return Ready;
      }
      if secret.Some? {
        return Orphaned;
      }
      o := SaveState(Saved(env.freshId, env.freshNonce, SecretPending), env.stateWrite);
    }

    method EnsureSecretFile(env: Env) returns (o: Outcome)
      modifies this`state, this`secret, this`passed
      ensures var a := EnsureSecret(old(Now()), env); o == a.outcome && Went(a, old(Now()), old(passed), this)
    {
      if state.None? {
        return Stopped;
      }
      if !state.value.phase.SecretPending? {
        return if secret.Some? then Ready else SecretMissing;
      }
      if secret.None? {
        if !env.secretWrite.NotReplaced? {
          secret := Some(env.freshSecret);
          Passes();
        }
        if !env.secretWrite.Replaced? {
          return Stopped;
        }
      }
      o := SaveState(state.value.(phase := PrepareReady), env.phaseWrite);
    }

    method EnsureLocalState(env: Env) returns (o: Outcome)
      modifies this`state, this`secret, this`passed
      ensures var a := Ensure(old(Now()), env); o == a.outcome && Went(a, old(Now()), old(passed), this)
    {
      ghost var d, before := Now(), passed;
      o := EnsureStateFile(env);
      if o.Ready? {
        ghost var e := Now();
        o := EnsureSecretFile(env);
        Chain(d, before, EnsureState(d, env).states, EnsureSecret(e, env).states);
      }
    }

    method EnsureClaimNonce(env: Env) returns (o: Outcome)
      modifies this`claimNonce, this`passed
      ensures var a := EnsureNonce(old(Now()), env); o == a.outcome && Went(a, old(Now()), old(passed), this)
    {
      if claimNonce.Some? {
        return Ready;
      }
      if !env.nonceWrite.NotReplaced? {
        claimNonce := Some(env.freshClaimNonce);
        Passes();
      }
      o := if env.nonceWrite.Replaced? then Ready else Stopped;
    }

    method SendClaimAndPrepare(env: Env) returns (o: Outcome)
      modifies this`state, this`history, this`passed
      ensures var a := ClaimAndPrepare(old(Now()), env); o == a.outcome && Went(a, old(Now()), old(passed), this)
    {
      if state.None? || secret.None? || claimNonce.None? || !state.value.phase.PrepareReady? {
        return Ready;
      }
      Happens(Claimed(claimNonce.value));
      if !env.claimAccepted {
        return Stopped;
      }
      Happens(Prepared(state.value.id, state.value.deliveryNonce, claimNonce.value, secret.value));
      if !env.prepareAccepted {
        return Stopped;
      }
      o := SaveState(state.value.(phase := ActivateReady), env.prepareWrite);
    }

    method SendActivate(env: Env) returns (o: Outcome)
      modifies this`state, this`history, this`passed
      ensures var a := Activate(old(Now()), env); o == a.outcome && Went(a, old(Now()), old(passed), this)
    {
      if state.None? || secret.None? || claimNonce.None? || !state.value.phase.ActivateReady? {
        return Ready;
      }
      Happens(Activated(state.value.id, state.value.deliveryNonce, secret.value));
      if !env.activateAccepted {
        Happens(IdentityChecked(state.value.id, secret.value, env.identityThen));
        if !env.identityThen {
          return Stopped;
        }
      }
      o := SaveState(state.value.(phase := ActiveConfirmed), env.activateWrite);
    }

    method PersistDescriptor(env: Env) returns (o: Outcome)
      modifies this`descriptor, this`history, this`passed
      ensures var a := CommitDescriptor(old(Now()), env); o == a.outcome && Went(a, old(Now()), old(passed), this)
    {
      o := Stopped;
      if state.Some? && secret.Some? && claimNonce.Some? {
        Happens(IdentityChecked(state.value.id, secret.value, env.identityNow));
        if env.identityNow {
          if !env.descriptorWrite.NotReplaced? {
            descriptor := Some(state.value.id);
            Passes();
          }
          o := if env.descriptorWrite.Replaced? && env.completed then Ready else Stopped;
        }
      }
    }

    method FinishRun(env: Env) returns (o: Outcome)
      modifies this
      ensures var a := Finish(old(Now()), env); o == a.outcome && Went(a, old(Now()), old(passed), this)
    {
      ghost var d, before := Now(), passed;
      o := SendActivate(env);
      if o.Ready? {
        ghost var e := Now();
        o := PersistDescriptor(env);
        Chain(d, before, Activate(d, env).states, CommitDescriptor(e, env).states);
      }
    }

    method AuthorizeRun(env: Env) returns (o: Outcome)
      modifies this
      ensures var a := Authorize(old(Now()), env); o == a.outcome && Went(a, old(Now()), old(passed), this)
    {
      ghost var d, before := Now(), passed;
      o := SendClaimAndPrepare(env);
      if o.Ready? {
        ghost var e := Now();
        o := FinishRun(env);
        Chain(d, before, ClaimAndPrepare(d, env).states, Finish(e, env).states);
      }
    }

    method PresentRun(env: Env) returns (o: Outcome)
      modifies this
      ensures var a := Present(old(Now()), env); o == a.outcome && Went(a, old(Now()), old(passed), this)
    {
      ghost var d, before := Now(), passed;
      o := EnsureClaimNonce(env);
      if o.Ready? {
        ghost var e := Now();
        o := AuthorizeRun(env);
        Chain(d, before, EnsureNonce(d, env).states, Authorize(e, env).states);
      }
    }

    /** The run, file by file, passes through exactly the states of `Run`. */
    method RunSteps(env: Env) returns (o: Outcome)
      modifies this
      ensures var a := Run(old(Now()), env); o == a.outcome && Went(a, old(Now()), old(passed), this)
    {
      ghost var d, before := Now(), passed;
      o := EnsureLocalState(env);
      if o.Ready? {
        ghost var e := Now();
        o := PresentRun(env);
        Chain(d, before, Ensure(d, env).states, Present(e, env).states);
      }
    }

    /**
     One run of the bootstrap. Every state it passes through keeps the invariant and extends what was there, neither
     consistency error is reached, and with a cooperating Panel and disk the run completes.
     */
    method RunOnce(env: Env) returns (o: Outcome)
      modifies this
      ensures var a := Run(old(Now()), env); o == a.outcome && Went(a, old(Now()), old(passed), this)
      ensures Inv(old(Now())) ==> Good(old(Now()), Attempt(passed[|old(passed)|..], o))
      ensures Inv(old(Now())) ==> (o.Ready? <==> RunSucceeds(old(Now()), env)) && (o.Ready? ==> Now() == Completed(old(Now()), env))
    {
      ghost var d, before := Now(), passed;
      o := RunSteps(env);
      Split(before, Run(d, env).states);
      if Inv(d) {
        RunGood(d, env);
        RunIsExact(d, env);
      }
    }
  }

  ghost predicate Went(a: Attempt, d: Disk, before: seq<Disk>, b: Bootstrap)
    reads b
  {
    b.passed == before + a.states && b.Now() == Last(d, a.states)
  }
}
