/** The owned submissions of one owner run and the owner's termination, as one transition
    system. The claims of the owner's step, the lease registry, the claimed record, the seal
    of a step and the key of the owner's queues change in separate steps that interleave
    freely. */
module OwnedRuns {
  import opened Wrappers

  type QueueName = string

  type RunId = string

  type ClaimId = nat

  /** The owner's current step job outside a claim. */
  datatype Job = Queued | Held | Dead | Ended

  /** A transaction that claims the step: the version of the job it began at, and whether its
      claim id is in the lease registry. */
  datatype Attempt = Attempt(version: nat, registered: bool)

  /** The fence of a claim in one transaction: not begun, begun at a version of the job with
      the claimed record present or absent, or passed. */
  datatype Fence = NoTxn | Begun(version: nat, present: bool) | Passed(version: nat)

  /** The worker of a claim. A submission opens only while the step runs, and `Listed` holds
      the owner's queues that its termination read. */
  datatype Worker =
    | Delivered
    | Running
    | Sealed(fence: Fence)
    | Listed(queues: seq<QueueName>, fence: Fence)

  /** A submission in flight, which keeps the read guard of its step's seal. */
  datatype Submission = Submission(claim: ClaimId, queue: QueueName, run: RunId,
                                   read: Option<seq<QueueName>>, fence: Fence)

  datatype State = State(
    // The store: the step job, its version, the claim of its claimed record, the owner's
    // queues, the owned runs and the queues with a cancel job.
    job: Job,
    version: nat,
    record: Option<ClaimId>,
    queues: seq<QueueName>,
    owned: set<(QueueName, RunId)>,
    cancelJobs: set<QueueName>,
    // The process.
    registry: Option<ClaimId>,
    attempts: map<ClaimId, Attempt>,
    workers: map<ClaimId, Worker>,
    submissions: map<nat, Submission>,
    reconciling: Option<seq<QueueName>>,
    cancelling: Option<seq<QueueName>>)

  /** A claim of the step job, its end outside its worker and the removal of a registry entry. */
  datatype ClaimEvent =
    | ClaimBegin(c: ClaimId)
    | ClaimRegister(c: ClaimId)
    | ClaimCommit(c: ClaimId)
    | ClaimFail(c: ClaimId)
    | Expire(dead: bool)
    | Unregister

  /** The worker of the claim `c`. */
  datatype WorkerEvent = RunStep | Seal | ListQueues | SettleBegin | SettleFence | Continue | Terminate

  /** The owned submission `i`. */
  datatype SubmitEvent = Open(sub: Submission) | Read | Begin | PassFence | Commit | Drop

  /** A termination outside the worker: the reconciliation of a step that the queue
      dead-lettered, the cancel of a queued owner, and the sweep of the owner's queues. */
  datatype OuterEvent = ReconcileRead | ReconcileCommit | CancelRead | CancelCommit | Sweep

  datatype Event =
    | OnClaim(claim: ClaimEvent)
    | OnWorker(c: ClaimId, worker: WorkerEvent)
    | OnSubmit(i: nat, submit: SubmitEvent)
    | Outer(outer: OuterEvent)

  ghost function WorkerFence(w: Worker): Fence {
    if w.Sealed? || w.Listed? then w.fence else NoTxn
  }

  ghost predicate ClaimEnabled(s: State, e: ClaimEvent) {
    match e
    case ClaimBegin(c) => s.job == Queued && c !in s.attempts && c !in s.workers && s.registry != Some(c)
    case ClaimRegister(c) => c in s.attempts
    case ClaimCommit(c) => c in s.attempts && s.attempts[c] == Attempt(s.version, true)
    case ClaimFail(c) => c in s.attempts
    case Expire(_) => s.record.Some?
    case Unregister => s.registry.Some? && s.registry != s.record
  }

  ghost predicate WorkerEnabled(s: State, c: ClaimId, e: WorkerEvent) {
    c in s.workers &&
    var w := s.workers[c];
    match e
    case RunStep => w == Delivered
    // The write lock waits for every read guard of the step.
    case Seal => w == Running && NoSubmission(s, c)
    // A step whose run has a recorded cancel request is listed without a run.
    case ListQueues => w.Sealed? || w.Delivered?
    case SettleBegin => w.Sealed? || w.Listed?
    case SettleFence => (w.Sealed? || w.Listed?) && FencePasses(s, c, w.fence)
    case Continue => w.Sealed? && w.fence == Passed(s.version)
    case Terminate => w.Listed? && w.fence == Passed(s.version)
  }

  ghost predicate SubmitEnabled(s: State, i: nat, e: SubmitEvent) {
    if e.Open? then
      && i !in s.submissions && e.sub.read.None? && e.sub.fence == NoTxn
      && e.sub.claim in s.workers && s.workers[e.sub.claim] == Running
    else
      i in s.submissions &&
      var sub := s.submissions[i];
      match e
      case Begin => sub.read.Some?
      case PassFence => FencePasses(s, sub.claim, sub.fence)
      case Commit =>
        && sub.fence == Passed(s.version) && sub.read.Some?
        // A queue outside the list that was read is added under a compare of the key.
        && (sub.queue !in sub.read.value ==> sub.read.value == s.queues)
      case _ => true
  }

  ghost predicate OuterEnabled(s: State, e: OuterEvent) {
    match e
    case ReconcileRead => s.job == Dead
    case ReconcileCommit => s.job == Dead && s.reconciling.Some?
    case CancelRead => s.job != Ended
    case CancelCommit => s.job == Queued && s.cancelling.Some?
    case Sweep => s.job == Ended
  }

  ghost predicate Enabled(s: State, e: Event) {
    match e
    case OnClaim(claim) => ClaimEnabled(s, claim)
    case OnWorker(c, worker) => WorkerEnabled(s, c, worker)
    case OnSubmit(i, submit) => SubmitEnabled(s, i, submit)
    case Outer(outer) => OuterEnabled(s, outer)
  }

  /** The registry check and the snapshot read of `read_claim`. */
  ghost predicate FencePasses(s: State, c: ClaimId, f: Fence) {
    f.Begun? && f.present && s.registry == Some(c)
  }

  ghost predicate NoSubmission(s: State, c: ClaimId) {
    forall i :: i in s.submissions ==> s.submissions[i].claim != c
  }

  ghost function Elements(queues: seq<QueueName>): set<QueueName> {
    set q | q in queues
  }

  /** The commit of a termination that cancels the owned runs on `listed`. */
  ghost function Ending(s: State, listed: seq<QueueName>): State {
    s.(job := Ended, record := None, version := s.version + 1, cancelJobs := s.cancelJobs + Elements(listed))
  }

  ghost function WithFence(w: Worker, f: Fence): Worker
    requires w.Sealed? || w.Listed?
  {
    if w.Sealed? then Sealed(f) else Listed(w.queues, f)
  }

  ghost function ClaimApply(s: State, e: ClaimEvent): State
    requires ClaimEnabled(s, e)
  {
    match e
    case ClaimBegin(c) => s.(attempts := s.attempts[c := Attempt(s.version, false)])
    case ClaimRegister(c) =>
      s.(registry := Some(c), attempts := s.attempts[c := s.attempts[c].(registered := true)])
    case ClaimCommit(c) =>
      s.(job := Held, record := Some(c), version := s.version + 1,
         attempts := s.attempts - {c}, workers := s.workers[c := Delivered])
    case ClaimFail(c) => s.(attempts := s.attempts - {c})
    case Expire(dead) =>
      s.(job := if dead then Dead else Queued, record := None, version := s.version + 1)
    case Unregister => s.(registry := None)
  }

  ghost function WorkerApply(s: State, c: ClaimId, e: WorkerEvent): State
    requires WorkerEnabled(s, c, e)
  {
    var w := s.workers[c];
    match e
    case RunStep => s.(workers := s.workers[c := Running])
    case Seal => s.(workers := s.workers[c := Sealed(NoTxn)])
    case ListQueues => s.(workers := s.workers[c := Listed(s.queues, NoTxn)])
    case SettleBegin => s.(workers := s.workers[c := WithFence(w, Begun(s.version, s.record.Some?))])
    case SettleFence => s.(workers := s.workers[c := WithFence(w, Passed(w.fence.version))])
    case Continue => s.(job := Queued, record := None, version := s.version + 1)
    case Terminate => Ending(s, w.queues)
  }

  ghost function SubmitApply(s: State, i: nat, e: SubmitEvent): State
    requires SubmitEnabled(s, i, e)
  {
    match e
    case Open(sub) => s.(submissions := s.submissions[i := sub])
    case Read =>
      s.(submissions := s.submissions[i := s.submissions[i].(read := Some(s.queues), fence := NoTxn)])
    case Begin =>
      s.(submissions := s.submissions[i := s.submissions[i].(fence := Begun(s.version, s.record.Some?))])
    case PassFence =>
      s.(submissions := s.submissions[i := s.submissions[i].(fence := Passed(s.submissions[i].fence.version))])
    case Commit =>
      var sub := s.submissions[i];
      s.(owned := s.owned + {(sub.queue, sub.run)},
         queues := if sub.queue in sub.read.value then s.queues else sub.read.value + [sub.queue],
         submissions := s.submissions - {i})
    case Drop => s.(submissions := s.submissions - {i})
  }

  ghost function OuterApply(s: State, e: OuterEvent): State
    requires OuterEnabled(s, e)
  {
    match e
    case ReconcileRead => s.(reconciling := Some(s.queues))
    case ReconcileCommit => Ending(s, s.reconciling.value)
    case CancelRead => s.(cancelling := Some(s.queues))
    case CancelCommit => Ending(s, s.cancelling.value)
    case Sweep => s.(queues := [])
  }

  ghost function Apply(s: State, e: Event): State
    requires Enabled(s, e)
  {
    match e
    case OnClaim(claim) => ClaimApply(s, claim)
    case OnWorker(c, worker) => WorkerApply(s, c, worker)
    case OnSubmit(i, submit) => SubmitApply(s, i, submit)
    case Outer(outer) => OuterApply(s, outer)
  }

  /** A submitted owner, before its first claim. */
  const START := State(Queued, 0, None, [], {}, {}, None, map[], map[], map[], None, None)

  // ---- The invariant ----

  /** Every queue with an owned run has a cancel job once the owner has terminated. */
  ghost predicate Safe(s: State) {
    s.job == Ended ==> forall q, r :: (q, r) in s.owned ==> q in s.cancelJobs
  }

  ghost predicate IsListed(s: State, listed: seq<QueueName>) {
    forall q, r :: (q, r) in s.owned ==> q in listed
  }

  ghost predicate ListSound(s: State) {
    s.job != Ended ==>
      && IsListed(s, s.queues)
      && (forall q :: q in s.queues ==> exists r :: (q, r) in s.owned)
      && (forall i :: i in s.submissions && s.submissions[i].read.Some? ==>
            s.submissions[i].read.value <= s.queues)
      && (s.cancelling.Some? ==> s.cancelling.value <= s.queues)
      && (forall j, k :: 0 <= j < k < |s.queues| ==> s.queues[j] != s.queues[k])
      && s.cancelJobs == {}
  }

  ghost predicate FenceSound(s: State, c: ClaimId, f: Fence) {
    && (f.Begun? ==> f.version <= s.version && (f.version == s.version ==> f.present == s.record.Some?))
    && (f.Passed? ==> f.version <= s.version && (f.version == s.version ==> s.record == Some(c)))
  }

  /** A registered claim that was delivered is the claim of the record, when one is present. */
  ghost predicate RegistrySound(s: State) {
    && (s.registry.Some? && s.registry.value in s.workers && s.record.Some? ==> s.record == s.registry)
    && (forall c :: c in s.attempts ==> s.attempts[c].version <= s.version && c !in s.workers)
    && (forall c :: c in s.attempts && s.attempts[c].version == s.version ==> s.job == Queued)
    && (forall c :: c in s.attempts && s.attempts[c] == Attempt(s.version, true) ==>
          s.registry.Some? ==> s.registry.value !in s.workers)
  }

  ghost predicate WorkersSound(s: State) {
    && (s.record.Some? <==> s.job == Held)
    && (s.record.Some? ==> s.record.value in s.workers)
    && (forall c :: c in s.workers ==> FenceSound(s, c, WorkerFence(s.workers[c])))
    && (forall c :: c in s.workers && s.workers[c].Listed? && s.record == Some(c) ==>
          IsListed(s, s.workers[c].queues))
  }

  ghost predicate SubmissionsSound(s: State) {
    forall i :: i in s.submissions ==>
      && s.submissions[i].claim in s.workers
      && s.workers[s.submissions[i].claim] == Running
      && FenceSound(s, s.submissions[i].claim, s.submissions[i].fence)
  }

  ghost predicate Inv(s: State) {
    && Safe(s)
    && ListSound(s)
    && RegistrySound(s)
    && WorkersSound(s)
    && SubmissionsSound(s)
    && (s.reconciling.Some? ==> s.job == Ended || (s.job == Dead && IsListed(s, s.reconciling.value)))
  }

  /** Only the claim of the present record commits a submission, and only while its step runs. */
  lemma SubmitCommitIsLive(s: State, i: nat)
    requires Inv(s) && SubmitEnabled(s, i, Commit)
    ensures s.record == Some(s.submissions[i].claim) && s.job == Held
    ensures s.workers[s.submissions[i].claim] == Running
  {
  }

  /** No owned run commits after the owner has terminated. */
  lemma NoCommitAfterTermination(s: State, i: nat)
    requires Inv(s) && s.job == Ended
    ensures !Enabled(s, OnSubmit(i, Commit))
  {
    if SubmitEnabled(s, i, Commit) {
      SubmitCommitIsLive(s, i);
    }
  }

  lemma SubmitCommitKeepsInv(s: State, i: nat)
    requires Inv(s) && SubmitEnabled(s, i, Commit)
    ensures Inv(SubmitApply(s, i, Commit))
  {
    SubmitCommitIsLive(s, i);
    var sub := s.submissions[i];
    var t := SubmitApply(s, i, Commit);
    assert s.queues <= t.queues;
    assert sub.queue in t.queues;
    forall q | q in t.queues ensures exists r :: (q, r) in t.owned {
      if q in s.queues {
        var r :| (q, r) in s.owned;
        assert (q, r) in t.owned;
      } else {
        assert (q, sub.run) in t.owned;
      }
    }
  }

  lemma UpdateSubmissionKeepsInv(s: State, i: nat, sub: Submission)
    requires Inv(s) && sub.claim in s.workers && s.workers[sub.claim] == Running
    requires FenceSound(s, sub.claim, sub.fence)
    requires s.job != Ended && sub.read.Some? ==> sub.read.value <= s.queues
    ensures Inv(s.(submissions := s.submissions[i := sub]))
  {
  }

  lemma DropSubmissionKeepsInv(s: State, i: nat)
    requires Inv(s)
    ensures Inv(s.(submissions := s.submissions - {i}))
  {
  }

  lemma SubmitStepKeepsInv(s: State, i: nat, e: SubmitEvent)
    requires Inv(s) && SubmitEnabled(s, i, e)
    ensures Inv(SubmitApply(s, i, e))
  {
    match e
    case Open(sub) => UpdateSubmissionKeepsInv(s, i, sub);
    case Commit => SubmitCommitKeepsInv(s, i);
    case Drop => DropSubmissionKeepsInv(s, i);
    case _ => UpdateSubmissionKeepsInv(s, i, SubmitApply(s, i, e).submissions[i]);
  }

  /** The end of the present claim without a termination. */
  lemma ReleaseKeepsInv(s: State, job: Job)
    requires Inv(s) && s.record.Some? && (job == Queued || job == Dead)
    ensures Inv(s.(job := job, record := None, version := s.version + 1))
  {
  }

  lemma ClaimCommitKeepsInv(s: State, c: ClaimId)
    requires Inv(s) && ClaimEnabled(s, ClaimCommit(c))
    ensures Inv(ClaimApply(s, ClaimCommit(c)))
  {
  }

  lemma UpdateClaimingKeepsInv(s: State, registry: Option<ClaimId>, attempts: map<ClaimId, Attempt>)
    requires Inv(s) && RegistrySound(s.(registry := registry, attempts := attempts))
    ensures Inv(s.(registry := registry, attempts := attempts))
  {
  }

  lemma ClaimStepKeepsInv(s: State, e: ClaimEvent)
    requires Inv(s) && ClaimEnabled(s, e)
    ensures Inv(ClaimApply(s, e))
  {
    match e
    case ClaimCommit(c) => ClaimCommitKeepsInv(s, c);
    case Expire(dead) => ReleaseKeepsInv(s, if dead then Dead else Queued);
    case _ => UpdateClaimingKeepsInv(s, ClaimApply(s, e).registry, ClaimApply(s, e).attempts);
  }

  /** A termination that lists every queue with an owned run keeps the invariant. */
  lemma EndingKeepsInv(s: State, listed: seq<QueueName>)
    requires Inv(s) && s.job != Ended && IsListed(s, listed)
    ensures Inv(Ending(s, listed))
  {
  }

  lemma UpdateWorkerKeepsInv(s: State, c: ClaimId, w: Worker)
    requires Inv(s) && c in s.workers && NoSubmission(s, c)
    requires FenceSound(s, c, WorkerFence(w))
    requires w.Listed? && s.record == Some(c) ==> IsListed(s, w.queues)
    ensures Inv(s.(workers := s.workers[c := w]))
  {
  }

  lemma WorkerStepKeepsInv(s: State, c: ClaimId, e: WorkerEvent)
    requires Inv(s) && WorkerEnabled(s, c, e)
    ensures Inv(WorkerApply(s, c, e))
  {
    match e
    case Terminate => EndingKeepsInv(s, s.workers[c].queues);
    case Continue => ReleaseKeepsInv(s, Queued);
    case _ => UpdateWorkerKeepsInv(s, c, WorkerApply(s, c, e).workers[c]);
  }

  lemma OuterStepKeepsInv(s: State, e: OuterEvent)
    requires Inv(s) && OuterEnabled(s, e)
    requires e.CancelCommit? ==> s.cancelling.value == s.queues
    ensures Inv(OuterApply(s, e))
  {
    match e
    case ReconcileCommit => EndingKeepsInv(s, s.reconciling.value);
    case CancelCommit => EndingKeepsInv(s, s.cancelling.value);
    case _ =>
  }

  lemma StepKeepsInv(s: State, e: Event)
    requires Inv(s) && Enabled(s, e) && Compared(s, e)
    ensures Inv(Apply(s, e))
  {
    match e
    case OnClaim(claim) => ClaimStepKeepsInv(s, claim);
    case OnWorker(c, worker) => WorkerStepKeepsInv(s, c, worker);
    case OnSubmit(i, submit) => SubmitStepKeepsInv(s, i, submit);
    case Outer(outer) => OuterStepKeepsInv(s, outer);
  }

  // ---- Whole runs ----

  /** The cancel of a queued owner commits while the owner's queues are those it read. Every
      other event is without a condition. */
  ghost predicate Compared(s: State, e: Event) {
    e == Outer(CancelCommit) && s.cancelling.Some? ==> s.cancelling.value == s.queues
  }

  ghost predicate IsRun(s: State, es: seq<Event>)
    decreases es
  {
    es == [] || (Enabled(s, es[0]) && IsRun(Apply(s, es[0]), es[1..]))
  }

  ghost predicate AllCompared(s: State, es: seq<Event>)
    requires IsRun(s, es)
    decreases es
  {
    es == [] || (Compared(s, es[0]) && AllCompared(Apply(s, es[0]), es[1..]))
  }

  ghost function Run(s: State, es: seq<Event>): State
    requires IsRun(s, es)
    decreases es
  {
    if es == [] then s else Run(Apply(s, es[0]), es[1..])
  }

  lemma {:induction false} RunKeepsInv(s: State, es: seq<Event>)
    requires Inv(s) && IsRun(s, es) && AllCompared(s, es)
    ensures Inv(Run(s, es))
    decreases es
  {
    if es != [] {
      StepKeepsInv(s, es[0]);
      RunKeepsInv(Apply(s, es[0]), es[1..]);
    }
  }

  lemma {:induction false} WithoutCancelIsCompared(s: State, es: seq<Event>)
    requires IsRun(s, es) && Outer(CancelCommit) !in es
    ensures AllCompared(s, es)
    decreases es
  {
    if es != [] {
      WithoutCancelIsCompared(Apply(s, es[0]), es[1..]);
    }
  }

  /** Terminations by the worker and by the reconciliation: in every run, no owned run commits
      after its owner terminated, and every queue with an owned run has a cancel job. */
  lemma WorkerPathIsSafe(es: seq<Event>, i: nat)
    requires IsRun(START, es) && Outer(CancelCommit) !in es
    ensures Safe(Run(START, es))
    ensures Run(START, es).job == Ended ==> !Enabled(Run(START, es), OnSubmit(i, Commit))
  {
    WithoutCancelIsCompared(START, es);
    RunKeepsInv(START, es);
    if Run(START, es).job == Ended {
      NoCommitAfterTermination(Run(START, es), i);
    }
  }

  /** The cancel of a queued owner reaches every queue with an owned run exactly when the
      owner's queues did not change after it read them. */
  lemma CancelIsSafeIffUnchanged(s: State)
    requires Inv(s) && OuterEnabled(s, CancelCommit)
    ensures Safe(OuterApply(s, CancelCommit)) <==> s.cancelling.value == s.queues
  {
    var listed := s.cancelling.value;
    if s.cancelling.value != s.queues {
      var q := s.queues[|listed|];
      assert q in s.queues;
      var r :| (q, r) in s.owned;
      assert q !in listed;
    }
  }

  ghost predicate Reachable(s: State) {
    exists es :: IsRun(START, es) && Run(START, es) == s
  }

  lemma {:induction false} RunSnoc(s: State, es: seq<Event>, e: Event)
    requires IsRun(s, es) && Enabled(Run(s, es), e)
    ensures IsRun(s, es + [e]) && Run(s, es + [e]) == Apply(Run(s, es), e)
    decreases es
  {
    if es == [] {
      assert es + [e] == [e] && [e][1..] == [];
    } else {
      assert (es + [e])[1..] == es[1..] + [e];
      RunSnoc(Apply(s, es[0]), es[1..], e);
    }
  }

  lemma Reach(s: State, e: Event)
    requires Reachable(s) && Enabled(s, e)
    ensures Reachable(Apply(s, e))
  {
    var es :| IsRun(START, es) && Run(START, es) == s;
    RunSnoc(START, es, e);
  }

  /** The claim 0 runs the owner's step. */
  const RUNNING_STEP := START.(job := Held, version := 1, record := Some(0), registry := Some(0), workers := map[0 := Running])

  lemma RunningStepIsReachable()
    ensures Reachable(RUNNING_STEP)
  {
    assert IsRun(START, []) && Run(START, []) == START;
    var s1 := START.(attempts := map[0 := Attempt(0, false)]);
    Reach(START, OnClaim(ClaimBegin(0)));
    assert Reachable(s1);
    var s2 := START.(attempts := map[0 := Attempt(0, true)], registry := Some(0));
    Reach(s1, OnClaim(ClaimRegister(0)));
    assert ClaimApply(s1, ClaimRegister(0)) == s2;
    Reach(s2, OnClaim(ClaimCommit(0)));
    var s3 := RUNNING_STEP.(workers := map[0 := Delivered]);
    assert ClaimApply(s2, ClaimCommit(0)) == s3;
    Reach(s3, OnWorker(0, RunStep));
    assert WorkerApply(s3, 0, RunStep) == RUNNING_STEP;
  }

  /** The running step submits a run on `q`, before or after a cancel read the owner's queues. */
  lemma SubmissionIsReachable(s: State, q: QueueName, r: RunId)
    requires Reachable(s) && (s == RUNNING_STEP || s == RUNNING_STEP.(cancelling := Some([])))
    ensures Reachable(s.(queues := [q], owned := {(q, r)}))
  {
    var sub := Submission(0, q, r, None, NoTxn);
    Reach(s, OnSubmit(0, Open(sub)));
    var s1 := s.(submissions := map[0 := sub]);
    Reach(s1, OnSubmit(0, Read));
    var s2 := s.(submissions := map[0 := sub.(read := Some([]))]);
    assert SubmitApply(s1, 0, Read) == s2;
    Reach(s2, OnSubmit(0, Begin));
    var s3 := s.(submissions := map[0 := sub.(read := Some([]), fence := Begun(1, true))]);
    assert SubmitApply(s2, 0, Begin) == s3;
    Reach(s3, OnSubmit(0, PassFence));
    var s4 := s.(submissions := map[0 := sub.(read := Some([]), fence := Passed(1))]);
    assert SubmitApply(s3, 0, PassFence) == s4;
    Reach(s4, OnSubmit(0, Commit));
    assert SubmitApply(s4, 0, Commit) == s.(queues := [q], owned := {(q, r)});
  }

  /** A cancel that reads the owner's queues while the step runs, and removes the step after
      its lease expired, leaves a queue with an owned run without a cancel job. */
  lemma CancelCanMissAQueue(q: QueueName, r: RunId)
    ensures exists s :: Reachable(s) && s.job == Ended && (q, r) in s.owned && q !in s.cancelJobs
  {
    RunningStepIsReachable();
    Reach(RUNNING_STEP, Outer(CancelRead));
    var read := RUNNING_STEP.(cancelling := Some([]));
    SubmissionIsReachable(read, q, r);
    var s := read.(queues := [q], owned := {(q, r)});
    Reach(s, OnClaim(Expire(false)));
    var expired := ClaimApply(s, Expire(false));
    Reach(expired, Outer(CancelCommit));
    var ended := OuterApply(expired, CancelCommit);
    assert Reachable(ended) && ended.job == Ended && (q, r) in ended.owned && q !in ended.cancelJobs;
  }

  /** The step that submitted a run on `q`, once it has ended and its worker has read the queues. */
  ghost function ListedStep(q: QueueName, r: RunId, fence: Fence): State {
    RUNNING_STEP.(queues := [q], owned := {(q, r)}, workers := map[0 := Listed([q], fence)])
  }

  lemma ListedStepIsReachable(q: QueueName, r: RunId)
    ensures Reachable(ListedStep(q, r, NoTxn))
  {
    RunningStepIsReachable();
    SubmissionIsReachable(RUNNING_STEP, q, r);
    var s := RUNNING_STEP.(queues := [q], owned := {(q, r)});
    Reach(s, OnWorker(0, Seal));
    var sealed := s.(workers := map[0 := Sealed(NoTxn)]);
    assert WorkerApply(s, 0, Seal) == sealed;
    Reach(sealed, OnWorker(0, ListQueues));
    assert WorkerApply(sealed, 0, ListQueues) == ListedStep(q, r, NoTxn);
  }

  /** A step that submits a run on `q` and terminates leaves a cancel job on `q` alone. */
  lemma WorkerTerminationCancels(q: QueueName, r: RunId)
    ensures exists s :: Reachable(s) && s.job == Ended && s.owned == {(q, r)} && s.cancelJobs == {q}
  {
    ListedStepIsReachable(q, r);
    var s := ListedStep(q, r, NoTxn);
    Reach(s, OnWorker(0, SettleBegin));
    var begun := ListedStep(q, r, Begun(1, true));
    assert WorkerApply(s, 0, SettleBegin) == begun;
    Reach(begun, OnWorker(0, SettleFence));
    var passed := ListedStep(q, r, Passed(1));
    assert WorkerApply(begun, 0, SettleFence) == passed;
    Reach(passed, OnWorker(0, Terminate));
    var ended := WorkerApply(passed, 0, Terminate);
    assert Elements([q]) == {q};
    assert Reachable(ended) && ended.job == Ended && ended.owned == {(q, r)} && ended.cancelJobs == {q};
  }

  // ---- No other queue is cancelled ----

  ghost predicate HasOwned(owned: set<(QueueName, RunId)>, q: QueueName) {
    exists r :: (q, r) in owned
  }

  ghost predicate AllOwned(owned: set<(QueueName, RunId)>, queues: seq<QueueName>) {
    forall q :: q in queues ==> HasOwned(owned, q)
  }

  /** Every queue that is listed anywhere, or has a cancel job, has an owned run. */
  ghost predicate OnlyOwned(s: State) {
    && AllOwned(s.owned, s.queues)
    && (forall q :: q in s.cancelJobs ==> HasOwned(s.owned, q))
    && (forall i :: i in s.submissions && s.submissions[i].read.Some? ==>
          AllOwned(s.owned, s.submissions[i].read.value))
    && (forall c :: c in s.workers && s.workers[c].Listed? ==> AllOwned(s.owned, s.workers[c].queues))
    && (s.reconciling.Some? ==> AllOwned(s.owned, s.reconciling.value))
    && (s.cancelling.Some? ==> AllOwned(s.owned, s.cancelling.value))
  }

  lemma SubmitKeepsOnlyOwned(s: State, i: nat, e: SubmitEvent)
    requires OnlyOwned(s) && SubmitEnabled(s, i, e)
    ensures OnlyOwned(SubmitApply(s, i, e))
  {
    var t := SubmitApply(s, i, e);
    forall q | HasOwned(s.owned, q) ensures HasOwned(t.owned, q) {
      var r :| (q, r) in s.owned;
      assert (q, r) in t.owned;
    }
    if e.Commit? {
      assert (s.submissions[i].queue, s.submissions[i].run) in t.owned;
    }
  }

  lemma WorkerKeepsOnlyOwned(s: State, c: ClaimId, e: WorkerEvent)
    requires OnlyOwned(s) && WorkerEnabled(s, c, e)
    ensures OnlyOwned(WorkerApply(s, c, e))
  {
  }

  lemma ClaimKeepsOnlyOwned(s: State, e: ClaimEvent)
    requires OnlyOwned(s) && ClaimEnabled(s, e)
    ensures OnlyOwned(ClaimApply(s, e))
  {
  }

  lemma OuterKeepsOnlyOwned(s: State, e: OuterEvent)
    requires OnlyOwned(s) && OuterEnabled(s, e)
    ensures OnlyOwned(OuterApply(s, e))
  {
  }

  lemma StepKeepsOnlyOwned(s: State, e: Event)
    requires OnlyOwned(s) && Enabled(s, e)
    ensures OnlyOwned(Apply(s, e))
  {
    match e
    case OnClaim(claim) => ClaimKeepsOnlyOwned(s, claim);
    case OnWorker(c, worker) => WorkerKeepsOnlyOwned(s, c, worker);
    case OnSubmit(i, submit) => SubmitKeepsOnlyOwned(s, i, submit);
    case Outer(outer) => OuterKeepsOnlyOwned(s, outer);
  }

  lemma {:induction false} RunKeepsOnlyOwned(s: State, es: seq<Event>)
    requires OnlyOwned(s) && IsRun(s, es)
    ensures OnlyOwned(Run(s, es))
    decreases es
  {
    if es != [] {
      StepKeepsOnlyOwned(s, es[0]);
      RunKeepsOnlyOwned(Apply(s, es[0]), es[1..]);
    }
  }

  /** In every run that ends through the worker or the reconciliation, the queues with a cancel job
      are exactly those with an owned run. */
  lemma CancelJobsAreExact(es: seq<Event>, q: QueueName)
    requires IsRun(START, es) && Outer(CancelCommit) !in es && Run(START, es).job == Ended
    ensures q in Run(START, es).cancelJobs <==> HasOwned(Run(START, es).owned, q)
  {
    WorkerPathIsSafe(es, 0);
    RunKeepsOnlyOwned(START, es);
  }
}
