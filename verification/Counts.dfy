/** The job records, the dedup index and the counts of a queue's store, with the transitions
    that change a count, wait for one and move a job. */
module Counts {
  import opened Wrappers

  type JobId = string

  datatype Status = Pending | Scheduled | Claimed | Done | Dead

  datatype Job = Job(
    queue: string,
    status: Status,
    runAt: Option<nat>,
    dedupKey: Option<string>,
    signalWait: bool,
    countWait: Option<string>)

  /** A number of active items and the job waiting for zero. */
  datatype CountRecord = CountRecord(active: int, waiter: Option<JobId>)

  datatype Store = Store(
    jobs: map<JobId, Job>,
    dedup: map<(string, string), JobId>,
    counts: map<string, CountRecord>)

  datatype Error =
    | CountWaiterExists(count: string, waiter: JobId)
    | DuplicateJobId(id: JobId)
    | ClaimLost
    | KvCompareFailed(key: string)
    | KvValueTooLarge(size: nat)
    | ConflictingKvEffect(key: string)
    | SignalWaitWithoutRunAt
    | CountWaitWithoutRunAt

  function RecordOf(s: Store, name: string): CountRecord {
    if name in s.counts then s.counts[name] else CountRecord(0, None)
  }

  predicate Waiting(job: Job, name: string) {
    job.status == Scheduled && job.countWait == Some(name)
  }

  /** A job as `move_job` writes it: only a scheduled job waits. */
  function Moved(job: Job, status: Status, runAt: Option<nat>): Job {
    var moved := job.(status := status, runAt := runAt);
    if status == Scheduled then moved else moved.(signalWait := false, countWait := None)
  }

  /** The wake of `id` by the count `name`, which leaves any other job as it is. */
  function Woken(jobs: map<JobId, Job>, id: JobId, name: string): map<JobId, Job> {
    if id in jobs && Waiting(jobs[id], name) then jobs[id := Moved(jobs[id], Pending, None)] else jobs
  }

  function CountChanged(s: Store, name: string, delta: int): Store {
    if delta == 0 then s
    else
      var record := RecordOf(s, name);
      var active := record.active + delta;
      if active != 0 then s.(counts := s.counts[name := record.(active := active)])
      else
        s.(counts := s.counts - {name},
           jobs := if record.waiter.Some? then Woken(s.jobs, record.waiter.value, name) else s.jobs)
  }

  /** The wait of a new scheduled job: pending at once when the count is zero, otherwise the
      recorded waiter, in place of a recorded job that no longer waits. */
  function CountWaited(s: Store, id: JobId, job: Job, name: string): Result<(Store, Job), Error>
    requires job.countWait == Some(name)
  {
    var record := RecordOf(s, name);
    if record.active == 0 then
      Ok((s, job.(status := Pending, runAt := None, signalWait := false, countWait := None)))
    else if record.waiter.Some? && record.waiter.value in s.jobs && Waiting(s.jobs[record.waiter.value], name) then
      Err(CountWaiterExists(name, record.waiter.value))
    else
      Ok((s.(counts := s.counts[name := record.(waiter := Some(id))]), job))
  }

  // ---- What every store keeps ----

  /** Each job waiting on a count is the recorded waiter of a count that is not zero. */
  ghost predicate WaitersSound(s: Store) {
    && (forall n :: n in s.counts ==> s.counts[n].active != 0)
    && (forall id, n :: id in s.jobs && Waiting(s.jobs[id], n) ==>
          n in s.counts && s.counts[n].waiter == Some(id))
    && (forall id :: id in s.jobs && s.jobs[id].countWait.Some? ==> s.jobs[id].status == Scheduled)
  }

  predicate Holds(job: Job, queue: string, key: string) {
    (job.status == Pending || job.status == Scheduled) && job.queue == queue && job.dedupKey == Some(key)
  }

  /** The dedup index has exactly the keys of the pending and scheduled jobs, each with its
      one job. */
  ghost predicate DedupSound(s: Store) {
    && (forall q, k :: (q, k) in s.dedup ==> s.dedup[(q, k)] in s.jobs && Holds(s.jobs[s.dedup[(q, k)]], q, k))
    && (forall id, q, k :: id in s.jobs && Holds(s.jobs[id], q, k) ==> (q, k) in s.dedup && s.dedup[(q, k)] == id)
    && (forall id :: id in s.jobs && s.jobs[id].dedupKey.Some? ==>
          s.jobs[id].status == Pending || s.jobs[id].status == Scheduled)
  }

  ghost predicate StoreInv(s: Store) {
    WaitersSound(s) && DedupSound(s)
  }

  lemma CountChangeKeepsDedup(s: Store, name: string, delta: int)
    requires DedupSound(s)
    ensures DedupSound(CountChanged(s, name, delta))
  {
  }

  lemma CountChangeKeepsWaiters(s: Store, name: string, delta: int)
    requires WaitersSound(s)
    ensures WaitersSound(CountChanged(s, name, delta))
  {
  }

  lemma CountChangeAdds(s: Store, name: string, delta: int)
    ensures forall n :: RecordOf(CountChanged(s, name, delta), n).active ==
                        RecordOf(s, n).active + if n == name then delta else 0
  {
  }

  lemma CountChangeKeepsInv(s: Store, name: string, delta: int)
    requires StoreInv(s)
    ensures StoreInv(CountChanged(s, name, delta))
    ensures forall n :: RecordOf(CountChanged(s, name, delta), n).active ==
                        RecordOf(s, n).active + if n == name then delta else 0
  {
    CountChangeKeepsDedup(s, name, delta);
    CountChangeKeepsWaiters(s, name, delta);
    CountChangeAdds(s, name, delta);
  }

  /** The change that leaves a count at zero wakes its waiting job, and no other job moves. */
  lemma ZeroWakesTheWaiter(s: Store, name: string, delta: int, id: JobId)
    requires StoreInv(s) && id in s.jobs && delta != 0
    ensures var after := CountChanged(s, name, delta).jobs;
      && after.Keys == s.jobs.Keys
      && (Waiting(s.jobs[id], name) && RecordOf(s, name).active + delta == 0 ==> after[id] == Moved(s.jobs[id], Pending, None))
      && (!Waiting(s.jobs[id], name) || RecordOf(s, name).active + delta != 0 ==> after[id] == s.jobs[id])
  {
  }

  /** The insert of a new job that is not waiting on a count with a record of another waiter. */
  ghost function Inserted(s: Store, id: JobId, job: Job): Store {
    s.(jobs := s.jobs[id := job],
       dedup := if job.dedupKey.Some? then s.dedup[(job.queue, job.dedupKey.value) := id] else s.dedup)
  }

  ghost predicate NewJob(job: Job) {
    (job.status == Pending || job.status == Scheduled) && (job.countWait.Some? ==> job.status == Scheduled)
  }

  lemma InsertKeepsDedup(s: Store, id: JobId, job: Job)
    requires DedupSound(s) && id !in s.jobs && NewJob(job)
    requires job.dedupKey.Some? ==> (job.queue, job.dedupKey.value) !in s.dedup
    ensures DedupSound(Inserted(s, id, job))
  {
  }

  /** A wait that is accepted makes the job the only waiter of its count, or no waiter. */
  lemma WaitKeepsWaiters(s: Store, id: JobId, job: Job, name: string)
    requires WaitersSound(s) && id !in s.jobs && NewJob(job) && job.countWait == Some(name)
    requires CountWaited(s, id, job, name).Ok?
    ensures var (staged, waited) := CountWaited(s, id, job, name).value;
      WaitersSound(Inserted(staged, id, waited)) && staged.jobs == s.jobs && staged.dedup == s.dedup
    ensures var (_, waited) := CountWaited(s, id, job, name).value;
      NewJob(waited) && waited.dedupKey == job.dedupKey && waited.queue == job.queue
  {
  }

  /** A wait is accepted exactly when the count is zero or no job waits on it. On zero the job is
      pending without a time or a wait, and otherwise it is the recorded waiter of the same number. */
  lemma WaitAcceptedIff(s: Store, id: JobId, job: Job, name: string)
    requires WaitersSound(s) && job.countWait == Some(name)
    ensures CountWaited(s, id, job, name).Ok? <==>
            RecordOf(s, name).active == 0 || forall other :: other in s.jobs ==> !Waiting(s.jobs[other], name)
    ensures match CountWaited(s, id, job, name)
      case Ok((after, waited)) =>
        && after.jobs == s.jobs && after.dedup == s.dedup
        && (forall n :: RecordOf(after, n).active == RecordOf(s, n).active)
        && (if RecordOf(s, name).active == 0 then after == s && waited == Moved(job, Pending, None)
            else waited == job && RecordOf(after, name).waiter == Some(id))
      case Err(e) => e.CountWaiterExists? && e.count == name && e.waiter in s.jobs && Waiting(s.jobs[e.waiter], name)
  {
  }

  /** A job leaves its place through `move_job`, a claim, which releases its dedup key, or a
      removal. */
  datatype Transition =
    | Promote
    | Claim
    | Retry(runAt: Option<nat>)
    | Finish(status: Status)
    | Revive
    | RemoveJob

  predicate Allowed(s: Store, id: JobId, t: Transition) {
    id in s.jobs &&
    match t
    case Promote => s.jobs[id].status == Scheduled
    case Claim => s.jobs[id].status == Pending || s.jobs[id].status == Scheduled
    case Retry(_) => s.jobs[id].status == Claimed
    case Finish(status) => s.jobs[id].status == Claimed && (status == Done || status == Dead)
    case Revive => s.jobs[id].status == Dead
    case RemoveJob => true
  }

  function Released(s: Store, job: Job): map<(string, string), JobId> {
    if job.dedupKey.Some? then s.dedup - {(job.queue, job.dedupKey.value)} else s.dedup
  }

  function Transitioned(s: Store, id: JobId, t: Transition): Store
    requires Allowed(s, id, t)
  {
    var job := s.jobs[id];
    match t
    case Promote => s.(jobs := s.jobs[id := Moved(job, Pending, None)])
    case Revive => s.(jobs := s.jobs[id := Moved(job, Pending, None)])
    case Claim =>
      s.(jobs := s.jobs[id := Moved(job.(dedupKey := None), Claimed, job.runAt)], dedup := Released(s, job))
    case Retry(runAt) =>
      s.(jobs := s.jobs[id := Moved(job, if runAt.Some? then Scheduled else Pending, runAt)])
    case Finish(status) => s.(jobs := s.jobs[id := Moved(job, status, job.runAt)])
    case RemoveJob => s.(jobs := s.jobs - {id}, dedup := Released(s, job))
  }

  lemma TransitionKeepsDedup(s: Store, id: JobId, t: Transition)
    requires DedupSound(s) && Allowed(s, id, t)
    ensures DedupSound(Transitioned(s, id, t))
  {
  }

  /** Every transition of a job keeps the store's invariant. The recorded waiter of a count can
      then be a job that no longer waits. */
  lemma TransitionKeepsInv(s: Store, id: JobId, t: Transition)
    requires StoreInv(s) && Allowed(s, id, t)
    ensures StoreInv(Transitioned(s, id, t))
  {
    TransitionKeepsDedup(s, id, t);
  }

  /** Where a transition leaves its job: the state it is for, the run time of a retry, no wait outside
      the scheduled state, and no dedup key on a claim. The job keeps its queue, and every other job
      and every count stays as it was. */
  lemma TransitionOutcome(s: Store, id: JobId, t: Transition)
    requires Allowed(s, id, t)
    ensures var after := Transitioned(s, id, t);
      && after.jobs - {id} == s.jobs - {id} && after.counts == s.counts
      && (t.RemoveJob? <==> id !in after.jobs)
      && (id in after.jobs ==>
            var was, job := s.jobs[id], after.jobs[id];
            && job.queue == was.queue && job.dedupKey == (if t.Claim? then None else was.dedupKey)
            && (job.status != Scheduled ==> job.countWait.None? && !job.signalWait)
            && match t
               case Promote => job.status == Pending && job.runAt.None?
               case Revive => job.status == Pending && job.runAt.None?
               case Claim => job.status == Claimed
               case Retry(runAt) => job.runAt == runAt && job.status == (if runAt.Some? then Scheduled else Pending)
               case Finish(status) => job.status == status
               case RemoveJob => true)
  {
  }
}
