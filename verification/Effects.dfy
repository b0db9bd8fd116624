/** The effects of a settlement: count changes, enqueues and KV writes staged into one
    transaction, which commits whole or not at all. */
module Effects {
  import opened Wrappers
  import opened Counts

  const MAX_KV_VALUE_SIZE := 256 * 1024

  /** The options of an enqueue that reach the store. */
  datatype EnqueueRequest = EnqueueRequest(
    queue: string,
    runAt: Option<nat>,
    dedupKey: Option<string>,
    signalWait: bool,
    countWait: Option<string>,
    idOverride: Option<JobId>)

  datatype PreparedJob = PreparedJob(id: JobId, job: Job, idOverride: bool)

  datatype EnqueueResult = New(id: JobId) | AlreadyEnqueued(id: JobId)

  datatype KvCompare = KvCompare(key: string, expected: Option<string>)

  datatype PreparedEffects = PreparedEffects(
    compares: seq<KvCompare>,
    fenced: bool,
    jobs: seq<PreparedJob>,
    kvWrites: map<string, string>,
    kvDeletes: seq<string>,
    countChanges: map<string, int>)

  datatype SettlementEffects = SettlementEffects(
    compares: seq<KvCompare>,
    fenced: bool,
    enqueues: seq<EnqueueRequest>,
    kvWrites: map<string, string>,
    kvDeletes: seq<string>,
    countChanges: map<string, int>)

  /** The store of a queue with its caller KV namespace. */
  datatype Db = Db(store: Store, kv: map<string, string>)

  function KvGet(kv: map<string, string>, key: string): Option<string> {
    if key in kv then Some(kv[key]) else None
  }

  // ---- Preparation ----

  /** The record of one enqueue. A `runAt` at or before now is an immediate enqueue, which does
      not wait. */
  function PreparedOf(r: EnqueueRequest, generated: JobId, now: nat): (result: Result<PreparedJob, Error>)
    ensures result.Ok? ==> NewJob(result.value.job) && AsRequested(r, generated, now, result.value)
    ensures result.Ok? <==> (r.signalWait || r.countWait.Some? ==> r.runAt.Some?)
    ensures result.Err? ==> result.error == if r.signalWait then SignalWaitWithoutRunAt else CountWaitWithoutRunAt
  {
    if r.signalWait && r.runAt.None? then Err(SignalWaitWithoutRunAt)
    else if r.countWait.Some? && r.runAt.None? then Err(CountWaitWithoutRunAt)
    else
      var later := r.runAt.Some? && r.runAt.value > now;
      Ok(PreparedJob(
        if r.idOverride.Some? then r.idOverride.value else generated,
        Job(r.queue, if later then Scheduled else Pending, if later then r.runAt else None, r.dedupKey,
            r.signalWait && later, if later then r.countWait else None),
        r.idOverride.Some?))
  }

  /** The job is of the request: scheduled with its time and its waits exactly for a time after now,
      and otherwise pending without them, under the id that the caller supplied or the generated
      one. */
  ghost predicate AsRequested(r: EnqueueRequest, generated: JobId, now: nat, p: PreparedJob) {
    var scheduled := r.runAt.Some? && now < r.runAt.value;
    && p.job.queue == r.queue && p.job.dedupKey == r.dedupKey
    && (p.job.status == Scheduled <==> scheduled) && (p.job.status == Pending <==> !scheduled)
    && (scheduled ==> p.job.runAt == r.runAt && p.job.signalWait == r.signalWait && p.job.countWait == r.countWait)
    && (!scheduled ==> p.job.runAt.None? && !p.job.signalWait && p.job.countWait.None?)
    && (p.idOverride <==> r.idOverride.Some?)
    && p.id == if r.idOverride.Some? then r.idOverride.value else generated
  }

  /** Validates the effects and prepares their records, before the transaction. */
  method Prepare(e: SettlementEffects, generated: seq<JobId>, now: nat) returns (result: Result<PreparedEffects, Error>)
    requires |generated| == |e.enqueues|
    ensures result.Ok? <==>
            && (forall k :: k in e.kvWrites ==> |e.kvWrites[k]| <= MAX_KV_VALUE_SIZE)
            && (forall k :: k in e.kvDeletes ==> k !in e.kvWrites)
            && (forall i :: 0 <= i < |e.enqueues| ==>
                  (e.enqueues[i].signalWait || e.enqueues[i].countWait.Some? ==> e.enqueues[i].runAt.Some?))
    ensures result.Ok? ==>
      var p := result.value;
      && PreparedSound(p.jobs) && |p.jobs| == |e.enqueues|
      && (forall i :: 0 <= i < |p.jobs| ==> AsRequested(e.enqueues[i], generated[i], now, p.jobs[i]))
      && p.compares == e.compares && p.fenced == e.fenced && p.countChanges == e.countChanges
      && p.kvWrites == e.kvWrites && p.kvDeletes == e.kvDeletes
  {
    var rest := e.kvWrites.Keys;
    while rest != {}
      invariant rest <= e.kvWrites.Keys
      invariant forall k :: k in e.kvWrites && k !in rest ==> |e.kvWrites[k]| <= MAX_KV_VALUE_SIZE
      decreases rest
    {
      var key :| key in rest;
      if |e.kvWrites[key]| > MAX_KV_VALUE_SIZE {
        return Err(KvValueTooLarge(|e.kvWrites[key]|));
      }
      rest := rest - {key};
    }
    for i := 0 to |e.kvDeletes|
      invariant forall j :: 0 <= j < i ==> e.kvDeletes[j] !in e.kvWrites
    {
      if e.kvDeletes[i] in e.kvWrites {
        return Err(ConflictingKvEffect(e.kvDeletes[i]));
      }
    }
    var jobs := [];
    for i := 0 to |e.enqueues|
      invariant |jobs| == i && PreparedSound(jobs)
      invariant forall j :: 0 <= j < i ==> PreparedOf(e.enqueues[j], generated[j], now) == Ok(jobs[j])
    {
      var prepared := PreparedOf(e.enqueues[i], generated[i], now);
      if prepared.Err? {
        return Err(prepared.error);
      }
      jobs := jobs + [prepared.value];
    }
    result := Ok(PreparedEffects(e.compares, e.fenced, jobs, e.kvWrites, e.kvDeletes, e.countChanges));
  }

  // ---- The count changes of one settlement, without an order ----

  function ActiveAfter(s: Store, changes: map<string, int>, name: string): int {
    RecordOf(s, name).active + if name in changes then changes[name] else 0
  }

  /** The change of its count to zero wakes the job. */
  predicate WakesIn(s: Store, changes: map<string, int>, id: JobId, job: Job) {
    && job.status == Scheduled && job.countWait.Some?
    && var name := job.countWait.value;
       name in changes && changes[name] != 0 && ActiveAfter(s, changes, name) == 0 && RecordOf(s, name).waiter == Some(id)
  }

  ghost function CountsAfter(s: Store, changes: map<string, int>): map<string, CountRecord> {
    map n | n in s.counts.Keys + changes.Keys && ActiveAfter(s, changes, n) != 0 ::
      CountRecord(ActiveAfter(s, changes, n), RecordOf(s, n).waiter)
  }

  ghost function JobAfter(s: Store, changes: map<string, int>, id: JobId, job: Job): Job {
    if WakesIn(s, changes, id, job) then Moved(job, Pending, None) else job
  }

  ghost function JobsAfter(s: Store, changes: map<string, int>): map<JobId, Job> {
    map id | id in s.jobs :: JobAfter(s, changes, id, s.jobs[id])
  }

  /** Every change at once: each count has its sum, and the waiters of those that reached zero
      are awake. */
  ghost function AllChanged(s: Store, changes: map<string, int>): Store {
    s.(counts := CountsAfter(s, changes), jobs := JobsAfter(s, changes))
  }

  ghost function Restrict(changes: map<string, int>, names: set<string>): map<string, int> {
    map n | n in changes && n in names :: changes[n]
  }

  /** A count outside the changes is as it was. */
  lemma UntouchedRecord(s: Store, changes: map<string, int>, name: string)
    requires WaitersSound(s) && name !in changes
    ensures RecordOf(AllChanged(s, changes), name) == RecordOf(s, name)
  {
    assert name in s.counts ==> s.counts[name].active != 0;
  }

  lemma CountsOneMore(s: Store, before: map<string, int>, name: string, delta: int)
    requires WaitersSound(s) && name !in before
    ensures CountChanged(AllChanged(s, before), name, delta).counts == CountsAfter(s, before[name := delta])
  {
    UntouchedRecord(s, before, name);
    var after := before[name := delta];
    var left := CountChanged(AllChanged(s, before), name, delta).counts;
    forall n
      ensures n in left <==> n in CountsAfter(s, after)
      ensures n in left ==> left[n] == CountsAfter(s, after)[n]
    {
      if n != name {
        assert ActiveAfter(s, after, n) == ActiveAfter(s, before, n);
        assert n in left <==> n in CountsAfter(s, before);
      }
    }
  }

  lemma JobOneMore(s: Store, before: map<string, int>, name: string, delta: int, id: JobId)
    requires WaitersSound(s) && name !in before && id in s.jobs
    ensures var left := CountChanged(AllChanged(s, before), name, delta).jobs;
      id in left && left[id] == JobAfter(s, before[name := delta], id, s.jobs[id])
  {
    UntouchedRecord(s, before, name);
    var job := s.jobs[id];
    if job.countWait.Some? && job.countWait.value != name {
      assert ActiveAfter(s, before[name := delta], job.countWait.value) == ActiveAfter(s, before, job.countWait.value);
    }
  }

  lemma JobsOneMore(s: Store, before: map<string, int>, name: string, delta: int)
    requires WaitersSound(s) && name !in before
    ensures CountChanged(AllChanged(s, before), name, delta).jobs == JobsAfter(s, before[name := delta])
  {
    var left := CountChanged(AllChanged(s, before), name, delta).jobs;
    assert left.Keys == s.jobs.Keys;
    forall id | id in s.jobs
      ensures left[id] == JobAfter(s, before[name := delta], id, s.jobs[id])
    {
      JobOneMore(s, before, name, delta, id);
    }
  }

  /** One more change on top of others is the change of all of them. */
  lemma ChangeOneMore(s: Store, changes: map<string, int>, done: set<string>, name: string)
    requires WaitersSound(s) && name in changes && name !in done
    ensures CountChanged(AllChanged(s, Restrict(changes, done)), name, changes[name]) ==
            AllChanged(s, Restrict(changes, done + {name}))
  {
    var before := Restrict(changes, done);
    assert Restrict(changes, done + {name}) == before[name := changes[name]];
    CountsOneMore(s, before, name, changes[name]);
    JobsOneMore(s, before, name, changes[name]);
  }

  // ---- The enqueues of one settlement ----

  /** One prepared job staged: its result and the store after it. */
  function JobWritten(s: Store, p: PreparedJob): Result<(Store, EnqueueResult), Error> {
    var key := if p.job.dedupKey.Some? then Some((p.job.queue, p.job.dedupKey.value)) else None;
    if key.Some? && key.value in s.dedup then Ok((s, AlreadyEnqueued(s.dedup[key.value])))
    else if p.idOverride && p.id in s.jobs then Err(DuplicateJobId(p.id))
    else
      var waited := if p.job.countWait.Some? then CountWaited(s, p.id, p.job, p.job.countWait.value) else Ok((s, p.job));
      match waited
      case Err(e) => Err(e)
      case Ok((staged, job)) =>
        var inserted := staged.(jobs := staged.jobs[p.id := job]);
        Ok((if key.Some? then inserted.(dedup := inserted.dedup[key.value := p.id]) else inserted, New(p.id)))
  }

  function JobsWritten(s: Store, jobs: seq<PreparedJob>): Result<(Store, seq<EnqueueResult>), Error> {
    if jobs == [] then Ok((s, []))
    else
      match JobsWritten(s, jobs[..|jobs| - 1])
      case Err(e) => Err(e)
      case Ok((before, results)) =>
        match JobWritten(before, jobs[|jobs| - 1])
        case Err(e) => Err(e)
        case Ok((after, result)) => Ok((after, results + [result]))
  }

  /** Generated ids are new. A caller-supplied id is checked when its job is staged. */
  ghost predicate FreshIds(s: Store, jobs: seq<PreparedJob>) {
    && (forall i :: 0 <= i < |jobs| && !jobs[i].idOverride ==> jobs[i].id !in s.jobs)
    && (forall i, j :: 0 <= i < j < |jobs| && !(jobs[i].idOverride && jobs[j].idOverride) ==> jobs[i].id != jobs[j].id)
  }

  ghost predicate PreparedSound(jobs: seq<PreparedJob>) {
    forall i :: 0 <= i < |jobs| ==> NewJob(jobs[i].job)
  }

  /** What one enqueue leaves: on a dedup hit the store as it was, and otherwise the job, pending at
      once when the count that it waits on is zero. */
  lemma EnqueueOutcome(s: Store, p: PreparedJob)
    requires JobWritten(s, p).Ok?
    ensures var (after, result) := JobWritten(s, p).value;
      if result.AlreadyEnqueued? then after == s
      else
        && p.id in after.jobs && after.jobs - {p.id} == s.jobs - {p.id}
        && after.jobs[p.id] ==
           (if p.job.countWait.Some? && RecordOf(s, p.job.countWait.value).active == 0
            then Moved(p.job, Pending, None) else p.job)
        && (forall n :: Some(n) != p.job.countWait ==> RecordOf(after, n) == RecordOf(s, n))
  {
  }

  /** An enqueue without a dedup hit fails exactly for a supplied id that has a job, or for a wait on
      a count that is not zero and that another job waits on. */
  lemma EnqueueFailsIff(s: Store, p: PreparedJob)
    requires StoreInv(s)
    ensures JobWritten(s, p).Err? <==>
            && (p.job.dedupKey.Some? ==> (p.job.queue, p.job.dedupKey.value) !in s.dedup)
            && (|| (p.idOverride && p.id in s.jobs)
                || (p.job.countWait.Some? && RecordOf(s, p.job.countWait.value).active != 0
                    && exists other :: other in s.jobs && Waiting(s.jobs[other], p.job.countWait.value)))
    ensures JobWritten(s, p).Err? ==>
      var err := JobWritten(s, p).error;
      if p.idOverride && p.id in s.jobs then err == DuplicateJobId(p.id)
      else
        && err.CountWaiterExists? && Some(err.count) == p.job.countWait
        && err.waiter in s.jobs && Waiting(s.jobs[err.waiter], err.count)
  {
    if p.job.countWait.Some? {
      WaitAcceptedIff(s, p.id, p.job, p.job.countWait.value);
    }
  }

  lemma JobWrittenKeepsInv(s: Store, p: PreparedJob)
    requires StoreInv(s) && NewJob(p.job) && (p.id in s.jobs ==> p.idOverride)
    requires JobWritten(s, p).Ok?
    ensures StoreInv(JobWritten(s, p).value.0)
    ensures JobWritten(s, p).value.0.jobs.Keys <= s.jobs.Keys + {p.id}
  {
    if JobWritten(s, p).value.1.New? {
      if p.job.countWait.Some? {
        WaitKeepsWaiters(s, p.id, p.job, p.job.countWait.value);
        var (staged, waited) := CountWaited(s, p.id, p.job, p.job.countWait.value).value;
        InsertKeepsDedup(staged, p.id, waited);
        assert JobWritten(s, p).value.0 == Inserted(staged, p.id, waited);
      } else {
        InsertKeepsDedup(s, p.id, p.job);
        assert JobWritten(s, p).value.0 == Inserted(s, p.id, p.job);
      }
    }
  }

  lemma {:induction false} JobsWrittenKeepInv(s: Store, jobs: seq<PreparedJob>)
    requires StoreInv(s) && PreparedSound(jobs) && FreshIds(s, jobs)
    requires JobsWritten(s, jobs).Ok?
    ensures StoreInv(JobsWritten(s, jobs).value.0)
    ensures |JobsWritten(s, jobs).value.1| == |jobs|
    ensures JobsWritten(s, jobs).value.0.jobs.Keys <= s.jobs.Keys + set i | 0 <= i < |jobs| :: jobs[i].id
  {
    if jobs != [] {
      var n := |jobs| - 1;
      JobsWrittenKeepInv(s, jobs[..n]);
      var before := JobsWritten(s, jobs[..n]).value.0;
      JobWrittenKeepsInv(before, jobs[n]);
    }
  }

  predicate HasKey(p: PreparedJob, queue: string, key: string) {
    p.job.queue == queue && p.job.dedupKey == Some(key)
  }

  /** The first enqueue of a batch with a queue and dedup key. */
  ghost function FirstWith(jobs: seq<PreparedJob>, queue: string, key: string): (first: Option<nat>)
    ensures first.Some? ==> first.value < |jobs| && HasKey(jobs[first.value], queue, key)
    ensures forall i :: 0 <= i < (if first.Some? then first.value else |jobs|) ==> !HasKey(jobs[i], queue, key)
  {
    if jobs == [] then None
    else
      var n := |jobs| - 1;
      var before := FirstWith(jobs[..n], queue, key);
      if before.Some? then before else if HasKey(jobs[n], queue, key) then Some(n) else None
  }

  /** The id that owns a key: the one indexed before the batch, or the first of the batch. */
  ghost function OwnerOf(s: Store, jobs: seq<PreparedJob>, queue: string, key: string): Option<JobId> {
    if (queue, key) in s.dedup then Some(s.dedup[(queue, key)])
    else
      var first := FirstWith(jobs, queue, key);
      if first.Some? then Some(jobs[first.value].id) else None
  }

  lemma {:induction false} ResultsAlign(s: Store, jobs: seq<PreparedJob>)
    ensures JobsWritten(s, jobs).Ok? ==> |JobsWritten(s, jobs).value.1| == |jobs|
  {
    if jobs != [] {
      ResultsAlign(s, jobs[..|jobs| - 1]);
    }
  }

  /** After a batch the dedup index has for each key its owner. */
  lemma {:induction false} IndexAfterBatch(s: Store, jobs: seq<PreparedJob>, queue: string, key: string)
    requires JobsWritten(s, jobs).Ok?
    ensures var dedup := JobsWritten(s, jobs).value.0.dedup;
      (if (queue, key) in dedup then Some(dedup[(queue, key)]) else None) == OwnerOf(s, jobs, queue, key)
  {
    if jobs != [] {
      var n := |jobs| - 1;
      IndexAfterBatch(s, jobs[..n], queue, key);
      var before := JobsWritten(s, jobs[..n]).value.0;
      assert JobWritten(before, jobs[n]).Ok?;
    }
  }

  /** Every result of a batch: a new job without a key or as the first of a key that was not
      indexed, and otherwise the id of the key's owner. */
  lemma {:induction false} ResultsOfABatch(s: Store, jobs: seq<PreparedJob>, i: nat)
    requires JobsWritten(s, jobs).Ok? && i < |jobs|
    ensures var results := JobsWritten(s, jobs).value.1;
      && |results| == |jobs|
      && var job := jobs[i].job;
         results[i] ==
         if job.dedupKey.None? then New(jobs[i].id)
         else if (job.queue, job.dedupKey.value) !in s.dedup && FirstWith(jobs, job.queue, job.dedupKey.value) == Some(i)
         then New(jobs[i].id)
         else AlreadyEnqueued(OwnerOf(s, jobs, job.queue, job.dedupKey.value).value)
  {
    var n := |jobs| - 1;
    ResultsAlign(s, jobs[..n]);
    if i < n {
      ResultsOfABatch(s, jobs[..n], i);
    } else if jobs[n].job.dedupKey.Some? {
      IndexAfterBatch(s, jobs[..n], jobs[n].job.queue, jobs[n].job.dedupKey.value);
    }
  }

  /** Two enqueues of one settlement with one queue and dedup key return one id, and the later
      one is not a new job. */
  lemma OneNewJobPerDedupKey(s: Store, jobs: seq<PreparedJob>, i: nat, j: nat)
    requires JobsWritten(s, jobs).Ok? && i < j < |jobs|
    requires jobs[i].job.dedupKey.Some? && jobs[i].job.queue == jobs[j].job.queue
    requires jobs[i].job.dedupKey == jobs[j].job.dedupKey
    ensures var results := JobsWritten(s, jobs).value.1;
      |results| == |jobs| && results[j] == AlreadyEnqueued(results[i].id)
  {
    ResultsOfABatch(s, jobs, i);
    ResultsOfABatch(s, jobs, j);
  }

  /** The record that an enqueue leaves, when the count that it waits on has the number `active`. */
  ghost function StoredJob(p: PreparedJob, active: int): Job {
    if p.job.countWait.Some? && active == 0 then Moved(p.job, Pending, None) else p.job
  }

  ghost function ActiveFor(s: Store, p: PreparedJob): int {
    if p.job.countWait.Some? then RecordOf(s, p.job.countWait.value).active else 0
  }

  /** A batch does not change the number of a count. */
  lemma {:induction false} BatchKeepsActive(s: Store, jobs: seq<PreparedJob>, name: string)
    requires JobsWritten(s, jobs).Ok?
    ensures RecordOf(JobsWritten(s, jobs).value.0, name).active == RecordOf(s, name).active
  {
    if jobs != [] {
      var n := |jobs| - 1;
      BatchKeepsActive(s, jobs[..n], name);
      assert JobWritten(JobsWritten(s, jobs[..n]).value.0, jobs[n]).Ok?;
    }
  }

  /** Every new job of a batch is stored under its id as it was prepared, or pending when its count is
      zero, and a later enqueue of the batch does not replace it. */
  lemma {:induction false} BatchStoresNewJobs(s: Store, jobs: seq<PreparedJob>, i: nat)
    requires JobsWritten(s, jobs).Ok? && FreshIds(s, jobs) && i < |jobs|
    ensures |JobsWritten(s, jobs).value.1| == |jobs|
    ensures JobsWritten(s, jobs).value.1[i].New? ==>
      var after := JobsWritten(s, jobs).value.0;
      jobs[i].id in after.jobs && after.jobs[jobs[i].id] == StoredJob(jobs[i], ActiveFor(s, jobs[i]))
  {
    var n := |jobs| - 1;
    ResultsAlign(s, jobs[..n]);
    var before := JobsWritten(s, jobs[..n]).value.0;
    EnqueueOutcome(before, jobs[n]);
    if i < n {
      BatchStoresNewJobs(s, jobs[..n], i);
    } else if jobs[n].job.countWait.Some? {
      BatchKeepsActive(s, jobs[..n], jobs[n].job.countWait.value);
    }
  }

  // ---- The whole settlement ----

  ghost predicate Matches(kv: map<string, string>, compares: seq<KvCompare>) {
    forall i :: 0 <= i < |compares| ==> KvGet(kv, compares[i].key) == compares[i].expected
  }

  /** Compare `i` does not match, and those before it do. */
  ghost predicate FirstMismatch(kv: map<string, string>, compares: seq<KvCompare>, i: nat)
    requires i < |compares|
  {
    && KvGet(kv, compares[i].key) != compares[i].expected
    && forall j :: 0 <= j < i ==> KvGet(kv, compares[j].key) == compares[j].expected
  }

  /** The state of the store after the effects commit. */
  ghost function Settled(db: Db, e: PreparedEffects): Result<(Db, seq<EnqueueResult>), Error> {
    match JobsWritten(AllChanged(db.store, e.countChanges), e.jobs)
    case Err(err) => Err(err)
    case Ok((store, results)) =>
      Ok((Db(store, (db.kv + e.kvWrites) - set k | k in e.kvDeletes), results))
  }

  /** A transaction of the store: its staged view, which a commit makes the store. */
  class Txn {
    var db: Db

    constructor (db: Db)
      ensures this.db == db
    {
      this.db := db;
    }

    method StageCountChange(name: string, delta: int)
      modifies this
      ensures db == old(db).(store := CountChanged(old(db).store, name, delta))
    {
      if delta == 0 {
        return;
      }
      var record := RecordOf(db.store, name);
      record := record.(active := record.active + delta);
      if record.active != 0 {
        db := db.(store := db.store.(counts := db.store.counts[name := record]));
        return;
      }
      db := db.(store := db.store.(counts := db.store.counts - {name}));
      if record.waiter.Some? {
        StageWake(record.waiter.value, name);
      }
    }

    /** Moves a job that waits on the count `name` to pending. */
    method StageWake(id: JobId, name: string)
      modifies this
      ensures db == old(db).(store := old(db).store.(jobs := Woken(old(db).store.jobs, id, name)))
    {
      if id !in db.store.jobs {
        return;
      }
      var job := db.store.jobs[id];
      if job.status != Scheduled || job.countWait != Some(name) {
        return;
      }
      job := job.(status := Pending, runAt := None, signalWait := false, countWait := None);
      db := db.(store := db.store.(jobs := db.store.jobs[id := job]));
    }

    /** Stages the changes in any order of the names. */
    method StageCountChanges(changes: map<string, int>)
      requires WaitersSound(db.store)
      modifies this
      ensures db == old(db).(store := AllChanged(old(db).store, changes))
    {
      var rest := changes.Keys;
      ghost var s := db.store;
      assert AllChanged(s, Restrict(changes, {})) == s by {
        assert AllChanged(s, Restrict(changes, {})).counts == s.counts;
        assert AllChanged(s, Restrict(changes, {})).jobs == s.jobs;
      }
      while rest != {}
        invariant rest <= changes.Keys
        invariant db == old(db).(store := AllChanged(s, Restrict(changes, changes.Keys - rest)))
        decreases rest
      {
        var name :| name in rest;
        ghost var done := changes.Keys - rest;
        ChangeOneMore(s, changes, done, name);
        rest := rest - {name};
        assert changes.Keys - rest == done + {name};
        StageCountChange(name, changes[name]);
      }
      assert Restrict(changes, changes.Keys - {}) == changes;
    }

    method StageJobWrites(p: PreparedJob) returns (result: Result<EnqueueResult, Error>)
      modifies this
      ensures match JobWritten(old(db).store, p)
        case Err(e) => result == Err(e)
        case Ok((store, r)) => result == Ok(r) && db == old(db).(store := store)
    {
      var s := db.store;
      if p.job.dedupKey.Some? && (p.job.queue, p.job.dedupKey.value) in s.dedup {
        return Ok(AlreadyEnqueued(s.dedup[(p.job.queue, p.job.dedupKey.value)]));
      }
      if p.idOverride && p.id in s.jobs {
        return Err(DuplicateJobId(p.id));
      }
      var job := p.job;
      if job.countWait.Some? {
        var name := job.countWait.value;
        var record := RecordOf(s, name);
        if record.active == 0 {
          job := job.(status := Pending, runAt := None, signalWait := false, countWait := None);
        } else {
          if record.waiter.Some? && record.waiter.value in s.jobs && Waiting(s.jobs[record.waiter.value], name) {
            return Err(CountWaiterExists(name, record.waiter.value));
          }
          s := s.(counts := s.counts[name := record.(waiter := Some(p.id))]);
        }
      }
      s := s.(jobs := s.jobs[p.id := job]);
      if p.job.dedupKey.Some? {
        s := s.(dedup := s.dedup[(p.job.queue, p.job.dedupKey.value) := p.id]);
      }
      db := db.(store := s);
      result := Ok(New(p.id));
    }

    /** Stages the effects, or fails before the commit. */
    method StageEffects(e: PreparedEffects, claimLive: bool) returns (result: Result<seq<EnqueueResult>, Error>)
      requires WaitersSound(db.store)
      modifies this
      ensures (e.fenced && !claimLive) ==> result == Err(ClaimLost)
      ensures (!e.fenced || claimLive) && !Matches(old(db).kv, e.compares) ==>
        exists i :: 0 <= i < |e.compares| && FirstMismatch(old(db).kv, e.compares, i)
                    && result == Err(KvCompareFailed(e.compares[i].key))
      ensures (!e.fenced || claimLive) && Matches(old(db).kv, e.compares) ==>
        match Settled(old(db), e)
        case Err(err) => result == Err(err)
        case Ok((after, results)) => result == Ok(results) && db == after
    {
      if e.fenced && !claimLive {
        return Err(ClaimLost);
      }
      for i := 0 to |e.compares|
        invariant db == old(db)
        invariant forall j :: 0 <= j < i ==> KvGet(db.kv, e.compares[j].key) == e.compares[j].expected
      {
        if KvGet(db.kv, e.compares[i].key) != e.compares[i].expected {
          assert FirstMismatch(db.kv, e.compares, i);
          return Err(KvCompareFailed(e.compares[i].key));
        }
      }
      StageCountChanges(e.countChanges);
      result := StageJobs(e.jobs);
      if result.Err? {
        return;
      }
      StageKv(e.kvWrites, e.kvDeletes);
    }

    method StageJobs(jobs: seq<PreparedJob>) returns (result: Result<seq<EnqueueResult>, Error>)
      modifies this
      ensures match JobsWritten(old(db).store, jobs)
        case Err(err) => result == Err(err)
        case Ok((store, results)) => result == Ok(results) && db == old(db).(store := store)
    {
      var results := [];
      for i := 0 to |jobs|
        invariant JobsWritten(old(db).store, jobs[..i]) == Ok((db.store, results)) && db.kv == old(db).kv
      {
        assert jobs[..i + 1][..i] == jobs[..i];
        var written := StageJobWrites(jobs[i]);
        if written.Err? {
          FailsOnPrefix(old(db).store, jobs, i + 1);
          return Err(written.error);
        }
        results := results + [written.value];
      }
      assert jobs[..|jobs|] == jobs;
      result := Ok(results);
    }

    /** Writes in any order of the keys, then deletes. */
    method StageKv(writes: map<string, string>, deletes: seq<string>)
      modifies this
      ensures db == old(db).(kv := (old(db).kv + writes) - set k | k in deletes)
    {
      var rest := writes.Keys;
      while rest != {}
        invariant rest <= writes.Keys && db.store == old(db).store
        invariant db.kv == old(db).kv + map k | k in writes && k !in rest :: writes[k]
        decreases rest
      {
        var key :| key in rest;
        db := db.(kv := db.kv[key := writes[key]]);
        rest := rest - {key};
      }
      ghost var written := db.kv;
      for i := 0 to |deletes|
        invariant db.store == old(db).store
        invariant db.kv == written - set k | k in deletes[..i]
      {
        assert deletes[..i + 1] == deletes[..i] + [deletes[i]];
        db := db.(kv := db.kv - {deletes[i]});
      }
      assert deletes[..|deletes|] == deletes;
    }
  }

  /** A batch fails with the error of its first prefix that fails. */
  lemma {:induction false} FailsOnPrefix(s: Store, jobs: seq<PreparedJob>, n: nat)
    requires n <= |jobs| && JobsWritten(s, jobs[..n]).Err?
    ensures JobsWritten(s, jobs) == JobsWritten(s, jobs[..n])
  {
    if n < |jobs| {
      var rest := jobs[..|jobs| - 1];
      assert rest[..n] == jobs[..n];
      FailsOnPrefix(s, rest, n);
    } else {
      assert jobs[..n] == jobs;
    }
  }
}
