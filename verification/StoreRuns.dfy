/** Every run of a queue's store: moves of jobs, settlements with their effects, enqueues with
    effects and effects alone, each one transaction. */
module StoreRuns {
  import opened Wrappers
  import opened Counts
  import opened Effects

  /** `Settle` is a terminal transition of a job with effects and `Enqueue` a new job with
      effects. A settlement that is not terminal, and an enqueue that hits a dedup key, commit
      without their effects. */
  datatype Event =
    | Move(id: JobId, transition: Transition)
    | Settle(id: JobId, transition: Transition, effects: PreparedEffects)
    | Enqueue(job: PreparedJob, effects: PreparedEffects)
    | Commit(effects: PreparedEffects)

  ghost predicate Applies(s: Store, e: PreparedEffects) {
    && PreparedSound(e.jobs) && FreshIds(s, e.jobs)
    && JobsWritten(AllChanged(s, e.countChanges), e.jobs).Ok?
  }

  ghost function Applied(s: Store, e: PreparedEffects): Store
    requires Applies(s, e)
  {
    JobsWritten(AllChanged(s, e.countChanges), e.jobs).value.0
  }

  ghost predicate Writes(s: Store, p: PreparedJob) {
    NewJob(p.job) && (p.id in s.jobs ==> p.idOverride) && JobWritten(s, p).Ok? && JobWritten(s, p).value.1.New?
  }

  predicate Terminal(t: Transition) {
    t.Finish? || t.RemoveJob?
  }

  ghost predicate Enabled(s: Store, e: Event) {
    match e
    case Move(id, t) => Allowed(s, id, t)
    case Settle(id, t, effects) => Allowed(s, id, t) && Terminal(t) && Applies(Transitioned(s, id, t), effects)
    case Enqueue(p, effects) => Writes(s, p) && Applies(JobWritten(s, p).value.0, effects)
    case Commit(effects) => Applies(s, effects)
  }

  ghost function Apply(s: Store, e: Event): Store
    requires Enabled(s, e)
  {
    match e
    case Move(id, t) => Transitioned(s, id, t)
    case Settle(id, t, effects) => Applied(Transitioned(s, id, t), effects)
    case Enqueue(p, effects) => Applied(JobWritten(s, p).value.0, effects)
    case Commit(effects) => Applied(s, effects)
  }

  ghost predicate IsRun(s: Store, run: seq<Event>)
    decreases |run|
  {
    run == [] || (Enabled(s, run[0]) && IsRun(Apply(s, run[0]), run[1..]))
  }

  ghost function Run(s: Store, run: seq<Event>): Store
    requires IsRun(s, run)
    decreases |run|
  {
    if run == [] then s else Run(Apply(s, run[0]), run[1..])
  }

  ghost function Delta(e: Event, name: string): int {
    if !e.Move? && name in e.effects.countChanges then e.effects.countChanges[name] else 0
  }

  /** The sum of the changes that a run commits to a count. */
  ghost function Sum(run: seq<Event>, name: string): int {
    if run == [] then 0 else Delta(run[0], name) + Sum(run[1..], name)
  }

  // ---- One step ----

  /** The changes of a settlement keep the invariant, one name at a time. */
  lemma {:induction false} ChangesKeepInv(s: Store, changes: map<string, int>, done: set<string>)
    requires StoreInv(s) && done <= changes.Keys
    ensures StoreInv(AllChanged(s, Restrict(changes, done)))
    decreases done
  {
    if done == {} {
      assert AllChanged(s, Restrict(changes, done)).counts == s.counts;
      assert AllChanged(s, Restrict(changes, done)).jobs == s.jobs;
    } else {
      var name :| name in done;
      var less := done - {name};
      ChangesKeepInv(s, changes, less);
      ChangeOneMore(s, changes, less, name);
      assert less + {name} == done;
      var before := AllChanged(s, Restrict(changes, less));
      CountChangeKeepsInv(before, name, changes[name]);
    }
  }

  lemma AppliedKeepsInv(s: Store, e: PreparedEffects, name: string)
    requires StoreInv(s) && Applies(s, e)
    ensures StoreInv(Applied(s, e))
    ensures RecordOf(Applied(s, e), name).active == ActiveAfter(s, e.countChanges, name)
  {
    var changed := AllChanged(s, e.countChanges);
    assert Restrict(e.countChanges, e.countChanges.Keys) == e.countChanges;
    ChangesKeepInv(s, e.countChanges, e.countChanges.Keys);
    assert changed.jobs.Keys == s.jobs.Keys;
    JobsWrittenKeepInv(changed, e.jobs);
    BatchKeepsActive(changed, e.jobs, name);
  }

  lemma SettleKeepsInv(s: Store, id: JobId, t: Transition, e: PreparedEffects, name: string)
    requires StoreInv(s) && Allowed(s, id, t) && Applies(Transitioned(s, id, t), e)
    ensures StoreInv(Applied(Transitioned(s, id, t), e))
    ensures RecordOf(Applied(Transitioned(s, id, t), e), name).active == ActiveAfter(s, e.countChanges, name)
  {
    TransitionKeepsInv(s, id, t);
    var moved := Transitioned(s, id, t);
    AppliedKeepsInv(moved, e, name);
    assert moved.counts == s.counts;
  }

  lemma EnqueueKeepsInv(s: Store, p: PreparedJob, e: PreparedEffects, name: string)
    requires StoreInv(s) && Writes(s, p) && Applies(JobWritten(s, p).value.0, e)
    ensures StoreInv(Applied(JobWritten(s, p).value.0, e))
    ensures RecordOf(Applied(JobWritten(s, p).value.0, e), name).active == ActiveAfter(s, e.countChanges, name)
  {
    JobWrittenKeepsInv(s, p);
    var written := JobWritten(s, p).value.0;
    BatchKeepsActive(s, [p], name);
    assert JobsWritten(s, [p]).value.0 == written by {
      assert [p][..0] == [] && JobsWritten(s, []) == Ok((s, []));
    }
    AppliedKeepsInv(written, e, name);
  }

  lemma StepKeepsInv(s: Store, e: Event, name: string)
    requires StoreInv(s) && Enabled(s, e)
    ensures StoreInv(Apply(s, e))
    ensures RecordOf(Apply(s, e), name).active == RecordOf(s, name).active + Delta(e, name)
  {
    match e
    case Move(id, t) => TransitionKeepsInv(s, id, t);
    case Settle(id, t, effects) => SettleKeepsInv(s, id, t, effects, name);
    case Enqueue(p, effects) => EnqueueKeepsInv(s, p, effects, name);
    case Commit(effects) => AppliedKeepsInv(s, effects, name);
  }

  // ---- Every run ----

  const EMPTY := Store(map[], map[], map[])

  lemma {:induction false} RunKeepsInv(s: Store, run: seq<Event>, name: string)
    requires StoreInv(s) && IsRun(s, run)
    ensures StoreInv(Run(s, run))
    ensures RecordOf(Run(s, run), name).active == RecordOf(s, name).active + Sum(run, name)
    decreases |run|
  {
    if run != [] {
      StepKeepsInv(s, run[0], name);
      RunKeepsInv(Apply(s, run[0]), run[1..], name);
    }
  }

  /** What the invariant says of one count. */
  lemma CountFacts(s: Store, name: string, a: JobId, b: JobId)
    requires StoreInv(s)
    ensures name in s.counts <==> RecordOf(s, name).active != 0
    ensures a in s.jobs && Waiting(s.jobs[a], name) ==> name in s.counts && s.counts[name].waiter == Some(a)
    ensures a in s.jobs && Waiting(s.jobs[a], name) && b in s.jobs && Waiting(s.jobs[b], name) ==> a == b
  {
    assert name in s.counts ==> s.counts[name].active != 0;
  }

  /** In every store that a run reaches, a record exists exactly when the changes committed to
      its count do not sum to zero, a job that waits on a count is the recorded waiter of such a
      record, and a count has at most one waiter. */
  lemma ReachableCounts(run: seq<Event>, name: string, a: JobId, b: JobId)
    requires IsRun(EMPTY, run)
    ensures var s := Run(EMPTY, run);
      && (name in s.counts <==> Sum(run, name) != 0)
      && (name in s.counts ==> s.counts[name].active == Sum(run, name))
      && (a in s.jobs && Waiting(s.jobs[a], name) ==> name in s.counts && s.counts[name].waiter == Some(a))
      && (a in s.jobs && Waiting(s.jobs[a], name) && b in s.jobs && Waiting(s.jobs[b], name) ==> a == b)
  {
    RunKeepsInv(EMPTY, run, name);
    CountFacts(Run(EMPTY, run), name, a, b);
  }

  /** In every store that a run reaches, the dedup index has exactly the keys of the pending and
      scheduled jobs. */
  lemma ReachableDedup(run: seq<Event>, queue: string, key: string, id: JobId)
    requires IsRun(EMPTY, run)
    ensures var s := Run(EMPTY, run);
      ((queue, key) in s.dedup && s.dedup[(queue, key)] == id) <==> (id in s.jobs && Holds(s.jobs[id], queue, key))
  {
    RunKeepsInv(EMPTY, run, "");
    var s := Run(EMPTY, run);
    if id in s.jobs && Holds(s.jobs[id], queue, key) {
      assert s.dedup[(queue, key)] == id;
    }
  }

  /** A commit that takes a count to zero leaves no job waiting on it. */
  lemma NoWaiterAtZero(run: seq<Event>, name: string, id: JobId)
    requires IsRun(EMPTY, run) && Sum(run, name) == 0 && id in Run(EMPTY, run).jobs
    ensures !Waiting(Run(EMPTY, run).jobs[id], name)
  {
    ReachableCounts(run, name, id, id);
  }

  // ---- The commit of effects ----

  /** A queue's committed state. */
  class Queue {
    var db: Db

    /** One settlement. On success the whole of it commits, and on an error nothing does. */
    method Settle(e: PreparedEffects, claimLive: bool) returns (result: Result<seq<EnqueueResult>, Error>)
      requires StoreInv(db.store) && PreparedSound(e.jobs) && FreshIds(db.store, e.jobs)
      modifies this
      ensures StoreInv(db.store)
      ensures result.Err? ==> db == old(db)
      ensures result.Ok? <==> (!e.fenced || claimLive) && Matches(old(db).kv, e.compares) && Settled(old(db), e).Ok?
      ensures result.Ok? ==> Settled(old(db), e) == Ok((db, result.value))
    {
      var txn := new Txn(db);
      result := txn.StageEffects(e, claimLive);
      if result.Ok? {
        AppliedKeepsInv(db.store, e, "");
        db := txn.db;
      }
    }

    /** The settlement of a claim: its transition, and with a terminal one the effects, in one
        transaction. A transition that is not terminal commits without them, and a claim that has
        ended commits nothing. */
    method SettleClaim(id: JobId, t: Transition, e: PreparedEffects, live: bool, fenceLive: bool)
      returns (result: Result<Option<seq<EnqueueResult>>, Error>)
      requires StoreInv(db.store) && PreparedSound(e.jobs)
      requires live ==> Allowed(db.store, id, t) && FreshIds(Transitioned(db.store, id, t), e.jobs)
      modifies this
      ensures StoreInv(db.store)
      ensures result.Err? ==> db == old(db)
      ensures !live ==> result == Err(ClaimLost)
      ensures live && !t.Finish? && !t.RemoveJob? ==>
        result == Ok(None) && db == old(db).(store := Transitioned(old(db).store, id, t))
      ensures live && (t.Finish? || t.RemoveJob?) ==>
        var moved := old(db).(store := Transitioned(old(db).store, id, t));
        && (result.Ok? <==> (!e.fenced || fenceLive) && Matches(moved.kv, e.compares) && Settled(moved, e).Ok?)
        && (result.Ok? ==> result.value.Some? && Settled(moved, e) == Ok((db, result.value.value)))
    {
      if !live {
        return Err(ClaimLost);
      }
      TransitionKeepsInv(db.store, id, t);
      var moved := db.(store := Transitioned(db.store, id, t));
      if !Terminal(t) {
        db := moved;
        return Ok(None);
      }
      var txn := new Txn(moved);
      var staged := txn.StageEffects(e, fenceLive);
      if staged.Err? {
        return Err(staged.error);
      }
      AppliedKeepsInv(moved.store, e, "");
      db := txn.db;
      result := Ok(Some(staged.value));
    }

    /** The preparation of effects and their commit, with the job ids that the queue generates. */
    method CommitEffects(e: SettlementEffects, generated: seq<JobId>, now: nat, claimLive: bool)
      returns (result: Result<seq<EnqueueResult>, Error>)
      requires StoreInv(db.store) && |generated| == |e.enqueues| && NewIds(db.store, e.enqueues, generated)
      modifies this
      ensures StoreInv(db.store)
      ensures result.Err? ==> db == old(db)
      ensures result.Ok? ==>
        && Matches(old(db).kv, e.compares) && (e.fenced ==> claimLive)
        && db.kv == (old(db).kv + e.kvWrites) - (set k | k in e.kvDeletes)
        && (forall k :: k in e.kvWrites ==> k in db.kv && db.kv[k] == e.kvWrites[k])
        && (forall n :: RecordOf(db.store, n).active == ActiveAfter(old(db).store, e.countChanges, n))
        && |result.value| == |e.enqueues|
        && (forall i :: 0 <= i < |e.enqueues| ==>
              StoredAsRequested(old(db).store, db.store, e, generated[i], now, i, result.value[i]))
    {
      var prepared := Prepare(e, generated, now);
      if prepared.Err? {
        return Err(prepared.error);
      }
      var p := prepared.value;
      ghost var before := db;
      result := Settle(p, claimLive);
      if result.Ok? {
        ResultsAlign(AllChanged(before.store, p.countChanges), p.jobs);
        forall n
          ensures RecordOf(db.store, n).active == ActiveAfter(before.store, p.countChanges, n)
        {
          AppliedKeepsInv(before.store, p, n);
        }
        forall i | 0 <= i < |e.enqueues|
          ensures StoredAsRequested(before.store, db.store, e, generated[i], now, i, result.value[i])
        {
          RequestIsStored(before.store, e, p, generated[i], now, i);
        }
      }
    }
  }

  /** A new job of the effects is in the store with the queue and the dedup key of its request. It is
      scheduled with the request's time and waits exactly when the time is after now and the count
      that it waits on is not zero, with the changes of the same effects, and is otherwise pending. */
  ghost predicate StoredAsRequested(before: Store, after: Store, e: SettlementEffects, generated: JobId, now: nat,
                                    i: nat, result: EnqueueResult)
    requires i < |e.enqueues|
  {
    result.New? ==>
      var r := e.enqueues[i];
      && result.id == (if r.idOverride.Some? then r.idOverride.value else generated)
      && result.id in after.jobs
      && var job := after.jobs[result.id];
         var scheduled := && r.runAt.Some? && now < r.runAt.value
                          && (r.countWait.Some? ==> ActiveAfter(before, e.countChanges, r.countWait.value) != 0);
         && job.queue == r.queue && job.dedupKey == r.dedupKey
         && (if scheduled then job == Job(r.queue, Scheduled, r.runAt, r.dedupKey, r.signalWait, r.countWait)
             else job == Job(r.queue, Pending, None, r.dedupKey, false, None))
  }

  lemma RequestIsStored(s: Store, e: SettlementEffects, p: PreparedEffects, generated: JobId, now: nat, i: nat)
    requires StoreInv(s) && Applies(s, p) && i < |p.jobs| == |e.enqueues| && p.countChanges == e.countChanges
    requires AsRequested(e.enqueues[i], generated, now, p.jobs[i])
    ensures var results := JobsWritten(AllChanged(s, p.countChanges), p.jobs).value.1;
      |results| == |p.jobs| && StoredAsRequested(s, Applied(s, p), e, generated, now, i, results[i])
  {
    NewJobIsStored(s, p, i);
  }

  lemma NewJobIsStored(s: Store, e: PreparedEffects, i: nat)
    requires StoreInv(s) && Applies(s, e) && i < |e.jobs|
    ensures var results := JobsWritten(AllChanged(s, e.countChanges), e.jobs).value.1;
      && |results| == |e.jobs|
      && (results[i].New? ==>
            && results[i].id == e.jobs[i].id && e.jobs[i].id in Applied(s, e).jobs
            && Applied(s, e).jobs[e.jobs[i].id] ==
               StoredJob(e.jobs[i], if e.jobs[i].job.countWait.Some?
                                    then ActiveAfter(s, e.countChanges, e.jobs[i].job.countWait.value) else 0))
  {
    var changed := AllChanged(s, e.countChanges);
    assert changed.jobs.Keys == s.jobs.Keys;
    BatchStoresNewJobs(changed, e.jobs, i);
    ResultsOfABatch(changed, e.jobs, i);
  }

  /** The generated ids are new in the store, in the batch and beside the ids that callers
      supply. */
  ghost predicate NewIds(s: Store, enqueues: seq<EnqueueRequest>, generated: seq<JobId>)
    requires |generated| == |enqueues|
  {
    && (forall i :: 0 <= i < |generated| ==> generated[i] !in s.jobs)
    && (forall i, j :: 0 <= i < j < |generated| ==> generated[i] != generated[j])
    && (forall i, j :: 0 <= i < |generated| && 0 <= j < |enqueues| && enqueues[j].idOverride.Some? ==>
          generated[i] != enqueues[j].idOverride.value)
  }
}
