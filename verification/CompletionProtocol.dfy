/** Waiters, terminal transitions and their settlements in every interleaving. A waiter registers
    before it reads the job, and a transition settles after its commit. */
module CompletionProtocol {
  import opened Wrappers
  import opened Completion

  datatype JobState = Active | Terminal(outcome: Outcome)

  /** `Reported(None)` is the report that no job has the id. */
  datatype Phase = Registered | Waiting | Reported(outcome: Option<Outcome>) | Dropped

  /** `active` says whether the job was active when the waiter registered. */
  datatype Waiter = Waiter(id: JobId, phase: Phase, active: bool)

  /** `registry` has the keys registered on each job and `sent` the outcomes on their channels.
      `settling` are the transitions that have committed and not settled, and `committed` all that
      have committed. */
  datatype State = State(
    jobs: map<JobId, JobState>,
    waiters: map<nat, Waiter>,
    registry: set<(JobId, nat)>,
    sent: map<nat, Outcome>,
    settling: map<nat, (JobId, Outcome)>,
    committed: set<(JobId, Outcome)>)

  datatype Event =
    | Enqueue(id: JobId)
    | Register(id: JobId, key: nat)
    | Read(key: nat)
    | Commit(id: JobId, outcome: Outcome, keep: bool, task: nat)
    | Settle(task: nat)
    | Skip(task: nat)
    | Withdraw(key: nat)
    | Revive(id: JobId)
    | Purge(id: JobId)

  ghost predicate Enabled(s: State, e: Event) {
    match e
    case Enqueue(id) => id !in s.jobs
    case Register(id, key) => key !in s.waiters && key !in s.sent
    case Read(key) => key in s.waiters && s.waiters[key].phase == Registered
    case Commit(id, _, _, task) => id in s.jobs && s.jobs[id] == Active && task !in s.settling
    case Settle(task) => task in s.settling
    case Skip(task) => task in s.settling && forall k: nat :: (s.settling[task].0, k) !in s.registry
    case Withdraw(key) => key in s.waiters && (s.waiters[key].phase == Registered || s.waiters[key].phase == Waiting)
    case Revive(id) => id in s.jobs && s.jobs[id] == Terminal(Dead)
    case Purge(id) => id in s.jobs && s.jobs[id].Terminal?
  }

  ghost function Apply(s: State, e: Event): State
    requires Enabled(s, e)
  {
    match e
    case Enqueue(id) => s.(jobs := s.jobs[id := Active])
    case Register(id, key) =>
      s.(waiters := s.waiters[key := Waiter(id, Registered, id in s.jobs && s.jobs[id] == Active)],
         registry := s.registry + {(id, key)})
    case Read(key) =>
      var w := s.waiters[key];
      if w.id in s.jobs && s.jobs[w.id] == Active then s.(waiters := s.waiters[key := w.(phase := Waiting)])
      else
        var outcome := if w.id in s.jobs then Some(s.jobs[w.id].outcome)
                       else if key in s.sent then Some(s.sent[key]) else None;
        s.(waiters := s.waiters[key := w.(phase := Reported(outcome))], registry := s.registry - {(w.id, key)})
    case Commit(id, outcome, keep, task) =>
      s.(jobs := if keep then s.jobs[id := Terminal(outcome)] else s.jobs - {id},
         settling := s.settling[task := (id, outcome)], committed := s.committed + {(id, outcome)})
    case Settle(task) =>
      var (id, outcome) := s.settling[task];
      s.(settling := s.settling - {task},
         sent := s.sent + map k | k in s.waiters && (id, k) in s.registry :: outcome,
         registry := set p | p in s.registry && p.0 != id)
    case Skip(task) => s.(settling := s.settling - {task})
    case Withdraw(key) =>
      var w := s.waiters[key];
      s.(waiters := s.waiters[key := w.(phase := Dropped)], registry := s.registry - {(w.id, key)})
    case Revive(id) => s.(jobs := s.jobs[id := Active])
    case Purge(id) => s.(jobs := s.jobs - {id})
  }

  // ---- The invariant ----

  ghost predicate SettlementDue(s: State, id: JobId) {
    exists t :: t in s.settling && s.settling[t].0 == id
  }

  /** The outcome is on the channel, or the waiter is registered and the job is active or about to
      settle. */
  ghost predicate WillLearn(s: State, key: nat)
    requires key in s.waiters
  {
    var id := s.waiters[key].id;
    || key in s.sent
    || ((id, key) in s.registry && ((id in s.jobs && s.jobs[id] == Active) || SettlementDue(s, id)))
  }

  ghost predicate Pending(w: Waiter) {
    w.phase == Waiting || (w.phase == Registered && w.active)
  }

  ghost predicate RegistrySound(s: State) {
    && (forall id, k: nat :: (id, k) in s.registry ==>
          k in s.waiters && s.waiters[k].id == id && k !in s.sent
          && (s.waiters[k].phase == Registered || s.waiters[k].phase == Waiting))
    && (forall k :: k in s.waiters && s.waiters[k].phase == Registered && k !in s.sent ==>
          (s.waiters[k].id, k) in s.registry)
  }

  ghost predicate OutcomesSound(s: State) {
    && (forall k :: k in s.sent ==> k in s.waiters && (s.waiters[k].id, s.sent[k]) in s.committed)
    && (forall t :: t in s.settling ==> s.settling[t] in s.committed)
    && (forall id :: id in s.jobs && s.jobs[id].Terminal? ==> (id, s.jobs[id].outcome) in s.committed)
    && (forall k :: k in s.waiters && s.waiters[k].phase.Reported? && s.waiters[k].phase.outcome.Some? ==>
          (s.waiters[k].id, s.waiters[k].phase.outcome.value) in s.committed)
  }

  ghost predicate Inv(s: State) {
    && RegistrySound(s) && OutcomesSound(s)
    && (forall k :: k in s.waiters && Pending(s.waiters[k]) ==> WillLearn(s, k))
  }

  // ---- Every step ----

  lemma RegistryStaysSound(s: State, e: Event)
    requires RegistrySound(s) && Enabled(s, e)
    ensures RegistrySound(Apply(s, e))
  {
  }

  lemma OutcomesStaySound(s: State, e: Event)
    requires RegistrySound(s) && OutcomesSound(s) && Enabled(s, e)
    ensures OutcomesSound(Apply(s, e))
  {
    if e.Settle? {
      var (id, outcome) := s.settling[e.task];
      assert (id, outcome) in s.committed;
      forall k | k in Apply(s, e).sent
        ensures k in s.waiters && (s.waiters[k].id, Apply(s, e).sent[k]) in s.committed
      {
        if (id, k) in s.registry {
          assert s.waiters[k].id == id;
        }
      }
    }
  }

  lemma SettlementStaysDue(s: State, e: Event, id: JobId)
    requires Enabled(s, e) && SettlementDue(s, id)
    requires (e.Settle? || e.Skip?) ==> s.settling[e.task].0 != id
    ensures SettlementDue(Apply(s, e), id)
  {
    var t :| t in s.settling && s.settling[t].0 == id;
    assert t in Apply(s, e).settling && Apply(s, e).settling[t].0 == id;
  }

  /** A registration outlives every step but its settlement, its report and its withdrawal. */
  lemma RegistrationStays(s: State, e: Event, k: nat)
    requires RegistrySound(s) && Enabled(s, e) && k in s.waiters && (s.waiters[k].id, k) in s.registry
    requires Pending(Apply(s, e).waiters[k]) && k !in Apply(s, e).sent
    ensures (s.waiters[k].id, k) in Apply(s, e).registry
    ensures (e.Settle? || e.Skip?) ==> s.settling[e.task].0 != s.waiters[k].id
  {
  }

  lemma StillWillLearn(s: State, e: Event, k: nat)
    requires RegistrySound(s) && Enabled(s, e) && k in s.waiters && WillLearn(s, k)
    requires Pending(Apply(s, e).waiters[k])
    ensures WillLearn(Apply(s, e), k)
  {
    var t := Apply(s, e);
    var id := s.waiters[k].id;
    if k !in t.sent {
      RegistrationStays(s, e, k);
      if e.Commit? && e.id == id {
        assert t.settling[e.task].0 == id;
      } else if SettlementDue(s, id) {
        SettlementStaysDue(s, e, id);
      }
    }
  }

  /** A waiter that becomes pending does so with the job active. */
  lemma NewlyPendingWillLearn(s: State, e: Event, k: nat)
    requires RegistrySound(s) && Enabled(s, e) && k in Apply(s, e).waiters && Pending(Apply(s, e).waiters[k])
    requires k in s.waiters ==> !Pending(s.waiters[k])
    ensures WillLearn(Apply(s, e), k)
  {
  }

  lemma StepKeepsInv(s: State, e: Event)
    requires Inv(s) && Enabled(s, e)
    ensures Inv(Apply(s, e))
  {
    RegistryStaysSound(s, e);
    OutcomesStaySound(s, e);
    forall k | k in Apply(s, e).waiters && Pending(Apply(s, e).waiters[k])
      ensures WillLearn(Apply(s, e), k)
    {
      if k in s.waiters && Pending(s.waiters[k]) {
        StillWillLearn(s, e, k);
      } else {
        NewlyPendingWillLearn(s, e, k);
      }
    }
  }

  // ---- Every run ----

  ghost predicate IsRun(s: State, run: seq<Event>)
    decreases |run|
  {
    run == [] || (Enabled(s, run[0]) && IsRun(Apply(s, run[0]), run[1..]))
  }

  ghost function Run(s: State, run: seq<Event>): State
    requires IsRun(s, run)
    decreases |run|
  {
    if run == [] then s else Run(Apply(s, run[0]), run[1..])
  }

  lemma {:induction false} RunKeepsInv(s: State, run: seq<Event>)
    requires Inv(s) && IsRun(s, run)
    ensures Inv(Run(s, run))
    decreases |run|
  {
    if run != [] {
      StepKeepsInv(s, run[0]);
      RunKeepsInv(Apply(s, run[0]), run[1..]);
    }
  }

  const EMPTY := State(map[], map[], {}, map[], map[], {})

  /** A waiter that read an active job has a committed outcome of the job on its channel, or is
      registered while the job is active or its transition is about to settle. */
  lemma NoLostCompletion(run: seq<Event>, k: nat)
    requires IsRun(EMPTY, run) && k in Run(EMPTY, run).waiters && Run(EMPTY, run).waiters[k].phase == Waiting
    ensures var s := Run(EMPTY, run);
      var id := s.waiters[k].id;
      || (k in s.sent && (id, s.sent[k]) in s.committed)
      || ((id, k) in s.registry && ((id in s.jobs && s.jobs[id] == Active) || SettlementDue(s, id)))
  {
    RunKeepsInv(EMPTY, run);
    assert WillLearn(Run(EMPTY, run), k);
  }

  /** Once no settlement is due, every waiter of a job that is not active has its outcome. */
  lemma SettledWaitersHaveOutcomes(run: seq<Event>, k: nat)
    requires IsRun(EMPTY, run) && k in Run(EMPTY, run).waiters && Run(EMPTY, run).waiters[k].phase == Waiting
    requires var s := Run(EMPTY, run);
      s.settling == map[] && (s.waiters[k].id in s.jobs ==> s.jobs[s.waiters[k].id].Terminal?)
    ensures k in Run(EMPTY, run).sent
  {
    NoLostCompletion(run, k);
  }

  /** A wait that began while the job was active reports no job exactly when it reads after the
      commit that removed the record and before that transition settles. */
  lemma NotFoundIffReadBeforeTheSettlement(run: seq<Event>, k: nat)
    requires IsRun(EMPTY, run) && Enabled(Run(EMPTY, run), Read(k)) && Run(EMPTY, run).waiters[k].active
    ensures var s := Run(EMPTY, run);
      var id := s.waiters[k].id;
      Apply(s, Read(k)).waiters[k].phase == Reported(None) <==>
      id !in s.jobs && (id, k) in s.registry && SettlementDue(s, id)
  {
    RunKeepsInv(EMPTY, run);
    assert WillLearn(Run(EMPTY, run), k);
  }

  lemma RunCons(s: State, e: Event, rest: seq<Event>)
    requires Enabled(s, e) && IsRun(Apply(s, e), rest)
    ensures IsRun(s, [e] + rest) && Run(s, [e] + rest) == Run(Apply(s, e), rest)
  {
    assert ([e] + rest)[1..] == rest;
  }

  /** A wait on an active job can report that no job has the id. */
  lemma ActiveJobCanBeNotFound() returns (run: seq<Event>)
    ensures IsRun(EMPTY, run)
    ensures var s := Run(EMPTY, run); 0 in s.waiters && s.waiters[0].active && s.waiters[0].phase == Reported(None)
  {
    var s1 := Apply(EMPTY, Enqueue("a"));
    var s2 := Apply(s1, Register("a", 0));
    var s3 := Apply(s2, Commit("a", Done, false, 0));
    RunCons(s3, Read(0), []);
    RunCons(s2, Commit("a", Done, false, 0), [Read(0)]);
    run := [Commit("a", Done, false, 0)] + [Read(0)];
    RunCons(s1, Register("a", 0), run);
    run := [Register("a", 0)] + run;
    RunCons(EMPTY, Enqueue("a"), run);
    run := [Enqueue("a")] + run;
  }
}
