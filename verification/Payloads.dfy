/** The objects that hold oversized payloads, beside the job records that name them. */
module Payloads {
  import opened Wrappers

  /** The name of a payload object, new at every offload. */
  type Ref = string

  // ---- The calls of one settlement ----

  datatype Payload = Inline(size: nat) | Offloaded(ref: Ref)

  function RefsOf(jobs: seq<Payload>): set<Ref> {
    set i | 0 <= i < |jobs| && jobs[i].Offloaded? :: jobs[i].ref
  }

  /** A payload in a record that is longer than the threshold, if there is one. */
  ghost predicate IsOversized(job: Payload, threshold: Option<nat>) {
    threshold.Some? && job.Inline? && threshold.value < job.size
  }

  /** The jobs after an offload without a failure, the object of job `i` named `names[i]`. */
  function AllOffloaded(jobs: seq<Payload>, names: seq<Ref>, threshold: Option<nat>): seq<Payload>
    requires |names| == |jobs|
  {
    seq(|jobs|, i requires 0 <= i < |jobs| =>
      if jobs[i].Inline? && threshold.Some? && jobs[i].size > threshold.value then Offloaded(names[i]) else jobs[i])
  }

  /** The payload objects of a result that is not a new job. */
  function Dropped(jobs: seq<Payload>, isNew: Option<seq<bool>>): set<Ref>
    requires isNew.Some? ==> |isNew.value| == |jobs|
  {
    set i | 0 <= i < |jobs| && jobs[i].Offloaded? && (isNew.Some? ==> !isNew.value[i]) :: jobs[i].ref
  }

  class PayloadStore {
    const threshold: Option<nat>
    var objects: set<Ref>

    /** Offloads one payload above the threshold, unless the write of the object fails. */
    method Offload(job: Payload, name: Ref, fails: bool) returns (result: Result<Payload, ()>)
      modifies this
      ensures result.Err? <==> fails && AllOffloaded([job], [name], threshold) != [job]
      ensures result.Err? ==> objects == old(objects)
      ensures result.Ok? ==> [result.value] == AllOffloaded([job], [name], threshold)
      ensures result.Ok? ==> result.value == if IsOversized(job, threshold) then Offloaded(name) else job
      ensures result.Ok? ==> objects == old(objects) + if result.value != job then {name} else {}
    {
      assert AllOffloaded([job], [name], threshold) != [job] <==> AllOffloaded([job], [name], threshold)[0] != job;
      if threshold.None? || job.Offloaded? || job.size <= threshold.value {
        return Ok(job);
      }
      if fails {
        return Err(());
      }
      objects := objects + {name};
      result := Ok(Offloaded(name));
    }

    /** Offloads the payloads in order. On a failure the objects of the earlier jobs are
        deleted, so the store is as it was. */
    method OffloadAll(jobs: seq<Payload>, names: seq<Ref>, faults: seq<bool>) returns (result: Result<seq<Payload>, ()>)
      requires |names| == |jobs| == |faults|
      requires forall i :: 0 <= i < |jobs| ==> jobs[i].Inline? && names[i] !in objects
      modifies this
      ensures result.Err? ==> objects == old(objects)
      ensures result.Ok? ==>
        && |result.value| == |jobs| && objects == old(objects) + RefsOf(result.value)
        && (forall i :: 0 <= i < |jobs| ==>
              result.value[i] == if IsOversized(jobs[i], threshold) then Offloaded(names[i]) else jobs[i])
      ensures result.Ok? <==> forall i :: 0 <= i < |jobs| && faults[i] ==> !IsOversized(jobs[i], threshold)
    {
      var done := [];
      for i := 0 to |jobs|
        invariant done == AllOffloaded(jobs[..i], names[..i], threshold)
        invariant objects == old(objects) + RefsOf(done)
        invariant RefsOf(done) !! old(objects)
        invariant forall j :: 0 <= j < i && faults[j] ==> !IsOversized(jobs[j], threshold)
      {
        var one := Offload(jobs[i], names[i], faults[i]);
        if one.Err? {
          Discard(done);
          return Err(());
        }
        OneMoreOffloaded(jobs, names, threshold, i);
        assert one.value == [one.value][0] == AllOffloaded([jobs[i]], [names[i]], threshold)[0];
        RefsOfOneMore(done, one.value);
        done := done + [one.value];
      }
      assert jobs[..|jobs|] == jobs && names[..|jobs|] == names;
      result := Ok(done);
    }

    /** Deletes the object of every job. */
    method Discard(jobs: seq<Payload>)
      modifies this
      ensures objects == old(objects) - RefsOf(jobs)
    {
      for i := 0 to |jobs|
        invariant objects == old(objects) - RefsOf(jobs[..i])
      {
        assert jobs[..i + 1] == jobs[..i] + [jobs[i]];
        RefsOfOneMore(jobs[..i], jobs[i]);
        if jobs[i].Offloaded? {
          objects := objects - {jobs[i].ref};
        }
      }
      assert jobs[..|jobs|] == jobs;
    }

    /** Ends a settlement: without a commit every object of its jobs is deleted, and after one
        those of the jobs that a dedup hit downgraded. */
    method Finish(jobs: seq<Payload>, isNew: Option<seq<bool>>)
      requires isNew.Some? ==> |isNew.value| == |jobs|
      modifies this
      ensures objects == old(objects) - Dropped(jobs, isNew)
      ensures isNew.None? ==> objects == old(objects) - RefsOf(jobs)
      ensures isNew.Some? ==>
        objects == old(objects) - set i | 0 <= i < |jobs| && jobs[i].Offloaded? && !isNew.value[i] :: jobs[i].ref
    {
      if isNew.None? {
        Discard(jobs);
        assert Dropped(jobs, isNew) == RefsOf(jobs);
        return;
      }
      for i := 0 to |jobs|
        invariant objects == old(objects) - Dropped(jobs[..i], Some(isNew.value[..i]))
      {
        DroppedOneMore(jobs, isNew.value, i);
        if !isNew.value[i] && jobs[i].Offloaded? {
          objects := objects - {jobs[i].ref};
        }
      }
      assert jobs[..|jobs|] == jobs && isNew.value[..|jobs|] == isNew.value;
    }
  }

  /** The objects of the new jobs of a settlement. */
  ghost function NewRefs(jobs: seq<Payload>, names: seq<Ref>, threshold: Option<nat>, isNew: seq<bool>): set<Ref>
    requires |jobs| == |names| == |isNew|
  {
    set i | 0 <= i < |jobs| && IsOversized(jobs[i], threshold) && isNew[i] :: names[i]
  }

  /** A settlement with its payloads: they are offloaded before the transaction, whose enqueue results
      are `isNew`, or `None` when it does not commit. Without a commit, or when an offload fails, the
      objects are as before. After a commit they are those and the objects of the new jobs. */
  method SettleWithPayloads(store: PayloadStore, jobs: seq<Payload>, names: seq<Ref>, faults: seq<bool>,
                            isNew: Option<seq<bool>>) returns (settled: bool)
    requires |names| == |jobs| == |faults| && (isNew.Some? ==> |isNew.value| == |jobs|)
    requires forall i :: 0 <= i < |jobs| ==> jobs[i].Inline? && names[i] !in store.objects
    requires forall i, j :: 0 <= i < j < |names| ==> names[i] != names[j]
    modifies store
    ensures settled <==> isNew.Some? && forall i :: 0 <= i < |jobs| && faults[i] ==> !IsOversized(jobs[i], store.threshold)
    ensures !settled ==> store.objects == old(store.objects)
    ensures settled ==> store.objects == old(store.objects) + NewRefs(jobs, names, store.threshold, isNew.value)
  {
    var offloaded := store.OffloadAll(jobs, names, faults);
    if offloaded.Err? {
      return false;
    }
    var prepared := offloaded.value;
    assert RefsOf(prepared) !! old(store.objects);
    store.Finish(prepared, isNew);
    if isNew.Some? {
      assert Dropped(prepared, isNew) <= RefsOf(prepared);
      KeptAfterFinish(prepared, isNew.value);
      KeptAreNew(prepared, jobs, names, store.threshold, isNew.value);
    }
    settled := isNew.Some?;
  }

  lemma KeptAreNew(prepared: seq<Payload>, jobs: seq<Payload>, names: seq<Ref>, threshold: Option<nat>, isNew: seq<bool>)
    requires |prepared| == |jobs| == |names| == |isNew| && forall i :: 0 <= i < |jobs| ==> jobs[i].Inline?
    requires forall i :: 0 <= i < |jobs| ==>
      prepared[i] == if IsOversized(jobs[i], threshold) then Offloaded(names[i]) else jobs[i]
    ensures (set i | 0 <= i < |prepared| && prepared[i].Offloaded? && isNew[i] :: prepared[i].ref) ==
            NewRefs(jobs, names, threshold, isNew)
  {
    forall r | r in NewRefs(jobs, names, threshold, isNew)
      ensures r in set i | 0 <= i < |prepared| && prepared[i].Offloaded? && isNew[i] :: prepared[i].ref
    {
      var i :| 0 <= i < |jobs| && IsOversized(jobs[i], threshold) && isNew[i] && names[i] == r;
      assert prepared[i].ref == r;
    }
  }

  lemma OneMoreOffloaded(jobs: seq<Payload>, names: seq<Ref>, threshold: Option<nat>, i: nat)
    requires i < |jobs| == |names|
    ensures AllOffloaded(jobs[..i + 1], names[..i + 1], threshold) ==
            AllOffloaded(jobs[..i], names[..i], threshold) + AllOffloaded([jobs[i]], [names[i]], threshold)
  {
  }

  lemma RefsOfOneMore(jobs: seq<Payload>, job: Payload)
    ensures RefsOf(jobs + [job]) == RefsOf(jobs) + if job.Offloaded? then {job.ref} else {}
  {
    var more := jobs + [job];
    forall r | r in RefsOf(jobs)
      ensures r in RefsOf(more)
    {
      var i :| 0 <= i < |jobs| && jobs[i].Offloaded? && jobs[i].ref == r;
      assert more[i] == jobs[i];
    }
    assert more[|jobs|] == job;
  }

  lemma DroppedOneMore(jobs: seq<Payload>, isNew: seq<bool>, i: nat)
    requires i < |jobs| == |isNew|
    ensures Dropped(jobs[..i + 1], Some(isNew[..i + 1])) ==
            Dropped(jobs[..i], Some(isNew[..i])) + if jobs[i].Offloaded? && !isNew[i] then {jobs[i].ref} else {}
  {
    var less, more := jobs[..i], jobs[..i + 1];
    forall r | r in Dropped(less, Some(isNew[..i]))
      ensures r in Dropped(more, Some(isNew[..i + 1]))
    {
      var j :| 0 <= j < i && less[j].Offloaded? && !isNew[..i][j] && less[j].ref == r;
      assert more[j] == less[j] && isNew[..i + 1][j] == isNew[..i][j];
    }
    assert more[i] == jobs[i] && isNew[..i + 1][i] == isNew[i];
  }

  /** The objects that remain of a settlement are those of its new jobs. */
  lemma KeptAfterFinish(jobs: seq<Payload>, isNew: seq<bool>)
    requires |isNew| == |jobs|
    requires forall i, j :: 0 <= i < j < |jobs| && jobs[i].Offloaded? && jobs[j].Offloaded? ==> jobs[i].ref != jobs[j].ref
    ensures RefsOf(jobs) - Dropped(jobs, Some(isNew)) ==
            set i | 0 <= i < |jobs| && jobs[i].Offloaded? && isNew[i] :: jobs[i].ref
  {
  }

  // ---- Settlements side by side, with crashes ----

  type OpId = nat

  /** A settlement in flight: objects written and not committed, or the deletes that are left
      after it. `dropped` are objects without a record, and `removed` are the objects of the
      records that commit `at` removed. */
  datatype Op =
    | Prepared(refs: set<Ref>)
    | Ended(dropped: set<Ref>, removed: set<Ref>, at: nat)

  /** `log[i]` has the refs of the records after commit `i`. A crash keeps the log up to some
      commit that is at or after the durable one. `clean` is lost by a crash or a failed
      delete. */
  datatype State = State(
    objects: set<Ref>,
    log: seq<set<Ref>>,
    durable: nat,
    ops: map<OpId, Op>,
    used: set<Ref>,
    clean: bool)

  datatype Event =
    | Begin(op: OpId)
    | Write(op: OpId, ref: Ref)
    | Commit(op: OpId, kept: set<Ref>, removed: set<Ref>)
    | Fail(op: OpId)
    | Flush(to: nat)
    | Delete(op: OpId, ref: Ref, deleted: bool)
    | End(op: OpId)
    | Crash(to: nat)

  function Pending(op: Op): set<Ref> {
    match op
    case Prepared(refs) => refs
    case Ended(dropped, removed, _) => dropped + removed
  }

  ghost function Last(s: State): set<Ref>
    requires s.log != []
  {
    s.log[|s.log| - 1]
  }

  ghost predicate Enabled(s: State, e: Event) {
    s.log != [] &&
    match e
    case Begin(op) => op !in s.ops
    case Write(op, ref) => op in s.ops && s.ops[op].Prepared? && ref !in s.used
    case Commit(op, kept, removed) =>
      op in s.ops && s.ops[op].Prepared? && kept <= s.ops[op].refs && removed <= Last(s)
    case Fail(op) => op in s.ops && s.ops[op].Prepared?
    case Flush(to) => s.durable <= to < |s.log|
    case Delete(op, ref, _) =>
      && op in s.ops && s.ops[op].Ended? && ref in Pending(s.ops[op])
      && (ref in s.ops[op].removed ==> s.ops[op].at <= s.durable)
    case End(op) => op in s.ops && Pending(s.ops[op]) == {}
    case Crash(to) => s.durable <= to < |s.log|
  }

  ghost function Apply(s: State, e: Event): State
    requires Enabled(s, e)
  {
    match e
    case Begin(op) => s.(ops := s.ops[op := Prepared({})])
    case Write(op, ref) =>
      s.(objects := s.objects + {ref}, ops := s.ops[op := Prepared(s.ops[op].refs + {ref})], used := s.used + {ref})
    case Commit(op, kept, removed) =>
      s.(log := s.log + [(Last(s) - removed) + kept],
         ops := s.ops[op := Ended(s.ops[op].refs - kept, removed, |s.log|)])
    case Fail(op) => s.(ops := s.ops[op := Ended(s.ops[op].refs, {}, 0)])
    case Flush(to) => s.(durable := to)
    case Delete(op, ref, deleted) =>
      var left := s.ops[op].(dropped := s.ops[op].dropped - {ref}, removed := s.ops[op].removed - {ref});
      s.(objects := if deleted then s.objects - {ref} else s.objects,
         ops := s.ops[op := left], clean := s.clean && deleted)
    case End(op) => s.(ops := s.ops - {op})
    case Crash(to) => s.(log := s.log[..to + 1], durable := to, ops := map[], clean := false)
  }

  // ---- The invariant ----

  /** Every state that a crash can return to has its objects. */
  ghost predicate Backed(s: State) {
    forall i :: s.durable <= i < |s.log| ==> s.log[i] <= s.objects
  }

  /** From which commit on no record has the ref. */
  ghost predicate GoneSince(s: State, ref: Ref, at: nat) {
    forall i :: at <= i < |s.log| && s.durable <= i ==> ref !in s.log[i]
  }

  ghost predicate OpSound(s: State, op: Op) {
    match op
    case Prepared(refs) => refs <= s.used && refs <= s.objects && forall r :: r in refs ==> GoneSince(s, r, 0)
    case Ended(dropped, removed, at) =>
      && dropped + removed <= s.used && dropped + removed <= s.objects
      && (forall r :: r in dropped ==> GoneSince(s, r, 0))
      && (forall r :: r in removed ==> GoneSince(s, r, at))
      && (removed != {} ==> at < |s.log|)
  }

  ghost predicate OpsSound(s: State) {
    && (forall o :: o in s.ops ==> OpSound(s, s.ops[o]))
    && (forall o, p :: o in s.ops && p in s.ops && o != p ==> Pending(s.ops[o]) !! Pending(s.ops[p]))
  }

  /** Every object has a record or a settlement in flight. */
  ghost predicate Owned(s: State)
    requires s.log != []
  {
    forall r :: r in s.objects ==> r in Last(s) || exists o :: o in s.ops && r in Pending(s.ops[o])
  }

  ghost predicate Inv(s: State) {
    && s.log != [] && s.durable < |s.log|
    && s.objects <= s.used
    && Backed(s) && OpsSound(s)
    && (s.clean ==> Owned(s))
  }

  // ---- Every step keeps the invariant ----

  lemma BeginKeepsInv(s: State, e: Event)
    requires Inv(s) && Enabled(s, e) && e.Begin?
    ensures Inv(Apply(s, e))
  {
    var t := Apply(s, e);
    forall r | s.clean && r in t.objects && r !in Last(t)
      ensures exists o :: o in t.ops && r in Pending(t.ops[o])
    {
      var o :| o in s.ops && r in Pending(s.ops[o]);
      assert t.ops[o] == s.ops[o];
    }
  }

  lemma WriteKeepsSound(s: State, e: Event)
    requires Inv(s) && Enabled(s, e) && e.Write?
    ensures Backed(Apply(s, e)) && OpsSound(Apply(s, e))
  {
    var t := Apply(s, e);
    assert GoneSince(t, e.ref, 0);
    forall o | o in t.ops
      ensures OpSound(t, t.ops[o])
    {
      assert OpSound(s, s.ops[o]);
    }
  }

  lemma WriteKeepsInv(s: State, e: Event)
    requires Inv(s) && Enabled(s, e) && e.Write?
    ensures Inv(Apply(s, e))
  {
    var t := Apply(s, e);
    WriteKeepsSound(s, e);
    assert e.ref in Pending(t.ops[e.op]);
    forall r | s.clean && r in s.objects && r !in Last(t)
      ensures exists o :: o in t.ops && r in Pending(t.ops[o])
    {
      var o :| o in s.ops && r in Pending(s.ops[o]);
      assert r in Pending(t.ops[o]);
    }
  }

  lemma CommitKeepsSound(s: State, e: Event)
    requires Inv(s) && Enabled(s, e) && e.Commit?
    ensures Backed(Apply(s, e)) && OpsSound(Apply(s, e))
  {
    var t := Apply(s, e);
    assert forall r, at: nat :: GoneSince(s, r, at) && r !in e.kept && at < |s.log| ==> GoneSince(t, r, at);
    forall o | o in t.ops
      ensures OpSound(t, t.ops[o])
    {
      if o != e.op {
        assert t.ops[o] == s.ops[o] && OpSound(s, s.ops[o]);
        assert Pending(s.ops[o]) !! e.kept;
      }
    }
    forall o | o in t.ops && o != e.op
      ensures Pending(t.ops[o]) !! e.removed
    {
      assert OpSound(s, s.ops[o]);
    }
  }

  lemma CommitKeepsInv(s: State, e: Event)
    requires Inv(s) && Enabled(s, e) && e.Commit?
    ensures Inv(Apply(s, e))
  {
    var t := Apply(s, e);
    CommitKeepsSound(s, e);
    forall r | s.clean && r in t.objects && r !in Last(t)
      ensures exists o :: o in t.ops && r in Pending(t.ops[o])
    {
      if r in Last(s) {
        assert r in Pending(t.ops[e.op]);
      } else {
        var o :| o in s.ops && r in Pending(s.ops[o]);
        assert r in Pending(t.ops[o]);
      }
    }
  }

  lemma FailKeepsSound(s: State, e: Event)
    requires OpsSound(s) && Enabled(s, e) && e.Fail?
    ensures OpsSound(Apply(s, e))
    ensures forall o :: o in s.ops ==> Pending(Apply(s, e).ops[o]) == Pending(s.ops[o])
  {
    var t := Apply(s, e);
    forall o | o in s.ops
      ensures Pending(t.ops[o]) == Pending(s.ops[o]) && OpSound(t, t.ops[o])
    {
      assert OpSound(s, s.ops[o]);
    }
  }

  lemma FailKeepsInv(s: State, e: Event)
    requires Inv(s) && Enabled(s, e) && e.Fail?
    ensures Inv(Apply(s, e))
  {
    var t := Apply(s, e);
    FailKeepsSound(s, e);
    forall r | s.clean && r in t.objects && r !in Last(t)
      ensures exists o :: o in t.ops && r in Pending(t.ops[o])
    {
      var o :| o in s.ops && r in Pending(s.ops[o]);
      assert r in Pending(t.ops[o]);
    }
  }

  lemma DeleteKeepsSound(s: State, e: Event)
    requires Inv(s) && Enabled(s, e) && e.Delete?
    ensures Backed(Apply(s, e)) && OpsSound(Apply(s, e))
  {
    var t := Apply(s, e);
    assert OpSound(s, s.ops[e.op]);
    assert GoneSince(s, e.ref, if e.ref in s.ops[e.op].removed then s.ops[e.op].at else 0);
    forall o | o in t.ops
      ensures Pending(t.ops[o]) <= Pending(s.ops[o]) && OpSound(t, t.ops[o])
    {
      assert OpSound(s, s.ops[o]);
    }
  }

  lemma DeleteKeepsInv(s: State, e: Event)
    requires Inv(s) && Enabled(s, e) && e.Delete?
    ensures Inv(Apply(s, e))
  {
    var t := Apply(s, e);
    DeleteKeepsSound(s, e);
    forall r | t.clean && r in t.objects && r !in Last(t)
      ensures exists o :: o in t.ops && r in Pending(t.ops[o])
    {
      var o :| o in s.ops && r in Pending(s.ops[o]);
      assert r in Pending(t.ops[o]);
    }
  }

  lemma EndKeepsInv(s: State, e: Event)
    requires Inv(s) && Enabled(s, e) && e.End?
    ensures Inv(Apply(s, e))
  {
    var t := Apply(s, e);
    forall r | s.clean && r in t.objects && r !in Last(t)
      ensures exists o :: o in t.ops && r in Pending(t.ops[o])
    {
      var o :| o in s.ops && r in Pending(s.ops[o]);
      assert o in t.ops;
    }
  }

  lemma LogKeepsInv(s: State, e: Event)
    requires Inv(s) && Enabled(s, e) && (e.Flush? || e.Crash?)
    ensures Inv(Apply(s, e))
  {
    var t := Apply(s, e);
    forall o | o in t.ops
      ensures OpSound(t, t.ops[o])
    {
      assert OpSound(s, s.ops[o]);
    }
  }

  lemma StepKeepsInv(s: State, e: Event)
    requires Inv(s) && Enabled(s, e)
    ensures Inv(Apply(s, e))
  {
    match e
    case Begin(_) => BeginKeepsInv(s, e);
    case Write(_, _) => WriteKeepsInv(s, e);
    case Commit(_, _, _) => CommitKeepsInv(s, e);
    case Fail(_) => FailKeepsInv(s, e);
    case Delete(_, _, _) => DeleteKeepsInv(s, e);
    case End(_) => EndKeepsInv(s, e);
    case _ => LogKeepsInv(s, e);
  }

  // ---- Every run ----

  ghost predicate IsRun(s: State, run: seq<Event>)
    decreases |run|
  {
    run == [] || (Enabled(s, run[0]) && IsRun(Apply(s, run[0]), run[1..]))
  }

  ghost function Run(s: State, run: seq<Event>): State
    requires IsRun(s, run)
    decreases |run|
  {
    if run == [] then s else Run(Apply(s, run[0]), run[1..])
  }

  lemma {:induction false} RunKeepsInv(s: State, run: seq<Event>)
    requires Inv(s) && IsRun(s, run)
    ensures Inv(Run(s, run))
    decreases |run|
  {
    if run != [] {
      StepKeepsInv(s, run[0]);
      RunKeepsInv(Apply(s, run[0]), run[1..]);
    }
  }

  const EMPTY := State({}, [{}], 0, map[], {}, true)

  /** At every instant each record has its object, also after a crash that keeps any of the
      commits that are not durable. */
  lemma RecordsHaveObjects(run: seq<Event>, to: nat)
    requires IsRun(EMPTY, run)
    ensures var s := Run(EMPTY, run);
      && s.log != [] && Last(s) <= s.objects
      && (Enabled(s, Crash(to)) ==> Last(Apply(s, Crash(to))) <= s.objects)
  {
    RunKeepsInv(EMPTY, run);
  }

  /** Once every settlement has ended, the objects are exactly those of the records, without a
      crash or a failed delete. */
  lemma NoOrphansAtRest(run: seq<Event>)
    requires IsRun(EMPTY, run)
    ensures var s := Run(EMPTY, run);
      s.log != [] && (s.clean && s.ops == map[] ==> s.objects == Last(s))
  {
    RunKeepsInv(EMPTY, run);
  }

  /** An ended settlement can delete each object that is left to it once its commit is durable. */
  lemma EndedCanDelete(run: seq<Event>, op: OpId, ref: Ref)
    requires IsRun(EMPTY, run)
    requires var s := Run(EMPTY, run); op in s.ops && s.ops[op].Ended? && ref in Pending(s.ops[op])
    ensures var s := Run(EMPTY, run);
      && s.log != [] && Enabled(s, Flush(|s.log| - 1))
      && Enabled(Apply(s, Flush(|s.log| - 1)), Delete(op, ref, true))
      && ref in s.objects && ref !in Last(s)
  {
    RunKeepsInv(EMPTY, run);
    var s := Run(EMPTY, run);
    assert OpSound(s, s.ops[op]);
    assert GoneSince(s, ref, if ref in s.ops[op].removed then s.ops[op].at else 0);
  }
}
