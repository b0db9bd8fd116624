/** The read of a run's current step with its job: two reads, repeated when the pointer moved
    between them. */
module CurrentStep {
  import opened Wrappers

  type JobId = string

  datatype StepRef = StepRef(step: nat, jobId: JobId)

  /** A committed state of the run's pointer and of the jobs of the queue, with a version of each
      job's record. */
  datatype Committed = Committed(pointer: Option<StepRef>, jobs: map<JobId, nat>)

  /** The states that commit one after the other. */
  type History = h: seq<Committed> | h != [] witness [Committed(None, map[])]

  ghost predicate PointsAt(c: Committed, id: JobId) {
    c.pointer.Some? && c.pointer.value.jobId == id
  }

  /** The pointer and its job change in one transaction. */
  ghost predicate Consistent(c: Committed) {
    c.pointer.Some? ==> c.pointer.value.jobId in c.jobs
  }

  /** A job id that the pointer leaves does not come back. */
  ghost predicate NeverRecurs(h: History) {
    forall i, j, k, id :: 0 <= i <= j <= k < |h| && PointsAt(h[i], id) && PointsAt(h[k], id) ==> PointsAt(h[j], id)
  }

  /** `clock(i)` is the state that read `i` finds. */
  ghost predicate Clock(h: History, clock: nat -> nat) {
    && (forall i :: clock(i) < |h|)
    && (forall i, j :: 0 <= i <= j ==> clock(i) <= clock(j))
  }

  /** The current step with its job. It fails only when some committed state has a pointer without
      its job, and a pair that it returns is a pointer that committed, with a later record of the
      job that it names. */
  method CurrentJob(h: History, clock: nat -> nat) returns (result: Result<Option<(StepRef, nat)>, ()>)
    requires NeverRecurs(h) && Clock(h, clock)
    ensures result.Err? ==> exists t :: 0 <= t < |h| && !Consistent(h[t])
    ensures result.Ok? && result.value.None? ==> exists t :: 0 <= t < |h| && h[t].pointer == None
    ensures result.Ok? && result.value.Some? ==> exists t, u :: ReadAt(h, result.value.value, t, u)
  {
    var absent: Option<JobId> := None;
    var read := 0;
    ghost var since := 0;
    while true
      invariant absent.Some? ==>
        && read >= 2 && PointsAt(h[clock(read - 2)], absent.value) && absent.value !in h[clock(read - 1)].jobs
        && since == clock(read - 2)
      decreases absent.None?, |h| - since
    {
      var current := h[clock(read)].pointer;
      if current.None? {
        return Ok(None);
      }
      var id := current.value.jobId;
      if id in h[clock(read + 1)].jobs {
        assert ReadAt(h, (current.value, h[clock(read + 1)].jobs[id]), clock(read), clock(read + 1));
        return Ok(Some((current.value, h[clock(read + 1)].jobs[id])));
      }
      if absent == Some(id) {
        assert PointsAt(h[clock(read - 2)], id) && PointsAt(h[clock(read)], id);
        assert PointsAt(h[clock(read - 1)], id);
        assert !Consistent(h[clock(read - 1)]);
        return Err(());
      }
      assert PointsAt(h[clock(read)], id);
      assert absent.Some? ==> clock(read - 2) != clock(read);
      since := clock(read);
      absent := Some(id);
      read := read + 2;
    }
  }

  /** The pair is the pointer of state `t` with the record of its job in state `u`. */
  ghost predicate ReadAt(h: History, pair: (StepRef, nat), t: nat, u: nat) {
    && t <= u < |h|
    && h[t].pointer == Some(pair.0)
    && pair.0.jobId in h[u].jobs && h[u].jobs[pair.0.jobId] == pair.1
  }

  /** A job id is of one step, and the versions of a job's record do not decrease. */
  ghost predicate OneStepPerJob(h: History) {
    forall i, j, id :: 0 <= i <= j < |h| && PointsAt(h[i], id) && PointsAt(h[j], id) ==> h[i].pointer == h[j].pointer
  }

  ghost predicate VersionsGrow(h: History) {
    forall i, j, id :: 0 <= i <= j < |h| && id in h[i].jobs && id in h[j].jobs ==> h[i].jobs[id] <= h[j].jobs[id]
  }

  /** `w` is the last state between the two reads that points at the job. */
  ghost predicate LastPointing(h: History, id: JobId, t: nat, u: nat, w: nat) {
    t <= w <= u < |h| && PointsAt(h[w], id) && forall x :: w < x <= u ==> !PointsAt(h[x], id)
  }

  lemma LastPointingExists(h: History, id: JobId, t: nat, u: nat) returns (w: nat)
    requires t <= u < |h| && PointsAt(h[t], id)
    ensures LastPointing(h, id, t, u, w)
  {
    w := u;
    while !PointsAt(h[w], id)
      invariant t <= w <= u && forall x :: w < x <= u ==> !PointsAt(h[x], id)
      decreases w
    {
      w := w - 1;
    }
  }

  /** The pair is of one committed state exactly when the job's record did not change after the last
      state, between the two reads, that points at the job. */
  lemma PairIsOneStateIff(h: History, pair: (StepRef, nat), t: nat, u: nat) returns (w: nat)
    requires (forall i :: 0 <= i < |h| ==> Consistent(h[i])) && NeverRecurs(h) && OneStepPerJob(h) && VersionsGrow(h)
    requires ReadAt(h, pair, t, u)
    ensures LastPointing(h, pair.0.jobId, t, u, w) && pair.0.jobId in h[w].jobs
    ensures (exists x: nat :: ReadAt(h, pair, x, x)) <==> h[w].jobs[pair.0.jobId] == pair.1
  {
    var id := pair.0.jobId;
    w := LastPointingExists(h, id, t, u);
    assert Consistent(h[w]);
    if h[w].jobs[id] == pair.1 {
      assert h[t].pointer == h[w].pointer;
      assert ReadAt(h, pair, w, w);
    }
    if x: nat :| ReadAt(h, pair, x, x) {
      assert PointsAt(h[x], id);
      if w < x {
        assert PointsAt(h[w + 1], id);
        assert w == u;
      } else {
        assert h[x].jobs[id] <= h[w].jobs[id] <= h[u].jobs[id];
      }
    }
  }

  const FIRST := Committed(Some(StepRef(0, "a")), map["a" := 0])
  const SECOND := Committed(Some(StepRef(1, "b")), map["a" := 1, "b" := 0])

  lemma TwoSteps()
    ensures forall id :: PointsAt(FIRST, id) <==> id == "a"
    ensures forall id :: PointsAt(SECOND, id) <==> id == "b"
    ensures "a" != "b"
  {
    assert "a"[0] != "b"[0];
  }

  /** The pair need not be one committed state: the pointer moves on between the reads while the
      job's record stays, as a kept done job does. */
  lemma PairCanSpanTwoStates() returns (h: History, pair: (StepRef, nat))
    ensures (forall i :: 0 <= i < |h| ==> Consistent(h[i])) && NeverRecurs(h) && OneStepPerJob(h) && VersionsGrow(h)
    ensures ReadAt(h, pair, 0, 1) && forall t :: 0 <= t < |h| ==> !ReadAt(h, pair, t, t)
  {
    TwoSteps();
    h := [FIRST, SECOND];
    pair := (StepRef(0, "a"), 1);
    assert forall i :: 0 <= i < |h| ==> h[i] == if i == 0 then FIRST else SECOND;
    assert VersionsGrow(h) by {
      assert forall id :: id in FIRST.jobs ==> id == "a";
    }
    assert ReadAt(h, pair, 0, 1);
  }
}
