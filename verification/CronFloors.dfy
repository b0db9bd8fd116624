/** The lookback floors of a run: every search that passes over occurrences does so at a tick that
    follows a start, a restart or a re-registration, and only up to the tick's clock reading less
    the lookback of the schedule. */
module CronFloors {
  import opened Wrappers
  import opened Decimal
  import opened CronExpressions
  import opened Cron

  /** The states of a run, before and after each event. */
  ghost predicate IsTrace(states: seq<Life>, es: seq<Event>) {
    && |states| == |es| + 1
    && forall k :: 0 <= k < |es| ==> Enabled(states[k], es[k]) && states[k + 1] == Apply(states[k], es[k])
  }

  lemma {:induction false} TraceOf(life: Life, es: seq<Event>) returns (states: seq<Life>)
    requires IsRun(life, es)
    ensures IsTrace(states, es) && states[0] == life && states[|es|] == Run(life, es)
    decreases es
  {
    if es == [] {
      states := [life];
    } else {
      var rest := TraceOf(Apply(life, es[0]), es[1..]);
      states := [life] + rest;
      forall k | 0 <= k < |es| ensures Enabled(states[k], es[k]) && states[k + 1] == Apply(states[k], es[k]) {
        if k > 0 {
          assert es[1..][k - 1] == es[k] && states[k] == rest[k - 1];
        }
      }
    }
  }

  /** The next firing is unset before event `m`, and no firing is enqueued, since the start of the
      run, a restart or a re-registration, which is before event `r`. */
  ghost predicate UnsetFrom(states: seq<Life>, es: seq<Event>, r: nat, m: nat)
    requires |states| == |es| + 1
  {
    && r <= m <= |es|
    && (r == 0 || es[r - 1].Restart? || es[r - 1].Reregister?)
    && (forall k :: r <= k <= m ==> states[k].next.None? && states[k].slot.jobs == states[r].slot.jobs)
  }

  ghost predicate UnsetSince(states: seq<Life>, es: seq<Event>, m: nat)
    requires |states| == |es| + 1
  {
    exists r :: UnsetFrom(states, es, r, m)
  }

  /** Event `m` is a tick that finds the next firing unset since a start, and `floor` is its clock
      reading less the lookback of the schedule. The tick comes after `jobs` firings, the last of
      them before the floor. */
  ghost predicate IsLookback(states: seq<Life>, es: seq<Event>, m: nat, floor: int, jobs: nat)
    requires |states| == |es| + 1
  {
    && m < |es| && es[m].TickAt? && UnsetSince(states, es, m)
    && var life := states[m];
       && life.schedule.backfill.Some?
       && floor == es[m].now - life.schedule.backfill.value.lookback
       && 0 < |life.slot.jobs| == jobs && life.slot.jobs[jobs - 1].at < floor
  }

  ghost predicate HasLookback(states: seq<Life>, es: seq<Event>, n: nat, floor: int, jobs: nat)
    requires |states| == |es| + 1
  {
    exists m :: 0 <= m < n && IsLookback(states, es, m, floor, jobs)
  }

  /** The expression has no occurrence after the last firing. */
  ghost predicate Exhausted(life: Life) {
    && life.slot.jobs != []
    && forall t :: Occurs(life.schedule.expression, t) ==> t <= life.slot.jobs[|life.slot.jobs| - 1].at
  }

  /** What holds before event `n`: an unset next firing is so since a start or is exhausted, and the
      floor of the search in flight and of every firing of the run is a lookback. */
  ghost predicate FloorsSound(states: seq<Life>, es: seq<Event>, n: nat)
    requires |states| == |es| + 1 && n <= |es|
  {
    var life := states[n];
    && Inv(life)
    && |states[0].slot.jobs| <= |life.slot.jobs|
    && (life.next.None? ==> UnsetSince(states, es, n) || Exhausted(life))
    && (life.next.Some? && life.floor.Some? ==> HasLookback(states, es, n, life.floor.value, |life.slot.jobs|))
    && (forall i :: |states[0].slot.jobs| <= i < |life.slot.jobs| && life.slot.jobs[i].floor.Some? ==>
          HasLookback(states, es, n, life.slot.jobs[i].floor.value, i))
  }

  lemma HasLookbackLater(states: seq<Life>, es: seq<Event>, n: nat, floor: int, jobs: nat)
    requires |states| == |es| + 1 && HasLookback(states, es, n, floor, jobs)
    ensures HasLookback(states, es, n + 1, floor, jobs)
  {
    var m :| 0 <= m < n && IsLookback(states, es, m, floor, jobs);
  }

  lemma UnsetLater(states: seq<Life>, es: seq<Event>, r: nat, n: nat)
    requires |states| == |es| + 1 && n < |es| && UnsetFrom(states, es, r, n)
    requires states[n + 1].next.None? && states[n + 1].slot.jobs == states[n].slot.jobs
    ensures UnsetFrom(states, es, r, n + 1)
  {
  }

  /** A search that sets the next firing raises its floor to a lookback. */
  lemma SearchRaisesToALookback(states: seq<Life>, es: seq<Event>, n: nat)
    requires IsTrace(states, es) && n < |es| && es[n].TickAt? && FloorsSound(states, es, n)
    requires states[n].next.None?
    ensures var p := Positioned(states[n], es[n].now);
      p.next.Some? && p.floor.Some? ==> HasLookback(states, es, n + 1, p.floor.value, |p.slot.jobs|)
  {
    var life := states[n];
    var p := Positioned(life, es[n].now);
    if p.next.Some? && p.floor.Some? {
      if Exhausted(life) {
        ExhaustedStaysUnset(life, es[n].now);
      }
      SignedRoundTrip(life.slot.jobs[|life.slot.jobs| - 1].at);
      assert IsLookback(states, es, n, p.floor.value, |p.slot.jobs|);
    }
  }

  /** `after` has one more firing than `life`, at the next time of `p`. */
  ghost predicate FiredFrom(life: Life, p: Life, after: Life) {
    var n := |life.slot.jobs|;
    && p.next.Some? && after.schedule == p.schedule && after.floor.None?
    && |after.slot.jobs| == n + 1 && (forall i :: 0 <= i < n ==> after.slot.jobs[i] == life.slot.jobs[i])
    && after.slot.jobs[n].at == p.next.value && after.slot.jobs[n].floor == p.floor
    && after.next == NextTimeAfter(p.schedule.expression, p.next.value)
  }

  /** A tick leaves the state, positions it, or fires at the next time and searches from there. */
  lemma TickShape(life: Life, now: int, faults: Faults)
    requires life.schedule.backfill.Some?
    requires var p := Positioned(life, now); p.next.Some? ==> (p.schedule.queue, p.next.value) !in p.slot.dedup
    ensures var p, after := Positioned(life, now), Tick(life, now, faults).0;
      (after == life && life.next.None?) || after == p || FiredFrom(life, p, after)
  {
  }

  // ---- Every event keeps the floors sound ----

  lemma EarlierLookbacksStay(states: seq<Life>, es: seq<Event>, n: nat)
    requires IsTrace(states, es) && n < |es| && FloorsSound(states, es, n)
    ensures forall i :: |states[0].slot.jobs| <= i < |states[n].slot.jobs| && states[n].slot.jobs[i].floor.Some? ==>
              HasLookback(states, es, n + 1, states[n].slot.jobs[i].floor.value, i)
  {
    forall i | |states[0].slot.jobs| <= i < |states[n].slot.jobs| && states[n].slot.jobs[i].floor.Some?
      ensures HasLookback(states, es, n + 1, states[n].slot.jobs[i].floor.value, i)
    {
      HasLookbackLater(states, es, n, states[n].slot.jobs[i].floor.value, i);
    }
  }

  /** The floor of the position that a tick fires from or leaves. */
  lemma PositionHasLookback(states: seq<Life>, es: seq<Event>, n: nat)
    requires IsTrace(states, es) && n < |es| && es[n].TickAt? && FloorsSound(states, es, n)
    ensures var p := Positioned(states[n], es[n].now);
      p.next.Some? && p.floor.Some? ==> HasLookback(states, es, n + 1, p.floor.value, |p.slot.jobs|)
  {
    if states[n].next.None? {
      SearchRaisesToALookback(states, es, n);
    } else if states[n].floor.Some? {
      HasLookbackLater(states, es, n, states[n].floor.value, |states[n].slot.jobs|);
    }
  }

  /** A state that stays unset stays so for the same reason. */
  lemma UnsetStays(states: seq<Life>, es: seq<Event>, n: nat)
    requires IsTrace(states, es) && n < |es| && FloorsSound(states, es, n)
    requires states[n].next.None? && states[n + 1].next.None? && states[n + 1].slot.jobs == states[n].slot.jobs
    requires states[n + 1].schedule == states[n].schedule
    ensures UnsetSince(states, es, n + 1) || Exhausted(states[n + 1])
  {
    if r :| UnsetFrom(states, es, r, n) {
      UnsetLater(states, es, r, n);
    }
  }

  lemma FiringKeepsFloors(states: seq<Life>, es: seq<Event>, n: nat, p: Life)
    requires |states| == |es| + 1 && n < |es| && Inv(states[n + 1]) && ValidExpression(p.schedule.expression)
    requires FiredFrom(states[n], p, states[n + 1]) && |states[0].slot.jobs| <= |states[n].slot.jobs|
    requires p.floor.Some? ==> HasLookback(states, es, n + 1, p.floor.value, |states[n].slot.jobs|)
    requires forall i :: |states[0].slot.jobs| <= i < |states[n].slot.jobs| && states[n].slot.jobs[i].floor.Some? ==>
               HasLookback(states, es, n + 1, states[n].slot.jobs[i].floor.value, i)
    ensures FloorsSound(states, es, n + 1)
  {
    NextIsLeast(p.schedule.expression, p.next.value);
  }

  lemma TickKeepsFloors(states: seq<Life>, es: seq<Event>, n: nat)
    requires IsTrace(states, es) && n < |es| && es[n].TickAt? && FloorsSound(states, es, n)
    ensures FloorsSound(states, es, n + 1)
  {
    var life, after := states[n], states[n + 1];
    var p := Positioned(life, es[n].now);
    assert Inv(after) by {
      TickKeepsInv(life, es[n].now, es[n].faults);
    }
    assert p.next.Some? ==> (p.schedule.queue, p.next.value) !in p.slot.dedup by {
      PositionedKeepsInv(life, es[n].now);
      if p.next.Some? {
        DedupKeyIsFree(p, p.schedule.queue);
      }
    }
    TickShape(life, es[n].now, es[n].faults);
    EarlierLookbacksStay(states, es, n);
    PositionHasLookback(states, es, n);
    if FiredFrom(life, p, after) {
      FiringKeepsFloors(states, es, n, p);
    } else if after.next.None? {
      UnsetStays(states, es, n);
    }
  }

  lemma OthersKeepFloors(states: seq<Life>, es: seq<Event>, n: nat)
    requires IsTrace(states, es) && n < |es| && !es[n].TickAt? && FloorsSound(states, es, n)
    ensures FloorsSound(states, es, n + 1)
  {
    StepKeepsInv(states[n], es[n]);
    EarlierLookbacksStay(states, es, n);
    if es[n].ClaimJob? {
      if states[n].next.None? {
        UnsetStays(states, es, n);
      } else if states[n].floor.Some? {
        HasLookbackLater(states, es, n, states[n].floor.value, |states[n].slot.jobs|);
      }
    } else {
      assert UnsetFrom(states, es, n + 1, n + 1);
    }
  }

  lemma StepKeepsFloors(states: seq<Life>, es: seq<Event>, n: nat)
    requires IsTrace(states, es) && n < |es| && FloorsSound(states, es, n)
    ensures FloorsSound(states, es, n + 1)
  {
    if es[n].TickAt? {
      TickKeepsFloors(states, es, n);
    } else {
      OthersKeepFloors(states, es, n);
    }
  }

  lemma FloorsStartSound(states: seq<Life>, es: seq<Event>)
    requires |states| == |es| + 1 && Inv(states[0]) && states[0].next.None?
    ensures FloorsSound(states, es, 0)
  {
    assert UnsetFrom(states, es, 0, 0);
  }

  lemma {:induction false} FloorsAreSound(states: seq<Life>, es: seq<Event>, n: nat)
    requires IsTrace(states, es) && n <= |es| && Inv(states[0]) && states[0].next.None?
    ensures FloorsSound(states, es, n)
  {
    if n == 0 {
      FloorsStartSound(states, es);
    } else {
      FloorsAreSound(states, es, n - 1);
      StepKeepsFloors(states, es, n - 1);
    }
  }

  // ---- The skipped occurrences of a run ----

  /** After the first firing of a schedule that is kept under backfill, an occurrence between two
      firings is skipped only at a tick that follows a restart or a re-registration, and only when
      it is at or before the tick's clock reading less the lookback. */
  lemma SkippedOnlyBeforeALookback(life: Life, es: seq<Event>, i: nat, t: int)
    returns (states: seq<Life>, r: nat, m: nat)
    requires New(life) && IsRun(life, es) && 0 < i < |Run(life, es).slot.jobs|
    requires var jobs := Run(life, es).slot.jobs;
      Occurs(jobs[i].expression, t) && jobs[i - 1].at < t < jobs[i].at
    ensures IsTrace(states, es) && states[0] == life && states[|es|] == Run(life, es)
    ensures 0 < r <= m < |es| && (es[r - 1].Restart? || es[r - 1].Reregister?) && es[m].TickAt?
    ensures UnsetFrom(states, es, r, m) && |states[m].slot.jobs| == i
    ensures states[m].schedule.backfill.Some? && t <= es[m].now - states[m].schedule.backfill.value.lookback
  {
    states := TraceOf(life, es);
    FloorsAreSound(states, es, |es|);
    var job := Run(life, es).slot.jobs[i];
    assert SkipsOnlyBelow(job.expression, Run(life, es).slot.jobs[i - 1].at, job.at, job.floor);
    m :| 0 <= m < |es| && IsLookback(states, es, m, job.floor.value, i);
    r :| UnsetFrom(states, es, r, m);
  }

  // ---- The firing that a search finds ----

  /** Until a restart or a re-registration, the firing that a search found is the next one. */
  lemma {:induction false} FoundIsNext(states: seq<Life>, es: seq<Event>, m: nat, n: nat)
    requires IsTrace(states, es) && m < n <= |es| && es[m].TickAt? && !es[m].faults.readFails
    requires Inv(states[m]) && states[m].next.None? && Positioned(states[m], es[m].now).next.Some?
    requires forall k :: m < k < n ==> !es[k].Restart? && !es[k].Reregister?
    ensures var i, found := |states[m].slot.jobs|, Positioned(states[m], es[m].now).next;
      && Inv(states[n])
      && (if |states[n].slot.jobs| == i then states[n].next == found
          else |states[n].slot.jobs| > i && states[n].slot.jobs[i].at == found.value)
  {
    if n == m + 1 {
      FoundStep(states[m], es[m]);
    } else {
      FoundIsNext(states, es, m, n - 1);
      FoundStep(states[n - 1], es[n - 1]);
    }
  }

  /** One event without a restart: the next firing stays, or it is enqueued after the others. */
  lemma FoundStep(life: Life, e: Event)
    requires Inv(life) && Enabled(life, e) && !e.Restart? && !e.Reregister?
    ensures var i, after := |life.slot.jobs|, Apply(life, e);
      && Inv(after) && i <= |after.slot.jobs|
      && (forall k :: 0 <= k < i ==> after.slot.jobs[k] == life.slot.jobs[k])
      && (life.next.Some? ==>
            if |after.slot.jobs| == i then after.next == life.next else after.slot.jobs[i].at == life.next.value)
      && (e.TickAt? && !e.faults.readFails && Positioned(life, e.now).next.Some? ==>
            if |after.slot.jobs| == i then after.next == Positioned(life, e.now).next
            else after.slot.jobs[i].at == Positioned(life, e.now).next.value)
  {
    StepKeepsInv(life, e);
    if e.TickAt? {
      var p := Positioned(life, e.now);
      assert p.next.Some? ==> (p.schedule.queue, p.next.value) !in p.slot.dedup by {
        PositionedKeepsInv(life, e.now);
        if p.next.Some? {
          DedupKeyIsFree(p, p.schedule.queue);
        }
      }
      TickShape(life, e.now, e.faults);
    }
  }

  /** The firing that a tick finds after a restart or a re-registration is the least occurrence after
      the later of the last firing and the clock reading less the lookback. */
  lemma FiringFollowsTheLookback(states: seq<Life>, es: seq<Event>, m: nat, n: nat)
    requires IsTrace(states, es) && m < n <= |es| && es[m].TickAt? && !es[m].faults.readFails
    requires Inv(states[m]) && states[m].next.None? && states[m].slot.jobs != []
    requires Positioned(states[m], es[m].now).next.Some?
    requires forall k :: m < k < n ==> !es[k].Restart? && !es[k].Reregister?
    requires |states[n].slot.jobs| > |states[m].slot.jobs|
    ensures var i, lookback := |states[m].slot.jobs|, states[m].schedule.backfill.value.lookback;
      var last, job := states[m].slot.jobs[i - 1], states[n].slot.jobs[i];
      InRange(es[m].now, lookback) ==>
        && IsNextAfter(states[m].schedule.expression,
                       if last.at < es[m].now - lookback then es[m].now - lookback else last.at, Some(job.at))
        && es[m].now - lookback < job.at
  {
    FoundIsNext(states, es, m, n);
    SearchStartsAt(states[m], es[m].now);
    SignedRoundTrip(states[m].slot.jobs[|states[m].slot.jobs| - 1].at);
  }
}
