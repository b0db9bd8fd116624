/** One schedule of the cron scheduler: its ticks, its watermark and the firings it enqueues. */
module Cron {
  import opened Wrappers
  import opened Decimal
  import opened CronExpressions

  const ENQUEUE_RETRY_DELAY := 1_000

  /** The earliest time of the calendar, in milliseconds. */
  const MIN_TIME := -8_334_601_228_800_000

  const MAX_DURATION := 9_223_372_036_854_775_807

  datatype BackfillStart = CurrentTime | Lookback

  datatype Backfill = Backfill(lookback: nat, start: BackfillStart)

  datatype Schedule = Schedule(
    name: string,
    expression: Expression,
    queue: string,
    payload: seq<int>,
    headers: map<string, string>,
    priority: Option<nat>,
    maxAttempts: Option<nat>,
    backfill: Option<Backfill>)

  /** An enqueued job: the headers of its firing time and of the occurrence before it. The last
      two fields are the history of the search that found it: the expression, and the lookback
      floor that the search started at. */
  datatype Firing = Firing(at: int, previous: Option<int>, expression: Expression, floor: Option<int>)

  /** The stored state of one schedule's name: the watermark text, the dedup keys of its
      pending jobs by queue and firing time, and its jobs in commit order. */
  datatype Slot = Slot(watermark: Option<string>, dedup: set<(string, int)>, jobs: seq<Firing>)

  /** The calls of one tick that fail without a commit. */
  datatype Faults = Faults(readFails: bool, enqueueFails: bool, putFails: bool)

  const NO_FAULTS := Faults(false, false, false)

  function ParseWatermark(value: string): Option<int> {
    ParseSigned(value)
  }

  function LookbackFloor(now: int, lookback: nat): Option<int> {
    if lookback > MAX_DURATION || now - lookback < MIN_TIME then None else Some(now - lookback)
  }

  /** Where the search of a schedule without a next firing starts, with the lookback floor when
      the floor raised it above the watermark. */
  function InitialAnchor(schedule: Schedule, watermark: Option<string>, now: int): (int, Option<int>) {
    match schedule.backfill
    case None => (now, None)
    case Some(backfill) =>
      match watermark
      case None =>
        (match backfill.start
         case CurrentTime => (now, None)
         case Lookback =>
           match LookbackFloor(now, backfill.lookback)
           case None => (now, None)
           case Some(floor) => (floor, None))
      case Some(raw) =>
        match ParseWatermark(raw)
        case None => (now, None)
        case Some(mark) =>
          match LookbackFloor(now, backfill.lookback)
          case Some(floor) => if mark < floor then (floor, Some(floor)) else (mark, None)
          case None => (mark, None)
  }

  /** The firing of `schedule` at `at`, and whether the call succeeded. Under backfill the
      watermark commits with the job, and a dedup hit advances it alone. */
  function Fire(schedule: Schedule, slot: Slot, at: int, floor: Option<int>, faults: Faults): (Slot, bool) {
    var mark := Some(SignedText(at));
    var backfill := schedule.backfill.Some?;
    if faults.enqueueFails then (slot, false)
    else if (schedule.queue, at) in slot.dedup then
      if backfill && faults.putFails then (slot, false)
      else (if backfill then slot.(watermark := mark) else slot, true)
    else
      var job := Firing(at, PreviousTimeBefore(schedule.expression, at), schedule.expression, floor);
      (Slot(if backfill then mark else slot.watermark,
            slot.dedup + {(schedule.queue, at)}, slot.jobs + [job]), true)
  }

  /** A registered schedule with its position in the occurrence sequence. `floor` is the history
      of the search that set `next`. */
  datatype Life = Life(schedule: Schedule, next: Option<int>, floor: Option<int>, slot: Slot)

  /** The state after the next firing is searched, when it is not set. */
  function Positioned(life: Life, now: int): Life {
    if life.next.Some? then life
    else
      var (anchor, floor) := InitialAnchor(life.schedule, life.slot.watermark, now);
      life.(next := NextTimeAfter(life.schedule.expression, anchor), floor := floor)
  }

  predicate Due(life: Life, now: int) {
    life.next.Some? && life.next.value <= now
  }

  /** One tick: the state after it and the instant the entry needs attention next. */
  function Tick(life: Life, now: int, faults: Faults): (Life, Option<int>) {
    if life.next.None? && life.schedule.backfill.Some? && faults.readFails then
      (life, Some(now + ENQUEUE_RETRY_DELAY))
    else
      var p := Positioned(life, now);
      if !Due(p, now) then (p, p.next)
      else
        var (slot, fired) := Fire(p.schedule, p.slot, p.next.value, p.floor, faults);
        if p.schedule.backfill.Some? then
          if fired then
            var next := NextTimeAfter(p.schedule.expression, p.next.value);
            (p.(slot := slot, next := next, floor := None), next)
          else (p, Some(now + ENQUEUE_RETRY_DELAY))
        else
          var next := NextTimeAfter(p.schedule.expression, now);
          (p.(slot := slot, next := next, floor := None), next)
  }

  // ---- Where a search starts, and what a tick returns ----

  /** The lookback is one that the calendar can subtract from the clock reading. */
  predicate InRange(now: int, lookback: nat) {
    lookback <= MAX_DURATION && MIN_TIME <= now - lookback
  }

  /** The search of an unset next firing. Without backfill, and at a current-time start, it finds the
      least occurrence after the clock reading. Without a watermark a lookback start finds the least
      occurrence after the lookback. With one it finds the least occurrence after the later of the
      watermark and the lookback. An unreadable watermark is as a start at the current time. */
  lemma SearchStartsAt(life: Life, now: int)
    requires ValidExpression(life.schedule.expression) && life.next.None?
    ensures var e, next, mark := life.schedule.expression, Positioned(life, now).next, life.slot.watermark;
      match life.schedule.backfill
      case None => IsNextAfter(e, now, next)
      case Some(Backfill(lookback, start)) =>
        if mark.None? then
          IsNextAfter(e, if start.Lookback? && InRange(now, lookback) then now - lookback else now, next)
        else
          var at := ParseSigned(mark.value);
          if at.None? then IsNextAfter(e, now, next)
          else IsNextAfter(e, if InRange(now, lookback) && at.value < now - lookback then now - lookback else at.value, next)
    ensures Positioned(life, now).slot == life.slot && Positioned(life, now).schedule == life.schedule
  {
    NextIsLeast(life.schedule.expression, InitialAnchor(life.schedule, life.slot.watermark, now).0);
  }

  /** A tick whose watermark read or whose enqueue fails leaves the firing and asks for attention a
      second later, under backfill. A tick before the next firing asks for it at the firing. */
  lemma FailedCallsRetry(life: Life, now: int, faults: Faults)
    ensures var p := Positioned(life, now);
      var (after, wake) := Tick(life, now, faults);
      var reading := life.schedule.backfill.Some? && life.next.None?;
      if reading && faults.readFails then after == life && wake == Some(now + 1_000)
      else if p.next.None? || now < p.next.value then after == p && wake == p.next
      else life.schedule.backfill.Some? && faults.enqueueFails ==> after == p && wake == Some(now + 1_000)
  {
  }

  /** Without backfill a due tick skips to the clock reading whether its enqueue fails or not, and
      never writes a watermark. */
  lemma NoBackfillSkipsToNow(life: Life, now: int, faults: Faults)
    requires ValidExpression(life.schedule.expression) && life.schedule.backfill.None?
    ensures var p := Positioned(life, now);
      var (after, wake) := Tick(life, now, faults);
      && after.slot.watermark == life.slot.watermark
      && (Due(p, now) ==> IsNextAfter(life.schedule.expression, now, after.next) && wake == after.next)
      && (faults.enqueueFails ==> after.slot == life.slot)
  {
    NextIsLeast(life.schedule.expression, now);
  }

  /** Under backfill a firing that succeeds leaves the watermark at its time and the next firing at
      the least occurrence after it. The job is new unless one of that time is pending. */
  lemma FiringMovesTheWatermark(life: Life, now: int, faults: Faults)
    requires ValidExpression(life.schedule.expression) && life.schedule.backfill.Some? && Due(life, now)
    requires !faults.enqueueFails && ((life.schedule.queue, life.next.value) in life.slot.dedup ==> !faults.putFails)
    ensures var after := Tick(life, now, faults).0;
      && after.slot.watermark.Some? && ParseSigned(after.slot.watermark.value) == Some(life.next.value)
      && IsNextAfter(life.schedule.expression, life.next.value, after.next)
      && FiringTimes(after.slot.jobs) == FiringTimes(life.slot.jobs) +
         (if (life.schedule.queue, life.next.value) in life.slot.dedup then [] else [life.next.value])
      && (life.schedule.queue, life.next.value) in after.slot.dedup
  {
    SignedRoundTrip(life.next.value);
    NextIsLeast(life.schedule.expression, life.next.value);
  }

  ghost function FiringTimes(jobs: seq<Firing>): seq<int> {
    seq(|jobs|, i requires 0 <= i < |jobs| => jobs[i].at)
  }

  // ---- A schedule kept under backfill, over any run ----

  datatype Event =
    | TickAt(now: int, faults: Faults)
    | Restart
    | Reregister(schedule: Schedule)
    | ClaimJob(queue: string, at: int)

  ghost predicate Enabled(life: Life, e: Event) {
    e.Reregister? ==>
      e.schedule.name == life.schedule.name && e.schedule.backfill.Some? && ValidExpression(e.schedule.expression)
  }

  ghost function Apply(life: Life, e: Event): Life {
    match e
    case TickAt(now, faults) => Tick(life, now, faults).0
    case Restart => life.(next := None, floor := None)
    case Reregister(schedule) => life.(schedule := schedule, next := None, floor := None)
    // The claim of a pending job releases its dedup key.
    case ClaimJob(queue, at) => life.(slot := life.slot.(dedup := life.slot.dedup - {(queue, at)}))
  }

  ghost predicate IsRun(life: Life, es: seq<Event>)
    decreases es
  {
    es == [] || (Enabled(life, es[0]) && IsRun(Apply(life, es[0]), es[1..]))
  }

  ghost function Run(life: Life, es: seq<Event>): Life
    decreases es
  {
    if es == [] then life else Run(Apply(life, es[0]), es[1..])
  }

  /** Every occurrence between `last` and `next` is at or before the lookback floor of the
      search, so without a floor there is none. */
  ghost predicate SkipsOnlyBelow(e: Expression, last: int, next: int, floor: Option<int>) {
    forall t :: Occurs(e, t) && last < t < next ==> floor.Some? && t <= floor.value
  }

  ghost predicate FiringSound(job: Firing) {
    && ValidExpression(job.expression)
    && Occurs(job.expression, job.at)
    && IsPreviousBefore(job.expression, job.at, job.previous)
  }

  ghost predicate JobsSound(jobs: seq<Firing>) {
    && (forall i :: 0 <= i < |jobs| ==> FiringSound(jobs[i]))
    && (forall i, j :: 0 <= i < j < |jobs| ==> jobs[i].at < jobs[j].at)
    && (forall i :: 0 < i < |jobs| ==>
          SkipsOnlyBelow(jobs[i].expression, jobs[i - 1].at, jobs[i].at, jobs[i].floor))
  }

  ghost predicate WatermarkSound(slot: Slot) {
    slot.watermark == if slot.jobs == [] then None else Some(SignedText(slot.jobs[|slot.jobs| - 1].at))
  }

  ghost predicate DedupSound(slot: Slot) {
    forall q, t :: (q, t) in slot.dedup ==> exists i :: 0 <= i < |slot.jobs| && slot.jobs[i].at == t
  }

  ghost predicate NextSound(life: Life) {
    life.next.Some? ==>
      && Occurs(life.schedule.expression, life.next.value)
      && (life.slot.jobs != [] ==>
            var last := life.slot.jobs[|life.slot.jobs| - 1].at;
            && last < life.next.value
            && SkipsOnlyBelow(life.schedule.expression, last, life.next.value, life.floor))
  }

  ghost predicate Inv(life: Life) {
    && life.schedule.backfill.Some?
    && ValidExpression(life.schedule.expression)
    && JobsSound(life.slot.jobs)
    && WatermarkSound(life.slot)
    && DedupSound(life.slot)
    && NextSound(life)
  }

  /** The search from the watermark or the floor passes over nothing above the floor. */
  lemma PositionedKeepsInv(life: Life, now: int)
    requires Inv(life)
    ensures Inv(Positioned(life, now))
  {
    if life.next.None? {
      var (anchor, floor) := InitialAnchor(life.schedule, life.slot.watermark, now);
      NextIsLeast(life.schedule.expression, anchor);
      if life.slot.jobs != [] {
        SignedRoundTrip(life.slot.jobs[|life.slot.jobs| - 1].at);
      }
    }
  }

  /** A due firing is later than every job, so its dedup key is free. */
  lemma DedupKeyIsFree(life: Life, queue: string)
    requires Inv(life) && life.next.Some?
    ensures (queue, life.next.value) !in life.slot.dedup
  {
  }

  /** A firing after the last one, found by a search that skips nothing above its floor. */
  lemma AppendKeepsJobs(jobs: seq<Firing>, job: Firing)
    requires JobsSound(jobs) && FiringSound(job)
    requires jobs != [] ==>
      jobs[|jobs| - 1].at < job.at && SkipsOnlyBelow(job.expression, jobs[|jobs| - 1].at, job.at, job.floor)
    ensures JobsSound(jobs + [job])
  {
  }

  lemma AppendKeepsDedup(slot: Slot, queue: string, job: Firing, watermark: Option<string>)
    requires DedupSound(slot)
    ensures DedupSound(Slot(watermark, slot.dedup + {(queue, job.at)}, slot.jobs + [job]))
  {
    var jobs := slot.jobs + [job];
    forall q, t | (q, t) in slot.dedup + {(queue, job.at)} ensures exists i :: 0 <= i < |jobs| && jobs[i].at == t {
      if (q, t) in slot.dedup {
        var i :| 0 <= i < |slot.jobs| && slot.jobs[i].at == t;
        assert jobs[i].at == t;
      } else {
        assert jobs[|slot.jobs|].at == t;
      }
    }
  }

  lemma FireKeepsSlot(life: Life, faults: Faults)
    requires Inv(life) && life.next.Some? && !faults.enqueueFails
    ensures var slot := Fire(life.schedule, life.slot, life.next.value, life.floor, faults).0;
      && JobsSound(slot.jobs) && WatermarkSound(slot) && DedupSound(slot)
      && |slot.jobs| == |life.slot.jobs| + 1
      && slot.jobs[..|life.slot.jobs|] == life.slot.jobs
      && slot.jobs[|life.slot.jobs|].at == life.next.value
      && slot.jobs[|life.slot.jobs|].expression == life.schedule.expression
    ensures Fire(life.schedule, life.slot, life.next.value, life.floor, faults).1
  {
    DedupKeyIsFree(life, life.schedule.queue);
    var at := life.next.value;
    PreviousIsGreatest(life.schedule.expression, at);
    var job := Firing(at, PreviousTimeBefore(life.schedule.expression, at), life.schedule.expression, life.floor);
    AppendKeepsJobs(life.slot.jobs, job);
    AppendKeepsDedup(life.slot, life.schedule.queue, job, Some(SignedText(at)));
    assert Fire(life.schedule, life.slot, at, life.floor, faults).0 ==
           Slot(Some(SignedText(at)), life.slot.dedup + {(life.schedule.queue, at)}, life.slot.jobs + [job]);
  }

  lemma TickKeepsInv(life: Life, now: int, faults: Faults)
    requires Inv(life)
    ensures Inv(Tick(life, now, faults).0)
  {
    PositionedKeepsInv(life, now);
    var p := Positioned(life, now);
    if Due(p, now) && !faults.enqueueFails {
      FireKeepsSlot(p, faults);
      NextIsLeast(p.schedule.expression, p.next.value);
    }
  }

  lemma StepKeepsInv(life: Life, e: Event)
    requires Inv(life) && Enabled(life, e)
    ensures Inv(Apply(life, e))
  {
    if e.TickAt? {
      TickKeepsInv(life, e.now, e.faults);
    }
  }

  /** A new schedule under backfill without a watermark. */
  ghost predicate New(life: Life) {
    && life.schedule.backfill.Some? && ValidExpression(life.schedule.expression)
    && life.next.None? && life.slot == Slot(None, {}, [])
  }

  /** Over any run of ticks at any clock readings, failed calls, restarts and changes of the
      schedule: the firings strictly increase, the watermark is the last one, and between two
      firings only occurrences at or before a lookback floor are skipped. */
  lemma {:induction false} BackfillRunIsSound(life: Life, es: seq<Event>)
    requires Inv(life) && IsRun(life, es)
    ensures Inv(Run(life, es))
    decreases es
  {
    if es != [] {
      StepKeepsInv(life, es[0]);
      BackfillRunIsSound(Apply(life, es[0]), es[1..]);
    }
  }

  lemma NewBackfillRunIsSound(life: Life, es: seq<Event>)
    requires New(life) && IsRun(life, es)
    ensures JobsSound(Run(life, es).slot.jobs) && WatermarkSound(Run(life, es).slot)
  {
    BackfillRunIsSound(life, es);
  }

  /** The header intervals of two consecutive firings meet without a gap and without an overlap
      exactly when the expression of the second has the first firing and no occurrence between the
      two. Firings of one expression meet unless a lookback floor was between them. */
  lemma ConsecutiveIntervalsTile(life: Life, i: nat)
    requires Inv(life) && 0 < i < |life.slot.jobs|
    ensures var last, job := life.slot.jobs[i - 1], life.slot.jobs[i];
      && (job.previous == Some(last.at) <==>
            Occurs(job.expression, last.at) && forall t :: Occurs(job.expression, t) ==> !(last.at < t < job.at))
      && (job.expression == last.expression && (job.floor.None? || job.floor.value <= last.at) ==>
            job.previous == Some(last.at))
  {
    var last, job := life.slot.jobs[i - 1], life.slot.jobs[i];
    assert FiringSound(last) && FiringSound(job) && last.at < job.at;
    assert SkipsOnlyBelow(job.expression, last.at, job.at, job.floor);
  }

  // ---- Repeated ticks at one time ----

  /** The occurrences after `anchor` and at or before `now`. */
  ghost function Between(times: seq<int>, anchor: int, now: int): seq<int> {
    if times == [] then []
    else (if anchor < times[0] <= now then [times[0]] else []) + Between(times[1..], anchor, now)
  }

  /** The due firings of an entry that are not enqueued yet. Without backfill at most one is
      left, because the search skips to `now` after it. */
  ghost function Remaining(life: Life, now: int): seq<int> {
    var p := Positioned(life, now);
    if !Due(p, now) then []
    else if p.schedule.backfill.Some? then Between(p.schedule.expression.times, p.next.value - 1, now)
    else [p.next.value]
  }

  lemma {:induction false} BetweenSplits(e: Expression, first: int, now: int)
    requires ValidExpression(e) && Occurs(e, first) && first <= now
    ensures Between(e.times, first - 1, now) == [first] + Between(e.times, first, now)
    decreases |e.times|
  {
    var rest := e.(times := e.times[1..]);
    if e.times[0] == first {
      BetweenAgrees(rest, first - 1, first, now);
    } else {
      var i :| 0 <= i < |e.times| && e.times[i] == first;
      assert rest.times[i - 1] == first;
      BetweenSplits(rest, first, now);
    }
  }

  lemma {:induction false} BetweenAgrees(e: Expression, a: int, b: int, now: int)
    requires forall t :: Occurs(e, t) ==> (a < t <==> b < t)
    ensures Between(e.times, a, now) == Between(e.times, b, now)
    decreases |e.times|
  {
    if e.times != [] {
      assert Occurs(e, e.times[0]);
      var rest := e.(times := e.times[1..]);
      forall t | Occurs(rest, t) ensures Occurs(e, t) {
        assert t in e.times[1..];
      }
      BetweenAgrees(rest, a, b, now);
    }
  }

  lemma {:induction false} BetweenEmpty(e: Expression, anchor: int, now: int)
    requires forall t :: Occurs(e, t) ==> t <= anchor || now < t
    ensures Between(e.times, anchor, now) == []
    decreases |e.times|
  {
    if e.times != [] {
      assert Occurs(e, e.times[0]);
      var rest := e.(times := e.times[1..]);
      forall t | Occurs(rest, t) ensures Occurs(e, t) {
        assert t in e.times[1..];
      }
      BetweenEmpty(rest, anchor, now);
    }
  }

  /** The entries that the theorem is about: with backfill as above, without backfill any. */
  ghost predicate Tickable(life: Life) {
    ValidExpression(life.schedule.expression) && (life.schedule.backfill.Some? ==> Inv(life))
  }

  /** The due occurrences after `at` are those from the next one on. */
  lemma BetweenFromNext(e: Expression, at: int, next: Option<int>, now: int)
    requires ValidExpression(e) && IsNextAfter(e, at, next)
    ensures Between(e.times, at, now) ==
            if next.Some? && next.value <= now then Between(e.times, next.value - 1, now) else []
  {
    if next.Some? && next.value <= now {
      BetweenAgrees(e, at, next.value - 1, now);
    } else {
      BetweenEmpty(e, at, now);
    }
  }

  /** A schedule without an occurrence after its last firing is not positioned again. */
  lemma ExhaustedStaysUnset(life: Life, now: int)
    requires Inv(life) && life.next.None? && life.slot.jobs != []
    requires forall t :: Occurs(life.schedule.expression, t) ==> t <= life.slot.jobs[|life.slot.jobs| - 1].at
    ensures Positioned(life, now).next.None?
  {
    PositionedKeepsInv(life, now);
  }

  /** The remaining firings of a schedule that was last fired at `at`. */
  lemma RemainingAfter(life: Life, at: int, now: int)
    requires Inv(life) && life.slot.jobs != [] && life.slot.jobs[|life.slot.jobs| - 1].at == at
    requires life.next == NextTimeAfter(life.schedule.expression, at)
    ensures Remaining(life, now) == Between(life.schedule.expression.times, at, now)
  {
    NextIsLeast(life.schedule.expression, at);
    BetweenFromNext(life.schedule.expression, at, life.next, now);
    if life.next.None? {
      ExhaustedStaysUnset(life, now);
    }
  }

  /** The job of the firing at `at` is pending already, which suppresses it. */
  predicate Suppressed(life: Life, at: int) {
    (life.schedule.queue, at) in life.slot.dedup
  }

  /** What one tick does to the remaining firings: the first is enqueued, unless its job is
      pending already, and the others remain. */
  ghost predicate FiresTheFirst(life: Life, after: Life, remaining: seq<int>, left: seq<int>) {
    if remaining == [] then after.slot == life.slot && left == []
    else
      && left == remaining[1..]
      && (if Suppressed(life, remaining[0]) then after.slot == life.slot
          else
            && |after.slot.jobs| == |life.slot.jobs| + 1
            && after.slot.jobs[..|life.slot.jobs|] == life.slot.jobs
            && after.slot.jobs[|life.slot.jobs|].at == remaining[0])
  }

  /** The state of a schedule under backfill after the firing at its next time. */
  ghost function Fired(life: Life): Life
    requires life.next.Some?
  {
    life.(slot := Fire(life.schedule, life.slot, life.next.value, life.floor, NO_FAULTS).0,
          next := NextTimeAfter(life.schedule.expression, life.next.value), floor := None)
  }

  lemma DueTick(life: Life, now: int)
    requires life.schedule.backfill.Some? && Due(Positioned(life, now), now)
    requires !Suppressed(Positioned(life, now), Positioned(life, now).next.value)
    ensures Tick(life, now, NO_FAULTS).0 == Fired(Positioned(life, now))
  {
  }

  lemma FiredAppends(life: Life)
    requires life.next.Some? && life.schedule.backfill.Some? && !Suppressed(life, life.next.value)
    ensures var jobs := Fired(life).slot.jobs;
      && |jobs| == |life.slot.jobs| + 1 && jobs[..|life.slot.jobs|] == life.slot.jobs
      && jobs[|life.slot.jobs|].at == life.next.value
  {
  }

  lemma FiredRemaining(life: Life, now: int)
    requires Inv(life) && Due(life, now) && Inv(Fired(life)) && !Suppressed(life, life.next.value)
    ensures Remaining(life, now) == [life.next.value] + Remaining(Fired(life), now)
  {
    var at, times := life.next.value, life.schedule.expression.times;
    FiredAppends(life);
    RemainingAfter(Fired(life), at, now);
    BetweenSplits(life.schedule.expression, at, now);
    assert Remaining(life, now) == Between(times, at - 1, now);
  }

  lemma FiresTheFirstOf(life: Life, after: Life, first: int, left: seq<int>)
    requires !Suppressed(life, first)
    requires |after.slot.jobs| == |life.slot.jobs| + 1 && after.slot.jobs[..|life.slot.jobs|] == life.slot.jobs
    requires after.slot.jobs[|life.slot.jobs|].at == first
    ensures FiresTheFirst(life, after, [first] + left, left)
  {
  }

  lemma FiredFiresTheFirst(life: Life, now: int)
    requires Inv(life) && Due(life, now) && Inv(Fired(life))
    ensures !Suppressed(life, life.next.value)
    ensures FiresTheFirst(life, Fired(life), Remaining(life, now), Remaining(Fired(life), now))
    ensures Remaining(life, now) != [] && Remaining(life, now)[0] == life.next.value
  {
    assert !Suppressed(life, life.next.value) by {
      DedupKeyIsFree(life, life.schedule.queue);
    }
    FiredRemaining(life, now);
    FiredAppends(life);
    FiresTheFirstOf(life, Fired(life), life.next.value, Remaining(Fired(life), now));
  }

  lemma BackfillTickFiresTheFirst(life: Life, now: int)
    requires Inv(life)
    ensures var after := Tick(life, now, NO_FAULTS).0;
      && Inv(after)
      && FiresTheFirst(life, after, Remaining(life, now), Remaining(after, now))
      && (Remaining(life, now) != [] ==> !Suppressed(life, Remaining(life, now)[0]))
  {
    var p := Positioned(life, now);
    PositionedKeepsInv(life, now);
    TickKeepsInv(life, now, NO_FAULTS);
    if Due(p, now) {
      DedupKeyIsFree(p, p.schedule.queue);
      DueTick(life, now);
      FiredFiresTheFirst(p, now);
    }
  }

  /** Under backfill a firing is never suppressed. */
  lemma TickFiresTheFirst(life: Life, now: int)
    requires Tickable(life)
    ensures var after := Tick(life, now, NO_FAULTS).0;
      && Tickable(after)
      && FiresTheFirst(life, after, Remaining(life, now), Remaining(after, now))
  {
    if life.schedule.backfill.Some? {
      BackfillTickFiresTheFirst(life, now);
    } else {
      NextIsLeast(life.schedule.expression, now);
    }
  }

  /** The firings enqueued and those that remain due. Ticks at one time move a firing from the
      second part to the first. */
  ghost function Account(life: Life, now: int): seq<int> {
    FiringTimes(life.slot.jobs) + Remaining(life, now)
  }

  lemma AccountMoves(life: Life, after: Life, remaining: seq<int>, left: seq<int>)
    requires FiresTheFirst(life, after, remaining, left)
    requires remaining != [] ==> !Suppressed(life, remaining[0])
    ensures FiringTimes(after.slot.jobs) + left == FiringTimes(life.slot.jobs) + remaining
  {
    if remaining != [] {
      var n := |life.slot.jobs|;
      assert forall i :: 0 <= i < n ==> after.slot.jobs[i] == after.slot.jobs[..n][i];
      assert FiringTimes(after.slot.jobs) == FiringTimes(life.slot.jobs) + [remaining[0]];
    }
  }

  lemma TickKeepsAccount(life: Life, now: int)
    requires Inv(life)
    ensures Account(Tick(life, now, NO_FAULTS).0, now) == Account(life, now)
  {
    BackfillTickFiresTheFirst(life, now);
    var after := Tick(life, now, NO_FAULTS).0;
    AccountMoves(life, after, Remaining(life, now), Remaining(after, now));
  }

  lemma WakeIsNext(life: Life, now: int)
    ensures Tick(life, now, NO_FAULTS).1 == Tick(life, now, NO_FAULTS).0.next
  {
  }

  lemma NextIsDueIffRemaining(life: Life, now: int)
    requires ValidExpression(life.schedule.expression) && NextSound(life) && life.next.Some?
    ensures Due(life, now) <==> Remaining(life, now) != []
  {
    if Due(life, now) {
      BetweenSplits(life.schedule.expression, life.next.value, now);
    }
  }

  /** The instant a tick returns is due exactly while a firing remains. */
  lemma WakeIsDueWhileFiringsRemain(life: Life, now: int)
    requires Inv(life)
    ensures var (after, wake) := Tick(life, now, NO_FAULTS);
      (wake.Some? && wake.value <= now) <==> Remaining(after, now) != []
  {
    WakeIsNext(life, now);
    TickKeepsInv(life, now, NO_FAULTS);
    var after := Tick(life, now, NO_FAULTS).0;
    if after.next.Some? {
      NextIsDueIffRemaining(after, now);
    } else {
      UnsetAfterTickIsIdle(life, now);
    }
  }

  lemma UnsetAfterTickIsIdle(life: Life, now: int)
    requires Inv(life) && Tick(life, now, NO_FAULTS).0.next.None?
    ensures Remaining(Tick(life, now, NO_FAULTS).0, now) == []
  {
    var p := Positioned(life, now);
    PositionedKeepsInv(life, now);
    if Due(p, now) {
      DedupKeyIsFree(p, p.schedule.queue);
      DueTick(life, now);
      TickKeepsInv(life, now, NO_FAULTS);
      FireKeepsSlot(p, NO_FAULTS);
      RemainingAfter(Fired(p), p.next.value, now);
      NextIsLeast(p.schedule.expression, p.next.value);
      BetweenFromNext(p.schedule.expression, p.next.value, None, now);
    }
  }

  /** What a tick from `x` to `y` does: a firing that remains is enqueued, and the instant it
      returns is due exactly while another remains. */
  ghost predicate Progress(x: Life, y: Life, wake: Option<int>, now: int) {
    && Tickable(y)
    && (x.schedule.backfill.Some? ==> Account(y, now) == Account(x, now))
    && |Remaining(y, now)| == (if Remaining(x, now) == [] then 0 else |Remaining(x, now)| - 1)
    && ((wake.Some? && wake.value <= now) <==> Remaining(y, now) != [])
  }

  lemma TickMakesProgress(life: Life, now: int)
    requires Tickable(life)
    ensures var (after, wake) := Tick(life, now, NO_FAULTS);
      Progress(life, after, wake, now)
  {
    TickFiresTheFirst(life, now);
    if life.schedule.backfill.Some? {
      WakeIsDueWhileFiringsRemain(life, now);
      TickKeepsAccount(life, now);
    } else {
      NextIsLeast(life.schedule.expression, now);
    }
  }
}
