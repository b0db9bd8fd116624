/** Cron expressions as the scheduler uses them: the searches for the next and the previous
    occurrence. The occurrences of an expression are whole seconds and end before the year
    5000, so they are one increasing sequence of times in milliseconds. */
module CronExpressions {
  import opened Wrappers

  datatype Expression = Expression(text: string, times: seq<int>)

  ghost predicate Occurs(e: Expression, t: int) {
    t in e.times
  }

  ghost predicate ValidExpression(e: Expression) {
    && (forall i, j :: 0 <= i < j < |e.times| ==> e.times[i] < e.times[j])
    && (forall i :: 0 <= i < |e.times| ==> e.times[i] % 1000 == 0)
  }

  /** `r` is the least occurrence strictly after `anchor`. */
  ghost predicate IsNextAfter(e: Expression, anchor: int, r: Option<int>) {
    match r
    case None => forall t :: Occurs(e, t) ==> t <= anchor
    case Some(n) => Occurs(e, n) && anchor < n && forall t :: Occurs(e, t) && anchor < t ==> n <= t
  }

  /** `r` is the greatest occurrence strictly before `at`. */
  ghost predicate IsPreviousBefore(e: Expression, at: int, r: Option<int>) {
    match r
    case None => forall t :: Occurs(e, t) ==> at <= t
    case Some(p) => Occurs(e, p) && p < at && forall t :: Occurs(e, t) && t < at ==> t <= p
  }

  function FirstAfter(times: seq<int>, anchor: int): Option<int> {
    if times == [] then None
    else if anchor < times[0] then Some(times[0])
    else FirstAfter(times[1..], anchor)
  }

  function LastBefore(times: seq<int>, at: int): Option<int> {
    if times == [] then None
    else if times[|times| - 1] < at then Some(times[|times| - 1])
    else LastBefore(times[..|times| - 1], at)
  }

  function NextTimeAfter(e: Expression, anchor: int): Option<int> {
    FirstAfter(e.times, anchor)
  }

  /** croner's backward search, which compares whole seconds. */
  function CronerPrevious(e: Expression, start: int): Option<int> {
    LastBefore(e.times, start / 1000 * 1000)
  }

  /** The search for a fractional time starts at the following second. */
  function PreviousTimeBefore(e: Expression, at: int): Option<int> {
    CronerPrevious(e, if at % 1000 == 0 then at else (at / 1000 + 1) * 1000)
  }

  lemma {:induction false} NextIsLeast(e: Expression, anchor: int)
    requires ValidExpression(e)
    ensures IsNextAfter(e, anchor, NextTimeAfter(e, anchor))
    decreases |e.times|
  {
    if e.times != [] && e.times[0] <= anchor {
      var rest := e.(times := e.times[1..]);
      NextIsLeast(rest, anchor);
      forall t | Occurs(e, t) && anchor < t ensures Occurs(rest, t) {
        var i :| 0 <= i < |e.times| && e.times[i] == t;
        assert rest.times[i - 1] == t;
      }
    }
  }

  lemma {:induction false} LastIsGreatest(e: Expression, at: int)
    requires ValidExpression(e)
    ensures IsPreviousBefore(e, at, LastBefore(e.times, at))
    decreases |e.times|
  {
    var n := |e.times| - 1;
    if n >= 0 && e.times[n] >= at {
      var rest := e.(times := e.times[..n]);
      LastIsGreatest(rest, at);
      forall t | Occurs(e, t) && t < at ensures Occurs(rest, t) {
        var i :| 0 <= i < |e.times| && e.times[i] == t;
        assert rest.times[i] == t;
      }
    }
  }

  /** The search finds the last occurrence strictly before any time, fractional or not. */
  lemma PreviousIsGreatest(e: Expression, at: int)
    requires ValidExpression(e)
    ensures IsPreviousBefore(e, at, PreviousTimeBefore(e, at))
  {
    var start := if at % 1000 == 0 then at else (at / 1000 + 1) * 1000;
    LastIsGreatest(e, start);
    forall t | Occurs(e, t) ensures t < at <==> t < start {
    }
  }

  /** Without the rounding, the search misses an occurrence within the second of a fractional
      time, and only then. */
  lemma UnroundedPreviousMisses(e: Expression, at: int)
    requires ValidExpression(e)
    ensures IsPreviousBefore(e, at, CronerPrevious(e, at)) <==>
            (at % 1000 == 0 || !Occurs(e, at / 1000 * 1000))
  {
    LastIsGreatest(e, at / 1000 * 1000);
    if at % 1000 != 0 && Occurs(e, at / 1000 * 1000) {
      assert at / 1000 * 1000 < at;
    } else {
      forall t | Occurs(e, t) ensures t < at <==> t < at / 1000 * 1000 {
      }
    }
  }

  /** The previous occurrence of the next one after an occurrence is that occurrence. */
  lemma PreviousOfNext(e: Expression, at: int, next: int)
    requires ValidExpression(e) && Occurs(e, at) && IsNextAfter(e, at, Some(next))
    ensures PreviousTimeBefore(e, next) == Some(at)
  {
    PreviousIsGreatest(e, next);
  }
}
