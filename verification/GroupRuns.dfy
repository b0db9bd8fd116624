/** The runs of one member of a group over every interleaving of submissions, claims and
    terminations, and the removal of a group's records page by page. */
module GroupRuns {
  import opened Wrappers

  /** A run by its number: its first step is queued, some step runs, or it has ended. */
  datatype RunState = Queued | Running | Ended(success: bool)

  /** The end of a run: whether it succeeded, and the job of its final step. */
  datatype Termination = Termination(success: bool, job: nat)

  /** The record of the member, by run number. */
  datatype Record = Record(number: nat, terminated: Option<Termination>)

  /** A submission in flight, once it has the run number from the member record, and once it has
      found the run absent. */
  datatype Submission = Numbered(number: nat) | Checked(number: nat)

  /** `terminations` counts the ends of runs, each by a job of its own. */
  datatype State = State(
    record: Option<Record>,
    runs: map<nat, RunState>,
    submissions: map<nat, Submission>,
    started: seq<nat>,
    terminations: nat)

  datatype Event =
    | Read(id: nat)
    | Check(id: nat)
    | Submit(id: nat)
    | Claim(number: nat)
    | End(number: nat, success: bool)

  /** The number of the next submission, `None` after a success. */
  function NextNumber(record: Option<Record>): Option<nat> {
    match record
    case None => Some(0)
    case Some(Record(n, None)) => Some(n)
    case Some(Record(n, Some(end))) => if end.success then None else Some(n + 1)
  }

  ghost predicate Enabled(s: State, e: Event) {
    match e
    case Read(id) => id !in s.submissions
    case Check(id) => id in s.submissions && s.submissions[id].Numbered?
    case Submit(id) => id in s.submissions && s.submissions[id].Checked?
    case Claim(n) => n in s.runs && s.runs[n] == Queued
    case End(n, _) => n in s.runs && !s.runs[n].Ended?
  }

  /** The dedup key of a first step is held while its job is queued, so a submission of a queued
      run is a duplicate. */
  ghost function Apply(s: State, e: Event): State
    requires Enabled(s, e)
  {
    match e
    case Read(id) =>
      var next := NextNumber(s.record);
      if next.None? then s else s.(submissions := s.submissions[id := Numbered(next.value)])
    case Check(id) =>
      var n := s.submissions[id].number;
      s.(submissions := if n in s.runs then s.submissions - {id} else s.submissions[id := Checked(n)])
    case Submit(id) =>
      var n := s.submissions[id].number;
      var rest := s.(submissions := s.submissions - {id});
      if n in s.runs && s.runs[n] == Queued then rest
      else rest.(record := Some(Record(n, None)), runs := s.runs[n := Queued], started := s.started + [n])
    case Claim(n) => s.(runs := s.runs[n := Running])
    case End(n, success) =>
      s.(runs := s.runs[n := Ended(success)], record := Some(Record(n, Some(Termination(success, s.terminations)))),
         terminations := s.terminations + 1)
  }

  ghost predicate IsRun(s: State, run: seq<Event>)
    decreases |run|
  {
    run == [] || (Enabled(s, run[0]) && IsRun(Apply(s, run[0]), run[1..]))
  }

  ghost function Run(s: State, run: seq<Event>): State
    requires IsRun(s, run)
    decreases |run|
  {
    if run == [] then s else Run(Apply(s, run[0]), run[1..])
  }

  // ---- Numbers without reuse ----

  /** A submission commits while its run is absent, or while the run's first step is queued. */
  ghost predicate Fresh(s: State, e: Event)
    requires Enabled(s, e)
  {
    e.Submit? ==> var n := s.submissions[e.id].number; n in s.runs ==> s.runs[n] == Queued
  }

  ghost predicate FreshRun(s: State, run: seq<Event>)
    requires IsRun(s, run)
    decreases |run|
  {
    run == [] || (Fresh(s, run[0]) && FreshRun(Apply(s, run[0]), run[1..]))
  }

  /** The record has the end of the run, if the run has ended. */
  ghost predicate SameEnd(run: RunState, terminated: Option<Termination>) {
    if terminated.Some? then run == Ended(terminated.value.success) else !run.Ended?
  }

  ghost predicate Inv(s: State) {
    var k := |s.started|;
    && (forall i :: 0 <= i < k ==> s.started[i] == i)
    && (forall n: nat :: n in s.runs <==> n < k)
    && (forall n: nat :: n < k - 1 ==> n in s.runs && s.runs[n] == Ended(false))
    && (k == 0 ==> s.record == None)
    && (k > 0 ==> s.record.Some? && s.record.value.number == k - 1 && SameEnd(s.runs[k - 1], s.record.value.terminated))
    && (forall id :: id in s.submissions ==>
          && s.submissions[id].number <= k
          && (s.submissions[id].number == k && k > 0 ==> s.runs[k - 1] == Ended(false)))
  }

  lemma StepKeepsInv(s: State, e: Event)
    requires Inv(s) && Enabled(s, e) && Fresh(s, e)
    ensures Inv(Apply(s, e))
  {
  }

  /** The runs of a member are numbered 0, 1, 2 and so on, each run after the end of the one
      before it. */
  lemma {:induction false} RunKeepsInv(s: State, run: seq<Event>)
    requires Inv(s) && IsRun(s, run) && FreshRun(s, run)
    ensures Inv(Run(s, run))
    decreases |run|
  {
    if run != [] {
      StepKeepsInv(s, run[0]);
      RunKeepsInv(Apply(s, run[0]), run[1..]);
    }
  }

  const NEW := State(None, map[], map[], [], 0)

  lemma NumberedWithoutReuse(run: seq<Event>, i: nat)
    requires IsRun(NEW, run) && FreshRun(NEW, run) && i < |Run(NEW, run).started|
    ensures var s := Run(NEW, run);
      && s.started[i] == i
      && (i + 1 < |s.started| ==> i in s.runs && s.runs[i] == Ended(false))
  {
    RunKeepsInv(NEW, run);
  }

  ghost predicate Succeeded(s: State) {
    exists n :: n in s.runs && s.runs[n] == Ended(true)
  }

  /** No run starts after a success. */
  lemma {:induction false} StopsAfterSuccess(s: State, run: seq<Event>)
    requires Inv(s) && Succeeded(s) && IsRun(s, run) && FreshRun(s, run)
    ensures Run(s, run).started == s.started
    decreases |run|
  {
    if run != [] {
      StepKeepsInv(s, run[0]);
      var t := Apply(s, run[0]);
      var n :| n in s.runs && s.runs[n] == Ended(true);
      assert n in t.runs && t.runs[n] == Ended(true);
      StopsAfterSuccess(t, run[1..]);
    }
  }

  /** After a success a submission starts a run exactly when it is not fresh. */
  lemma StartsAfterSuccessIff(s: State, id: nat)
    requires Inv(s) && Succeeded(s) && Enabled(s, Submit(id))
    ensures Apply(s, Submit(id)).started != s.started <==> !Fresh(s, Submit(id))
  {
    var n := s.submissions[id].number;
    assert |s.started + [n]| == |s.started| + 1;
  }

  /** What one submission does when no other step comes between its reads and its commit: a new member
      starts run 0, an active one none, a failed one the run after its last, and a succeeded one
      none. */
  lemma SubmissionByRecord(s: State, id: nat)
    requires Inv(s) && id !in s.submissions
    ensures var read := Apply(s, Read(id));
      var k := |s.started|;
      if k == 0 || s.runs[k - 1] == Ended(false) then
        && Enabled(read, Check(id)) && Enabled(Apply(read, Check(id)), Submit(id))
        && Apply(Apply(read, Check(id)), Submit(id)).started == s.started + [k]
      else if s.runs[k - 1] == Ended(true) then read == s
      else
        && id in read.submissions && read.submissions[id].number == k - 1
        && Enabled(read, Check(id)) && Apply(read, Check(id)) == s
  {
    var read := Apply(s, Read(id));
    if id in read.submissions {
      assert read.submissions - {id} == s.submissions;
    }
  }

  /** A submission starts a number again exactly when another submission of the number committed
      after this one found the run absent, and its first step has left the queue. */
  lemma ReuseIffTheRunLeftTheQueue(s: State, id: nat)
    requires Inv(s) && Enabled(s, Submit(id))
    ensures var n := s.submissions[id].number;
      (n in s.started && Apply(s, Submit(id)).started == s.started + [n]) <==> !Fresh(s, Submit(id))
  {
    var n := s.submissions[id].number;
    assert n in s.started <==> n < |s.started| by {
      if n < |s.started| {
        assert s.started[n] == n;
      }
    }
    assert |s.started + [n]| == |s.started| + 1;
  }

  /** A submission that commits with no other commit since it found the run absent is fresh. */
  lemma UninterruptedIsFresh(s: State, id: nat)
    requires Enabled(s, Check(id)) && Enabled(Apply(s, Check(id)), Submit(id))
    ensures Fresh(Apply(s, Check(id)), Submit(id))
  {
  }

  lemma RunCons(s: State, e: Event, rest: seq<Event>)
    requires Enabled(s, e) && IsRun(Apply(s, e), rest)
    ensures IsRun(s, [e] + rest) && Run(s, [e] + rest) == Run(Apply(s, e), rest)
  {
    assert ([e] + rest)[1..] == rest;
  }

  /** Two submissions of a new member find run 0 absent, and the second of them commits. */
  ghost function TwoChecked(): seq<Event> {
    [Read(1), Check(1), Read(2), Check(2), Submit(2)]
  }

  const FIRST_COMMITTED := State(Some(Record(0, None)), map[0 := Queued], map[1 := Checked(0)], [0], 0)

  lemma TwoCheckedIsARun(rest: seq<Event>)
    requires IsRun(FIRST_COMMITTED, rest)
    ensures IsRun(NEW, TwoChecked() + rest) && Run(NEW, TwoChecked() + rest) == Run(FIRST_COMMITTED, rest)
  {
    var s1 := Apply(NEW, Read(1));
    var s2 := Apply(s1, Check(1));
    var s3 := Apply(s2, Read(2));
    var s4 := Apply(s3, Check(2));
    assert Apply(s4, Submit(2)) == FIRST_COMMITTED;
    RunCons(s4, Submit(2), rest);
    RunCons(s3, Check(2), [Submit(2)] + rest);
    RunCons(s2, Read(2), [Check(2)] + ([Submit(2)] + rest));
    RunCons(s1, Check(1), [Read(2)] + ([Check(2)] + ([Submit(2)] + rest)));
    RunCons(NEW, Read(1), [Check(1)] + ([Read(2)] + ([Check(2)] + ([Submit(2)] + rest))));
    assert TwoChecked() + rest == [Read(1)] + ([Check(1)] + ([Read(2)] + ([Check(2)] + ([Submit(2)] + rest))));
  }

  /** The other submission starts run 0 again, once the first step of the run has been claimed. */
  lemma RunZeroCanStartTwice() returns (run: seq<Event>)
    ensures IsRun(NEW, run) && Run(NEW, run).started == [0, 0]
  {
    var claimed := Apply(FIRST_COMMITTED, Claim(0));
    RunCons(claimed, Submit(1), []);
    RunCons(FIRST_COMMITTED, Claim(0), [Submit(1)] + []);
    run := [Claim(0)] + ([Submit(1)] + []);
    TwoCheckedIsARun(run);
    run := TwoChecked() + run;
  }

  /** It does so also after run 0 has succeeded. */
  lemma RunCanStartAfterSuccess() returns (run: seq<Event>, succeeded: seq<Event>)
    ensures IsRun(NEW, succeeded) && Succeeded(Run(NEW, succeeded)) && Run(NEW, succeeded).started == [0]
    ensures run == succeeded + [Submit(1)] && IsRun(NEW, run) && Run(NEW, run).started == [0, 0]
  {
    var claimed := Apply(FIRST_COMMITTED, Claim(0));
    var ended := Apply(claimed, End(0, true));
    assert ended.runs[0] == Ended(true);
    RunCons(claimed, End(0, true), []);
    RunCons(FIRST_COMMITTED, Claim(0), [End(0, true)] + []);
    TwoCheckedIsARun([Claim(0)] + ([End(0, true)] + []));
    succeeded := TwoChecked() + ([Claim(0)] + ([End(0, true)] + []));
    RunCons(ended, Submit(1), []);
    RunCons(claimed, End(0, true), [Submit(1)] + []);
    RunCons(FIRST_COMMITTED, Claim(0), [End(0, true)] + ([Submit(1)] + []));
    TwoCheckedIsARun([Claim(0)] + ([End(0, true)] + ([Submit(1)] + [])));
    run := succeeded + [Submit(1)];
    assert run == TwoChecked() + ([Claim(0)] + ([End(0, true)] + ([Submit(1)] + [])));
  }

  // ---- The removal of a group ----

  /** A member of a removal: the key of its record, and the record as the removal read it. */
  datatype Removed = Removed(key: string, stored: Option<Record>)

  function Lookup(kv: map<string, Record>, key: string): Option<Record> {
    if key in kv then Some(kv[key]) else None
  }

  ghost predicate Matches(page: seq<Removed>, kv: map<string, Record>) {
    forall i :: 0 <= i < |page| ==> Lookup(kv, page[i].key) == page[i].stored
  }

  function Stored(page: seq<Removed>): set<string> {
    set i | 0 <= i < |page| && page[i].stored.Some? :: page[i].key
  }

  /** The page of the member with index `q`. */
  function PageNumber(q: nat, size: nat): nat
    requires 0 < size
  {
    if q < size then 0 else 1 + PageNumber(q - size, size)
  }

  /** Page `i` of the members. */
  function Page(members: seq<Removed>, size: nat, i: nat): seq<Removed>
    requires 0 < size
  {
    if i * size >= |members| then []
    else if (i + 1) * size >= |members| then members[i * size..]
    else members[i * size..(i + 1) * size]
  }

  /** One transaction of a removal: it deletes the records of the page when every member is as the
      removal read it. */
  method CommitPage(page: seq<Removed>, kv: map<string, Record>) returns (after: Option<map<string, Record>>)
    ensures after == if Matches(page, kv) then Some(kv - Stored(page)) else None
  {
    for i := 0 to |page|
      invariant Matches(page[..i], kv)
    {
      if Lookup(kv, page[i].key) != page[i].stored {
        return None;
      }
    }
    assert page[..|page|] == page;
    after := Some(kv - Stored(page));
  }

  /** Member `q` is as it was read when the page it is in commits. */
  ghost predicate Unchanged(members: seq<Removed>, size: nat, world: nat -> map<string, Record>, q: nat)
    requires 0 < size && q < |members|
  {
    Lookup(world(PageNumber(q, size)), members[q].key) == members[q].stored
  }

  /** `after` is `kv` without the stored records of the members of page `i`. */
  ghost predicate PageRemoved(members: seq<Removed>, size: nat, i: nat, kv: map<string, Record>, after: map<string, Record>)
    requires 0 < size
  {
    && (forall k :: k in after ==> k in kv && after[k] == kv[k])
    && (forall k :: k in kv && k !in after ==>
          exists q :: 0 <= q < |members| && PageNumber(q, size) == i && members[q] == Removed(k, Some(kv[k])))
    && (forall q :: 0 <= q < |members| && PageNumber(q, size) == i && members[q].stored.Some? ==> members[q].key !in after)
  }

  /** Page `i` has the members from index `i * size` up to the next page. */
  lemma {:induction false} PageNumberIs(q: nat, size: nat, i: nat)
    requires 0 < size
    ensures PageNumber(q, size) == i <==> i * size <= q < i * size + size
    decreases q
  {
    if q < size {
      if 0 < i {
        Product(1, i, size);
      }
    } else if 0 < i {
      PageNumberIs(q - size, size, i - 1);
      assert (i - 1) * size + size == i * size;
    }
  }

  lemma InPage(members: seq<Removed>, size: nat, i: nat, q: nat)
    requires 0 < size && q < |members| && PageNumber(q, size) == i
    ensures var page := Page(members, size, i); 0 <= q - i * size < |page| && page[q - i * size] == members[q]
  {
    PageNumberIs(q, size, i);
    assert (i + 1) * size == i * size + size;
  }

  lemma PageIndex(members: seq<Removed>, size: nat, i: nat, j: nat)
    requires 0 < size && j < |Page(members, size, i)|
    ensures i * size + j < |members| && PageNumber(i * size + j, size) == i && members[i * size + j] == Page(members, size, i)[j]
  {
    assert (i + 1) * size == i * size + size;
    PageNumberIs(i * size + j, size, i);
  }

  /** A page commits exactly when its members are unchanged. */
  lemma PageMatchesIff(members: seq<Removed>, size: nat, i: nat, world: nat -> map<string, Record>)
    requires 0 < size
    ensures Matches(Page(members, size, i), world(i)) <==>
            forall q :: 0 <= q < |members| && PageNumber(q, size) == i ==> Unchanged(members, size, world, q)
  {
    var page := Page(members, size, i);
    if Matches(page, world(i)) {
      forall q | 0 <= q < |members| && PageNumber(q, size) == i ensures Unchanged(members, size, world, q) {
        InPage(members, size, i, q);
      }
    } else {
      var j :| 0 <= j < |page| && Lookup(world(i), page[j].key) != page[j].stored;
      PageIndex(members, size, i, j);
      assert !Unchanged(members, size, world, i * size + j);
    }
  }

  lemma PageRemovesItsMembers(members: seq<Removed>, size: nat, i: nat, kv: map<string, Record>)
    requires 0 < size && Matches(Page(members, size, i), kv)
    ensures PageRemoved(members, size, i, kv, kv - Stored(Page(members, size, i)))
  {
    var page := Page(members, size, i);
    var after := kv - Stored(page);
    forall k | k in kv && k !in after
      ensures exists q :: 0 <= q < |members| && PageNumber(q, size) == i && members[q] == Removed(k, Some(kv[k]))
    {
      var j :| 0 <= j < |page| && page[j].stored.Some? && page[j].key == k;
      PageIndex(members, size, i, j);
      assert members[i * size + j] == Removed(k, Some(kv[k]));
    }
    forall q | 0 <= q < |members| && PageNumber(q, size) == i && members[q].stored.Some? ensures members[q].key !in after {
      InPage(members, size, i, q);
      assert page[q - i * size].key in Stored(page);
    }
  }

  /** Removes the members page by page. `world(i)` is the KV state in which page `i` commits, with
      the writes of others since the read. The removal is complete exactly when every member is
      unchanged when its page commits. Each page that commits deletes the stored records of all of
      its members and nothing else, and the first page with a changed member ends the removal. */
  method Remove(members: seq<Removed>, size: nat, world: nat -> map<string, Record>)
    returns (complete: bool, pages: seq<map<string, Record>>)
    requires 0 < size
    ensures complete <==> forall q :: 0 <= q < |members| ==> Unchanged(members, size, world, q)
    ensures forall i :: 0 <= i < |pages| ==> PageRemoved(members, size, i, world(i), pages[i])
    ensures forall q :: 0 <= q < |members| && PageNumber(q, size) < |pages| ==> Unchanged(members, size, world, q)
    ensures complete ==> forall m :: m in members ==>
      exists i :: 0 <= i < |pages| && Lookup(world(i), m.key) == m.stored && m.key !in pages[i]
    ensures !complete ==> exists q :: 0 <= q < |members| && PageNumber(q, size) == |pages| && !Unchanged(members, size, world, q)
  {
    pages := [];
    var next := 0;
    while next < |members|
      invariant next == |pages| * size && PagesRemoved(members, size, world, pages)
      decreases |members| - next
    {
      var page := Page(members, size, |pages|);
      var after := CommitPage(page, world(|pages|));
      if after.None? {
        PageMatchesIff(members, size, |pages|, world);
        return false, pages;
      }
      OnePageMore(members, size, world, pages, after.value);
      next := next + size;
      pages := pages + [after.value];
    }
    EveryMemberHasAPage(members, size, |pages|);
    forall m | m in members
      ensures exists i :: 0 <= i < |pages| && Lookup(world(i), m.key) == m.stored && m.key !in pages[i]
    {
      var q :| 0 <= q < |members| && members[q] == m;
      var i := PageNumber(q, size);
      assert Unchanged(members, size, world, q) && PageRemoved(members, size, i, world(i), pages[i]);
    }
    complete := true;
  }

  /** The pages committed so far. */
  ghost predicate PagesRemoved(members: seq<Removed>, size: nat, world: nat -> map<string, Record>,
                               pages: seq<map<string, Record>>)
    requires 0 < size
  {
    && (forall i :: 0 <= i < |pages| ==> PageRemoved(members, size, i, world(i), pages[i]))
    && (forall q :: 0 <= q < |members| && PageNumber(q, size) < |pages| ==> Unchanged(members, size, world, q))
  }

  lemma OnePageMore(members: seq<Removed>, size: nat, world: nat -> map<string, Record>,
                    pages: seq<map<string, Record>>, after: map<string, Record>)
    requires 0 < size && PagesRemoved(members, size, world, pages)
    requires Matches(Page(members, size, |pages|), world(|pages|))
    requires after == world(|pages|) - Stored(Page(members, size, |pages|))
    ensures PagesRemoved(members, size, world, pages + [after])
    ensures (|pages| + 1) * size == |pages| * size + size
  {
    PageMatchesIff(members, size, |pages|, world);
    PageRemovesItsMembers(members, size, |pages|, world(|pages|));
  }

  lemma Product(a: nat, b: nat, size: nat)
    requires a <= b
    ensures a * size <= b * size
  {
  }

  lemma EveryMemberHasAPage(members: seq<Removed>, size: nat, n: nat)
    requires 0 < size && |members| <= n * size
    ensures forall q :: 0 <= q < |members| ==> PageNumber(q, size) < n
  {
    forall q | 0 <= q < |members| ensures PageNumber(q, size) < n {
      var i := PageNumber(q, size);
      PageNumberIs(q, size, i);
      if n <= i {
        Product(n, i, size);
      }
    }
  }

  /** Forgets a group, exactly when every member has terminated and is unchanged when its page
      commits. An active member ends the call before a page, and every record that a page deletes has
      terminated and is one that the removal read. */
  method Forget(members: seq<Removed>, size: nat, world: nat -> map<string, Record>)
    returns (forgotten: bool, pages: seq<map<string, Record>>)
    requires 0 < size
    ensures forgotten <==>
            && (forall m :: m in members && m.stored.Some? ==> m.stored.value.terminated.Some?)
            && (forall q :: 0 <= q < |members| ==> Unchanged(members, size, world, q))
    ensures (exists m :: m in members && m.stored.Some? && m.stored.value.terminated.None?) ==> pages == []
    ensures forall i, k :: 0 <= i < |pages| && k in world(i) && k !in pages[i] ==>
      world(i)[k].terminated.Some? && Removed(k, Some(world(i)[k])) in members
    ensures forgotten ==> forall m :: m in members ==>
      exists i :: 0 <= i < |pages| && Lookup(world(i), m.key) == m.stored && m.key !in pages[i]
  {
    for i := 0 to |members|
      invariant forall j :: 0 <= j < i && members[j].stored.Some? ==> members[j].stored.value.terminated.Some?
    {
      if members[i].stored.Some? && members[i].stored.value.terminated.None? {
        assert members[i] in members;
        return false, [];
      }
    }
    forgotten, pages := Remove(members, size, world);
    forall i, k | 0 <= i < |pages| && k in world(i) && k !in pages[i]
      ensures Removed(k, Some(world(i)[k])) in members
    {
      assert PageRemoved(members, size, i, world(i), pages[i]);
    }
  }

  /** The record was written by a submission, or by the end of a run after `from` others. */
  ghost predicate WrittenSince(record: Option<Record>, from: nat) {
    record.Some? && (record.value.terminated.Some? ==> from <= record.value.terminated.value.job)
  }

  /** Over any run the record is as it was and no run started, or it was written since. */
  lemma {:induction false} RecordSince(s: State, run: seq<Event>, from: nat)
    requires IsRun(s, run) && from <= s.terminations
    ensures from <= Run(s, run).terminations
    ensures WrittenSince(s.record, from) ==> WrittenSince(Run(s, run).record, from)
    ensures || WrittenSince(Run(s, run).record, from)
            || (Run(s, run).record == s.record && Run(s, run).started == s.started)
    decreases |run|
  {
    if run != [] {
      RecordSince(Apply(s, run[0]), run[1..], from);
    }
  }

  /** The end of a run in a record is one of those counted. */
  lemma {:induction false} EndIsCounted(s: State, run: seq<Event>)
    requires IsRun(s, run)
    requires s.record.Some? && s.record.value.terminated.Some? ==> s.record.value.terminated.value.job < s.terminations
    ensures var t := Run(s, run);
      t.record.Some? && t.record.value.terminated.Some? ==> t.record.value.terminated.value.job < t.terminations
    decreases |run|
  {
    if run != [] {
      EndIsCounted(Apply(s, run[0]), run[1..]);
    }
  }

  /** A removal reads the record of a member that is not active. In whatever way submissions, claims
      and ends follow, fresh or not, once a run of the member has started the page of the member does
      not commit, also when that run has ended. */
  lemma SubmittedSinceIsKept(before: seq<Event>, since: seq<Event>, key: string, page: seq<Removed>,
                             kv: map<string, Record>)
    requires IsRun(NEW, before) && IsRun(Run(NEW, before), since)
    requires Run(Run(NEW, before), since).started != Run(NEW, before).started
    requires var read := Run(NEW, before).record; read.Some? ==> read.value.terminated.Some?
    requires Removed(key, Run(NEW, before).record) in page
    requires Lookup(kv, key) == Run(Run(NEW, before), since).record
    ensures !Matches(page, kv)
  {
    var s := Run(NEW, before);
    EndIsCounted(NEW, before);
    RecordSince(s, since, s.terminations);
    var j :| 0 <= j < |page| && page[j] == Removed(key, s.record);
  }

  /** With fresh submissions the same holds of a member that is active at the read. */
  lemma FreshSubmissionChangesTheRecord(s: State, run: seq<Event>)
    requires Inv(s) && IsRun(s, run) && FreshRun(s, run) && Run(s, run).started != s.started
    ensures Run(s, run).record != s.record
  {
    RunKeepsInv(s, run);
    var t := Run(s, run);
    assert |t.started| == |s.started| ==> t.started == s.started;
  }

  /** The run numbers whose state a removal deletes for a member with a record. */
  function RemovedNumbers(record: Option<Record>): seq<nat> {
    seq(if record.Some? then record.value.number + 1 else 1, i => i)
  }

  /** A removal that finds the record as it was read deletes the state of every run of the
      member, and of no later run. */
  lemma RemovalCoversEveryRun(run: seq<Event>, n: nat)
    requires IsRun(NEW, run) && FreshRun(NEW, run) && Run(NEW, run).record.Some?
    ensures n in RemovedNumbers(Run(NEW, run).record) <==> n in Run(NEW, run).runs
  {
    RunKeepsInv(NEW, run);
    RemovedNumbersAre(Run(NEW, run).record, n);
  }

  ghost predicate CoversEveryRun(s: State) {
    forall n: nat :: n in s.runs ==> n in RemovedNumbers(s.record)
  }

  lemma RemovedNumbersAre(record: Option<Record>, n: nat)
    ensures n in RemovedNumbers(record) <==> n <= if record.Some? then record.value.number else 0
  {
    var numbers := RemovedNumbers(record);
    assert n < |numbers| ==> numbers[n] == n;
  }

  /** After a submission a removal covers every run exactly when the submission is fresh or of the
      last run. */
  lemma CoversAfterSubmissionIff(s: State, id: nat)
    requires Inv(s) && Enabled(s, Submit(id))
    ensures CoversEveryRun(Apply(s, Submit(id))) <==>
            Fresh(s, Submit(id)) || s.submissions[id].number == |s.started| - 1
  {
    var t := Apply(s, Submit(id));
    var n := s.submissions[id].number;
    forall m: nat ensures m in RemovedNumbers(t.record) <==> m <= if t.record.Some? then t.record.value.number else 0 {
      RemovedNumbersAre(t.record, m);
    }
    if !Fresh(s, Submit(id)) && n != |s.started| - 1 {
      var last: nat := |s.started| - 1;
      assert last in t.runs && last !in RemovedNumbers(t.record);
    }
  }

  /** The stale submission of run 0 commits after run 1 has started, and the removal then misses
      run 1. */
  lemma RemovalCanMissARun() returns (run: seq<Event>)
    ensures IsRun(NEW, run) && !CoversEveryRun(Run(NEW, run))
  {
    var s1 := Apply(FIRST_COMMITTED, Claim(0));
    var s2 := Apply(s1, End(0, false));
    var s3 := Apply(s2, Read(3));
    var s4 := Apply(s3, Check(3));
    var s5 := Apply(s4, Submit(3));
    var s6 := Apply(s5, Submit(1));
    RunCons(s5, Submit(1), []);
    RunCons(s4, Submit(3), [Submit(1)] + []);
    RunCons(s3, Check(3), [Submit(3)] + ([Submit(1)] + []));
    RunCons(s2, Read(3), [Check(3)] + ([Submit(3)] + ([Submit(1)] + [])));
    RunCons(s1, End(0, false), [Read(3)] + ([Check(3)] + ([Submit(3)] + ([Submit(1)] + []))));
    run := [End(0, false)] + ([Read(3)] + ([Check(3)] + ([Submit(3)] + ([Submit(1)] + []))));
    RunCons(FIRST_COMMITTED, Claim(0), run);
    run := [Claim(0)] + run;
    TwoCheckedIsARun(run);
    run := TwoChecked() + run;
    assert 1 in s6.runs && s6.record == Some(Record(0, None));
    RemovedNumbersAre(s6.record, 1);
  }
}
