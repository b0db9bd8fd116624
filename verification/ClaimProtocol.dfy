/** One queue's claims as a transition system over committed inserts, their later notes,
    removals and the one claim that the claim lock admits. Every event is one atomic step of
    the process, and a run is any interleaving of them. */
module ClaimProtocol {
  import opened Bytes
  import opened Wrappers
  import opened ClaimCursor

  /** The pending keys that one committed transaction wrote, with the least of them. A note is
      outstanding from the commit until the claim cursor records it. */
  datatype Note = Note(keys: set<Key>, min: Key)

  ghost predicate IsGreatest(k: Key, keys: set<Key>) {
    k in keys && forall j :: j in keys ==> AtMost(j, k)
  }

  /** The claim in flight. `known` are the live keys without an outstanding note when the
      claim began, and `touched` the keys written by others since its snapshot. */
  datatype Claim =
    | Idle
    | Begun(scan: ClaimScanStart, known: set<Key>)
    | Snapped(scan: ClaimScanStart, known: set<Key>, snapshot: set<Key>, touched: set<Key>)
    | Committed(scan: ClaimScanStart, last: Key, drained: bool)
    | Draining(scan: ClaimScanStart)

  datatype Sys = Sys(pending: set<Key>, cursor: QueueClaimState, notes: multiset<Note>, claim: Claim)

  datatype Event =
    | InsertCommit(note: Note)
    | ApplyNote(note: Note)
    | Remove(key: Key)
    | Begin
    | Snapshot
    | CommitClaim(maxJobs: nat, taken: set<Key>, last: Key)
    | Advance
    | MarkEmpty
    | Abandon

  /** `k` belongs to a committed insert that is not noted yet. */
  ghost predicate Unnoted(notes: multiset<Note>, k: Key) {
    exists n :: n in notes && k in n.keys
  }

  ghost function Reads(snapshot: set<Key>, bound: Option<ScanFrom>): set<Key> {
    set k | k in snapshot && Yields(bound, k)
  }

  /** `taken` are the first `n` keys of `keys`, or all of them when there are fewer. */
  ghost predicate FirstKeys(keys: set<Key>, n: nat, taken: set<Key>) {
    && taken <= keys
    && |taken| == (if |keys| < n then |keys| else n)
    && forall t, k :: t in taken && k in keys && k !in taken ==> Less(t, k)
  }

  ghost predicate Enabled(s: Sys, e: Event) {
    match e
    case InsertCommit(n) => IsLeast(n.min, n.keys)
    case ApplyNote(n) => n in s.notes
    case Remove(k) => true
    case Begin => s.claim.Idle? && !KnownEmpty(s.cursor)
    case Snapshot => s.claim.Begun?
    case CommitClaim(n, taken, last) =>
      && s.claim.Snapped?
      && FirstKeys(Reads(s.claim.snapshot, s.claim.scan.scanFrom), n, taken)
      && IsGreatest(last, taken)
      // Another commit of a claimed key since the snapshot is a transaction conflict.
      && taken !! s.claim.touched
    case Advance => s.claim.Committed?
    case MarkEmpty =>
      || s.claim.Draining?
      || (s.claim.Snapped? && Reads(s.claim.snapshot, s.claim.scan.scanFrom) == {})
    case Abandon => !s.claim.Idle?
  }

  ghost function Touch(c: Claim, keys: set<Key>): Claim {
    if c.Snapped? then c.(touched := c.touched + keys) else c
  }

  ghost function Apply(s: Sys, e: Event): Sys
    requires Enabled(s, e)
  {
    match e
    case InsertCommit(n) =>
      s.(pending := s.pending + n.keys, notes := s.notes + multiset{n}, claim := Touch(s.claim, n.keys))
    case ApplyNote(n) =>
      s.(notes := s.notes - multiset{n}, cursor := Noted(s.cursor, n.min))
    case Remove(k) =>
      s.(pending := s.pending - {k}, claim := Touch(s.claim, {k}))
    case Begin =>
      s.(claim := Begun(Observed(s.cursor), set k | k in s.pending && !Unnoted(s.notes, k)))
    case Snapshot =>
      s.(claim := Snapped(s.claim.scan, s.claim.known, s.pending, {}))
    case CommitClaim(n, taken, last) =>
      var seen := Reads(s.claim.snapshot, s.claim.scan.scanFrom);
      s.(pending := s.pending - taken, claim := Committed(s.claim.scan, last, |seen| < n))
    case Advance =>
      s.(cursor := Advanced(s.cursor, s.claim.last, s.claim.scan),
         claim := if s.claim.drained then Draining(s.claim.scan) else Idle)
    case MarkEmpty =>
      s.(cursor := MarkedEmpty(s.cursor, s.claim.scan), claim := Idle)
    case Abandon =>
      s.(claim := Idle)
  }

  ghost predicate IsRun(s: Sys, es: seq<Event>)
    decreases es
  {
    es == [] || (Enabled(s, es[0]) && IsRun(Apply(s, es[0]), es[1..]))
  }

  ghost function Run(s: Sys, es: seq<Event>): Sys
    requires IsRun(s, es)
    decreases es
  {
    if es == [] then s else Run(Apply(s, es[0]), es[1..])
  }

  // ---- The invariant ----

  /** Every live key is read from the bound, or its insert is not noted yet. */
  ghost predicate Covered(s: Sys) {
    forall k :: k in s.pending ==> Yields(s.cursor.scanFrom, k) || Unnoted(s.notes, k)
  }

  ghost predicate AllUnnoted(s: Sys) {
    forall k :: k in s.pending ==> Unnoted(s.notes, k)
  }

  /** A queue known to be empty has live keys only of inserts not noted yet. */
  ghost predicate EmptinessSound(s: Sys) {
    KnownEmpty(s.cursor) ==> AllUnnoted(s)
  }

  /** The clamp key of the next advance is at or before `k`. */
  ghost predicate ClampedFor(s: Sys, k: Key) {
    s.cursor.minInsertAhead.Some? && AtMost(s.cursor.minInsertAhead.value, k)
  }

  /** `now` is `then` moved back by a note, so it never equals it again. */
  ghost predicate MovedBack(now: Option<ScanFrom>, then_: Option<ScanFrom>) {
    now.Some? && (then_.None? || !Yields(then_, now.value.key)) && now.value.inclusive
  }

  /** What the claim in flight has to know about the state its last steps will meet. */
  ghost predicate ClaimSound(s: Sys) {
    match s.claim
    case Idle => true
    case Begun(scan, known) => ScanSound(s, scan) && KnownSound(scan, known)
    case Snapped(scan, known, snapshot, touched) =>
      && ScanSound(s, scan) && KnownSound(scan, known)
      && (s.cursor.epoch == scan.epoch ==>
            forall k :: k in s.pending ==> k in snapshot || Unnoted(s.notes, k))
      && (s.cursor.scanFrom == scan.scanFrom ==>
            forall k :: k in s.pending ==> k in snapshot || Unnoted(s.notes, k) || ClampedFor(s, k))
    case Committed(scan, last, drained) =>
      && ScanSound(s, scan)
      && (drained && s.cursor.epoch == scan.epoch ==> AllUnnoted(s))
      && (s.cursor.scanFrom == scan.scanFrom ==>
            forall k :: k in s.pending ==> Less(last, k) || Unnoted(s.notes, k) || ClampedFor(s, k))
    case Draining(scan) =>
      && scan.epoch <= s.cursor.epoch
      && (s.cursor.epoch == scan.epoch ==> AllUnnoted(s))
  }

  ghost predicate ScanSound(s: Sys, scan: ClaimScanStart) {
    && scan.epoch <= s.cursor.epoch
    && (s.cursor.scanFrom == scan.scanFrom || MovedBack(s.cursor.scanFrom, scan.scanFrom))
    && (s.cursor.epoch == scan.epoch ==> s.cursor.scanFrom == scan.scanFrom)
  }

  ghost predicate KnownSound(scan: ClaimScanStart, known: set<Key>) {
    forall k :: k in known ==> Yields(scan.scanFrom, k)
  }

  ghost predicate Inv(s: Sys) {
    && (forall n :: n in s.notes ==> IsLeast(n.min, n.keys))
    && (s.cursor.emptyAsOf.Some? ==> s.cursor.emptyAsOf.value <= s.cursor.epoch)
    && Covered(s)
    && EmptinessSound(s)
    && ClaimSound(s)
  }

  // ---- One lemma for each kind of step ----

  lemma InsertKeepsInv(s: Sys, n: Note)
    requires Inv(s) && Enabled(s, InsertCommit(n))
    ensures Inv(Apply(s, InsertCommit(n)))
  {
    var t := Apply(s, InsertCommit(n));
    forall k | k in n.keys || Unnoted(s.notes, k) ensures Unnoted(t.notes, k) {
      if k in n.keys {
        assert n in t.notes;
      } else {
        var m :| m in s.notes && k in m.keys;
        assert m in t.notes;
      }
    }
  }

  /** A key keeps its other notes when one note is recorded. */
  lemma UnnotedAfter(s: Sys, n: Note, k: Key)
    requires n in s.notes && Unnoted(s.notes, k)
    ensures Unnoted(s.notes - multiset{n}, k) || k in n.keys
  {
    var m :| m in s.notes && k in m.keys;
    if m != n {
      assert m in s.notes - multiset{n};
    }
  }

  /** The cursor after a note yields what it yielded before and every key of the note, and it
      clamps to them when the bound stays. */
  lemma NoteWidens(s: Sys, n: Note, k: Key)
    requires Inv(s) && n in s.notes
    requires k in n.keys || Yields(s.cursor.scanFrom, k)
    requires s.cursor.scanFrom.None? && KnownEmpty(s.cursor) ==> k in n.keys
    ensures Yields(Noted(s.cursor, n.min).scanFrom, k)
  {
    OrderLaws();
    if k in n.keys {
      YieldsAbove(Noted(s.cursor, n.min).scanFrom, n.min, k);
    }
  }

  lemma NoteClamps(s: Sys, n: Note, k: Key)
    requires Inv(s) && n in s.notes
    requires k in n.keys || ClampedFor(s, k)
    requires Noted(s.cursor, n.min).scanFrom == s.cursor.scanFrom
    ensures ClampedFor(Apply(s, ApplyNote(n)), k)
  {
    OrderLaws();
  }

  lemma NoteMovesBack(s: Sys, n: Note, scan: ClaimScanStart)
    requires Inv(s) && n in s.notes && ScanSound(s, scan)
    ensures ScanSound(Apply(s, ApplyNote(n)), scan)
    ensures Noted(s.cursor, n.min).scanFrom == scan.scanFrom ==> s.cursor.scanFrom == scan.scanFrom
  {
    OrderLaws();
  }

  lemma NoteKeepsCovered(s: Sys, n: Note)
    requires Inv(s) && Enabled(s, ApplyNote(n))
    ensures Covered(Apply(s, ApplyNote(n)))
  {
    var t := Apply(s, ApplyNote(n));
    forall k | k in t.pending ensures Yields(t.cursor.scanFrom, k) || Unnoted(t.notes, k) {
      if Unnoted(s.notes, k) {
        UnnotedAfter(s, n, k);
      }
      if !Unnoted(t.notes, k) {
        NoteWidens(s, n, k);
      }
    }
  }

  lemma NoteKeepsClaimSound(s: Sys, n: Note)
    requires Inv(s) && Enabled(s, ApplyNote(n))
    ensures ClaimSound(Apply(s, ApplyNote(n)))
  {
    var t := Apply(s, ApplyNote(n));
    if !s.claim.Idle? && !s.claim.Draining? {
      NoteMovesBack(s, n, s.claim.scan);
      if t.cursor.scanFrom == s.claim.scan.scanFrom {
        forall k | k in t.pending && (Unnoted(s.notes, k) || ClampedFor(s, k))
          ensures Unnoted(t.notes, k) || ClampedFor(t, k)
        {
          if Unnoted(s.notes, k) {
            UnnotedAfter(s, n, k);
          }
          if !Unnoted(t.notes, k) {
            NoteClamps(s, n, k);
          }
        }
      }
    }
  }

  lemma NoteKeepsInv(s: Sys, n: Note)
    requires Inv(s) && Enabled(s, ApplyNote(n))
    ensures Inv(Apply(s, ApplyNote(n)))
  {
    NoteKeepsCovered(s, n);
    NoteKeepsClaimSound(s, n);
    var t := Apply(s, ApplyNote(n));
    forall m | m in t.notes ensures IsLeast(m.min, m.keys) {
      assert m in s.notes;
    }
  }

  /** The commit of a claim leaves only keys after the last one taken, inserts not noted yet
      and keys the advance clamps to. */
  lemma CommitKeepsInv(s: Sys, maxJobs: nat, taken: set<Key>, last: Key)
    requires Inv(s) && Enabled(s, CommitClaim(maxJobs, taken, last))
    ensures Inv(Apply(s, CommitClaim(maxJobs, taken, last)))
  {
    var t := Apply(s, CommitClaim(maxJobs, taken, last));
    var scan := s.claim.scan;
    var seen := Reads(s.claim.snapshot, scan.scanFrom);
    if |seen| < maxJobs {
      TakesAll(seen, maxJobs, taken);
    }
    if s.cursor.scanFrom == scan.scanFrom {
      forall k | k in t.pending ensures Less(last, k) || Unnoted(s.notes, k) || ClampedFor(s, k) {
        if k in s.claim.snapshot && Yields(scan.scanFrom, k) {
          assert k in seen;
        }
      }
    }
  }

  lemma TakesAll(keys: set<Key>, n: nat, taken: set<Key>)
    requires FirstKeys(keys, n, taken) && |keys| <= n
    ensures taken == keys
  {
    if k :| k in keys && k !in taken {
      assert |keys| == |keys - {k}| + 1;
      SubsetSize(taken, keys - {k});
    }
  }

  lemma {:induction false} SubsetSize(a: set<Key>, b: set<Key>)
    requires a <= b
    ensures |a| <= |b|
  {
    if x :| x in a {
      SubsetSize(a - {x}, b - {x});
    }
  }

  lemma AdvanceKeepsInv(s: Sys)
    requires Inv(s) && Enabled(s, Advance)
    ensures Inv(Apply(s, Advance))
  {
    OrderLaws();
  }

  lemma OtherStepsKeepInv(s: Sys, e: Event)
    requires Inv(s) && Enabled(s, e)
    requires e.Remove? || e.Begin? || e.Snapshot? || e.MarkEmpty? || e.Abandon?
    ensures Inv(Apply(s, e))
  {
    if e.MarkEmpty? && s.claim.Snapped? && s.cursor.epoch == s.claim.scan.epoch {
      forall k | k in s.pending ensures Unnoted(s.notes, k) {
        assert k !in Reads(s.claim.snapshot, s.claim.scan.scanFrom);
      }
    }
  }

  lemma StepKeepsInv(s: Sys, e: Event)
    requires Inv(s) && Enabled(s, e)
    ensures Inv(Apply(s, e))
  {
    match e
    case InsertCommit(n) => InsertKeepsInv(s, n);
    case ApplyNote(n) => NoteKeepsInv(s, n);
    case CommitClaim(n, taken, last) => CommitKeepsInv(s, n, taken, last);
    case Advance => AdvanceKeepsInv(s);
    case _ => OtherStepsKeepInv(s, e);
  }

  // ---- Whole runs ----

  /** A process start: any live keys, nothing recorded, no note outstanding. */
  ghost predicate ColdStart(s: Sys) {
    s.cursor == FRESH && s.notes == multiset{} && s.claim == Idle
  }

  /** In every run the bound covers every noted live key, and recorded emptiness is true of
      every noted key. */
  lemma {:induction false} RunIsSafe(s: Sys, es: seq<Event>)
    requires Inv(s) && IsRun(s, es)
    ensures Inv(Run(s, es))
    decreases es
  {
    if es != [] {
      StepKeepsInv(s, es[0]);
      RunIsSafe(Apply(s, es[0]), es[1..]);
    }
  }

  lemma ColdRunIsSafe(s: Sys, es: seq<Event>)
    requires ColdStart(s) && IsRun(s, es)
    ensures Covered(Run(s, es)) && EmptinessSound(Run(s, es))
  {
    RunIsSafe(s, es);
  }

  // ---- What a claim returns ----

  /** The first keys of a set are unique. */
  lemma FirstKeysUnique(keys: set<Key>, n: nat, a: set<Key>, b: set<Key>)
    requires FirstKeys(keys, n, a) && FirstKeys(keys, n, b)
    ensures a == b
  {
    if x :| x in a && x !in b {
      if y :| y in b && y !in a {
        LessTransitive(x, y, x);
        LessIrreflexive(x);
      } else {
        SubsetSize(b, a - {x});
      }
    } else if y :| y in b && y !in a {
      SubsetSize(a, b - {y});
    }
  }

  /** A claim takes what a front scan of its snapshot takes, if and only if its bound yields
      the least live key. */
  lemma BoundScanIsFrontScan(snapshot: set<Key>, bound: Option<ScanFrom>, n: nat, taken: set<Key>)
    requires n > 0 && FirstKeys(Reads(snapshot, bound), n, taken)
    ensures FirstKeys(snapshot, n, taken) <==> (forall k :: IsLeast(k, snapshot) ==> Yields(bound, k))
  {
    var seen := Reads(snapshot, bound);
    if forall k :: IsLeast(k, snapshot) ==> Yields(bound, k) {
      if snapshot != {} {
        var m := LeastOf(snapshot);
        forall k | k in snapshot ensures Yields(bound, k) {
          YieldsAbove(bound, m, k);
        }
      }
      assert seen == snapshot;
    } else {
      var m :| IsLeast(m, snapshot) && !Yields(bound, m);
      SubsetSize(seen, snapshot - {m});
      if FirstKeys(snapshot, n, taken) {
        if t :| t in taken {
          OrderLaws();
        } else {
          assert false;
        }
      }
    }
  }

  ghost function KeysOf(keys: seq<Key>): set<Key> {
    set i | 0 <= i < |keys| :: keys[i]
  }

  lemma {:induction false} SortedSize(keys: seq<Key>)
    requires Sorted(keys)
    ensures |KeysOf(keys)| == |keys|
  {
    if keys != [] {
      var n := |keys| - 1;
      SortedSize(keys[..n]);
      LessIrreflexive(keys[n]);
      assert keys[n] !in KeysOf(keys[..n]);
      assert KeysOf(keys) == KeysOf(keys[..n]) + {keys[n]};
    }
  }

  /** The scan loop of a claim takes the first keys that its bound yields. */
  method ScanClaim(keys: seq<Key>, bound: Option<ScanFrom>, maxJobs: nat) returns (candidates: seq<Key>, drained: bool)
    requires Sorted(keys)
    ensures FirstKeys(Reads(KeysOf(keys), bound), maxJobs, KeysOf(candidates))
    ensures Sorted(candidates)
    ensures drained <==> |Reads(KeysOf(keys), bound)| < maxJobs
  {
    ghost var start;
    candidates, drained, start := ScanPending(keys, bound, maxJobs);
    SortedSize(keys[start..]);
    SortedSize(candidates);
    ghost var seen := Reads(KeysOf(keys), bound);
    assert forall i :: start <= i < |keys| ==> keys[i] == keys[start..][i - start];
    assert seen == KeysOf(keys[start..]);
    assert forall i :: 0 <= i < |candidates| ==> candidates[i] == keys[start..][i];
  }

  /** A claim whose snapshot is taken without an outstanding note, under the bound it observed,
      takes what a front scan takes. */
  lemma ClaimTakesTheFront(s: Sys, n: nat, taken: set<Key>)
    requires Inv(s) && Enabled(s, Snapshot)
    requires s.notes == multiset{} && s.cursor.scanFrom == s.claim.scan.scanFrom
    requires n > 0 && FirstKeys(Reads(s.pending, s.claim.scan.scanFrom), n, taken)
    ensures FirstKeys(s.pending, n, taken)
  {
    BoundScanIsFrontScan(s.pending, s.claim.scan.scanFrom, n, taken);
  }

  /** With notes outstanding, a claim never passes over a key that was noted when it began. */
  lemma ClaimPassesNoKnownKey(s: Sys, n: nat, taken: set<Key>, last: Key, k: Key)
    requires Inv(s) && Enabled(s, CommitClaim(n, taken, last))
    requires k in s.claim.known && k in s.claim.snapshot
    ensures k in taken || (|taken| == n && Less(last, k))
  {
    var seen := Reads(s.claim.snapshot, s.claim.scan.scanFrom);
    assert k in seen;
    if |seen| < n {
      TakesAll(seen, n, taken);
    }
  }

  /** A poll of a queue known to be empty answers without a scan. Without an outstanding note
      there is no live key. */
  lemma EmptyPollIsExact(s: Sys)
    requires Inv(s) && KnownEmpty(s.cursor) && s.notes == multiset{}
    ensures s.pending == {}
  {
    assert forall k :: k in s.pending ==> Unnoted(s.notes, k);
  }

  // ---- What a claim leaves to the next ----

  /** A mark makes the queue known to be empty exactly when no note was recorded since the claim
      began, and leaves the bound as it is. */
  lemma MarkRecordsEmptiness(s: Sys)
    requires Inv(s) && Enabled(s, MarkEmpty)
    ensures KnownEmpty(Apply(s, MarkEmpty).cursor) <==> s.cursor.epoch == s.claim.scan.epoch
    ensures Apply(s, MarkEmpty).cursor.scanFrom == s.cursor.scanFrom
    ensures Apply(s, MarkEmpty).cursor.epoch == s.cursor.epoch
  {
  }

  ghost predicate NoNotes(es: seq<Event>) {
    forall i :: 0 <= i < |es| ==> !es[i].ApplyNote?
  }

  lemma NoNotesCons(es: seq<Event>)
    requires es != []
    ensures NoNotes(es) <==> !es[0].ApplyNote? && NoNotes(es[1..])
  {
    assert forall i :: 0 < i < |es| ==> es[i] == es[1..][i - 1];
  }

  /** The steps of one claim, with those of others between them: the observation stays, and the epoch
      grows exactly with the notes. */
  lemma {:induction false} ClaimKeepsItsScan(s: Sys, es: seq<Event>)
    requires IsRun(s, es) && Begin !in es && !s.claim.Idle? && s.claim.scan.epoch <= s.cursor.epoch
    ensures var t := Run(s, es);
      && (!t.claim.Idle? ==> t.claim.scan == s.claim.scan)
      && s.cursor.epoch <= t.cursor.epoch
      && (t.cursor.epoch == s.cursor.epoch <==> NoNotes(es))
    decreases es
  {
    if es != [] {
      var t := Apply(s, es[0]);
      NoNotesCons(es);
      if !t.claim.Idle? {
        ClaimKeepsItsScan(t, es[1..]);
      } else {
        IdleKeepsEpoch(t, es[1..]);
      }
    }
  }

  lemma {:induction false} IdleKeepsEpoch(s: Sys, es: seq<Event>)
    requires IsRun(s, es) && Begin !in es && s.claim.Idle?
    ensures var t := Run(s, es);
      && t.claim.Idle? && s.cursor.epoch <= t.cursor.epoch
      && (t.cursor.epoch == s.cursor.epoch <==> NoNotes(es))
    decreases es
  {
    if es != [] {
      NoNotesCons(es);
      IdleKeepsEpoch(Apply(s, es[0]), es[1..]);
    }
  }

  /** A claim that finds the queue drained makes the next poll answer without a scan exactly when no
      note was applied since it began, whatever else ran beside it. */
  lemma DrainedClaimAnswersTheNextPoll(s: Sys, es: seq<Event>)
    requires Inv(s) && Enabled(s, Begin) && IsRun(Apply(s, Begin), es) && Begin !in es
    requires Enabled(Run(Apply(s, Begin), es), MarkEmpty)
    ensures var t := Apply(Run(Apply(s, Begin), es), MarkEmpty);
      (KnownEmpty(t.cursor) <==> NoNotes(es)) && (KnownEmpty(t.cursor) ==> !Enabled(t, Begin))
  {
    var begun := Apply(s, Begin);
    ClaimKeepsItsScan(begun, es);
    StepKeepsInv(s, Begin);
    RunIsSafe(begun, es);
    MarkRecordsEmptiness(Run(begun, es));
  }

  /** A scan after the advance of a claim starts strictly after its last key when no insert was noted
      since the last advance, so claimed keys are not read again. */
  lemma AdvancePassesTheClaim(s: Sys, k: Key)
    requires Inv(s) && Enabled(s, Advance) && s.cursor.scanFrom == s.claim.scan.scanFrom && s.cursor.minInsertAhead.None?
    ensures Yields(Apply(s, Advance).cursor.scanFrom, k) <==> Less(s.claim.last, k)
  {
    ScanAfterAdvance(s.cursor, s.claim.last, s.claim.scan, k);
  }

  lemma RunCons(s: Sys, e: Event, rest: seq<Event>)
    requires Enabled(s, e) && IsRun(Apply(s, e), rest)
    ensures IsRun(s, [e] + rest) && Run(s, [e] + rest) == Run(Apply(s, e), rest)
  {
    assert ([e] + rest)[1..] == rest;
  }

  /** One live key after the bound of a claimed key, before and after a claim begins. */
  ghost function OneLiveKey(claim: Claim): Sys {
    Sys({[9]}, FRESH.(scanFrom := Some(ScanFrom([5], false))), multiset{}, claim)
  }

  /** The state that the race reaches: `[3]` is live and noted, and the claim scans after `[5]`. */
  ghost function RacedState(): Sys {
    var scan := Observed(OneLiveKey(Idle).cursor);
    Sys({[3], [9]}, Noted(OneLiveKey(Idle).cursor, [3]), multiset{}, Snapped(scan, {[9]}, {[3], [9]}, {}))
  }

  lemma RaceIsARun(low: Note, es: seq<Event>)
    requires low == Note({[3]}, [3])
    requires es == [Begin, InsertCommit(low), ApplyNote(low), Snapshot]
    ensures IsRun(OneLiveKey(Idle), es) && Run(OneLiveKey(Idle), es) == RacedState()
  {
    var s0 := OneLiveKey(Idle);
    assert (set k | k in s0.pending && !Unnoted(s0.notes, k)) == {[9]};
    var s1 := OneLiveKey(Begun(Observed(s0.cursor), {[9]}));
    assert Apply(s0, Begin) == s1;
    var s2 := s1.(pending := {[3], [9]}, notes := multiset{low});
    assert Apply(s1, InsertCommit(low)) == s2;
    var s3 := s2.(notes := multiset{}, cursor := Noted(s0.cursor, [3]));
    assert Apply(s2, ApplyNote(low)) == s3;
    assert es[1..] == [es[1]] + ([es[2]] + ([es[3]] + []));
    RunCons(s3, es[3], []);
    RunCons(s2, es[2], [es[3]] + []);
    RunCons(s1, es[1], [es[2]] + ([es[3]] + []));
  }

  /** A process that starts with two live keys. */
  const TWO_KEYS := Sys({[5], [9]}, FRESH, multiset{}, Idle)

  const FIRST_CLAIM := [Begin, Snapshot, CommitClaim(1, {[5]}, [5]), Advance]

  /** Its first claim takes the first of them. */
  lemma FirstClaimIsARun(rest: seq<Event>)
    requires IsRun(OneLiveKey(Idle), rest)
    ensures IsRun(TWO_KEYS, FIRST_CLAIM + rest) && Run(TWO_KEYS, FIRST_CLAIM + rest) == Run(OneLiveKey(Idle), rest)
  {
    var scan := Observed(FRESH);
    var s1 := TWO_KEYS.(claim := Begun(scan, {[5], [9]}));
    assert Apply(TWO_KEYS, Begin) == s1 by {
      assert (set k | k in TWO_KEYS.pending && !Unnoted(TWO_KEYS.notes, k)) == {[5], [9]};
    }
    var s2 := TWO_KEYS.(claim := Snapped(scan, {[5], [9]}, {[5], [9]}, {}));
    var s3 := Sys({[9]}, FRESH, multiset{}, Committed(scan, [5], false));
    FirstCommit(scan, s2, s3);
    assert Apply(s3, Advance) == OneLiveKey(Idle);
    var commit := CommitClaim(1, {[5]}, [5]);
    RunCons(s3, Advance, rest);
    RunCons(s2, commit, [Advance] + rest);
    RunCons(s1, Snapshot, [commit] + ([Advance] + rest));
    RunCons(TWO_KEYS, Begin, [Snapshot] + ([commit] + ([Advance] + rest)));
    assert FIRST_CLAIM + rest == [Begin] + ([Snapshot] + ([commit] + ([Advance] + rest)));
  }

  lemma FirstCommit(scan: ClaimScanStart, snapped: Sys, after: Sys)
    requires scan == Observed(FRESH) && snapped == TWO_KEYS.(claim := Snapped(scan, {[5], [9]}, {[5], [9]}, {}))
    requires after == Sys({[9]}, FRESH, multiset{}, Committed(scan, [5], false))
    ensures Enabled(snapped, CommitClaim(1, {[5]}, [5])) && Apply(snapped, CommitClaim(1, {[5]}, [5])) == after
  {
    assert Reads({[5], [9]}, None) == {[5], [9]};
    assert {[5], [9]} - {[5]} == {[9]};
  }

  /** A note between the begin of a claim and its snapshot can put a key behind the bound the
      claim observed, and the claim then passes over a noted live key. The run starts with the
      process. */
  lemma NoteDuringBeginIsPassedOver() returns (es: seq<Event>)
    ensures ColdStart(TWO_KEYS) && IsRun(TWO_KEYS, es)
    ensures var s := Run(TWO_KEYS, es);
      && Enabled(s, CommitClaim(1, {[9]}, [9]))
      && [3] in s.pending && !Unnoted(s.notes, [3]) && Less([3], [9])
  {
    var low := Note({[3]}, [3]);
    var race := [Begin, InsertCommit(low), ApplyNote(low), Snapshot];
    RaceIsARun(low, race);
    FirstClaimIsARun(race);
    es := FIRST_CLAIM + race;
    assert Less([5], [9]) && !Less([5], [3]);
    assert Reads({[3], [9]}, Some(ScanFrom([5], false))) == {[9]};
  }
}
