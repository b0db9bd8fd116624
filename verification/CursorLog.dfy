/** The claim cursor across clean closes, opens and crashes. Every commit of the store appends
    to the write-ahead log, and a crash keeps an arbitrary prefix of it. */
module CursorLog {
  import opened Bytes
  import opened Wrappers
  import opened ClaimCursor
  import opened ClaimProtocol

  /** What one committed transaction writes of one queue. */
  datatype Entry =
    | Write(inserted: set<Key>, removed: set<Key>)
    | PutRecord(state: CursorState)
    | DeleteRecord

  datatype Store = Store(pending: set<Key>, record: Option<CursorState>)

  ghost function Appended(store: Store, e: Entry): Store {
    match e
    case Write(inserted, removed) => store.(pending := store.pending + inserted - removed)
    case PutRecord(state) => store.(record := Some(state))
    case DeleteRecord => store.(record := None)
  }

  ghost function Replay(log: seq<Entry>): Store {
    if log == [] then Store({}, None) else Appended(Replay(log[..|log| - 1]), log[|log| - 1])
  }

  lemma ReplayAppend(log: seq<Entry>, e: Entry)
    ensures Replay(log + [e]) == Appended(Replay(log), e)
  {
    assert (log + [e])[..|log|] == log;
  }

  datatype Process = Closed | Open(sys: Sys)

  datatype World = World(log: seq<Entry>, process: Process)

  datatype WorldEvent =
    | Session(event: Event)
    | OpenStore
    | CloseStore
    | Crash(kept: nat)

  /** The log entry of a session's event, absent for a step of process state alone. */
  ghost function LogOf(e: Event): seq<Entry> {
    match e
    case InsertCommit(n) => [Write(n.keys, {})]
    case Remove(k) => [Write({}, {k})]
    case CommitClaim(_, taken, _) => [Write({}, taken)]
    case _ => []
  }

  /** A close consumes the queue handle, so no claim is in flight. An enqueue whose future was
      dropped between its commit and its note leaves the note outstanding for good. */
  ghost predicate Possible(w: World, e: WorldEvent) {
    match e
    case Session(event) => w.process.Open? && Enabled(w.process.sys, event)
    case OpenStore => w.process.Closed?
    case CloseStore => w.process.Open? && w.process.sys.claim == Idle
    case Crash(kept) => kept <= |w.log|
  }

  /** The session of a store that opens at `store`, with its record restored. */
  ghost function OpenedAt(store: Store): Sys {
    Sys(store.pending, if store.record.Some? then Restored(FRESH, store.record.value) else FRESH, multiset{}, Idle)
  }

  ghost function Next(w: World, e: WorldEvent): World
    requires Possible(w, e)
  {
    match e
    case Session(event) =>
      World(w.log + LogOf(event), Open(Apply(w.process.sys, event)))
    case OpenStore =>
      var store := Replay(w.log);
      World(if store.record.Some? then w.log + [DeleteRecord] else w.log, Open(OpenedAt(store)))
    case CloseStore =>
      var cursor := w.process.sys.cursor;
      World(if Exportable(cursor) then w.log + [PutRecord(Exported(cursor))] else w.log, Closed)
    case Crash(kept) =>
      World(w.log[..kept], Closed)
  }

  ghost predicate IsHistory(w: World, es: seq<WorldEvent>)
    decreases es
  {
    es == [] || (Possible(w, es[0]) && IsHistory(Next(w, es[0]), es[1..]))
  }

  ghost function After(w: World, es: seq<WorldEvent>): World
    requires IsHistory(w, es)
    decreases es
  {
    if es == [] then w else After(Next(w, es[0]), es[1..])
  }

  /** A stored record describes the pending keys stored with it. */
  ghost predicate RecordSound(store: Store) {
    store.record.Some? ==>
      && (forall k :: k in store.pending ==> Yields(store.record.value.scanFrom, k))
      && (store.record.value.knownEmpty ==> store.pending == {})
  }

  ghost predicate EveryPrefixSound(log: seq<Entry>) {
    forall n :: 0 <= n <= |log| ==> RecordSound(Replay(log[..n]))
  }

  ghost predicate WorldInv(w: World) {
    && EveryPrefixSound(w.log)
    && (w.process.Open? ==>
          && Inv(w.process.sys)
          && Replay(w.log) == Store(w.process.sys.pending, None))
  }

  /** The prefixes of a longer log are those of the log, and the longer log. */
  lemma PrefixOfMore(log: seq<Entry>, e: Entry, n: nat)
    requires n <= |log| + 1
    ensures (log + [e])[..n] == if n <= |log| then log[..n] else log + [e]
  {
  }

  lemma PrefixesAfterAppend(log: seq<Entry>, e: Entry)
    requires EveryPrefixSound(log)
    ensures EveryPrefixSound(log + [e]) <==> RecordSound(Appended(Replay(log), e))
  {
    var more := log + [e];
    var last := Replay(more);
    assert last == Appended(Replay(log), e) by {
      ReplayAppend(log, e);
    }
    forall n | 0 <= n <= |more| ensures RecordSound(Replay(more[..n])) || (n == |more| && Replay(more[..n]) == last) {
      PrefixOfMore(log, e, n);
    }
    assert more[..|more|] == more;
  }

  /** The cursor that an open restores from a sound record satisfies the invariant of a
      session, whatever prefix of the log survived. */
  lemma RestoreIsSound(store: Store)
    requires RecordSound(store)
    ensures Inv(OpenedAt(store))
  {
  }

  /** Every live key of an insert whose note was lost is read from the bound, on a queue not known
      to be empty. */
  ghost predicate LostNotesAreRead(s: Sys) {
    forall n, k :: n in s.notes && k in n.keys && k in s.pending ==>
      Yields(s.cursor.scanFrom, k) && !KnownEmpty(s.cursor)
  }

  /** The record of a close is sound exactly when every lost note is read. */
  lemma CloseRecordSound(s: Sys)
    requires Inv(s)
    ensures RecordSound(Store(s.pending, Some(Exported(s.cursor)))) <==> LostNotesAreRead(s)
  {
    if LostNotesAreRead(s) {
      forall k | k in s.pending && Unnoted(s.notes, k)
        ensures Yields(s.cursor.scanFrom, k) && !KnownEmpty(s.cursor)
      {
        var n :| n in s.notes && k in n.keys;
      }
      assert KnownEmpty(s.cursor) ==> forall k :: k in s.pending ==> Unnoted(s.notes, k);
    }
  }

  // ---- Every step of a history ----

  /** The log of a session stays in line with its pending keys, and without a record. */
  lemma SessionReplays(log: seq<Entry>, s: Sys, e: Event)
    requires Enabled(s, e) && Replay(log) == Store(s.pending, None)
    ensures Replay(log + LogOf(e)) == Store(Apply(s, e).pending, None)
  {
    if LogOf(e) == [] {
      assert log + [] == log;
    } else {
      ReplayAppend(log, LogOf(e)[0]);
      assert log + LogOf(e) == log + [LogOf(e)[0]];
    }
  }

  lemma SessionPrefixes(log: seq<Entry>, s: Sys, e: Event)
    requires EveryPrefixSound(log) && Replay(log) == Store(s.pending, None)
    ensures EveryPrefixSound(log + LogOf(e))
  {
    if LogOf(e) == [] {
      assert log + [] == log;
    } else {
      PrefixesAfterAppend(log, LogOf(e)[0]);
      assert log + LogOf(e) == log + [LogOf(e)[0]];
    }
  }

  lemma SessionKeepsInv(w: World, e: Event)
    requires WorldInv(w) && Possible(w, Session(e))
    ensures WorldInv(Next(w, Session(e)))
  {
    var s := w.process.sys;
    assert Inv(Apply(s, e)) by {
      StepKeepsInv(s, e);
    }
    SessionReplays(w.log, s, e);
    SessionPrefixes(w.log, s, e);
  }

  lemma OpenKeepsInv(w: World)
    requires WorldInv(w) && Possible(w, OpenStore)
    ensures WorldInv(Next(w, OpenStore))
  {
    assert w.log[..|w.log|] == w.log;
    RestoreIsSound(Replay(w.log));
    if Replay(w.log).record.Some? {
      ReplayAppend(w.log, DeleteRecord);
      PrefixesAfterAppend(w.log, DeleteRecord);
    }
  }

  /** A close keeps every prefix sound exactly when every lost note is read. */
  lemma CloseKeepsInvIff(w: World)
    requires WorldInv(w) && Possible(w, CloseStore)
    ensures WorldInv(Next(w, CloseStore)) <==> LostNotesAreRead(w.process.sys)
  {
    var s := w.process.sys;
    CloseRecordSound(s);
    if Exportable(s.cursor) {
      PrefixesAfterAppend(w.log, PutRecord(Exported(s.cursor)));
    }
  }

  lemma CrashKeepsInv(w: World, kept: nat)
    requires WorldInv(w) && Possible(w, Crash(kept))
    ensures WorldInv(Next(w, Crash(kept)))
  {
    forall n | 0 <= n <= kept ensures RecordSound(Replay(w.log[..kept][..n])) {
      assert w.log[..kept][..n] == w.log[..n];
    }
  }

  ghost predicate SoundStep(w: World, e: WorldEvent)
    requires Possible(w, e)
  {
    e.CloseStore? ==> LostNotesAreRead(w.process.sys)
  }

  lemma NextKeepsInvIff(w: World, e: WorldEvent)
    requires WorldInv(w) && Possible(w, e)
    ensures WorldInv(Next(w, e)) <==> SoundStep(w, e)
  {
    match e
    case Session(event) => SessionKeepsInv(w, event);
    case OpenStore => OpenKeepsInv(w);
    case CloseStore => CloseKeepsInvIff(w);
    case Crash(kept) => CrashKeepsInv(w, kept);
  }

  /** A record of known emptiness opens a session that answers its first poll without a scan, and
      the bound of the record is the bound of the session. */
  lemma RestoreKnowsTheRecord(store: Store)
    requires store.record.Some?
    ensures var s := OpenedAt(store);
      s.cursor.scanFrom == store.record.value.scanFrom && (KnownEmpty(s.cursor) <==> store.record.value.knownEmpty)
  {
  }

  /** A clean close and the next open keep the bound and the emptiness of the session. */
  lemma CloseAndOpenRoundTrip(w: World)
    requires WorldInv(w) && Possible(w, CloseStore)
    ensures var s, t := w.process.sys, Next(Next(w, CloseStore), OpenStore).process.sys;
      && t.pending == s.pending && t.cursor.scanFrom == s.cursor.scanFrom
      && (KnownEmpty(t.cursor) <==> KnownEmpty(s.cursor))
  {
    var s := w.process.sys;
    if Exportable(s.cursor) {
      ReplayAppend(w.log, PutRecord(Exported(s.cursor)));
    }
  }

  // ---- Whole histories ----

  /** Every close of the history finds every lost note read. */
  ghost predicate SoundCloses(w: World, es: seq<WorldEvent>)
    requires IsHistory(w, es)
    decreases es
  {
    es == [] || (SoundStep(w, es[0]) && SoundCloses(Next(w, es[0]), es[1..]))
  }

  /** At every point of the history, each prefix of the log has a true record or none, and the
      session keeps the coverage and the emptiness of its cursor. */
  ghost predicate SafeThroughout(w: World, es: seq<WorldEvent>)
    requires IsHistory(w, es)
    decreases es
  {
    WorldInv(w) && (es == [] || SafeThroughout(Next(w, es[0]), es[1..]))
  }

  /** A history of sessions, closes, opens and crashes is safe at every point if and only if every
      close of it finds every lost note read. */
  lemma {:induction false} HistoryIsSafeIff(w: World, es: seq<WorldEvent>)
    requires WorldInv(w) && IsHistory(w, es)
    ensures SafeThroughout(w, es) <==> SoundCloses(w, es)
    decreases es
  {
    if es != [] {
      NextKeepsInvIff(w, es[0]);
      if SoundStep(w, es[0]) {
        HistoryIsSafeIff(Next(w, es[0]), es[1..]);
      } else {
        assert !SafeThroughout(Next(w, es[0]), es[1..]);
      }
    }
  }

  lemma {:induction false} HistoryIsSafe(w: World, es: seq<WorldEvent>)
    requires WorldInv(w) && IsHistory(w, es) && SoundCloses(w, es)
    ensures WorldInv(After(w, es))
    decreases es
  {
    if es != [] {
      NextKeepsInvIff(w, es[0]);
      HistoryIsSafe(Next(w, es[0]), es[1..]);
    }
  }

  const NEW_STORE := World([], Closed)

  lemma NewStoreIsSafe(es: seq<WorldEvent>, n: nat)
    requires IsHistory(NEW_STORE, es) && SoundCloses(NEW_STORE, es)
    ensures var w := After(NEW_STORE, es);
      && (n <= |w.log| ==> RecordSound(Replay(w.log[..n])))
      && (w.process.Open? ==> Covered(w.process.sys) && EmptinessSound(w.process.sys))
  {
    HistoryIsSafe(NEW_STORE, es);
  }

  /** A history without a lost note at a close is safe. */
  lemma {:induction false} AllNotedIsSound(w: World, es: seq<WorldEvent>)
    requires IsHistory(w, es) && NoteLessCloses(w, es)
    ensures SoundCloses(w, es)
    decreases es
  {
    if es != [] {
      AllNotedIsSound(Next(w, es[0]), es[1..]);
    }
  }

  ghost predicate NoteLessCloses(w: World, es: seq<WorldEvent>)
    requires IsHistory(w, es)
    decreases es
  {
    || es == []
    || ((es[0].CloseStore? ==> w.process.sys.notes == multiset{}) && NoteLessCloses(Next(w, es[0]), es[1..]))
  }

  // ---- A history with a false record ----

  lemma HistoryCons(w: World, e: WorldEvent, rest: seq<WorldEvent>)
    requires Possible(w, e) && IsHistory(Next(w, e), rest)
    ensures IsHistory(w, [e] + rest) && After(w, [e] + rest) == After(Next(w, e), rest)
  {
    assert ([e] + rest)[1..] == rest;
  }

  /** The world after one event, as a history of its own. */
  lemma HistoryStep(w: World, e: WorldEvent, es: seq<WorldEvent>, next: World)
    requires IsHistory(w, es) && Possible(After(w, es), e) && Next(After(w, es), e) == next
    ensures IsHistory(w, es + [e]) && After(w, es + [e]) == next
    decreases es
  {
    if es == [] {
      assert es + [e] == [e];
      HistoryCons(w, e, []);
    } else {
      HistoryStep(Next(w, es[0]), e, es[1..], next);
      assert es + [e] == [es[0]] + (es[1..] + [e]);
      HistoryCons(w, es[0], es[1..] + [e]);
    }
  }

  const FIVE := Note({[5]}, [5])
  const THREE := Note({[3]}, [3])

  /** The cursor after the note of `[5]`, and after a claim of it. */
  const NOTED := QueueClaimState(None, 1, None, Some([5]))
  const CLAIMED := QueueClaimState(Some(ScanFrom([5], true)), 1, None, None)

  const INSERTED_LOG: seq<Entry> := [Write({[5]}, {})]
  const CLAIMED_LOG := INSERTED_LOG + [Write({}, {[5]})]
  const LOST_LOG := CLAIMED_LOG + [Write({[3]}, {})]
  const CLOSED_LOG := LOST_LOG + [PutRecord(CursorState(Some(ScanFrom([5], true)), false))]

  /** A session that inserts `[5]` and notes it. */
  lemma NotedHistory() returns (es: seq<WorldEvent>)
    ensures IsHistory(NEW_STORE, es)
    ensures After(NEW_STORE, es) == World(INSERTED_LOG, Open(Sys({[5]}, NOTED, multiset{}, Idle)))
  {
    var s1 := Sys({}, FRESH, multiset{}, Idle);
    es := [];
    HistoryStep(NEW_STORE, OpenStore, es, World([], Open(s1)));
    es := es + [OpenStore];
    var s2 := Sys({[5]}, FRESH, multiset{FIVE}, Idle);
    assert Apply(s1, InsertCommit(FIVE)) == s2 by {
      assert s1.pending + {[5]} == {[5]};
    }
    HistoryStep(NEW_STORE, Session(InsertCommit(FIVE)), es, World(INSERTED_LOG, Open(s2)));
    es := es + [Session(InsertCommit(FIVE))];
    var s3 := Sys({[5]}, NOTED, multiset{}, Idle);
    assert INSERTED_LOG + [] == INSERTED_LOG;
    assert Apply(s2, ApplyNote(FIVE)) == s3;
    HistoryStep(NEW_STORE, Session(ApplyNote(FIVE)), es, World(INSERTED_LOG, Open(s3)));
    es := es + [Session(ApplyNote(FIVE))];
  }

  /** The same session, which then claims `[5]`. */
  lemma ClaimedHistory() returns (es: seq<WorldEvent>)
    ensures IsHistory(NEW_STORE, es)
    ensures After(NEW_STORE, es) == World(CLAIMED_LOG, Open(Sys({}, CLAIMED, multiset{}, Idle)))
  {
    es := NotedHistory();
    var scan := Observed(NOTED);
    var s3 := Sys({[5]}, NOTED, multiset{}, Idle);
    assert INSERTED_LOG + [] == INSERTED_LOG;
    var s4 := s3.(claim := Begun(scan, {[5]}));
    assert Apply(s3, Begin) == s4 by {
      assert (set k | k in s3.pending && !Unnoted(s3.notes, k)) == {[5]};
    }
    HistoryStep(NEW_STORE, Session(Begin), es, World(INSERTED_LOG, Open(s4)));
    es := es + [Session(Begin)];
    var s5 := s3.(claim := Snapped(scan, {[5]}, {[5]}, {}));
    HistoryStep(NEW_STORE, Session(Snapshot), es, World(INSERTED_LOG, Open(s5)));
    es := es + [Session(Snapshot)];
    var s6 := Sys({}, NOTED, multiset{}, Committed(scan, [5], false));
    assert Reads({[5]}, None) == {[5]};
    assert Apply(s5, CommitClaim(1, {[5]}, [5])) == s6;
    HistoryStep(NEW_STORE, Session(CommitClaim(1, {[5]}, [5])), es, World(CLAIMED_LOG, Open(s6)));
    es := es + [Session(CommitClaim(1, {[5]}, [5]))];
    assert CLAIMED_LOG + [] == CLAIMED_LOG;
    HistoryStep(NEW_STORE, Session(Advance), es, World(CLAIMED_LOG, Open(Sys({}, CLAIMED, multiset{}, Idle))));
    es := es + [Session(Advance)];
  }

  /** The enqueue of `[3]` is dropped between its commit and its note. The close then writes a record
      whose bound is past the live key, and the next session neither covers the key nor has a note
      of it outstanding. */
  lemma LostNoteMakesAFalseRecord() returns (es: seq<WorldEvent>)
    ensures IsHistory(NEW_STORE, es) && After(NEW_STORE, es).log == CLOSED_LOG
    ensures !RecordSound(Replay(CLOSED_LOG))
    ensures IsHistory(NEW_STORE, es + [OpenStore])
    ensures var reopened := After(NEW_STORE, es + [OpenStore]).process;
      reopened.Open? && reopened.sys.pending == {[3]} && !Covered(reopened.sys)
  {
    es := ClaimedHistory();
    var lost := Sys({[3]}, CLAIMED, multiset{THREE}, Idle);
    assert Apply(Sys({}, CLAIMED, multiset{}, Idle), InsertCommit(THREE)) == lost by {
      var none: set<Key> := {};
      assert none + {[3]} == {[3]};
    }
    HistoryStep(NEW_STORE, Session(InsertCommit(THREE)), es, World(LOST_LOG, Open(lost)));
    es := es + [Session(InsertCommit(THREE))];
    HistoryStep(NEW_STORE, CloseStore, es, World(CLOSED_LOG, Closed));
    es := es + [CloseStore];
    var store := Store({[3]}, Some(CursorState(Some(ScanFrom([5], true)), false)));
    assert Replay(CLOSED_LOG) == store by {
      assert Replay([]) == Store({}, None);
      ReplayAppend([], Write({[5]}, {}));
      assert [] + [Write({[5]}, {})] == INSERTED_LOG;
      ReplayAppend(INSERTED_LOG, Write({}, {[5]}));
      ReplayAppend(CLAIMED_LOG, Write({[3]}, {}));
      ReplayAppend(LOST_LOG, PutRecord(store.record.value));
    }
    assert !Yields(Some(ScanFrom([5], true)), [3]);
    HistoryStep(NEW_STORE, OpenStore, es, World(CLOSED_LOG + [DeleteRecord], Open(OpenedAt(store))));
  }
}
