/** The per-queue claim-scan state of taquba: a scan-start bound, an insert epoch, an
    emptiness marker and the clamp key of the next advance. The functions of the first half
    state each transition on one queue's value. The class keeps the values in a map and
    updates them as the methods of the source do. */
module ClaimCursor {
  import opened Bytes
  import opened Wrappers

  type QueueName = string

  /** Where a claim scan starts: at `key`, or strictly after it. */
  datatype ScanFrom = ScanFrom(key: Key, inclusive: bool)

  datatype QueueClaimState = QueueClaimState(
    scanFrom: Option<ScanFrom>,
    epoch: nat,
    emptyAsOf: Option<nat>,
    minInsertAhead: Option<Key>)

  datatype ClaimScanStart = ClaimScanStart(scanFrom: Option<ScanFrom>, epoch: nat, knownEmpty: bool)

  datatype CursorState = CursorState(scanFrom: Option<ScanFrom>, knownEmpty: bool)

  /** The state of a queue without an entry. */
  const FRESH := QueueClaimState(None, 0, None, None)

  const MAX_INSERT_WAKEUPS: nat := 64

  /** A scan from `bound` reads `k`. Without a bound the scan starts at the front. */
  predicate Yields(bound: Option<ScanFrom>, k: Key) {
    match bound
    case None => true
    case Some(sf) => Less(sf.key, k) || (k == sf.key && sf.inclusive)
  }

  predicate KnownEmpty(s: QueueClaimState) {
    s.emptyAsOf == Some(s.epoch)
  }

  function Observed(s: QueueClaimState): ClaimScanStart {
    ClaimScanStart(s.scanFrom, s.epoch, KnownEmpty(s))
  }

  /** The state after an advance past `claimed`: unchanged when the bound moved after the
      observation, otherwise clamped to the least insert recorded since the last advance. */
  function Advanced(s: QueueClaimState, claimed: Key, observed: ClaimScanStart): QueueClaimState {
    if s.scanFrom != observed.scanFrom then s
    else
      var clamp := s.minInsertAhead.Some? && AtMost(s.minInsertAhead.value, claimed);
      s.(minInsertAhead := None,
         scanFrom := Some(if clamp then ScanFrom(s.minInsertAhead.value, true) else ScanFrom(claimed, false)))
  }

  function MarkedEmpty(s: QueueClaimState, observed: ClaimScanStart): QueueClaimState {
    s.(emptyAsOf := Some(observed.epoch))
  }

  /** The state after the note of a committed insert whose least key is `minKey`. The bound
      moves to a key it does not yield, and without a bound only from known emptiness. */
  function Noted(s: QueueClaimState, minKey: Key): QueueClaimState {
    var moves := if s.scanFrom.Some? then !Yields(s.scanFrom, minKey) else KnownEmpty(s);
    if moves then
      s.(epoch := s.epoch + 1, scanFrom := Some(ScanFrom(minKey, true)), minInsertAhead := None)
    else
      var lower := s.minInsertAhead.None? || Less(minKey, s.minInsertAhead.value);
      s.(epoch := s.epoch + 1, minInsertAhead := if lower then Some(minKey) else s.minInsertAhead)
  }

  predicate Exportable(s: QueueClaimState) {
    s.scanFrom.Some? || KnownEmpty(s)
  }

  function Exported(s: QueueClaimState): CursorState {
    CursorState(s.scanFrom, KnownEmpty(s))
  }

  function Restored(s: QueueClaimState, state: CursorState): QueueClaimState {
    s.(scanFrom := state.scanFrom, emptyAsOf := if state.knownEmpty then Some(s.epoch) else s.emptyAsOf)
  }

  function StateOf(queues: map<QueueName, QueueClaimState>, queue: QueueName): QueueClaimState {
    if queue in queues then queues[queue] else FRESH
  }

  /** One scanned cursor record, `None` when its value or its key is unreadable. */
  type Scanned = Option<(QueueName, CursorState)>

  /** The map after the records are restored in order. */
  function RestoredAll(queues: map<QueueName, QueueClaimState>, records: seq<Scanned>): map<QueueName, QueueClaimState> {
    if records == [] then queues
    else
      var before := RestoredAll(queues, records[..|records| - 1]);
      match records[|records| - 1]
      case None => before
      case Some((queue, state)) => before[queue := Restored(StateOf(before, queue), state)]
  }

  // ---- What each transition does to the scans that follow ----

  /** A scan after an advance reads the keys after the claimed one, and from an insert recorded since
      the last advance when that is not after the claimed one. A moved bound stays. The advance
      consumes the recorded insert. */
  lemma ScanAfterAdvance(s: QueueClaimState, claimed: Key, observed: ClaimScanStart, k: Key)
    ensures var after, ahead := Advanced(s, claimed, observed), s.minInsertAhead;
      if s.scanFrom != observed.scanFrom then after == s
      else
        && (Yields(after.scanFrom, k) <==>
              Less(claimed, k) || (ahead.Some? && AtMost(ahead.value, claimed) && AtMost(ahead.value, k)))
        && after.minInsertAhead.None? && KnownEmpty(after) == KnownEmpty(s) && after.epoch == s.epoch
  {
    OrderLaws();
  }

  /** A scan after a note reads what it read before and the keys from the noted one on, and an unknown
      bound stays unknown unless the queue was known to be empty. The note revokes emptiness, and the
      clamp of the next advance is the least insert recorded ahead of the bound. */
  lemma ScanAfterNote(s: QueueClaimState, minKey: Key, k: Key)
    requires s.emptyAsOf.Some? ==> s.emptyAsOf.value <= s.epoch
    ensures var after := Noted(s, minKey);
      && (Yields(after.scanFrom, k) <==>
            if s.scanFrom.None? && KnownEmpty(s) then AtMost(minKey, k) else Yields(s.scanFrom, k) || AtMost(minKey, k))
      && (after.scanFrom.None? <==> s.scanFrom.None? && !KnownEmpty(s))
      && !KnownEmpty(after) && after.epoch == s.epoch + 1
      && (after.scanFrom == s.scanFrom ==>
            after.minInsertAhead.Some? && AtMost(after.minInsertAhead.value, minKey)
            && (after.minInsertAhead.value == minKey || after.minInsertAhead == s.minInsertAhead))
  {
    OrderLaws();
  }

  /** Opening a cursor with the records of a close gives each queue the bound and the emptiness of its
      record, and a queue without a record none. */
  lemma {:induction false} RestoredFromRecords(records: seq<Scanned>, queue: QueueName)
    requires forall i, j :: 0 <= i < j < |records| && records[i].Some? && records[j].Some? ==>
               records[i].value.0 != records[j].value.0
    ensures var s := StateOf(RestoredAll(map[], records), queue);
      && (forall i :: 0 <= i < |records| && records[i].Some? && records[i].value.0 == queue ==>
            Exported(s) == records[i].value.1 && s.epoch == 0 && s.minInsertAhead.None?)
      && ((forall i :: 0 <= i < |records| && records[i].Some? ==> records[i].value.0 != queue) ==> s == FRESH)
  {
    if records != [] {
      var n := |records| - 1;
      RestoredFromRecords(records[..n], queue);
      assert forall i :: 0 <= i < n ==> records[..n][i] == records[i];
    }
  }

  class Cursor {
    var queues: map<QueueName, QueueClaimState>

    constructor ()
      ensures queues == map[]
    {
      queues := map[];
    }

    method BeginClaim(queue: QueueName) returns (scan: ClaimScanStart)
      ensures scan == Observed(StateOf(queues, queue))
    {
      if queue in queues {
        var s := queues[queue];
        scan := ClaimScanStart(s.scanFrom, s.epoch, s.emptyAsOf == Some(s.epoch));
      } else {
        scan := ClaimScanStart(None, 0, false);
      }
    }

    method Advance(queue: QueueName, claimed: Key, observed: ClaimScanStart)
      modifies this
      ensures queues == old(queues)[queue := Advanced(StateOf(old(queues), queue), claimed, observed)]
    {
      var s := StateOf(queues, queue);
      if s.scanFrom == observed.scanFrom {
        var taken := s.minInsertAhead;
        s := s.(minInsertAhead := None);
        if taken.Some? && AtMost(taken.value, claimed) {
          s := s.(scanFrom := Some(ScanFrom(taken.value, true)));
        } else {
          s := s.(scanFrom := Some(ScanFrom(claimed, false)));
        }
      }
      queues := queues[queue := s];
    }

    method MarkEmpty(queue: QueueName, observed: ClaimScanStart)
      modifies this
      ensures queues == old(queues)[queue := MarkedEmpty(StateOf(old(queues), queue), observed)]
      ensures KnownEmpty(StateOf(queues, queue)) <==> observed.epoch == StateOf(old(queues), queue).epoch
      ensures StateOf(queues, queue).scanFrom == StateOf(old(queues), queue).scanFrom
    {
      var s := StateOf(queues, queue);
      queues := queues[queue := s.(emptyAsOf := Some(observed.epoch))];
    }

    method IsKnownEmpty(queue: QueueName) returns (empty: bool)
      ensures empty <==> KnownEmpty(StateOf(queues, queue))
    {
      empty := queue in queues && queues[queue].emptyAsOf == Some(queues[queue].epoch);
    }

    /** Records the note and returns the wakeups issued. */
    method NotePendingInserts(queue: QueueName, minKey: Key, count: nat) returns (wakeups: nat)
      modifies this
      ensures queues == old(queues)[queue := Noted(StateOf(old(queues), queue), minKey)]
      ensures wakeups <= MAX_INSERT_WAKEUPS && wakeups <= count
      ensures wakeups == count || wakeups == MAX_INSERT_WAKEUPS
    {
      var s := StateOf(queues, queue);
      var wasKnownEmpty := KnownEmpty(s);
      s := s.(epoch := s.epoch + 1);
      var includeMinKey;
      match s.scanFrom {
        case Some(sf) =>
          includeMinKey := Less(minKey, sf.key) || (minKey == sf.key && !sf.inclusive);
          LessTotal(minKey, sf.key);
          LessIrreflexive(minKey);
          if Less(minKey, sf.key) && Less(sf.key, minKey) {
            LessTransitive(minKey, sf.key, minKey);
          }
        case None =>
          includeMinKey := wasKnownEmpty;
      }
      if includeMinKey {
        s := s.(scanFrom := Some(ScanFrom(minKey, true)), minInsertAhead := None);
      } else if s.minInsertAhead.None? || Less(minKey, s.minInsertAhead.value) {
        s := s.(minInsertAhead := Some(minKey));
      }
      queues := queues[queue := s];
      wakeups := if count < MAX_INSERT_WAKEUPS then count else MAX_INSERT_WAKEUPS;
    }

    method Export() returns (states: map<QueueName, CursorState>)
      ensures states.Keys == set q | q in queues && Exportable(queues[q])
      ensures forall q :: q in states ==> states[q] == Exported(queues[q])
    {
      states := map[];
      var rest := queues.Keys;
      while rest != {}
        invariant rest <= queues.Keys
        invariant states.Keys == set q | q in queues && q !in rest && Exportable(queues[q])
        invariant forall q :: q in states ==> states[q] == Exported(queues[q])
        decreases rest
      {
        var queue :| queue in rest;
        rest := rest - {queue};
        var s := queues[queue];
        var knownEmpty := KnownEmpty(s);
        if s.scanFrom.Some? || knownEmpty {
          states := states[queue := CursorState(s.scanFrom, knownEmpty)];
        }
      }
    }

    method Restore(queue: QueueName, state: CursorState)
      modifies this
      ensures queues == old(queues)[queue := Restored(StateOf(old(queues), queue), state)]
    {
      var s := StateOf(queues, queue);
      s := s.(scanFrom := state.scanFrom);
      if state.knownEmpty {
        s := s.(emptyAsOf := Some(s.epoch));
      }
      queues := queues[queue := s];
    }

    /** Restores every record that decodes and deletes every record of `stored`. */
    method RestoreCursorState(records: seq<(Key, Scanned)>, stored: set<Key>) returns (left: set<Key>)
      modifies this
      ensures queues == RestoredAll(old(queues), seq(|records|, i requires 0 <= i < |records| => records[i].1))
      ensures left == stored - set i | 0 <= i < |records| :: records[i].0
    {
      left := stored;
      ghost var all := seq(|records|, i requires 0 <= i < |records| => records[i].1);
      for i := 0 to |records|
        invariant queues == RestoredAll(old(queues), all[..i])
        invariant left == stored - set j | 0 <= j < i :: records[j].0
      {
        var (key, record) := records[i];
        assert all[..i + 1][..i] == all[..i];
        if record.Some? {
          Restore(record.value.0, record.value.1);
        }
        left := left - {key};
      }
      assert all[..|records|] == all;
    }
  }

  /** The queue's pending keys in order, as the store's iterator returns them. */
  predicate Sorted(keys: seq<Key>) {
    forall i, j :: 0 <= i < j < |keys| ==> Less(keys[i], keys[j])
  }

  /** The scan of one claim: up to `maxJobs` keys from the bound, and whether the keys ran out
      before the batch was full. `start` is the index of the first key that the bound yields. */
  method ScanPending(keys: seq<Key>, bound: Option<ScanFrom>, maxJobs: nat)
    returns (candidates: seq<Key>, drained: bool, start: nat)
    requires Sorted(keys)
    ensures start <= |keys|
    ensures forall i :: 0 <= i < |keys| ==> (Yields(bound, keys[i]) <==> start <= i)
    ensures |candidates| <= |keys| - start && candidates == keys[start..start + |candidates|]
    ensures drained <==> |keys| - start < maxJobs
    ensures if drained then |candidates| == |keys| - start else |candidates| == maxJobs
  {
    var i := 0;
    while i < |keys| && !Yields(bound, keys[i])
      invariant 0 <= i <= |keys|
      invariant forall j :: 0 <= j < i ==> !Yields(bound, keys[j])
    {
      i := i + 1;
    }
    start := i;
    forall j | start <= j < |keys| ensures Yields(bound, keys[j]) {
      YieldsAbove(bound, keys[start], keys[j]);
    }
    candidates, drained := [], false;
    while |candidates| < maxJobs
      invariant |candidates| <= maxJobs && start <= i <= |keys| && i == start + |candidates|
      invariant candidates == keys[start..i]
      invariant drained ==> i == |keys|
    {
      if i == |keys| {
        drained := true;
        break;
      }
      assert keys[start..i + 1] == keys[start..i] + [keys[i]];
      candidates := candidates + [keys[i]];
      i := i + 1;
    }
  }

  /** What a bound yields is closed upwards. */
  lemma YieldsAbove(bound: Option<ScanFrom>, a: Key, b: Key)
    requires Yields(bound, a) && AtMost(a, b)
    ensures Yields(bound, b)
  {
    if bound.Some? && Less(bound.value.key, a) && Less(a, b) {
      LessTransitive(bound.value.key, a, b);
    }
  }
}
