/** One pass of an expiry index: it returns without a read before its time bound is due, and
    otherwise clears the due entries from the bound on, oldest first. */
module Expiry {
  import opened Wrappers
  import opened Bytes
  import opened ExpiryKeys

  /** An entry is due when its time is `retention` or more before now, saturating at the largest
      time. */
  predicate Due(at: nat, now: nat, retention: nat) {
    (if at + retention <= U64_MAX then at + retention else U64_MAX) <= now
  }

  /** For 64-bit times an entry is due exactly when its retention has passed, or at the largest clock
      reading, where the sum saturates. A later entry is due only when an earlier one is. */
  lemma DueIff(at: nat, later: nat, now: nat, retention: nat)
    requires at <= U64_MAX && now <= U64_MAX && retention <= U64_MAX
    ensures Due(at, now, retention) <==> at + retention <= now || now == U64_MAX
    ensures at <= later && Due(later, now, retention) ==> Due(at, now, retention)
  {
  }

  /** The bound of an index: no live entry that was recorded has an earlier time. */
  class TimeBound {
    var bound: nat

    constructor ()
      ensures bound == 0
    {
      bound := 0;
    }

    method Lower(at: nat)
      modifies this
      ensures bound == if at < old(bound) then at else old(bound)
    {
      if at < bound {
        bound := at;
      }
    }

    /** The start of a scan, which takes the bound, or `None` when no entry can be due. */
    method Begin(now: nat, retention: nat) returns (from: Option<nat>)
      modifies this
      ensures from == if Due(old(bound), now, retention) then Some(old(bound)) else None
      ensures bound == if from.Some? then U64_MAX else old(bound)
    {
      if !Due(bound, now, retention) {
        return None;
      }
      from := Some(bound);
      bound := U64_MAX;
    }
  }

  type Entry = (nat, Key)

  function KeyOf(prefix: Key, e: Entry): Key {
    EntryKey(prefix, e.0, e.1)
  }

  predicate Before(a: Entry, b: Entry) {
    a.0 < b.0 || (a.0 == b.0 && Less(a.1, b.1))
  }

  ghost predicate Ascending(calls: seq<Entry>) {
    forall i, j :: 0 <= i < j < |calls| ==> Before(calls[i], calls[j])
  }

  ghost function Entries(prefix: Key, keys: set<Key>): set<Entry> {
    set k | k in keys && Parse(prefix, k).Some? :: Parse(prefix, k).value
  }

  lemma EntryIn(prefix: Key, keys: set<Key>, e: Entry)
    ensures e in Entries(prefix, keys) <==> e.0 <= U64_MAX && KeyOf(prefix, e) in keys
    ensures e.0 <= U64_MAX ==> Parse(prefix, KeyOf(prefix, e)) == Some(e)
  {
    EntryKeyInvertsParse(prefix, KeyOf(prefix, e), e.0, e.1);
    if e in Entries(prefix, keys) {
      var k :| k in keys && Parse(prefix, k) == Some(e);
      EntryKeyInvertsParse(prefix, k, e.0, e.1);
    }
  }

  /** Later keys have later entries. */
  lemma ParsedOrder(prefix: Key, a: Key, b: Key)
    requires Parse(prefix, a).Some? && Parse(prefix, b).Some?
    ensures Less(a, b) <==> Before(Parse(prefix, a).value, Parse(prefix, b).value)
  {
    var (at, s) := Parse(prefix, a).value;
    var (bt, t) := Parse(prefix, b).value;
    EntryKeyInvertsParse(prefix, a, at, s);
    EntryKeyInvertsParse(prefix, b, bt, t);
    EntryKeyOrder(prefix, at, s, bt, t);
  }

  /** The count of the calls whose entry the callback does not keep. */
  function Cleared(calls: seq<Entry>, keep: Entry -> bool): nat {
    if calls == [] then 0
    else Cleared(calls[..|calls| - 1], keep) + if keep(calls[|calls| - 1]) then 0 else 1
  }

  /** An index over the keys of a prefix, with the keys of the store. */
  class ExpiryIndex {
    const prefix: Key
    const time: TimeBound
    var keys: set<Key>

    ghost predicate Valid()
      reads this, time
    {
      && time.bound <= U64_MAX
      && (forall k :: k in keys ==> StartsWith(k, prefix))
      && (forall k :: k in keys && Parse(prefix, k).Some? ==> time.bound <= Parse(prefix, k).value.0)
    }

    /** A new index over the keys that a store has. */
    constructor (prefix: Key, keys: set<Key>)
      requires forall k :: k in keys ==> StartsWith(k, prefix)
      ensures Valid() && this.prefix == prefix && this.keys == keys && fresh(time)
    {
      this.prefix, this.keys := prefix, keys;
      time := new TimeBound();
    }

    /** The commit of an entry, which lowers the bound. */
    method Write(at: nat, suffix: Key)
      requires Valid() && at <= U64_MAX
      modifies this, time
      ensures Valid()
      ensures Entries(prefix, keys) == old(Entries(prefix, keys)) + {(at, suffix)}
    {
      var key := EntryKey(prefix, at, suffix);
      ParseInvertsEntryKey(prefix, at, suffix);
      keys := keys + {key};
      time.Lower(at);
      assert key[..|prefix|] == prefix;
    }

    /** One pass. `ends` says at which key a read fails or the pass is dropped, and `fails` on
        which key a delete fails. A pass that completes removes exactly the due entries not kept and leaves the bound at the
        earliest entry. Any other pass removes only such entries, and leaves the bound where it
        began. */
    method Pass(now: nat, retention: nat, keep: Entry -> bool, ends: Key -> bool, fails: Key -> bool)
      returns (result: Result<nat, ()>, calls: seq<Entry>)
      requires Valid()
      modifies this, time
      ensures Valid()
      ensures Ascending(calls)
      ensures forall e :: e in calls ==> e in old(Entries(prefix, keys)) && Due(e.0, now, retention)
      ensures result.Ok? ==>
        && (forall e :: e in old(Entries(prefix, keys)) && Due(e.0, now, retention) ==> e in calls)
        && Entries(prefix, keys) ==
           (set e | e in old(Entries(prefix, keys)) && (Due(e.0, now, retention) ==> keep(e)))
        && result.value == Cleared(calls, keep)
        && |old(Entries(prefix, keys))| == |Entries(prefix, keys)| + result.value
      ensures result.Ok? && Due(old(time.bound), now, retention) ==>
        MalformedGone(prefix, keys, old(time.bound), now, retention)
      ensures result.Ok? && Due(old(time.bound), now, retention) ==>
        time.bound == U64_MAX || exists e :: e in Entries(prefix, keys) && e.0 == time.bound
      ensures result.Err? ==>
        && time.bound == old(time.bound)
        && Entries(prefix, keys) <= old(Entries(prefix, keys))
        && (forall e :: e in old(Entries(prefix, keys)) - Entries(prefix, keys) ==> e in calls && !keep(e))
      ensures !Due(old(time.bound), now, retention) ==>
        result == Ok(0) && keys == old(keys) && time.bound == old(time.bound)
    {
      var begun := time.Begin(now, retention);
      if begun.None? {
        return Ok(0), [];
      }
      var retained;
      result, calls, retained := Scan(begun.value, now, retention, keep, ends, fails);
      if result.Err? {
        time.Lower(begun.value);
      } else {
        time.Lower(retained);
        RemovedAreCounted(old(Entries(prefix, keys)), Entries(prefix, keys), calls, keep);
      }
    }

    /** The loop of a pass, over the keys from the bound in order. `retained` is the earliest time
        of an entry that the scan read and left. */
    method Scan(from: nat, now: nat, retention: nat, keep: Entry -> bool, ends: Key -> bool, fails: Key -> bool)
      returns (result: Result<nat, ()>, calls: seq<Entry>, retained: nat)
      requires from <= U64_MAX
      requires forall e :: e in Entries(prefix, keys) ==> from <= e.0
      modifies this
      ensures keys <= old(keys)
      ensures Ascending(calls)
      ensures forall e :: e in calls ==> e in old(Entries(prefix, keys)) && Due(e.0, now, retention)
      ensures Entries(prefix, keys) <= old(Entries(prefix, keys))
      ensures forall e :: e in old(Entries(prefix, keys)) - Entries(prefix, keys) ==> e in calls && !keep(e)
      ensures result.Ok? ==>
        && (forall e :: e in old(Entries(prefix, keys)) && Due(e.0, now, retention) ==> e in calls)
        && (forall e :: e in calls && !keep(e) ==> e !in Entries(prefix, keys))
        && result.value == Cleared(calls, keep)
        && IsEarliest(retained, Entries(prefix, keys))
        && MalformedGone(prefix, keys, from, now, retention)
    {
      calls := [];
      var rest := set k | k in keys && AtMost(EntryKey(prefix, from, []), k);
      ghost var c := Scanned(prefix, keys, rest, now, retention, keep);
      WellFormedAtStart(prefix, keys, from);
      retained := U64_MAX;
      var removed := 0;
      assert c.all - rest == {};
      while rest != {}
        invariant Progress(c, Position(rest, keys, calls, retained))
        invariant removed == Cleared(calls, keep)
        decreases rest
      {
        ghost var p := Position(rest, keys, calls, retained);
        EndEarly(c, p);
        var key := Next(rest);
        if ends(key) {
          return Err(()), calls, retained;
        }
        var step;
        step, calls, retained := One(key, calls, retained, now, retention, keep, fails, c, p);
        if step == Failed {
          return Err(()), calls, retained;
        }
        if step == Stopped {
          MalformedAtStop(c, p, from, key);
          return Ok(removed), calls, retained;
        }
        removed := removed + if step == Removed then 1 else 0;
        rest := rest - {key};
      }
      EndEarly(c, Position(rest, keys, calls, retained));
      EndOfKeys(c, Position(rest, keys, calls, retained));
      MalformedAtEnd(c, Position(rest, keys, calls, retained), from);
      result := Ok(removed);
    }

    /** One key of a scan. */
    method One(key: Key, calls: seq<Entry>, retained: nat, now: nat, retention: nat, keep: Entry -> bool,
               fails: Key -> bool, ghost c: Scanned, ghost p: Position)
      returns (step: Step, after: seq<Entry>, least: nat)
      requires c.prefix == prefix && c.now == now && c.retention == retention && c.keep == keep
      requires p.keys == keys && p.calls == calls && p.retained == retained
      requires Progress(c, p) && IsLeast(key, p.rest)
      modifies this
      ensures step == Failed || step == Stopped ==> keys == old(keys)
      ensures step == Failed ==>
        && Ascending(after)
        && forall e :: e in after ==> e in calls || (e in Entries(prefix, c.was) && Due(e.0, now, retention))
      ensures step == Failed ==> calls <= after
      ensures step == Stopped ==> Parse(prefix, key).Some? && !Due(Parse(prefix, key).value.0, now, retention)
      ensures step == Stopped ==>
        && after == calls && IsEarliest(least, Entries(prefix, keys))
        && forall e :: e in Entries(prefix, c.was) && Due(e.0, now, retention) ==> e in calls
      ensures step == Passed || step == Removed ==> Progress(c, Position(p.rest - {key}, keys, after, least))
      ensures step == Passed || step == Removed ==>
        Cleared(after, keep) == Cleared(calls, keep) + if step == Removed then 1 else 0
    {
      after, least := calls, retained;
      var parsed := Parse(prefix, key);
      if parsed.None? {
        if fails(key) {
          return Failed, after, least;
        }
        PassMalformed(c, p, key);
        keys := keys - {key};
        return Passed, after, least;
      }
      var e := parsed.value;
      if !Due(e.0, now, retention) {
        EndAt(c, p, key);
        return Stopped, after, if e.0 < retained then e.0 else retained;
      }
      CallsAscend(c, p, key);
      after := calls + [e];
      if keep(e) {
        PassKept(c, p, key);
        return Passed, after, if e.0 < retained then e.0 else retained;
      }
      if fails(key) {
        assert e in Entries(prefix, c.all);
        return Failed, after, least;
      }
      PassCleared(c, p, key);
      keys := keys - {key};
      step := Removed;
    }
  }

  /** How a scan leaves one key. */
  datatype Step = Passed | Removed | Stopped | Failed

  /** The next key of a listing in ascending order. */
  method Next(rest: set<Key>) returns (key: Key)
    requires rest != {}
    ensures IsLeast(key, rest)
  {
    ghost var least := LeastOf(rest);
    key :| key in rest && IsLeast(key, rest);
  }

  /** A key from the bound on without a time is deleted, unless it is after the first entry that is
      not due. */
  ghost predicate MalformedGone(prefix: Key, keys: set<Key>, from: nat, now: nat, retention: nat) {
    forall k :: k in keys && Parse(prefix, k).None? && AtMost(EntryKey(prefix, from, []), k) ==>
      exists j :: j in keys && Parse(prefix, j).Some? && !Due(Parse(prefix, j).value.0, now, retention) && Less(j, k)
  }

  ghost predicate IsEarliest(t: nat, entries: set<Entry>) {
    && (forall e :: e in entries ==> t <= e.0)
    && (t == U64_MAX || exists e :: e in entries && e.0 == t)
  }

  /** The keys of those handled that a pass deletes. */
  ghost function Gone(prefix: Key, handled: set<Key>, keep: Entry -> bool): set<Key> {
    set k | k in handled && (Parse(prefix, k).None? || !keep(Parse(prefix, k).value))
  }

  /** A scan of the keys `all` of a store that had `was`. */
  datatype Scanned = Scanned(
    prefix: Key, was: set<Key>, all: set<Key>, now: nat, retention: nat, keep: Entry -> bool)

  /** Where a scan is: the keys to come, the keys of the store, the calls and the earliest time
      retained. */
  datatype Position = Position(rest: set<Key>, keys: set<Key>, calls: seq<Entry>, retained: nat)

  ghost function Handled(c: Scanned, p: Position): set<Entry> {
    Entries(c.prefix, c.all - p.rest)
  }

  ghost function Kept(c: Scanned, p: Position): set<Entry> {
    set e | e in Handled(c, p) && c.keep(e)
  }

  ghost predicate Progress(c: Scanned, p: Position) {
    && p.rest <= c.all <= c.was && Entries(c.prefix, c.all) == Entries(c.prefix, c.was)
    && (forall a, b :: a in c.all - p.rest && b in p.rest ==> Less(a, b))
    && p.keys == c.was - Gone(c.prefix, c.all - p.rest, c.keep)
    && (forall e :: e in Handled(c, p) ==> Due(e.0, c.now, c.retention))
    && IsEarliest(p.retained, Kept(c, p))
    && (forall e :: e in p.calls <==> e in Handled(c, p))
    && Ascending(p.calls)
  }

  lemma WellFormedAtStart(prefix: Key, keys: set<Key>, from: nat)
    requires from <= U64_MAX
    requires forall e :: e in Entries(prefix, keys) ==> from <= e.0
    ensures Entries(prefix, keys) == Entries(prefix, set k | k in keys && AtMost(EntryKey(prefix, from, []), k))
  {
    forall k | k in keys && Parse(prefix, k).Some?
      ensures AtMost(EntryKey(prefix, from, []), k)
    {
      var (at, suffix) := Parse(prefix, k).value;
      assert (at, suffix) in Entries(prefix, keys);
      EntryKeyInvertsParse(prefix, k, at, suffix);
      ScanStart(prefix, from, at, suffix);
    }
  }

  lemma StepOver(c: Scanned, p: Position, key: Key)
    requires p.rest <= c.all && IsLeast(key, p.rest)
    ensures c.all - (p.rest - {key}) == (c.all - p.rest) + {key}
    ensures forall b :: b in p.rest - {key} ==> Less(key, b)
    ensures Handled(c, p.(rest := p.rest - {key})) ==
            Handled(c, p) + if Parse(c.prefix, key).Some? then {Parse(c.prefix, key).value} else {}
  {
    assert c.all - (p.rest - {key}) == (c.all - p.rest) + {key};
  }

  lemma CallsAscend(c: Scanned, p: Position, key: Key)
    requires Progress(c, p) && key in p.rest && Parse(c.prefix, key).Some?
    ensures Ascending(p.calls + [Parse(c.prefix, key).value])
  {
    forall e | e in p.calls
      ensures Before(e, Parse(c.prefix, key).value)
    {
      var k :| k in c.all - p.rest && Parse(c.prefix, k) == Some(e);
      ParsedOrder(c.prefix, k, key);
    }
  }

  lemma PassMalformed(c: Scanned, p: Position, key: Key)
    requires Progress(c, p) && IsLeast(key, p.rest) && Parse(c.prefix, key).None?
    ensures Progress(c, p.(rest := p.rest - {key}, keys := p.keys - {key}))
  {
    StepOver(c, p, key);
    assert Kept(c, p.(rest := p.rest - {key})) == Kept(c, p);
  }

  lemma PassKept(c: Scanned, p: Position, key: Key)
    requires Progress(c, p) && IsLeast(key, p.rest) && Parse(c.prefix, key).Some?
    requires c.keep(Parse(c.prefix, key).value) && Due(Parse(c.prefix, key).value.0, c.now, c.retention)
    ensures var e := Parse(c.prefix, key).value;
      Progress(c, p.(rest := p.rest - {key}, calls := p.calls + [e], retained := if e.0 < p.retained then e.0 else p.retained))
  {
    var e := Parse(c.prefix, key).value;
    StepOver(c, p, key);
    CallsAscend(c, p, key);
    EntryKeyInvertsParse(c.prefix, key, e.0, e.1);
    assert Kept(c, p.(rest := p.rest - {key})) == Kept(c, p) + {e};
  }

  lemma PassCleared(c: Scanned, p: Position, key: Key)
    requires Progress(c, p) && IsLeast(key, p.rest) && Parse(c.prefix, key).Some?
    requires !c.keep(Parse(c.prefix, key).value) && Due(Parse(c.prefix, key).value.0, c.now, c.retention)
    ensures Progress(c, p.(rest := p.rest - {key}, keys := p.keys - {key}, calls := p.calls + [Parse(c.prefix, key).value]))
  {
    StepOver(c, p, key);
    CallsAscend(c, p, key);
    assert Kept(c, p.(rest := p.rest - {key})) == Kept(c, p);
  }

  /** What a scan has removed when it ends, on any key. */
  lemma EndEarly(c: Scanned, p: Position)
    requires Progress(c, p)
    ensures forall e :: e in p.calls ==> e in Entries(c.prefix, c.was) && Due(e.0, c.now, c.retention)
    ensures Entries(c.prefix, p.keys) <= Entries(c.prefix, c.was)
    ensures forall e :: e in Entries(c.prefix, c.was) - Entries(c.prefix, p.keys) ==> e in p.calls && !c.keep(e)
    ensures forall e :: e in p.calls ==> (e in Entries(c.prefix, p.keys) <==> c.keep(e))
  {
    forall e | e in Handled(c, p)
      ensures e in Entries(c.prefix, p.keys) <==> c.keep(e)
    {
      EntryIn(c.prefix, c.all - p.rest, e);
      EntryIn(c.prefix, p.keys, e);
    }
  }

  /** An entry that remains is kept or still to come. */
  lemma RemainsKeptOrToCome(c: Scanned, p: Position, e: Entry)
    requires Progress(c, p) && e in Entries(c.prefix, c.was)
    ensures e in Handled(c, p) || e in Entries(c.prefix, p.rest)
    ensures e in Entries(c.prefix, p.rest) ==> e in Entries(c.prefix, p.keys)
  {
    EntryIn(c.prefix, c.all, e);
    EntryIn(c.prefix, p.rest, e);
    EntryIn(c.prefix, p.keys, e);
    EntryIn(c.prefix, c.all - p.rest, e);
  }

  /** A scan that reaches the first entry that is not due has passed every due entry. */
  lemma EndAt(c: Scanned, p: Position, key: Key)
    requires Progress(c, p) && IsLeast(key, p.rest) && Parse(c.prefix, key).Some?
    requires !Due(Parse(c.prefix, key).value.0, c.now, c.retention)
    ensures forall e :: e in Entries(c.prefix, c.was) && Due(e.0, c.now, c.retention) ==> e in p.calls
    ensures var at := Parse(c.prefix, key).value.0;
      IsEarliest(if at < p.retained then at else p.retained, Entries(c.prefix, p.keys))
  {
    var first := Parse(c.prefix, key).value;
    forall e | e in Entries(c.prefix, p.rest)
      ensures first.0 <= e.0
    {
      var k :| k in p.rest && Parse(c.prefix, k) == Some(e);
      assert k == key || Less(key, k);
      ParsedOrder(c.prefix, key, k);
    }
    forall e | e in Entries(c.prefix, c.was)
      ensures e in Handled(c, p) || e in Entries(c.prefix, p.rest)
    {
      RemainsKeptOrToCome(c, p, e);
    }
    EndEarly(c, p);
    assert first in Entries(c.prefix, p.rest) && first in Entries(c.prefix, c.all);
    RemainsKeptOrToCome(c, p, first);
  }

  lemma EndOfKeys(c: Scanned, p: Position)
    requires Progress(c, p) && p.rest == {}
    ensures forall e :: e in Entries(c.prefix, c.was) ==> e in p.calls
    ensures IsEarliest(p.retained, Entries(c.prefix, p.keys))
  {
    forall e | e in Entries(c.prefix, c.was)
      ensures e in Handled(c, p)
    {
      RemainsKeptOrToCome(c, p, e);
    }
    EndEarly(c, p);
  }

  lemma MalformedAtStop(c: Scanned, p: Position, from: nat, key: Key)
    requires Progress(c, p) && IsLeast(key, p.rest) && Parse(c.prefix, key).Some?
    requires c.all == set k | k in c.was && AtMost(EntryKey(c.prefix, from, []), k)
    requires !Due(Parse(c.prefix, key).value.0, c.now, c.retention)
    ensures MalformedGone(c.prefix, p.keys, from, c.now, c.retention)
  {
    assert key in p.keys;
    forall k | k in p.keys && Parse(c.prefix, k).None? && AtMost(EntryKey(c.prefix, from, []), k) ensures Less(key, k) {
      assert k in c.all && k in p.rest;
    }
  }

  lemma MalformedAtEnd(c: Scanned, p: Position, from: nat)
    requires Progress(c, p) && p.rest == {}
    requires c.all == set k | k in c.was && AtMost(EntryKey(c.prefix, from, []), k)
    ensures MalformedGone(c.prefix, p.keys, from, c.now, c.retention)
  {
    assert c.all - p.rest == c.all;
  }

  lemma {:induction false} ClearedIsSize(calls: seq<Entry>, keep: Entry -> bool)
    requires Ascending(calls)
    ensures |set e | e in calls && !keep(e)| == Cleared(calls, keep)
  {
    if calls != [] {
      var n := |calls| - 1;
      var last := calls[n];
      ClearedIsSize(calls[..n], keep);
      LessIrreflexive(last.1);
      assert last !in calls[..n];
      assert calls == calls[..n] + [last];
      assert (set e | e in calls && !keep(e)) ==
             (set e | e in calls[..n] && !keep(e)) + if keep(last) then {} else {last};
    }
  }

  /** The count that a pass returns is the number of entries that are gone. */
  lemma RemovedAreCounted(was: set<Entry>, left: set<Entry>, calls: seq<Entry>, keep: Entry -> bool)
    requires Ascending(calls) && left <= was && forall e :: e in was - left <==> e in calls && !keep(e)
    ensures |was| == |left| + Cleared(calls, keep)
  {
    ClearedIsSize(calls, keep);
    assert was - left == set e | e in calls && !keep(e);
    assert was == left + (was - left);
  }
}
