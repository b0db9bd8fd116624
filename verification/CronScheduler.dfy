/** The registry of cron schedules, which handles change, and the scheduler that follows it and
    ticks every entry. */
module CronScheduler {
  import opened Wrappers
  import Decimal
  import opened CronExpressions
  import opened Cron

  const RESERVED_HEADER_PREFIX := "cron."

  /** A reference-counted schedule. Two references are one allocation when `ptr` is equal. */
  datatype Arc = Arc(ptr: nat, schedule: Schedule)

  datatype Error =
    | DuplicateName(name: string)
    | ReservedHeader(header: string)
    | UnboundedStart(name: string)
    | Stopped

  predicate IsReserved(header: string) {
    |RESERVED_HEADER_PREFIX| <= |header| && header[..|RESERVED_HEADER_PREFIX|] == RESERVED_HEADER_PREFIX
  }

  /** A start at the lookback needs a floor at the Unix epoch. */
  predicate HasUnboundedStart(s: Schedule) {
    s.backfill.Some? && s.backfill.value.start == Lookback && LookbackFloor(0, s.backfill.value.lookback).None?
  }

  ghost predicate Acceptable(s: Schedule) {
    (forall h :: h in s.headers ==> !IsReserved(h)) && !HasUnboundedStart(s)
  }

  /** The start of an accepted schedule at its lookback has a floor at every clock reading. */
  lemma AcceptedStartHasAFloor(s: Schedule, now: int)
    requires Acceptable(s) && s.backfill.Some? && s.backfill.value.start == Lookback && 0 <= now
    ensures LookbackFloor(now, s.backfill.value.lookback).Some?
    ensures InitialAnchor(s, None, now).0 == now - s.backfill.value.lookback
  {
    assert !HasUnboundedStart(s);
  }

  method Validate(s: Schedule) returns (error: Option<Error>)
    ensures error.None? <==> Acceptable(s)
    ensures error.Some? ==> error.value.ReservedHeader? || (HasUnboundedStart(s) && error == Some(UnboundedStart(s.name)))
    ensures error.Some? && error.value.ReservedHeader? ==>
              error.value.header in s.headers && IsReserved(error.value.header)
  {
    var rest := s.headers.Keys;
    while rest != {}
      invariant rest <= s.headers.Keys
      invariant forall h :: h in s.headers && h !in rest ==> !IsReserved(h)
      decreases rest
    {
      var h :| h in rest;
      if IsReserved(h) {
        return Some(ReservedHeader(h));
      }
      rest := rest - {h};
    }
    error := if HasUnboundedStart(s) then Some(UnboundedStart(s.name)) else None;
  }

  ghost predicate UniqueNames(schedules: seq<Schedule>) {
    forall i, j :: 0 <= i < j < |schedules| ==> schedules[i].name != schedules[j].name
  }

  ghost function Schedules(entries: seq<Arc>): seq<Schedule> {
    seq(|entries|, i requires 0 <= i < |entries| => entries[i].schedule)
  }

  ghost predicate UniqueEntries(entries: seq<Arc>) {
    forall i, j :: 0 <= i < j < |entries| ==> entries[i].schedule.name != entries[j].schedule.name
  }

  ghost predicate UniqueArcs(entries: seq<Arc>) {
    forall i, j :: 0 <= i < j < |entries| ==> entries[i].ptr != entries[j].ptr
  }

  function Without(entries: seq<Arc>, name: string): seq<Arc> {
    if entries == [] then []
    else
      var last := entries[|entries| - 1];
      Without(entries[..|entries| - 1], name) + (if last.schedule.name != name then [last] else [])
  }

  lemma {:induction false} WithoutMembers(entries: seq<Arc>, name: string, e: Arc)
    ensures e in Without(entries, name) <==> e in entries && e.schedule.name != name
  {
    if entries != [] {
      var n := |entries| - 1;
      WithoutMembers(entries[..n], name, e);
      assert entries == entries[..n] + [entries[n]];
    }
  }

  ghost predicate NameIsNew(entries: seq<Arc>, name: string) {
    forall i :: 0 <= i < |entries| ==> entries[i].schedule.name != name
  }

  /** A removal leaves every entry exactly when none has the name. */
  lemma {:induction false} WithoutSize(entries: seq<Arc>, name: string)
    ensures |Without(entries, name)| <= |entries|
    ensures |Without(entries, name)| == |entries| <==> NameIsNew(entries, name)
    ensures NameIsNew(entries, name) ==> Without(entries, name) == entries
  {
    if entries != [] {
      var n := |entries| - 1;
      WithoutSize(entries[..n], name);
      assert NameIsNew(entries, name) <==> NameIsNew(entries[..n], name) && entries[n].schedule.name != name;
      assert entries == entries[..n] + [entries[n]];
    }
  }

  lemma {:induction false} WithoutKeepsUnique(entries: seq<Arc>, name: string)
    requires UniqueEntries(entries) && UniqueArcs(entries)
    ensures UniqueEntries(Without(entries, name)) && UniqueArcs(Without(entries, name))
  {
    if entries != [] {
      var n := |entries| - 1;
      WithoutKeepsUnique(entries[..n], name);
      forall e | e in Without(entries[..n], name)
        ensures e.schedule.name != entries[n].schedule.name && e.ptr != entries[n].ptr
      {
        WithoutMembers(entries[..n], name, e);
      }
    }
  }

  /** The entries with another name, in order. */
  method Keep(entries: seq<Arc>, name: string) returns (kept: seq<Arc>)
    ensures kept == Without(entries, name)
    ensures forall e :: e in kept <==> e in entries && e.schedule.name != name
  {
    kept := [];
    for i := 0 to |entries|
      invariant kept == Without(entries[..i], name)
    {
      assert entries[..i + 1][..i] == entries[..i];
      if entries[i].schedule.name != name {
        kept := kept + [entries[i]];
      }
    }
    assert entries[..|entries|] == entries;
    forall e ensures e in kept <==> e in entries && e.schedule.name != name {
      WithoutMembers(entries, name, e);
    }
  }

  class Registry {
    var entries: seq<Arc>
    var version: nat
    var stopped: bool
    /** The next allocation. */
    var nextPtr: nat

    ghost predicate Valid()
      reads this
    {
      && UniqueEntries(entries)
      && UniqueArcs(entries)
      && forall e :: e in entries ==> e.ptr < nextPtr
    }

    constructor ()
      ensures Valid() && entries == [] && version == 0 && !stopped
    {
      entries, version, stopped, nextPtr := [], 0, false, 0;
    }

    /** Registers `schedule` last. A failed call changes nothing. */
    method Register(schedule: Schedule) returns (error: Option<Error>)
      requires Valid()
      modifies this
      ensures Valid() && stopped == old(stopped)
      ensures error.None? <==>
              Acceptable(schedule) && !old(stopped) && forall e :: e in old(entries) ==> e.schedule.name != schedule.name
      ensures error.Some? ==> entries == old(entries) && version == old(version) && nextPtr == old(nextPtr)
      ensures Acceptable(schedule) && old(stopped) ==> error == Some(Stopped)
      ensures Acceptable(schedule) && !old(stopped) && error.Some? ==> error == Some(DuplicateName(schedule.name))
      ensures !Acceptable(schedule) && !HasUnboundedStart(schedule) ==> error.Some? && error.value.ReservedHeader?
      ensures (forall h :: h in schedule.headers ==> !IsReserved(h)) && HasUnboundedStart(schedule) ==>
              error == Some(UnboundedStart(schedule.name))
      ensures error.None? ==>
              && entries == old(entries) + [Arc(old(nextPtr), schedule)]
              && version == old(version) + 1 && nextPtr == old(nextPtr) + 1
    {
      error := Validate(schedule);
      if error.Some? {
        return;
      }
      if stopped {
        return Some(Stopped);
      }
      for i := 0 to |entries|
        invariant entries == old(entries)
        invariant forall j :: 0 <= j < i ==> entries[j].schedule.name != schedule.name
      {
        if entries[i].schedule.name == schedule.name {
          return Some(DuplicateName(schedule.name));
        }
      }
      version := version + 1;
      entries := entries + [Arc(nextPtr, schedule)];
      nextPtr := nextPtr + 1;
    }

    /** The end of the scheduler, after which no call registers. */
    method Stop()
      modifies this
      ensures stopped && entries == old(entries) && version == old(version) && nextPtr == old(nextPtr)
    {
      stopped := true;
    }

    /** Removes the schedule `name` and returns whether it was registered. */
    method Unschedule(name: string) returns (removed: bool)
      requires Valid()
      modifies this
      ensures Valid() && stopped == old(stopped) && nextPtr == old(nextPtr)
      ensures removed <==> exists e :: e in old(entries) && e.schedule.name == name
      ensures forall e :: e in entries <==> e in old(entries) && e.schedule.name != name
      ensures if removed then version == old(version) + 1 else entries == old(entries) && version == old(version)
    {
      var kept := Keep(entries, name);
      WithoutSize(entries, name);
      WithoutKeepsUnique(entries, name);
      removed := |kept| < |entries|;
      entries := kept;
      if removed {
        version := version + 1;
      }
    }

    /** Replaces all schedules at once, or fails and changes none. The result is whether the set
        changed. A schedule that was registered keeps its allocation. */
    method ReplaceAll(schedules: seq<Schedule>) returns (result: Result<bool, Error>)
      requires Valid()
      modifies this
      ensures Valid() && stopped == old(stopped) && old(nextPtr) <= nextPtr
      ensures result.Ok? <==>
              && (forall s :: s in schedules ==> Acceptable(s)) && UniqueNames(schedules) && !old(stopped)
      ensures result.Err? || result == Ok(false) ==> entries == old(entries) && version == old(version)
      ensures result.Ok? ==>
              (result.value <==> (set s | s in schedules) != (set e | e in old(entries) :: e.schedule))
      ensures result == Ok(true) ==>
              && version == old(version) + 1
              && Schedules(entries) == schedules
              && forall e :: e in entries ==> e in old(entries) || old(nextPtr) <= e.ptr
      ensures result == Ok(true) ==>
              forall e :: e in old(entries) && e.schedule in schedules ==> e in entries
    {
      for i := 0 to |schedules|
        invariant entries == old(entries) && version == old(version) && nextPtr == old(nextPtr) && stopped == old(stopped)
        invariant forall j :: 0 <= j < i ==> Acceptable(schedules[j])
        invariant UniqueNames(schedules[..i])
      {
        var error := Validate(schedules[i]);
        if error.Some? {
          assert schedules[i] in schedules;
          return Err(error.value);
        }
        for j := 0 to i
          invariant forall k :: 0 <= k < j ==> schedules[k].name != schedules[i].name
        {
          if schedules[j].name == schedules[i].name {
            return Err(DuplicateName(schedules[i].name));
          }
        }
      }
      assert schedules[..|schedules|] == schedules;
      if stopped {
        return Err(Stopped);
      }
      result := Replace(schedules);
    }

    /** The replacement by accepted schedules with unique names. */
    method Replace(schedules: seq<Schedule>) returns (result: Result<bool, Error>)
      requires Valid() && UniqueNames(schedules)
      modifies this
      ensures Valid() && stopped == old(stopped) && old(nextPtr) <= nextPtr && result.Ok?
      ensures result == Ok(false) ==> entries == old(entries) && version == old(version)
      ensures result.value <==> (set s | s in schedules) != (set e | e in old(entries) :: e.schedule)
      ensures result.value ==>
              && version == old(version) + 1
              && Schedules(entries) == schedules
              && forall e :: e in entries ==> e in old(entries) || old(nextPtr) <= e.ptr
      ensures result.value ==> forall e :: e in old(entries) && e.schedule in schedules ==> e in entries
    {
      var replaced, kept, ptr := Match(schedules);
      assert Schedules(replaced) == schedules;
      EqualCounts(schedules, entries);
      if kept == |replaced| && kept == |entries| {
        return Ok(false);
      }
      forall e | e in entries && e.schedule in schedules ensures e in replaced {
        var j :| 0 <= j < |schedules| && schedules[j] == e.schedule;
        SameNameSameArc(entries, replaced[j], e);
      }
      nextPtr := ptr;
      version := version + 1;
      entries := replaced;
      result := Ok(true);
    }

    /** An entry for each schedule: the registered one when the schedule is registered, otherwise a
        new allocation. `kept` counts the registered ones. */
    method Match(schedules: seq<Schedule>) returns (replaced: seq<Arc>, kept: nat, ptr: nat)
      requires Valid() && UniqueNames(schedules)
      ensures |replaced| == |schedules| && nextPtr <= ptr && UniqueArcs(replaced)
      ensures forall j :: 0 <= j < |replaced| ==> replaced[j].schedule == schedules[j] && replaced[j].ptr < ptr
      ensures forall j :: 0 <= j < |replaced| ==> replaced[j] in entries || nextPtr <= replaced[j].ptr
      ensures forall j :: 0 <= j < |replaced| ==>
                (replaced[j] in entries <==> exists e :: e in entries && e.schedule == schedules[j])
      ensures kept <= |replaced| && (kept == |replaced| <==> forall j :: 0 <= j < |replaced| ==> replaced[j] in entries)
    {
      kept, replaced, ptr := 0, [], nextPtr;
      for i := 0 to |schedules|
        invariant |replaced| == i && nextPtr <= ptr
        invariant forall j :: 0 <= j < i ==> replaced[j].schedule == schedules[j] && replaced[j].ptr < ptr
        invariant forall j :: 0 <= j < i ==> replaced[j] in entries || nextPtr <= replaced[j].ptr
        invariant forall j :: 0 <= j < i ==>
                    (replaced[j] in entries <==> exists e :: e in entries && e.schedule == schedules[j])
        invariant UniqueArcs(replaced)
        invariant 0 <= kept <= i && (kept == i <==> forall j :: 0 <= j < i ==> replaced[j] in entries)
      {
        var found := Find(schedules[i]);
        if found.Some? {
          kept := kept + 1;
          SharedArc(entries, replaced, schedules, found.value, i);
          replaced := replaced + [found.value];
        } else {
          replaced := replaced + [Arc(ptr, schedules[i])];
          ptr := ptr + 1;
        }
      }
    }

    /** The entry equal to `schedule`. */
    method Find(schedule: Schedule) returns (found: Option<Arc>)
      ensures found.Some? ==> found.value in entries && found.value.schedule == schedule
      ensures found.None? ==> forall e :: e in entries ==> e.schedule != schedule
    {
      for i := 0 to |entries|
        invariant forall j :: 0 <= j < i ==> entries[j].schedule != schedule
      {
        if entries[i].schedule == schedule {
          return Some(entries[i]);
        }
      }
      found := None;
    }
  }

  lemma SameNameSameArc(entries: seq<Arc>, a: Arc, b: Arc)
    requires UniqueEntries(entries) && a in entries && b in entries && a.schedule.name == b.schedule.name
    ensures a == b
  {
    var i :| 0 <= i < |entries| && entries[i] == a;
    var j :| 0 <= j < |entries| && entries[j] == b;
  }

  lemma SamePtrSameArc(entries: seq<Arc>, a: Arc, b: Arc)
    requires UniqueArcs(entries) && a in entries && b in entries && a.ptr == b.ptr
    ensures a == b
  {
    var i :| 0 <= i < |entries| && entries[i] == a;
    var j :| 0 <= j < |entries| && entries[j] == b;
  }

  /** An entry found for a later schedule is not shared with an earlier one. */
  lemma SharedArc(entries: seq<Arc>, replaced: seq<Arc>, schedules: seq<Schedule>, found: Arc, i: nat)
    requires UniqueNames(schedules) && |replaced| == i < |schedules| && UniqueArcs(entries)
    requires found in entries && found.schedule == schedules[i]
    requires forall j :: 0 <= j < i ==> replaced[j].schedule == schedules[j]
    requires forall j :: 0 <= j < i ==> replaced[j] in entries || forall e :: e in entries ==> e.ptr < replaced[j].ptr
    ensures forall j :: 0 <= j < i ==> replaced[j].ptr != found.ptr
  {
    forall j | 0 <= j < i ensures replaced[j].ptr != found.ptr {
      if replaced[j] in entries {
        var a :| 0 <= a < |entries| && entries[a] == replaced[j];
        var b :| 0 <= b < |entries| && entries[b] == found;
        assert schedules[j].name != schedules[i].name;
      }
    }
  }

  /** Distinct names make each side a set of as many schedules as it has entries, so the sets are
      equal when every schedule is registered and the sizes agree. */
  lemma EqualCounts(schedules: seq<Schedule>, entries: seq<Arc>)
    requires UniqueNames(schedules) && UniqueEntries(entries)
    ensures (set s | s in schedules) == (set e | e in entries :: e.schedule) <==>
            && |schedules| == |entries|
            && forall j :: 0 <= j < |schedules| ==> exists e :: e in entries && e.schedule == schedules[j]
  {
    var a := set s | s in schedules;
    var b := set e | e in entries :: e.schedule;
    UniqueSize(schedules);
    UniqueSize(Schedules(entries));
    assert b == set s | s in Schedules(entries) by {
      forall e | e in entries ensures e.schedule in Schedules(entries) {
        var i :| 0 <= i < |entries| && entries[i] == e;
        assert Schedules(entries)[i] == e.schedule;
      }
    }
    if a == b {
      forall j | 0 <= j < |schedules| ensures exists e :: e in entries && e.schedule == schedules[j] {
        assert schedules[j] in a;
      }
    } else if |schedules| == |entries| && forall j :: 0 <= j < |schedules| ==> exists e :: e in entries && e.schedule == schedules[j] {
      assert a <= b;
      ProperSubsetSize(a, b);
    }
  }

  lemma ProperSubsetSize(a: set<Schedule>, b: set<Schedule>)
    requires a <= b && a != b
    ensures |a| < |b|
  {
    assert b == a + (b - a);
  }

  lemma {:induction false} UniqueSize(schedules: seq<Schedule>)
    requires UniqueNames(schedules)
    ensures |set s | s in schedules| == |schedules|
  {
    if schedules != [] {
      var n := |schedules| - 1;
      UniqueSize(schedules[..n]);
      assert schedules == schedules[..n] + [schedules[n]];
      assert (set s | s in schedules) == (set s | s in schedules[..n]) + {schedules[n]};
    }
  }

  // ---- The scheduler ----

  /** An entry that the scheduler follows, with its next firing and the history of its search. */
  datatype ActiveEntry = ActiveEntry(entry: Arc, next: Option<int>, floor: Option<int>)

  function SlotOf(store: map<string, Slot>, name: string): Slot {
    if name in store then store[name] else Slot(None, {}, [])
  }

  function LifeOf(a: ActiveEntry, store: map<string, Slot>): Life {
    Life(a.entry.schedule, a.next, a.floor, SlotOf(store, a.entry.schedule.name))
  }

  /** Every active entry has its own allocation and its own name. */
  ghost predicate Distinct(active: seq<ActiveEntry>) {
    forall i, j :: 0 <= i < j < |active| ==>
      active[i].entry.ptr != active[j].entry.ptr && active[i].entry.schedule.name != active[j].entry.schedule.name
  }

  ghost function Arcs(active: seq<ActiveEntry>): set<Arc> {
    set a | a in active :: a.entry
  }

  /** `now` follows `entries`: an entry that was active is kept as it was, and another starts
      without a next firing. */
  ghost predicate Follows(before: seq<ActiveEntry>, now: seq<ActiveEntry>, entries: seq<Arc>) {
    && Distinct(now)
    && Arcs(now) == (set e | e in entries)
    && (forall a :: a in before && a.entry in entries ==> a in now)
    && (forall a :: a in now && a !in before ==> a.next.None? && a.floor.None?)
  }

  class Scheduler {
    const registry: Registry
    var active: seq<ActiveEntry>
    var synced: nat
    /** The stored state of the queue by schedule name. */
    var store: map<string, Slot>

    /** The active entries are those of the registry at the version last synced. */
    ghost predicate Valid()
      reads this, registry
    {
      && registry.Valid()
      && synced <= registry.version
      && (forall a :: a in active ==> a.entry.ptr < registry.nextPtr)
      && (forall a, e :: a in active && e in registry.entries && a.entry.ptr == e.ptr ==> a.entry == e)
      && Distinct(active)
      && (synced == registry.version ==> Arcs(active) == set e | e in registry.entries)
    }

    constructor (registry: Registry, store: map<string, Slot>)
      requires registry.Valid() && registry.version == 0 && registry.entries == []
      ensures Valid() && this.registry == registry && this.store == store && active == []
    {
      this.registry, this.store, active, synced := registry, store, [], 0;
    }

    /** The calls of a handle: the scheduler stays in line with the registry it last synced. */
    method Schedule(schedule: Schedule) returns (error: Option<Error>)
      requires Valid()
      modifies registry
      ensures Valid()
      ensures error.None? <==>
              && Acceptable(schedule) && !old(registry.stopped)
              && forall e :: e in old(registry.entries) ==> e.schedule.name != schedule.name
      ensures error.Some? ==> registry.entries == old(registry.entries)
    {
      error := registry.Register(schedule);
    }

    method Unschedule(name: string) returns (removed: bool)
      requires Valid()
      modifies registry
      ensures Valid()
      ensures forall e :: e in registry.entries <==> e in old(registry.entries) && e.schedule.name != name
    {
      removed := registry.Unschedule(name);
    }

    method ReplaceAll(schedules: seq<Schedule>) returns (result: Result<bool, Error>)
      requires Valid()
      modifies registry
      ensures Valid()
      ensures result != Ok(true) ==> registry.entries == old(registry.entries)
      ensures result == Ok(true) ==> Schedules(registry.entries) == schedules
    {
      result := registry.ReplaceAll(schedules);
    }

    method Sync()
      requires Valid()
      modifies this
      ensures Valid() && synced == registry.version && store == old(store)
      ensures Follows(old(active), active, registry.entries)
      ensures old(synced) == registry.version ==> active == old(active)
    {
      if registry.version == synced {
        return;
      }
      synced := registry.version;
      var kept := Retain(active, registry.entries);
      active := Extend(kept, registry.entries);
      forall a | a in active ensures a.entry in registry.entries {
        assert a.entry in Arcs(active);
      }
      forall a, e | a in active && e in registry.entries && a.entry.ptr == e.ptr ensures a.entry == e {
        SamePtrSameArc(registry.entries, a.entry, e);
      }
    }

    /** The active entries that are still registered. */
    static method Retain(active: seq<ActiveEntry>, entries: seq<Arc>) returns (kept: seq<ActiveEntry>)
      requires Distinct(active)
      requires forall a, e :: a in active && e in entries && a.entry.ptr == e.ptr ==> a.entry == e
      ensures Distinct(kept)
      ensures forall a :: a in kept <==> a in active && a.entry in entries
    {
      kept := [];
      for i := 0 to |active|
        invariant forall a :: a in kept <==> a in active[..i] && a.entry in entries
        invariant Distinct(kept)
      {
        var a := active[i];
        assert active[..i + 1] == active[..i] + [a];
        var registered := Contains(entries, a.entry.ptr);
        if registered {
          kept := kept + [a];
        }
      }
      assert active[..|active|] == active;
    }

    /** The entries that are not active are added without a next firing. */
    static method Extend(kept: seq<ActiveEntry>, entries: seq<Arc>) returns (active: seq<ActiveEntry>)
      requires Distinct(kept) && UniqueEntries(entries) && UniqueArcs(entries)
      requires forall a :: a in kept ==> a.entry in entries
      ensures Distinct(active) && Arcs(active) == (set e | e in entries)
      ensures forall a :: a in kept ==> a in active
      ensures forall a :: a in active && a !in kept ==> a.next.None? && a.floor.None?
    {
      active := kept;
      for i := 0 to |entries|
        invariant forall a :: a in kept ==> a in active
        invariant forall a :: a in active ==> a.entry in entries
        invariant forall a :: a in active && a !in kept ==> a.next.None? && a.floor.None?
        invariant forall e :: e in entries[..i] ==> e in Arcs(active)
        invariant Distinct(active)
      {
        var e := entries[i];
        assert entries[..i + 1] == entries[..i] + [e];
        var followed := IsActive(active, e.ptr);
        if followed {
          ghost var a :| a in active && a.entry.ptr == e.ptr;
          SamePtrSameArc(entries, a.entry, e);
        } else {
          forall a | a in active ensures a.entry.schedule.name != e.schedule.name {
            if a.entry.schedule.name == e.schedule.name {
              SameNameSameArc(entries, a.entry, e);
            }
          }
          ghost var before := active;
          active := active + [ActiveEntry(e, None, None)];
          assert Arcs(active) == Arcs(before) + {e};
        }
      }
      assert entries[..|entries|] == entries;
    }

    static method Contains(entries: seq<Arc>, ptr: nat) returns (found: bool)
      ensures found <==> exists e :: e in entries && e.ptr == ptr
    {
      for i := 0 to |entries|
        invariant forall j :: 0 <= j < i ==> entries[j].ptr != ptr
      {
        if entries[i].ptr == ptr {
          return true;
        }
      }
      found := false;
    }

    static method IsActive(active: seq<ActiveEntry>, ptr: nat) returns (found: bool)
      ensures found <==> exists a :: a in active && a.entry.ptr == ptr
    {
      for i := 0 to |active|
        invariant forall j :: 0 <= j < i ==> active[j].entry.ptr != ptr
      {
        if active[i].entry.ptr == ptr {
          return true;
        }
      }
      found := false;
    }

    /** Enqueues the firing of the entry at `at` and returns whether the calls succeeded. */
    method FireEntry(schedule: Schedule, at: int, floor: Option<int>, faults: Faults) returns (fired: bool)
      modifies this`store
      ensures var (slot, ok) := Fire(schedule, SlotOf(old(store), schedule.name), at, floor, faults);
        fired == ok && store == old(store)[schedule.name := slot]
    {
      var slot := SlotOf(store, schedule.name);
      store := store[schedule.name := slot];
      if faults.enqueueFails {
        return false;
      }
      var mark := Some(Decimal.SignedText(at));
      if (schedule.queue, at) in slot.dedup {
        // The enqueue is a dedup hit, which writes nothing.
        if schedule.backfill.Some? {
          if faults.putFails {
            return false;
          }
          store := store[schedule.name := slot.(watermark := mark)];
        }
        return true;
      }
      var job := Firing(at, PreviousTimeBefore(schedule.expression, at), schedule.expression, floor);
      slot := slot.(dedup := slot.dedup + {(schedule.queue, at)}, jobs := slot.jobs + [job]);
      if schedule.backfill.Some? {
        slot := slot.(watermark := mark);
      }
      store := store[schedule.name := slot];
      fired := true;
    }

    /** One tick of the entry `i`. */
    method TickEntry(i: nat, now: int, faults: Faults) returns (wake: Option<int>)
      requires i < |active|
      modifies this`active, this`store
      ensures |active| == |old(active)| && active[i].entry == old(active)[i].entry
      ensures forall j :: 0 <= j < |active| && j != i ==> active[j] == old(active)[j]
      ensures forall name :: name != active[i].entry.schedule.name ==> SlotOf(store, name) == SlotOf(old(store), name)
      ensures Tick(LifeOf(old(active)[i], old(store)), now, faults) == (LifeOf(active[i], store), wake)
    {
      var schedule := active[i].entry.schedule;
      if active[i].next.None? {
        if schedule.backfill.Some? && faults.readFails {
          return Some(now + ENQUEUE_RETRY_DELAY);
        }
        var (anchor, floor) := InitialAnchor(schedule, SlotOf(store, schedule.name).watermark, now);
        active := active[i := active[i].(next := NextTimeAfter(schedule.expression, anchor), floor := floor)];
      }
      if active[i].next.Some? && active[i].next.value <= now {
        var at := active[i].next.value;
        var fired := FireEntry(schedule, at, active[i].floor, faults);
        if !fired && schedule.backfill.Some? {
          return Some(now + ENQUEUE_RETRY_DELAY);
        }
        var anchor := if fired && schedule.backfill.Some? then at else now;
        active := active[i := active[i].(next := NextTimeAfter(schedule.expression, anchor), floor := None)];
      }
      wake := active[i].next;
    }

    /** One scheduling tick: every entry ticks once, and `soonest` is the earliest instant at
        which one needs attention. `from` are the entries after the sync, and `ticked` the
        outcome of each. */
    method Step(now: int, faults: nat -> Faults)
      returns (soonest: Option<int>, ghost from: seq<ActiveEntry>, ghost ticked: seq<(Life, Option<int>)>)
      requires Valid()
      modifies this
      ensures Valid() && synced == registry.version
      ensures Follows(old(active), from, registry.entries)
      ensures old(synced) == registry.version ==> from == old(active)
      ensures |ticked| == |from| && Outcome(from, active, store, ticked)
      ensures forall i :: 0 <= i < |from| ==> ticked[i] == Tick(LifeOf(from[i], old(store)), now, faults(i))
      ensures IsEarliest(soonest, ticked)
    {
      Sync();
      from := active;
      soonest, ticked := TickAll(now, faults);
      SameArcs(from, active);
    }

    /** Ticks every active entry once. The names are distinct, so no tick reads what another
        writes. */
    method TickAll(now: int, faults: nat -> Faults) returns (soonest: Option<int>, ghost ticked: seq<(Life, Option<int>)>)
      requires Distinct(active)
      modifies this`active, this`store
      ensures |ticked| == |old(active)| && Outcome(old(active), active, store, ticked)
      ensures forall i :: 0 <= i < |ticked| ==> ticked[i] == Tick(LifeOf(old(active)[i], old(store)), now, faults(i))
      ensures IsEarliest(soonest, ticked)
    {
      soonest, ticked := None, [];
      ghost var from := active;
      for i := 0 to |active|
        invariant |active| == |from| && |ticked| == i
        invariant forall j :: 0 <= j < |from| ==> active[j].entry == from[j].entry
        invariant forall j :: 0 <= j < i ==> ticked[j] == Tick(LifeOf(from[j], old(store)), now, faults(j))
        invariant forall j :: 0 <= j < i ==> LifeOf(active[j], store) == ticked[j].0
        invariant forall j :: i <= j < |from| ==>
                    active[j] == from[j] && SlotOf(store, from[j].entry.schedule.name) == SlotOf(old(store), from[j].entry.schedule.name)
        invariant IsEarliest(soonest, ticked)
      {
        var wake := TickEntry(i, now, faults(i));
        EarliestOfMore(soonest, ticked, (LifeOf(active[i], store), wake));
        ticked := ticked + [(LifeOf(active[i], store), wake)];
        if wake.Some? && (soonest.None? || wake.value < soonest.value) {
          soonest := wake;
        }
      }
    }

    /** A step without a failed call, from the entries after its sync: the due firings that remain
        are fewer, or none is left. */
    method HealthyStep(now: int) returns (soonest: Option<int>, ghost from: seq<ActiveEntry>)
      requires Valid() && Ready(active, registry.entries, store)
      modifies this
      ensures Valid() && synced == registry.version && AllTickable(active, store)
      ensures Follows(old(active), from, registry.entries)
      ensures old(synced) == registry.version ==> from == old(active)
      ensures Conserved(from, old(store), active, store, now)
      ensures if soonest.Some? && soonest.value <= now then Total(active, store, now) < Total(from, old(store), now)
              else forall i :: 0 <= i < |active| ==> Remaining(LifeOf(active[i], store), now) == []
    {
      ghost var ticked;
      soonest, from, ticked := Step(now, _ => NO_FAULTS);
      FollowedAreTickable(old(active), from, registry.entries, old(store));
      TickedMakesProgress(from, old(store), active, store, ticked, now);
      ProgressConserves(from, old(store), active, store, ticked, now);
      StepMakesProgress(from, old(store), active, store, ticked, now, soonest);
    }

    /** Repeats the step at one clock reading, without failed calls, while a firing is due. `from` are the entries of the registry. Under backfill the
        firings enqueued are then exactly those that were due, in order. */
    method StepTo(now: int) returns (soonest: Option<int>, ghost from: seq<ActiveEntry>)
      requires Valid() && Ready(active, registry.entries, store)
      modifies this
      ensures Valid() && Follows(old(active), from, registry.entries) && |active| == |from|
      ensures forall i :: 0 <= i < |active| ==> active[i].entry == from[i].entry
      ensures forall i :: 0 <= i < |active| ==> Remaining(LifeOf(active[i], store), now) == []
      ensures forall i :: 0 <= i < |active| && active[i].entry.schedule.backfill.Some? ==>
                FiringTimes(LifeOf(active[i], store).slot.jobs) == Account(LifeOf(from[i], old(store)), now)
      ensures soonest.Some? ==> now < soonest.value
    {
      Sync();
      from := active;
      FollowedAreTickable(old(active), from, registry.entries, store);
      soonest := Drain(now);
    }

    /** The loop of `StepTo`, after the sync. */
    method Drain(now: int) returns (soonest: Option<int>)
      requires Valid() && synced == registry.version && AllTickable(active, store)
      modifies this
      ensures Valid() && |active| == |old(active)|
      ensures forall i :: 0 <= i < |active| ==> active[i].entry == old(active)[i].entry
      ensures forall i :: 0 <= i < |active| ==> Remaining(LifeOf(active[i], store), now) == []
      ensures forall i :: 0 <= i < |active| && active[i].entry.schedule.backfill.Some? ==>
                FiringTimes(LifeOf(active[i], store).slot.jobs) == Account(LifeOf(old(active)[i], old(store)), now)
      ensures soonest.Some? ==> now < soonest.value
    {
      while true
        invariant Valid() && synced == registry.version && AllTickable(active, store)
        invariant Conserved(old(active), old(store), active, store, now)
        decreases Total(active, store, now)
      {
        ghost var before, stored := active, store;
        SyncedIsReady(active, registry.entries, store);
        ghost var from;
        soonest, from := HealthyStep(now);
        ConservedTransitive(old(active), old(store), before, stored, active, store, now);
        if soonest.None? || now < soonest.value {
          ConservedAtRest(old(active), old(store), active, store, now);
          return;
        }
      }
    }
  }

  /** The active entries can tick, and so can an entry that the next sync adds. */
  ghost predicate Ready(active: seq<ActiveEntry>, entries: seq<Arc>, store: map<string, Slot>) {
    && AllTickable(active, store)
    && forall e :: e in entries && e !in Arcs(active) ==> Tickable(LifeOf(ActiveEntry(e, None, None), store))
  }

  lemma FollowedAreTickable(active: seq<ActiveEntry>, from: seq<ActiveEntry>, entries: seq<Arc>, store: map<string, Slot>)
    requires Ready(active, entries, store) && Follows(active, from, entries)
    ensures AllTickable(from, store)
  {
    forall i | 0 <= i < |from| ensures Tickable(LifeOf(from[i], store)) {
      var a := from[i];
      assert a.entry in Arcs(from);
      forall b | b in active && b.entry == a.entry ensures b == a {
        assert b in from;
      }
    }
  }

  lemma SyncedIsReady(active: seq<ActiveEntry>, entries: seq<Arc>, store: map<string, Slot>)
    requires AllTickable(active, store) && Arcs(active) == set e | e in entries
    ensures Ready(active, entries, store)
  {
  }

  /** The entries after their ticks. */
  ghost predicate Outcome(from: seq<ActiveEntry>, active: seq<ActiveEntry>, store: map<string, Slot>,
                          ticked: seq<(Life, Option<int>)>)
    requires |ticked| == |from|
  {
    && |active| == |from|
    && forall i :: 0 <= i < |from| ==> active[i].entry == from[i].entry && LifeOf(active[i], store) == ticked[i].0
  }

  ghost predicate IsEarliest(soonest: Option<int>, ticked: seq<(Life, Option<int>)>) {
    && (forall i :: 0 <= i < |ticked| && ticked[i].1.Some? ==> soonest.Some? && soonest.value <= ticked[i].1.value)
    && (soonest.Some? ==> exists i :: 0 <= i < |ticked| && ticked[i].1 == soonest)
  }

  lemma EarliestOfMore(soonest: Option<int>, ticked: seq<(Life, Option<int>)>, one: (Life, Option<int>))
    requires IsEarliest(soonest, ticked)
    ensures IsEarliest(if one.1.Some? && (soonest.None? || one.1.value < soonest.value) then one.1 else soonest, ticked + [one])
  {
    if one.1.Some? && (soonest.None? || one.1.value < soonest.value) {
      assert (ticked + [one])[|ticked|] == one;
    } else if soonest.Some? {
      var i :| 0 <= i < |ticked| && ticked[i].1 == soonest;
      assert (ticked + [one])[i] == ticked[i];
    }
  }

  ghost predicate AllTickable(active: seq<ActiveEntry>, store: map<string, Slot>) {
    forall i :: 0 <= i < |active| ==> Tickable(LifeOf(active[i], store))
  }

  /** The firings of every entry under backfill are accounted for. */
  ghost predicate Conserved(a: seq<ActiveEntry>, sa: map<string, Slot>, b: seq<ActiveEntry>, sb: map<string, Slot>, now: int) {
    && |a| == |b|
    && forall i :: 0 <= i < |a| ==>
         && a[i].entry == b[i].entry
         && (a[i].entry.schedule.backfill.Some? ==> Account(LifeOf(a[i], sa), now) == Account(LifeOf(b[i], sb), now))
  }

  lemma ConservedTransitive(a: seq<ActiveEntry>, sa: map<string, Slot>, b: seq<ActiveEntry>, sb: map<string, Slot>,
                            c: seq<ActiveEntry>, sc: map<string, Slot>, now: int)
    requires Conserved(a, sa, b, sb, now) && Conserved(b, sb, c, sc, now)
    ensures Conserved(a, sa, c, sc, now)
  {
  }

  ghost function Sum(counts: seq<nat>): nat {
    if counts == [] then 0 else Sum(counts[..|counts| - 1]) + counts[|counts| - 1]
  }

  ghost function Counts(active: seq<ActiveEntry>, store: map<string, Slot>, now: int): seq<nat> {
    seq(|active|, i requires 0 <= i < |active| => |Remaining(LifeOf(active[i], store), now)|)
  }

  /** The due firings that remain, over all entries. */
  ghost function Total(active: seq<ActiveEntry>, store: map<string, Slot>, now: int): nat {
    Sum(Counts(active, store, now))
  }

  lemma {:induction false} SumDecreases(a: seq<nat>, b: seq<nat>, k: nat)
    requires |a| == |b| && forall i :: 0 <= i < |a| ==> b[i] <= a[i]
    ensures Sum(b) <= Sum(a)
    ensures k < |a| && b[k] < a[k] ==> Sum(b) < Sum(a)
  {
    if a != [] {
      SumDecreases(a[..|a| - 1], b[..|a| - 1], k);
    }
  }

  ghost predicate AllProgress(a: seq<ActiveEntry>, sa: map<string, Slot>, b: seq<ActiveEntry>, sb: map<string, Slot>,
                              ticked: seq<(Life, Option<int>)>, now: int)
  {
    && |a| == |b| == |ticked|
    && forall i :: 0 <= i < |a| ==>
         a[i].entry == b[i].entry && Progress(LifeOf(a[i], sa), LifeOf(b[i], sb), ticked[i].1, now)
  }

  lemma TickedMakesProgress(a: seq<ActiveEntry>, sa: map<string, Slot>, b: seq<ActiveEntry>, sb: map<string, Slot>,
                            ticked: seq<(Life, Option<int>)>, now: int)
    requires |ticked| == |a| && Outcome(a, b, sb, ticked) && AllTickable(a, sa)
    requires forall i :: 0 <= i < |a| ==> ticked[i] == Tick(LifeOf(a[i], sa), now, NO_FAULTS)
    ensures AllProgress(a, sa, b, sb, ticked, now)
  {
    forall i | 0 <= i < |a| ensures Progress(LifeOf(a[i], sa), LifeOf(b[i], sb), ticked[i].1, now) {
      TickMakesProgress(LifeOf(a[i], sa), now);
    }
  }

  lemma ProgressConserves(a: seq<ActiveEntry>, sa: map<string, Slot>, b: seq<ActiveEntry>, sb: map<string, Slot>,
                          ticked: seq<(Life, Option<int>)>, now: int)
    requires AllProgress(a, sa, b, sb, ticked, now)
    ensures AllTickable(b, sb) && Conserved(a, sa, b, sb, now)
  {
  }

  lemma ProgressCounts(a: seq<ActiveEntry>, sa: map<string, Slot>, b: seq<ActiveEntry>, sb: map<string, Slot>,
                       ticked: seq<(Life, Option<int>)>, now: int, i: nat)
    requires AllProgress(a, sa, b, sb, ticked, now) && i < |ticked|
    ensures Counts(b, sb, now)[i] <= Counts(a, sa, now)[i]
    ensures ticked[i].1.Some? && ticked[i].1.value <= now ==> Counts(b, sb, now)[i] < Counts(a, sa, now)[i]
    ensures ticked[i].1.None? || now < ticked[i].1.value ==> Remaining(LifeOf(b[i], sb), now) == []
  {
    assert Progress(LifeOf(a[i], sa), LifeOf(b[i], sb), ticked[i].1, now);
  }

  /** While the soonest instant is due the count of remaining firings falls, and afterwards no
      firing remains. */
  lemma StepMakesProgress(a: seq<ActiveEntry>, sa: map<string, Slot>, b: seq<ActiveEntry>, sb: map<string, Slot>,
                          ticked: seq<(Life, Option<int>)>, now: int, soonest: Option<int>)
    requires AllProgress(a, sa, b, sb, ticked, now) && IsEarliest(soonest, ticked)
    ensures if soonest.Some? && soonest.value <= now then Total(b, sb, now) < Total(a, sa, now)
            else forall i :: 0 <= i < |b| ==> Remaining(LifeOf(b[i], sb), now) == []
  {
    if soonest.Some? && soonest.value <= now {
      forall j | 0 <= j < |a| ensures Counts(b, sb, now)[j] <= Counts(a, sa, now)[j] {
        ProgressCounts(a, sa, b, sb, ticked, now, j);
      }
      var i :| 0 <= i < |ticked| && ticked[i].1 == soonest;
      ProgressCounts(a, sa, b, sb, ticked, now, i);
      SumDecreases(Counts(a, sa, now), Counts(b, sb, now), i);
    } else {
      forall i | 0 <= i < |b| ensures Remaining(LifeOf(b[i], sb), now) == [] {
        ProgressCounts(a, sa, b, sb, ticked, now, i);
      }
    }
  }

  lemma ConservedAtRest(a: seq<ActiveEntry>, sa: map<string, Slot>, b: seq<ActiveEntry>, sb: map<string, Slot>, now: int)
    requires Conserved(a, sa, b, sb, now)
    requires forall i :: 0 <= i < |b| ==> Remaining(LifeOf(b[i], sb), now) == []
    ensures forall i :: 0 <= i < |b| && b[i].entry.schedule.backfill.Some? ==>
              FiringTimes(LifeOf(b[i], sb).slot.jobs) == Account(LifeOf(a[i], sa), now)
  {
  }

  lemma SameArcs(a: seq<ActiveEntry>, b: seq<ActiveEntry>)
    requires |a| == |b| && forall i :: 0 <= i < |a| ==> a[i].entry == b[i].entry
    ensures Arcs(a) == Arcs(b)
    ensures Distinct(a) ==> Distinct(b)
  {
    forall x | x in a ensures x.entry in Arcs(b) {
      var i :| 0 <= i < |a| && a[i] == x;
      assert b[i] in b;
    }
    forall x | x in b ensures x.entry in Arcs(a) {
      var i :| 0 <= i < |b| && b[i] == x;
      assert a[i] in a;
    }
  }
}
