/** Passes of an expiry index beside commits of entries, other passes and restarts. Each step is
    one atomic access of the bound, one commit or one page read. */
module ExpiryProtocol {
  import opened Wrappers
  import opened Bytes
  import opened ExpiryKeys
  import opened Expiry

  /** How far into the order of the entries a scan has read. */
  datatype Edge = Start | At(entry: Entry) | End

  ghost predicate Within(e: Entry, edge: Edge) {
    match edge
    case Start => false
    case At(last) => e == last || Before(e, last)
    case End => true
  }

  /** A scan in flight: the page is the entries read and not handled. The last four fields record
      what the scan owes and does: the live and recorded entries from its start, the entries
      removed in order, the entries kept, and the entries that others removed. */
  datatype Scan = Scan(
    from: nat, now: nat, retention: nat,
    retained: nat,
    loaded: Edge,
    page: set<Entry>,
    stopped: bool,
    owed: set<Entry>,
    removed: seq<Entry>,
    kept: set<Entry>,
    gone: set<Entry>)

  /** `noted` are the live entries whose writer has lowered the bound after the commit. */
  datatype State = State(bound: nat, live: set<Entry>, noted: set<Entry>, scans: map<nat, Scan>)

  datatype Event =
    | Commit(entry: Entry)
    | Note(entry: Entry)
    | Withdraw(entry: Entry)
    | Begin(id: nat, now: nat, retention: nat)
    | Load(id: nat, to: Edge)
    | Handle(id: nat, entry: Entry, keep: bool)
    | Stop(id: nat, entry: Entry)
    | Complete(id: nat)
    | Abandon(id: nat)
    | Restart

  ghost predicate IsFirst(e: Entry, page: set<Entry>) {
    e in page && forall x :: x in page ==> x == e || Before(e, x)
  }

  ghost predicate DueFor(c: Scan, e: Entry) {
    Due(e.0, c.now, c.retention)
  }

  ghost predicate Exhausted(c: Scan) {
    c.stopped || (c.page == {} && c.loaded == End)
  }

  ghost predicate Enabled(s: State, e: Event) {
    match e
    case Commit(x) => x.0 <= U64_MAX
    case Note(x) => x.0 <= U64_MAX
    case Withdraw(x) => true
    case Begin(id, _, _) => id !in s.scans
    case Load(id, to) =>
      && id in s.scans && !s.scans[id].stopped && s.scans[id].page == {}
      && (forall x :: Within(x, s.scans[id].loaded) ==> Within(x, to))
    case Handle(id, x, _) =>
      id in s.scans && !s.scans[id].stopped && IsFirst(x, s.scans[id].page) && DueFor(s.scans[id], x)
    case Stop(id, x) =>
      id in s.scans && !s.scans[id].stopped && IsFirst(x, s.scans[id].page) && !DueFor(s.scans[id], x)
    case Complete(id) => id in s.scans && Exhausted(s.scans[id])
    case Abandon(id) => id in s.scans
    case Restart => true
  }

  function Min(a: nat, b: nat): nat {
    if a < b then a else b
  }

  /** The page of a scan up to `to`: the live entries from its start that it has not read. */
  ghost function PageOf(s: State, c: Scan, to: Edge): set<Entry> {
    set x | x in s.live && c.from <= x.0 && !Within(x, c.loaded) && Within(x, to)
  }

  /** The scans, other than `id`, once the entry is removed. */
  ghost function Lost(scans: map<nat, Scan>, x: Entry): map<nat, Scan> {
    map i | i in scans :: scans[i].(gone := scans[i].gone + {x})
  }

  ghost function Apply(s: State, e: Event): State
    requires Enabled(s, e)
  {
    match e
    case Commit(x) => s.(live := s.live + {x})
    case Note(x) => s.(bound := Min(s.bound, x.0), noted := if x in s.live then s.noted + {x} else s.noted)
    case Withdraw(x) => s.(live := s.live - {x}, noted := s.noted - {x}, scans := Lost(s.scans, x))
    case Begin(id, now, retention) =>
      var owed := set x | x in s.noted && s.bound <= x.0;
      s.(bound := U64_MAX,
         scans := s.scans[id := Scan(s.bound, now, retention, U64_MAX, Start, {}, false, owed, [], {}, {})])
    case Load(id, to) =>
      var c := s.scans[id];
      s.(scans := s.scans[id := c.(loaded := to, page := PageOf(s, c, to))])
    case Handle(id, x, keep) =>
      var c := s.scans[id];
      if keep then
        s.(scans := s.scans[id := c.(page := c.page - {x}, retained := Min(c.retained, x.0), kept := c.kept + {x})])
      else
        s.(live := s.live - {x}, noted := s.noted - {x},
           scans := Lost(s.scans, x)[id := c.(page := c.page - {x}, removed := c.removed + [x])])
    case Stop(id, x) =>
      var c := s.scans[id];
      s.(scans := s.scans[id := c.(retained := Min(c.retained, x.0), stopped := true)])
    case Complete(id) => s.(bound := Min(s.bound, s.scans[id].retained), scans := s.scans - {id})
    case Abandon(id) => s.(bound := Min(s.bound, s.scans[id].from), scans := s.scans - {id})
    case Restart => s.(bound := 0, noted := s.live, scans := map[])
  }

  // ---- The invariant of the bound ----

  /** The scan will leave the bound at or below the entry's time, or remove the entry. */
  ghost predicate Covers(c: Scan, x: Entry) {
    c.from <= x.0 && (c.retained <= x.0 || (!c.stopped && (!Within(x, c.loaded) || x in c.page)))
  }

  ghost predicate Covered(s: State, x: Entry) {
    s.bound <= x.0 || exists i :: i in s.scans && Covers(s.scans[i], x)
  }

  ghost predicate BoundSound(s: State) {
    && s.noted <= s.live
    && (forall x :: x in s.noted ==> Covered(s, x))
  }

  // ---- The invariant of a scan ----

  ghost predicate ScanSound(c: Scan) {
    && (forall x :: x in c.page ==> Within(x, c.loaded) && c.from <= x.0)
    && (forall x :: x in c.removed ==> Within(x, c.loaded) && DueFor(c, x))
    && (forall x, y :: x in c.removed && y in c.page ==> Before(x, y))
    && Ascending(c.removed)
    && (forall x :: x in c.kept ==> Within(x, c.loaded) && DueFor(c, x) && x !in c.removed)
    && (forall x, y :: x in c.kept && y in c.page ==> Before(x, y))
    && (c.stopped ==> exists x :: x in c.page && IsFirst(x, c.page) && !DueFor(c, x))
  }

  /** Each entry that the scan owes is live and to come, in its page, removed, kept or lost. */
  ghost predicate Settled(s: State, c: Scan, x: Entry) {
    || x in c.removed || x in c.kept || x in c.gone || x in c.page
    || (c.from <= x.0 && !Within(x, c.loaded) && x in s.live)
  }

  ghost predicate OwedSound(s: State, c: Scan) {
    forall x :: x in c.owed ==> Settled(s, c, x)
  }

  ghost predicate Inv(s: State) {
    && BoundSound(s)
    && (forall i :: i in s.scans ==> ScanSound(s.scans[i]) && OwedSound(s, s.scans[i]))
  }

  // ---- The order of the entries ----

  lemma BeforeLaws()
    ensures forall a: Entry :: !Before(a, a)
    ensures forall a: Entry, b: Entry, c: Entry :: Before(a, b) && Before(b, c) ==> Before(a, c)
    ensures forall a: Entry, b: Entry :: Before(a, b) || a == b || Before(b, a)
  {
    OrderLaws();
  }

  lemma ReadInOrder(x: Entry, y: Entry, edge: Edge)
    requires Within(x, edge) && !Within(y, edge)
    ensures Before(x, y)
  {
    BeforeLaws();
  }

  // ---- Every step keeps the bound sound ----

  lemma StoreKeepsBound(s: State, e: Event)
    requires BoundSound(s) && Enabled(s, e) && (e.Commit? || e.Note? || e.Withdraw? || e.Restart?)
    ensures BoundSound(Apply(s, e))
  {
    var t := Apply(s, e);
    forall x | x in t.noted
      ensures Covered(t, x)
    {
      if t.bound > x.0 {
        var i :| i in s.scans && Covers(s.scans[i], x);
        assert Covers(t.scans[i], x);
      }
    }
  }

  /** The new scan covers what the bound did. */
  lemma BeginKeepsBound(s: State, e: Event)
    requires BoundSound(s) && Enabled(s, e) && e.Begin?
    ensures BoundSound(Apply(s, e))
  {
    var t := Apply(s, e);
    forall x | x in t.noted
      ensures Covered(t, x)
    {
      if s.bound <= x.0 {
        assert Covers(t.scans[e.id], x);
      } else {
        var i :| i in s.scans && Covers(s.scans[i], x);
        assert Covers(t.scans[i], x);
      }
    }
  }

  lemma ScanKeepsCover(s: State, e: Event, x: Entry)
    requires Inv(s) && Enabled(s, e) && (e.Load? || e.Handle? || e.Stop?)
    requires x in Apply(s, e).noted && Covers(s.scans[e.id], x)
    ensures Covers(Apply(s, e).scans[e.id], x)
  {
    var c := s.scans[e.id];
    if e.Stop? && c.retained > x.0 {
      BeforeLaws();
      if !Within(x, c.loaded) {
        ReadInOrder(e.entry, x, c.loaded);
      }
    }
  }

  lemma ScanKeepsBound(s: State, e: Event)
    requires Inv(s) && Enabled(s, e) && (e.Load? || e.Handle? || e.Stop?)
    ensures BoundSound(Apply(s, e))
  {
    var t := Apply(s, e);
    forall x | x in t.noted
      ensures Covered(t, x)
    {
      if t.bound > x.0 {
        var i :| i in s.scans && Covers(s.scans[i], x);
        if i == e.id {
          ScanKeepsCover(s, e, x);
        }
        assert Covers(t.scans[i], x);
      }
    }
  }

  /** The end of a scan returns what it covers to the bound. */
  lemma EndKeepsBound(s: State, e: Event)
    requires Inv(s) && Enabled(s, e) && (e.Complete? || e.Abandon?)
    ensures BoundSound(Apply(s, e))
  {
    var t := Apply(s, e);
    forall x | x in t.noted
      ensures Covered(t, x)
    {
      if t.bound > x.0 {
        var i :| i in s.scans && Covers(s.scans[i], x);
        assert i in t.scans && Covers(t.scans[i], x);
      }
    }
  }

  // ---- Every step keeps the scans sound ----

  lemma LoadKeepsScan(s: State, e: Event)
    requires Inv(s) && Enabled(s, e) && e.Load?
    ensures ScanSound(Apply(s, e).scans[e.id]) && OwedSound(Apply(s, e), Apply(s, e).scans[e.id])
  {
    var c := s.scans[e.id];
    forall x, y | (x in c.removed || x in c.kept) && y in PageOf(s, c, e.to)
      ensures Before(x, y)
    {
      ReadInOrder(x, y, c.loaded);
    }
  }

  lemma HandleKeepsScan(s: State, e: Event)
    requires Inv(s) && Enabled(s, e) && e.Handle?
    ensures ScanSound(Apply(s, e).scans[e.id])
  {
    BeforeLaws();
  }

  lemma HandleKeepsOwed(s: State, e: Event)
    requires Inv(s) && Enabled(s, e) && e.Handle?
    ensures OwedSound(Apply(s, e), Apply(s, e).scans[e.id])
  {
    var c, t := s.scans[e.id], Apply(s, e);
    forall x | x in c.owed
      ensures Settled(t, t.scans[e.id], x)
    {
      assert Settled(s, c, x);
      assert x == e.entry && !e.keep ==> t.scans[e.id].removed[|c.removed|] == x;
    }
  }

  lemma StopKeepsScan(s: State, e: Event)
    requires Inv(s) && Enabled(s, e) && e.Stop?
    ensures ScanSound(Apply(s, e).scans[e.id]) && OwedSound(Apply(s, e), Apply(s, e).scans[e.id])
  {
  }

  /** A step of another task leaves a scan as it was, up to the entries lost. */
  lemma OthersLeaveScan(s: State, e: Event, i: nat)
    requires Enabled(s, e) && i in s.scans && i in Apply(s, e).scans
    requires e.Commit? || e.Note? || e.Withdraw? || e.Restart? || e.id != i
    ensures var c, d := s.scans[i], Apply(s, e).scans[i];
      d == c.(gone := d.gone) && c.gone <= d.gone && s.live - Apply(s, e).live <= d.gone
  {
  }

  lemma OthersKeepScan(s: State, e: Event, i: nat)
    requires Inv(s) && Enabled(s, e) && i in s.scans && i in Apply(s, e).scans
    requires e.Commit? || e.Note? || e.Withdraw? || e.Restart? || e.id != i
    ensures ScanSound(Apply(s, e).scans[i]) && OwedSound(Apply(s, e), Apply(s, e).scans[i])
  {
    OthersLeaveScan(s, e, i);
    var c, t := s.scans[i], Apply(s, e);
    var d := t.scans[i];
    assert ScanSound(c);
    forall x | x in d.owed
      ensures Settled(t, d, x)
    {
      assert Settled(s, c, x);
    }
  }

  lemma ScansStaySound(s: State, e: Event, i: nat)
    requires Inv(s) && Enabled(s, e) && i in Apply(s, e).scans
    ensures ScanSound(Apply(s, e).scans[i]) && OwedSound(Apply(s, e), Apply(s, e).scans[i])
  {
    if e.Commit? || e.Note? || e.Withdraw? || e.Restart? || e.id != i {
      OthersKeepScan(s, e, i);
    } else if e.Load? {
      LoadKeepsScan(s, e);
    } else if e.Handle? {
      HandleKeepsScan(s, e);
      HandleKeepsOwed(s, e);
    } else if e.Stop? {
      StopKeepsScan(s, e);
    }
  }

  lemma StepKeepsInv(s: State, e: Event)
    requires Inv(s) && Enabled(s, e)
    ensures Inv(Apply(s, e))
  {
    match e {
      case Begin(_, _, _) => BeginKeepsBound(s, e);
      case Complete(_) => EndKeepsBound(s, e);
      case Abandon(_) => EndKeepsBound(s, e);
      case Load(_, _) => ScanKeepsBound(s, e);
      case Handle(_, _, _) => ScanKeepsBound(s, e);
      case Stop(_, _) => ScanKeepsBound(s, e);
      case _ => StoreKeepsBound(s, e);
    }
    forall i | i in Apply(s, e).scans
      ensures ScanSound(Apply(s, e).scans[i]) && OwedSound(Apply(s, e), Apply(s, e).scans[i])
    {
      ScansStaySound(s, e, i);
    }
  }

  // ---- Every run ----

  ghost predicate IsRun(s: State, run: seq<Event>)
    decreases |run|
  {
    run == [] || (Enabled(s, run[0]) && IsRun(Apply(s, run[0]), run[1..]))
  }

  ghost function Run(s: State, run: seq<Event>): State
    requires IsRun(s, run)
    decreases |run|
  {
    if run == [] then s else Run(Apply(s, run[0]), run[1..])
  }

  lemma {:induction false} RunKeepsInv(s: State, run: seq<Event>)
    requires Inv(s) && IsRun(s, run)
    ensures Inv(Run(s, run))
    decreases |run|
  {
    if run != [] {
      StepKeepsInv(s, run[0]);
      RunKeepsInv(Apply(s, run[0]), run[1..]);
    }
  }

  const EMPTY := State(0, {}, {}, map[])

  /** With no scan in flight no committed and recorded entry is below the bound, so a pass that
      returns without a read has no such entry to remove. */
  lemma NoEntryBelowTheBound(run: seq<Event>, x: Entry, now: nat, retention: nat)
    requires IsRun(EMPTY, run) && Run(EMPTY, run).scans == map[] && x in Run(EMPTY, run).noted
    ensures Run(EMPTY, run).bound <= x.0
    ensures !Due(Run(EMPTY, run).bound, now, retention) ==> !Due(x.0, now, retention)
  {
    RunKeepsInv(EMPTY, run);
    assert Covered(Run(EMPTY, run), x);
  }

  /** With scans in flight, an entry below the bound is one that a scan still has to read, or
      that the scan has retained a time at or before. */
  lemma EntryBelowTheBoundIsCovered(run: seq<Event>, x: Entry)
    requires IsRun(EMPTY, run) && x in Run(EMPTY, run).noted && x.0 < Run(EMPTY, run).bound
    ensures exists i :: i in Run(EMPTY, run).scans && Covers(Run(EMPTY, run).scans[i], x)
  {
    RunKeepsInv(EMPTY, run);
    assert Covered(Run(EMPTY, run), x);
  }

  /** A pass that completes has removed exactly the due entries not kept, oldest first, of all
      that it found live and recorded, apart from entries that others removed meanwhile. */
  lemma CompletedPassIsExact(run: seq<Event>, id: nat, x: Entry)
    requires IsRun(EMPTY, run) && Enabled(Run(EMPTY, run), Complete(id))
    ensures var c := Run(EMPTY, run).scans[id];
      && Ascending(c.removed)
      && (x in c.removed ==> DueFor(c, x) && x !in c.kept)
      && (x in c.owed && x !in c.gone ==> (x in c.removed <==> DueFor(c, x) && x !in c.kept))
  {
    RunKeepsInv(EMPTY, run);
    var s := Run(EMPTY, run);
    var c := s.scans[id];
    if x in c.owed && x !in c.gone && DueFor(c, x) && x !in c.kept {
      assert Settled(s, c, x);
      if c.stopped {
        var f :| f in c.page && IsFirst(f, c.page) && !DueFor(c, f);
        if !Within(x, c.loaded) {
          ReadInOrder(f, x, c.loaded);
        }
      }
    }
  }

  /** A pass that begins with no other in flight owes every live and recorded entry. */
  lemma LonePassOwesAll(run: seq<Event>, id: nat, now: nat, retention: nat)
    requires IsRun(EMPTY, run) && Run(EMPTY, run).scans == map[]
    ensures var s := Run(EMPTY, run);
      Enabled(s, Begin(id, now, retention)) && Apply(s, Begin(id, now, retention)).scans[id].owed == s.noted
  {
    RunKeepsInv(EMPTY, run);
    var s := Run(EMPTY, run);
    assert forall x :: x in s.noted ==> Covered(s, x);
  }
}
