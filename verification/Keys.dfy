/** The keys of a workflow runtime in the store's KV namespace: id validation, the owned-run index
    and the ranges that scan one id. */
module Keys {
  import opened Wrappers
  import opened Bytes

  const SLASH: byte := 47
  const ZERO: byte := 48
  const COLON: byte := 58
  const MAX_RUN_ID_LEN := 128
  const MAX_QUEUE_NAME_LEN := 255

  predicate Alphanumeric(c: char) {
    'a' <= c <= 'z' || 'A' <= c <= 'Z' || '0' <= c <= '9'
  }

  predicate ValidRunId(id: string) {
    && 0 < |id| <= MAX_RUN_ID_LEN
    && forall i :: 0 <= i < |id| ==> Alphanumeric(id[i]) || id[i] == '_' || id[i] == '-'
  }

  predicate ValidQueueName(name: string) {
    && 0 < |name| <= MAX_QUEUE_NAME_LEN && Alphanumeric(name[0])
    && forall i :: 0 <= i < |name| ==> Alphanumeric(name[i]) || name[i] == '.' || name[i] == '_' || name[i] == '-'
  }

  /** The text of a submission id: the 26 characters of a ULID. */
  predicate ValidSubmission(text: string) {
    |text| == 26 && forall i :: 0 <= i < |text| ==> Alphanumeric(text[i])
  }

  predicate Ascii(s: string) {
    forall i :: 0 <= i < |s| ==> s[i] as int < 128
  }

  function Text(s: string): (k: Key)
    requires Ascii(s)
    ensures |k| == |s|
  {
    seq(|s|, i requires 0 <= i < |s| => s[i] as int)
  }

  lemma TextInjective(s: string, t: string)
    requires Ascii(s) && Ascii(t) && Text(s) == Text(t)
    ensures s == t
  {
    forall i | 0 <= i < |s|
      ensures s[i] == t[i]
    {
      assert Text(s)[i] == Text(t)[i];
    }
  }

  // ---- Ranges ----

  /** The range from `p/` to `p0`, the byte after the slash, is the keys that start with `p/`. */
  lemma {:induction false} RangeIsPrefix(p: Key, k: Key)
    ensures AtMost(p + [SLASH], k) && Less(k, p + [ZERO]) <==> StartsWith(k, p + [SLASH])
  {
    if p == [] {
      assert p + [SLASH] == [SLASH] && p + [ZERO] == [ZERO];
      if k != [] {
        assert k == [k[0]] + k[1..];
        assert k[..1] == [k[0]];
        assert Less(k, [ZERO]) <==> k[0] < ZERO;
        assert Less([SLASH], k) <==> SLASH < k[0] || (k[0] == SLASH && k[1..] != []);
      }
    } else {
      assert (p + [SLASH])[1..] == p[1..] + [SLASH] && (p + [ZERO])[1..] == p[1..] + [ZERO];
      if k != [] {
        RangeIsPrefix(p[1..], k[1..]);
        assert k == [k[0]] + k[1..] && p == [p[0]] + p[1..];
        assert k[0] == p[0] ==> (StartsWith(k, p + [SLASH]) <==> StartsWith(k[1..], p[1..] + [SLASH]));
        assert p + [SLASH] == [p[0]] + (p[1..] + [SLASH]);
        assert (p + [SLASH]) == k <==> k[0] == p[0] && p[1..] + [SLASH] == k[1..];
      }
    }
  }

  /** A text is split at the first of a character in one way. */
  lemma {:induction false} SplitUnique<T>(a: seq<T>, x: seq<T>, b: seq<T>, y: seq<T>, cut: T)
    requires cut !in a && cut !in b && a + [cut] + x == b + [cut] + y
    ensures a == b && x == y
  {
    if a == [] || b == [] {
      assert (a + [cut] + x)[0] == (b + [cut] + y)[0];
      assert a == [] && b == [];
      assert (a + [cut] + x)[1..] == x && (b + [cut] + y)[1..] == y;
    } else {
      assert (a + [cut] + x)[1..] == a[1..] + [cut] + x && (b + [cut] + y)[1..] == b[1..] + [cut] + y;
      assert (a + [cut] + x)[0] == a[0] && (b + [cut] + y)[0] == b[0];
      SplitUnique(a[1..], x, b[1..], y, cut);
      assert a == [a[0]] + a[1..] && b == [b[0]] + b[1..];
    }
  }

  /** The keys of one id, `prefix id / rest`, are exactly those in the range of the id. This is the
      form of the run KV entries and of the owner queues. */
  lemma RangeOfOneId(prefix: Key, id: string, other: string, rest: Key)
    requires ValidRunId(id) && ValidRunId(other)
    ensures var k := prefix + Text(other) + [SLASH] + rest;
      AtMost(prefix + Text(id) + [SLASH], k) && Less(k, prefix + Text(id) + [ZERO]) <==> other == id
  {
    var k := prefix + Text(other) + [SLASH] + rest;
    RangeIsPrefix(prefix + Text(id), k);
    if StartsWith(k, prefix + Text(id) + [SLASH]) {
      var tail := k[|prefix| + |id| + 1..];
      assert k == (prefix + Text(id) + [SLASH]) + tail;
      assert k[|prefix|..] == Text(id) + [SLASH] + tail == Text(other) + [SLASH] + rest;
      SplitUnique(Text(id), tail, Text(other), rest, SLASH);
      TextInjective(id, other);
    }
  }

  // ---- The owner of a run ----

  datatype OwnerRef = OwnerRef(runId: string, submission: string)

  predicate ValidOwner(o: OwnerRef) {
    ValidRunId(o.runId) && ValidSubmission(o.submission)
  }

  function HeaderValue(o: OwnerRef): (s: string)
    requires ValidOwner(o)
    ensures Ascii(s)
  {
    o.runId + ":" + o.submission
  }

  function FirstColon(s: string): (at: nat)
    ensures at <= |s|
    ensures forall i :: 0 <= i < at ==> s[i] != ':'
    ensures at < |s| ==> s[at] == ':'
  {
    if s == "" || s[0] == ':' then 0 else 1 + FirstColon(s[1..])
  }

  /** The owner of a header value, split at its first colon. */
  function FromHeader(value: string): Result<OwnerRef, ()> {
    var at := FirstColon(value);
    if at == |value| then Err(())
    else
      var o := OwnerRef(value[..at], value[at + 1..]);
      if ValidOwner(o) then Ok(o) else Err(())
  }

  lemma HeaderRoundTrip(o: OwnerRef)
    requires ValidOwner(o)
    ensures FromHeader(HeaderValue(o)) == Ok(o)
  {
    var s := HeaderValue(o);
    var n := |o.runId|;
    assert s[n] == ':';
    assert forall i :: 0 <= i < n ==> s[i] == o.runId[i];
    assert FirstColon(s) == n;
    assert s[..n] == o.runId && s[n + 1..] == o.submission;
  }

  // ---- The index of owned runs ----

  /** The key `workflow/owned/{owner}/{queue}/{run id}`. */
  function OwnedKey(prefix: Key, o: OwnerRef, queue: string, runId: string): Key
    requires ValidOwner(o) && ValidQueueName(queue) && ValidRunId(runId)
  {
    OwnedStart(prefix, o, queue) + Text(runId)
  }

  function OwnedStart(prefix: Key, o: OwnerRef, queue: string): Key
    requires ValidOwner(o) && ValidQueueName(queue)
  {
    prefix + Text(HeaderValue(o)) + [SLASH] + Text(queue) + [SLASH]
  }

  function OwnedEnd(prefix: Key, o: OwnerRef, queue: string): Key
    requires ValidOwner(o) && ValidQueueName(queue)
  {
    prefix + Text(HeaderValue(o)) + [SLASH] + Text(queue) + [ZERO]
  }

  /** The text after the last slash. */
  function LastSegment(k: Key): Key {
    if k == [] || k[|k| - 1] == SLASH then [] else LastSegment(k[..|k| - 1]) + [k[|k| - 1]]
  }

  lemma {:induction false} LastSegmentIs(k: Key, last: Key)
    requires SLASH !in last
    ensures LastSegment(k + [SLASH] + last) == last
  {
    var whole := k + [SLASH] + last;
    if last == [] {
      assert whole[|whole| - 1] == SLASH;
    } else {
      var n := |last| - 1;
      assert whole[..|whole| - 1] == k + [SLASH] + last[..n];
      LastSegmentIs(k, last[..n]);
      assert last == last[..n] + [last[n]];
    }
  }

  lemma OwnedKeySplit(prefix: Key, h: Key, q: Key, g: Key, r: Key, id: Key)
    requires SLASH !in h && SLASH !in q && SLASH !in g && SLASH !in r
    requires StartsWith(prefix + g + [SLASH] + r + [SLASH] + id, prefix + h + [SLASH] + q + [SLASH])
    ensures h == g && q == r
  {
    var k := prefix + g + [SLASH] + r + [SLASH] + id;
    var start := prefix + h + [SLASH] + q + [SLASH];
    var tail := k[|start|..];
    assert k == start + tail;
    assert k[|prefix|..] == h + [SLASH] + (q + [SLASH] + tail);
    assert k[|prefix|..] == g + [SLASH] + (r + [SLASH] + id);
    SplitUnique(h, q + [SLASH] + tail, g, r + [SLASH] + id, SLASH);
    SplitUnique(q, tail, r, id, SLASH);
  }

  /** An entry of the index is in the range of an owner and a queue exactly when it is theirs. */
  lemma OwnedKeyInRange(prefix: Key, o: OwnerRef, queue: string, p: OwnerRef, other: string, runId: string)
    requires ValidOwner(o) && ValidOwner(p) && ValidQueueName(queue) && ValidQueueName(other) && ValidRunId(runId)
    ensures var k := OwnedKey(prefix, p, other, runId);
      AtMost(OwnedStart(prefix, o, queue), k) && Less(k, OwnedEnd(prefix, o, queue)) <==> p == o && other == queue
  {
    var k := OwnedKey(prefix, p, other, runId);
    RangeIsPrefix(prefix + Text(HeaderValue(o)) + [SLASH] + Text(queue), k);
    if StartsWith(k, OwnedStart(prefix, o, queue)) {
      OwnedKeySplit(prefix, Text(HeaderValue(o)), Text(queue), Text(HeaderValue(p)), Text(other), Text(runId));
      TextInjective(HeaderValue(o), HeaderValue(p));
      TextInjective(queue, other);
      HeaderRoundTrip(o);
      HeaderRoundTrip(p);
    }
  }

  lemma OwnedKeyEnds(prefix: Key, o: OwnerRef, queue: string, runId: string)
    requires ValidOwner(o) && ValidQueueName(queue) && ValidRunId(runId)
    ensures RunIdOf(OwnedKey(prefix, o, queue, runId)) == Some(runId)
  {
    LastSegmentIs(prefix + Text(HeaderValue(o)) + [SLASH] + Text(queue), Text(runId));
    RunIdOfText(OwnedKey(prefix, o, queue, runId), runId);
  }

  type Indexed = (OwnerRef, string, string)

  ghost predicate ValidIndex(index: set<Indexed>) {
    forall e :: e in index ==> ValidOwner(e.0) && ValidQueueName(e.1) && ValidRunId(e.2)
  }

  ghost function IndexKeys(prefix: Key, index: set<Indexed>): set<Key>
    requires ValidIndex(index)
  {
    set e | e in index :: OwnedKey(prefix, e.0, e.1, e.2)
  }

  /** The run id of a key as the cancel job reads it, `None` for a segment that is not one. */
  function RunIdOf(k: Key): Option<string> {
    var last := LastSegment(k);
    var id := seq(|last|, i requires 0 <= i < |last| => last[i] as char);
    if ValidRunId(id) then Some(id) else None
  }

  lemma RunIdOfText(k: Key, id: string)
    requires ValidRunId(id) && LastSegment(k) == Text(id)
    ensures RunIdOf(k) == Some(id)
  {
    var last := LastSegment(k);
    assert seq(|last|, i requires 0 <= i < |last| => last[i] as char) == id;
  }

  /** The scan of an owner and a queue yields exactly the run ids indexed for them. */
  lemma ScanYieldsTheOwnedRuns(prefix: Key, index: set<Indexed>, o: OwnerRef, queue: string, runId: string)
    requires ValidIndex(index) && ValidOwner(o) && ValidQueueName(queue)
    ensures (o, queue, runId) in index <==>
            exists k :: k in IndexKeys(prefix, index) && AtMost(OwnedStart(prefix, o, queue), k)
                        && Less(k, OwnedEnd(prefix, o, queue)) && RunIdOf(k) == Some(runId)
  {
    if (o, queue, runId) in index {
      var k := OwnedKey(prefix, o, queue, runId);
      OwnedKeyInRange(prefix, o, queue, o, queue, runId);
      OwnedKeyEnds(prefix, o, queue, runId);
      assert k in IndexKeys(prefix, index);
    }
    if k :| k in IndexKeys(prefix, index) && AtMost(OwnedStart(prefix, o, queue), k)
            && Less(k, OwnedEnd(prefix, o, queue)) && RunIdOf(k) == Some(runId) {
      var e :| e in index && k == OwnedKey(prefix, e.0, e.1, e.2);
      OwnedKeyInRange(prefix, o, queue, e.0, e.1, e.2);
      OwnedKeyEnds(prefix, e.0, e.1, e.2);
      assert e == (o, queue, runId);
    }
  }

  /** The run ids of the keys of a scan, in order. */
  method RunIdsOf(keys: seq<Key>) returns (ids: seq<string>)
    ensures forall id :: id in ids <==> exists i :: 0 <= i < |keys| && RunIdOf(keys[i]) == Some(id)
  {
    ids := [];
    for i := 0 to |keys|
      invariant forall id :: id in ids <==> exists j :: 0 <= j < i && RunIdOf(keys[j]) == Some(id)
    {
      var id := RunIdOf(keys[i]);
      if id.Some? {
        ids := ids + [id.value];
      }
    }
  }

  /** Processes a cancel job: it cancels every run id, and returns the first error after the last
      cancel. The cancels run side by side and complete in any order `completed` of the ids, and
      `fails` says which of them fail. */
  method CancelOwned(ids: seq<string>, completed: seq<string>, fails: string -> bool) returns (firstError: Option<string>)
    requires multiset(completed) == multiset(ids)
    ensures firstError.None? <==> forall id :: id in ids ==> !fails(id)
    ensures firstError.Some? ==>
      exists i :: 0 <= i < |completed| && completed[i] == firstError.value && fails(completed[i])
                  && forall j :: 0 <= j < i ==> !fails(completed[j])
  {
    firstError := None;
    for i := 0 to |completed|
      invariant firstError.None? ==> forall j :: 0 <= j < i ==> !fails(completed[j])
      invariant firstError.Some? ==>
        exists j :: 0 <= j < i && completed[j] == firstError.value && fails(completed[j])
                    && forall l :: 0 <= l < j ==> !fails(completed[l])
    {
      if firstError.None? && fails(completed[i]) {
        firstError := Some(completed[i]);
      }
    }
    forall id ensures id in ids <==> id in completed {
      assert id in multiset(ids) <==> id in multiset(completed);
    }
  }
}
