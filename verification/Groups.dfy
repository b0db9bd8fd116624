/** The members of run groups: their run ids, the numbers of their runs and the removal of a
    group's records. */
module Groups {
  import opened Wrappers
  import opened Decimal
  import opened Keys
  import GroupRuns

  const U32_MAX: nat := 0xFFFF_FFFF

  // ---- Run ids ----

  predicate HexDigit(c: char) {
    '0' <= c <= '9' || 'a' <= c <= 'f'
  }

  /** The text of a digest: 64 lower-case hex digits. */
  predicate IsDigest(s: string) {
    |s| == 64 && forall i :: 0 <= i < |s| ==> HexDigit(s[i])
  }

  /** A digest without collisions. */
  ghost predicate GoodDigest(digest: string -> string) {
    && (forall s :: IsDigest(digest(s)))
    && (forall s, t :: digest(s) == digest(t) ==> s == t)
  }

  function MemberRunId(digest: string -> string, group: string, key: string, rerun: nat): string {
    var first := digest(group + "/" + key);
    if rerun == 0 then first else first + "-r" + ToDecimal(rerun)
  }

  predicate IsMark(s: string, i: nat) {
    i + 1 < |s| && s[i] == '-' && s[i + 1] == 'r'
  }

  /** The index of the last `-r` of a text. */
  function LastMark(s: string): (at: Option<nat>)
    ensures at.Some? ==> IsMark(s, at.value) && forall i: nat :: at.value < i ==> !IsMark(s, i)
    ensures at.None? ==> forall i: nat :: !IsMark(s, i)
  {
    if |s| < 2 then None
    else if IsMark(s, |s| - 2) then Some(|s| - 2)
    else
      var shorter := s[..|s| - 1];
      assert forall i: nat :: IsMark(s, i) <==> IsMark(shorter, i);
      LastMark(shorter)
  }

  /** The rerun number of a run id: the 32-bit number after its last `-r`, or zero. */
  function RerunOf(id: string): nat {
    var at := LastMark(id);
    if at.None? then 0
    else
      var n := ParseUnsigned(id[at.value + 2..]);
      if n.Some? && n.value <= U32_MAX then n.value else 0
  }

  /** The last mark of a digest with a rerun suffix is the one after the digest. */
  lemma MarkOfRerun(first: string, digits: string)
    requires IsDigest(first) && forall i :: 0 <= i < |digits| ==> IsDigit(digits[i])
    ensures LastMark(first + "-r" + digits) == Some(64)
  {
    var id := first + "-r" + digits;
    assert IsMark(id, 64) && id[65] == 'r';
    forall i: nat | 64 < i ensures !IsMark(id, i) {
      assert 66 <= i < |id| ==> id[i] == digits[i - 66];
    }
  }

  lemma MarkOfDigest(first: string)
    requires IsDigest(first)
    ensures LastMark(first) == None
  {
    forall i: nat ensures !IsMark(first, i) {
      assert i < |first| ==> HexDigit(first[i]);
    }
  }

  lemma RerunOfMember(digest: string -> string, group: string, key: string, rerun: nat)
    requires GoodDigest(digest) && rerun <= U32_MAX
    ensures RerunOf(MemberRunId(digest, group, key, rerun)) == rerun
  {
    var first := digest(group + "/" + key);
    assert IsDigest(first);
    if rerun == 0 {
      MarkOfDigest(first);
    } else {
      var digits := ToDecimal(rerun);
      MarkOfRerun(first, digits);
      assert (first + "-r" + digits)[66..] == digits;
      DigitsRoundTrip(rerun);
    }
  }

  lemma MemberRunIdValid(digest: string -> string, group: string, key: string, rerun: nat)
    requires GoodDigest(digest) && rerun <= U32_MAX
    ensures ValidRunId(MemberRunId(digest, group, key, rerun))
  {
    var first := digest(group + "/" + key);
    assert IsDigest(first);
    if rerun != 0 {
      var digits := ToDecimal(rerun);
      assert rerun < Power10(10) by {
        assert Power10(5) == 100_000;
        assert Power10(10) == 10 * (10 * (10 * (10 * (10 * Power10(5))))) by {
          assert Power10(8) == 10 * (10 * (10 * Power10(5)));
        }
      }
      DecimalLength(rerun, 10);
      var id := first + "-r" + digits;
      forall i | 0 <= i < |id|
        ensures Alphanumeric(id[i]) || id[i] == '-'
      {
        assert i >= 66 ==> IsDigit(digits[i - 66]);
      }
    }
  }

  lemma MemberRunIdStarts(digest: string -> string, group: string, key: string, rerun: nat)
    requires GoodDigest(digest)
    ensures var id := MemberRunId(digest, group, key, rerun);
      |id| >= 64 && id[..64] == digest(group + "/" + key)
  {
    assert IsDigest(digest(group + "/" + key));
  }

  /** Two members, or two runs of one member, do not share a run id. */
  lemma MemberRunIdInjective(digest: string -> string, g: string, k: string, n: nat, h: string, l: string, m: nat)
    requires GoodDigest(digest) && ValidRunId(g) && ValidRunId(h) && n <= U32_MAX && m <= U32_MAX
    requires MemberRunId(digest, g, k, n) == MemberRunId(digest, h, l, m)
    ensures g == h && k == l && n == m
  {
    RerunOfMember(digest, g, k, n);
    RerunOfMember(digest, h, l, m);
    MemberRunIdStarts(digest, g, k, n);
    MemberRunIdStarts(digest, h, l, m);
    assert digest(g + "/" + k) == digest(h + "/" + l);
    SplitUnique(g, k, h, l, '/');
  }

  // ---- The member record ----

  /** The record of a member: its run, and whether the run succeeded once it has terminated. */
  datatype Member = Member(runId: string, terminated: Option<bool>)

  /** The run of the next submission of a member with a record, `None` after a success. */
  function SubmissionRunId(digest: string -> string, group: string, key: string, record: Option<Member>): Option<string> {
    match record
    case None => Some(MemberRunId(digest, group, key, 0))
    case Some(member) =>
      match member.terminated
      case None => Some(member.runId)
      case Some(true) => None
      case Some(false) => Some(MemberRunId(digest, group, key, RerunOf(member.runId) + 1))
  }

  /** The member record of a record by number. */
  function RecordIn(digest: string -> string, group: string, key: string, record: Option<GroupRuns.Record>): Option<Member> {
    if record.None? then None
    else
      var end := record.value.terminated;
      Some(Member(MemberRunId(digest, group, key, record.value.number), if end.Some? then Some(end.value.success) else None))
  }

  lemma SubmissionOf(digest: string -> string, group: string, key: string, id: string, terminated: Option<bool>, n: nat)
    requires RerunOf(id) == n
    ensures SubmissionRunId(digest, group, key, Some(Member(id, terminated))) ==
            if terminated.None? then Some(id)
            else if terminated.value then None else Some(MemberRunId(digest, group, key, n + 1))
  {
  }

  /** The run id of a submission is the id of the number that the record gives: a new member gets run
      0, an active one continues, a failed one gets its next run and a succeeded one none. */
  lemma SubmissionNumber(digest: string -> string, group: string, key: string, record: Option<GroupRuns.Record>)
    requires GoodDigest(digest) && (record.Some? ==> record.value.number < U32_MAX)
    ensures SubmissionRunId(digest, group, key, RecordIn(digest, group, key, record)) ==
            var next := GroupRuns.NextNumber(record);
            if next.None? then None else Some(MemberRunId(digest, group, key, next.value))
    ensures SubmissionRunId(digest, group, key, RecordIn(digest, group, key, record)) ==
            if record.None? then Some(MemberRunId(digest, group, key, 0))
            else
              var n, end := record.value.number, record.value.terminated;
              if end.None? then Some(MemberRunId(digest, group, key, n))
              else if end.value.success then None else Some(MemberRunId(digest, group, key, n + 1))
  {
    if record.Some? {
      var n, end := record.value.number, record.value.terminated;
      RerunOfMember(digest, group, key, n);
      SubmissionOf(digest, group, key, MemberRunId(digest, group, key, n),
                   if end.Some? then Some(end.value.success) else None, n);
    }
  }
}
