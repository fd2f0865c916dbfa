/** The root store: the three slices combined, last-writer-wins reconciliation
    of remote lists, the audit-log union, and the archive sweep rule. */
module Store {
  import opened Base
  import opened Model
  import opened Lists
  import JR = JobReducer
  import QR = QueryReducer
  import BR = BookingReducer

  // ---------------------------------------------------------------------
  // The combined store

  datatype RootState = RootState(jobs: JR.JobState, queries: QR.QueryState, bookings: BR.BookingState)

  /** An action is routed by its type to one slice; the other two slices see
      an action they do not handle. */
  datatype RootAction =
    | JobsAction(ja: JR.JobAction)
    | QueriesAction(qa: QR.QueryAction)
    | BookingsAction(ba: BR.BookingAction)

  function RootReduce(s: RootState, a: RootAction, c: JR.Clock): (r: RootState)
    ensures !a.JobsAction? ==> r.jobs == s.jobs
    ensures !a.QueriesAction? ==> r.queries == s.queries
    ensures !a.BookingsAction? ==> r.bookings == s.bookings
  {
    RootState(
      JR.Reduce(s.jobs, if a.JobsAction? then a.ja else JR.Other, c),
      QR.Reduce(s.queries, if a.QueriesAction? then a.qa else QR.Other, c.now),
      BR.Reduce(s.bookings, if a.BookingsAction? then a.ba else BR.Other, c.now))
  }

  /** The client id: 'server' outside a window, else the stored id when there
      is one, else a newly generated id (which is then stored). */
  function ClientIdFor(hasWindow: bool, stored: Option<string>, generated: string): (id: string)
    ensures !hasWindow ==> id == "server"
    ensures hasWindow ==> id == (if Truthy(stored) then stored.value else generated)
  {
    if !hasWindow then "server" else OrString(stored, generated)
  }

  // ---------------------------------------------------------------------
  // Last-writer-wins merge (applyRemoteJobs / applyRemoteQueries / applyRemoteBookings)

  /** `new Map(xs.map(x => [key(x), x])).get(id)`: the LAST element with the id. */
  function LastWithId<T>(xs: seq<T>, key: T -> string, id: string): (r: Option<T>)
    ensures r.Some? ==> key(r.value) == id && r.value in xs
    ensures r.None? <==> forall i :: 0 <= i < |xs| ==> key(xs[i]) != id
    ensures r.Some? ==> exists i :: 0 <= i < |xs| && xs[i] == r.value && key(xs[i]) == id
                                   && forall j :: i < j < |xs| ==> key(xs[j]) != id
  {
    if xs == [] then None
    else if key(xs[|xs| - 1]) == id then Some(xs[|xs| - 1])
    else
      var ys := xs[..|xs| - 1];
      var r := LastWithId(ys, key, id);
      if r.Some? then
        ghost var i :| 0 <= i < |ys| && ys[i] == r.value && key(ys[i]) == id
                       && forall j :: i < j < |ys| ==> key(ys[j]) != id;
        assert xs[i] == r.value;
        assert forall j :: i < j < |xs| ==> key(xs[j]) != id by {
          forall j | i < j < |xs| ensures key(xs[j]) != id {
            if j < |ys| { assert xs[j] == ys[j]; }
          }
        }
        r
      else r
  }

  /** `x.updatedAt ? Date.parse(x.updatedAt) : 0`. */
  function StampTime(stamp: Option<string>, parse: string -> ParsedTime): (t: ParsedTime)
    ensures !Truthy(stamp) ==> t == At(0)
  {
    if Truthy(stamp) then parse(stamp.value) else At(0)
  }

  /** The copy kept for one remote record: the local one only when it is
      strictly newer. */
  function Pick<T>(existing: Option<T>, incoming: T, stamp: T -> Option<string>,
                   parse: string -> ParsedTime): (r: T)
    ensures existing.None? ==> r == incoming
    ensures r == incoming || r == existing.value
  {
    match existing
    case None => incoming
    case Some(e) =>
      if Later(StampTime(stamp(e), parse), StampTime(stamp(incoming), parse)) then e else incoming
  }

  /** The merged list: one entry per remote record, in remote order. */
  function MergeRemote<T>(local: seq<T>, remote: seq<T>, key: T -> string,
                          stamp: T -> Option<string>, parse: string -> ParsedTime): (r: seq<T>)
    ensures |r| == |remote|
    ensures forall i :: 0 <= i < |r| ==> key(r[i]) == key(remote[i])
    ensures forall i :: 0 <= i < |r| ==> r[i] == remote[i] || r[i] in local
  {
    Map(remote, (x: T) => Pick(LastWithId(local, key, key(x)), x, stamp, parse))
  }

  /** The merge keeps exactly the remote ids in remote order; an id that only
      the local list has is dropped. */
  lemma {:induction false} MergeKeepsRemoteIds<T>(local: seq<T>, remote: seq<T>, key: T -> string,
                                                 stamp: T -> Option<string>, parse: string -> ParsedTime)
    ensures Map(MergeRemote(local, remote, key, stamp, parse), key) == Map(remote, key)
    ensures forall x :: x in local && key(x) !in Map(remote, key) ==>
      key(x) !in Map(MergeRemote(local, remote, key, stamp, parse), key)
  {
    var r := MergeRemote(local, remote, key, stamp, parse);
    assert forall i :: 0 <= i < |r| ==> Map(r, key)[i] == Map(remote, key)[i];
  }

  /** For a shared id the local copy survives iff its time is strictly later. */
  lemma MergeLocalWinsIff<T>(local: seq<T>, remote: seq<T>, key: T -> string,
                             stamp: T -> Option<string>, parse: string -> ParsedTime, i: nat)
    requires i < |remote|
    requires LastWithId(local, key, key(remote[i])).Some?
    ensures var e := LastWithId(local, key, key(remote[i])).value;
      MergeRemote(local, remote, key, stamp, parse)[i] ==
        if Later(StampTime(stamp(e), parse), StampTime(stamp(remote[i]), parse)) then e else remote[i]
  {
  }

  /** Ties, and an unparsable time on either side, keep the remote copy. */
  lemma MergeTieOrNaNRemoteWins<T>(local: seq<T>, remote: seq<T>, key: T -> string,
                                   stamp: T -> Option<string>, parse: string -> ParsedTime, i: nat)
    requires i < |remote|
    requires var e := LastWithId(local, key, key(remote[i]));
      e.Some? ==>
        var te := StampTime(stamp(e.value), parse);
        var tr := StampTime(stamp(remote[i]), parse);
        te == tr || te.InvalidTime? || tr.InvalidTime?
    ensures MergeRemote(local, remote, key, stamp, parse)[i] == remote[i]
  {
  }

  /** A record without a time stamp counts as time 0. */
  lemma MergeMissingStampIsZero<T>(local: seq<T>, remote: seq<T>, key: T -> string,
                                   stamp: T -> Option<string>, parse: string -> ParsedTime, i: nat)
    requires i < |remote| && !Truthy(stamp(remote[i]))
    requires var e := LastWithId(local, key, key(remote[i]));
      e.Some? && Truthy(stamp(e.value)) && parse(stamp(e.value).value).At? && parse(stamp(e.value).value).ms > 0
    ensures MergeRemote(local, remote, key, stamp, parse)[i] == LastWithId(local, key, key(remote[i])).value
  {
  }

  predicate DistinctKeys<T>(xs: seq<T>, key: T -> string) {
    forall i, j :: 0 <= i < j < |xs| ==> key(xs[i]) != key(xs[j])
  }

  /** Within a list with distinct keys, the record with a given list position's
      key is that record. */
  lemma {:induction false} LastWithIdDistinct<T>(xs: seq<T>, key: T -> string, i: nat)
    requires DistinctKeys(xs, key) && i < |xs|
    ensures LastWithId(xs, key, key(xs[i])) == Some(xs[i])
  {
    if i < |xs| - 1 {
      var ys := xs[..|xs| - 1];
      assert ys[i] == xs[i];
      LastWithIdDistinct(ys, key, i);
    }
  }

  /** Applying the same remote list twice gives the result of applying it once
      (remote rows have distinct ids, as the table's primary key guarantees). */
  lemma {:induction false} MergeIdempotent<T>(local: seq<T>, remote: seq<T>, key: T -> string,
                                             stamp: T -> Option<string>, parse: string -> ParsedTime)
    requires DistinctKeys(remote, key)
    ensures var once := MergeRemote(local, remote, key, stamp, parse);
      MergeRemote(once, remote, key, stamp, parse) == once
  {
    var once := MergeRemote(local, remote, key, stamp, parse);
    var twice := MergeRemote(once, remote, key, stamp, parse);
    assert DistinctKeys(once, key);
    forall i | 0 <= i < |remote| ensures twice[i] == once[i] {
      LastWithIdDistinct(once, key, i);
      assert LastWithId(once, key, key(remote[i])) == Some(once[i]);
      var tr := StampTime(stamp(remote[i]), parse);
      if once[i] != remote[i] {
        var e := LastWithId(local, key, key(remote[i]));
        assert e.Some? && once[i] == e.value;
        assert Later(StampTime(stamp(once[i]), parse), tr);
      } else {
        assert !Later(tr, tr);
      }
    }
  }

  function JobStamp(j: Job): Option<string> { j.updatedAt }
  function QueryStamp(q: Query): Option<string> { q.updatedAt }
  function BookingStamp(b: Booking): Option<string> { b.updatedAt }

  // ---------------------------------------------------------------------
  // Audit union (applyRemoteAudit)

  predicate HasId(acc: seq<AuditEntry>, id: string) {
    exists k :: 0 <= k < |acc| && acc[k].id == id
  }

  /** The left-to-right fold that keeps the first entry of each id. */
  function DedupFirst(xs: seq<AuditEntry>): (r: seq<AuditEntry>)
    ensures |r| <= |xs|
  {
    if xs == [] then []
    else
      var d := DedupFirst(xs[..|xs| - 1]);
      if HasId(d, xs[|xs| - 1].id) then d else d + [xs[|xs| - 1]]
  }

  /** The reduce over `[...entries, ...current]` that pushes an entry into the
      accumulator unless one with its id is already there. */
  method MergeAudit(entries: seq<AuditEntry>, current: seq<AuditEntry>) returns (merged: seq<AuditEntry>)
    ensures merged == DedupFirst(entries + current)
  {
    var all := entries + current;
    merged := [];
    var i := 0;
    while i < |all|
      invariant 0 <= i <= |all|
      invariant merged == DedupFirst(all[..i])
    {
      var entry := all[i];
      assert all[..i + 1][..i] == all[..i];
      if !HasId(merged, entry.id) {
        merged := merged + [entry];
      }
      i := i + 1;
    }
    assert all[..|all|] == all;
  }

  function IdSet(xs: seq<AuditEntry>): set<string> {
    set k | 0 <= k < |xs| :: xs[k].id
  }

  /** The merged log has no two entries with the same id. */
  lemma {:induction false} DedupDistinct(xs: seq<AuditEntry>)
    ensures forall i, j :: 0 <= i < j < |DedupFirst(xs)| ==> DedupFirst(xs)[i].id != DedupFirst(xs)[j].id
  {
    if xs != [] {
      DedupDistinct(xs[..|xs| - 1]);
    }
  }

  /** No id is lost and none is invented, and every entry comes from the input. */
  lemma {:induction false} DedupKeepsIds(xs: seq<AuditEntry>)
    ensures IdSet(DedupFirst(xs)) == IdSet(xs)
    ensures forall e :: e in DedupFirst(xs) ==> e in xs
  {
    if xs != [] {
      var ys := xs[..|xs| - 1];
      var x := xs[|xs| - 1];
      DedupKeepsIds(ys);
      var d := DedupFirst(ys);
      assert IdSet(xs) == IdSet(ys) + {x.id} by {
        assert forall k :: 0 <= k < |ys| ==> xs[k] == ys[k];
      }
      if HasId(d, x.id) {
        var k :| 0 <= k < |d| && d[k].id == x.id;
        assert x.id in IdSet(d);
      } else {
        var dx := d + [x];
        assert dx[|d|] == x;
        assert forall k :: 0 <= k < |d| ==> dx[k] == d[k];
        assert IdSet(dx) == IdSet(d) + {x.id};
      }
    }
  }

  /** Deduplicating a longer log extends the deduplication of its prefix. */
  lemma {:induction false} DedupPrefix(a: seq<AuditEntry>, b: seq<AuditEntry>)
    ensures |DedupFirst(a)| <= |DedupFirst(a + b)|
    ensures DedupFirst(a + b)[..|DedupFirst(a)|] == DedupFirst(a)
  {
    if b == [] {
      assert a + b == a;
    } else {
      var b' := b[..|b| - 1];
      DedupPrefix(a, b');
      assert (a + b)[..|a + b| - 1] == a + b';
    }
  }

  /** Incoming entries come first and win: an entry of the result whose id
      occurs among the incoming entries is one of the incoming entries, and
      the deduplicated incoming entries are the result's prefix. */
  lemma IncomingWins(entries: seq<AuditEntry>, current: seq<AuditEntry>)
    ensures var m := DedupFirst(entries + current);
      && |DedupFirst(entries)| <= |m|
      && m[..|DedupFirst(entries)|] == DedupFirst(entries)
      && forall e :: e in m && e.id in IdSet(entries) ==> e in entries
  {
    var m := DedupFirst(entries + current);
    var p := DedupFirst(entries);
    DedupPrefix(entries, current);
    DedupDistinct(entries + current);
    DedupKeepsIds(entries);
    forall e | e in m && e.id in IdSet(entries) ensures e in entries {
      var j :| 0 <= j < |m| && m[j] == e;
      assert e.id in IdSet(p);
      var k :| 0 <= k < |p| && p[k].id == e.id;
      assert m[k] == p[k];
      assert j == k;
      assert e in p;
    }
  }

  // ---------------------------------------------------------------------
  // Archive sweep (getArchiveCandidates / runArchiveSweep)

  /** Date.now() minus the retention window. */
  function Cutoff(nowMs: int): (c: int)
    ensures c == nowMs - 60 * 24 * 60 * 60 * 1000
  {
    nowMs - ArchiveAfterDays * MillisPerDay
  }

  /** `Date.parse(x) <= cutoff`, false for NaN. */
  predicate AtOrBefore(t: ParsedTime, cutoff: int) {
    t.At? && t.ms <= cutoff
  }

  /** The sweep's payment test: nothing is owed, or the paid amount covers the total. */
  predicate PaidForSweep(j: Job) {
    var total := ItemsTotal(j.items);
    total <= 0.0 || j.totalPaid.GetOr(0.0) >= total
  }

  predicate IsArchiveCandidate(j: Job, nowMs: int, parse: string -> ParsedTime) {
    if IsTrue(j.isArchived) then false
    else if IsTrue(j.isDeleted) && Truthy(j.deletedAt) then AtOrBefore(parse(j.deletedAt.value), Cutoff(nowMs))
    else if j.status == StatusComplete && Truthy(j.completedAt) then
      PaidForSweep(j) && AtOrBefore(parse(j.completedAt.value), Cutoff(nowMs))
    else false
  }

  /** The ids of the jobs the sweep archives, in list order. */
  function ArchiveCandidates(jobs: seq<Job>, nowMs: int, parse: string -> ParsedTime): (ids: seq<string>)
    ensures forall i :: 0 <= i < |jobs| && IsArchiveCandidate(jobs[i], nowMs, parse) ==> jobs[i].id in ids
    ensures forall id :: id in ids ==>
      exists i :: 0 <= i < |jobs| && jobs[i].id == id && IsArchiveCandidate(jobs[i], nowMs, parse)
  {
    if jobs == [] then []
    else
      var rest := ArchiveCandidates(jobs[1..], nowMs, parse);
      assert forall i :: 1 <= i < |jobs| ==> jobs[i] == jobs[1..][i - 1];
      if IsArchiveCandidate(jobs[0], nowMs, parse) then [jobs[0].id] + rest else rest
  }

  /** The three branches of the rule: archived jobs never qualify; a deleted job
      with a deletion time qualifies iff that time is at or before the cutoff,
      whatever it owes; a completed job qualifies iff it is paid for and its
      completion time is at or before the cutoff. */
  lemma ArchiveRule(j: Job, nowMs: int, parse: string -> ParsedTime)
    ensures IsTrue(j.isArchived) ==> !IsArchiveCandidate(j, nowMs, parse)
    ensures !IsTrue(j.isArchived) && IsTrue(j.isDeleted) && Truthy(j.deletedAt) ==>
      (IsArchiveCandidate(j, nowMs, parse) <==> parse(j.deletedAt.value).At? && parse(j.deletedAt.value).ms <= nowMs - 5184000000)
    ensures !IsTrue(j.isArchived) && !(IsTrue(j.isDeleted) && Truthy(j.deletedAt))
            && j.status == StatusComplete && Truthy(j.completedAt) ==>
      (IsArchiveCandidate(j, nowMs, parse) <==>
        PaidForSweep(j) && parse(j.completedAt.value).At? && parse(j.completedAt.value).ms <= nowMs - 5184000000)
    ensures !(IsTrue(j.isDeleted) && Truthy(j.deletedAt)) && !(j.status == StatusComplete && Truthy(j.completedAt)) ==>
      !IsArchiveCandidate(j, nowMs, parse)
  {
  }

  lemma {:induction false} NoCandidatesNoIds(jobs: seq<Job>, nowMs: int, parse: string -> ParsedTime)
    requires forall i :: 0 <= i < |jobs| ==> !IsArchiveCandidate(jobs[i], nowMs, parse)
    ensures ArchiveCandidates(jobs, nowMs, parse) == []
  {
    if jobs != [] {
      NoCandidatesNoIds(jobs[1..], nowMs, parse);
    }
  }

  /** After the sweep's ARCHIVE_JOBS, a second sweep finds nothing to archive. */
  lemma {:induction false} SweepLeavesNoCandidates(s: JR.JobState, nowMs: int, parse: string -> ParsedTime,
                                                   at: string, c: JR.Clock)
    ensures var r := JR.Reduce(s, JR.ArchiveJobs(ArchiveCandidates(s.jobs, nowMs, parse), at), c);
      ArchiveCandidates(r.jobs, nowMs, parse) == []
  {
    var ids := ArchiveCandidates(s.jobs, nowMs, parse);
    var r := JR.Reduce(s, JR.ArchiveJobs(ids, at), c);
    forall i | 0 <= i < |r.jobs| ensures !IsArchiveCandidate(r.jobs[i], nowMs, parse) {
      if s.jobs[i].id in ids {
        assert IsTrue(r.jobs[i].isArchived);
      } else {
        assert r.jobs[i] == s.jobs[i];
      }
    }
    NoCandidatesNoIds(r.jobs, nowMs, parse);
  }
}
