/** The store's sync engine: applying remote lists (last writer wins), the
    audit union, the archive sweep, the outbound-sync gate with its audit
    watermark, and the manual sync and refresh entry points. The debounce
    timer is a "push pending" flag; the network replies, the clock and
    `Date.parse` are parameters. */
module Sync {
  import opened Base
  import opened Model
  import opened Lists
  import JR = JobReducer
  import QR = QueryReducer
  import BR = BookingReducer
  import opened Store
  import opened SupabaseSync

  // ---------------------------------------------------------------------
  // What each step does to the store

  /** The dispatches the engine makes: REPLACE_JOBS, SET_AUDIT,
      REPLACE_QUERIES and REPLACE_BOOKINGS install their payload verbatim and
      touch nothing else; ARCHIVE_JOBS changes only the jobs slice. */
  lemma EngineDispatches(s: RootState, jobs: seq<Job>, audit: seq<AuditEntry>, queries: seq<Query>,
                         bookings: seq<Booking>, ids: seq<string>, c: JR.Clock)
    ensures RootReduce(s, JobsAction(JR.ReplaceJobs(jobs)), c) == s.(jobs := s.jobs.(jobs := jobs))
    ensures RootReduce(s, JobsAction(JR.SetAudit(audit)), c) == s.(jobs := s.jobs.(audit := audit))
    ensures RootReduce(s, QueriesAction(QR.ReplaceQueries(queries)), c) == s.(queries := QR.QueryState(queries))
    ensures RootReduce(s, BookingsAction(BR.ReplaceBookings(bookings)), c) == s.(bookings := BR.BookingState(bookings))
    ensures RootReduce(s, JobsAction(JR.ArchiveJobs(ids, c.now)), c) == s.(jobs := JR.Archive(s.jobs, ids, c.now, c))
  {
  }

  /** `runArchiveSweep`: one ARCHIVE_JOBS for all candidates, or nothing when
      there are none. */
  function Swept(s: RootState, nowMs: int, parse: string -> ParsedTime, c: JR.Clock): (r: RootState)
    ensures r.queries == s.queries && r.bookings == s.bookings
  {
    var candidates := ArchiveCandidates(s.jobs.jobs, nowMs, parse);
    if |candidates| == 0 then s else s.(jobs := JR.Archive(s.jobs, candidates, c.now, c))
  }

  /** After the sweep no job is left to archive, and every job keeps its
      place and id. */
  lemma SweptSettles(s: RootState, nowMs: int, parse: string -> ParsedTime, c: JR.Clock)
    ensures ArchiveCandidates(Swept(s, nowMs, parse, c).jobs.jobs, nowMs, parse) == []
    ensures JR.Ids(Swept(s, nowMs, parse, c).jobs.jobs) == JR.Ids(s.jobs.jobs)
  {
    var candidates := ArchiveCandidates(s.jobs.jobs, nowMs, parse);
    if |candidates| != 0 {
      assert JR.Reduce(s.jobs, JR.ArchiveJobs(candidates, c.now), c) == JR.Archive(s.jobs, candidates, c.now, c);
      SweepLeavesNoCandidates(s.jobs, nowMs, parse, c.now, c);
      JR.PerJobActionsKeepIds(s.jobs, JR.ArchiveJobs(candidates, c.now), c);
    }
  }

  function MergedJobs(s: RootState, remote: seq<Job>, parse: string -> ParsedTime): seq<Job> {
    MergeRemote(s.jobs.jobs, remote, JR.JobId, JobStamp, parse)
  }

  /** `applyRemoteJobs`: the merged list replaces the jobs (REPLACE_JOBS, see
      `EngineDispatches`), then the sweep runs. */
  function AfterRemoteJobs(s: RootState, remote: seq<Job>, parse: string -> ParsedTime, nowMs: int,
                           c: JR.Clock): RootState
  {
    Swept(s.(jobs := s.jobs.(jobs := MergedJobs(s, remote, parse))), nowMs, parse, c)
  }

  /** After remote jobs are applied the store holds exactly the remote ids, in
      remote order (a job only this client has is gone), nothing is left to
      archive, and queries and bookings are untouched. */
  lemma AfterRemoteJobsMirrorsRemote(s: RootState, remote: seq<Job>, parse: string -> ParsedTime, nowMs: int,
                                     c: JR.Clock)
    ensures var r := AfterRemoteJobs(s, remote, parse, nowMs, c);
      && JR.Ids(r.jobs.jobs) == JR.Ids(remote)
      && ArchiveCandidates(r.jobs.jobs, nowMs, parse) == []
      && r.queries == s.queries && r.bookings == s.bookings
  {
    var replaced := s.(jobs := s.jobs.(jobs := MergedJobs(s, remote, parse)));
    MergeKeepsRemoteIds(s.jobs.jobs, remote, JR.JobId, JobStamp, parse);
    SweptSettles(replaced, nowMs, parse, c);
  }

  /** `applyRemoteAudit`: nothing for an empty list, else the union by id with
      the incoming entries first. */
  function AfterRemoteAudit(s: RootState, entries: seq<AuditEntry>, c: JR.Clock): RootState {
    if |entries| == 0 then s
    else s.(jobs := s.jobs.(audit := DedupFirst(entries + s.jobs.audit)))
  }

  /** The audit union loses no id and invents none, keeps ids distinct, starts
      with the incoming entries, and changes nothing else in the store. */
  lemma AfterRemoteAuditIsUnion(s: RootState, entries: seq<AuditEntry>, c: JR.Clock)
    requires |entries| > 0
    ensures var r := AfterRemoteAudit(s, entries, c);
      && IdSet(r.jobs.audit) == IdSet(entries) + IdSet(s.jobs.audit)
      && (forall i, j :: 0 <= i < j < |r.jobs.audit| ==> r.jobs.audit[i].id != r.jobs.audit[j].id)
      && |DedupFirst(entries)| <= |r.jobs.audit|
      && r.jobs.audit[..|DedupFirst(entries)|] == DedupFirst(entries)
      && r.jobs.jobs == s.jobs.jobs && r.queries == s.queries && r.bookings == s.bookings
  {
    var all := entries + s.jobs.audit;
    DedupKeepsIds(all);
    DedupDistinct(all);
    IncomingWins(entries, s.jobs.audit);
    assert IdSet(all) == IdSet(entries) + IdSet(s.jobs.audit) by {
      forall id | id in IdSet(all) ensures id in IdSet(entries) + IdSet(s.jobs.audit) {
        var k :| 0 <= k < |all| && all[k].id == id;
        if k < |entries| {
          assert all[k] == entries[k];
        } else {
          assert all[k] == s.jobs.audit[k - |entries|];
        }
      }
      forall id | id in IdSet(entries) + IdSet(s.jobs.audit) ensures id in IdSet(all) {
        if id in IdSet(entries) {
          var k :| 0 <= k < |entries| && entries[k].id == id;
          assert all[k] == entries[k];
        } else {
          var k :| 0 <= k < |s.jobs.audit| && s.jobs.audit[k].id == id;
          assert all[|entries| + k] == s.jobs.audit[k];
        }
      }
    }
  }

  /** `applyRemoteQueries`: the merged list replaces the queries. */
  function AfterRemoteQueries(s: RootState, remote: seq<Query>, parse: string -> ParsedTime, c: JR.Clock): RootState {
    s.(queries := QR.QueryState(MergeRemote(s.queries.queries, remote, QR.QueryId, QueryStamp, parse)))
  }

  /** `applyRemoteBookings`: the merged list replaces the bookings. */
  function AfterRemoteBookings(s: RootState, remote: seq<Booking>, parse: string -> ParsedTime, c: JR.Clock): RootState {
    s.(bookings := BR.BookingState(MergeRemote(s.bookings.bookings, remote, BR.BookingId, BookingStamp, parse)))
  }

  /** Queries and bookings, too, end up with exactly the remote ids in remote
      order, and each touches only its own slice. */
  lemma AfterRemoteQueriesAndBookingsMirrorRemote(s: RootState, queries: seq<Query>, bookings: seq<Booking>,
                                                  parse: string -> ParsedTime, c: JR.Clock)
    ensures var r := AfterRemoteQueries(s, queries, parse, c);
      Map(r.queries.queries, QR.QueryId) == Map(queries, QR.QueryId) && r.jobs == s.jobs && r.bookings == s.bookings
    ensures var r := AfterRemoteBookings(s, bookings, parse, c);
      Map(r.bookings.bookings, BR.BookingId) == Map(bookings, BR.BookingId) && r.jobs == s.jobs && r.queries == s.queries
  {
    MergeKeepsRemoteIds(s.queries.queries, queries, QR.QueryId, QueryStamp, parse);
    MergeKeepsRemoteIds(s.bookings.bookings, bookings, BR.BookingId, BookingStamp, parse);
  }

  /** `triggerManualRefresh` after a download without error: each list the
      download holds is applied, jobs first, then audit, queries, bookings. */
  function Refreshed(s: RootState, f: FetchResult, parse: string -> ParsedTime, nowMs: int, c: JR.Clock): RootState {
    var s1 := if f.jobs.Some? then AfterRemoteJobs(s, f.jobs.value, parse, nowMs, c) else s;
    var s2 := if f.audit.Some? then AfterRemoteAudit(s1, f.audit.value, c) else s1;
    var s3 := if f.queries.Some? then AfterRemoteQueries(s2, f.queries.value, parse, c) else s2;
    if f.bookings.Some? then AfterRemoteBookings(s3, f.bookings.value, parse, c) else s3
  }

  /** A complete download leaves the store holding exactly the remote job,
      query and booking ids, every downloaded audit id, and nothing to
      archive. */
  lemma RefreshMirrorsRemote(s: RootState, f: FetchResult, parse: string -> ParsedTime, nowMs: int, c: JR.Clock)
    requires f.jobs.Some? && f.audit.Some? && f.queries.Some? && f.bookings.Some?
    ensures var r := Refreshed(s, f, parse, nowMs, c);
      && JR.Ids(r.jobs.jobs) == JR.Ids(f.jobs.value)
      && Map(r.queries.queries, QR.QueryId) == Map(f.queries.value, QR.QueryId)
      && Map(r.bookings.bookings, BR.BookingId) == Map(f.bookings.value, BR.BookingId)
      && IdSet(f.audit.value) <= IdSet(r.jobs.audit)
      && ArchiveCandidates(r.jobs.jobs, nowMs, parse) == []
  {
    var s1 := AfterRemoteJobs(s, f.jobs.value, parse, nowMs, c);
    AfterRemoteJobsMirrorsRemote(s, f.jobs.value, parse, nowMs, c);
    var s2 := AfterRemoteAudit(s1, f.audit.value, c);
    if |f.audit.value| > 0 {
      AfterRemoteAuditIsUnion(s1, f.audit.value, c);
    }
    var s3 := AfterRemoteQueries(s2, f.queries.value, parse, c);
    AfterRemoteQueriesAndBookingsMirrorRemote(s2, f.queries.value, [], parse, c);
    AfterRemoteQueriesAndBookingsMirrorRemote(s3, [], f.bookings.value, parse, c);
  }

  // ---------------------------------------------------------------------
  // The engine

  /** The module-level state of the store: the store's state, the copy last
      written to storage, the two gate flags, the audit watermark, the
      "push pending" flag standing for the armed debounce timer, whether the
      realtime subscription started, and the last status reported. */
  class SyncEngine {
    var state: RootState
    var saved: Option<RootState>
    var isApplyingRemote: bool
    var remoteLoaded: bool
    var lastSyncedAuditId: Option<string>
    var pushPending: bool
    var syncStarted: bool
    var status: SyncStatus
    const clientId: string

    /** A push is only ever scheduled once remote jobs have arrived, and the
        saved copy is never stale. */
    ghost predicate Valid()
      reads this`pushPending, this`remoteLoaded, this`saved, this`state
    {
      && (pushPending ==> remoteLoaded)
      && (saved.Some? ==> saved.value == state)
    }

    constructor (preloaded: RootState, clientId: string)
      ensures Valid()
      ensures state == preloaded && this.clientId == clientId && saved.None?
      ensures !isApplyingRemote && !remoteLoaded && lastSyncedAuditId.None? && !pushPending && !syncStarted
      ensures status == SyncStatus(Idle, None, None)
    {
      state := preloaded;
      this.clientId := clientId;
      saved := None;
      isApplyingRemote := false;
      remoteLoaded := false;
      lastSyncedAuditId := None;
      pushPending := false;
      syncStarted := false;
      status := SyncStatus(Idle, None, None);
    }

    /** `store.dispatch` and the subscriber: the new state is saved first;
        then a push is scheduled unless a remote merge is being applied or
        remote jobs have not arrived yet. */
    method Dispatch(a: RootAction, c: JR.Clock)
      requires Valid()
      modifies this`state, this`saved, this`pushPending
      ensures Valid()
      ensures state == RootReduce(old(state), a, c) && saved == Some(state)
      ensures pushPending == (old(pushPending) || (!isApplyingRemote && remoteLoaded))
    {
      Commit(RootReduce(state, a, c));
    }

    /** The subscriber's half of a dispatch, given the reduced state: save it,
        then schedule a push unless a remote merge is being applied or remote
        jobs have not arrived yet. The engine's own dispatches pass the state
        `EngineDispatches` shows the store reduces them to. */
    method Commit(next: RootState)
      requires Valid()
      modifies this`state, this`saved, this`pushPending
      ensures Valid()
      ensures state == next && saved == Some(next)
      ensures pushPending == (old(pushPending) || (!isApplyingRemote && remoteLoaded))
    {
      state := next;
      saved := Some(state);
      if isApplyingRemote {
        return;
      }
      if !remoteLoaded {
        return;
      }
      pushPending := true;
    }

    /** `runArchiveSweep`. */
    method RunArchiveSweep(nowMs: int, parse: string -> ParsedTime, c: JR.Clock)
      requires Valid()
      modifies this`state, this`saved, this`pushPending
      ensures Valid()
      ensures state == Swept(old(state), nowMs, parse, c)
      ensures var candidates := ArchiveCandidates(old(state).jobs.jobs, nowMs, parse);
        && pushPending == (old(pushPending) || (|candidates| > 0 && !isApplyingRemote && remoteLoaded))
        && saved == (if |candidates| == 0 then old(saved) else Some(state))
    {
      var candidates := ArchiveCandidates(state.jobs.jobs, nowMs, parse);
      if |candidates| == 0 {
        return;
      }
      // ARCHIVE_JOBS
      Commit(state.(jobs := JR.Archive(state.jobs, candidates, c.now, c)));
    }

    /** `applyRemoteJobs`: the replacement itself schedules no push, but the
        sweep that follows does when it archives something. */
    method ApplyRemoteJobs(remote: seq<Job>, parse: string -> ParsedTime, nowMs: int, c: JR.Clock)
      requires Valid()
      modifies this`state, this`saved, this`pushPending, this`isApplyingRemote, this`remoteLoaded
      ensures Valid()
      ensures state == AfterRemoteJobs(old(state), remote, parse, nowMs, c) && saved == Some(state)
      ensures remoteLoaded && !isApplyingRemote
      ensures pushPending == (old(pushPending) || |ArchiveCandidates(MergedJobs(old(state), remote, parse), nowMs, parse)| > 0)
    {
      var merged := MergeRemote(state.jobs.jobs, remote, JR.JobId, JobStamp, parse);
      isApplyingRemote := true;
      // REPLACE_JOBS
      Commit(state.(jobs := state.jobs.(jobs := merged)));
      isApplyingRemote := false;
      remoteLoaded := true;
      RunArchiveSweep(nowMs, parse, c);
    }

    /** `applyRemoteAudit`: never schedules a push. */
    method ApplyRemoteAudit(entries: seq<AuditEntry>, c: JR.Clock)
      requires Valid()
      modifies this`state, this`saved, this`pushPending, this`isApplyingRemote
      ensures Valid()
      ensures state == AfterRemoteAudit(old(state), entries, c)
      ensures saved == (if |entries| == 0 then old(saved) else Some(state))
      ensures pushPending == old(pushPending)
      ensures isApplyingRemote == (old(isApplyingRemote) && |entries| == 0)
    {
      if |entries| == 0 {
        return;
      }
      isApplyingRemote := true;
      var current := state.jobs.audit;
      var merged := MergeAudit(entries, current);
      // SET_AUDIT
      Commit(state.(jobs := state.jobs.(audit := merged)));
      isApplyingRemote := false;
    }

    /** `applyRemoteQueries`: never schedules a push. */
    method ApplyRemoteQueries(remote: seq<Query>, parse: string -> ParsedTime, c: JR.Clock)
      requires Valid()
      modifies this`state, this`saved, this`pushPending, this`isApplyingRemote
      ensures Valid()
      ensures state == AfterRemoteQueries(old(state), remote, parse, c) && saved == Some(state)
      ensures pushPending == old(pushPending) && !isApplyingRemote
    {
      var merged := MergeRemote(state.queries.queries, remote, QR.QueryId, QueryStamp, parse);
      isApplyingRemote := true;
      // REPLACE_QUERIES
      Commit(state.(queries := QR.QueryState(merged)));
      isApplyingRemote := false;
    }

    /** `applyRemoteBookings`: never schedules a push. */
    method ApplyRemoteBookings(remote: seq<Booking>, parse: string -> ParsedTime, c: JR.Clock)
      requires Valid()
      modifies this`state, this`saved, this`pushPending, this`isApplyingRemote
      ensures Valid()
      ensures state == AfterRemoteBookings(old(state), remote, parse, c) && saved == Some(state)
      ensures pushPending == old(pushPending) && !isApplyingRemote
    {
      var merged := MergeRemote(state.bookings.bookings, remote, BR.BookingId, BookingStamp, parse);
      isApplyingRemote := true;
      // REPLACE_BOOKINGS
      Commit(state.(bookings := BR.BookingState(merged)));
      isApplyingRemote := false;
    }

    /** The push and status report shared by the debounce timer and the manual
        sync: the watermark moves only when the upload reports no error. An
        empty error message is not truthy and counts as success. */
    method PushAndReport(configured: bool, jobsError: Option<string>, queriesError: Option<string>,
                         bookingsError: Option<string>, auditError: Option<string>,
                         startedAt: string, finishedAt: string)
      returns (result: PushResult)
      modifies this`status, this`lastSyncedAuditId
      ensures result == PushReport(state, clientId, old(lastSyncedAuditId), configured,
                                   jobsError, queriesError, bookingsError, auditError)
      ensures Truthy(result.error) ==>
        lastSyncedAuditId == old(lastSyncedAuditId) && status == SyncStatus(Error, result.error, Some(finishedAt))
      ensures !Truthy(result.error) ==>
        lastSyncedAuditId == result.lastAuditId && status == SyncStatus(Success, None, Some(finishedAt))
    {
      status := SyncStatus(Syncing, None, Some(startedAt));
      var upserts;
      result, upserts := Push(state, clientId, lastSyncedAuditId, configured,
                              jobsError, queriesError, bookingsError, auditError);
      if Truthy(result.error) {
        status := SyncStatus(Error, result.error, Some(finishedAt));
        return;
      }
      lastSyncedAuditId := result.lastAuditId;
      status := SyncStatus(Success, None, Some(finishedAt));
    }

    /** The debounce timer firing: the pending push runs against the state
        and the watermark of that moment. */
    method SyncTimerFires(configured: bool, jobsError: Option<string>, queriesError: Option<string>,
                          bookingsError: Option<string>, auditError: Option<string>,
                          startedAt: string, finishedAt: string)
      returns (result: PushResult)
      requires Valid() && pushPending
      modifies this`pushPending, this`status, this`lastSyncedAuditId
      ensures Valid() && !pushPending
      ensures result == PushReport(state, clientId, old(lastSyncedAuditId), configured,
                                   jobsError, queriesError, bookingsError, auditError)
      ensures lastSyncedAuditId == (if Truthy(result.error) then old(lastSyncedAuditId) else result.lastAuditId)
    {
      pushPending := false;
      result := PushAndReport(configured, jobsError, queriesError, bookingsError, auditError, startedAt, finishedAt);
    }

    /** `triggerManualSync`: nothing while a remote merge is being applied. */
    method TriggerManualSync(configured: bool, jobsError: Option<string>, queriesError: Option<string>,
                             bookingsError: Option<string>, auditError: Option<string>,
                             startedAt: string, finishedAt: string)
      returns (result: Option<PushResult>)
      modifies this`status, this`lastSyncedAuditId
      ensures old(isApplyingRemote) ==> result.None? && lastSyncedAuditId == old(lastSyncedAuditId) && status == old(status)
      ensures !old(isApplyingRemote) ==> result == Some(PushReport(state, clientId, old(lastSyncedAuditId), configured,
                                                                   jobsError, queriesError, bookingsError, auditError))
      ensures result.Some? ==>
        lastSyncedAuditId == (if Truthy(result.value.error) then old(lastSyncedAuditId) else result.value.lastAuditId)
    {
      if isApplyingRemote {
        return None;
      }
      var r := PushAndReport(configured, jobsError, queriesError, bookingsError, auditError, startedAt, finishedAt);
      result := Some(r);
    }

    /** `triggerManualRefresh`, given what the download returned: a truthy
        error changes nothing but the status; otherwise every list the
        download holds is applied, jobs first. */
    method TriggerManualRefresh(fetched: FetchResult, parse: string -> ParsedTime, nowMs: int, c: JR.Clock,
                                startedAt: string, finishedAt: string)
      requires Valid()
      modifies this`state, this`saved, this`pushPending, this`isApplyingRemote, this`remoteLoaded, this`status
      ensures Valid()
      ensures Truthy(fetched.error) ==>
        state == old(state) && remoteLoaded == old(remoteLoaded) && status == SyncStatus(Error, fetched.error, Some(finishedAt))
      ensures !Truthy(fetched.error) ==>
        && state == Refreshed(old(state), fetched, parse, nowMs, c)
        && remoteLoaded == (old(remoteLoaded) || fetched.jobs.Some?)
        && status == SyncStatus(Success, None, Some(finishedAt))
    {
      status := SyncStatus(Syncing, None, Some(startedAt));
      var result := fetched;
      if Truthy(result.error) {
        status := SyncStatus(Error, result.error, Some(finishedAt));
        return;
      }
      ApplyDownload(result, parse, nowMs, c);
      status := SyncStatus(Success, None, Some(finishedAt));
    }

    /** The lists of a download without error, applied in the order jobs,
        audit, queries, bookings; a list the download lacks is skipped. */
    method ApplyDownload(fetched: FetchResult, parse: string -> ParsedTime, nowMs: int, c: JR.Clock)
      requires Valid()
      modifies this`state, this`saved, this`pushPending, this`isApplyingRemote, this`remoteLoaded
      ensures Valid()
      ensures state == Refreshed(old(state), fetched, parse, nowMs, c)
      ensures remoteLoaded == (old(remoteLoaded) || fetched.jobs.Some?)
    {
      ghost var s0 := state;
      if fetched.jobs.Some? {
        ApplyRemoteJobs(fetched.jobs.value, parse, nowMs, c);
      }
      ghost var s1 := state;
      assert s1 == if fetched.jobs.Some? then AfterRemoteJobs(s0, fetched.jobs.value, parse, nowMs, c) else s0;
      if fetched.audit.Some? {
        ApplyRemoteAudit(fetched.audit.value, c);
      }
      ghost var s2 := state;
      assert s2 == if fetched.audit.Some? then AfterRemoteAudit(s1, fetched.audit.value, c) else s1;
      if fetched.queries.Some? {
        ApplyRemoteQueries(fetched.queries.value, parse, c);
      }
      ghost var s3 := state;
      assert s3 == if fetched.queries.Some? then AfterRemoteQueries(s2, fetched.queries.value, parse, c) else s2;
      if fetched.bookings.Some? {
        ApplyRemoteBookings(fetched.bookings.value, parse, c);
      }
    }

    /** `tryStartSync`: starts once, only with a database client, and only
        when the subscription came up (`subscribed` is whether it returned a
        cleanup function). */
    method TryStartSync(configured: bool, subscribed: bool)
      modifies this`syncStarted
      ensures syncStarted == (old(syncStarted) || (configured && subscribed))
    {
      if syncStarted {
        return;
      }
      if !configured {
        return;
      }
      if subscribed {
        syncStarted := true;
      }
    }

    /** A realtime audit insert: dropped when it carries this client's id,
        otherwise applied as a one-entry remote audit list. */
    method OnRealtimeAudit(row: AuditRow, c: JR.Clock)
      requires Valid()
      modifies this`state, this`saved, this`pushPending, this`isApplyingRemote
      ensures Valid()
      ensures var e := RealtimeAudit(row, clientId);
        state == (if e.Some? then AfterRemoteAudit(old(state), [e.value], c) else old(state))
      ensures pushPending == old(pushPending)
    {
      var entry := RealtimeAudit(row, clientId);
      if entry.None? {
        return;
      }
      ApplyRemoteAudit([entry.value], c);
    }
  }
}
