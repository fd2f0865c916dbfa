/** The jobs slice of the store: the job list and the audit log, changed by
    ten kinds of action. The reducer is pure; the clock reading and the fresh
    audit id it would read from `Date` and `Math.random` are passed in. */
module JobReducer {
  import opened Base
  import opened Model
  import opened Lists

  /** What a dispatch reads from the environment: the ISO time stamp used for
      every `new Date().toISOString()` and the id of the audit entry it creates. */
  datatype Clock = Clock(now: string, auditId: string)

  datatype JobState = JobState(jobs: seq<Job>, audit: seq<AuditEntry>)

  const InitialJobState := JobState([], [])

  /** The actions of this slice. `Other` stands for any action of another
      slice, which every slice reducer also receives. */
  datatype JobAction =
    | AddJob(job: Job)
    | UpdateJobStatus(id: string, status: string)
    | UpdateJob(job: Job)
    | DeleteJob(id: string, deletedAt: string)
    | RestoreJob(id: string)
    | ClearJobs
    | SetJobs(jobs: seq<Job>)
    | ReplaceJobs(jobs: seq<Job>)
    | SetAudit(audit: seq<AuditEntry>)
    | ArchiveJobs(ids: seq<string>, archivedAt: string)
    | Other

  /** The `deleteJob` action creator stamps the deletion with the current time. */
  function DeleteJobAt(id: string, c: Clock): (a: JobAction)
    ensures a.DeleteJob? && a.id == id && a.deletedAt == c.now
  {
    DeleteJob(id, c.now)
  }

  /** The actions that prepend an audit entry. */
  predicate Audited(a: JobAction) {
    !(a.ReplaceJobs? || a.SetAudit? || a.Other?)
  }

  function JobId(j: Job): string { j.id }

  function Ids(jobs: seq<Job>): seq<string> { Map(jobs, JobId) }

  function CreateAudit(c: Clock, action: string, jobId: Option<string>, summary: string): AuditEntry {
    AuditEntry(c.auditId, jobId, action, c.now, summary, None)
  }

  function WithUpdatedAt(j: Job, now: string): Job {
    j.(updatedAt := Some(now))
  }

  // ---------------------------------------------------------------------
  // One job at a time

  /** The job after UPDATE_JOB_STATUS. */
  function StatusSet(j: Job, status: string, now: string): (r: Job)
    ensures r.status == status && r.updatedAt == Some(now)
    ensures r.completedAt.Some? <==> status == StatusComplete
    ensures r.completedAt.Some? ==> r.completedAt.value == now
    ensures r.(status := j.status, completedAt := j.completedAt, updatedAt := j.updatedAt) == j
  {
    WithUpdatedAt(j.(status := status, completedAt := if status == StatusComplete then Some(now) else None), now)
  }

  /** The job after DELETE_JOB: a soft delete. */
  function SoftDeleted(j: Job, deletedAt: string, now: string): (r: Job)
    ensures r.isDeleted == Some(true) && r.deletedAt == Some(deletedAt) && r.updatedAt == Some(now)
    ensures r.(isDeleted := j.isDeleted, deletedAt := j.deletedAt, updatedAt := j.updatedAt) == j
  {
    WithUpdatedAt(j.(isDeleted := Some(true), deletedAt := Some(deletedAt)), now)
  }

  /** The job after RESTORE_JOB. */
  function Restored(j: Job, now: string): (r: Job)
    ensures r.isDeleted == Some(false) && r.deletedAt.None?
    ensures r.isArchived == Some(false) && r.archivedAt.None?
    ensures r.completedAt.Some? <==> Truthy(j.completedAt)
    ensures r.completedAt.Some? ==> r.completedAt.value == now
    ensures r.updatedAt == Some(now)
    ensures r.(isDeleted := j.isDeleted, deletedAt := j.deletedAt, isArchived := j.isArchived,
               archivedAt := j.archivedAt, completedAt := j.completedAt, updatedAt := j.updatedAt) == j
  {
    WithUpdatedAt(j.(isDeleted := Some(false), deletedAt := None, isArchived := Some(false),
                     archivedAt := None, completedAt := if Truthy(j.completedAt) then Some(now) else None), now)
  }

  /** A job of a SET_JOBS payload as stored. */
  function Imported(j: Job, now: string): (r: Job)
    ensures Truthy(j.updatedAt) ==> r.updatedAt == j.updatedAt
    ensures !Truthy(j.updatedAt) ==> r.updatedAt == Some(now)
    ensures r.isArchived == Some(j.isArchived == Some(true))
    ensures r.(updatedAt := j.updatedAt, isArchived := j.isArchived) == j
  {
    j.(updatedAt := Some(OrString(j.updatedAt, now)), isArchived := Some(IsTrue(j.isArchived)))
  }

  /** A job after ARCHIVE_JOBS, when its id is listed. */
  function Archived(j: Job, archivedAt: string): (r: Job)
    ensures r.isArchived == Some(true) && r.archivedAt == Some(archivedAt)
    ensures r.(isArchived := j.isArchived, archivedAt := j.archivedAt) == j
  {
    j.(isArchived := Some(true), archivedAt := Some(archivedAt))
  }

  // ---------------------------------------------------------------------
  // The job list under each action

  /** UPDATE_JOB_STATUS on the list: only jobs with the id change. */
  function ApplyStatus(jobs: seq<Job>, id: string, status: string, now: string): (r: seq<Job>)
    ensures |r| == |jobs|
    ensures forall i :: 0 <= i < |jobs| ==> r[i] == if jobs[i].id == id then StatusSet(jobs[i], status, now) else jobs[i]
  {
    MapWhere(jobs, JobId, id, j => StatusSet(j, status, now))
  }

  /** UPDATE_JOB on the list: the job with the payload's id is replaced by the
      payload, restamped. */
  function ApplyUpdate(jobs: seq<Job>, payload: Job, now: string): (r: seq<Job>)
    ensures |r| == |jobs|
    ensures forall i :: 0 <= i < |jobs| && jobs[i].id == payload.id ==>
      r[i] == payload.(updatedAt := Some(now))
    ensures forall i :: 0 <= i < |jobs| && jobs[i].id != payload.id ==> r[i] == jobs[i]
  {
    MapWhere(jobs, JobId, payload.id, j => WithUpdatedAt(payload, now))
  }

  function ApplyDelete(jobs: seq<Job>, id: string, deletedAt: string, now: string): (r: seq<Job>)
    ensures |r| == |jobs|
    ensures forall i :: 0 <= i < |jobs| ==> r[i] == if jobs[i].id == id then SoftDeleted(jobs[i], deletedAt, now) else jobs[i]
  {
    MapWhere(jobs, JobId, id, j => SoftDeleted(j, deletedAt, now))
  }

  function ApplyRestore(jobs: seq<Job>, id: string, now: string): (r: seq<Job>)
    ensures |r| == |jobs|
    ensures forall i :: 0 <= i < |jobs| ==> r[i] == if jobs[i].id == id then Restored(jobs[i], now) else jobs[i]
  {
    MapWhere(jobs, JobId, id, j => Restored(j, now))
  }

  function ApplyImport(jobs: seq<Job>, now: string): (r: seq<Job>)
    ensures |r| == |jobs|
    ensures forall i :: 0 <= i < |jobs| ==> r[i] == Imported(jobs[i], now)
  {
    Map(jobs, (j: Job) => Imported(j, now))
  }

  function ApplyArchive(jobs: seq<Job>, ids: seq<string>, archivedAt: string): (r: seq<Job>)
    ensures |r| == |jobs|
    ensures forall i :: 0 <= i < |jobs| ==> r[i] == if jobs[i].id in ids then Archived(jobs[i], archivedAt) else jobs[i]
  {
    Map(jobs, (j: Job) => if j.id in ids then Archived(j, archivedAt) else j)
  }

  /** The state after ARCHIVE_JOBS. */
  function Archive(s: JobState, ids: seq<string>, archivedAt: string, c: Clock): JobState {
    JobState(ApplyArchive(s.jobs, ids, archivedAt),
             [CreateAudit(c, ActionJobsCleared, None,
                          "Archived " + IntToString(|ids|) + " jobs after retention window.")] + s.audit)
  }

  // ---------------------------------------------------------------------
  // The reducer

  function Reduce(s: JobState, a: JobAction, c: Clock): (r: JobState)
    ensures Audited(a) ==> |r.audit| == |s.audit| + 1 && r.audit[1..] == s.audit
    ensures Audited(a) ==> r.audit[0].id == c.auditId && r.audit[0].timestamp == c.now
    ensures !Audited(a) && !a.SetAudit? ==> r.audit == s.audit
  {
    match a
    case AddJob(job) =>
      JobState([WithUpdatedAt(job, c.now)] + s.jobs,
               [CreateAudit(c, ActionJobCreated, Some(job.id), "Job " + job.id + " created for " + job.customerName + ".")] + s.audit)
    case UpdateJobStatus(id, status) =>
      JobState(ApplyStatus(s.jobs, id, status, c.now),
               [CreateAudit(c, ActionStatusUpdated, Some(id), "Job " + id + " status set to " + status + ".")] + s.audit)
    case UpdateJob(job) =>
      JobState(ApplyUpdate(s.jobs, job, c.now),
               [CreateAudit(c, ActionJobUpdated, Some(job.id), "Job " + job.id + " updated.")] + s.audit)
    case DeleteJob(id, deletedAt) =>
      JobState(ApplyDelete(s.jobs, id, deletedAt, c.now),
               [CreateAudit(c, ActionJobDeleted, Some(id), "Job " + id + " deleted.")] + s.audit)
    case RestoreJob(id) =>
      JobState(ApplyRestore(s.jobs, id, c.now),
               [CreateAudit(c, ActionJobRestored, Some(id), "Job " + id + " restored.")] + s.audit)
    case ClearJobs =>
      JobState([], [CreateAudit(c, ActionJobsCleared, None, "All jobs cleared from the board.")] + s.audit)
    case SetJobs(jobs) =>
      JobState(ApplyImport(jobs, c.now),
               [CreateAudit(c, ActionJobsImported, None, "Imported " + IntToString(|jobs|) + " jobs.")] + s.audit)
    case ReplaceJobs(jobs) =>
      s.(jobs := jobs)
    case ArchiveJobs(ids, archivedAt) =>
      Archive(s, ids, archivedAt, c)
    case SetAudit(audit) =>
      s.(audit := audit)
    case Other =>
      s
  }

  // ---------------------------------------------------------------------
  // Properties

  /** ADD_JOB puts the stamped job in front; the old jobs follow unchanged and in order. */
  lemma AddJobPrepends(s: JobState, j: Job, c: Clock)
    ensures Reduce(s, AddJob(j), c).jobs[0] == j.(updatedAt := Some(c.now))
    ensures Reduce(s, AddJob(j), c).jobs[1..] == s.jobs
    ensures Reduce(s, AddJob(j), c).audit[0].action == ActionJobCreated
    ensures Reduce(s, AddJob(j), c).audit[0].jobId == Some(j.id)
  {
  }

  /** The per-job actions keep the list length and every job's id in place. */
  lemma {:induction false} PerJobActionsKeepIds(s: JobState, a: JobAction, c: Clock)
    requires a.UpdateJobStatus? || a.UpdateJob? || a.DeleteJob? || a.RestoreJob? || a.ArchiveJobs?
    ensures Ids(Reduce(s, a, c).jobs) == Ids(s.jobs)
  {
    var r := Reduce(s, a, c).jobs;
    assert |r| == |s.jobs|;
    forall i | 0 <= i < |r| ensures r[i].id == s.jobs[i].id {
    }
    assert Ids(r) == Ids(s.jobs);
  }

  /** A job whose id differs from the action's target is left as it was. */
  lemma OthersUntouched(s: JobState, a: JobAction, c: Clock, i: nat)
    requires a.UpdateJobStatus? || a.DeleteJob? || a.RestoreJob?
    requires i < |s.jobs| && s.jobs[i].id != a.id
    ensures Reduce(s, a, c).jobs[i] == s.jobs[i]
  {
  }

  /** ARCHIVE_JOBS changes exactly the archive fields of the listed jobs: status,
      payment, deletion and `updatedAt` stay as they were. */
  lemma ArchiveTouchesOnlyArchiveFields(s: JobState, ids: seq<string>, at: string, c: Clock, i: nat)
    requires i < |s.jobs|
    ensures var r := Reduce(s, ArchiveJobs(ids, at), c).jobs[i];
      && (r.isArchived == Some(true) <==> s.jobs[i].id in ids || s.jobs[i].isArchived == Some(true))
      && r.updatedAt == s.jobs[i].updatedAt && r.status == s.jobs[i].status
      && r.totalPaid == s.jobs[i].totalPaid && r.isDeleted == s.jobs[i].isDeleted
  {
  }

  /** CLEAR_JOBS empties the list; an action of another slice changes nothing. */
  lemma ClearAndOther(s: JobState, c: Clock)
    ensures Reduce(s, ClearJobs, c).jobs == []
    ensures Reduce(s, Other, c) == s
  {
  }

  /** Every audit action the reducer writes is one of the seven declared ones. */
  lemma AuditActionsDeclared(s: JobState, a: JobAction, c: Clock)
    requires Audited(a)
    ensures Reduce(s, a, c).audit[0].action in AuditActions
  {
  }

  /** SET_JOBS keeps payload order and length and only fills in `updatedAt` and
      `isArchived`. */
  lemma SetJobsKeepsPayload(s: JobState, jobs: seq<Job>, c: Clock)
    ensures |Reduce(s, SetJobs(jobs), c).jobs| == |jobs|
    ensures Ids(Reduce(s, SetJobs(jobs), c).jobs) == Ids(jobs)
    ensures forall i :: 0 <= i < |jobs| && Truthy(jobs[i].updatedAt) ==>
      Reduce(s, SetJobs(jobs), c).jobs[i].updatedAt == jobs[i].updatedAt
  {
    var r := Reduce(s, SetJobs(jobs), c).jobs;
    assert Ids(r) == Ids(jobs);
  }
}
