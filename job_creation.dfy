/** The job creation screen: the live job count in its header, the id the
    next job will get, the customers offered to the form, and the job built
    from a submitted draft. */
module JobCreation {
  import opened Base
  import opened Model
  import opened Lists
  import Ids
  import JF = JobForm
  import JR = JobReducer

  /** `!job.isDeleted && !job.isArchived`: a missing flag counts as false. */
  predicate Active(j: Job) {
    !IsTrue(j.isDeleted) && !IsTrue(j.isArchived)
  }

  /** `jobCount`: the number of jobs neither deleted nor archived. */
  function JobCount(jobs: seq<Job>): (n: nat)
    ensures n <= |jobs|
  {
    |Filter(jobs, Active)|
  }

  /** The count and the number of deleted or archived jobs make up the
      whole list, and the count is zero exactly when no job is active. */
  lemma JobCountSplits(jobs: seq<Job>)
    ensures JobCount(jobs) + |Filter(jobs, (j: Job) => !Active(j))| == |jobs|
    ensures JobCount(jobs) == 0 <==> forall i :: 0 <= i < |jobs| ==> !Active(jobs[i])
  {
    FilterComplement(jobs, Active, (j: Job) => !Active(j));
    FilterEmpty(jobs, Active);
  }

  /** The count over a list with one more job in front goes up by one
      exactly when that job is active. */
  lemma JobCountCons(j: Job, jobs: seq<Job>)
    ensures JobCount([j] + jobs) == JobCount(jobs) + if Active(j) then 1 else 0
  {
    FilterConcat([j], jobs, Active);
    assert Filter([j], Active) == if Active(j) then [j] else [] by {
      assert [j][1..] == [];
    }
  }

  /** `handleSubmit`'s job: the next id, status 'not started', then the
      draft's fields. Everything the draft does not carry is left unset. */
  function Submit(draft: JF.JobDraft, jobs: seq<Job>): (j: Job)
    ensures j.id == Ids.NextJobId(jobs) && j.status == StatusNotStarted
    ensures j.customerName == draft.customerName && j.phoneNumber == draft.phoneNumber
    ensures j.address == draft.address && j.description == draft.description
    ensures j.invoiceNumber == draft.invoiceNumber && j.quoteNumber == draft.quoteNumber
    ensures j.importance == draft.importance && j.date == draft.date
    ensures j.estimatedDispatchDate == draft.estimatedDispatchDate && j.category == draft.category
    ensures j.items == draft.items && j.measurements == draft.measurements
    ensures j.attachments == draft.attachments && j.totalPaid == draft.totalPaid
    ensures j.paymentHistory.None? && j.updatedAt.None? && j.completedAt.None?
    ensures j.isDeleted.None? && j.deletedAt.None? && j.isArchived.None? && j.archivedAt.None?
  {
    Job(Ids.NextJobId(jobs), draft.category, draft.customerName, draft.phoneNumber, draft.address,
        draft.invoiceNumber, draft.quoteNumber, draft.importance, draft.description, draft.date,
        draft.estimatedDispatchDate, draft.items, StatusNotStarted, draft.measurements,
        draft.attachments, draft.totalPaid, None, None, None, None, None, None, None)
  }

  /** Dispatching `addJob` with the submitted job puts it first in the
      store: its id is no other job's id, it reads back as a number above
      every readable id, and the live count goes up by one. */
  lemma SubmitAddsNewJob(draft: JF.JobDraft, s: JR.JobState, c: JR.Clock)
    ensures var after := JR.Reduce(s, JR.AddJob(Submit(draft, s.jobs)), c);
      && |after.jobs| == |s.jobs| + 1
      && after.jobs[0].id == Ids.NextJobId(s.jobs)
      && after.jobs[0].status == StatusNotStarted
      && after.jobs[1..] == s.jobs
      && (forall i :: 0 <= i < |s.jobs| ==> s.jobs[i].id != after.jobs[0].id)
      && JobCount(after.jobs) == JobCount(s.jobs) + 1
  {
    var j := Submit(draft, s.jobs);
    JR.AddJobPrepends(s, j, c);
    Ids.NextJobIdIsNew(s.jobs);
    var after := JR.Reduce(s, JR.AddJob(j), c);
    assert after.jobs == [after.jobs[0]] + s.jobs;
    JobCountCons(after.jobs[0], s.jobs);
  }
}
