/** The queries screen: phone enquiries that are not yet jobs. It lists the
    live or the deleted queries filtered by a search term, adds a query
    from the quick-add form and converts a query into a job. */
module Queries {
  import opened Base
  import opened Model
  import opened Lists
  import Ids
  import Formatters
  import JR = JobReducer
  import QR = QueryReducer

  // -------------------------------------------------------------------
  // The two lists and the search

  predicate IsDeletedQuery(q: Query) {
    IsTrue(q.isDeleted)
  }

  /** `activeQueries`. */
  function ActiveQueries(queries: seq<Query>): seq<Query> {
    Filter(queries, (q: Query) => !IsDeletedQuery(q))
  }

  /** `deletedQueries`. */
  function DeletedQueries(queries: seq<Query>): seq<Query> {
    Filter(queries, (q: Query) => IsDeletedQuery(q))
  }

  /** Every query is in exactly one of the two lists, as often as it is in
      the store, and each list holds only its kind. */
  lemma ActiveDeletedPartition(queries: seq<Query>, x: Query)
    ensures multiset(ActiveQueries(queries))[x] + multiset(DeletedQueries(queries))[x] == multiset(queries)[x]
    ensures x in ActiveQueries(queries) ==> !IsDeletedQuery(x)
    ensures x in DeletedQueries(queries) ==> IsDeletedQuery(x)
  {
    FilterCount(queries, (q: Query) => !IsDeletedQuery(q), x);
    FilterCount(queries, (q: Query) => IsDeletedQuery(q), x);
  }

  /** The search test: the lower-cased term, not trimmed, is a substring of
      the lower-cased name, phone number, id or description. */
  predicate SearchMatches(q: Query, term: string) {
    var search := Lower(term);
    Contains(Lower(q.customerName), search) || Contains(Lower(q.phoneNumber), search)
      || Contains(Lower(q.id), search) || Contains(Lower(q.description), search)
  }

  /** `filteredQueries`: the chosen list, searched unless the term is blank
      once trimmed. */
  function FilteredQueries(queries: seq<Query>, showDeleted: bool, searchTerm: string): seq<Query> {
    var list := if showDeleted then DeletedQueries(queries) else ActiveQueries(queries);
    if Trim(searchTerm) == "" then list
    else Filter(list, (q: Query) => SearchMatches(q, searchTerm))
  }

  /** The list shows every copy of a query of the chosen kind that the search
      accepts, and nothing else. */
  lemma FilteredQueriesSpec(queries: seq<Query>, showDeleted: bool, searchTerm: string, x: Query)
    ensures multiset(FilteredQueries(queries, showDeleted, searchTerm))[x] ==
      if IsDeletedQuery(x) == showDeleted && (Trim(searchTerm) == "" || SearchMatches(x, searchTerm))
      then multiset(queries)[x] else 0
  {
    var list := if showDeleted then DeletedQueries(queries) else ActiveQueries(queries);
    FilterCount(queries, (q: Query) => !IsDeletedQuery(q), x);
    FilterCount(queries, (q: Query) => IsDeletedQuery(q), x);
    FilterCount(list, (q: Query) => SearchMatches(q, searchTerm), x);
  }

  // -------------------------------------------------------------------
  // Ids

  /** `nextQueryId`, over every query, deleted ones included. */
  function NextQueryId(queries: seq<Query>): string {
    Ids.NextId(Map(queries, (q: Query) => q.id))
  }

  /** The new query id is no existing query's id and is above every readable
      one; "0" when there are no queries. */
  lemma NextQueryIdIsNew(queries: seq<Query>)
    ensures ParseIntPrefix(NextQueryId(queries)).Some?
    ensures forall i :: 0 <= i < |queries| ==> queries[i].id != NextQueryId(queries)
    ensures forall i :: 0 <= i < |queries| && ParseIntPrefix(queries[i].id).Some? ==>
      ParseIntPrefix(queries[i].id).value < ParseIntPrefix(NextQueryId(queries)).value
    ensures queries == [] ==> NextQueryId(queries) == "0"
  {
    Ids.NextIdFresh(queries, (q: Query) => q.id);
  }

  // -------------------------------------------------------------------
  // Quick add

  const DefaultNote := "Phone query"

  /** `handleQuickAdd`: the query to add, or nothing when the trimmed name or
      phone number is blank. `nowIso` is the clock's ISO text. */
  function QuickAdd(queries: seq<Query>, name: string, phone: string, note: string, nowIso: string): (r: Option<Query>)
    ensures r.None? <==> Trim(name) == "" || Trim(phone) == ""
    ensures r.Some? ==> (
      && r.value.id == NextQueryId(queries)
      && r.value.customerName == Trim(name) && r.value.phoneNumber == Trim(phone)
      && r.value.description == (if Trim(note) == "" then DefaultNote else Trim(note))
      && r.value.items == [] && r.value.date == Formatters.DatePart(nowIso)
      && r.value.updatedAt.None? && r.value.isDeleted.None? && r.value.deletedAt.None?)
  {
    if Trim(name) == "" || Trim(phone) == "" then None
    else
      Some(Query(NextQueryId(queries), Trim(name), Trim(phone), OrString(Some(Trim(note)), DefaultNote),
                 [], Formatters.DatePart(nowIso), None, None, None))
  }

  /** A quick-added query goes to the front of the list with an id no other
      query has. */
  lemma QuickAddIsNew(s: QR.QueryState, name: string, phone: string, note: string, nowIso: string, now: string)
    requires QuickAdd(s.queries, name, phone, note, nowIso).Some?
    ensures var q := QuickAdd(s.queries, name, phone, note, nowIso).value;
      var after := QR.Reduce(s, QR.AddQuery(q), now).queries;
      && after == [q.(updatedAt := Some(now))] + s.queries
      && forall i :: 0 <= i < |s.queries| ==> s.queries[i].id != after[0].id
  {
    NextQueryIdIsNew(s.queries);
    QR.AddQueryPrepends(s, QuickAdd(s.queries, name, phone, note, nowIso).value, now);
  }

  // -------------------------------------------------------------------
  // Conversion to a job

  /** Each query item becomes a job item priced 0. */
  function ToJobItems(items: seq<QueryItem>): (r: seq<JobItem>)
    ensures |r| == |items|
    ensures forall i :: 0 <= i < |items| ==> r[i] == JobItem(items[i].description, 0.0)
  {
    Map(items, (it: QueryItem) => JobItem(it.description, 0.0))
  }

  /** The job `handleConvertToJob` builds from a query. */
  function ConvertedJob(query: Query, jobType: string, jobs: seq<Job>, nowIso: string): (j: Job)
    ensures j.id == Ids.NextJobId(jobs) && j.category == jobType
    ensures j.customerName == query.customerName && j.phoneNumber == query.phoneNumber
    ensures j.description == query.description && j.address == ""
    ensures j.status == StatusNotStarted && j.importance == "Medium"
    ensures j.date == Formatters.DatePart(nowIso)
    ensures ItemsTotal(j.items) == 0.0 && |j.items| == |query.items|
    ensures forall i :: 0 <= i < |query.items| ==> j.items[i].description == query.items[i].description
  {
    var items := ToJobItems(query.items);
    ZeroPricedTotal(items);
    Job(Ids.NextJobId(jobs), jobType, query.customerName, query.phoneNumber, "", None, None, "Medium",
        query.description, Formatters.DatePart(nowIso), None, items, StatusNotStarted,
        None, None, None, None, None, None, None, None, None, None)
  }

  lemma {:induction false} ZeroPricedTotal(items: seq<JobItem>)
    requires forall i :: 0 <= i < |items| ==> items[i].price == 0.0
    ensures ItemsTotal(items) == 0.0
  {
    if items != [] {
      ZeroPricedTotal(items[..|items| - 1]);
    }
  }

  /** The two actions the conversion dispatches, in order: add the job, then
      delete the query. */
  function ConvertActions(query: Query, jobType: string, jobs: seq<Job>, nowIso: string, deletedAt: string): (JR.JobAction, QR.QueryAction) {
    (JR.AddJob(ConvertedJob(query, jobType, jobs, nowIso)), QR.DeleteQuery(query.id, deletedAt))
  }

  /** After a conversion the new job heads the job list with an id no other
      job has, and the query keeps its place, soft-deleted. */
  lemma ConvertToJobEffect(js: JR.JobState, qs: QR.QueryState, query: Query, jobType: string,
                           nowIso: string, deletedAt: string, c: JR.Clock, now: string, i: nat)
    requires i < |qs.queries| && qs.queries[i].id == query.id
    ensures var (ja, qa) := ConvertActions(query, jobType, js.jobs, nowIso, deletedAt);
      var jobsAfter := JR.Reduce(js, ja, c).jobs;
      var queriesAfter := QR.Reduce(qs, qa, now).queries;
      && jobsAfter[1..] == js.jobs
      && jobsAfter[0] == ConvertedJob(query, jobType, js.jobs, nowIso).(updatedAt := Some(c.now))
      && (forall k :: 0 <= k < |js.jobs| ==> js.jobs[k].id != jobsAfter[0].id)
      && |queriesAfter| == |qs.queries|
      && queriesAfter[i] == QR.SoftDeleted(qs.queries[i], deletedAt, now)
  {
    var job := ConvertedJob(query, jobType, js.jobs, nowIso);
    JR.AddJobPrepends(js, job, c);
    Ids.NextJobIdIsNew(js.jobs);
    QR.DeleteQueryKeepsIds(qs, query.id, deletedAt, now);
  }
}
