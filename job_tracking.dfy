/** The job board: the filter and sort that produce the visible jobs, the
    three sections they are split into (active, paid and completed,
    deleted), recording a payment, the selection toggle, and the print that
    follows a job's completion. The urgency of a due date depends on today's
    date and is a parameter. */
module JobTracking {
  import opened Base
  import opened Model
  import opened Lists
  import Urgency
  import Formatters
  import PrintHtml

  /** The board's filter controls. `category` is "All" or a category,
      `status` and `importance` are "all" or a value of their type, and an
      empty date bound is no bound. */
  datatype BoardFilter = BoardFilter(
    category: string,
    searchTerm: string,
    status: string,
    importance: string,
    dateFrom: string,
    dateTo: string)

  // -------------------------------------------------------------------
  // Filtering

  function OptList(s: Option<string>): seq<string> {
    if s.Some? then [s.value] else []
  }

  /** The non-empty searchable fields of a job: id, customer name, phone,
      invoice number and quote number. */
  function SearchValues(j: Job): seq<string> {
    Filter([j.id, j.customerName, j.phoneNumber] + OptList(j.invoiceNumber) + OptList(j.quoteNumber),
           v => v != "")
  }

  /** Some searchable field contains the (already lower-cased) term, ignoring
      case. */
  predicate SearchMatches(j: Job, term: string) {
    exists k :: 0 <= k < |SearchValues(j)| && Contains(Lower(SearchValues(j)[k]), term)
  }

  /** The date filter: no bound set passes everything; otherwise the job date
      is not before `dateFrom` and not after `dateTo`, comparing strings. */
  predicate InDateRange(date: string, dateFrom: string, dateTo: string) {
    if dateFrom == "" && dateTo == "" then true
    else if dateFrom != "" && LexLess(date, dateFrom) then false
    else if dateTo != "" && LexLess(dateTo, date) then false
    else true
  }

  /** With both bounds set, the range holds exactly the dates between them,
      both ends included. */
  lemma DateRangeInclusive(date: string, dateFrom: string, dateTo: string)
    requires dateFrom != "" && dateTo != ""
    ensures InDateRange(date, dateFrom, dateTo) <==> LexLessEq(dateFrom, date) && LexLessEq(date, dateTo)
  {
    LexLessTotal(date, dateFrom);
    LexLessTotal(date, dateTo);
    if LexLess(date, dateFrom) {
      LexLessAsymmetric(date, dateFrom);
      LexLessIrreflexive(date);
    }
    if LexLess(dateTo, date) {
      LexLessAsymmetric(dateTo, date);
      LexLessIrreflexive(date);
    }
  }

  /** The search term as the board uses it. */
  function NormalizedTerm(f: BoardFilter): string {
    Lower(Trim(f.searchTerm))
  }

  /** Every condition a job must meet to be shown. */
  predicate Shown(j: Job, f: BoardFilter, urgency: string -> Importance) {
    && (f.category == "All" || j.category == f.category)
    && (NormalizedTerm(f) == "" || SearchMatches(j, NormalizedTerm(f)))
    && (f.status == "all" || j.status == f.status)
    && (f.importance == "all" || urgency(PrintHtml.DueDate(j)).Name() == f.importance)
    && InDateRange(j.date, f.dateFrom, f.dateTo)
    && !IsTrue(j.isArchived)
  }

  /** The filter stages in source order, before sorting. */
  function FilterStages(jobs: seq<Job>, f: BoardFilter, urgency: string -> Importance): seq<Job> {
    var term := NormalizedTerm(f);
    var byCategory := if f.category == "All" then jobs else Filter(jobs, (j: Job) => j.category == f.category);
    var searched := if term == "" then byCategory else Filter(byCategory, (j: Job) => SearchMatches(j, term));
    var byStatus := if f.status == "all" then searched else Filter(searched, (j: Job) => j.status == f.status);
    var byImportance := if f.importance == "all" then byStatus
                        else Filter(byStatus, (j: Job) => urgency(PrintHtml.DueDate(j)).Name() == f.importance);
    var byDate := Filter(byImportance, (j: Job) => InDateRange(j.date, f.dateFrom, f.dateTo));
    Filter(byDate, (j: Job) => !IsTrue(j.isArchived))
  }

  /** The stages keep exactly the shown jobs, every copy of each. */
  lemma FilterStagesCount(jobs: seq<Job>, f: BoardFilter, urgency: string -> Importance, x: Job)
    ensures multiset(FilterStages(jobs, f, urgency))[x] == if Shown(x, f, urgency) then multiset(jobs)[x] else 0
  {
    var term := NormalizedTerm(f);
    var byCategory := if f.category == "All" then jobs else Filter(jobs, (j: Job) => j.category == f.category);
    if f.category != "All" { FilterCount(jobs, (j: Job) => j.category == f.category, x); }
    var searched := if term == "" then byCategory else Filter(byCategory, (j: Job) => SearchMatches(j, term));
    if term != "" { FilterCount(byCategory, (j: Job) => SearchMatches(j, term), x); }
    var byStatus := if f.status == "all" then searched else Filter(searched, (j: Job) => j.status == f.status);
    if f.status != "all" { FilterCount(searched, (j: Job) => j.status == f.status, x); }
    var byImportance := if f.importance == "all" then byStatus
                        else Filter(byStatus, (j: Job) => urgency(PrintHtml.DueDate(j)).Name() == f.importance);
    if f.importance != "all" {
      FilterCount(byStatus, (j: Job) => urgency(PrintHtml.DueDate(j)).Name() == f.importance, x);
    }
    var byDate := Filter(byImportance, (j: Job) => InDateRange(j.date, f.dateFrom, f.dateTo));
    FilterCount(byImportance, (j: Job) => InDateRange(j.date, f.dateFrom, f.dateTo), x);
    FilterCount(byDate, (j: Job) => !IsTrue(j.isArchived), x);
  }

  // -------------------------------------------------------------------
  // Sorting

  /** What the board's comparator looks at: the importance rank of the due
      date's urgency, and the job date. */
  datatype BoardKey = BoardKey(rank: nat, date: string)

  function KeyOf(j: Job, urgency: string -> Importance): BoardKey {
    BoardKey(Urgency.ImportanceRank(urgency(PrintHtml.DueDate(j))), j.date)
  }

  /** The comparator is negative: lower rank first (Urgent first), then the
      later date first. Date order is code-unit order. */
  predicate KeyBefore(a: BoardKey, b: BoardKey) {
    a.rank < b.rank || (a.rank == b.rank && LexLess(b.date, a.date))
  }

  lemma KeyBeforeAsymmetric(a: BoardKey, b: BoardKey)
    requires KeyBefore(a, b)
    ensures !KeyBefore(b, a)
  {
    if a.rank == b.rank {
      LexLessAsymmetric(b.date, a.date);
    }
  }

  /** Keys that are neither before the other are equal. */
  lemma KeyTies(a: BoardKey, b: BoardKey)
    requires !KeyBefore(a, b) && !KeyBefore(b, a)
    ensures a == b
  {
    LexLessTotal(a.date, b.date);
  }

  /** If a comes before c, any b comes after a or before c. */
  lemma KeyBeforeSplit(a: BoardKey, b: BoardKey, c: BoardKey)
    requires KeyBefore(a, c)
    ensures KeyBefore(a, b) || KeyBefore(b, c)
  {
    if a.rank == c.rank && b.rank == a.rank {
      LexLessTotal(b.date, a.date);
      if LexLess(a.date, b.date) {
        LexLessTransitive(c.date, a.date, b.date);
      }
    }
  }

  /** Inserting into a sorted list: the element goes after every element
      that sorts strictly before it and ahead of the first that does not. */
  function Insert<T>(x: T, t: seq<T>, key: T -> BoardKey): seq<T> {
    if t == [] then [x]
    else if KeyBefore(key(t[0]), key(x)) then [t[0]] + Insert(x, t[1..], key)
    else [x] + t
  }

  /** The stable sort `Array.prototype.sort` performs with the board's
      comparator. */
  function SortBy<T>(s: seq<T>, key: T -> BoardKey): seq<T> {
    if s == [] then [] else Insert(s[0], SortBy(s[1..], key), key)
  }

  /** No element sorts strictly before one that precedes it. */
  predicate Sorted<T>(s: seq<T>, key: T -> BoardKey) {
    forall i, j :: 0 <= i < j < |s| ==> !KeyBefore(key(s[j]), key(s[i]))
  }

  /** An element that does not sort after the head of a sorted list can lead it. */
  lemma InsertAtFront<T>(x: T, t: seq<T>, key: T -> BoardKey)
    requires Sorted(t, key) && t != [] && !KeyBefore(key(t[0]), key(x))
    ensures Sorted([x] + t, key)
  {
    var r := [x] + t;
    forall j | 1 <= j < |r|
      ensures !KeyBefore(key(r[j]), key(x))
    {
      if KeyBefore(key(r[j]), key(x)) {
        KeyBeforeSplit(key(r[j]), key(t[0]), key(x));
      }
    }
  }

  /** A sorted list stays sorted behind a head that sorts before all of it. */
  lemma BehindHead<T>(h: T, rest: seq<T>, key: T -> BoardKey)
    requires Sorted(rest, key)
    requires forall y :: y in multiset(rest) ==> !KeyBefore(key(y), key(h))
    ensures Sorted([h] + rest, key)
  {
    var r := [h] + rest;
    forall j | 1 <= j < |r|
      ensures !KeyBefore(key(r[j]), key(h))
    {
      assert r[j] in multiset(rest);
    }
  }

  lemma {:induction false} InsertSorted<T>(x: T, t: seq<T>, key: T -> BoardKey)
    requires Sorted(t, key)
    ensures Sorted(Insert(x, t, key), key)
    ensures multiset(Insert(x, t, key)) == multiset(t) + multiset{x}
    decreases |t|
  {
    if t == [] {
    } else if KeyBefore(key(t[0]), key(x)) {
      var rest := Insert(x, t[1..], key);
      assert t == [t[0]] + t[1..];
      InsertSorted(x, t[1..], key);
      forall y | y in multiset(rest)
        ensures !KeyBefore(key(y), key(t[0]))
      {
        if y == x {
          KeyBeforeAsymmetric(key(t[0]), key(x));
        } else {
          assert y in t[1..];
        }
      }
      BehindHead(t[0], rest, key);
    } else {
      InsertAtFront(x, t, key);
    }
  }

  /** The sort's output is sorted and keeps every element. */
  lemma {:induction false} SortBySorted<T>(s: seq<T>, key: T -> BoardKey)
    ensures Sorted(SortBy(s, key), key)
    ensures multiset(SortBy(s, key)) == multiset(s)
  {
    if s != [] {
      SortBySorted(s[1..], key);
      InsertSorted(s[0], SortBy(s[1..], key), key);
      assert s == [s[0]] + s[1..];
    }
  }

  lemma {:induction false} InsertStable<T>(x: T, t: seq<T>, key: T -> BoardKey, p: T -> bool)
    requires forall y, z :: p(y) && p(z) ==> key(y) == key(z)
    ensures Filter(Insert(x, t, key), p) == Filter([x], p) + Filter(t, p)
    decreases |t|
  {
    if t == [] {
    } else if KeyBefore(key(t[0]), key(x)) {
      InsertStable(x, t[1..], key, p);
      assert t == [t[0]] + t[1..];
      FilterConcat([t[0]], t[1..], p);
      FilterConcat([t[0]], Insert(x, t[1..], key), p);
      if p(t[0]) && p(x) {
        KeyBeforeAsymmetric(key(t[0]), key(x));
      }
    } else {
      FilterConcat([x], t, p);
    }
  }

  /** The sort is stable: elements that share a key keep their relative
      order. `p` picks out elements of one key. */
  lemma {:induction false} SortByStable<T>(s: seq<T>, key: T -> BoardKey, p: T -> bool)
    requires forall y, z :: p(y) && p(z) ==> key(y) == key(z)
    ensures Filter(SortBy(s, key), p) == Filter(s, p)
  {
    if s != [] {
      SortByStable(s[1..], key, p);
      InsertStable(s[0], SortBy(s[1..], key), key, p);
      assert s == [s[0]] + s[1..];
      FilterConcat([s[0]], s[1..], p);
    }
  }

  /** `filteredJobs`. */
  function FilteredJobs(jobs: seq<Job>, f: BoardFilter, urgency: string -> Importance): seq<Job> {
    SortBy(FilterStages(jobs, f, urgency), (j: Job) => KeyOf(j, urgency))
  }

  /** The board shows exactly the jobs meeting every filter, never an archived
      one, sorted by urgency rank and then latest date first. */
  lemma FilteredJobsSpec(jobs: seq<Job>, f: BoardFilter, urgency: string -> Importance)
    ensures Sorted(FilteredJobs(jobs, f, urgency), (j: Job) => KeyOf(j, urgency))
    ensures forall x :: multiset(FilteredJobs(jobs, f, urgency))[x] == if Shown(x, f, urgency) then multiset(jobs)[x] else 0
    ensures forall x :: x in FilteredJobs(jobs, f, urgency) ==> !IsTrue(x.isArchived)
  {
    var staged := FilterStages(jobs, f, urgency);
    SortBySorted(staged, (j: Job) => KeyOf(j, urgency));
    forall x
      ensures multiset(FilteredJobs(jobs, f, urgency))[x] == if Shown(x, f, urgency) then multiset(jobs)[x] else 0
    {
      FilterStagesCount(jobs, f, urgency, x);
    }
    forall x | x in FilteredJobs(jobs, f, urgency)
      ensures !IsTrue(x.isArchived)
    {
      assert x in multiset(FilteredJobs(jobs, f, urgency));
      FilterStagesCount(jobs, f, urgency, x);
    }
  }

  /** Jobs that tie on rank and date appear in the order the filters left
      them. */
  lemma FilteredJobsStable(jobs: seq<Job>, f: BoardFilter, urgency: string -> Importance, k: BoardKey)
    ensures Filter(FilteredJobs(jobs, f, urgency), (y: Job) => KeyOf(y, urgency) == k)
         == Filter(FilterStages(jobs, f, urgency), (y: Job) => KeyOf(y, urgency) == k)
  {
    SortByStable(FilterStages(jobs, f, urgency), (j: Job) => KeyOf(j, urgency), (y: Job) => KeyOf(y, urgency) == k);
  }

  /** A blank search term filters nothing. */
  lemma BlankSearchKeepsAll(j: Job, f: BoardFilter)
    requires Trim(f.searchTerm) == ""
    ensures NormalizedTerm(f) == ""
  {
    assert Lower([]) == [];
  }

  // -------------------------------------------------------------------
  // Sections

  /** `isJobFullyPaid`: something was paid and it covers the item total. */
  predicate IsJobFullyPaid(j: Job) {
    var total := ItemsTotal(j.items);
    var paid := PrintHtml.PaidAmount(j);
    paid > 0.0 && paid >= total
  }

  /** The board and the print view agree on "fully paid". */
  lemma FullyPaidAgreesWithPrint(j: Job)
    ensures IsJobFullyPaid(j) <==> PrintHtml.PrintPaidInFull(j)
  {
  }

  predicate InActive(j: Job) {
    !IsTrue(j.isDeleted) && !(j.status == StatusComplete && IsJobFullyPaid(j))
  }

  predicate InPaidCompleted(j: Job) {
    !IsTrue(j.isDeleted) && j.status == StatusComplete && IsJobFullyPaid(j)
  }

  predicate InDeleted(j: Job) {
    IsTrue(j.isDeleted)
  }

  /** The three sections split the visible jobs: every job lands in exactly
      one, and together they hold every copy of every job. */
  lemma SectionsPartition(shown: seq<Job>)
    ensures forall j :: (InActive(j) || InPaidCompleted(j) || InDeleted(j))
                     && !(InActive(j) && InPaidCompleted(j))
                     && !(InActive(j) && InDeleted(j))
                     && !(InPaidCompleted(j) && InDeleted(j))
    ensures multiset(Filter(shown, InActive)) + multiset(Filter(shown, InPaidCompleted))
            + multiset(Filter(shown, InDeleted)) == multiset(shown)
  {
    var a, p, d := Filter(shown, InActive), Filter(shown, InPaidCompleted), Filter(shown, InDeleted);
    forall x
      ensures (multiset(a) + multiset(p) + multiset(d))[x] == multiset(shown)[x]
    {
      FilterCount(shown, InActive, x);
      FilterCount(shown, InPaidCompleted, x);
      FilterCount(shown, InDeleted, x);
    }
    assert multiset(a) + multiset(p) + multiset(d) == multiset(shown);
  }

  // -------------------------------------------------------------------
  // Payments

  function History(j: Job): seq<PaymentRecord> {
    j.paymentHistory.GetOr([])
  }

  /** The sum of the recorded payment amounts. */
  function PaymentsTotal(h: seq<PaymentRecord>): real {
    if h == [] then 0.0 else PaymentsTotal(h[..|h| - 1]) + h[|h| - 1].amount
  }

  /** `handleAddPayment`: the job as dispatched, with the amount added to
      what was paid and one record, dated with the day part of `nowIso`,
      appended to the history. */
  function AddPayment(j: Job, amount: real, nowIso: string): (r: Job)
    ensures PrintHtml.PaidAmount(r) == PrintHtml.PaidAmount(j) + amount
    ensures History(r) == History(j) + [PaymentRecord(amount, Formatters.DatePart(nowIso))]
    ensures r.(totalPaid := j.totalPaid, paymentHistory := j.paymentHistory) == j
  {
    j.(totalPaid := Some(j.totalPaid.GetOr(0.0) + amount),
       paymentHistory := Some(History(j) + [PaymentRecord(amount, Formatters.DatePart(nowIso))]))
  }

  /** When the paid amount equals the sum of the history, adding a payment
      keeps it so. */
  lemma AddPaymentKeepsLedger(j: Job, amount: real, nowIso: string)
    requires PrintHtml.PaidAmount(j) == PaymentsTotal(History(j))
    ensures PrintHtml.PaidAmount(AddPayment(j, amount, nowIso)) == PaymentsTotal(History(AddPayment(j, amount, nowIso)))
  {
    var h := History(AddPayment(j, amount, nowIso));
    assert h[..|h| - 1] == History(j);
  }

  // -------------------------------------------------------------------
  // Selection and sections

  /** `toggleSelect` and `toggleSection`: remove the id when present, add it
      otherwise. */
  function Toggle(s: set<string>, id: string): (r: set<string>)
    ensures id in r <==> id !in s
    ensures forall x :: x != id ==> (x in r <==> x in s)
  {
    if id in s then s - {id} else s + {id}
  }

  /** Toggling the same id twice gives the original set back. */
  lemma ToggleTwice(s: set<string>, id: string)
    ensures Toggle(Toggle(s, id), id) == s
  {
    var t := Toggle(Toggle(s, id), id);
    assert forall x :: x in t <==> x in s;
  }

  // -------------------------------------------------------------------
  // Completion print

  /** `jobs.find(entry => entry.id === id)`. */
  function FindJob(jobs: seq<Job>, id: string): (r: Option<Job>)
    ensures r.None? <==> forall i :: 0 <= i < |jobs| ==> jobs[i].id != id
    ensures r.Some? ==> exists i :: 0 <= i < |jobs| && jobs[i] == r.value && r.value.id == id
                                   && forall k :: 0 <= k < i ==> jobs[k].id != id
  {
    if jobs == [] then None
    else if jobs[0].id == id then Some(jobs[0])
    else
      var r := FindJob(jobs[1..], id);
      if r.Some? then
        ghost var i :| 0 <= i < |jobs[1..]| && jobs[1..][i] == r.value && r.value.id == id
                       && forall k :: 0 <= k < i ==> jobs[1..][k].id != id;
        assert jobs[i + 1] == r.value;
        r
      else r
  }

  /** `handleStatusChange`'s print: the job, with its new status, is printed
      only when it exists, the new status is 'complete' and it was not
      complete before. */
  function CompletionPrint(jobs: seq<Job>, id: string, status: string): (r: Option<Job>)
    ensures r.Some? <==> FindJob(jobs, id).Some? && status == StatusComplete
                         && FindJob(jobs, id).value.status != StatusComplete
    ensures r.Some? ==> r.value == FindJob(jobs, id).value.(status := StatusComplete)
  {
    var job := FindJob(jobs, id);
    if job.Some? && status == StatusComplete && job.value.status != StatusComplete then
      Some(job.value.(status := status))
    else None
  }

  /** Completing an already complete job prints nothing, so a repeated
      completion never prints twice. */
  lemma NoReprint(jobs: seq<Job>, id: string)
    requires FindJob(jobs, id).Some? && FindJob(jobs, id).value.status == StatusComplete
    ensures CompletionPrint(jobs, id, StatusComplete).None?
  {
  }
}
