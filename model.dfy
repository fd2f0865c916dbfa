/** The records the job tracker stores (jobs, audit entries, queries,
    bookings) and its configuration constants.

    Enumerated TypeScript types (status, category, importance, audit action,
    booking status) are kept as strings: values reach the store through
    unchecked casts of JSON and database cells, so any string can occur, and
    the type guards decide membership. */
module Model {
  import opened Base

  // ---------------------------------------------------------------------
  // Enumerations

  const StatusComplete := "complete"
  const StatusInProgress := "in progress"
  const StatusNotStarted := "not started"
  const StatusAwaitingParts := "awaiting parts"
  const StatusPowdercoaters := "powdercoaters"
  const JobStatuses: seq<string> :=
    [StatusComplete, StatusInProgress, StatusNotStarted, StatusAwaitingParts, StatusPowdercoaters]

  const CategoryRepair := "Repair"
  const CategoryFabrication := "Fabrication"
  const CategoryDeliveries := "Deliveries and Dispatch"
  const JobCategories: seq<string> := [CategoryRepair, CategoryFabrication, CategoryDeliveries]

  /** The four importance levels, most urgent first. */
  datatype Importance = Low | Medium | High | Urgent {
    function Name(): (s: string)
      ensures s in JobImportances
    {
      match this
      case Low => "Low"
      case Medium => "Medium"
      case High => "High"
      case Urgent => "Urgent"
    }
  }
  const JobImportances: seq<string> := ["Low", "Medium", "High", "Urgent"]

  const ActionJobCreated := "JOB_CREATED"
  const ActionJobUpdated := "JOB_UPDATED"
  const ActionStatusUpdated := "STATUS_UPDATED"
  const ActionJobDeleted := "JOB_DELETED"
  const ActionJobRestored := "JOB_RESTORED"
  const ActionJobsCleared := "JOBS_CLEARED"
  const ActionJobsImported := "JOBS_IMPORTED"
  const AuditActions: seq<string> :=
    [ActionJobCreated, ActionJobUpdated, ActionStatusUpdated, ActionJobDeleted,
     ActionJobRestored, ActionJobsCleared, ActionJobsImported]

  const BookingConfirmed := "confirmed"

  // ---------------------------------------------------------------------
  // Records

  datatype JobItem = JobItem(description: string, price: real)

  /** A measurement row; `labelText` is the source's `label` (a reserved word here). */
  datatype Measurement = Measurement(labelText: string, value: string, units: string)

  datatype Attachment = Attachment(name: string, dataUrl: string)

  datatype PaymentRecord = PaymentRecord(amount: real, date: string)

  /** A job on the board. Optional TypeScript properties are `Option`s. */
  datatype Job = Job(
    id: string,
    category: string,
    customerName: string,
    phoneNumber: string,
    address: string,
    invoiceNumber: Option<string>,
    quoteNumber: Option<string>,
    importance: string,
    description: string,
    date: string,
    estimatedDispatchDate: Option<string>,
    items: seq<JobItem>,
    status: string,
    measurements: Option<seq<Measurement>>,
    attachments: Option<seq<Attachment>>,
    totalPaid: Option<real>,
    paymentHistory: Option<seq<PaymentRecord>>,
    updatedAt: Option<string>,
    completedAt: Option<string>,
    isDeleted: Option<bool>,
    deletedAt: Option<string>,
    isArchived: Option<bool>,
    archivedAt: Option<string>)

  datatype AuditEntry = AuditEntry(
    id: string,
    jobId: Option<string>,
    action: string,
    timestamp: string,
    summary: string,
    clientId: Option<string>)

  datatype Customer = Customer(name: string, phoneNumber: string, address: string)

  datatype QueryItem = QueryItem(description: string)

  datatype Query = Query(
    id: string,
    customerName: string,
    phoneNumber: string,
    description: string,
    items: seq<QueryItem>,
    date: string,
    updatedAt: Option<string>,
    isDeleted: Option<bool>,
    deletedAt: Option<string>)

  datatype Booking = Booking(
    id: string,
    customerName: string,
    phoneNumber: string,
    carMake: string,
    carModel: string,
    carOther: Option<string>,
    quote: real,
    date: string,
    status: Option<string>,
    updatedAt: Option<string>,
    isDeleted: Option<bool>,
    deletedAt: Option<string>)

  /** Sum of the item prices of a job. */
  function ItemsTotal(items: seq<JobItem>): real {
    if items == [] then 0.0 else ItemsTotal(items[..|items| - 1]) + items[|items| - 1].price
  }

  // ---------------------------------------------------------------------
  // Configuration

  const ArchiveAfterDays := 60
  const MillisPerDay := 24 * 60 * 60 * 1000
  const AuditLimit := 200
  const UrgentThresholdDays := 1
  const HighThresholdDays := 7
  const MediumThresholdDays := 13

  const TableJobs := "jobs"
  const TableAudit := "job_audit"
  const TableQueries := "queries"
  const TableBookings := "bookings"
}
