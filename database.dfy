/** The typed snake_case database records and their renaming converters.
    Each converter copies field by field; optional fields pass through as
    they are. */
module Database {
  import opened Base
  import opened Model

  datatype DbJob = DbJob(
    id: string,
    category: string,
    customer_name: string,
    phone_number: string,
    address: string,
    invoice_number: Option<string>,
    quote_number: Option<string>,
    importance: string,
    description: string,
    date: string,
    estimated_dispatch_date: Option<string>,
    items: seq<JobItem>,
    status: string,
    measurements: Option<seq<Measurement>>,
    attachments: Option<seq<Attachment>>,
    total_paid: Option<real>,
    payment_history: Option<seq<PaymentRecord>>,
    updated_at: Option<string>,
    completed_at: Option<string>,
    is_deleted: Option<bool>,
    deleted_at: Option<string>,
    is_archived: Option<bool>,
    archived_at: Option<string>)

  datatype DbAuditEntry = DbAuditEntry(
    id: string,
    job_id: Option<string>,
    action: string,
    timestamp: string,
    summary: string,
    client_id: Option<string>)

  datatype DbQuery = DbQuery(
    id: string,
    customer_name: string,
    phone_number: string,
    description: string,
    items: seq<QueryItem>,
    date: string,
    updated_at: Option<string>,
    is_deleted: Option<bool>,
    deleted_at: Option<string>)

  /** A booking row: there is no status column. */
  datatype DbBooking = DbBooking(
    id: string,
    customer_name: string,
    phone_number: string,
    car_make: string,
    car_model: string,
    car_other: Option<string>,
    quote: real,
    date: string,
    updated_at: Option<string>,
    is_deleted: Option<bool>,
    deleted_at: Option<string>)

  function ToDbJob(j: Job): DbJob {
    DbJob(j.id, j.category, j.customerName, j.phoneNumber, j.address, j.invoiceNumber, j.quoteNumber,
          j.importance, j.description, j.date, j.estimatedDispatchDate, j.items, j.status,
          j.measurements, j.attachments, j.totalPaid, j.paymentHistory, j.updatedAt, j.completedAt,
          j.isDeleted, j.deletedAt, j.isArchived, j.archivedAt)
  }

  function FromDbJob(d: DbJob): Job {
    Job(d.id, d.category, d.customer_name, d.phone_number, d.address, d.invoice_number, d.quote_number,
        d.importance, d.description, d.date, d.estimated_dispatch_date, d.items, d.status,
        d.measurements, d.attachments, d.total_paid, d.payment_history, d.updated_at, d.completed_at,
        d.is_deleted, d.deleted_at, d.is_archived, d.archived_at)
  }

  /** The job converters are inverse to each other, in both directions. */
  lemma JobRoundTrips(j: Job, d: DbJob)
    ensures FromDbJob(ToDbJob(j)) == j
    ensures ToDbJob(FromDbJob(d)) == d
  {
  }

  function ToDbAuditEntry(e: AuditEntry): DbAuditEntry {
    DbAuditEntry(e.id, e.jobId, e.action, e.timestamp, e.summary, e.clientId)
  }

  function FromDbAuditEntry(d: DbAuditEntry): AuditEntry {
    AuditEntry(d.id, d.job_id, d.action, d.timestamp, d.summary, d.client_id)
  }

  /** The audit converters are inverse to each other, `client_id` included. */
  lemma AuditRoundTrips(e: AuditEntry, d: DbAuditEntry)
    ensures FromDbAuditEntry(ToDbAuditEntry(e)) == e
    ensures ToDbAuditEntry(FromDbAuditEntry(d)) == d
  {
  }

  function ToDbQuery(q: Query): DbQuery {
    DbQuery(q.id, q.customerName, q.phoneNumber, q.description, q.items, q.date, q.updatedAt, q.isDeleted, q.deletedAt)
  }

  function FromDbQuery(d: DbQuery): Query {
    Query(d.id, d.customer_name, d.phone_number, d.description, d.items, d.date, d.updated_at, d.is_deleted, d.deleted_at)
  }

  lemma QueryRoundTrips(q: Query, d: DbQuery)
    ensures FromDbQuery(ToDbQuery(q)) == q
    ensures ToDbQuery(FromDbQuery(d)) == d
  {
  }

  function ToDbBooking(b: Booking): DbBooking {
    DbBooking(b.id, b.customerName, b.phoneNumber, b.carMake, b.carModel, b.carOther, b.quote, b.date,
              b.updatedAt, b.isDeleted, b.deletedAt)
  }

  /** The result has no status: the row does not carry one. */
  function FromDbBooking(d: DbBooking): Booking {
    Booking(d.id, d.customer_name, d.phone_number, d.car_make, d.car_model, d.car_other, d.quote, d.date,
            None, d.updated_at, d.is_deleted, d.deleted_at)
  }

  /** A booking survives the round trip except for its status, which is lost;
      a row survives unchanged. */
  lemma BookingRoundTrips(b: Booking, d: DbBooking)
    ensures FromDbBooking(ToDbBooking(b)) == b.(status := None)
    ensures ToDbBooking(FromDbBooking(d)) == d
    ensures b.status.Some? ==> FromDbBooking(ToDbBooking(b)) != b
  {
  }
}
