/** The remote-database side of sync: mapping records to and from rows, the
    upload procedure with its unsynced-audit slice, the four-table download,
    and the filter that drops this client's own realtime audit inserts. The
    network calls are replaced by their responses, which are parameters.

    A row is reduced to the properties the mappers read or write. A property
    the row does not have reads as undefined, which is how `??` sees it too. */
module SupabaseSync {
  import opened Base
  import opened Model
  import opened Lists
  import opened Store

  datatype SyncPhase = Idle | Syncing | Success | Error

  /** The status record passed to status listeners. */
  datatype SyncStatus = SyncStatus(phase: SyncPhase, message: Option<string>, timestamp: Option<string>)

  // ---------------------------------------------------------------------
  // Rows

  /** The three spellings under which a row may carry one property: camelCase,
      snake_case and all lower-case. */
  datatype Spellings = Spellings(camel: JsValue, snake: JsValue, lower: JsValue)

  /** A property written under its snake_case column name only. */
  function Column(v: JsValue): Spellings {
    Spellings(JsUndefined, v, JsUndefined)
  }

  /** A property with no spelling present. */
  const Missing := Spellings(JsUndefined, JsUndefined, JsUndefined)

  /** `r.camel ?? r.snake ?? r.lower`. */
  function CamelFirst(p: Spellings): JsValue {
    Coalesce(p.camel, Coalesce(p.snake, p.lower))
  }

  /** `r.snake ?? r.camel ?? r.lower`. */
  function SnakeFirst(p: Spellings): JsValue {
    Coalesce(p.snake, Coalesce(p.camel, p.lower))
  }

  predicate Nullish(v: JsValue) {
    v.JsUndefined? || v.JsNull?
  }

  /** A row of the jobs table. */
  datatype JobRow = JobRow(
    id: JsValue,
    category: JsValue,
    customerName: Spellings,
    phoneNumber: Spellings,
    address: JsValue,
    invoiceNumber: Spellings,
    quoteNumber: Spellings,
    importance: JsValue,
    description: JsValue,
    date: JsValue,
    items: JsValue,
    status: JsValue,
    measurements: JsValue,
    attachments: JsValue,
    totalPaid: Spellings,
    paymentHistory: Spellings,
    updatedAt: Spellings,
    completedAt: Spellings,
    isDeleted: Spellings,
    deletedAt: Spellings,
    estimatedDispatchDate: Spellings,
    isArchived: Spellings,
    archivedAt: Spellings)

  /** A row of the audit table. */
  datatype AuditRow = AuditRow(
    id: JsValue, jobId: Spellings, action: JsValue, timestamp: JsValue, summary: JsValue, clientId: Spellings)

  /** A row of the queries table. */
  datatype QueryRow = QueryRow(
    id: JsValue, customerName: Spellings, phoneNumber: Spellings, description: JsValue, items: JsValue,
    date: JsValue, updatedAt: Spellings, isDeleted: Spellings, deletedAt: Spellings)

  /** A row of the bookings table. It has no status. */
  datatype BookingRow = BookingRow(
    id: JsValue, customerName: Spellings, phoneNumber: Spellings, carMake: Spellings, carModel: Spellings,
    carOther: Spellings, quote: JsValue, date: JsValue, updatedAt: Spellings, isDeleted: Spellings,
    deletedAt: Spellings)

  // ---------------------------------------------------------------------
  // Reading cells

  /** `(v ?? d) as string`. */
  function StringOr(v: JsValue, d: string): string {
    if v.JsString? then v.s else d
  }

  /** `(v ?? undefined) as string | undefined`. */
  function OptString(v: JsValue): Option<string> {
    if v.JsString? then Some(v.s) else None
  }

  function RealOr(v: JsValue, d: real): real {
    if v.JsNumber? && v.n.Finite? then v.n.v else d
  }

  function OptReal(v: JsValue): Option<real> {
    if v.JsNumber? && v.n.Finite? then Some(v.n.v) else None
  }

  function BoolOr(v: JsValue, d: bool): bool {
    if v.JsBool? then v.b else d
  }

  /** `x ?? null` for an optional string. */
  function StringOrNull(x: Option<string>): JsValue {
    if x.Some? then JsString(x.value) else JsNull
  }

  /** `x ?? null` for an optional amount. */
  function RealOrNull(x: Option<real>): JsValue {
    if x.Some? then JsNumber(Finite(x.value)) else JsNull
  }

  // ---------------------------------------------------------------------
  // JSON columns (items, measurements, attachments, payment history)

  function EncodeItem(i: JobItem): JsValue {
    JsObject(map["description" := JsString(i.description), "price" := JsNumber(Finite(i.price))])
  }

  function DecodeItem(v: JsValue): JobItem {
    JobItem(StringOr(Prop(v, "description"), ""), RealOr(Prop(v, "price"), 0.0))
  }

  function EncodeMeasurement(m: Measurement): JsValue {
    JsObject(map["label" := JsString(m.labelText), "value" := JsString(m.value), "units" := JsString(m.units)])
  }

  function DecodeMeasurement(v: JsValue): Measurement {
    Measurement(StringOr(Prop(v, "label"), ""), StringOr(Prop(v, "value"), ""), StringOr(Prop(v, "units"), ""))
  }

  function EncodeAttachment(a: Attachment): JsValue {
    JsObject(map["name" := JsString(a.name), "dataUrl" := JsString(a.dataUrl)])
  }

  function DecodeAttachment(v: JsValue): Attachment {
    Attachment(StringOr(Prop(v, "name"), ""), StringOr(Prop(v, "dataUrl"), ""))
  }

  function EncodePayment(p: PaymentRecord): JsValue {
    JsObject(map["amount" := JsNumber(Finite(p.amount)), "date" := JsString(p.date)])
  }

  function DecodePayment(v: JsValue): PaymentRecord {
    PaymentRecord(RealOr(Prop(v, "amount"), 0.0), StringOr(Prop(v, "date"), ""))
  }

  function EncodeQueryItem(q: QueryItem): JsValue {
    JsObject(map["description" := JsString(q.description)])
  }

  function DecodeQueryItem(v: JsValue): QueryItem {
    QueryItem(StringOr(Prop(v, "description"), ""))
  }

  function EncodeSeq<T>(xs: seq<T>, enc: T -> JsValue): JsValue {
    JsArray(Map(xs, enc))
  }

  /** An array cell, or [] when the cell is missing. */
  function DecodeSeq<T>(v: JsValue, dec: JsValue -> T): seq<T> {
    if v.JsArray? then Map(v.elems, dec) else []
  }

  /** `xs ?? null` for an optional array. */
  function EncodeSeqOpt<T>(xs: Option<seq<T>>, enc: T -> JsValue): JsValue {
    if xs.Some? then EncodeSeq(xs.value, enc) else JsNull
  }

  /** An array cell, or undefined when the cell is missing or null. */
  function DecodeSeqOpt<T>(v: JsValue, dec: JsValue -> T): Option<seq<T>> {
    if v.JsArray? then Some(Map(v.elems, dec)) else None
  }

  /** Decoding undoes encoding for a whole array, given that it does so for
      one element. */
  lemma {:induction false} DecodeEncodeSeq<T>(xs: seq<T>, enc: T -> JsValue, dec: JsValue -> T)
    requires forall x :: dec(enc(x)) == x
    ensures DecodeSeq(EncodeSeq(xs, enc), dec) == xs
    ensures DecodeSeqOpt(EncodeSeq(xs, enc), dec) == Some(xs)
  {
    var ys := Map(Map(xs, enc), dec);
    assert forall i :: 0 <= i < |xs| ==> ys[i] == xs[i];
  }

  lemma DecodeEncodeSeqOpt<T>(xs: Option<seq<T>>, enc: T -> JsValue, dec: JsValue -> T)
    requires forall x :: dec(enc(x)) == x
    ensures DecodeSeqOpt(EncodeSeqOpt(xs, enc), dec) == xs
  {
    if xs.Some? {
      DecodeEncodeSeq(xs.value, enc, dec);
    }
  }

  lemma JsonColumnsRoundTrip()
    ensures forall i :: DecodeItem(EncodeItem(i)) == i
    ensures forall m :: DecodeMeasurement(EncodeMeasurement(m)) == m
    ensures forall a :: DecodeAttachment(EncodeAttachment(a)) == a
    ensures forall p :: DecodePayment(EncodePayment(p)) == p
    ensures forall q :: DecodeQueryItem(EncodeQueryItem(q)) == q
  {
  }

  // ---------------------------------------------------------------------
  // Jobs

  /** A job from a row that may use camelCase, snake_case or lower-case names. */
  function FromDbJob(r: JobRow): Job {
    Job(
      StringOr(r.id, ""),
      StringOr(r.category, CategoryRepair),
      StringOr(CamelFirst(r.customerName), ""),
      StringOr(CamelFirst(r.phoneNumber), ""),
      StringOr(r.address, ""),
      OptString(CamelFirst(r.invoiceNumber)),
      OptString(CamelFirst(r.quoteNumber)),
      StringOr(r.importance, "Medium"),
      StringOr(r.description, ""),
      StringOr(r.date, ""),
      OptString(SnakeFirst(r.estimatedDispatchDate)),
      DecodeSeq(r.items, DecodeItem),
      StringOr(r.status, StatusNotStarted),
      DecodeSeqOpt(r.measurements, DecodeMeasurement),
      DecodeSeqOpt(r.attachments, DecodeAttachment),
      OptReal(CamelFirst(r.totalPaid)),
      DecodeSeqOpt(CamelFirst(r.paymentHistory), DecodePayment),
      OptString(SnakeFirst(r.updatedAt)),
      OptString(SnakeFirst(r.completedAt)),
      Some(BoolOr(CamelFirst(r.isDeleted), false)),
      OptString(CamelFirst(r.deletedAt)),
      Some(BoolOr(CamelFirst(r.isArchived), false)),
      OptString(SnakeFirst(r.archivedAt)))
  }

  /** A job as a row: snake_case columns, unset optionals as null, unset flags
      as false. */
  function ToDbJob(j: Job): JobRow {
    JobRow(
      JsString(j.id),
      JsString(j.category),
      Column(JsString(j.customerName)),
      Column(JsString(j.phoneNumber)),
      JsString(j.address),
      Column(StringOrNull(j.invoiceNumber)),
      Column(StringOrNull(j.quoteNumber)),
      JsString(j.importance),
      JsString(j.description),
      JsString(j.date),
      EncodeSeq(j.items, EncodeItem),
      JsString(j.status),
      EncodeSeqOpt(j.measurements, EncodeMeasurement),
      EncodeSeqOpt(j.attachments, EncodeAttachment),
      Column(RealOrNull(j.totalPaid)),
      Column(EncodeSeqOpt(j.paymentHistory, EncodePayment)),
      Column(StringOrNull(j.updatedAt)),
      Column(StringOrNull(j.completedAt)),
      Column(JsBool(j.isDeleted.GetOr(false))),
      Column(StringOrNull(j.deletedAt)),
      Column(StringOrNull(j.estimatedDispatchDate)),
      Column(JsBool(j.isArchived.GetOr(false))),
      Column(StringOrNull(j.archivedAt)))
  }

  /** An optional string written to its column reads back unchanged, whichever
      spelling comes first. */
  lemma OptStringColumn(x: Option<string>)
    ensures OptString(CamelFirst(Column(StringOrNull(x)))) == x
    ensures OptString(SnakeFirst(Column(StringOrNull(x)))) == x
  {
  }

  /** The JSON-encoded columns of a job read back unchanged. */
  lemma JobRowJsonColumns(j: Job)
    ensures var k := FromDbJob(ToDbJob(j));
      k.items == j.items && k.measurements == j.measurements && k.attachments == j.attachments
      && k.paymentHistory == j.paymentHistory
  {
    JsonColumnsRoundTrip();
    DecodeEncodeSeq(j.items, EncodeItem, DecodeItem);
    DecodeEncodeSeqOpt(j.measurements, EncodeMeasurement, DecodeMeasurement);
    DecodeEncodeSeqOpt(j.attachments, EncodeAttachment, DecodeAttachment);
    DecodeEncodeSeqOpt(j.paymentHistory, EncodePayment, DecodePayment);
  }

  /** A job read back from the row it was written to is the same job, except
      that unset deletion and archive flags come back as false. */
  lemma JobRowRoundTrip(j: Job)
    ensures FromDbJob(ToDbJob(j)) ==
      j.(isDeleted := Some(j.isDeleted.GetOr(false)), isArchived := Some(j.isArchived.GetOr(false)))
  {
    JobRowJsonColumns(j);
    OptStringColumn(j.invoiceNumber);
    OptStringColumn(j.quoteNumber);
    OptStringColumn(j.estimatedDispatchDate);
    OptStringColumn(j.updatedAt);
    OptStringColumn(j.completedAt);
    OptStringColumn(j.deletedAt);
    OptStringColumn(j.archivedAt);
  }

  /** Spelling precedence differs by field: the camelCase name wins for the
      customer name and the deletion flag, the snake_case name wins for
      `updatedAt` and `completedAt`. */
  lemma KeyPrecedence(r: JobRow)
    ensures r.customerName.camel.JsString? ==> FromDbJob(r).customerName == r.customerName.camel.s
    ensures r.isDeleted.camel.JsBool? ==> FromDbJob(r).isDeleted == Some(r.isDeleted.camel.b)
    ensures r.updatedAt.snake.JsString? ==> FromDbJob(r).updatedAt == Some(r.updatedAt.snake.s)
    ensures r.completedAt.snake.JsString? ==> FromDbJob(r).completedAt == Some(r.completedAt.snake.s)
    ensures Nullish(r.updatedAt.snake) && r.updatedAt.camel.JsString? ==>
      FromDbJob(r).updatedAt == Some(r.updatedAt.camel.s)
  {
  }

  const EmptyJobRow := JobRow(JsUndefined, JsUndefined, Missing, Missing, JsUndefined, Missing, Missing,
    JsUndefined, JsUndefined, JsUndefined, JsUndefined, JsUndefined, JsUndefined, JsUndefined, Missing,
    Missing, Missing, Missing, Missing, Missing, Missing, Missing, Missing)

  /** Missing cells decode to the defaults. */
  lemma EmptyRowDefaults()
    ensures var j := FromDbJob(EmptyJobRow);
      && j.id == "" && j.category == "Repair" && j.importance == "Medium" && j.status == "not started"
      && j.items == [] && j.isDeleted == Some(false) && j.isArchived == Some(false)
      && j.updatedAt.None? && j.totalPaid.None? && j.measurements.None?
  {
  }

  // ---------------------------------------------------------------------
  // Audit entries

  function FromDbAudit(r: AuditRow): AuditEntry {
    AuditEntry(
      StringOr(r.id, ""),
      OptString(CamelFirst(r.jobId)),
      StringOr(r.action, ActionJobUpdated),
      StringOr(r.timestamp, ""),
      StringOr(r.summary, ""),
      OptString(SnakeFirst(r.clientId)))
  }

  /** An entry as uploaded: an entry without a client id is stamped with this client's. */
  function ToDbAudit(e: AuditEntry, clientId: string): (r: AuditRow)
    ensures r.clientId.snake == JsString(if e.clientId.Some? then e.clientId.value else clientId)
  {
    AuditRow(
      JsString(e.id),
      Column(StringOrNull(e.jobId)),
      JsString(e.action),
      JsString(e.timestamp),
      JsString(e.summary),
      Column(JsString(e.clientId.GetOr(clientId))))
  }

  /** An entry read back from its row is unchanged, except that a missing
      client id has become this client's. */
  lemma AuditRowRoundTrip(e: AuditEntry, clientId: string)
    ensures FromDbAudit(ToDbAudit(e, clientId)) == e.(clientId := Some(e.clientId.GetOr(clientId)))
  {
  }

  // ---------------------------------------------------------------------
  // Queries and bookings

  function FromDbQuery(r: QueryRow): Query {
    Query(
      StringOr(r.id, ""),
      StringOr(CamelFirst(r.customerName), ""),
      StringOr(CamelFirst(r.phoneNumber), ""),
      StringOr(r.description, ""),
      DecodeSeq(r.items, DecodeQueryItem),
      StringOr(r.date, ""),
      OptString(SnakeFirst(r.updatedAt)),
      Some(BoolOr(CamelFirst(r.isDeleted), false)),
      OptString(CamelFirst(r.deletedAt)))
  }

  function ToDbQuery(q: Query): QueryRow {
    QueryRow(
      JsString(q.id),
      Column(JsString(q.customerName)),
      Column(JsString(q.phoneNumber)),
      JsString(q.description),
      EncodeSeq(q.items, EncodeQueryItem),
      JsString(q.date),
      Column(StringOrNull(q.updatedAt)),
      Column(JsBool(q.isDeleted.GetOr(false))),
      Column(StringOrNull(q.deletedAt)))
  }

  lemma QueryRowRoundTrip(q: Query)
    ensures FromDbQuery(ToDbQuery(q)) == q.(isDeleted := Some(q.isDeleted.GetOr(false)))
  {
    JsonColumnsRoundTrip();
    DecodeEncodeSeq(q.items, EncodeQueryItem, DecodeQueryItem);
  }

  /** A booking from a row; the row has no status, so neither has the result. */
  function FromDbBooking(r: BookingRow): (b: Booking)
    ensures b.status.None?
  {
    Booking(
      StringOr(r.id, ""),
      StringOr(CamelFirst(r.customerName), ""),
      StringOr(CamelFirst(r.phoneNumber), ""),
      StringOr(CamelFirst(r.carMake), ""),
      StringOr(CamelFirst(r.carModel), ""),
      OptString(CamelFirst(r.carOther)),
      RealOr(r.quote, 0.0),
      StringOr(r.date, ""),
      None,
      OptString(SnakeFirst(r.updatedAt)),
      Some(BoolOr(CamelFirst(r.isDeleted), false)),
      OptString(CamelFirst(r.deletedAt)))
  }

  function ToDbBooking(b: Booking): BookingRow {
    BookingRow(
      JsString(b.id),
      Column(JsString(b.customerName)),
      Column(JsString(b.phoneNumber)),
      Column(JsString(b.carMake)),
      Column(JsString(b.carModel)),
      Column(StringOrNull(b.carOther)),
      JsNumber(Finite(b.quote)),
      JsString(b.date),
      Column(StringOrNull(b.updatedAt)),
      Column(JsBool(b.isDeleted.GetOr(false))),
      Column(StringOrNull(b.deletedAt)))
  }

  /** A booking read back from its row has lost its status: a booking with a
      status never survives the round trip. */
  lemma BookingRowRoundTrip(b: Booking)
    ensures FromDbBooking(ToDbBooking(b)) == b.(status := None, isDeleted := Some(b.isDeleted.GetOr(false)))
    ensures b.status.Some? ==> FromDbBooking(ToDbBooking(b)) != b
  {
  }

  // ---------------------------------------------------------------------
  // Upload (pushStateToSupabase)

  /** One upsert call. The record upserts hold the records; the rows sent
      are those records mapped by `ToDbJob`, `ToDbQuery` or `ToDbBooking`
      (see `Rows`). The audit upsert holds its rows. */
  datatype Upsert =
    | JobsUpsert(jobs: seq<Job>)
    | QueriesUpsert(queries: seq<Query>)
    | BookingsUpsert(bookings: seq<Booking>)
    | AuditUpsert(auditRows: seq<AuditRow>)
  {
    function Table(): string {
      match this
      case JobsUpsert(_) => TableJobs
      case QueriesUpsert(_) => TableQueries
      case BookingsUpsert(_) => TableBookings
      case AuditUpsert(_) => TableAudit
    }
  }

  /** The job rows of a jobs upsert. */
  function JobRows(u: Upsert): seq<JobRow>
    requires u.JobsUpsert?
  {
    Map(u.jobs, ToDbJob)
  }

  /** Downloading the job rows an upload sent gives back the jobs, with unset
      deletion and archive flags read as false. */
  lemma {:induction false} UploadedJobsReadBack(jobs: seq<Job>)
    ensures var back := Map(JobRows(JobsUpsert(jobs)), FromDbJob);
      |back| == |jobs| &&
      forall i :: 0 <= i < |jobs| ==>
        back[i] == jobs[i].(isDeleted := Some(jobs[i].isDeleted.GetOr(false)),
                            isArchived := Some(jobs[i].isArchived.GetOr(false)))
  {
    forall i | 0 <= i < |jobs|
      ensures Map(JobRows(JobsUpsert(jobs)), FromDbJob)[i] ==
        jobs[i].(isDeleted := Some(jobs[i].isDeleted.GetOr(false)), isArchived := Some(jobs[i].isArchived.GetOr(false)))
    {
      JobRowRoundTrip(jobs[i]);
    }
  }

  /** What an upload reports: the audit watermark to keep, and an error message
      when an upsert failed. */
  datatype PushResult = PushResult(lastAuditId: Option<string>, error: Option<string>)

  /** `findIndex(e => e.id === id)`: the first position with the id, or -1. */
  function FirstIndexOf(audit: seq<AuditEntry>, id: string): (k: int)
    ensures -1 <= k < |audit|
    ensures k >= 0 ==> audit[k].id == id && forall m :: 0 <= m < k ==> audit[m].id != id
    ensures k == -1 ==> forall m :: 0 <= m < |audit| ==> audit[m].id != id
  {
    if audit == [] then -1
    else if audit[0].id == id then 0
    else
      var k := FirstIndexOf(audit[1..], id);
      if k == -1 then -1 else k + 1
  }

  /** The entries not yet uploaded: those before the watermark entry (the log
      is newest first), or the whole log when the watermark is unset or gone. */
  function UnsyncedAudit(audit: seq<AuditEntry>, lastAuditId: Option<string>): (r: seq<AuditEntry>)
    ensures Truthy(lastAuditId) && FirstIndexOf(audit, lastAuditId.value) >= 0 ==>
      r == audit[..FirstIndexOf(audit, lastAuditId.value)]
    ensures !(Truthy(lastAuditId) && FirstIndexOf(audit, lastAuditId.value) >= 0) ==> r == audit
    ensures forall e :: e in r && Truthy(lastAuditId) ==> e.id != lastAuditId.value
  {
    if Truthy(lastAuditId) && FirstIndexOf(audit, lastAuditId.value) >= 0 then
      audit[..FirstIndexOf(audit, lastAuditId.value)]
    else audit
  }

  /** An entry this client may upload: unowned, or its own. */
  predicate Uploadable(e: AuditEntry, clientId: string) {
    !Truthy(e.clientId) || e.clientId == Some(clientId)
  }

  function PendingAudit(audit: seq<AuditEntry>, lastAuditId: Option<string>, clientId: string): (rows: seq<AuditRow>)
    ensures |rows| <= |audit|
  {
    Map(Filter(UnsyncedAudit(audit, lastAuditId), e => Uploadable(e, clientId)), e => ToDbAudit(e, clientId))
  }

  /** Uploaded audit rows carry this client's id, or an empty id that was
      already on the entry: another client's entry is never re-uploaded. */
  lemma PendingAuditOwned(audit: seq<AuditEntry>, lastAuditId: Option<string>, clientId: string)
    ensures forall r :: r in PendingAudit(audit, lastAuditId, clientId) ==>
      r.clientId == Column(JsString(clientId)) || r.clientId == Column(JsString(""))
  {
    var kept := Filter(UnsyncedAudit(audit, lastAuditId), e => Uploadable(e, clientId));
    var rows := PendingAudit(audit, lastAuditId, clientId);
    forall r | r in rows
      ensures r.clientId == Column(JsString(clientId)) || r.clientId == Column(JsString(""))
    {
      var i :| 0 <= i < |rows| && rows[i] == r;
      assert r == ToDbAudit(kept[i], clientId);
      assert Uploadable(kept[i], clientId);
    }
  }

  /** The rows uploaded are those of the unsynced entries alone: an entry
      this client may upload gives its row, every row comes from such an
      entry, and an entry past the watermark gives none. */
  lemma PendingAuditSpec(audit: seq<AuditEntry>, lastAuditId: Option<string>, clientId: string)
    ensures PendingAudit(audit, lastAuditId, clientId) == PendingAudit(UnsyncedAudit(audit, lastAuditId), None, clientId)
    ensures forall e :: e in UnsyncedAudit(audit, lastAuditId) && Uploadable(e, clientId) ==>
      ToDbAudit(e, clientId) in PendingAudit(audit, lastAuditId, clientId)
    ensures forall r :: r in PendingAudit(audit, lastAuditId, clientId) ==>
      exists e :: e in UnsyncedAudit(audit, lastAuditId) && Uploadable(e, clientId) && r == ToDbAudit(e, clientId)
  {
    var unsynced := UnsyncedAudit(audit, lastAuditId);
    var kept := Filter(unsynced, e => Uploadable(e, clientId));
    var rows := PendingAudit(audit, lastAuditId, clientId);
    assert UnsyncedAudit(unsynced, None) == unsynced;
    forall e | e in unsynced && Uploadable(e, clientId)
      ensures ToDbAudit(e, clientId) in rows
    {
      FilterCount(unsynced, e => Uploadable(e, clientId), e);
      var i :| 0 <= i < |kept| && kept[i] == e;
      assert rows[i] == ToDbAudit(e, clientId);
    }
    forall r | r in rows
      ensures exists e :: e in unsynced && Uploadable(e, clientId) && r == ToDbAudit(e, clientId)
    {
      var i :| 0 <= i < |rows| && rows[i] == r;
      FilterCount(unsynced, e => Uploadable(e, clientId), kept[i]);
      assert kept[i] in multiset(kept);
      assert kept[i] in unsynced && Uploadable(kept[i], clientId) && r == ToDbAudit(kept[i], clientId);
    }
  }

  /** One entry gives its row when this client may upload it, none otherwise. */
  lemma PendingAuditSingle(e: AuditEntry, clientId: string)
    ensures PendingAudit([e], None, clientId) == if Uploadable(e, clientId) then [ToDbAudit(e, clientId)] else []
  {
    assert [e][1..] == [];
  }

  /** Rows keep the log's order: the rows of a log are those of its first
      part followed by those of the rest. */
  lemma PendingAuditConcat(older: seq<AuditEntry>, newer: seq<AuditEntry>, clientId: string)
    ensures PendingAudit(newer + older, None, clientId) == PendingAudit(newer, None, clientId) + PendingAudit(older, None, clientId)
  {
    var p := e => Uploadable(e, clientId);
    assert UnsyncedAudit(newer + older, None) == newer + older;
    FilterConcat(newer, older, p);
    MapConcat(Filter(newer, p), Filter(older, p), e => ToDbAudit(e, clientId));
  }

  /** The watermark a successful upload reports: the newest entry's id, or the
      old watermark when the log is empty. */
  function NewWatermark(audit: seq<AuditEntry>, lastAuditId: Option<string>): Option<string> {
    if |audit| > 0 then Some(audit[0].id) else lastAuditId
  }

  /** What an upload reports. It fails exactly when a database client exists
      and an upsert that is attempted fails; the first failure is reported.
      A failed upload keeps the old watermark; a successful one moves it to
      the newest log entry. Without a client nothing is attempted. */
  function PushReport(state: RootState, clientId: string, lastAuditId: Option<string>, configured: bool,
                      jobsError: Option<string>, queriesError: Option<string>, bookingsError: Option<string>,
                      auditError: Option<string>): (r: PushResult)
    ensures r.error.Some? <==>
      configured && (jobsError.Some? || queriesError.Some? || bookingsError.Some?
                     || (|PendingAudit(state.jobs.audit, lastAuditId, clientId)| > 0 && auditError.Some?))
    ensures r.error.Some? ==> r.lastAuditId == lastAuditId
    ensures r.error.None? && configured ==> r.lastAuditId == NewWatermark(state.jobs.audit, lastAuditId)
    ensures !configured ==> r.lastAuditId == lastAuditId
    ensures configured && jobsError.Some? ==> r.error == jobsError
    ensures configured && jobsError.None? && queriesError.Some? ==> r.error == queriesError
    ensures configured && jobsError.None? && queriesError.None? && bookingsError.Some? ==> r.error == bookingsError
    ensures r.error.Some? && jobsError.None? && queriesError.None? && bookingsError.None? ==> r.error == auditError
  {
    if !configured then PushResult(lastAuditId, None)
    else if jobsError.Some? then PushResult(lastAuditId, jobsError)
    else if queriesError.Some? then PushResult(lastAuditId, queriesError)
    else if bookingsError.Some? then PushResult(lastAuditId, bookingsError)
    else if |PendingAudit(state.jobs.audit, lastAuditId, clientId)| > 0 && auditError.Some? then
      PushResult(lastAuditId, auditError)
    else PushResult(NewWatermark(state.jobs.audit, lastAuditId), None)
  }

  /** The tables an upload writes, in order. */
  const PushOrder := [TableJobs, TableQueries, TableBookings, TableAudit]

  /** The upsert calls an upload makes: a prefix of jobs, queries, bookings,
      audit that ends at the first failing call; the audit rows are sent only
      when the three record upserts succeeded and there are pending entries. */
  function PushCalls(state: RootState, clientId: string, lastAuditId: Option<string>, configured: bool,
                     jobsError: Option<string>, queriesError: Option<string>, bookingsError: Option<string>)
    : seq<Upsert>
  {
    if !configured then []
    else if jobsError.Some? then [JobsUpsert(state.jobs.jobs)]
    else if queriesError.Some? then [JobsUpsert(state.jobs.jobs), QueriesUpsert(state.queries.queries)]
    else if bookingsError.Some? then [JobsUpsert(state.jobs.jobs), QueriesUpsert(state.queries.queries), BookingsUpsert(state.bookings.bookings)]
    else
      var pending := PendingAudit(state.jobs.audit, lastAuditId, clientId);
      [JobsUpsert(state.jobs.jobs), QueriesUpsert(state.queries.queries), BookingsUpsert(state.bookings.bookings)] + (if |pending| > 0 then [AuditUpsert(pending)] else [])
  }

  /** The calls of an upload follow the table order and stop at the first
      failure: the calls after a failing one are never made. */
  lemma PushCallsOrder(state: RootState, clientId: string, lastAuditId: Option<string>, configured: bool,
                       jobsError: Option<string>, queriesError: Option<string>, bookingsError: Option<string>)
    ensures var calls := PushCalls(state, clientId, lastAuditId, configured, jobsError, queriesError, bookingsError);
      && (calls == [] <==> !configured)
      && |calls| <= 4 && (forall i :: 0 <= i < |calls| ==> calls[i].Table() == PushOrder[i])
      && (|calls| >= 2 ==> jobsError.None?)
      && (|calls| >= 3 ==> queriesError.None?)
      && (|calls| == 4 ==> bookingsError.None?)
      && (configured && jobsError.None? ==> |calls| >= 2)
      && (configured && jobsError.None? && queriesError.None? ==> |calls| >= 3)
  {
  }

  /** What is sent: every job, query and booking as a row, and the audit rows
      exactly when the record upserts succeeded and some entries are pending. */
  lemma PushCallsContent(state: RootState, clientId: string, lastAuditId: Option<string>, configured: bool,
                         jobsError: Option<string>, queriesError: Option<string>, bookingsError: Option<string>)
    ensures var calls := PushCalls(state, clientId, lastAuditId, configured, jobsError, queriesError, bookingsError);
      var pending := PendingAudit(state.jobs.audit, lastAuditId, clientId);
      && (|calls| >= 1 ==> calls[0] == JobsUpsert(state.jobs.jobs))
      && (|calls| >= 2 ==> calls[1] == QueriesUpsert(state.queries.queries))
      && (|calls| >= 3 ==> calls[2] == BookingsUpsert(state.bookings.bookings))
      && (|calls| == 4 <==> configured && jobsError.None? && queriesError.None? && bookingsError.None? && |pending| > 0)
      && (|calls| == 4 ==> calls[3] == AuditUpsert(pending))
  {
  }

  /** The upload: jobs, queries and bookings are upserted in turn and the first
      failure ends it; then the unsynced audit entries are upserted when there
      are any. `configured` says whether a database client exists; each
      `...Error` is the failure an upsert would report, if any. `upserts` lists
      the calls made, in order. */
  method Push(state: RootState, clientId: string, lastAuditId: Option<string>, configured: bool,
              jobsError: Option<string>, queriesError: Option<string>, bookingsError: Option<string>,
              auditError: Option<string>)
    returns (result: PushResult, upserts: seq<Upsert>)
    ensures result == PushReport(state, clientId, lastAuditId, configured, jobsError, queriesError, bookingsError, auditError)
    ensures upserts == PushCalls(state, clientId, lastAuditId, configured, jobsError, queriesError, bookingsError)
  {
    if !configured {
      return PushResult(lastAuditId, None), [];
    }
    var audit := state.jobs.audit;
    upserts := [JobsUpsert(state.jobs.jobs)];
    if jobsError.Some? {
      return PushResult(lastAuditId, jobsError), upserts;
    }
    upserts := upserts + [QueriesUpsert(state.queries.queries)];
    if queriesError.Some? {
      return PushResult(lastAuditId, queriesError), upserts;
    }
    upserts := upserts + [BookingsUpsert(state.bookings.bookings)];
    if bookingsError.Some? {
      return PushResult(lastAuditId, bookingsError), upserts;
    }
    var newAuditEntries := audit;
    if Truthy(lastAuditId) {
      var index := FirstIndexOf(audit, lastAuditId.value);
      if index >= 0 {
        newAuditEntries := audit[..index];
      }
    }
    assert newAuditEntries == UnsyncedAudit(audit, lastAuditId);
    var pendingAudit := PendingAudit(audit, lastAuditId, clientId);
    if |pendingAudit| > 0 {
      upserts := upserts + [AuditUpsert(pendingAudit)];
      if auditError.Some? {
        return PushResult(lastAuditId, auditError), upserts;
      }
    }
    result := PushResult(if |audit| > 0 then Some(audit[0].id) else lastAuditId, None);
  }

  // ---------------------------------------------------------------------
  // Download (fetchSupabaseState)

  /** The response to one table query. */
  datatype Response<R> = Rows(rows: seq<R>) | Failed(message: string)

  datatype FetchResult = FetchResult(
    jobs: Option<seq<Job>>,
    audit: Option<seq<AuditEntry>>,
    queries: Option<seq<Query>>,
    bookings: Option<seq<Booking>>,
    error: Option<string>)

  function ErrorOnly(message: string): FetchResult {
    FetchResult(None, None, None, None, Some(message))
  }

  const NotConfiguredMessage := "Supabase client not configured."

  /** What a download reports: all four lists, mapped, when every table was
      read; otherwise only the message of the first failure, the tables being
      read in the order jobs, audit, queries, bookings. */
  function FetchReport(configured: bool, jobsResp: Response<JobRow>, auditResp: Response<AuditRow>,
                       queriesResp: Response<QueryRow>, bookingsResp: Response<BookingRow>): (r: FetchResult)
    ensures r.error.None? <==> configured && jobsResp.Rows? && auditResp.Rows? && queriesResp.Rows? && bookingsResp.Rows?
    ensures r.error.Some? ==> r.jobs.None? && r.audit.None? && r.queries.None? && r.bookings.None?
    ensures r.error.None? ==>
      && r.jobs == Some(Map(jobsResp.rows, FromDbJob)) && r.audit == Some(Map(auditResp.rows, FromDbAudit))
      && r.queries == Some(Map(queriesResp.rows, FromDbQuery)) && r.bookings == Some(Map(bookingsResp.rows, FromDbBooking))
    ensures !configured ==> r.error == Some(NotConfiguredMessage)
    ensures configured && jobsResp.Failed? ==> r.error == Some(jobsResp.message)
    ensures configured && jobsResp.Rows? && auditResp.Failed? ==> r.error == Some(auditResp.message)
    ensures configured && jobsResp.Rows? && auditResp.Rows? && queriesResp.Failed? ==> r.error == Some(queriesResp.message)
    ensures configured && jobsResp.Rows? && auditResp.Rows? && queriesResp.Rows? && bookingsResp.Failed? ==>
      r.error == Some(bookingsResp.message)
  {
    if !configured then ErrorOnly(NotConfiguredMessage)
    else if jobsResp.Failed? then ErrorOnly(jobsResp.message)
    else if auditResp.Failed? then ErrorOnly(auditResp.message)
    else if queriesResp.Failed? then ErrorOnly(queriesResp.message)
    else if bookingsResp.Failed? then ErrorOnly(bookingsResp.message)
    else FetchResult(Some(Map(jobsResp.rows, FromDbJob)), Some(Map(auditResp.rows, FromDbAudit)),
                     Some(Map(queriesResp.rows, FromDbQuery)), Some(Map(bookingsResp.rows, FromDbBooking)), None)
  }

  /** The download: the four tables in turn, stopping at the first failure.
      The audit response holds what the server returns for the newest-first,
      200-row query. `queried` lists the tables asked, in order. */
  method Fetch(configured: bool, jobsResp: Response<JobRow>, auditResp: Response<AuditRow>,
               queriesResp: Response<QueryRow>, bookingsResp: Response<BookingRow>)
    returns (result: FetchResult, queried: seq<string>)
    ensures result == FetchReport(configured, jobsResp, auditResp, queriesResp, bookingsResp)
    ensures !configured ==> queried == []
    ensures configured && jobsResp.Failed? ==> queried == [TableJobs]
    ensures configured && jobsResp.Rows? && auditResp.Failed? ==> queried == [TableJobs, TableAudit]
    ensures configured && jobsResp.Rows? && auditResp.Rows? && queriesResp.Failed? ==>
      queried == [TableJobs, TableAudit, TableQueries]
    ensures configured && jobsResp.Rows? && auditResp.Rows? && queriesResp.Rows? ==>
      queried == [TableJobs, TableAudit, TableQueries, TableBookings]
  {
    if !configured {
      return ErrorOnly(NotConfiguredMessage), [];
    }
    queried := [TableJobs];
    if jobsResp.Failed? {
      return ErrorOnly(jobsResp.message), queried;
    }
    queried := queried + [TableAudit];
    if auditResp.Failed? {
      return ErrorOnly(auditResp.message), queried;
    }
    queried := queried + [TableQueries];
    if queriesResp.Failed? {
      return ErrorOnly(queriesResp.message), queried;
    }
    queried := queried + [TableBookings];
    if bookingsResp.Failed? {
      return ErrorOnly(bookingsResp.message), queried;
    }
    var jobs := Map(jobsResp.rows, FromDbJob);
    var audit := Map(auditResp.rows, FromDbAudit);
    var queries := Map(queriesResp.rows, FromDbQuery);
    var bookings := Map(bookingsResp.rows, FromDbBooking);
    result := FetchResult(Some(jobs), Some(audit), Some(queries), Some(bookings), None);
  }

  // ---------------------------------------------------------------------
  // Realtime audit inserts

  /** An inserted audit row is passed on unless it carries this client's id. */
  function RealtimeAudit(row: AuditRow, clientId: string): (delivered: Option<AuditEntry>)
    ensures var e := FromDbAudit(row);
      delivered.None? <==> Truthy(e.clientId) && e.clientId.value == clientId
    ensures delivered.Some? ==> delivered.value == FromDbAudit(row)
  {
    var entry := FromDbAudit(row);
    if Truthy(entry.clientId) && entry.clientId.value == clientId then None else Some(entry)
  }

  /** An entry this client uploaded comes back through realtime and is dropped. */
  lemma OwnUploadIsNotEchoed(e: AuditEntry, clientId: string)
    requires clientId != "" && (e.clientId.None? || e.clientId == Some(clientId))
    ensures RealtimeAudit(ToDbAudit(e, clientId), clientId).None?
  {
    AuditRowRoundTrip(e, clientId);
  }
}
