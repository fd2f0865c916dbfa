/** The settings screen's data handling: the CSV export of the jobs, the
    check applied to an imported JSON file, and the labels shown for the
    cloud sync state. The CSV follows section 2 of RFC 4180: records end
    with a line feed between them, fields are separated by commas, and each
    job field is enclosed in double quotes with every inner double quote
    written twice. The model proves that a reader following those rules
    gets back the header and every job's fields. */
module Settings {
  import opened Base
  import opened Model
  import opened Lists
  import SupabaseSync

  // ---------------------------------------------------------------------
  // CSV export

  /** The exported columns, in order. */
  const Headers: seq<string> := ["id", "customerName", "phoneNumber", "address", "invoiceNumber",
    "quoteNumber", "importance", "category", "date", "status", "description"]

  /** `headers.map(key => job[key] ?? '')`: the optional numbers become ""
      when missing. */
  function JobFields(job: Job): (r: seq<string>)
    ensures |r| == |Headers|
  {
    [job.id, job.customerName, job.phoneNumber, job.address,
     OrString(job.invoiceNumber, ""), OrString(job.quoteNumber, ""),
     job.importance, job.category, job.date, job.status, job.description]
  }

  /** `replace(/"/g, '""')`. */
  function EscapeQuotes(s: string): (r: string)
    ensures |r| >= |s|
  {
    if s == [] then []
    else (if s[0] == '"' then "\"\"" else [s[0]]) + EscapeQuotes(s[1..])
  }

  /** A field enclosed in double quotes. */
  function QuoteField(s: string): (r: string)
    ensures |r| >= 2 && r[0] == '"' && r[|r| - 1] == '"'
  {
    "\"" + EscapeQuotes(s) + "\""
  }

  /** One record: the quoted fields joined by commas. */
  function RecordText(fields: seq<string>): string {
    Join(",", Map(fields, QuoteField))
  }

  /** One job's line. */
  function Row(job: Job): string {
    RecordText(JobFields(job))
  }

  /** `handleExportCsv`'s text: the header line, then one record per job,
      joined by line feeds. */
  function ExportCsv(jobs: seq<Job>): string {
    Join("\n", [Join(",", Headers)] + Map(jobs, Row))
  }

  // A reader for the format

  /** The text of a quoted field after its opening quote: a doubled quote
      stands for one quote and a single quote closes the field. Returns the
      field's value and the text after the closing quote. */
  function ParseQuoted(s: string): (r: Option<(string, string)>)
    ensures r.Some? ==> |r.value.1| < |s|
    decreases |s|
  {
    if s == [] then None
    else if s[0] == '"' then
      if |s| > 1 && s[1] == '"' then Prepend('"', ParseQuoted(s[2..])) else Some(("", s[1..]))
    else Prepend(s[0], ParseQuoted(s[1..]))
  }

  function Prepend(c: char, r: Option<(string, string)>): (p: Option<(string, string)>)
    ensures p.Some? <==> r.Some?
    ensures p.Some? ==> p.value == ([c] + r.value.0, r.value.1)
  {
    match r
    case None => None
    case Some((v, rest)) => Some(([c] + v, rest))
  }

  /** A record of quoted fields separated by commas; returns the fields and
      the text after the record. */
  function ParseRecord(s: string): (r: Option<(seq<string>, string)>)
    ensures r.Some? ==> |r.value.1| < |s|
    decreases |s|
  {
    if s == [] || s[0] != '"' then None
    else
      var field := ParseQuoted(s[1..]);
      if field.None? then None
      else
        var rest := field.value.1;
        if rest != [] && rest[0] == ',' then
          var more := ParseRecord(rest[1..]);
          if more.None? then None else Some(([field.value.0] + more.value.0, more.value.1))
        else Some(([field.value.0], rest))
  }

  /** Records separated by line feeds, up to the end of the text. */
  function ParseRows(s: string): Option<seq<seq<string>>>
    decreases |s|
  {
    if s == [] then Some([])
    else
      var record := ParseRecord(s);
      if record.None? then None
      else
        var rest := record.value.1;
        if rest == [] then Some([record.value.0])
        else if rest[0] == '\n' then
          var rows := ParseRows(rest[1..]);
          if rows.None? then None else Some([record.value.0] + rows.value)
        else None
  }

  /** The text before the first line feed, and the text after it if there
      is one. */
  function FirstLine(s: string): (r: (string, Option<string>))
  {
    if s == [] then ("", None)
    else if s[0] == '\n' then ("", Some(s[1..]))
    else ([s[0]] + FirstLine(s[1..]).0, FirstLine(s[1..]).1)
  }

  /** The header names (the unquoted first line split at commas) and the
      records after it. */
  function DecodeCsv(csv: string): Option<(seq<string>, seq<seq<string>>)> {
    var (line, body) := FirstLine(csv);
    if body.None? then Some((Split(line, ','), []))
    else match ParseRows(body.value)
      case None => None
      case Some(rows) => Some((Split(line, ','), rows))
  }

  /** A quoted field reads back as its value, whatever follows the closing
      quote as long as it is not another quote. */
  lemma {:induction false} QuotedRoundTrip(v: string, rest: string)
    requires rest == [] || rest[0] != '"'
    ensures ParseQuoted(EscapeQuotes(v) + "\"" + rest) == Some((v, rest))
  {
    var s := EscapeQuotes(v) + "\"" + rest;
    if v == [] {
      assert s == "\"" + rest;
      assert s[1..] == rest;
    } else {
      QuotedRoundTrip(v[1..], rest);
      var tail := EscapeQuotes(v[1..]) + "\"" + rest;
      if v[0] == '"' {
        assert s == "\"\"" + tail;
        assert s[2..] == tail;
      } else {
        assert s == [v[0]] + tail;
        assert s[1..] == tail;
      }
      assert [v[0]] + v[1..] == v;
    }
  }

  /** The last field of a record, followed by the end of the text or a
      line feed. */
  lemma RecordLast(v: string, rest: string)
    requires rest == [] || rest[0] == '\n'
    ensures ParseRecord(QuoteField(v) + rest) == Some(([v], rest))
  {
    var s := QuoteField(v) + rest;
    QuotedRoundTrip(v, rest);
    assert s[1..] == EscapeQuotes(v) + "\"" + rest;
  }

  /** A field followed by a comma and further fields. */
  lemma RecordMore(v: string, more: string, vs: seq<string>, rest: string)
    requires ParseRecord(more + rest) == Some((vs, rest))
    ensures ParseRecord(QuoteField(v) + "," + more + rest) == Some(([v] + vs, rest))
  {
    var after := "," + more + rest;
    var s := QuoteField(v) + "," + more + rest;
    assert s[0] == '"';
    assert ParseQuoted(s[1..]) == Some((v, after)) by {
      assert s[1..] == EscapeQuotes(v) + "\"" + after;
      QuotedRoundTrip(v, after);
    }
    assert after[0] == ',' && after[1..] == more + rest;
  }

  /** A record's text is its first quoted field, then a comma and the rest
      when there are more fields. */
  lemma RecordTextCons(fields: seq<string>)
    requires |fields| >= 1
    ensures |fields| == 1 ==> RecordText(fields) == QuoteField(fields[0])
    ensures |fields| > 1 ==> RecordText(fields) == QuoteField(fields[0]) + "," + RecordText(fields[1..])
  {
    var quoted := Map(fields, QuoteField);
    assert quoted[1..] == Map(fields[1..], QuoteField);
  }

  /** A record reads back as its fields when it is followed by the end of
      the text or a line feed. */
  lemma {:induction false} RecordRoundTrip(fields: seq<string>, rest: string)
    requires |fields| >= 1 && (rest == [] || rest[0] == '\n')
    ensures ParseRecord(RecordText(fields) + rest) == Some((fields, rest))
    decreases |fields|
  {
    RecordTextCons(fields);
    if |fields| == 1 {
      RecordLast(fields[0], rest);
      assert [fields[0]] == fields;
    } else {
      RecordRoundTrip(fields[1..], rest);
      RecordMore(fields[0], RecordText(fields[1..]), fields[1..], rest);
      assert [fields[0]] + fields[1..] == fields;
    }
  }

  /** The last record of the text. */
  lemma RowsLast(r: string, fields: seq<string>)
    requires ParseRecord(r) == Some((fields, ""))
    ensures ParseRows(r) == Some([fields])
  {
  }

  /** A record followed by a line feed and further records. */
  lemma RowsMore(r: string, fields: seq<string>, more: string, rows: seq<seq<string>>)
    requires ParseRecord(r + ("\n" + more)) == Some((fields, "\n" + more))
    requires ParseRows(more) == Some(rows)
    ensures ParseRows(r + ("\n" + more)) == Some([fields] + rows)
  {
    assert ("\n" + more)[1..] == more;
  }

  /** Record i of the joined texts reads back as `records[i]`, followed by
      the line feed and the records after it, or by nothing for the last. */
  ghost predicate ReadsBackAt(texts: seq<string>, records: seq<seq<string>>, i: int)
    requires 0 <= i < |texts| == |records|
  {
    var rest := if i + 1 < |texts| then "\n" + Join("\n", texts[i + 1..]) else "";
    texts[i] != [] && ParseRecord(texts[i] + rest) == Some((records[i], rest))
  }

  /** Records that read back, joined by line feeds, read back as the list
      of their fields. */
  lemma {:induction false} RowsRoundTrip(texts: seq<string>, records: seq<seq<string>>)
    requires |texts| == |records|
    requires forall i :: 0 <= i < |texts| ==> ReadsBackAt(texts, records, i)
    ensures ParseRows(Join("\n", texts)) == Some(records)
  {
    if |texts| == 1 {
      RowsSingle(texts, records);
    } else if |texts| > 1 {
      RowsShift(texts, records);
      RowsRoundTrip(texts[1..], records[1..]);
      RowsCons(texts, records);
    }
  }

  /** One record alone. */
  lemma RowsSingle(texts: seq<string>, records: seq<seq<string>>)
    requires |texts| == |records| == 1 && ReadsBackAt(texts, records, 0)
    ensures ParseRows(Join("\n", texts)) == Some(records)
  {
    assert texts[0] + "" == texts[0];
    RowsLast(texts[0], records[0]);
    assert records == [records[0]];
  }

  /** The records after the first still read back. */
  lemma RowsShift(texts: seq<string>, records: seq<seq<string>>)
    requires |texts| == |records| > 1
    requires forall i :: 0 <= i < |texts| ==> ReadsBackAt(texts, records, i)
    ensures forall i :: 0 <= i < |texts| - 1 ==> ReadsBackAt(texts[1..], records[1..], i)
  {
    forall i | 0 <= i < |texts| - 1
      ensures ReadsBackAt(texts[1..], records[1..], i)
    {
      assert ReadsBackAt(texts, records, i + 1);
      assert texts[1..][i + 1..] == texts[i + 2..];
    }
  }

  /** The first record, a line feed, and the rest. */
  lemma RowsCons(texts: seq<string>, records: seq<seq<string>>)
    requires |texts| == |records| > 1 && ReadsBackAt(texts, records, 0)
    requires ParseRows(Join("\n", texts[1..])) == Some(records[1..])
    ensures ParseRows(Join("\n", texts)) == Some(records)
  {
    var more := Join("\n", texts[1..]);
    assert ReadsBackAt(texts, records, 0);
    RowsMore(texts[0], records[0], more, records[1..]);
    JoinCons("\n", texts);
    assert [records[0]] + records[1..] == records;
  }

  /** Joining two or more parts is the first, the separator, and the rest
      joined. */
  lemma JoinCons(sep: string, parts: seq<string>)
    requires |parts| > 1
    ensures Join(sep, parts) == parts[0] + (sep + Join(sep, parts[1..]))
  {
    assert parts[0] + sep + Join(sep, parts[1..]) == parts[0] + (sep + Join(sep, parts[1..]));
  }

  /** Every job's line reads back as that job's fields. */
  lemma JobRowsReadBack(jobs: seq<Job>)
    ensures forall i :: 0 <= i < |jobs| ==> ReadsBackAt(Map(jobs, Row), Map(jobs, JobFields), i)
  {
    var texts := Map(jobs, Row);
    forall i | 0 <= i < |jobs|
      ensures ReadsBackAt(texts, Map(jobs, JobFields), i)
    {
      var rest := if i + 1 < |texts| then "\n" + Join("\n", texts[i + 1..]) else "";
      RecordRoundTrip(JobFields(jobs[i]), rest);
      RecordTextCons(JobFields(jobs[i]));
    }
  }

  /** A character in none of the parts nor the separator is not in the
      joined text. */
  lemma {:induction false} JoinAvoids(sep: string, parts: seq<string>, c: char)
    requires forall i :: 0 <= i < |sep| ==> sep[i] != c
    requires forall k, i :: 0 <= k < |parts| && 0 <= i < |parts[k]| ==> parts[k][i] != c
    ensures forall i :: 0 <= i < |Join(sep, parts)| ==> Join(sep, parts)[i] != c
  {
    if |parts| > 1 {
      JoinAvoids(sep, parts[1..], c);
      var rest := Join(sep, parts[1..]);
      assert Join(sep, parts) == parts[0] + sep + rest;
      forall i | 0 <= i < |Join(sep, parts)|
        ensures Join(sep, parts)[i] != c
      {
        if i < |parts[0]| {
        } else if i < |parts[0]| + |sep| {
        } else {
          assert Join(sep, parts)[i] == rest[i - |parts[0]| - |sep|];
        }
      }
    }
  }

  /** Splitting the joined parts at the separator gives the parts back when
      none of them holds it. */
  lemma {:induction false} SplitJoin(parts: seq<string>, sep: char)
    requires |parts| >= 1
    requires forall k, i :: 0 <= k < |parts| && 0 <= i < |parts[k]| ==> parts[k][i] != sep
    ensures Split(Join([sep], parts), sep) == parts
  {
    if |parts| == 1 {
      SplitWithoutSep(parts[0], sep);
    } else {
      SplitJoin(parts[1..], sep);
      SplitAfterFirst(parts[0], sep, Join([sep], parts[1..]));
      assert [parts[0]] + parts[1..] == parts;
    }
  }

  /** The first line of `a + "\n" + b` is a when a has no line feed, and a
      text without one is a single line. */
  lemma {:induction false} FirstLineOf(a: string, b: Option<string>)
    requires forall i :: 0 <= i < |a| ==> a[i] != '\n'
    ensures FirstLine(if b.Some? then a + "\n" + b.value else a) == (a, b)
  {
    var s := if b.Some? then a + "\n" + b.value else a;
    if a != [] {
      FirstLineOf(a[1..], b);
      assert s[1..] == if b.Some? then a[1..] + "\n" + b.value else a[1..];
      assert [a[0]] + a[1..] == a;
    } else if b.Some? {
      assert s == "\n" + b.value;
    }
  }

  /** No header name holds a comma, a line feed or a double quote. */
  lemma HeadersArePlain()
    ensures forall k, i :: 0 <= k < |Headers| && 0 <= i < |Headers[k]| ==>
      Headers[k][i] != ',' && Headers[k][i] != '\n' && Headers[k][i] != '"'
  {
    forall k, i | 0 <= k < |Headers| && 0 <= i < |Headers[k]|
      ensures Headers[k][i] != ',' && Headers[k][i] != '\n' && Headers[k][i] != '"'
    {
      assert 'a' <= Headers[k][i] <= 'z' || 'A' <= Headers[k][i] <= 'Z';
    }
  }

  /** Reading the exported text back per section 2 of RFC 4180 gives the 11
      header names and then exactly one record per job, in order, holding
      that job's fields: every record has as many fields as the header. */
  lemma ExportRoundTrip(jobs: seq<Job>)
    ensures DecodeCsv(ExportCsv(jobs)) == Some((Headers, Map(jobs, JobFields)))
    ensures |Map(jobs, JobFields)| == |jobs|
    ensures forall i :: 0 <= i < |jobs| ==> |Map(jobs, JobFields)[i]| == |Headers|
  {
    var header := Join(",", Headers);
    HeaderLine();
    var rows := Map(jobs, Row);
    if jobs == [] {
      assert ExportCsv(jobs) == header;
      FirstLineOf(header, None);
    } else {
      assert ExportCsv(jobs) == header + "\n" + Join("\n", rows) by {
        assert ([header] + rows)[1..] == rows;
      }
      FirstLineOf(header, Some(Join("\n", rows)));
      JobRowsReadBack(jobs);
      RowsRoundTrip(rows, Map(jobs, JobFields));
    }
  }

  /** The header line has no line feed and splits back into the names. */
  lemma HeaderLine()
    ensures forall i :: 0 <= i < |Join(",", Headers)| ==> Join(",", Headers)[i] != '\n'
    ensures Split(Join(",", Headers), ',') == Headers
  {
    HeadersArePlain();
    JoinAvoids(",", Headers, '\n');
    SplitJoin(Headers, ',');
    assert [','] == ",";
  }

  // ---------------------------------------------------------------------
  // JSON import

  /** What an import does: nothing but an alert, nothing at all (the user
      declined), or replace the job list with the parsed array. */
  datatype ImportOutcome = Alert | Declined | ReplaceJobs(jobs: seq<JsValue>)

  /** `handleImportJson` once the file is read: `parse` is JSON.parse (None
      when it throws) and `confirmed` is the answer to the confirmation
      dialog, asked only about an array. */
  function ImportJson(text: string, parse: string -> Option<JsValue>, confirmed: bool): (r: ImportOutcome)
    ensures r.Alert? <==> parse(text).None? || !parse(text).value.JsArray?
    ensures r.ReplaceJobs? <==> confirmed && parse(text).Some? && parse(text).value.JsArray?
    ensures r.ReplaceJobs? ==> parse(text) == Some(JsArray(r.jobs))
  {
    match parse(text)
    case None => Alert
    case Some(parsed) =>
      if !parsed.JsArray? then Alert
      else if !confirmed then Declined
      else ReplaceJobs(parsed.elems)
  }

  // ---------------------------------------------------------------------
  // Sync state labels

  /** `syncStateLabel`. */
  function SyncStateLabel(phase: SupabaseSync.SyncPhase): string {
    match phase
    case Idle => "Not synced"
    case Syncing => "Syncing..."
    case Success => "Synced"
    case Error => "Error"
  }

  /** `syncStateClass`: no class while idle. */
  function SyncStateClass(phase: SupabaseSync.SyncPhase): string {
    match phase
    case Success => "sync-success"
    case Error => "sync-error"
    case Syncing => "sync-syncing"
    case Idle => ""
  }

  /** Each of the four states has its own label and its own class, and only
      the idle state has no class. */
  lemma SyncLabelsDistinct(a: SupabaseSync.SyncPhase, b: SupabaseSync.SyncPhase)
    ensures SyncStateLabel(a) == SyncStateLabel(b) <==> a == b
    ensures SyncStateClass(a) == SyncStateClass(b) <==> a == b
    ensures SyncStateClass(a) == "" <==> a.Idle?
  {
    assert "Not synced"[0] != "Syncing..."[1];
    assert "Synced"[5] != "Syncing..."[5];
  }
}
