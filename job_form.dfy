/** The new-job form: its "amount paid" calculator, which reads the typed
    sum strictly from left to right, the draft it submits, and the customer
    look-up that fills in a known customer's phone number and address. */
module JobForm {
  import opened Base
  import opened Model
  import opened Lists
  import opened ExprTokens
  import JEM = JobEditModal

  // ---------------------------------------------------------------------
  // The left-to-right calculator

  /** `parseFloat(tokens[k]) || 0`: an operator, or a position past the
      end, counts as 0. */
  function OperandAt(ts: seq<Token>, k: nat): (v: real)
    ensures v >= 0.0
  {
    if k < |ts| then Operand(ts[k]) else 0.0
  }

  /** One step: '+', '-' and '*' apply, a number where an operator should be
      does nothing. */
  function ApplyOp(result: real, t: Token, x: real): real {
    if t == Operator('+') then result + x
    else if t == Operator('-') then result - x
    else if t == Operator('*') then Times(result, x)
    else result
  }

  /** The product of the running result and an operand. */
  function Times(a: real, b: real): real {
    a * b
  }

  /** The fold over the operator positions i, i + 2, ... */
  function FoldFrom(result: real, ts: seq<Token>, i: nat): real
    decreases |ts| - i
  {
    if i >= |ts| then result
    else FoldFrom(ApplyOp(result, ts[i], OperandAt(ts, i + 1)), ts, i + 2)
  }

  function Max0(x: real): (r: real)
    ensures r >= 0.0 && r >= x && (r == 0.0 || r == x)
  {
    if x < 0.0 then 0.0 else x
  }

  /** The whole calculator as a function of the typed text. */
  function Evaluate(expr: string): (r: real)
    ensures r >= 0.0
  {
    var sanitized := Sanitize(expr);
    if sanitized == [] then 0.0
    else
      var ts := Tokens(sanitized);
      if ts == [] then 0.0
      else Max0(FoldFrom(Operand(ts[0]), ts, 1))
  }

  /** `evaluateMathExpression` of the form: start from the first token and
      apply each operator to the running result and the token after it.
      Every operand is coerced to a number, so the result is never NaN and
      never negative. */
  method EvaluateMathExpression(expr: string) returns (r: real)
    ensures r == Evaluate(expr)
    ensures r >= 0.0
    ensures Sanitize(expr) == [] ==> r == 0.0
  {
    var sanitized := Sanitize(expr);
    if sanitized == [] {
      return 0.0;
    }
    var tokens := Tokens(sanitized);
    if tokens == [] {
      return 0.0;
    }
    var result := Operand(tokens[0]);
    ghost var start := result;
    var i: nat := 1;
    while i < |tokens|
      invariant FoldFrom(result, tokens, i) == FoldFrom(start, tokens, 1)
      decreases |tokens| - i
    {
      var operator := tokens[i];
      var operand := if i + 1 < |tokens| then Operand(tokens[i + 1]) else 0.0;
      ghost var next := ApplyOp(result, operator, operand);
      FoldStep(result, tokens, i);
      if operator == Operator('+') {
        result := result + operand;
      } else if operator == Operator('-') {
        result := result - operand;
      } else if operator == Operator('*') {
        result := Times(result, operand);
      }
      assert result == next;
      i := i + 2;
    }
    r := Max0(result);
  }

  /** One turn of the loop is one step of the fold. */
  lemma FoldStep(result: real, ts: seq<Token>, i: nat)
    requires i < |ts|
    ensures FoldFrom(result, ts, i) ==
      FoldFrom(ApplyOp(result, ts[i], if i + 1 < |ts| then Operand(ts[i + 1]) else 0.0), ts, i + 2)
  {
  }

  /** Typed "2+3*4" gives 20 here: (2 + 3) * 4. */
  lemma EvaluateSample(s: string)
    requires s == "2+3*4"
    ensures Evaluate(s) == 20.0
  {
    TokensOfSample(s);
    var ts := [Number("2"), Operator('+'), Number("3"), Operator('*'), Number("4")];
    DigitValueOfOne('2');
    DigitValueOfOne('3');
    DigitValueOfOne('4');
    assert FoldFrom(Operand(ts[0]), ts, 1) == FoldFrom(5.0, ts, 3);
  }

  /** The two calculators disagree on "2+3*4": 20 on the new-job form, 14 in
      the edit modal. */
  lemma CalculatorsDisagree(s: string)
    requires s == "2+3*4"
    ensures Evaluate(s) == 20.0 && JEM.Evaluate(s) == Finite(14.0)
  {
    EvaluateSample(s);
    JEM.EvaluateSample(s);
  }

  /** The fold of a stream whose operators are all '+' or '-', with the
      numbers read by `value`. */
  function SumFold(x: real, ts: seq<Token>, i: nat, value: Token -> real): real
    decreases |ts| - i
  {
    if i + 1 >= |ts| then x
    else SumFold(if ts[i] == Operator('-') then x - value(ts[i + 1]) else x + value(ts[i + 1]), ts, i + 2, value)
  }

  /** Where every remaining operator is '+' or '-', the calculator's fold
      is that sum. */
  lemma {:induction false} FoldIsSum(x: real, ts: seq<Token>, i: nat)
    requires |ts| % 2 == 1 && i % 2 == 1 && i <= |ts|
    requires forall k :: i <= k < |ts| && k % 2 == 1 ==> ts[k] == Operator('+') || ts[k] == Operator('-')
    ensures FoldFrom(x, ts, i) == SumFold(x, ts, i, Operand)
    decreases |ts| - i
  {
    if i < |ts| {
      var v := OperandAt(ts, i + 1);
      assert v == Operand(ts[i + 1]);
      SumStep(x, ts[i], v);
      FoldIsSum(ApplyOp(x, ts[i], v), ts, i + 2);
    }
  }

  /** The calculator's step on '+' or '-'. */
  lemma SumStep(x: real, t: Token, v: real)
    requires t == Operator('+') || t == Operator('-')
    ensures ApplyOp(x, t, v) == if t == Operator('-') then x - v else x + v
  {
  }

  /** On a stream whose remaining operators are '+' or '-', the sum from
      the left reaches the precedence value at every operator position i. */
  lemma {:induction false} SumAgrees(ts: seq<Token>, i: nat, x: real, value: Token -> real)
    requires |ts| % 2 == 1 && i % 2 == 1 && i <= |ts|
    requires forall k :: i <= k < |ts| && k % 2 == 0 ==> ts[k].Number?
    requires forall k :: i <= k < |ts| && k % 2 == 1 ==> ts[k] == Operator('+') || ts[k] == Operator('-')
    requires |JEM.NumsOf(ts[..i], value)| == |JEM.OpsOf(ts[..i])| + 1
    requires Finite(x) == JEM.PrecValue(JEM.NumsOf(ts[..i], value), JEM.OpsOf(ts[..i]))
    ensures |JEM.NumsOf(ts, value)| == |JEM.OpsOf(ts)| + 1
    ensures Finite(SumFold(x, ts, i, value)) == JEM.PrecValue(JEM.NumsOf(ts, value), JEM.OpsOf(ts))
    decreases |ts| - i
  {
    if i == |ts| {
      assert ts[..i] == ts;
    } else {
      assert i + 1 < |ts| && ts[i + 1].Number?;
      var v := value(ts[i + 1]);
      var y := if ts[i] == Operator('-') then x - v else x + v;
      SumInvariantStep(ts, i, x, value);
      SumAgrees(ts, i + 2, y, value);
    }
  }

  /** Reading one more operator and number keeps the running sum equal to
      the precedence value of the prefix read so far. */
  lemma SumInvariantStep(ts: seq<Token>, i: nat, x: real, value: Token -> real)
    requires i + 2 <= |ts| && ts[i + 1].Number? && (ts[i] == Operator('+') || ts[i] == Operator('-'))
    requires |JEM.NumsOf(ts[..i], value)| == |JEM.OpsOf(ts[..i])| + 1
    requires Finite(x) == JEM.PrecValue(JEM.NumsOf(ts[..i], value), JEM.OpsOf(ts[..i]))
    ensures |JEM.NumsOf(ts[..i + 2], value)| == |JEM.OpsOf(ts[..i + 2])| + 1
    ensures Finite(if ts[i] == Operator('-') then x - value(ts[i + 1]) else x + value(ts[i + 1])) ==
      JEM.PrecValue(JEM.NumsOf(ts[..i + 2], value), JEM.OpsOf(ts[..i + 2]))
  {
    PrefixStep(ts, value, i);
    PrecStep(JEM.NumsOf(ts[..i], value), JEM.OpsOf(ts[..i]), ts[i].op, value(ts[i + 1]));
  }

  /** Two more tokens, an operator and a number, add one operator and one
      number to the split. */
  lemma PrefixStep(ts: seq<Token>, value: Token -> real, i: nat)
    requires i + 2 <= |ts| && ts[i].Operator? && ts[i + 1].Number?
    ensures JEM.NumsOf(ts[..i + 2], value) == JEM.NumsOf(ts[..i], value) + [Finite(value(ts[i + 1]))]
    ensures JEM.OpsOf(ts[..i + 2]) == JEM.OpsOf(ts[..i]) + [ts[i].op]
  {
    JEM.SplitSnoc(ts[..i], value, ts[i]);
    JEM.SplitSnoc(ts[..i + 1], value, ts[i + 1]);
    assert ts[..i] + [ts[i]] == ts[..i + 1];
    assert ts[..i + 1] + [ts[i + 1]] == ts[..i + 2];
  }

  /** Appending '+ v' or '- v' adds or subtracts v from the precedence
      value. */
  lemma PrecStep(nums: seq<Num>, ops: seq<char>, o: char, v: real)
    requires |nums| == |ops| + 1 && (o == '+' || o == '-')
    ensures JEM.PrecValue(nums + [Finite(v)], ops + [o]) ==
      if o == '+' then JEM.NumAdd(JEM.PrecValue(nums, ops), Finite(v))
      else JEM.NumSub(JEM.PrecValue(nums, ops), Finite(v))
  {
    assert (nums + [Finite(v)])[..|ops| + 1] == nums && (ops + [o])[..|ops|] == ops;
  }

  /** Without '*' the two calculators agree on every well-formed sum. */
  lemma AgreesWithoutProducts(expr: string)
    requires WellFormed(Tokens(Sanitize(expr))) && NoProducts(Tokens(Sanitize(expr)))
    ensures JEM.Evaluate(expr) == Finite(Evaluate(expr))
  {
    var ts := Tokens(Sanitize(expr));
    JEM.EvaluateWellFormed(expr);
    JEM.SplitSnoc([], Operand, ts[0]);
    assert [] + [ts[0]] == ts[..1];
    forall k | 1 <= k < |ts| && k % 2 == 1
      ensures ts[k] == Operator('+') || ts[k] == Operator('-')
    {
      assert ts[k].Operator? && IsOperatorChar(ts[k].op) && ts[k] != Operator('*');
    }
    FoldIsSum(Operand(ts[0]), ts, 1);
    SumAgrees(ts, 1, Operand(ts[0]), Operand);
  }

  // ---------------------------------------------------------------------
  // The submitted draft

  /** The form's state. */
  datatype NewJobForm = NewJobForm(
    customerName: string,
    phoneNumber: string,
    address: string,
    invoiceNumber: string,
    quoteNumber: string,
    description: string,
    date: string,
    estimatedDispatchDate: string,
    category: string,
    items: seq<JobItem>,
    measurements: seq<Measurement>,
    attachments: seq<Attachment>,
    totalPaid: real)

  /** `JobDraft`: a job without its id and status. */
  datatype JobDraft = JobDraft(
    customerName: string,
    phoneNumber: string,
    address: string,
    invoiceNumber: Option<string>,
    quoteNumber: Option<string>,
    importance: string,
    description: string,
    date: string,
    estimatedDispatchDate: Option<string>,
    category: string,
    items: seq<JobItem>,
    measurements: Option<seq<Measurement>>,
    attachments: Option<seq<Attachment>>,
    totalPaid: Option<real>)

  /** The measurements sent: the non-blank rows of a fabrication job, and
      nothing when there are none. */
  function DraftMeasurements(category: string, rows: seq<Measurement>): (r: Option<seq<Measurement>>)
    ensures r.Some? <==> category == CategoryFabrication && Filter(rows, JEM.MeasurementKept) != []
    ensures r.Some? ==> r.value == Filter(rows, JEM.MeasurementKept)
  {
    var kept := Filter(rows, JEM.MeasurementKept);
    if category == CategoryFabrication && kept != [] then Some(kept) else None
  }

  /** `handleSubmit`'s draft. Unlike the edit modal, blank items are dropped
      with no fallback. `urgency` is `getUrgencyFromDate` on the day of the
      submit. */
  function SubmitDraft(form: NewJobForm, urgency: string -> Importance): (d: JobDraft)
    ensures d.customerName == form.customerName && d.phoneNumber == form.phoneNumber
    ensures d.address == form.address && d.description == form.description
    ensures d.date == form.date && d.category == form.category
    ensures d.invoiceNumber.None? <==> Trim(form.invoiceNumber) == ""
    ensures d.quoteNumber.None? <==> Trim(form.quoteNumber) == ""
    ensures d.estimatedDispatchDate.None? <==> form.estimatedDispatchDate == ""
    ensures d.importance == urgency(if form.estimatedDispatchDate != "" then form.estimatedDispatchDate else form.date).Name()
    ensures d.attachments.None? <==> form.attachments == []
    ensures d.totalPaid.Some? <==> form.totalPaid > 0.0
    ensures d.invoiceNumber.Some? ==> d.invoiceNumber.value == Trim(form.invoiceNumber)
    ensures d.quoteNumber.Some? ==> d.quoteNumber.value == Trim(form.quoteNumber)
    ensures d.estimatedDispatchDate.Some? ==> d.estimatedDispatchDate.value == form.estimatedDispatchDate
    ensures d.attachments.Some? ==> d.attachments.value == form.attachments
    ensures d.totalPaid.Some? ==> d.totalPaid.value == form.totalPaid
    // The rows, as DraftItems and DraftMeasurements describe them.
    ensures d.items == Filter(form.items, JEM.ItemKept)
    ensures d.measurements == DraftMeasurements(form.category, form.measurements)
  {
    var dueDate := if form.estimatedDispatchDate != "" then form.estimatedDispatchDate else form.date;
    JobDraft(
      form.customerName, form.phoneNumber, form.address,
      JEM.TrimmedNumber(form.invoiceNumber), JEM.TrimmedNumber(form.quoteNumber),
      urgency(dueDate).Name(),
      form.description, form.date,
      JEM.NonEmpty(form.estimatedDispatchDate),
      form.category,
      Filter(form.items, JEM.ItemKept),
      DraftMeasurements(form.category, form.measurements),
      JEM.SavedAttachments(form.attachments),
      if form.totalPaid > 0.0 then Some(form.totalPaid) else None)
  }

  /** The draft's items are exactly the kept items, each as often as in the
      form, and all of them are kept. */
  lemma DraftItems(form: NewJobForm, urgency: string -> Importance, item: JobItem)
    ensures forall i :: 0 <= i < |SubmitDraft(form, urgency).items| ==> JEM.ItemKept(SubmitDraft(form, urgency).items[i])
    ensures multiset(SubmitDraft(form, urgency).items)[item] ==
      if JEM.ItemKept(item) then multiset(form.items)[item] else 0
  {
    FilterCount(form.items, JEM.ItemKept, item);
  }

  /** Measurements are sent only for a fabrication job with a non-blank row,
      and then only non-blank rows. */
  lemma DraftMeasurementRows(form: NewJobForm, urgency: string -> Importance)
    ensures var d := SubmitDraft(form, urgency);
      d.measurements.Some? <==>
        form.category == CategoryFabrication
        && exists i :: 0 <= i < |form.measurements| && JEM.MeasurementKept(form.measurements[i])
    ensures var d := SubmitDraft(form, urgency);
      d.measurements.Some? ==> forall i :: 0 <= i < |d.measurements.value| ==> JEM.MeasurementKept(d.measurements.value[i])
  {
    FilterEmpty(form.measurements, JEM.MeasurementKept);
  }

  // ---------------------------------------------------------------------
  // Customer look-up

  /** A customer matches when its name, lower-cased, equals the typed
      value trimmed and lower-cased: only the typed value is trimmed. */
  predicate NameMatches(c: Customer, value: string) {
    Lower(c.name) == Lower(Trim(value))
  }

  /** The search predicate for a typed value. */
  function Matcher(value: string): Customer -> bool {
    (c: Customer) => NameMatches(c, value)
  }

  /** `customers.find(c => c.name.toLowerCase() === value.trim().toLowerCase())`. */
  function FindCustomer(customers: seq<Customer>, value: string): (r: Option<Customer>)
    ensures r.Some? ==> r.value in customers && NameMatches(r.value, value)
  {
    Find(customers, Matcher(value))
  }

  /** The look-up returns the first matching customer, and nothing only when
      no customer matches. */
  lemma FindCustomerFirst(customers: seq<Customer>, value: string)
    ensures FindCustomer(customers, value).None? <==>
      forall i :: 0 <= i < |customers| ==> !NameMatches(customers[i], value)
    ensures FindCustomer(customers, value).Some? ==>
      exists i :: 0 <= i < |customers| && customers[i] == FindCustomer(customers, value).value
        && forall k :: 0 <= k < i ==> !NameMatches(customers[k], value)
  {
    FindFirst(customers, Matcher(value));
  }

  /** `handleCustomerNameChange`: the name is set to the typed value, and a
      matching customer's phone number and address replace the form's only
      where they are non-empty. */
  function CustomerNameChange(form: NewJobForm, customers: seq<Customer>, value: string): (r: NewJobForm)
    ensures r.customerName == value
    ensures r == form.(customerName := value, phoneNumber := r.phoneNumber, address := r.address)
    ensures r.phoneNumber != form.phoneNumber ==>
      FindCustomer(customers, value).Some? && r.phoneNumber == FindCustomer(customers, value).value.phoneNumber != ""
    ensures r.address != form.address ==>
      FindCustomer(customers, value).Some? && r.address == FindCustomer(customers, value).value.address != ""
    ensures FindCustomer(customers, value).Some? && FindCustomer(customers, value).value.phoneNumber != "" ==>
      r.phoneNumber == FindCustomer(customers, value).value.phoneNumber
    ensures FindCustomer(customers, value).Some? && FindCustomer(customers, value).value.address != "" ==>
      r.address == FindCustomer(customers, value).value.address
  {
    var named := form.(customerName := value);
    match FindCustomer(customers, value)
    case None => named
    case Some(c) =>
      named.(
        phoneNumber := if c.phoneNumber != "" then c.phoneNumber else named.phoneNumber,
        address := if c.address != "" then c.address else named.address)
  }
}
