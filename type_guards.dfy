/** Runtime checks on untyped values (parsed JSON, database cells, CSV
    imports): membership in the enumerations, shape checks for item,
    measurement and attachment arrays, and typed reads with a fallback. */
module TypeGuards {
  import opened Base
  import opened Model
  import JR = JobReducer

  /** `isJobCategory`. */
  predicate IsJobCategory(v: JsValue) {
    v.JsString? && (v.s == "Repair" || v.s == "Fabrication" || v.s == "Deliveries and Dispatch")
  }

  /** `isJobStatus`. */
  predicate IsJobStatus(v: JsValue) {
    v.JsString? && (v.s == "complete" || v.s == "in progress" || v.s == "not started"
                    || v.s == "awaiting parts" || v.s == "powdercoaters")
  }

  /** `isJobImportance`. */
  predicate IsJobImportance(v: JsValue) {
    v.JsString? && (v.s == "Low" || v.s == "Medium" || v.s == "High" || v.s == "Urgent")
  }

  /** `isAuditAction`. */
  predicate IsAuditAction(v: JsValue) {
    v.JsString? && (v.s == "JOB_CREATED" || v.s == "JOB_UPDATED" || v.s == "STATUS_UPDATED"
                    || v.s == "JOB_DELETED" || v.s == "JOB_RESTORED" || v.s == "JOBS_CLEARED"
                    || v.s == "JOBS_IMPORTED")
  }

  /** Each enumeration guard accepts exactly the strings of its type, and
      nothing that is not a string. */
  lemma EnumGuardsExact(v: JsValue)
    ensures IsJobCategory(v) <==> v.JsString? && v.s in JobCategories
    ensures IsJobStatus(v) <==> v.JsString? && v.s in JobStatuses
    ensures IsJobImportance(v) <==> v.JsString? && v.s in JobImportances
    ensures IsAuditAction(v) <==> v.JsString? && v.s in AuditActions
  {
  }

  /** Every importance level's name passes the importance guard. */
  lemma ImportanceNamesAccepted(i: Importance)
    ensures IsJobImportance(JsString(i.Name()))
  {
  }

  /** The audit entry the job reducer prepends always carries an action the
      audit guard accepts. */
  lemma ReducerAuditActionsAccepted(s: JR.JobState, a: JR.JobAction, c: JR.Clock)
    requires JR.Audited(a)
    ensures IsAuditAction(JsString(JR.Reduce(s, a, c).audit[0].action))
  {
    JR.AuditActionsDeclared(s, a, c);
    EnumGuardsExact(JsString(JR.Reduce(s, a, c).audit[0].action));
  }

  /** `isJobItem`: an object whose `description` is a string and whose
      `price` is a number (NaN included). Arrays and null have neither. */
  predicate IsJobItem(v: JsValue) {
    v.JsObject? && Prop(v, "description").JsString? && Prop(v, "price").JsNumber?
  }

  predicate IsMeasurement(v: JsValue) {
    v.JsObject? && Prop(v, "label").JsString? && Prop(v, "value").JsString? && Prop(v, "units").JsString?
  }

  predicate IsJobAttachment(v: JsValue) {
    v.JsObject? && Prop(v, "name").JsString? && Prop(v, "dataUrl").JsString?
  }

  /** `Array.prototype.every`, element by element from the front. */
  predicate Every(xs: seq<JsValue>, p: JsValue -> bool)
  {
    if xs == [] then true else p(xs[0]) && Every(xs[1..], p)
  }

  lemma {:induction false} EveryMeansAll(xs: seq<JsValue>, p: JsValue -> bool)
    ensures Every(xs, p) <==> forall i :: 0 <= i < |xs| ==> p(xs[i])
  {
    if xs != [] {
      EveryMeansAll(xs[1..], p);
      assert forall i :: 1 <= i < |xs| ==> xs[i] == xs[1..][i - 1];
    }
  }

  /** `isJobItemArray`. */
  predicate IsJobItemArray(v: JsValue) {
    v.JsArray? && Every(v.elems, IsJobItem)
  }

  predicate IsMeasurementArray(v: JsValue) {
    v.JsArray? && Every(v.elems, IsMeasurement)
  }

  predicate IsJobAttachmentArray(v: JsValue) {
    v.JsArray? && Every(v.elems, IsJobAttachment)
  }

  /** The array guards: an empty array passes; otherwise the array passes iff
      every element has the required shape; a non-array never passes. */
  lemma ArrayGuardsExact(v: JsValue)
    ensures v == JsArray([]) ==> IsJobItemArray(v) && IsMeasurementArray(v) && IsJobAttachmentArray(v)
    ensures IsJobItemArray(v) <==> v.JsArray? && forall i :: 0 <= i < |v.elems| ==> IsJobItem(v.elems[i])
    ensures IsMeasurementArray(v) <==> v.JsArray? && forall i :: 0 <= i < |v.elems| ==> IsMeasurement(v.elems[i])
    ensures IsJobAttachmentArray(v) <==> v.JsArray? && forall i :: 0 <= i < |v.elems| ==> IsJobAttachment(v.elems[i])
  {
    if v.JsArray? {
      EveryMeansAll(v.elems, IsJobItem);
      EveryMeansAll(v.elems, IsMeasurement);
      EveryMeansAll(v.elems, IsJobAttachment);
    }
  }

  /** `validateString`. */
  function ValidateString(v: JsValue, fallback: string): (r: string)
    ensures v.JsString? ==> r == v.s
    ensures !v.JsString? ==> r == fallback
  {
    if v.JsString? then v.s else fallback
  }

  /** `validateNumber`: any number, NaN included, is kept. */
  function ValidateNumber(v: JsValue, fallback: Num): (r: Num)
    ensures v.JsNumber? ==> r == v.n
    ensures !v.JsNumber? ==> r == fallback
  {
    if v.JsNumber? then v.n else fallback
  }

  /** `validateBoolean`. */
  function ValidateBoolean(v: JsValue, fallback: bool): (r: bool)
    ensures v.JsBool? ==> r == v.b
    ensures !v.JsBool? ==> r == fallback
  {
    if v.JsBool? then v.b else fallback
  }

  /** A typed value survives being wrapped and validated again, whatever the
      fallback; the fallback is what comes back for every other kind of value. */
  lemma ValidateRoundTrip(s: string, n: Num, b: bool, other: JsValue, fs: string, fn: Num, fb: bool)
    ensures ValidateString(JsString(s), fs) == s
    ensures ValidateNumber(JsNumber(n), fn) == n
    ensures ValidateBoolean(JsBool(b), fb) == b
    ensures other.JsNull? ==> ValidateString(other, fs) == fs && ValidateNumber(other, fn) == fn
                              && ValidateBoolean(other, fb) == fb
  {
  }
}
