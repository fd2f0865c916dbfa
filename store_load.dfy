/** Start-up of the store: reading the saved state (browser storage first,
    the jobs file as fallback) and normalising it before it becomes the
    store's preloaded state. Saved state is untyped parsed JSON. */
module StoreLoad {
  import opened Base

  /** The jobs file read: its text, or null when there is none. */
  function LoadFileState(file: Option<string>, parse: string -> Option<JsValue>): (r: Option<JsValue>)
    ensures !Truthy(file) ==> r.None?
    ensures Truthy(file) ==> r == parse(file.value)
  {
    if Truthy(file) then parse(file.value) else None
  }

  /** `loadState`: None is `undefined`. `parse` is JSON.parse, None when it throws. */
  function LoadState(hasWindow: bool, local: StorageRead, file: Option<string>,
                     parse: string -> Option<JsValue>): (r: Option<JsValue>)
    ensures !hasWindow ==> r.None?
    ensures hasWindow && local.Stored? && local.text != "" && parse(local.text).Some? ==>
      r == parse(local.text)
    ensures hasWindow && !(local.Stored? && local.text != "" && parse(local.text).Some?) ==>
      r == LoadFileState(file, parse)
  {
    if !hasWindow then None
    else match local
      case Stored(raw) =>
        if raw == "" then LoadFileState(file, parse)
        else if parse(raw).Some? then parse(raw)
        else LoadFileState(file, parse)
      case Absent => LoadFileState(file, parse)
      case ReadFailed => LoadFileState(file, parse)
  }

  /** Nothing is loaded when neither the storage entry nor the file parses. */
  lemma LoadStateNothing(hasWindow: bool, local: StorageRead, file: Option<string>,
                         parse: string -> Option<JsValue>)
    requires !(local.Stored? && local.text != "" && parse(local.text).Some?)
    requires !(Truthy(file) && parse(file.value).Some?)
    ensures LoadState(hasWindow, local, file, parse).None?
  {
  }

  // ---------------------------------------------------------------------
  // normalizeState

  /** The outcome of normalising: `undefined`, a state, or a TypeError (reading
      a property of a null or undefined list element). */
  datatype Normalized = NoState | Preloaded(state: JsValue) | Throws

  /** `v[key] || fallback`. */
  function OrDefault(v: JsValue, key: string, fallback: JsValue): (r: JsValue)
    ensures JsTruthy(Prop(v, key)) ==> r == Prop(v, key)
    ensures !JsTruthy(Prop(v, key)) ==> r == fallback
  {
    if JsTruthy(Prop(v, key)) then Prop(v, key) else fallback
  }

  /** One record with its missing `updatedAt` (and, for jobs, importance) filled in;
      None when the element is null or undefined. The spread copies a string
      element's characters and an array element's items under their indices. */
  function NormalizeRecord(v: JsValue, now: string, isJob: bool): (r: Option<JsValue>)
    requires now != ""
    ensures r.None? <==> v.JsUndefined? || v.JsNull?
    ensures r.Some? ==> Stamped(r.value, isJob)
    ensures r.Some? && JsTruthy(Prop(v, "updatedAt")) ==> Prop(r.value, "updatedAt") == Prop(v, "updatedAt")
    ensures r.Some? && !JsTruthy(Prop(v, "updatedAt")) ==> Prop(r.value, "updatedAt") == JsString(now)
    ensures r.Some? && isJob && JsTruthy(Prop(v, "importance")) ==>
      Prop(r.value, "importance") == Prop(v, "importance")
    ensures r.Some? && isJob && !JsTruthy(Prop(v, "importance")) ==>
      Prop(r.value, "importance") == JsString("Medium")
  {
    if v.JsUndefined? || v.JsNull? then None
    else
      var fields := SpreadFields(v);
      var withImportance :=
        if isJob then fields["importance" := OrDefault(v, "importance", JsString("Medium"))] else fields;
      Some(JsObject(withImportance["updatedAt" := OrDefault(v, "updatedAt", JsString(now))]))
  }

  /** The spread copies every property of the element; only the two
      defaulted ones are added or replaced. */
  lemma NormalizeRecordSpread(v: JsValue, now: string, isJob: bool)
    requires now != "" && !(v.JsUndefined? || v.JsNull?)
    ensures var r := NormalizeRecord(v, now, isJob).value;
      && r.fields.Keys == SpreadFields(v).Keys + {"updatedAt"} + (if isJob then {"importance"} else {})
      && forall k :: k in SpreadFields(v) && k != "updatedAt" && (isJob ==> k != "importance") ==>
           r.fields[k] == SpreadFields(v)[k]
  {
  }

  /** Some element of the list is null or undefined, so reading its fields throws. */
  predicate HasMissing(xs: seq<JsValue>) {
    exists i :: 0 <= i < |xs| && (xs[i].JsUndefined? || xs[i].JsNull?)
  }

  /** The slice has a list, and normalising that list throws. */
  predicate SliceThrows(slice: JsValue, key: string) {
    JsTruthy(slice) && Prop(slice, key).JsArray? && HasMissing(Prop(slice, key).elems)
  }

  /** An object with a time stamp (and, for a job, an importance). */
  predicate Stamped(v: JsValue, isJob: bool) {
    v.JsObject? && JsTruthy(Prop(v, "updatedAt")) && (isJob ==> JsTruthy(Prop(v, "importance")))
  }

  /** The records of one list, or None when some element throws. */
  function NormalizeList(xs: seq<JsValue>, now: string, isJob: bool): (r: Option<seq<JsValue>>)
    requires now != ""
    ensures r.None? <==> HasMissing(xs)
    ensures r.Some? ==> |r.value| == |xs|
    ensures r.Some? ==> forall i :: 0 <= i < |xs| ==> Some(r.value[i]) == NormalizeRecord(xs[i], now, isJob)
  {
    if xs == [] then Some([])
    else
      var head := NormalizeRecord(xs[0], now, isJob);
      var tail := NormalizeList(xs[1..], now, isJob);
      assert forall i :: 1 <= i < |xs| ==> xs[i] == xs[1..][i - 1];
      assert HasMissing(xs) <==> head.None? || HasMissing(xs[1..]) by {
        if HasMissing(xs[1..]) {
          var i :| 0 <= i < |xs[1..]| && (xs[1..][i].JsUndefined? || xs[1..][i].JsNull?);
          assert xs[i + 1] == xs[1..][i];
        }
      }
      if head.None? || tail.None? then None else Some([head.value] + tail.value)
  }

  /** The queries or bookings slice: its list normalised when it has one, else
      a slice holding an empty list. */
  function NormalizeSlice(slice: JsValue, key: string, now: string): (r: Option<JsValue>)
    requires now != ""
    ensures r.Some? ==> r.value.JsObject? && Prop(r.value, key).JsArray?
    ensures r.None? <==> SliceThrows(slice, key)
    ensures !(JsTruthy(slice) && Prop(slice, key).JsArray?) ==> r == Some(JsObject(map[key := JsArray([])]))
    ensures r.Some? && JsTruthy(slice) && Prop(slice, key).JsArray? ==>
      NormalizeList(Prop(slice, key).elems, now, false) == Some(Prop(r.value, key).elems)
    ensures r.Some? && JsTruthy(slice) && Prop(slice, key).JsArray? ==>
      r.value.fields.Keys == SpreadFields(slice).Keys
    ensures r.Some? && JsTruthy(slice) && Prop(slice, key).JsArray? ==>
      forall k :: k != key ==> Prop(r.value, k) == Prop(slice, k)
  {
    var list := Prop(slice, key);
    if JsTruthy(slice) && list.JsArray? then
      match NormalizeList(list.elems, now, false)
      case None => None
      case Some(elems) => Some(JsObject(SpreadFields(slice)[key := JsArray(elems)]))
    else Some(JsObject(map[key := JsArray([])]))
  }

  /** The state holds a job list. */
  predicate HasJobList(state: JsValue) {
    JsTruthy(state) && JsTruthy(Prop(state, "jobs")) && Prop(Prop(state, "jobs"), "jobs").JsArray?
  }

  /** `now` is an ISO time stamp, so never empty. */
  function NormalizeState(state: JsValue, now: string): (r: Normalized)
    requires now != ""
    ensures r.NoState? <==> !HasJobList(state)
    ensures r.Throws? <==>
      HasJobList(state) &&
      (HasMissing(Prop(Prop(state, "jobs"), "jobs").elems)
       || SliceThrows(Prop(state, "queries"), "queries")
       || SliceThrows(Prop(state, "bookings"), "bookings"))
    // The jobs slice: its list normalised, its audit log an array, the rest kept.
    ensures r.Preloaded? ==>
      && r.state.JsObject? && Prop(r.state, "jobs").JsObject?
      && Prop(Prop(r.state, "jobs"), "jobs").JsArray?
      && NormalizeList(Prop(Prop(state, "jobs"), "jobs").elems, now, true)
         == Some(Prop(Prop(r.state, "jobs"), "jobs").elems)
    ensures r.Preloaded? && Prop(Prop(state, "jobs"), "audit").JsArray? ==>
      Prop(Prop(r.state, "jobs"), "audit") == Prop(Prop(state, "jobs"), "audit")
    ensures r.Preloaded? && !Prop(Prop(state, "jobs"), "audit").JsArray? ==>
      Prop(Prop(r.state, "jobs"), "audit") == JsArray([])
    ensures r.Preloaded? ==>
      forall k :: k != "jobs" && k != "audit" ==> Prop(Prop(r.state, "jobs"), k) == Prop(Prop(state, "jobs"), k)
    // The queries and bookings slices, and every other field of the state.
    ensures r.Preloaded? ==> NormalizeSlice(Prop(state, "queries"), "queries", now) == Some(Prop(r.state, "queries"))
    ensures r.Preloaded? ==> NormalizeSlice(Prop(state, "bookings"), "bookings", now) == Some(Prop(r.state, "bookings"))
    ensures r.Preloaded? ==>
      forall k :: k != "jobs" && k != "queries" && k != "bookings" ==> Prop(r.state, k) == Prop(state, k)
  {
    if !HasJobList(state) then NoState
    else
      var jobs := NormalizeList(Prop(Prop(state, "jobs"), "jobs").elems, now, true);
      var queries := NormalizeSlice(Prop(state, "queries"), "queries", now);
      var bookings := NormalizeSlice(Prop(state, "bookings"), "bookings", now);
      if jobs.None? || queries.None? || bookings.None? then Throws
      else Preloaded(Assemble(state, jobs.value, queries.value, bookings.value))
  }

  /** The object literal of `normalizeState`: the state spread, its jobs slice
      spread with the given list and an array audit log, and the given
      queries and bookings slices. */
  function Assemble(state: JsValue, jobs: seq<JsValue>, queries: JsValue, bookings: JsValue): (r: JsValue)
    requires state.JsObject? && Prop(state, "jobs").JsObject?
    ensures r.JsObject? && Prop(r, "jobs").JsObject?
    ensures Prop(Prop(r, "jobs"), "jobs") == JsArray(jobs)
    ensures Prop(Prop(state, "jobs"), "audit").JsArray? ==>
      Prop(Prop(r, "jobs"), "audit") == Prop(Prop(state, "jobs"), "audit")
    ensures !Prop(Prop(state, "jobs"), "audit").JsArray? ==> Prop(Prop(r, "jobs"), "audit") == JsArray([])
    ensures forall k :: k != "jobs" && k != "audit" ==> Prop(Prop(r, "jobs"), k) == Prop(Prop(state, "jobs"), k)
    ensures Prop(r, "queries") == queries && Prop(r, "bookings") == bookings
    ensures forall k :: k != "jobs" && k != "queries" && k != "bookings" ==> Prop(r, k) == Prop(state, k)
  {
    var slice := Prop(state, "jobs");
    var audit := Prop(slice, "audit");
    var jobsSlice := SpreadFields(slice)["jobs" := JsArray(jobs)]
                                        ["audit" := if audit.JsArray? then audit else JsArray([])];
    JsObject(SpreadFields(state)["jobs" := JsObject(jobsSlice)]["queries" := queries]["bookings" := bookings])
  }

  /** What a normalised state looks like: every list is an array of stamped
      objects and the audit log is an array. */
  predicate WellFormed(v: JsValue) {
    var slice := Prop(v, "jobs");
    var jobs := Prop(slice, "jobs");
    var queries := Prop(Prop(v, "queries"), "queries");
    var bookings := Prop(Prop(v, "bookings"), "bookings");
    && v.JsObject? && slice.JsObject?
    && jobs.JsArray? && (forall i :: 0 <= i < |jobs.elems| ==> Stamped(jobs.elems[i], true))
    && Prop(slice, "audit").JsArray?
    && queries.JsArray? && (forall i :: 0 <= i < |queries.elems| ==> Stamped(queries.elems[i], false))
    && bookings.JsArray? && (forall i :: 0 <= i < |bookings.elems| ==> Stamped(bookings.elems[i], false))
  }

  /** A normalised state has every job, query and booking stamped, jobs with
      an importance, and array-valued audit, queries and bookings. */
  lemma NormalizedIsWellFormed(state: JsValue, now: string)
    requires now != "" && NormalizeState(state, now).Preloaded?
    ensures WellFormed(NormalizeState(state, now).state)
  {
  }

  lemma {:induction false} NormalizeStampedList(xs: seq<JsValue>, now: string, isJob: bool)
    requires now != ""
    requires forall i :: 0 <= i < |xs| ==> Stamped(xs[i], isJob)
    ensures NormalizeList(xs, now, isJob) == Some(xs)
  {
    if xs != [] {
      NormalizeStampedList(xs[1..], now, isJob);
      var v := xs[0];
      assert "updatedAt" in v.fields;
      if isJob {
        assert v.fields["importance" := Prop(v, "importance")]["updatedAt" := Prop(v, "updatedAt")] == v.fields;
      } else {
        assert v.fields["updatedAt" := Prop(v, "updatedAt")] == v.fields;
      }
      assert NormalizeRecord(v, now, isJob) == Some(v);
      assert [xs[0]] + xs[1..] == xs;
    }
  }

  /** A string element spreads into its characters: `"ab"` in the job list
      becomes a record with keys "0" and "1" besides the two defaults. */
  lemma NormalizeStringRecord(now: string)
    requires now != ""
    ensures NormalizeRecord(JsString("ab"), now, true) == Some(JsObject(map[
      "0" := JsString("a"), "1" := JsString("b"),
      "importance" := JsString("Medium"), "updatedAt" := JsString(now)]))
  {
    var a, b := JsString("a"), JsString("b");
    assert CharValues("ab") == [a, b];
    IndexFieldsPair(a, b);
    assert SpreadFields(JsString("ab")) == map["0" := a, "1" := b];
    assert !JsTruthy(Prop(JsString("ab"), "importance")) && !JsTruthy(Prop(JsString("ab"), "updatedAt"));
  }

  /** Two elements spread to the keys "0" and "1". */
  lemma IndexFieldsPair(a: JsValue, b: JsValue)
    ensures IndexFields([a, b]) == map["0" := a, "1" := b]
  {
    var f := IndexFields([a, b]);
    assert NatToString(0) == "0" && NatToString(1) == "1";
    forall k | k in f
      ensures k == "0" || k == "1"
    {
      var i :| 0 <= i < 2 && k == NatToString(i);
    }
    assert f.Keys == {"0", "1"};
  }

  /** A slice whose list is already stamped normalises to itself. */
  lemma NormalizeSliceStable(slice: JsValue, key: string, now: string)
    requires now != "" && slice.JsObject? && Prop(slice, key).JsArray?
    requires forall i :: 0 <= i < |Prop(slice, key).elems| ==> Stamped(Prop(slice, key).elems[i], false)
    ensures NormalizeSlice(slice, key, now) == Some(slice)
  {
    NormalizeStampedList(Prop(slice, key).elems, now, false);
    assert slice.fields[key := Prop(slice, key)] == slice.fields;
  }

  /** Normalising an already normalised state changes nothing, whatever the clock. */
  lemma NormalizeIdempotent(v: JsValue, now: string)
    requires now != "" && WellFormed(v)
    ensures NormalizeState(v, now) == Preloaded(v)
  {
    var slice := Prop(v, "jobs");
    NormalizeStampedList(Prop(slice, "jobs").elems, now, true);
    var q := Prop(v, "queries");
    var b := Prop(v, "bookings");
    NormalizeSliceStable(q, "queries", now);
    NormalizeSliceStable(b, "bookings", now);
    AssembleOwnParts(v);
  }

  /** Assembling a state from its own lists and slices gives it back, when
      its jobs slice already holds a job list and an audit array. */
  lemma AssembleOwnParts(v: JsValue)
    requires v.JsObject? && Prop(v, "jobs").JsObject?
    requires Prop(Prop(v, "jobs"), "jobs").JsArray? && Prop(Prop(v, "jobs"), "audit").JsArray?
    requires "queries" in v.fields && "bookings" in v.fields
    ensures Assemble(v, Prop(Prop(v, "jobs"), "jobs").elems, Prop(v, "queries"), Prop(v, "bookings")) == v
  {
    var slice := Prop(v, "jobs");
    assert slice.fields["jobs" := Prop(slice, "jobs")]["audit" := Prop(slice, "audit")] == slice.fields;
    assert v.fields["jobs" := slice]["queries" := Prop(v, "queries")]["bookings" := Prop(v, "bookings")] == v.fields;
  }
}
