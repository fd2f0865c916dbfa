/** Due-date urgency: reading a due date, the whole number of days until it,
    the urgency level that day count falls in, and the label shown for it.
    Calendar arithmetic (`new Date`, `setHours`) is not modelled: the
    start-of-day instants are given, and `Number` and `new Date(string)` are
    parameters. */
module Urgency {
  import opened Base
  import opened Model

  const MsPerDay := 1000 * 60 * 60 * 24

  /** What `toLocalDate` builds: a local date from numeric year, month and day
      parts (the month already shifted to the constructor's zero-based
      index), or the instant `new Date(value)` parsed. */
  datatype LocalDate = FromParts(year: real, monthIndex: real, day: real) | Parsed(ms: int)

  /** The value splits on '-' into exactly three parts, none of them NaN. */
  predicate ThreeNumericParts(value: string, number: string -> Num) {
    var parts := Split(value, '-');
    |parts| == 3 && number(parts[0]).Finite? && number(parts[1]).Finite? && number(parts[2]).Finite?
  }

  /** `toLocalDate`: null for the empty string; the Y-M-D components when the
      value has exactly three numeric parts; otherwise whatever `new Date`
      makes of it, null for an invalid date. */
  function ToLocalDate(value: string, number: string -> Num, parseDate: string -> ParsedTime): (r: Option<LocalDate>)
    ensures value == "" ==> r.None?
    ensures value != "" && ThreeNumericParts(value, number) ==>
      var parts := Split(value, '-');
      r == Some(FromParts(number(parts[0]).v, number(parts[1]).v - 1.0, number(parts[2]).v))
    ensures value != "" && !ThreeNumericParts(value, number) ==>
      (r.Some? <==> parseDate(value).At?) && (r.Some? ==> r.value == Parsed(parseDate(value).ms))
  {
    if value == "" then None
    else if ThreeNumericParts(value, number) then
      var parts := Split(value, '-');
      Some(FromParts(number(parts[0]).v, number(parts[1]).v - 1.0, number(parts[2]).v))
    else if parseDate(value).At? then Some(Parsed(parseDate(value).ms))
    else None
  }

  /** `Math.round(n / m)` for a positive divisor: halves round up. */
  function RoundDiv(n: int, m: int): (r: int)
    requires m > 0
    ensures -m <= 2 * (n - m * r) < m
  {
    var q := (2 * n + m) / (2 * m);
    var rem := (2 * n + m) % (2 * m);
    assert 2 * n + m == (2 * m) * q + rem && 0 <= rem < 2 * m;
    q
  }

  /** A due day a whole number of days away counts exactly those days. */
  lemma WholeDaysExact(k: int)
    ensures RoundDiv(MsPerDay * k, MsPerDay) == k
  {
    var r := RoundDiv(MsPerDay * k, MsPerDay);
    assert MsPerDay * k - MsPerDay * r == MsPerDay * (k - r);
  }

  /** `getDaysUntil`: null when there is no due date, else the rounded number
      of days from the start of today to the start of the due day. */
  function DaysUntil(due: Option<LocalDate>, dayStart: LocalDate -> int, todayStart: int): (r: Option<int>)
    ensures r.None? <==> due.None?
    ensures r.Some? ==> -MsPerDay <= 2 * (dayStart(due.value) - todayStart - MsPerDay * r.value) < MsPerDay
  {
    if due.None? then None else Some(RoundDiv(dayStart(due.value) - todayStart, MsPerDay))
  }

  /** The board's sort rank of an importance: Urgent first, Low last. */
  function ImportanceRank(i: Importance): (r: nat)
    ensures r <= 3
    ensures (r == 0) == (i == Urgent) && (r == 3) == (i == Low)
  {
    match i
    case Urgent => 0
    case High => 1
    case Medium => 2
    case Low => 3
  }

  /** `getUrgencyFromDate` over the day count. */
  function UrgencyFromDays(days: Option<int>): (r: Importance)
    ensures days.None? ==> r == Medium
    ensures days.Some? ==>
      && (r == Urgent <==> days.value <= UrgentThresholdDays)
      && (r == High <==> UrgentThresholdDays < days.value <= HighThresholdDays)
      && (r == Medium <==> HighThresholdDays < days.value <= MediumThresholdDays)
      && (r == Low <==> MediumThresholdDays < days.value)
  {
    if days.None? then Medium
    else if days.value <= UrgentThresholdDays then Urgent
    else if days.value <= HighThresholdDays then High
    else if days.value <= MediumThresholdDays then Medium
    else Low
  }

  /** More days left never makes a job more urgent. */
  lemma UrgencyMonotone(d1: int, d2: int)
    requires d1 <= d2
    ensures ImportanceRank(UrgencyFromDays(Some(d1))) <= ImportanceRank(UrgencyFromDays(Some(d2)))
  {
  }

  /** The week count shown for a day count of two weeks or more. */
  function Weeks(days: int): (w: int)
    requires days >= 14
    ensures w >= 2 && -7 <= 2 * (days - 7 * w) < 7
  {
    var rounded := RoundDiv(days, 7);
    if rounded > 2 then rounded else 2
  }

  /** The label of a job overdue by n days. */
  function OverdueLabel(n: nat): string {
    "Overdue by " + NatToString(n) + " day" + (if n == 1 then "" else "s")
  }

  /** The label of a job due in 2 to 13 days. */
  function DaysLabel(n: nat): string {
    "Due in " + NatToString(n) + " days"
  }

  /** `formatDueLabel` over the day count. */
  function DueLabel(days: Option<int>): (r: string)
    ensures days.None? ==> r == "No due date"
    ensures days == Some(0) ==> r == "Due Today"
    ensures days == Some(1) ==> r == "Due Tomorrow"
    ensures days.Some? && days.value < 0 ==>
      r == "Overdue by " + NatToString(-days.value) + (if days.value == -1 then " day" else " days")
    ensures days.Some? && days.value >= 14 ==> r == "Due in " + NatToString(Weeks(days.value)) + " weeks"
    ensures days.Some? && 2 <= days.value < 14 ==> r == "Due in " + NatToString(days.value) + " days"
  {
    match days
    case None => "No due date"
    case Some(d) =>
      if d == 0 then "Due Today"
      else if d == 1 then "Due Tomorrow"
      else if d < 0 then OverdueLabel(-d)
      else if d >= 14 then "Due in " + NatToString(Weeks(d)) + " weeks"
      else DaysLabel(d)
  }

  /** Rendered digits followed by text that does not start with a digit can
      be split back: the digit run is exactly the rendered number. */
  lemma DigitsThenText(n: nat, rest: string)
    requires rest == [] || !IsDigit(rest[0])
    ensures DigitPrefix(NatToString(n) + rest) == NatToString(n)
  {
    DigitPrefixAppend(NatToString(n), rest);
  }

  lemma {:induction false} DigitPrefixAppend(x: string, rest: string)
    requires forall i :: 0 <= i < |x| ==> IsDigit(x[i])
    requires rest == [] || !IsDigit(rest[0])
    ensures DigitPrefix(x + rest) == x
  {
    if x == [] {
      assert x + rest == rest;
    } else {
      DigitPrefixAppend(x[1..], rest);
      assert (x + rest)[1..] == x[1..] + rest;
      assert [x[0]] + x[1..] == x;
    }
  }

  /** Two numbers rendered in front of texts that do not start with a digit
      give the same string only when numbers and texts agree. */
  lemma NumberPrefixInjective(n1: nat, rest1: string, n2: nat, rest2: string)
    requires rest1 == [] || !IsDigit(rest1[0])
    requires rest2 == [] || !IsDigit(rest2[0])
    requires NatToString(n1) + rest1 == NatToString(n2) + rest2
    ensures n1 == n2 && rest1 == rest2
  {
    DigitsThenText(n1, rest1);
    DigitsThenText(n2, rest2);
    DigitsValueOfNatToString(n1);
    DigitsValueOfNatToString(n2);
    var s := NatToString(n1);
    assert (NatToString(n1) + rest1)[|s|..] == rest1;
  }

  lemma OverdueLabelInjective(n1: nat, n2: nat)
    requires OverdueLabel(n1) == OverdueLabel(n2)
    ensures n1 == n2
  {
    var prefix := "Overdue by ";
    var s1 := if n1 == 1 then " day" else " days";
    var s2 := if n2 == 1 then " day" else " days";
    assert OverdueLabel(n1) == prefix + (NatToString(n1) + s1);
    assert OverdueLabel(n2) == prefix + (NatToString(n2) + s2);
    assert (prefix + (NatToString(n1) + s1))[|prefix|..] == NatToString(n1) + s1;
    assert (prefix + (NatToString(n2) + s2))[|prefix|..] == NatToString(n2) + s2;
    NumberPrefixInjective(n1, s1, n2, s2);
  }

  lemma DaysLabelInjective(n1: nat, n2: nat)
    requires DaysLabel(n1) == DaysLabel(n2)
    ensures n1 == n2
  {
    var prefix := "Due in ";
    assert DaysLabel(n1) == prefix + (NatToString(n1) + " days");
    assert DaysLabel(n2) == prefix + (NatToString(n2) + " days");
    assert (prefix + (NatToString(n1) + " days"))[|prefix|..] == NatToString(n1) + " days";
    assert (prefix + (NatToString(n2) + " days"))[|prefix|..] == NatToString(n2) + " days";
    NumberPrefixInjective(n1, " days", n2, " days");
  }

  /** The five kinds of label below two weeks start differently. */
  function LabelKind(d: int): int {
    if d < 0 then 0 else if d == 0 then 1 else if d == 1 then 2 else 3
  }

  lemma LabelKindsDiffer(d1: int, d2: int)
    requires d1 < 14 && d2 < 14 && LabelKind(d1) != LabelKind(d2)
    ensures DueLabel(Some(d1)) != DueLabel(Some(d2))
  {
    var l1 := DueLabel(Some(d1));
    var l2 := DueLabel(Some(d2));
    if LabelKind(d1) == 0 || LabelKind(d2) == 0 {
      assert l1[0] != l2[0];
    } else if LabelKind(d1) == 3 || LabelKind(d2) == 3 {
      assert l1[4] != l2[4];
    } else {
      assert l1[6] != l2[6];
    }
  }

  /** Below two weeks the label tells the exact day count: distinct day counts
      get distinct labels. (From two weeks on, neighbouring counts share a
      week label.) */
  lemma DueLabelInjective(d1: int, d2: int)
    requires d1 < 14 && d2 < 14
    requires DueLabel(Some(d1)) == DueLabel(Some(d2))
    ensures d1 == d2
  {
    if LabelKind(d1) != LabelKind(d2) {
      LabelKindsDiffer(d1, d2);
    } else if d1 < 0 {
      OverdueLabelInjective(-d1, -d2);
    } else if d1 >= 2 {
      DaysLabelInjective(d1, d2);
    }
  }
}
