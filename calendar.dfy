/** The bookings calendar: a month grid of day cells starting on Monday,
    `YYYY-MM-DD` day keys, month navigation, bookings grouped by day and the
    drag-and-drop reschedule rule. The browser's `Date` enters as parameters:
    the weekday of the first of the month and the number of days in it. */
module Calendar {
  import opened Base
  import opened Model
  import opened Lists
  import Ids
  import BookingReducer

  // -------------------------------------------------------------------
  // Weekdays and day keys

  /** `getFirstDayOfWeek`: `Date.getDay` counts from Sunday (0); the grid
      counts from Monday, so Sunday becomes 6 and day d becomes d - 1. */
  function FirstDayOfWeek(jsDay: int): (r: int)
    requires 0 <= jsDay < 7
    ensures 0 <= r < 7
    ensures (r + 1) % 7 == jsDay
  {
    if jsDay == 0 then 6 else jsDay - 1
  }

  /** `String(n).padStart(2, '0')`. */
  function Pad2(n: nat): (s: string)
    ensures forall i :: 0 <= i < |s| ==> IsDigit(s[i])
  {
    var digits := NatToString(n);
    if |digits| < 2 then "0" + digits else digits
  }

  /** `formatDateKey`: the year, then month + 1 and the day padded to two
      digits, joined by '-'. */
  function FormatDateKey(year: int, month: nat, day: nat): string {
    IntToString(year) + "-" + Pad2(month + 1) + "-" + Pad2(day)
  }

  lemma {:induction false} NatToStringLength(n: nat)
    ensures n < 10 ==> |NatToString(n)| == 1
    ensures 10 <= n < 100 ==> |NatToString(n)| == 2
    ensures 1000 <= n < 10000 ==> |NatToString(n)| == 4
  {
    if n >= 10 {
      NatToStringLength(n / 10);
      if n >= 1000 {
        NatToStringLength(n / 100);
        NatToStringLength(n / 1000);
      }
    }
  }

  /** Below 100, the padded text is two digits that read back as n. */
  lemma Pad2Value(n: nat)
    requires n < 100
    ensures |Pad2(n)| == 2 && DigitsValue(Pad2(n)) == n
  {
    NatToStringLength(n);
    DigitsValueOfNatToString(n);
    var digits := NatToString(n);
    if n < 10 {
      var s := "0" + digits;
      assert s[..1] == "0";
      assert DigitsValue(s) == DigitsValue("0") * 10 + DigitValue(s[1]);
    }
  }

  /** For digit strings of one length, text order is number order and equal
      text is equal value. */
  lemma {:induction false} DigitsOrder(a: string, b: string)
    requires |a| == |b|
    requires forall i :: 0 <= i < |a| ==> IsDigit(a[i])
    requires forall i :: 0 <= i < |b| ==> IsDigit(b[i])
    ensures LexLess(a, b) <==> DigitsValue(a) < DigitsValue(b)
    ensures a == b <==> DigitsValue(a) == DigitsValue(b)
  {
    if a != [] {
      var n := |a| - 1;
      var a', b' := a[..n], b[..n];
      DigitsOrder(a', b');
      assert a == a' + [a[n]] && b == b' + [b[n]];
      LexLessConcat(a', [a[n]], b', [b[n]]);
      assert LexLess([a[n]], [b[n]]) <==> a[n] < b[n];
      var x, y := DigitValue(a[n]), DigitValue(b[n]);
      assert DigitsValue(a) == DigitsValue(a') * 10 + x;
      assert DigitsValue(b) == DigitsValue(b') * 10 + y;
      if DigitsValue(a) == DigitsValue(b) {
        assert DigitsValue(a') == DigitsValue(b') && x == y;
      }
    } else {
      LexLessIrreflexive(a);
    }
  }

  /** A calendar date as the grid knows it: a four-digit year, a month
      numbered from 0 and a day of the month. */
  predicate ValidDate(year: int, month: int, day: int) {
    1000 <= year <= 9999 && 0 <= month <= 11 && 1 <= day <= 31
  }

  /** Chronological order of two dates. */
  predicate DateBefore(y1: int, m1: int, d1: int, y2: int, m2: int, d2: int) {
    y1 < y2 || (y1 == y2 && (m1 < m2 || (m1 == m2 && d1 < d2)))
  }

  /** The parts of a day key, each of fixed width. */
  lemma KeyParts(year: int, month: nat, day: nat)
    requires ValidDate(year, month, day)
    ensures var y, m, d := NatToString(year), Pad2(month + 1), Pad2(day);
      && FormatDateKey(year, month, day) == (y + "-") + ((m + "-") + d)
      && |y| == 4 && DigitsValue(y) == year
      && |m| == 2 && DigitsValue(m) == month + 1
      && |d| == 2 && DigitsValue(d) == day
  {
    NatToStringLength(year);
    DigitsValueOfNatToString(year);
    Pad2Value(month + 1);
    Pad2Value(day);
  }

  /** Text order of `y-m-d` with parts of fixed widths is the order of the
      parts, year first. */
  lemma KeyTextOrder(ya: string, ma: string, da: string, yb: string, mb: string, db: string)
    requires |ya| == |yb| && |ma| == |mb|
    ensures LexLess((ya + "-") + ((ma + "-") + da), (yb + "-") + ((mb + "-") + db)) <==>
      LexLess(ya, yb) || (ya == yb && (LexLess(ma, mb) || (ma == mb && LexLess(da, db))))
  {
    LexLessConcat(ya + "-", (ma + "-") + da, yb + "-", (mb + "-") + db);
    LexLessConcat(ya, "-", yb, "-");
    LexLessIrreflexive("-");
    LexLessConcat(ma + "-", da, mb + "-", db);
    LexLessConcat(ma, "-", mb, "-");
    if ya + "-" == yb + "-" {
      assert ya == (ya + "-")[..|ya|] && yb == (yb + "-")[..|yb|];
    }
    if ma + "-" == mb + "-" {
      assert ma == (ma + "-")[..|ma|] && mb == (mb + "-")[..|mb|];
    }
  }

  /** Equal `y-m-d` texts with parts of fixed widths have equal parts. */
  lemma KeyTextEqual(ya: string, ma: string, da: string, yb: string, mb: string, db: string)
    requires |ya| == |yb| && |ma| == |mb|
    requires (ya + "-") + ((ma + "-") + da) == (yb + "-") + ((mb + "-") + db)
    ensures ya == yb && ma == mb && da == db
  {
    var k := (ya + "-") + ((ma + "-") + da);
    var k' := (yb + "-") + ((mb + "-") + db);
    assert ya == k[..|ya|] && yb == k'[..|yb|];
    assert (ma + "-") + da == k[|ya| + 1..] && (mb + "-") + db == k'[|yb| + 1..];
    var r, r' := (ma + "-") + da, (mb + "-") + db;
    assert ma == r[..|ma|] && mb == r'[..|mb|];
    assert da == r[|ma| + 1..] && db == r'[|mb| + 1..];
  }

  /** Comparing two day keys as strings, as `cell.dateKey < today` does,
      compares the dates, so "is past" means "is an earlier day". */
  lemma DateKeyOrder(y1: int, m1: nat, d1: nat, y2: int, m2: nat, d2: nat)
    requires ValidDate(y1, m1, d1) && ValidDate(y2, m2, d2)
    ensures LexLess(FormatDateKey(y1, m1, d1), FormatDateKey(y2, m2, d2)) <==> DateBefore(y1, m1, d1, y2, m2, d2)
  {
    KeyParts(y1, m1, d1);
    KeyParts(y2, m2, d2);
    var ya, ma, da := NatToString(y1), Pad2(m1 + 1), Pad2(d1);
    var yb, mb, db := NatToString(y2), Pad2(m2 + 1), Pad2(d2);
    DigitsOrder(ya, yb);
    DigitsOrder(ma, mb);
    DigitsOrder(da, db);
    KeyTextOrder(ya, ma, da, yb, mb, db);
  }

  /** Two valid dates have the same key exactly when they are the same day. */
  lemma DateKeyInjective(y1: int, m1: nat, d1: nat, y2: int, m2: nat, d2: nat)
    requires ValidDate(y1, m1, d1) && ValidDate(y2, m2, d2)
    ensures FormatDateKey(y1, m1, d1) == FormatDateKey(y2, m2, d2) <==> (y1 == y2 && m1 == m2 && d1 == d2)
  {
    KeyParts(y1, m1, d1);
    KeyParts(y2, m2, d2);
    var ya, ma, da := NatToString(y1), Pad2(m1 + 1), Pad2(d1);
    var yb, mb, db := NatToString(y2), Pad2(m2 + 1), Pad2(d2);
    if FormatDateKey(y1, m1, d1) == FormatDateKey(y2, m2, d2) {
      KeyTextEqual(ya, ma, da, yb, mb, db);
    }
  }

  // -------------------------------------------------------------------
  // The month grid

  /** A day cell: its day of the month and its key. */
  datatype DayCell = DayCell(day: int, dateKey: string)

  /** `calendarCells`: `firstDay` empty cells, one cell per day of the
      month, then empty cells up to a whole number of weeks. */
  method CalendarCells(year: int, month: nat, daysInMonth: nat, jsFirstDay: int) returns (cells: seq<Option<DayCell>>)
    requires 0 <= jsFirstDay < 7
    ensures var firstDay := FirstDayOfWeek(jsFirstDay);
      && |cells| % 7 == 0
      && firstDay + daysInMonth <= |cells| < firstDay + daysInMonth + 7
      && (forall i :: 0 <= i < firstDay ==> cells[i].None?)
      && (forall day :: 1 <= day <= daysInMonth ==>
            cells[firstDay + day - 1] == Some(DayCell(day, FormatDateKey(year, month, day))))
      && (forall i :: firstDay + daysInMonth <= i < |cells| ==> cells[i].None?)
  {
    var firstDay := FirstDayOfWeek(jsFirstDay);
    cells := [];
    for i := 0 to firstDay
      invariant |cells| == i
      invariant forall k :: 0 <= k < i ==> cells[k].None?
    {
      cells := cells + [None];
    }
    for day := 1 to daysInMonth + 1
      invariant |cells| == firstDay + day - 1
      invariant forall k :: 0 <= k < firstDay ==> cells[k].None?
      invariant forall d :: 1 <= d < day ==> cells[firstDay + d - 1] == Some(DayCell(d, FormatDateKey(year, month, d)))
    {
      cells := cells + [Some(DayCell(day, FormatDateKey(year, month, day)))];
    }
    ghost var target := PaddedLength(firstDay + daysInMonth);
    while |cells| % 7 != 0
      invariant firstDay + daysInMonth <= |cells| <= target
      invariant forall k :: 0 <= k < firstDay ==> cells[k].None?
      invariant forall d :: 1 <= d <= daysInMonth ==> cells[firstDay + d - 1] == Some(DayCell(d, FormatDateKey(year, month, d)))
      invariant forall k :: firstDay + daysInMonth <= k < |cells| ==> cells[k].None?
      decreases target - |cells|
    {
      cells := cells + [None];
    }
  }

  /** The least multiple of 7 that is at least n. */
  function PaddedLength(n: nat): (t: nat)
    ensures t % 7 == 0 && n <= t < n + 7
  {
    n + (7 - n % 7) % 7
  }

  // -------------------------------------------------------------------
  // Month navigation

  /** The month on show; `month` counts from 0. */
  datatype MonthView = MonthView(year: int, month: int)

  predicate ValidView(v: MonthView) {
    0 <= v.month <= 11
  }

  /** Months since year 0, so navigation is a step of one. */
  function MonthIndex(v: MonthView): int {
    v.year * 12 + v.month
  }

  /** `goToPrevMonth`: January goes back to December of the year before. */
  function PrevMonth(v: MonthView): (r: MonthView)
    ensures ValidView(v) ==> ValidView(r) && MonthIndex(r) == MonthIndex(v) - 1
  {
    if v.month == 0 then MonthView(v.year - 1, 11) else MonthView(v.year, v.month - 1)
  }

  /** `goToNextMonth`: December goes on to January of the year after. */
  function NextMonth(v: MonthView): (r: MonthView)
    ensures ValidView(v) ==> ValidView(r) && MonthIndex(r) == MonthIndex(v) + 1
  {
    if v.month == 11 then MonthView(v.year + 1, 0) else MonthView(v.year, v.month + 1)
  }

  /** A valid view is determined by its month index. */
  lemma MonthIndexInjective(v: MonthView, w: MonthView)
    requires ValidView(v) && ValidView(w) && MonthIndex(v) == MonthIndex(w)
    ensures v == w
  {
  }

  /** Next then previous, or previous then next, shows the same month. */
  lemma NavigationRoundTrip(v: MonthView)
    requires ValidView(v)
    ensures PrevMonth(NextMonth(v)) == v
    ensures NextMonth(PrevMonth(v)) == v
  {
    MonthIndexInjective(PrevMonth(NextMonth(v)), v);
    MonthIndexInjective(NextMonth(PrevMonth(v)), v);
  }

  // -------------------------------------------------------------------
  // Bookings

  function BookingIds(bookings: seq<Booking>): seq<string> {
    Map(bookings, (b: Booking) => b.id)
  }

  /** `nextBookingId`: one more than the largest readable id, deleted
      bookings included. */
  function NextBookingId(bookings: seq<Booking>): string {
    Ids.NextId(BookingIds(bookings))
  }

  /** The new id is none of the existing bookings' ids, deleted or not, and
      it is above every readable one; "0" when none is readable. */
  lemma NextBookingIdIsNew(bookings: seq<Booking>)
    ensures ParseIntPrefix(NextBookingId(bookings)).Some?
    ensures forall i :: 0 <= i < |bookings| ==> bookings[i].id != NextBookingId(bookings)
    ensures forall i :: 0 <= i < |bookings| && ParseIntPrefix(bookings[i].id).Some? ==>
      ParseIntPrefix(bookings[i].id).value < ParseIntPrefix(NextBookingId(bookings)).value
    ensures (forall i :: 0 <= i < |bookings| ==> ParseIntPrefix(bookings[i].id).None?) ==> NextBookingId(bookings) == "0"
  {
    var ids := BookingIds(bookings);
    Ids.NextIdIsNew(ids);
    assert forall i :: 0 <= i < |bookings| ==> ids[i] == bookings[i].id;
    if forall i :: 0 <= i < |bookings| ==> ParseIntPrefix(bookings[i].id).None? {
      Ids.NextIdOfNone(ids);
    }
  }

  /** The bookings shown on day `date`: not deleted, on that date. */
  function OnDate(date: string): Booking -> bool {
    (b: Booking) => !IsTrue(b.isDeleted) && b.date == date
  }

  /** `map.get(date) || []`. */
  function DayList(byDate: map<string, seq<Booking>>, date: string): seq<Booking> {
    if date in byDate then byDate[date] else []
  }

  /** `bookingsByDate`: each day's list is the non-deleted bookings on that
      day in their original order, and only days with bookings have an
      entry. */
  method BookingsByDate(bookings: seq<Booking>) returns (byDate: map<string, seq<Booking>>)
    ensures forall date :: DayList(byDate, date) == Filter(bookings, OnDate(date))
    ensures forall date :: date in byDate ==> byDate[date] != []
  {
    byDate := map[];
    for i := 0 to |bookings|
      invariant forall date :: DayList(byDate, date) == Filter(bookings[..i], OnDate(date))
      invariant forall date :: date in byDate ==> byDate[date] != []
    {
      var b := bookings[i];
      assert bookings[..i + 1] == bookings[..i] + [b];
      forall date
        ensures Filter(bookings[..i + 1], OnDate(date)) == Filter(bookings[..i], OnDate(date)) + Filter([b], OnDate(date))
      {
        FilterConcat(bookings[..i], [b], OnDate(date));
      }
      if IsTrue(b.isDeleted) {
        continue;
      }
      var list := if b.date in byDate then byDate[b.date] else [];
      list := list + [b];
      byDate := byDate[b.date := list];
    }
    assert bookings[..|bookings|] == bookings;
  }

  /** What `find` returns: the first live booking with that id. */
  function FindLive(bookings: seq<Booking>, id: string): (r: Option<Booking>)
    ensures r.Some? ==> r.value in bookings && r.value.id == id && !IsTrue(r.value.isDeleted)
    ensures r.None? ==> forall i :: 0 <= i < |bookings| ==> bookings[i].id != id || IsTrue(bookings[i].isDeleted)
    ensures r.Some? ==> exists i :: 0 <= i < |bookings| && bookings[i] == r.value
                                   && forall k :: 0 <= k < i ==> bookings[k].id != id || IsTrue(bookings[k].isDeleted)
  {
    if bookings == [] then None
    else if bookings[0].id == id && !IsTrue(bookings[0].isDeleted) then Some(bookings[0])
    else
      var r := FindLive(bookings[1..], id);
      if r.Some? then
        ghost var i :| 0 <= i < |bookings[1..]| && bookings[1..][i] == r.value
                       && forall k :: 0 <= k < i ==> bookings[1..][k].id != id || IsTrue(bookings[1..][k].isDeleted);
        assert bookings[i + 1] == r.value;
        r
      else r
  }

  /** `handleDrop`: the booking to dispatch with `updateBooking`, or nothing
      when the day is past, the booking is gone or deleted, or it is already
      on that day. */
  function HandleDrop(bookings: seq<Booking>, bookingId: string, dateKey: string, isPast: bool): (r: Option<Booking>)
    ensures r.None? <==> isPast || FindLive(bookings, bookingId).None? || FindLive(bookings, bookingId).value.date == dateKey
    ensures r.Some? ==> r.value == FindLive(bookings, bookingId).value.(date := dateKey) && r.value.date != FindLive(bookings, bookingId).value.date
  {
    if isPast then None
    else match FindLive(bookings, bookingId)
      case None => None
      case Some(booking) => if booking.date == dateKey then None else Some(booking.(date := dateKey))
  }

  /** After a drop, every booking with the dropped id takes the new day and a
      fresh stamp, with nothing else about it changed; all others stay. */
  lemma DropMovesOnlyDate(bookings: seq<Booking>, bookingId: string, dateKey: string, now: string, i: nat)
    requires HandleDrop(bookings, bookingId, dateKey, false).Some? && i < |bookings|
    ensures var moved := HandleDrop(bookings, bookingId, dateKey, false).value;
      var after := BookingReducer.Reduce(BookingReducer.BookingState(bookings), BookingReducer.UpdateBooking(moved), now).bookings;
      && |after| == |bookings|
      && after[i] == if bookings[i].id == bookingId
                     then FindLive(bookings, bookingId).value.(date := dateKey, updatedAt := Some(now))
                     else bookings[i]
  {
    var moved := HandleDrop(bookings, bookingId, dateKey, false).value;
    BookingReducer.UpdateBookingOnlyMatching(BookingReducer.BookingState(bookings), moved, now, i);
  }
}
