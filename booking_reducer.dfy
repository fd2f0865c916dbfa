/** The bookings slice of the store: calendar bookings. Pure; the clock
    reading is passed in. No audit entries are written. */
module BookingReducer {
  import opened Base
  import opened Model
  import opened Lists

  datatype BookingState = BookingState(bookings: seq<Booking>)

  const InitialBookingState := BookingState([])

  datatype BookingAction =
    | AddBooking(booking: Booking)
    | UpdateBooking(booking: Booking)
    | DeleteBooking(id: string, deletedAt: string)
    | SetBookings(bookings: seq<Booking>)
    | ReplaceBookings(bookings: seq<Booking>)
    | Other

  function BookingId(b: Booking): string { b.id }

  function BookingIds(bs: seq<Booking>): seq<string> { Map(bs, BookingId) }

  function WithUpdatedAt(b: Booking, now: string): Booking {
    b.(updatedAt := Some(now))
  }

  /** `{ status: 'confirmed', ...payload }`: the payload's status wins when it has one. */
  function WithDefaultStatus(b: Booking): (r: Booking)
    ensures b.status.Some? ==> r == b
    ensures b.status.None? ==> r == b.(status := Some(BookingConfirmed))
  {
    if b.status.Some? then b else b.(status := Some(BookingConfirmed))
  }

  function SoftDeleted(b: Booking, deletedAt: string, now: string): (r: Booking)
    ensures r.isDeleted == Some(true) && r.deletedAt == Some(deletedAt) && r.updatedAt == Some(now)
    ensures r.(isDeleted := b.isDeleted, deletedAt := b.deletedAt, updatedAt := b.updatedAt) == b
  {
    WithUpdatedAt(b.(isDeleted := Some(true), deletedAt := Some(deletedAt)), now)
  }

  function Imported(b: Booking, now: string): (r: Booking)
    ensures Truthy(b.updatedAt) ==> r == b
    ensures !Truthy(b.updatedAt) ==> r == b.(updatedAt := Some(now))
  {
    b.(updatedAt := Some(OrString(b.updatedAt, now)))
  }

  function Reduce(s: BookingState, a: BookingAction, now: string): (r: BookingState)
    ensures a.AddBooking? ==> |r.bookings| == |s.bookings| + 1 && r.bookings[0].status.Some?
    ensures a.UpdateBooking? || a.DeleteBooking? ==> |r.bookings| == |s.bookings|
    ensures a.SetBookings? ==> |r.bookings| == |a.bookings|
    ensures a.ReplaceBookings? ==> r.bookings == a.bookings
    ensures a.Other? ==> r == s
  {
    match a
    case AddBooking(b) => BookingState([WithUpdatedAt(WithDefaultStatus(b), now)] + s.bookings)
    case UpdateBooking(b) => BookingState(MapWhere(s.bookings, BookingId, b.id, _ => WithUpdatedAt(b, now)))
    case DeleteBooking(id, deletedAt) => BookingState(MapWhere(s.bookings, BookingId, id, b => SoftDeleted(b, deletedAt, now)))
    case SetBookings(bs) => BookingState(Map(bs, (b: Booking) => Imported(b, now)))
    case ReplaceBookings(bs) => BookingState(bs)
    case Other => s
  }

  /** ADD_BOOKING prepends the stamped booking; its status is 'confirmed' only
      when the payload has none. */
  lemma AddBookingDefaultsStatus(s: BookingState, b: Booking, now: string)
    ensures var r := Reduce(s, AddBooking(b), now).bookings;
      && r[1..] == s.bookings
      && r[0].updatedAt == Some(now)
      && r[0].status == (if b.status.Some? then b.status else Some(BookingConfirmed))
      && r[0].(status := b.status, updatedAt := b.updatedAt) == b
  {
  }

  /** UPDATE_BOOKING changes only the bookings with the payload's id. */
  lemma UpdateBookingOnlyMatching(s: BookingState, b: Booking, now: string, i: nat)
    requires i < |s.bookings|
    ensures Reduce(s, UpdateBooking(b), now).bookings[i] ==
      if s.bookings[i].id == b.id then b.(updatedAt := Some(now)) else s.bookings[i]
  {
  }

  /** DELETE_BOOKING is a soft delete that keeps every id in place and leaves
      the other bookings as they are. */
  lemma {:induction false} DeleteBookingKeepsIds(s: BookingState, id: string, at: string, now: string)
    ensures BookingIds(Reduce(s, DeleteBooking(id, at), now).bookings) == BookingIds(s.bookings)
    ensures forall i :: 0 <= i < |s.bookings| && s.bookings[i].id == id ==>
      Reduce(s, DeleteBooking(id, at), now).bookings[i] == SoftDeleted(s.bookings[i], at, now)
    ensures forall i :: 0 <= i < |s.bookings| && s.bookings[i].id != id ==>
      Reduce(s, DeleteBooking(id, at), now).bookings[i] == s.bookings[i]
  {
    var r := Reduce(s, DeleteBooking(id, at), now).bookings;
    assert forall i :: 0 <= i < |r| ==> r[i].id == s.bookings[i].id;
    assert BookingIds(r) == BookingIds(s.bookings);
  }

  /** SET_BOOKINGS only fills missing `updatedAt`. */
  lemma SetBookingsFillsStamps(s: BookingState, bs: seq<Booking>, now: string, i: nat)
    requires i < |bs|
    ensures Reduce(s, SetBookings(bs), now).bookings[i] == Imported(bs[i], now)
  {
  }
}
