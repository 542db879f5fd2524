/** The pure part of the booking routes: the `my-bookings` query and the
    lookup by id. The handlers that change the booking table are
    `Backend.Store.CreateBooking` and `DeleteBooking`. */
module BookingRoutes {
  import opened Common
  import opened BookingModel

  const BookingNotFound := "Booking not found"
  const NotOwner := "You are not authorized to delete this booking"
  const BookingDeleted := "Booking deleted successfully"

  /** `Booking.find({ user })`: exactly the bookings of that user, in table order. */
  function MyBookings(bs: seq<Booking>, user: Id): (r: seq<Booking>)
    ensures forall b :: b in r <==> b in bs && b.user == user
    ensures (forall i :: 0 <= i < |bs| ==> bs[i].user == user) ==> r == bs
  {
    var p := (b: Booking) => b.user == user;
    forall b ensures b in Keep(bs, p) <==> b in bs && b.user == user {
      KeepMembership(bs, p, b);
    }
    if forall i :: 0 <= i < |bs| ==> bs[i].user == user then
      KeepAll(bs, p);
      Keep(bs, p)
    else Keep(bs, p)
  }

  /** The query is order-preserving: a booking appended to the table shows
      up last in its owner's list, and in nobody else's. */
  lemma MyBookingsAppend(bs: seq<Booking>, b: Booking, user: Id)
    ensures MyBookings(bs + [b], user) == MyBookings(bs, user) + (if b.user == user then [b] else [])
  {
    var p := (x: Booking) => x.user == user;
    KeepAppend(bs, [b], p);
    assert [b][1..] == [];
  }

  /** `Booking.findById`. */
  function FindBooking(bs: seq<Booking>, id: Id): (r: Option<nat>)
    ensures r.Some? ==> r.value < |bs| && bs[r.value].id == id
    ensures r.None? ==> forall j :: 0 <= j < |bs| ==> bs[j].id != id
  {
    FirstIndex(bs, (b: Booking) => b.id == id)
  }
}
