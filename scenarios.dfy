/** Request sequences against the store, each stating as its contract the
    behaviour the handlers show when chained. */
module Scenarios {
  import opened Common
  import opened CentreModel
  import opened CartModel
  import opened BookingModel
  import opened AuthMiddleware
  import TrainRoutes
  import CartRoutes
  import Backend

  /** A request that gets past the middleware can never create a centre:
      the admin check does not fire, and the save fails validation. */
  method AuthenticatedCreate(s: Backend.Store, header: Option<string>, verifyError: Option<string>,
                             name: string, location: string, capacity: Option<int>, contactInfo: string)
    returns (r: Reply<Centre>)
    requires s.Valid() && Authenticate(header, s.tokens, verifyError).Next?
    modifies s
    ensures s.Valid() && s.Snapshot() == old(s.Snapshot())
    ensures r.Err? && r.status == 400
  {
    var p := Authenticate(header, s.tokens, verifyError).principal;
    TrainRoutes.AuthenticatedNeverAdmin(header, s.tokens, verifyError);
    r := s.CreateCentre(p, name, location, capacity, contactInfo);
  }

  /** Direct booking checks no seats and no other booking: the same slot
      can be booked twice, and the centre is untouched both times. */
  method DoubleBooking(s: Backend.Store, p: Principal, centreId: Id, date: Date, time: string, seat: string)
    returns (first: Reply<Booking>, second: Reply<Booking>)
    requires s.Valid() && FindCentre(s.centres, centreId).Some? && time != "" && seat != ""
    modifies s
    ensures s.Valid() && s.centres == old(s.centres)
    ensures first.Ok? && second.Ok? && first.value.id != second.value.id
    ensures second.value == first.value.(id := second.value.id)
    ensures s.bookings == old(s.bookings) + [first.value, second.value]
  {
    first := s.CreateBooking(p, centreId, Some(date), time, seat);
    second := s.CreateBooking(p, centreId, Some(date), time, seat);
  }

  /** Removing a line id the cart does not hold still answers success, and
      changes nothing. */
  method RemoveAbsentItem(s: Backend.Store, p: Principal, itemId: Id) returns (r: Reply<string>)
    requires s.Valid() && p.userId in s.carts
    requires forall i :: 0 <= i < |s.carts[p.userId].items| ==> s.carts[p.userId].items[i].id != itemId
    modifies s
    ensures s.Valid() && s.Snapshot() == old(s.Snapshot())
    ensures r == Ok(200, CartRoutes.ItemRemoved)
  {
    r := s.RemoveItem(p, itemId);
    assert s.carts == old(s.carts);
  }

  /** A cart emptied of its lines still checks out: no bookings, no seat
      taken, and the cart is gone. */
  method EmptyCartCheckout(s: Backend.Store, p: Principal) returns (r: Reply<(string, seq<Booking>)>)
    requires s.Valid() && p.userId in s.carts && s.carts[p.userId].items == []
    modifies s
    ensures s.Valid()
    ensures r == Ok(201, (Backend.OrderPlaced, []))
    ensures s.centres == old(s.centres) && s.bookings == old(s.bookings) && p.userId !in s.carts
  {
    r := s.Checkout(p);
  }

  /** After an order goes through the cart is gone, so viewing it is 404;
      after one fails the cart is still there with the same lines. */
  method CheckoutThenView(s: Backend.Store, p: Principal)
    returns (order: Reply<(string, seq<Booking>)>, view: Reply<(Cart, int)>)
    requires s.Valid() && p.userId in s.carts
    modifies s
    ensures s.Valid()
    ensures order.Ok? ==> view == Err(404, CartRoutes.CartNotFound)
    ensures order.Err? ==> view.Ok? && view.value.0 == old(s.carts[p.userId])
  {
    order := s.Checkout(p);
    view := CartRoutes.View(s.carts, p.userId);
  }

  /** An order whose cart fits the seats goes through, and each centre
      loses exactly one seat per line that references it and stays at or
      above zero; one booking per line is appended in cart order. */
  method FeasibleCheckout(s: Backend.Store, p: Principal) returns (r: Reply<(string, seq<Booking>)>)
    requires s.Valid() && p.userId in s.carts && CartRoutes.Feasible(s.centres, s.carts[p.userId].items)
    modifies s
    ensures s.Valid() && r.Ok? && r.status == 201 && p.userId !in s.carts
    ensures var items := old(s.carts[p.userId].items);
      && s.centres == CartRoutes.Decremented(old(s.centres), items)
      && (forall k :: 0 <= k < |s.centres| && CartRoutes.Count(items, s.centres[k].id) > 0 ==> s.centres[k].availableSeats >= 0)
      && s.bookings == old(s.bookings) + r.value.1 && |r.value.1| == |items|
      && forall k :: 0 <= k < |items| ==> r.value.1[k].user == p.userId && r.value.1[k].centre == items[k].centre
  {
    CartRoutes.ProcessCharacterised(s.centres, s.carts[p.userId].items);
    CartRoutes.CheckoutKeepsSeatsNonNegative(s.centres, s.carts[p.userId].items);
    r := s.Checkout(p);
  }

  /** An order whose cart does not fit the seats, or names a deleted
      centre, answers 400 and changes nothing at all. */
  method InfeasibleCheckout(s: Backend.Store, p: Principal) returns (r: Reply<(string, seq<Booking>)>)
    requires s.Valid() && p.userId in s.carts && !CartRoutes.Feasible(s.centres, s.carts[p.userId].items)
    modifies s
    ensures s.Valid() && s.Snapshot() == old(s.Snapshot())
    ensures r.Err? && r.status == 400
  {
    CartRoutes.ProcessCharacterised(s.centres, s.carts[p.userId].items);
    r := s.Checkout(p);
  }

  /** Deleting a booking does not give its seat back. */
  method DeleteKeepsSeats(s: Backend.Store, p: Principal, id: Id) returns (r: Reply<string>)
    requires s.Valid()
    modifies s
    ensures s.Valid() && s.centres == old(s.centres) && s.carts == old(s.carts)
  {
    r := s.DeleteBooking(p, id);
  }
}
