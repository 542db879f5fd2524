/** The pure part of the cart routes: the cart total, the filter that
    removes a line, and the specification of checkout as a walk over the
    cart's lines against the centre table. The handlers that change the
    tables are `Backend.Store.AddItem`, `RemoveItem` and `Checkout`. */
module CartRoutes {
  import opened Common
  import opened CentreModel
  import opened CartModel
  import opened BookingModel

  const CartNotFound := "Cart not found"
  const ItemAdded := "Item added to cart"
  const ItemRemoved := "Item removed from cart"

  /** `items.reduce((acc, item) => acc + item.price, 0)`: a left fold. */
  function Total(items: seq<CartLine>): int {
    if items == [] then 0 else Total(items[..|items| - 1]) + items[|items| - 1].price
  }

  /** The total of two runs of lines is the sum of their totals; in
      particular adding a line raises the total by its price. */
  lemma {:induction false} TotalAppend(a: seq<CartLine>, b: seq<CartLine>)
    ensures Total(a + b) == Total(a) + Total(b)
  {
    if b == [] {
      assert a + b == a;
    } else {
      var n := |b|;
      assert (a + b)[..|a + b| - 1] == a + b[..n - 1];
      assert (a + b)[|a + b| - 1] == b[n - 1];
      TotalAppend(a, b[..n - 1]);
    }
  }

  /** `GET /api/cart`: the user's cart and the sum of its line prices, or 404. */
  function View(carts: map<Id, Cart>, user: Id): (r: Reply<(Cart, int)>)
    ensures user !in carts <==> r == Err(404, CartNotFound)
    ensures r.Ok? ==> r.status == 200 && r.value.0 == carts[user] && r.value.1 == Total(carts[user].items)
  {
    if user !in carts then Err(404, CartNotFound)
    else Ok(200, (carts[user], Total(carts[user].items)))
  }

  /** `items.filter(item => item._id.toString() !== itemId)`: the lines with
      any other id, in their order; nothing changes when no line has it. */
  function WithoutItem(items: seq<CartLine>, itemId: Id): (r: seq<CartLine>)
    ensures forall l :: l in r <==> l in items && l.id != itemId
    ensures (forall i :: 0 <= i < |items| ==> items[i].id != itemId) ==> r == items
    ensures UniqueKeys(items, LineKey) ==> UniqueKeys(r, LineKey)
  {
    var p := (l: CartLine) => l.id != itemId;
    KeepUnique(items, p, LineKey);
    forall l ensures l in Keep(items, p) <==> l in items && l.id != itemId {
      KeepMembership(items, p, l);
    }
    if forall i :: 0 <= i < |items| ==> items[i].id != itemId then
      KeepAll(items, p);
      Keep(items, p)
    else Keep(items, p)
  }

  /** The cart after adding a line: the user's lines with the new one
      last, or a new cart holding just that line. */
  function WithLine(carts: map<Id, Cart>, user: Id, line: CartLine): (c: Cart)
    ensures c.user == user
    ensures c.items == (if user in carts then carts[user].items else []) + [line]
  {
    if user in carts then Cart(user, carts[user].items + [line]) else Cart(user, [line])
  }

  /** Removal keeps the relative order of the remaining lines. */
  lemma WithoutItemAppend(a: seq<CartLine>, b: seq<CartLine>, itemId: Id)
    ensures WithoutItem(a + b, itemId) == WithoutItem(a, itemId) + WithoutItem(b, itemId)
  {
    KeepAppend(a, b, (l: CartLine) => l.id != itemId);
  }

  /** Why a checkout aborts: the line's centre is gone (so the populated
      reference is null and reading its `_id` throws), it has no seat left,
      or saving the decremented centre fails schema validation. */
  datatype CheckoutError = CentreGone(centre: Id) | NoSeats(name: string) | CentreRejected(name: string)

  /** The message of the error a checkout aborts with. */
  function CheckoutMessage(e: CheckoutError): string {
    match e
    case CentreGone(_) => "Cannot read properties of null (reading '_id')"
    case NoSeats(name) => "No available seats for " + name + " at the requested time."
    case CentreRejected(_) => ValidationFailed("TrainCentre")
  }

  /** One iteration of the checkout loop on the transaction's view of the
      centres: re-read the line's centre, refuse if it has fewer than one
      seat, otherwise take one seat and save it. */
  function Step(cs: seq<Centre>, line: CartLine): (r: Result<seq<Centre>, CheckoutError>)
    ensures r.Success? ==> |r.value| == |cs| && forall k :: 0 <= k < |cs| ==> r.value[k].id == cs[k].id
    ensures r.Failure? && r.error.CentreGone? <==> FindCentre(cs, line.centre).None?
  {
    match FindCentre(cs, line.centre)
    case None => Failure(CentreGone(line.centre))
    case Some(k) =>
      if cs[k].availableSeats < 1 then Failure(NoSeats(cs[k].name))
      else
        var c := cs[k].(availableSeats := cs[k].availableSeats - 1);
        if !CentreValid(c) then Failure(CentreRejected(c.name)) else Success(cs[k := c])
  }

  /** The whole loop: each line in cart order sees the decrements of the
      lines before it; the first failure aborts. */
  function Process(cs: seq<Centre>, items: seq<CartLine>): (r: Result<seq<Centre>, CheckoutError>)
    ensures r.Success? ==> |r.value| == |cs| && forall k :: 0 <= k < |cs| ==> r.value[k].id == cs[k].id
  {
    if items == [] then Success(cs)
    else match Process(cs, items[..|items| - 1])
      case Failure(e) => Failure(e)
      case Success(cs') => Step(cs', items[|items| - 1])
  }

  /** The bookings a checkout inserts: one per line, in cart order, with
      fresh ids from `first` on. */
  function NewBookings(user: Id, items: seq<CartLine>, first: Id): (r: seq<Booking>)
    ensures |r| == |items|
    ensures forall k :: 0 <= k < |r| ==> r[k].id == first + k && r[k].user == user
    ensures forall k :: 0 <= k < |r| ==>
      r[k].centre == items[k].centre && r[k].date == items[k].date && r[k].time == items[k].time && r[k].seat == items[k].seat
  {
    seq(|items|, k requires 0 <= k < |items| =>
      Booking(first + k, user, items[k].centre, items[k].date, items[k].time, items[k].seat))
  }

  /** One more line adds one booking, last, with the next id. */
  lemma NewBookingsSnoc(user: Id, items: seq<CartLine>, i: nat, first: Id)
    requires i < |items|
    ensures NewBookings(user, items[..i + 1], first)
            == NewBookings(user, items[..i], first)
               + [Booking(first + i, user, items[i].centre, items[i].date, items[i].time, items[i].seat)]
  {
  }

  /** The bookings made from valid lines are valid, so inserting them cannot fail. */
  lemma NewBookingsValid(user: Id, items: seq<CartLine>, first: Id)
    requires forall i :: 0 <= i < |items| ==> LineValid(items[i])
    ensures forall k :: 0 <= k < |items| ==> BookingValid(NewBookings(user, items, first)[k])
  {
  }

  /** The number of lines that reference centre `id`. */
  function Count(items: seq<CartLine>, id: Id): nat {
    if items == [] then 0
    else Count(items[..|items| - 1], id) + (if items[|items| - 1].centre == id then 1 else 0)
  }

  predicate HasCentre(cs: seq<Centre>, id: Id) {
    exists k :: 0 <= k < |cs| && cs[k].id == id
  }

  /** Order-free condition for a checkout to go through: every line's centre
      exists, and every referenced centre is schema-valid and has at least
      as many seats as lines referencing it. */
  ghost predicate Feasible(cs: seq<Centre>, items: seq<CartLine>) {
    && (forall j :: 0 <= j < |items| ==> HasCentre(cs, items[j].centre))
    && (forall k :: 0 <= k < |cs| && Count(items, cs[k].id) > 0 ==>
          CentreValid(cs[k]) && cs[k].availableSeats >= Count(items, cs[k].id))
  }

  /** The centres with each one's seats reduced by its number of lines. */
  function Decremented(cs: seq<Centre>, items: seq<CartLine>): (r: seq<Centre>)
    ensures |r| == |cs|
    ensures forall k :: 0 <= k < |cs| ==> r[k] == cs[k].(availableSeats := cs[k].availableSeats - Count(items, cs[k].id))
  {
    seq(|cs|, k requires 0 <= k < |cs| => cs[k].(availableSeats := cs[k].availableSeats - Count(items, cs[k].id)))
  }

  /** Two tables with the same ids in the same places find the same index. */
  lemma FindCentreSameIds(a: seq<Centre>, b: seq<Centre>, id: Id)
    requires |a| == |b| && forall k :: 0 <= k < |a| ==> a[k].id == b[k].id
    ensures FindCentre(a, id) == FindCentre(b, id)
  {
  }

  lemma FeasiblePrefix(cs: seq<Centre>, items: seq<CartLine>)
    requires items != [] && Feasible(cs, items)
    ensures Feasible(cs, items[..|items| - 1])
  {
  }

  /** Feasibility grows by one line when that line's centre exists, is valid
      and has a seat beyond those the earlier lines take. */
  lemma FeasibleExtend(cs: seq<Centre>, items: seq<CartLine>, k: nat)
    requires UniqueKeys(cs, CentreKey) && items != []
    requires Feasible(cs, items[..|items| - 1])
    requires k < |cs| && cs[k].id == items[|items| - 1].centre && CentreValid(cs[k])
    requires cs[k].availableSeats >= Count(items[..|items| - 1], cs[k].id) + 1
    ensures Feasible(cs, items)
  {
  }

  /** Taking one more seat from the last line's centre turns the prefix's
      decremented table into the whole cart's. */
  lemma DecrementedExtend(cs: seq<Centre>, items: seq<CartLine>, k: nat)
    requires UniqueKeys(cs, CentreKey) && items != []
    requires k < |cs| && cs[k].id == items[|items| - 1].centre
    ensures var d := Decremented(cs, items[..|items| - 1]);
      d[k := d[k].(availableSeats := d[k].availableSeats - 1)] == Decremented(cs, items)
  {
  }

  /** Checkout's centre effect, order-free: with unique centre ids, the walk
      succeeds exactly when the cart is `Feasible`, and then every centre's
      seats drop by exactly its number of lines, nothing else changing. */
  lemma {:induction false} ProcessCharacterised(cs: seq<Centre>, items: seq<CartLine>)
    requires UniqueKeys(cs, CentreKey)
    ensures Process(cs, items).Success? <==> Feasible(cs, items)
    ensures Process(cs, items).Success? ==> Process(cs, items).value == Decremented(cs, items)
  {
    if items == [] {
      assert Decremented(cs, items) == cs;
    } else {
      var n := |items|;
      var p := items[..n - 1];
      ProcessCharacterised(cs, p);
      if Feasible(cs, items) {
        FeasiblePrefix(cs, items);
      }
      if Process(cs, p).Success? {
        StepOnFeasiblePrefix(cs, items);
      }
    }
  }

  /** The inductive step of `ProcessCharacterised`: one more line on top of
      a prefix that succeeded with the decremented table. */
  lemma StepOnFeasiblePrefix(cs: seq<Centre>, items: seq<CartLine>)
    requires UniqueKeys(cs, CentreKey) && items != []
    requires Process(cs, items[..|items| - 1]) == Success(Decremented(cs, items[..|items| - 1]))
    requires Feasible(cs, items[..|items| - 1])
    ensures Process(cs, items).Success? <==> Feasible(cs, items)
    ensures Process(cs, items).Success? ==> Process(cs, items).value == Decremented(cs, items)
  {
    var n := |items|;
    var p := items[..n - 1];
    var line := items[n - 1];
    var d := Decremented(cs, p);
    assert Process(cs, items) == Step(d, line);
    FindCentreSameIds(d, cs, line.centre);
    var found := FindCentre(cs, line.centre);
    if found.None? {
      assert !HasCentre(cs, items[n - 1].centre);
    } else {
      var k := found.value;
      assert Count(items, cs[k].id) == Count(p, cs[k].id) + 1;
      ValidityIgnoresSeats(cs[k], d[k].availableSeats - 1);
      if d[k].availableSeats >= 1 && CentreValid(cs[k]) {
        FeasibleExtend(cs, items, k);
        DecrementedExtend(cs, items, k);
      }
    }
  }

  /** The line a failed checkout stops at: every line before it went
      through, and its own step raised the error the checkout reports. */
  function FailingLine(cs: seq<Centre>, items: seq<CartLine>): (j: nat)
    requires Process(cs, items).Failure?
    ensures j < |items|
    ensures Process(cs, items[..j]).Success?
    ensures Step(Process(cs, items[..j]).value, items[j]) == Process(cs, items)
  {
    var n := |items|;
    var p := items[..n - 1];
    assert Process(cs, items) == if Process(cs, p).Failure? then Process(cs, p) else Step(Process(cs, p).value, items[n - 1]);
    if Process(cs, p).Failure? then
      var j := FailingLine(cs, p);
      assert p[..j] == items[..j] && p[j] == items[j];
      j
    else
      assert items[..n - 1] == p;
      n - 1
  }

  /** A checkout that runs out of seats names the centre of the line it
      stopped at, and that centre had been emptied by the lines before it. */
  lemma NoSeatsNamesItsCentre(cs: seq<Centre>, items: seq<CartLine>, name: string)
    requires UniqueKeys(cs, CentreKey)
    requires Process(cs, items) == Failure(NoSeats(name))
    ensures var j := FailingLine(cs, items);
      && FindCentre(cs, items[j].centre).Some?
      && var k := FindCentre(cs, items[j].centre).value;
      && cs[k].name == name
      && cs[k].availableSeats - Count(items[..j], items[j].centre) < 1
  {
    var j := FailingLine(cs, items);
    ProcessCharacterised(cs, items[..j]);
    var d := Decremented(cs, items[..j]);
    FindCentreSameIds(d, cs, items[j].centre);
  }

  /** An abort cannot be undone by later lines: once a prefix fails, the
      whole walk fails with the same error. */
  lemma {:induction false} FailurePersists(cs: seq<Centre>, items: seq<CartLine>, j: nat)
    requires j <= |items| && Process(cs, items[..j]).Failure?
    ensures Process(cs, items) == Process(cs, items[..j])
    decreases |items| - j
  {
    if j < |items| {
      var q := items[..j + 1];
      assert q[..j] == items[..j];
      assert Process(cs, q) == Process(cs, items[..j]);
      FailurePersists(cs, items, j + 1);
    } else {
      assert items[..j] == items;
    }
  }

  /** Checkout never takes a centre below zero seats: every centre a
      successful checkout touches ends non-negative, so a table with no
      negative seat counts keeps none. */
  lemma CheckoutKeepsSeatsNonNegative(cs: seq<Centre>, items: seq<CartLine>)
    requires UniqueKeys(cs, CentreKey) && Process(cs, items).Success?
    ensures |Process(cs, items).value| == |cs|
    ensures forall k :: 0 <= k < |cs| && Count(items, cs[k].id) > 0 ==> Process(cs, items).value[k].availableSeats >= 0
    ensures (forall k :: 0 <= k < |cs| ==> cs[k].availableSeats >= 0) ==>
              forall k :: 0 <= k < |cs| ==> Process(cs, items).value[k].availableSeats >= 0
  {
    ProcessCharacterised(cs, items);
  }

  /** The all-or-nothing example: an available line followed by a line on a
      centre with no seats aborts the whole order, naming the second centre. */
  lemma AvailableThenExhaustedAborts(a: Centre, b: Centre, la: CartLine, lb: CartLine)
    requires a.id != b.id && CentreValid(a) && a.availableSeats >= 1 && b.availableSeats == 0
    requires la.centre == a.id && lb.centre == b.id
    ensures Process([a, b], [la, lb]) == Failure(NoSeats(b.name))
  {
    assert [la, lb][..1] == [la];
    assert [la][..0] == [];
    var a' := a.(availableSeats := a.availableSeats - 1);
    ValidityIgnoresSeats(a, a.availableSeats - 1);
    assert FindCentre([a, b], a.id) == Some(0);
    assert [a, b][0 := a'] == [a', b];
    assert Step([a, b], la) == Success([a', b]);
    assert [a', b][1].id == b.id;
    assert FindCentre([a', b], b.id) == Some(1);
    assert Process([a, b], [la]) == Success([a', b]);
    assert Process([a, b], [la, lb]) == Step([a', b], lb);
  }
}
