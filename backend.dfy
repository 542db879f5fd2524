/** The backend: one store holding the five collections, and one method per
    route that changes them. Every method starts from the store's invariant,
    keeps it, and states the reply together with the whole new state. */
module Backend {
  import opened Common
  import opened CentreModel
  import opened CartModel
  import opened BookingModel
  import opened UserModel
  import opened AuthMiddleware
  import TrainRoutes
  import CartRoutes
  import BookingRoutes
  import AuthRoutes

  /** The five collections and the id counter, as one value. */
  datatype Db = Db(
    centres: seq<Centre>, carts: map<Id, Cart>, bookings: seq<Booking>,
    users: seq<User>, tokens: seq<TokenRecord>, nextId: Id)

  /** Every cart is stored under its own user, passes the cart schema, and
      uses line ids already handed out. */
  ghost predicate CartsValid(carts: map<Id, Cart>, bound: Id) {
    forall u :: u in carts ==>
      carts[u].user == u && CartValid(carts[u]) && KeysBelow(carts[u].items, LineKey, bound)
  }

  /** What the database guarantees between requests: ids are unique and
      already handed out, every cart, booking and user passes its schema, and
      the user table satisfies its unique indexes. Centres need not pass
      theirs: an update writes its fields without running the validators. */
  ghost predicate DbValid(db: Db) {
    && UniqueKeys(db.centres, CentreKey) && KeysBelow(db.centres, CentreKey, db.nextId)
    && CartsValid(db.carts, db.nextId)
    && UniqueKeys(db.bookings, BookingKey) && KeysBelow(db.bookings, BookingKey, db.nextId)
    && (forall i :: 0 <= i < |db.bookings| ==> BookingValid(db.bookings[i]))
    && UniqueKeys(db.users, UserKey) && KeysBelow(db.users, UserKey, db.nextId)
    && (forall i :: 0 <= i < |db.users| ==> UserValid(db.users[i]))
    && UniqueUsers(db.users)
    && UniqueKeys(db.tokens, TokenKey) && KeysBelow(db.tokens, TokenKey, db.nextId)
  }

  const OrderPlaced := "Order placed successfully"

  class Store {
    var centres: seq<Centre>
    var carts: map<Id, Cart>
    var bookings: seq<Booking>
    var users: seq<User>
    var tokens: seq<TokenRecord>
    var nextId: Id

    function Snapshot(): Db
      reads this
    {
      Db(centres, carts, bookings, users, tokens, nextId)
    }

    ghost predicate Valid()
      reads this
    {
      DbValid(Snapshot())
    }

    /** An empty database. */
    constructor ()
      ensures Valid() && Snapshot() == Db([], map[], [], [], [], 0)
    {
      centres, carts, bookings, users, tokens, nextId := [], map[], [], [], [], 0;
    }

    // ----- the training-centre table (routes/trainRoutes.js)

    /** `new TrainCentre(doc).save()`: a draft that fails the schema leaves
        the table alone; a valid one is stored under a fresh id. */
    method SaveCentre(d: CentreDraft) returns (r: Result<Centre, string>)
      requires Valid()
      modifies this
      ensures Valid()
      ensures !DraftValid(d) ==> r == Failure(ValidationFailed("TrainCentre")) && Snapshot() == old(Snapshot())
      ensures DraftValid(d) ==> && r == Success(FromDraft(d, old(nextId)))
                                && Snapshot() == old(Snapshot()).(centres := old(centres) + [r.value], nextId := old(nextId) + 1)
    {
      if !DraftValid(d) {
        return Failure(ValidationFailed("TrainCentre"));
      }
      var c := FromDraft(d, nextId);
      AppendFresh(centres, CentreKey, nextId, c);
      centres, nextId := centres + [c], nextId + 1;
      r := Success(c);
    }

    /** `POST /api/train-centre`: 403 for a principal whose role is `admin`,
        400 for a missing field, and otherwise the save of a document that
        lacks the time, the seat count and the price, so 400 from
        validation. No request changes the table. */
    method CreateCentre(p: Principal, name: string, location: string, capacity: Option<int>, contactInfo: string)
      returns (r: Reply<Centre>)
      requires Valid()
      modifies this
      ensures Valid() && Snapshot() == old(Snapshot())
      ensures TrainRoutes.IsAdmin(p) ==> r == Err(403, TrainRoutes.CreateForbidden)
      ensures !TrainRoutes.IsAdmin(p) && TrainRoutes.MissingField(name, location, capacity, contactInfo)
              ==> r == Err(400, TrainRoutes.FieldsRequired)
      ensures !TrainRoutes.IsAdmin(p) && !TrainRoutes.MissingField(name, location, capacity, contactInfo)
              ==> r == Err(400, ValidationFailed("TrainCentre"))
    {
      if TrainRoutes.IsAdmin(p) {
        return Err(403, TrainRoutes.CreateForbidden);
      }
      if TrainRoutes.MissingField(name, location, capacity, contactInfo) {
        return Err(400, TrainRoutes.FieldsRequired);
      }
      var saved := SaveCentre(TrainRoutes.CreateDraft(p, name, location, capacity, contactInfo));
      match saved
      case Success(c) => r := Ok(201, c);
      case Failure(m) => r := Err(400, m);
    }

    /** `PUT /api/train-centre/:id`: 403 for an `admin` role, 404 for an
        unknown id, otherwise the centre with the given fields replaced,
        without re-validation. Nothing else changes. */
    method UpdateCentre(p: Principal, id: Id, name: Option<string>, location: Option<string>, capacity: Option<int>)
      returns (r: Reply<Centre>)
      requires Valid()
      modifies this
      ensures Valid()
      ensures TrainRoutes.IsAdmin(p) ==> r == Err(403, TrainRoutes.UpdateForbidden) && Snapshot() == old(Snapshot())
      ensures !TrainRoutes.IsAdmin(p) && FindCentre(old(centres), id).None?
              ==> r == Err(404, CentreNotFound) && Snapshot() == old(Snapshot())
      ensures !TrainRoutes.IsAdmin(p) && FindCentre(old(centres), id).Some? ==>
                var k := FindCentre(old(centres), id).value;
                && r == Ok(200, TrainRoutes.Patch(old(centres)[k], name, location, capacity))
                && Snapshot() == old(Snapshot()).(centres := old(centres)[k := r.value])
    {
      if TrainRoutes.IsAdmin(p) {
        return Err(403, TrainRoutes.UpdateForbidden);
      }
      var found := FindCentre(centres, id);
      if found.None? {
        return Err(404, CentreNotFound);
      }
      var k := found.value;
      var c := TrainRoutes.Patch(centres[k], name, location, capacity);
      ReplaceKeys(centres, k, c, CentreKey, nextId);
      centres := centres[k := c];
      r := Ok(200, c);
    }

    /** `DELETE /api/train-centre/:id`: 403 for an `admin` role, 404 for an
        unknown id, otherwise the centre is gone; cart lines and bookings
        that reference it stay. */
    method DeleteCentre(p: Principal, id: Id) returns (r: Reply<string>)
      requires Valid()
      modifies this
      ensures Valid()
      ensures TrainRoutes.IsAdmin(p) ==> r == Err(403, TrainRoutes.DeleteForbidden) && Snapshot() == old(Snapshot())
      ensures !TrainRoutes.IsAdmin(p) && FindCentre(old(centres), id).None?
              ==> r == Err(404, CentreNotFound) && Snapshot() == old(Snapshot())
      ensures !TrainRoutes.IsAdmin(p) && FindCentre(old(centres), id).Some? ==>
                && r == Ok(200, TrainRoutes.CentreDeleted)
                && Snapshot() == old(Snapshot()).(centres := RemoveAt(old(centres), FindCentre(old(centres), id).value))
    {
      if TrainRoutes.IsAdmin(p) {
        return Err(403, TrainRoutes.DeleteForbidden);
      }
      var found := FindCentre(centres, id);
      if found.None? {
        return Err(404, CentreNotFound);
      }
      RemoveAtKeys(centres, found.value, CentreKey, nextId);
      centres := RemoveAt(centres, found.value);
      r := Ok(200, TrainRoutes.CentreDeleted);
    }

    // ----- the cart table (routes/cartRoutes.js)

    /** `POST /api/cart`: 404 for an unknown centre; otherwise a line with
        the centre's current price is appended to the user's cart (created
        if absent), or, if the line fails the schema, 400 and no change. */
    method AddItem(p: Principal, centreId: Id, date: Option<Date>, time: string, seat: string)
      returns (r: Reply<string>)
      requires Valid()
      modifies this
      ensures Valid()
      ensures FindCentre(old(centres), centreId).None?
              ==> r == Err(404, CentreNotFound) && Snapshot() == old(Snapshot())
      ensures FindCentre(old(centres), centreId).Some? ==>
                var line := CartLine(old(nextId), centreId, date, time, seat,
                                     old(centres)[FindCentre(old(centres), centreId).value].price);
                && (!LineValid(line) ==> r == Err(400, ValidationFailed("Cart")) && Snapshot() == old(Snapshot()))
                && (LineValid(line) ==>
                      && r == Ok(201, CartRoutes.ItemAdded)
                      && Snapshot() == old(Snapshot()).(
                           carts := old(carts)[p.userId := CartRoutes.WithLine(old(carts), p.userId, line)],
                           nextId := old(nextId) + 1))
    {
      var found := FindCentre(centres, centreId);
      if found.None? {
        return Err(404, CentreNotFound);
      }
      var line := CartLine(nextId, centreId, date, time, seat, centres[found.value].price);
      if !LineValid(line) {
        return Err(400, ValidationFailed("Cart"));
      }
      var cart := CartRoutes.WithLine(carts, p.userId, line);
      CartsWithLine(carts, p.userId, line, nextId);
      DbWithCarts(Snapshot(), carts[p.userId := cart], nextId + 1);
      carts, nextId := carts[p.userId := cart], nextId + 1;
      r := Ok(201, CartRoutes.ItemAdded);
    }

    /** `DELETE /api/cart/:itemId`: 404 without a cart; otherwise every line
        with that id is dropped and the reply is success, whether or not
        one was there. */
    method RemoveItem(p: Principal, itemId: Id) returns (r: Reply<string>)
      requires Valid()
      modifies this
      ensures Valid()
      ensures p.userId !in old(carts) ==> r == Err(404, CartRoutes.CartNotFound) && Snapshot() == old(Snapshot())
      ensures p.userId in old(carts) ==>
                && r == Ok(200, CartRoutes.ItemRemoved)
                && Snapshot() == old(Snapshot()).(carts := old(carts)[p.userId :=
                     Cart(p.userId, CartRoutes.WithoutItem(old(carts)[p.userId].items, itemId))])
    {
      if p.userId !in carts {
        return Err(404, CartRoutes.CartNotFound);
      }
      var items := carts[p.userId].items;
      var kept := CartRoutes.WithoutItem(items, itemId);
      MembersKeysBelow(items, kept, LineKey, nextId);
      carts := carts[p.userId := Cart(p.userId, kept)];
      r := Ok(200, CartRoutes.ItemRemoved);
    }

    /** `POST /api/cart/checkout`, in one transaction: 404 without a cart;
        otherwise the lines are processed in cart order on a working copy of
        the centre table. If every line goes through, the copy is committed,
        one booking per line is inserted, the cart is deleted and the reply
        is 201 with the bookings; if any line fails, nothing changes and the
        reply is 400 with that line's error. An empty cart checks out with
        no bookings. */
    method Checkout(p: Principal) returns (r: Reply<(string, seq<Booking>)>)
      requires Valid()
      modifies this
      ensures Valid()
      ensures p.userId !in old(carts) ==> r == Err(404, CartRoutes.CartNotFound) && Snapshot() == old(Snapshot())
      ensures p.userId in old(carts) ==>
                var items := old(carts)[p.userId].items;
                match CartRoutes.Process(old(centres), items)
                case Failure(e) =>
                  r == Err(400, CartRoutes.CheckoutMessage(e)) && Snapshot() == old(Snapshot())
                case Success(cs) =>
                  var made := CartRoutes.NewBookings(p.userId, items, old(nextId));
                  && r == Ok(201, (OrderPlaced, made))
                  && Snapshot() == old(Snapshot()).(
                       centres := cs, carts := old(carts) - {p.userId},
                       bookings := old(bookings) + made, nextId := old(nextId) + |items|)
    {
      if p.userId !in carts {
        return Err(404, CartRoutes.CartNotFound);
      }
      var items := carts[p.userId].items;
      var run := RunLines(centres, items, p.userId, nextId);
      if run.Failure? {
        return Err(400, CartRoutes.CheckoutMessage(run.error));
      }
      CommitCheckout(p.userId, items, run.value.0, run.value.1);
      r := Ok(201, (OrderPlaced, run.value.1));
    }

    /** The commit of a successful checkout. */
    method CommitCheckout(user: Id, items: seq<CartLine>, work: seq<Centre>, pending: seq<Booking>)
      requires Valid() && user in carts && items == carts[user].items
      requires CartRoutes.Process(centres, items) == Success(work)
      requires pending == CartRoutes.NewBookings(user, items, nextId)
      modifies this
      ensures Valid()
      ensures Snapshot() == old(Snapshot()).(
                centres := work, carts := old(carts) - {user},
                bookings := old(bookings) + pending, nextId := old(nextId) + |items|)
    {
      DbCommit(Snapshot(), user, items, work, pending);
      centres, carts, bookings, nextId := work, carts - {user}, bookings + pending, nextId + |items|;
    }

    // ----- the booking table (routes/bookingRoutes.js)

    /** `POST /api/bookings`: 404 for an unknown centre; otherwise the
        booking is stored if it passes the schema (400 if not). No seat is
        checked or taken, and no other booking is looked at. */
    method CreateBooking(p: Principal, centreId: Id, date: Option<Date>, time: string, seat: string)
      returns (r: Reply<Booking>)
      requires Valid()
      modifies this
      ensures Valid()
      ensures FindCentre(old(centres), centreId).None?
              ==> r == Err(404, CentreNotFound) && Snapshot() == old(Snapshot())
      ensures FindCentre(old(centres), centreId).Some? ==>
                var b := Booking(old(nextId), p.userId, centreId, date, time, seat);
                && (!BookingValid(b) ==> r == Err(400, ValidationFailed("Booking")) && Snapshot() == old(Snapshot()))
                && (BookingValid(b) ==>
                      && r == Ok(201, b)
                      && Snapshot() == old(Snapshot()).(bookings := old(bookings) + [b], nextId := old(nextId) + 1))
    {
      var found := FindCentre(centres, centreId);
      if found.None? {
        return Err(404, CentreNotFound);
      }
      var b := Booking(nextId, p.userId, centreId, date, time, seat);
      if !BookingValid(b) {
        return Err(400, ValidationFailed("Booking"));
      }
      AppendFresh(bookings, BookingKey, nextId, b);
      bookings, nextId := bookings + [b], nextId + 1;
      r := Ok(201, b);
    }

    /** `DELETE /api/bookings/:id`: 404 for an unknown booking, 403 when it
        belongs to someone else, otherwise it is removed. The seat is not
        returned to the centre. */
    method DeleteBooking(p: Principal, id: Id) returns (r: Reply<string>)
      requires Valid()
      modifies this
      ensures Valid()
      ensures BookingRoutes.FindBooking(old(bookings), id).None?
              ==> r == Err(404, BookingRoutes.BookingNotFound) && Snapshot() == old(Snapshot())
      ensures BookingRoutes.FindBooking(old(bookings), id).Some? ==>
                var k := BookingRoutes.FindBooking(old(bookings), id).value;
                && (old(bookings)[k].user != p.userId ==>
                      r == Err(403, BookingRoutes.NotOwner) && Snapshot() == old(Snapshot()))
                && (old(bookings)[k].user == p.userId ==>
                      && r == Ok(200, BookingRoutes.BookingDeleted)
                      && Snapshot() == old(Snapshot()).(bookings := RemoveAt(old(bookings), k)))
    {
      var found := BookingRoutes.FindBooking(bookings, id);
      if found.None? {
        return Err(404, BookingRoutes.BookingNotFound);
      }
      var k := found.value;
      if bookings[k].user != p.userId {
        return Err(403, BookingRoutes.NotOwner);
      }
      RemoveAtKeys(bookings, k, BookingKey, nextId);
      bookings := RemoveAt(bookings, k);
      r := Ok(200, BookingRoutes.BookingDeleted);
    }

    // ----- the user and token tables (routes/auth.js)

    /** `new User(doc).save()`: schema validation first, then the unique
        indexes; either failure leaves the table alone. */
    method SaveUser(d: UserDraft) returns (r: Result<User, string>)
      requires Valid()
      modifies this
      ensures Valid()
      ensures var u := WithDefaults(d, old(nextId));
        && (!UserValid(u) ==> r == Failure(ValidationFailed("User")) && Snapshot() == old(Snapshot()))
        && (UserValid(u) && ClashesWithAny(old(users), u) ==>
              r == Failure(AuthRoutes.DuplicateKey) && Snapshot() == old(Snapshot()))
        && (UserValid(u) && !ClashesWithAny(old(users), u) ==>
              && r == Success(u)
              && Snapshot() == old(Snapshot()).(users := old(users) + [u], nextId := old(nextId) + 1))
    {
      var u := WithDefaults(d, nextId);
      if !UserValid(u) {
        return Failure(ValidationFailed("User"));
      }
      if ClashesWithAny(users, u) {
        return Failure(AuthRoutes.DuplicateKey);
      }
      InsertKeepsUnique(users, u);
      AppendFresh(users, UserKey, nextId, u);
      users, nextId := users + [u], nextId + 1;
      r := Success(u);
    }

    /** `POST /api/auth/register`: 400 when the email is taken, and
        otherwise 400 from validation, because the saved document has no
        country. No request adds a user. */
    method Register(firstName: string, lastName: string, email: string, phone: string,
                    nationalID: Option<string>, password: string) returns (r: Reply<User>)
      requires Valid()
      modifies this
      ensures Valid() && Snapshot() == old(Snapshot())
      ensures AuthRoutes.FindByEmail(old(users), email).Some? ==> r == Err(400, AuthRoutes.UserExists)
      ensures AuthRoutes.FindByEmail(old(users), email).None? ==> r == Err(400, ValidationFailed("User"))
    {
      if AuthRoutes.FindByEmail(users, email).Some? {
        return Err(400, AuthRoutes.UserExists);
      }
      var saved := SaveUser(AuthRoutes.RegisterDraft(firstName, lastName, email, phone, nationalID, password));
      match saved
      case Success(u) => r := Ok(201, u);
      case Failure(m) => r := Err(400, m);
    }

    /** `POST /api/auth/login`: 404 for an unknown email, 400 for a wrong
        password (compared as stored, in plain text), otherwise a token row
        for the user is added and the reply carries the user and the token.
        `freshToken` stands for the string `jwt.sign` returns. */
    method Login(email: string, password: string, freshToken: string) returns (r: Reply<(User, string)>)
      requires Valid()
      modifies this
      ensures Valid()
      ensures AuthRoutes.FindByEmail(old(users), email).None?
              ==> r == Err(404, UserNotFound) && Snapshot() == old(Snapshot())
      ensures AuthRoutes.FindByEmail(old(users), email).Some? ==>
                var u := old(users)[AuthRoutes.FindByEmail(old(users), email).value];
                && (u.password != password ==>
                      r == Err(400, AuthRoutes.InvalidCredentials) && Snapshot() == old(Snapshot()))
                && (u.password == password ==>
                      && r == Ok(200, (u, freshToken))
                      && Snapshot() == old(Snapshot()).(
                           tokens := old(tokens) + [TokenRecord(old(nextId), u.id, freshToken)],
                           nextId := old(nextId) + 1))
    {
      var found := AuthRoutes.FindByEmail(users, email);
      if found.None? {
        return Err(404, UserNotFound);
      }
      var u := users[found.value];
      if u.password != password {
        return Err(400, AuthRoutes.InvalidCredentials);
      }
      var t := TokenRecord(nextId, u.id, freshToken);
      AppendFresh(tokens, TokenKey, nextId, t);
      tokens, nextId := tokens + [t], nextId + 1;
      r := Ok(200, (u, freshToken));
    }

    /** `POST /api/auth/reset-password`: 404 for an unknown email; otherwise
        the password is replaced (in plain text) and the user re-saved,
        which fails with 500 when the new password is empty. */
    method ResetPassword(email: string, newPassword: string) returns (r: Reply<string>)
      requires Valid()
      modifies this
      ensures Valid()
      ensures AuthRoutes.FindByEmail(old(users), email).None?
              ==> r == Err(404, UserNotFound) && Snapshot() == old(Snapshot())
      ensures AuthRoutes.FindByEmail(old(users), email).Some? ==>
                var k := AuthRoutes.FindByEmail(old(users), email).value;
                && (newPassword == "" ==> r == Err(500, ValidationFailed("User")) && Snapshot() == old(Snapshot()))
                && (newPassword != "" ==>
                      && r == Ok(200, AuthRoutes.ResetDone)
                      && Snapshot() == old(Snapshot()).(users := old(users)[k := old(users)[k].(password := newPassword)]))
    {
      var found := AuthRoutes.FindByEmail(users, email);
      if found.None? {
        return Err(404, UserNotFound);
      }
      var k := found.value;
      var u := users[k].(password := newPassword);
      if !UserValid(u) {
        return Err(500, ValidationFailed("User"));
      }
      PasswordChangeKeepsUnique(users, k, newPassword);
      ReplaceKeys(users, k, u, UserKey, nextId);
      users := users[k := u];
      r := Ok(200, AuthRoutes.ResetDone);
    }
  }

  /** The loop of the checkout, inside the transaction: each line re-reads
      its centre in the working copy `work`, takes a seat from it, and adds a
      booking to `pending`; the first line that fails ends the loop with its
      error. The result is the walk `Process` and the bookings `NewBookings`. */
  method RunLines(cs: seq<Centre>, items: seq<CartLine>, user: Id, first: Id)
    returns (res: Result<(seq<Centre>, seq<Booking>), CartRoutes.CheckoutError>)
    ensures res.Failure? <==> CartRoutes.Process(cs, items).Failure?
    ensures res.Failure? ==> res.error == CartRoutes.Process(cs, items).error
    ensures res.Success? ==> && res.value.0 == CartRoutes.Process(cs, items).value
                             && res.value.1 == CartRoutes.NewBookings(user, items, first)
  {
    var work := cs;
    var pending: seq<Booking> := [];
    var i := 0;
    while i < |items|
      invariant 0 <= i <= |items|
      invariant CartRoutes.Process(cs, items[..i]) == Success(work)
      invariant pending == CartRoutes.NewBookings(user, items[..i], first)
    {
      assert items[..i + 1][..i] == items[..i];
      var line := items[i];
      var step := CartRoutes.Step(work, line);
      assert CartRoutes.Process(cs, items[..i + 1]) == step;
      if step.Failure? {
        CartRoutes.FailurePersists(cs, items, i + 1);
        return Failure(step.error);
      }
      CartRoutes.NewBookingsSnoc(user, items, i, first);
      work := step.value;
      pending := pending + [Booking(first + i, user, line.centre, line.date, line.time, line.seat)];
      i := i + 1;
    }
    assert items[..i] == items;
    res := Success((work, pending));
  }

  /** Adding a fresh valid line to a user's cart keeps every cart valid
      under the advanced counter. */
  lemma CartsWithLine(carts: map<Id, Cart>, user: Id, line: CartLine, bound: Id)
    requires CartsValid(carts, bound) && line.id == bound && LineValid(line)
    ensures CartsValid(carts[user := CartRoutes.WithLine(carts, user, line)], bound + 1)
  {
    var c := CartRoutes.WithLine(carts, user, line);
    var earlier := if user in carts then carts[user].items else [];
    AppendFresh(earlier, LineKey, bound, line);
    assert CartValid(c) by {
      assert c.items == earlier + [line];
      forall i | 0 <= i < |c.items| ensures LineValid(c.items[i]) {
        if i < |earlier| {
          assert c.items[i] == carts[user].items[i];
        }
      }
    }
    var m := carts[user := c];
    forall u | u in m ensures m[u].user == u && CartValid(m[u]) && KeysBelow(m[u].items, LineKey, bound + 1) {
      if u != user {
        assert m[u] == carts[u];
        KeysBelowMono(carts[u].items, LineKey, bound, bound + 1);
      }
    }
  }

  /** Deleting a cart keeps the others valid, under any later counter. */
  lemma CartsRemove(carts: map<Id, Cart>, user: Id, bound: Id, bound': Id)
    requires CartsValid(carts, bound) && bound <= bound'
    ensures CartsValid(carts - {user}, bound')
  {
    forall u | u in carts - {user} ensures KeysBelow(carts[u].items, LineKey, bound') {
      KeysBelowMono(carts[u].items, LineKey, bound, bound');
    }
  }

  /** Replacing the cart table and advancing the counter keeps the database
      valid when the new carts are valid. */
  lemma DbWithCarts(db: Db, carts: map<Id, Cart>, next: Id)
    requires DbValid(db) && db.nextId <= next && CartsValid(carts, next)
    ensures DbValid(db.(carts := carts, nextId := next))
  {
    KeysBelowMono(db.centres, CentreKey, db.nextId, next);
    KeysBelowMono(db.bookings, BookingKey, db.nextId, next);
    KeysBelowMono(db.users, UserKey, db.nextId, next);
    KeysBelowMono(db.tokens, TokenKey, db.nextId, next);
  }

  /** The state a successful checkout commits is valid. */
  lemma DbCommit(db: Db, user: Id, items: seq<CartLine>, work: seq<Centre>, pending: seq<Booking>)
    requires DbValid(db) && user in db.carts && items == db.carts[user].items
    requires CartRoutes.Process(db.centres, items) == Success(work)
    requires pending == CartRoutes.NewBookings(user, items, db.nextId)
    ensures DbValid(db.(centres := work, carts := db.carts - {user},
                        bookings := db.bookings + pending, nextId := db.nextId + |items|))
  {
    var next := db.nextId + |items|;
    CartRoutes.ProcessCharacterised(db.centres, items);
    assert CartValid(db.carts[user]);
    CartRoutes.NewBookingsValid(user, items, db.nextId);
    DecrementedKeys(db.centres, items, db.nextId);
    BookingsAppendKeys(db.bookings, pending, db.nextId);
    KeysBelowMono(work, CentreKey, db.nextId, next);
    KeysBelowMono(db.users, UserKey, db.nextId, next);
    KeysBelowMono(db.tokens, TokenKey, db.nextId, next);
    CartsRemove(db.carts, user, db.nextId, next);
  }

  /** The decremented centre table keeps the ids, so it keeps their
      uniqueness and bound. */
  lemma DecrementedKeys(cs: seq<Centre>, items: seq<CartLine>, bound: Id)
    requires UniqueKeys(cs, CentreKey) && KeysBelow(cs, CentreKey, bound)
    ensures UniqueKeys(CartRoutes.Decremented(cs, items), CentreKey)
    ensures KeysBelow(CartRoutes.Decremented(cs, items), CentreKey, bound)
  {
  }

  /** The checkout's bookings have ids from the counter on, so appending
      them keeps the booking ids unique and below the advanced counter. */
  lemma BookingsAppendKeys(bs: seq<Booking>, made: seq<Booking>, first: Id)
    requires UniqueKeys(bs, BookingKey) && KeysBelow(bs, BookingKey, first)
    requires forall k :: 0 <= k < |made| ==> made[k].id == first + k
    ensures UniqueKeys(bs + made, BookingKey)
    ensures KeysBelow(bs + made, BookingKey, first + |made|)
  {
  }
}
