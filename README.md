# Training-centre booking backend, modelled in Dafny

This project models the backend of a training-centre booking application.
Users register and log in. Logging in stores a bearer token. Training
centres (offerings) have a time slot, a seat count and a price. Users put
lines into a per-user cart and check the cart out in one transaction,
which takes one seat per line and turns each line into a booking. Users can
also book directly, list their bookings and delete them. Administrators are
meant to create, update and delete centres.

The database is modelled as one in-memory store, the class `Backend.Store`.
It has five tables (centres, carts by user, bookings, users, tokens) and an
id counter standing in for ObjectId generation. The invariant `Valid()`
requires that:

- ids are unique and already handed out;
- every cart, booking and user passes its schema (centres need not:
  an update writes its fields without running the validators, so a stored
  centre can fail the schema);
- the user table satisfies its unique indexes.

Each route that writes becomes a method on the store. The method keeps
`Valid()` and states its reply together with the whole new state, written
as the old `Snapshot()` with the changed tables replaced. Read-only routes
and the middleware are functions in one module per source file.

Checkout has two halves:

- **Specification.** The fold `CartRoutes.Process` walks the lines in
  cart order over the centre table, sees each earlier line's decrement,
  and stops at the first error.
- **Implementation.** `Backend.RunLines` is the loop of the route. It
  computes on a working copy. `Backend.Store.Checkout` commits the copy,
  inserts the bookings and deletes the cart, but only when every line went
  through. A failing checkout leaves every table exactly as it was.

`CartRoutes.ProcessCharacterised` gives an order-free description of the
fold. The walk succeeds exactly when every line's centre exists and each
referenced centre is valid and seated for all its lines. On success, each
centre loses exactly one seat per line that names it.

The code is modelled as written, including these behaviours:

- **The admin checks are inverted.** A principal whose role is `admin`
  gets 403. The middleware never sets a role, so the check never fires for
  an authenticated request (`TrainRoutes.AuthenticatedNeverAdmin`).
- **Creating a centre always fails.** The document it saves has no time,
  seat count or price, and the schema requires all three. An accepted
  request therefore always ends in a 400 validation error, and no request
  adds a centre (`TrainRoutes.CreateDraft`, `Backend.Store.CreateCentre`).
  Centres enter the model only through `SaveCentre`, the schema-checked
  insert.
- **Registering always fails.** The document has no `country`, which the
  user schema requires. Registration always answers 400 and never adds a
  user (`AuthRoutes.RegisterDraft`, `Backend.Store.Register`).
- **Removing an absent cart line reports success.**
- **Direct booking checks no seats and takes none.**
  The same slot can be booked twice.
- **Deleting a booking does not return its seat.**
- **An empty cart checks out successfully.** It produces no bookings and
  deletes the cart.
- **Checkout has three failure modes.** A line whose centre was deleted
  fails, because the populated reference is null and reading its `_id`
  throws. So does a centre with no seat left. Updates skip validation, and
  checkout re-validates every centre it saves, so a centre made invalid by
  an update also fails at checkout.
- **The two centre modules are one table.** The booking and centre routes
  load the centre model through a misspelt module name. That module is not
  part of this model, and it is read as the same centre table.

## Model

| member | source | states |
|---|---|---|
| TimeFormat.IsValidTime | backend/models/TrainingCentre.js:12 | the pattern itself: one or two hour characters (1-9 with an optional leading zero, or 10-12), `:`, a minute digit 0-5 and any digit, one space, then `A`/`P` and `M` in either case, with nothing before or after |
| TimeFormat.ParseTime | backend/models/TrainingCentre.js:12 | decoding succeeds exactly on the strings the anchored, case-insensitive `H:MM AM/PM` pattern admits, and yields an hour 1-12 and a minute 0-59 |
| TimeFormat.RenderRoundTrip | backend/models/TrainingCentre.js:12 | every clock time in every admitted spelling (leading zero, letter case) passes the validator and decodes to itself |
| TimeFormat.ParseRenders | backend/models/TrainingCentre.js:12 | every admitted string is the rendering of the time it decodes to, so the validator admits exactly the renderings of clock times |
| TimeFormat.TimeExamples | backend/models/TrainingCentre.js:12 | `pm`/`Am` are admitted; hours 0, 00 and 13, minute 60, one-digit minutes, surrounding characters, seconds and a missing or unspaced meridiem are rejected |
| CentreModel.CentreValid | backend/models/TrainingCentre.js:5-22 | a stored centre passes the schema when name, location and contactInfo are non-empty and the time matches the pattern; the numbers and the creator are present by construction |
| CentreModel.DraftValid | backend/models/TrainingCentre.js:4-25 | a new centre document passes the schema when every field but `date` is present, the required strings are non-empty and the time matches the pattern |
| CentreModel.FromDraft | backend/models/TrainingCentre.js:4-25 | a draft with every required field becomes a schema-valid record carrying exactly those fields under the given id |
| CentreModel.FindCentre | backend/routes/cartRoutes.js:15-18 | the lookup by id returns the first centre with that id, or none exactly when no centre has it |
| CentreModel.ValidityIgnoresSeats | backend/models/TrainingCentre.js:5-22 | changing the seat count never changes whether a centre passes the schema |
| CentreModel.SchemaAdmitsAnySeatCount | backend/models/TrainingCentre.js:18-19 | the schema admits more free seats than capacity, and negative free seats |
| CartModel.LineValid | backend/models/Cart.js:9-13 | a cart line needs a date, a non-empty time and a non-empty seat label; its centre and price are always present |
| CartModel.CartValid | backend/models/Cart.js:5-15 | a stored cart has only valid lines, each addressable by its own id |
| BookingModel.BookingValid | backend/models/Booking.js:5-11 | a booking needs a date, a non-empty time and a non-empty seat label; it has no price |
| BookingModel.DuplicateSlotsAdmissible | backend/models/Booking.js:5-13 | two valid bookings differing only in id may both be stored: no index covers centre, date, time and seat |
| UserModel.RoleValid | backend/models/User.js:39-42 | the role is `customer` or `admin` |
| UserModel.UserValid | backend/models/User.js:3-43 | firstName, lastName, email, phone, country and password are non-empty and the role is in the enumeration |
| UserModel.Clash | backend/models/User.js:12-34 | two users collide on a unique index when they share an email, or share a nationalID or passportNumber that both have |
| UserModel.UniqueUsers | backend/models/User.js:12-34 | no two stored users collide on a unique index |
| UserModel.WithDefaults | backend/models/User.js:39-43 | a user saved without a role gets `admin`; a given role is kept |
| UserModel.InsertKeepsUnique | backend/models/User.js:12-34 | inserting a user that clashes with no one on email, nationalID or passportNumber keeps the unique indexes satisfied |
| UserModel.PasswordChangeKeepsUnique | backend/models/User.js:12-34 | replacing one user's password keeps the unique indexes satisfied |
| AuthMiddleware.ReplaceFirst | backend/middleware/auth.js:13 | `replace` with a string pattern: only the first occurrence is replaced, and a string without one is returned as it is |
| AuthMiddleware.ReplaceLeadingPrefix | backend/middleware/auth.js:13 | removing the first occurrence of a leading prefix drops exactly that prefix |
| AuthMiddleware.ExtractToken | backend/middleware/auth.js:7-13 | a token exists exactly when the header is present and starts with `Bearer `, and it is the header without that prefix |
| AuthMiddleware.ExtractKeepsInnerPrefix | backend/middleware/auth.js:13 | only the first `Bearer ` is removed; `bearer ` in lower case and a bare `Bearer` are refused |
| AuthMiddleware.ErrorMessage | backend/middleware/auth.js:27-34 | `JsonWebTokenError` maps to `Invalid token`, `TokenExpiredError` to `Token expired`, every other error name to `Authentication balabizo` |
| AuthMiddleware.FindToken | backend/middleware/auth.js:16-19 | the lookup returns the first row with that token string, or none exactly when no row has it |
| AuthMiddleware.Authenticate | backend/middleware/auth.js:4-38 | every rejection is 401; a missing or non-bearer header or an unknown token gives `Authentication balabizo`; the request passes exactly when the token is extracted, found and verified; the principal is the userId of the first row carrying the token, with no role; a verification error gives its own message |
| TrainRoutes.IsAdmin | backend/routes/trainRoutes.js:11-13 | the condition under which create, update and delete answer 403: the principal's role is `admin` |
| TrainRoutes.MissingField | backend/routes/trainRoutes.js:19-21 | a required request field is falsy: an empty name, location or contactInfo, or a capacity that is absent or 0 |
| TrainRoutes.AuthenticatedNeverAdmin | backend/routes/trainRoutes.js:11-13 | no principal the middleware lets through is refused by the inverted `role == 'admin'` check |
| TrainRoutes.CreateDraft | backend/routes/trainRoutes.js:23-31 | the created document carries the four request fields and the principal as creator, no time, seats, price or date, and so never passes the schema |
| TrainRoutes.ListCentres | backend/routes/trainRoutes.js:41-48 | every centre is listed, in table order |
| TrainRoutes.GetCentre | backend/routes/trainRoutes.js:51-61 | 200 with a centre of that id exactly when one exists, otherwise 404 |
| TrainRoutes.SearchCentre | backend/routes/trainRoutes.js:64-75 | 200 with the first centre whose name equals the query exactly when one exists, otherwise 404 |
| TrainRoutes.Patch | backend/routes/trainRoutes.js:86-90 | the update replaces the given name, location and capacity and keeps the absent ones; id, date, time, seats, contact, creator and price stay |
| Backend.Store.SaveCentre | backend/routes/trainRoutes.js:23-31 | a draft failing the schema changes nothing; a valid one is appended under a fresh id and nothing else changes |
| Backend.Store.CreateCentre | backend/routes/trainRoutes.js:8-38 | 403 for an admin role, 400 `All fields are required` when a field is falsy (capacity 0 included), otherwise 400 from validation; the store never changes |
| Backend.Store.UpdateCentre | backend/routes/trainRoutes.js:79-102 | 403 for an admin role; 404 for an unknown id; otherwise only that centre is patched, and it is returned |
| Backend.Store.DeleteCentre | backend/routes/trainRoutes.js:105-120 | 403 for an admin role; 404 for an unknown id; otherwise exactly that centre is removed, while carts and bookings naming it stay |
| CartRoutes.Total | backend/routes/cartRoutes.js:53 | the left fold of the line prices from 0, in cart order |
| CartRoutes.View | backend/routes/cartRoutes.js:47-58 | 404 exactly when the user has no cart, otherwise the cart and the sum of its line prices |
| CartRoutes.TotalAppend | backend/routes/cartRoutes.js:53 | the total of a concatenation is the sum of the totals, so adding a line raises the total by its price |
| CartRoutes.WithoutItem | backend/routes/cartRoutes.js:68 | the kept lines are exactly the lines with another id; an absent id keeps the lines unchanged; unique line ids stay unique |
| CartRoutes.WithoutItemAppend | backend/routes/cartRoutes.js:68 | removal preserves the relative order of the remaining lines |
| CartRoutes.WithLine | backend/routes/cartRoutes.js:29-38 | the cart after adding a line belongs to the user and holds its earlier lines, or none when it is new, followed by the new line |
| Backend.Store.AddItem | backend/routes/cartRoutes.js:10-44 | 404 and no change for an unknown centre; otherwise a line carrying the centre's price at that moment is appended to the user's cart or starts one (400 and no change if the line fails the schema); no seats change |
| Backend.Store.RemoveItem | backend/routes/cartRoutes.js:61-75 | 404 and no change without a cart; otherwise the cart holds its lines minus that id, and the reply is success even when no line had it |
| CartRoutes.Step | backend/routes/cartRoutes.js:91-96 | one loop iteration on the transaction's view: a missing centre fails with the null-reference error exactly when the lookup finds nothing; a success keeps the table's length and ids |
| CartRoutes.Process | backend/routes/cartRoutes.js:90-105 | the whole loop: each line in cart order sees the earlier decrements, the first failure ends it, and a success keeps the table's length and ids |
| CartRoutes.CheckoutMessage | backend/routes/cartRoutes.js:91-117 | the message of the 400 an aborted checkout answers: the null-reference error, `No available seats for <name> at the requested time.`, or the validation error of the centre save |
| CartRoutes.NewBookings | backend/routes/cartRoutes.js:98-104 | one booking per line in cart order, with the principal as user and the line's centre, date, time and seat |
| CartRoutes.NewBookingsValid | backend/routes/cartRoutes.js:107 | bookings made from valid cart lines pass the booking schema, so the insert cannot fail |
| CartRoutes.ProcessCharacterised | backend/routes/cartRoutes.js:90-105 | with unique centre ids, the walk succeeds exactly when every line's centre exists and each referenced centre is valid with seats for all its lines, and then each centre loses one seat per line naming it |
| CartRoutes.FailingLine | backend/routes/cartRoutes.js:90-96 | a failed checkout stops at a line before which every line went through, and whose own step raises the reported error |
| CartRoutes.NoSeatsNamesItsCentre | backend/routes/cartRoutes.js:91-93 | a seat failure names the centre of the line it stopped at, which the earlier lines had left below one seat |
| CartRoutes.FailurePersists | backend/routes/cartRoutes.js:114-117 | once a prefix of the cart fails, the whole checkout fails with that same error |
| CartRoutes.CheckoutKeepsSeatsNonNegative | backend/routes/cartRoutes.js:92-95 | after a successful walk every touched centre has at least zero seats, and a table without negative counts keeps none |
| CartRoutes.AvailableThenExhaustedAborts | backend/routes/cartRoutes.js:90-117 | an available line followed by a line on a centre with no seats fails the whole order, naming the second centre |
| Backend.RunLines | backend/routes/cartRoutes.js:88-105 | the loop fails exactly when the walk fails, with the same error; on success it yields the walked centre table and one booking per line |
| Backend.Store.CommitCheckout | backend/routes/cartRoutes.js:107-111 | commit: the walked centres replace the table, the bookings are appended and the cart is deleted; the invariant is kept |
| Backend.Store.Checkout | backend/routes/cartRoutes.js:78-122 | 404 and no change without a cart; a failed walk gives 400 with its message and no change at all; a successful one commits the centres, appends the bookings, deletes the cart and replies 201 with them |
| BookingRoutes.MyBookings | backend/routes/bookingRoutes.js:35-42 | exactly the bookings of that user |
| BookingRoutes.MyBookingsAppend | backend/routes/bookingRoutes.js:37 | a new booking shows up last in its owner's list and in nobody else's |
| BookingRoutes.FindBooking | backend/routes/bookingRoutes.js:47-50 | the lookup returns a booking with that id, or none exactly when no booking has it |
| Backend.Store.CreateBooking | backend/routes/bookingRoutes.js:9-32 | 404 and no change for an unknown centre; otherwise exactly one booking with the principal as user and the request's fields is appended (400 and no change if it fails the schema); centres are never read for seats nor changed |
| Backend.Store.DeleteBooking | backend/routes/bookingRoutes.js:45-61 | 404 for an unknown id and 403 for another user's booking, both without change; otherwise exactly that booking is removed and no seat is returned |
| UserRoutes.FindUser | backend/routes/userRoutes.js:9 | the lookup by id returns a user with that id, or none exactly when no user has it |
| UserRoutes.Profile | backend/routes/userRoutes.js:7-16 | 200 with a user whose id is the principal's exactly when one exists, otherwise 404 |
| UserRoutes.AdminAccess | backend/routes/userRoutes.js:19-28 | access is denied for a missing user; with unique ids it is granted exactly when the principal's user has the role `admin` |
| AuthRoutes.FindByEmail | backend/routes/auth.js:12 | the lookup returns the first user with that email, or none exactly when no user has it |
| AuthRoutes.RegisterDraft | backend/routes/auth.js:15-22 | the document has the request's fields and the password verbatim, no role and no country, and so never passes the user schema |
| Backend.Store.SaveUser | backend/routes/auth.js:24 | schema failure, then unique-index failure, each change nothing; otherwise the user is appended under a fresh id |
| Backend.Store.Register | backend/routes/auth.js:8-30 | 400 `User already exists` for a taken email, otherwise 400 from validation; no request adds a user |
| Backend.Store.Login | backend/routes/auth.js:33-51 | 404 for an unknown email and 400 for a different password, both without change; otherwise exactly one token row with that user's id is added and the user and token are returned |
| Backend.Store.ResetPassword | backend/routes/auth.js:54-68 | 404 for an unknown email; 500 and no change for an empty new password; otherwise only that user's password changes |
| Scenarios.AuthenticatedCreate | backend/routes/trainRoutes.js:8-38 | a request that passes the middleware never creates a centre: it gets 400 and the store is unchanged |
| Scenarios.DoubleBooking | backend/routes/bookingRoutes.js:9-32 | the same slot is booked twice, both succeed, and the centres are untouched |
| Scenarios.RemoveAbsentItem | backend/routes/cartRoutes.js:61-75 | removing an id the cart lacks answers success and changes nothing |
| Scenarios.EmptyCartCheckout | backend/routes/cartRoutes.js:78-122 | an empty cart checks out with no bookings and no seat taken, and is deleted |
| Scenarios.CheckoutThenView | backend/routes/cartRoutes.js:47-52 | after a placed order the cart view is 404; after a failed one the cart is still there, unchanged |
| Scenarios.FeasibleCheckout | backend/routes/cartRoutes.js:90-113 | a cart the seats can serve is placed; each centre loses one seat per line naming it and stays at or above zero; one booking per line is appended in order |
| Scenarios.InfeasibleCheckout | backend/routes/cartRoutes.js:114-117 | a cart the seats cannot serve gets 400 and nothing changes |
| Scenarios.DeleteKeepsSeats | backend/routes/bookingRoutes.js:56-57 | deleting a booking leaves the centres and carts as they were |

## Left out

- The token signer and verifier are a foreign library. Login takes the fresh token string as a parameter. The middleware takes the verifier's outcome as a parameter: success, or the name of the error it throws. Token expiry is not modelled.
- The token model is not part of this model. The ownership check on delete compares the booking's user with the principal's `userId` by value. If the stored `userId` is an ObjectId, the source's strict comparison of a string with an ObjectId would refuse every owner with 403. The model does not capture that.
- Concurrency, Mongo sessions and transactions are not modelled as a mechanism. Requests run one at a time, and the checkout transaction is a computation on a copy that is committed only on success.
- `populate` joins are modelled as lookups by id. The cart view returns the cart with centre ids, not the populated centre documents.
- Ids are natural numbers handed out by a counter. Malformed ids are not modelled: cast errors on ill-formed ObjectId strings, and the 400/500 replies they cause. Neither is the serialised form of a document (`_id` of the cart document, `__v`, timestamps).
- Request bodies with missing fields are not modelled for lookups such as `findOne({ email: undefined })`. For update, a missing field is `None` and leaves the stored field unchanged. That is how Mongoose 6 and later treat `undefined` in an update; Mongoose 5 without `omitUndefined` would write `null` instead. The Mongoose version is not part of this model.
- Prices are integers: JavaScript numbers are floating point. Dates are opaque integers, and date parsing and casting are left out.
- Validation errors carry the message `<Model> validation failed`, without Mongoose's per-field detail.
- Database failures that reach the routes' catch blocks (the 500 replies) are not modelled, except where the route's own logic throws.
- Backend.Store.Checkout: the reply carries the bookings as stored, with their ids. The source replies with the plain objects it built before the insert, which have no ids.
- Backend.Store.Register and Backend.Store.CreateCentre: their 201 success replies cannot be reached, because the saved document always fails validation. The model states that the store never changes, and the "a successful register adds exactly one user" behaviour has no case to hold for.
- The frontend, the HTTP wrappers, the server wiring and the database connection are outside the core.
