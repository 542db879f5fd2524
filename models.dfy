/** The training-centre schema: the stored record, the document a route
    builds before `save`, and the schema's validation. */
module CentreModel {
  import opened Common
  import opened TimeFormat

  /** A stored training centre (an offering). `capacity` and
      `availableSeats` are independent numbers; `date` is optional. */
  datatype Centre = Centre(
    id: Id, name: string, location: string, date: Option<Date>, time: string,
    capacity: int, availableSeats: int, contactInfo: string, createdBy: Id, price: int)

  /** A centre document as a route fills it in, before validation: a
      number or reference a route does not set is `None`, a string it does
      not set is empty. */
  datatype CentreDraft = CentreDraft(
    name: string, location: string, date: Option<Date>, time: string,
    capacity: Option<int>, availableSeats: Option<int>, contactInfo: string,
    createdBy: Option<Id>, price: Option<int>)

  function CentreKey(c: Centre): Id {
    c.id
  }

  /** The schema's checks on a stored document: the required strings are
      non-empty and the time matches the time pattern. The numbers and the
      creator are present by construction; no relation between capacity and
      availableSeats is required. */
  predicate CentreValid(c: Centre) {
    c.name != "" && c.location != "" && IsValidTime(c.time) && c.contactInfo != ""
  }

  /** The schema's checks on a new document: every field but `date` is required. */
  predicate DraftValid(d: CentreDraft) {
    && d.name != "" && d.location != "" && IsValidTime(d.time)
    && d.capacity.Some? && d.availableSeats.Some? && d.contactInfo != ""
    && d.createdBy.Some? && d.price.Some?
  }

  /** The stored record a valid draft becomes under a fresh id. */
  function FromDraft(d: CentreDraft, id: Id): (c: Centre)
    requires DraftValid(d)
    ensures CentreValid(c) && c.id == id
    ensures c.name == d.name && c.location == d.location && c.date == d.date && c.time == d.time
    ensures c.capacity == d.capacity.value && c.availableSeats == d.availableSeats.value
    ensures c.contactInfo == d.contactInfo && c.createdBy == d.createdBy.value && c.price == d.price.value
  {
    Centre(id, d.name, d.location, d.date, d.time, d.capacity.value, d.availableSeats.value,
           d.contactInfo, d.createdBy.value, d.price.value)
  }

  /** `TrainCentre.findById`: the first centre with that id. */
  function FindCentre(cs: seq<Centre>, id: Id): (r: Option<nat>)
    ensures r.Some? ==> r.value < |cs| && cs[r.value].id == id
    ensures r.Some? ==> forall j :: 0 <= j < r.value ==> cs[j].id != id
    ensures r.None? ==> forall j :: 0 <= j < |cs| ==> cs[j].id != id
  {
    FirstIndex(cs, (c: Centre) => c.id == id)
  }

  /** Validation never looks at the seat count, so decrementing it cannot
      make a centre valid or invalid. */
  lemma ValidityIgnoresSeats(c: Centre, n: int)
    ensures CentreValid(c.(availableSeats := n)) == CentreValid(c)
  {
  }

  /** The schema admits more free seats than capacity, and negative free seats. */
  lemma SchemaAdmitsAnySeatCount()
    ensures DraftValid(CentreDraft("Hall", "Cairo", None, "9:00 AM", Some(10), Some(11), "info", Some(0), Some(5)))
    ensures DraftValid(CentreDraft("Hall", "Cairo", None, "9:00 AM", Some(10), Some(-1), "info", Some(0), Some(5)))
  {
  }
}

/** The cart schema: a per-user ordered sequence of lines. */
module CartModel {
  import opened Common

  /** One cart line; `id` is the subdocument id that removal addresses, and
      `price` is copied from the centre when the line is added. */
  datatype CartLine = CartLine(id: Id, centre: Id, date: Option<Date>, time: string, seat: string, price: int)

  /** A cart: its required user reference and its lines in order. */
  datatype Cart = Cart(user: Id, items: seq<CartLine>)

  function LineKey(l: CartLine): Id {
    l.id
  }

  /** A line needs a centre, a date, a time, a seat label and a price; the
      centre and the price are always present here. */
  predicate LineValid(l: CartLine) {
    l.date.Some? && l.time != "" && l.seat != ""
  }

  /** A saved cart: every line valid, every line addressable by its own id. */
  ghost predicate CartValid(c: Cart) {
    (forall i :: 0 <= i < |c.items| ==> LineValid(c.items[i])) && UniqueKeys(c.items, LineKey)
  }
}

/** The booking schema. */
module BookingModel {
  import opened Common

  /** A booking: user, centre, date, time and seat label; it carries no price. */
  datatype Booking = Booking(id: Id, user: Id, centre: Id, date: Option<Date>, time: string, seat: string)

  function BookingKey(b: Booking): Id {
    b.id
  }

  predicate BookingValid(b: Booking) {
    b.date.Some? && b.time != "" && b.seat != ""
  }

  /** No index covers (centre, date, time, seat): two valid bookings that
      differ only in their ids may sit in one table. */
  lemma DuplicateSlotsAdmissible(b: Booking, other: Id)
    requires BookingValid(b) && other != b.id
    ensures var t := [b, b.(id := other)];
      (forall i :: 0 <= i < |t| ==> BookingValid(t[i])) && UniqueKeys(t, BookingKey)
  {
  }
}

/** The user schema: required fields, the role enumeration with its
    default, and the unique indexes. */
module UserModel {
  import opened Common

  datatype User = User(
    id: Id, firstName: string, lastName: string, email: string, phone: string, country: string,
    nationalID: Option<string>, passportNumber: Option<string>, password: string, role: string)

  /** A user document before validation; `role` is `None` when not given. */
  datatype UserDraft = UserDraft(
    firstName: string, lastName: string, email: string, phone: string, country: string,
    nationalID: Option<string>, passportNumber: Option<string>, password: string, role: Option<string>)

  const DefaultRole := "admin"

  function UserKey(u: User): Id {
    u.id
  }

  predicate RoleValid(role: string) {
    role == "customer" || role == "admin"
  }

  /** The required strings are non-empty and the role is in the enumeration. */
  predicate UserValid(u: User) {
    && u.firstName != "" && u.lastName != "" && u.email != "" && u.phone != ""
    && u.country != "" && u.password != "" && RoleValid(u.role)
  }

  /** The document a draft becomes under a fresh id, with the schema default
      for a missing role. */
  function WithDefaults(d: UserDraft, id: Id): (u: User)
    ensures u.id == id && u.role == (if d.role.Some? then d.role.value else DefaultRole)
    ensures d.role.None? ==> u.role == "admin"
  {
    User(id, d.firstName, d.lastName, d.email, d.phone, d.country, d.nationalID, d.passportNumber,
         d.password, if d.role.Some? then d.role.value else DefaultRole)
  }

  /** Two users collide on a unique index: the same email, or the same
      nationalID or passportNumber where both have one (the sparse indexes). */
  predicate Clash(a: User, b: User) {
    || a.email == b.email
    || (a.nationalID.Some? && a.nationalID == b.nationalID)
    || (a.passportNumber.Some? && a.passportNumber == b.passportNumber)
  }

  ghost predicate UniqueUsers(us: seq<User>) {
    forall i, j :: 0 <= i < j < |us| ==> !Clash(us[i], us[j])
  }

  /** Whether inserting `u` would violate a unique index. */
  predicate ClashesWithAny(us: seq<User>, u: User) {
    exists i :: 0 <= i < |us| && Clash(us[i], u)
  }

  /** Inserting a user that clashes with nobody keeps the indexes satisfied. */
  lemma InsertKeepsUnique(us: seq<User>, u: User)
    requires UniqueUsers(us) && !ClashesWithAny(us, u)
    ensures UniqueUsers(us + [u])
  {
  }

  /** The unique indexes do not cover the password, so changing one keeps them satisfied. */
  lemma PasswordChangeKeepsUnique(us: seq<User>, k: nat, password: string)
    requires k < |us| && UniqueUsers(us)
    ensures UniqueUsers(us[k := us[k].(password := password)])
  {
  }
}
