/** The pure part of the training-centre routes: the (inverted) admin
    check, the required-field check, the document `create` builds, and the
    read-only routes list, get and search. The handlers that change the
    centre table are `Backend.Store.CreateCentre`, `UpdateCentre` and
    `DeleteCentre`. */
module TrainRoutes {
  import opened Common
  import opened CentreModel
  import opened AuthMiddleware

  const CreateForbidden := "Only admin can create training centres"
  const UpdateForbidden := "Only admin can update training centres"
  const DeleteForbidden := "Only admin can delete training centres"
  const FieldsRequired := "All fields are required"
  const CentreDeleted := "Training centre deleted successfully"

  /** `req.user.role == 'admin'`, the condition under which the centre
      routes answer 403. */
  predicate IsAdmin(p: Principal) {
    p.role == Some("admin")
  }

  /** The middleware never sets a role, so no authenticated request is
      ever refused by the admin check. */
  lemma AuthenticatedNeverAdmin(header: Option<string>, tokens: seq<TokenRecord>, verifyError: Option<string>)
    requires Authenticate(header, tokens, verifyError).Next?
    ensures !IsAdmin(Authenticate(header, tokens, verifyError).principal)
  {
  }

  /** `!name || !location || !capacity || !contactInfo`: a field is missing
      or falsy (the empty string, or a capacity that is absent or 0). */
  predicate MissingField(name: string, location: string, capacity: Option<int>, contactInfo: string) {
    name == "" || location == "" || capacity.None? || capacity == Some(0) || contactInfo == ""
  }

  /** The document `POST /api/train-centre` saves: the four request fields
      and the principal as creator. It sets no time, seat count or price,
      all three required by the schema, so it never passes validation. */
  function CreateDraft(p: Principal, name: string, location: string, capacity: Option<int>, contactInfo: string): (d: CentreDraft)
    ensures d.name == name && d.location == location && d.capacity == capacity && d.contactInfo == contactInfo
    ensures d.createdBy == Some(p.userId)
    ensures d.time == "" && d.availableSeats.None? && d.price.None? && d.date.None?
    ensures !DraftValid(d)
  {
    CentreDraft(name, location, None, "", capacity, None, contactInfo, Some(p.userId), None)
  }

  /** `GET /api/train-centre`: every centre, in table order. */
  function ListCentres(cs: seq<Centre>): (r: Reply<seq<Centre>>)
    ensures r.Ok? && r.status == 200 && |r.value| == |cs|
    ensures forall k :: 0 <= k < |cs| ==> r.value[k] == cs[k]
  {
    Ok(200, cs)
  }

  /** `GET /api/train-centre/:id`. */
  function GetCentre(cs: seq<Centre>, id: Id): (r: Reply<Centre>)
    ensures r.Ok? <==> exists k :: 0 <= k < |cs| && cs[k].id == id
    ensures r.Ok? ==> r.status == 200 && r.value in cs && r.value.id == id
    ensures r.Err? ==> r == Err(404, CentreNotFound)
  {
    match FindCentre(cs, id)
    case None => Err(404, CentreNotFound)
    case Some(k) => Ok(200, cs[k])
  }

  /** `POST /api/train-centre/search`: the first centre whose name equals
      the query exactly, or 404. */
  function SearchCentre(cs: seq<Centre>, name: string): (r: Reply<Centre>)
    ensures r.Ok? <==> exists k :: 0 <= k < |cs| && cs[k].name == name
    ensures r.Ok? ==> r.status == 200 && r.value.name == name
    ensures r.Ok? ==> exists k :: && 0 <= k < |cs| && cs[k] == r.value
                                  && forall j :: 0 <= j < k ==> cs[j].name != name
    ensures r.Err? ==> r == Err(404, CentreNotFound)
  {
    match FirstIndex(cs, (c: Centre) => c.name == name)
    case None => Err(404, CentreNotFound)
    case Some(k) => Ok(200, cs[k])
  }

  /** The update `findByIdAndUpdate` applies: name, location and capacity
      when the request gives them, and nothing else. */
  function Patch(c: Centre, name: Option<string>, location: Option<string>, capacity: Option<int>): (r: Centre)
    ensures r.id == c.id && r.date == c.date && r.time == c.time && r.availableSeats == c.availableSeats
    ensures r.contactInfo == c.contactInfo && r.createdBy == c.createdBy && r.price == c.price
    ensures name.Some? ==> r.name == name.value
    ensures location.Some? ==> r.location == location.value
    ensures capacity.Some? ==> r.capacity == capacity.value
    ensures name.None? ==> r.name == c.name
    ensures location.None? ==> r.location == c.location
    ensures capacity.None? ==> r.capacity == c.capacity
    ensures name.None? && location.None? && capacity.None? ==> r == c
  {
    c.(name := if name.Some? then name.value else c.name,
       location := if location.Some? then location.value else c.location,
       capacity := if capacity.Some? then capacity.value else c.capacity)
  }
}
