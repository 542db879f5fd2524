/** The pure part of the register/login/reset routes: the lookup by email
    and the document `register` saves. The handlers that change the user
    and token tables are `Backend.Store.Register`, `Login` and
    `ResetPassword`. */
module AuthRoutes {
  import opened Common
  import opened UserModel

  const UserExists := "User already exists"
  const InvalidCredentials := "Invalid credentials"
  const ResetDone := "Password reset successful"
  const DuplicateKey := "E11000 duplicate key error"

  /** `User.findOne({ email })`. */
  function FindByEmail(us: seq<User>, email: string): (r: Option<nat>)
    ensures r.Some? ==> r.value < |us| && us[r.value].email == email
    ensures r.Some? ==> forall j :: 0 <= j < r.value ==> us[j].email != email
    ensures r.None? ==> forall j :: 0 <= j < |us| ==> us[j].email != email
  {
    FirstIndex(us, (u: User) => u.email == email)
  }

  /** The document `POST /api/auth/register` saves: the request's fields,
      the password verbatim, no passport number, no role (so the schema
      default applies) and no country. The country is required, so the
      document fails validation whatever the request holds. */
  function RegisterDraft(firstName: string, lastName: string, email: string, phone: string,
                         nationalID: Option<string>, password: string): (d: UserDraft)
    ensures d.firstName == firstName && d.lastName == lastName && d.email == email && d.phone == phone
    ensures d.nationalID == nationalID && d.password == password
    ensures d.passportNumber.None? && d.role.None? && d.country == ""
    ensures forall id :: !UserValid(WithDefaults(d, id))
  {
    UserDraft(firstName, lastName, email, phone, "", nationalID, None, password, None)
  }
}
