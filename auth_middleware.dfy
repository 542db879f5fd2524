/** The authentication middleware: it reads the `Authorization` header,
    looks the bearer token up in the token table, asks the JWT library to
    verify it, and either passes a principal on to the route or answers 401. */
module AuthMiddleware {
  import opened Common

  /** A row of the token table, written at login. */
  datatype TokenRecord = TokenRecord(id: Id, userId: Id, token: string)

  /** What the middleware puts on `req.user`. It only ever sets `userId`;
      `role` is there because the centre routes read `req.user.role`. */
  datatype Principal = Principal(userId: Id, role: Option<string>)

  /** Either the request goes on to the route with a principal, or the
      middleware answers with an error and the route is never called. */
  datatype AuthOutcome = Next(principal: Principal) | Reject(status: int, message: string)

  const BearerPrefix := "Bearer "

  function TokenKey(t: TokenRecord): Id {
    t.id
  }

  /** `pat` occurs in `s` starting at index `j`. */
  predicate OccursAt(s: string, pat: string, j: nat) {
    j + |pat| <= |s| && s[j..j + |pat|] == pat
  }

  /** The first index at or after `from` where `pat` occurs in `s`. */
  function FirstOccurrence(s: string, pat: string, from: nat): (r: Option<nat>)
    decreases |s| - from
    ensures r.Some? ==> from <= r.value && OccursAt(s, pat, r.value)
    ensures r.Some? ==> forall j :: from <= j < r.value ==> !OccursAt(s, pat, j)
    ensures r.None? ==> forall j :: from <= j ==> !OccursAt(s, pat, j)
  {
    if from + |pat| > |s| then None
    else if OccursAt(s, pat, from) then Some(from)
    else FirstOccurrence(s, pat, from + 1)
  }

  /** `String.prototype.replace` with a string pattern: only the first
      occurrence is replaced. */
  function ReplaceFirst(s: string, pat: string, rep: string): string {
    match FirstOccurrence(s, pat, 0)
    case None => s
    case Some(i) => s[..i] + rep + s[i + |pat|..]
  }

  /** Removing the first occurrence of a prefix the header starts with
      strips exactly that prefix. */
  lemma ReplaceLeadingPrefix(s: string, pat: string)
    requires StartsWith(s, pat)
    ensures ReplaceFirst(s, pat, "") == s[|pat|..]
  {
  }

  /** The token: present exactly when the header starts with `Bearer `, and
      then the header with that prefix removed (and only that one: a second
      `Bearer ` inside the token stays). */
  function ExtractToken(header: Option<string>): (r: Option<string>)
    ensures r.Some? <==> header.Some? && StartsWith(header.value, BearerPrefix)
    ensures r.Some? ==> r.value == header.value[|BearerPrefix|..]
  {
    if header.None? || !StartsWith(header.value, BearerPrefix) then None
    else
      ReplaceLeadingPrefix(header.value, BearerPrefix);
      Some(ReplaceFirst(header.value, BearerPrefix, ""))
  }

  /** The error message sent for an exception with the given `name`. The
      plain `Error`s the middleware throws itself fall in the last case. */
  function ErrorMessage(errorName: string): (m: string)
    ensures errorName == "JsonWebTokenError" ==> m == "Invalid token"
    ensures errorName == "TokenExpiredError" ==> m == "Token expired"
    ensures errorName != "JsonWebTokenError" && errorName != "TokenExpiredError" ==> m == "Authentication balabizo"
  {
    if errorName == "JsonWebTokenError" then "Invalid token"
    else if errorName == "TokenExpiredError" then "Token expired"
    else "Authentication balabizo"
  }

  /** `Token.findOne({ token })`. */
  function FindToken(tokens: seq<TokenRecord>, token: string): (r: Option<nat>)
    ensures r.Some? ==> r.value < |tokens| && tokens[r.value].token == token
    ensures r.Some? ==> forall j :: 0 <= j < r.value ==> tokens[j].token != token
    ensures r.None? ==> forall j :: 0 <= j < |tokens| ==> tokens[j].token != token
  {
    FirstIndex(tokens, (t: TokenRecord) => t.token == token)
  }

  /** The middleware. `verifyError` stands for `jwt.verify`, which this
      model does not implement: `None` when it accepts the token, or the
      `name` of the error it throws. */
  function Authenticate(header: Option<string>, tokens: seq<TokenRecord>, verifyError: Option<string>): (r: AuthOutcome)
    ensures r.Reject? ==> r.status == 401
    ensures ExtractToken(header).None? ==> r == Reject(401, "Authentication balabizo")
    ensures (ExtractToken(header).Some? && forall j :: 0 <= j < |tokens| ==> tokens[j].token != ExtractToken(header).value)
            ==> r == Reject(401, "Authentication balabizo")
    ensures r.Next? <==> && ExtractToken(header).Some?
                         && (exists j :: 0 <= j < |tokens| && tokens[j].token == ExtractToken(header).value)
                         && verifyError.None?
    ensures r.Next? ==> r.principal.role.None?
    ensures r.Next? ==> exists j :: && 0 <= j < |tokens| && tokens[j].token == ExtractToken(header).value
                                    && tokens[j].userId == r.principal.userId
    ensures r.Next? ==> && FindToken(tokens, ExtractToken(header).value).Some?
                        && r.principal.userId == tokens[FindToken(tokens, ExtractToken(header).value).value].userId
    ensures (&& ExtractToken(header).Some? && verifyError.Some?
             && exists j :: 0 <= j < |tokens| && tokens[j].token == ExtractToken(header).value)
            ==> r == Reject(401, ErrorMessage(verifyError.value))
  {
    match ExtractToken(header)
    case None => Reject(401, ErrorMessage("Error"))
    case Some(token) =>
      match FindToken(tokens, token)
      case None => Reject(401, ErrorMessage("Error"))
      case Some(k) =>
        if verifyError.Some? then Reject(401, ErrorMessage(verifyError.value))
        else Next(Principal(tokens[k].userId, None))
  }

  /** Only the first `Bearer ` is removed. */
  lemma ExtractKeepsInnerPrefix()
    ensures ExtractToken(Some("Bearer Bearer abc")) == Some("Bearer abc")
    ensures ExtractToken(Some("bearer abc")).None? && ExtractToken(Some("Bearer")).None?
  {
    assert "bearer abc"[0] != BearerPrefix[0];
  }
}
