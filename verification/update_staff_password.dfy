/** The privileged password-reset endpoint: an ordered chain of checks that
    maps a request and the backend's answers to an HTTP response. The first
    failing check decides the response; the password is changed only when
    every check passes. */
module StaffPasswordEndpoint {
  import opened Js
  import opened Text

  /** The parsed JSON body, or the message of the error `req.json()` throws. */
  datatype Body = Malformed(parseError: Option<string>) | Json(staffId: Option<string>, newPassword: Option<string>)

  datatype Request = Request(verb: string, authorization: Option<string>, body: Body)

  /** The backend as seen by the function. `caller` answers `getUser(token)`
      (None when it errors or finds nobody); `hasRole` answers the admin
      role check; `staffUserId` answers the staff lookup by id (None when it
      errors or finds no row, otherwise the nullable user_id column);
      `updateError` answers `updateUserById`. */
  datatype Backend = Backend(
    caller: string -> Option<string>,
    hasRole: string -> JsValue,
    staffUserId: string -> Option<Option<string>>,
    updateError: (string, string) -> Option<string>)

  datatype ResponseBody = NoBody | Error(error: string) | Success

  datatype Response = Response(status: int, body: ResponseBody)

  /** The backend calls, in the only order the handler can issue them. */
  datatype Call =
    | GetUser(token: string)
    | HasAdminRole(callerId: string)
    | LookupStaff(staffId: string)
    | UpdateUserPassword(userId: string, password: string)

  datatype Handled = Handled(response: Response, calls: seq<Call>)

  const Unauthorized := Response(401, Error("Unauthorized"))
  const Forbidden := Response(403, Error("Admin access required"))
  const MissingFields := Response(400, Error("Staff ID and new password are required"))
  const ShortPassword := Response(400, Error("Password must be at least 6 characters"))
  const UnknownStaff := Response(404, Error("Staff member not found"))
  const NoUserAccount := Response(400, Error("Staff member does not have an associated user account"))
  const MinPasswordLength: nat := 6

  /** `authHeader.replace("Bearer ", "")`: the first occurrence of the scheme
      is removed, wherever it is. */
  function Token(authHeader: string): (t: string)
    ensures IndexOf(authHeader, "Bearer ").None? ==> t == authHeader
    ensures IndexOf(authHeader, "Bearer ").Some? ==>
      var i := IndexOf(authHeader, "Bearer ").value;
      t == authHeader[..i] + authHeader[i + 7..]
  {
    ReplaceFirst(authHeader, "Bearer ", "")
  }

  /** The handler. */
  function Handle(req: Request, b: Backend): (h: Handled)
    ensures req.verb == "OPTIONS" ==> h == Handled(Response(200, NoBody), [])
    ensures h.response.status == 200 <==> req.verb == "OPTIONS" || h.response.body == Success
    ensures h.response.body.Success? ==> h.response.status == 200
    ensures req.verb != "OPTIONS" && !h.response.body.Success? ==> h.response.body.Error?
    ensures h.response.status in {200, 400, 401, 403, 404, 500}
    ensures !Present(req.authorization) && req.verb != "OPTIONS" ==> h == Handled(Unauthorized, [])
    ensures h.response.status == 401 ==> |h.calls| <= 1
    ensures h.response.status == 403 ==> |h.calls| == 2
    ensures |h.calls| <= 4
    ensures forall i :: 0 <= i < |h.calls| ==> Stage(h.calls[i]) == i
  {
    if req.verb == "OPTIONS" then Handled(Response(200, NoBody), [])
    else if !Present(req.authorization) then Handled(Unauthorized, [])
    else
      var token := Token(req.authorization.value);
      var c0 := [GetUser(token)];
      match b.caller(token)
      case None => Handled(Unauthorized, c0)
      case Some(callerId) =>
        var c1 := c0 + [HasAdminRole(callerId)];
        if !IsTruthy(b.hasRole(callerId)) then Handled(Forbidden, c1)
        else
          match req.body
          case Malformed(msg) => Handled(Response(500, Error(msg.GetOr("Unknown error"))), c1)
          case Json(staffId, newPassword) =>
            if !Present(staffId) || !Present(newPassword) then Handled(MissingFields, c1)
            else if JsLength(newPassword.value) < MinPasswordLength then Handled(ShortPassword, c1)
            else
              var c2 := c1 + [LookupStaff(staffId.value)];
              match b.staffUserId(staffId.value)
              case None => Handled(UnknownStaff, c2)
              case Some(userId) =>
                if !Present(userId) then Handled(NoUserAccount, c2)
                else
                  var c3 := c2 + [UpdateUserPassword(userId.value, newPassword.value)];
                  match b.updateError(userId.value, newPassword.value)
                  case Some(message) => Handled(Response(400, Error(message)), c3)
                  case None => Handled(Response(200, Success), c3)
  }

  /** Position of each call in the handler's fixed sequence. */
  function Stage(c: Call): nat {
    match c
    case GetUser(_) => 0
    case HasAdminRole(_) => 1
    case LookupStaff(_) => 2
    case UpdateUserPassword(_, _) => 3
  }

  // ---------------------------------------------------------------------
  // An independent statement of when the password is changed

  /** The caller behind the request's bearer token, if any. */
  function CallerOf(req: Request, b: Backend): Option<string>
    requires Present(req.authorization)
  {
    b.caller(Token(req.authorization.value))
  }

  /** Every check the handler makes before touching the password passes. */
  predicate Authorized(req: Request, b: Backend) {
    && req.verb != "OPTIONS"
    && Present(req.authorization)
    && CallerOf(req, b).Some?
    && IsTruthy(b.hasRole(CallerOf(req, b).value))
  }

  predicate ValidBody(req: Request) {
    && req.body.Json?
    && Present(req.body.staffId)
    && Present(req.body.newPassword)
    && JsLength(req.body.newPassword.value) >= MinPasswordLength
  }

  predicate HasAccount(req: Request, b: Backend)
    requires ValidBody(req)
  {
    && b.staffUserId(req.body.staffId.value).Some?
    && Present(b.staffUserId(req.body.staffId.value).value)
  }

  predicate ReachesUpdate(req: Request, b: Backend) {
    Authorized(req, b) && ValidBody(req) && HasAccount(req, b)
  }

  /** The password update is issued exactly for an authenticated admin, a
      well-formed body with a long enough password, and a staff row bound
      to a user account; then it goes to that account with that password. */
  lemma {:induction false} UpdateIffAllChecksPass(req: Request, b: Backend)
    ensures (exists i :: 0 <= i < |Handle(req, b).calls| && Handle(req, b).calls[i].UpdateUserPassword?)
      <==> ReachesUpdate(req, b)
    ensures ReachesUpdate(req, b) ==>
      Handle(req, b).calls[3] == UpdateUserPassword(b.staffUserId(req.body.staffId.value).value.value, req.body.newPassword.value)
  {
    var h := Handle(req, b);
    if exists i :: 0 <= i < |h.calls| && h.calls[i].UpdateUserPassword? {
      var i :| 0 <= i < |h.calls| && h.calls[i].UpdateUserPassword?;
      assert Stage(h.calls[i]) == 3;
      assert |h.calls| == 4;
    }
    if ReachesUpdate(req, b) {
      assert h.calls[3].UpdateUserPassword?;
    }
  }

  /** Success is exactly: every check passes and the update reports no error. */
  lemma {:induction false} SuccessIff(req: Request, b: Backend)
    ensures Handle(req, b).response.body.Success? <==>
      ReachesUpdate(req, b)
      && b.updateError(b.staffUserId(req.body.staffId.value).value.value, req.body.newPassword.value).None?
  {
  }

  /** Authentication and authorisation are settled before the body is read:
      a 401 or 403 is given whatever the body says. */
  lemma {:induction false} AuthBeforeBody(req: Request, b: Backend, body: Body)
    requires Handle(req, b).response.status in {401, 403}
    ensures Handle(req.(body := body), b) == Handle(req, b)
  {
  }

  /** Missing fields are reported before the length check, and the length
      check before any staff lookup. */
  lemma {:induction false} BodyChecksOrder(req: Request, b: Backend)
    requires Authorized(req, b) && req.body.Json?
    ensures !Present(req.body.staffId) || !Present(req.body.newPassword) ==> Handle(req, b).response == MissingFields
    ensures Present(req.body.staffId) && Present(req.body.newPassword) && JsLength(req.body.newPassword.value) < MinPasswordLength
      ==> Handle(req, b).response == ShortPassword
    ensures !ValidBody(req) ==> |Handle(req, b).calls| == 2
  {
  }

  /** An unknown staff id gives 404 and a row without a user account gives
      400; neither changes a password. */
  lemma {:induction false} StaffChecks(req: Request, b: Backend)
    requires Authorized(req, b) && ValidBody(req)
    ensures b.staffUserId(req.body.staffId.value).None? ==>
      Handle(req, b).response == UnknownStaff && |Handle(req, b).calls| == 3
    ensures b.staffUserId(req.body.staffId.value).Some? && !Present(b.staffUserId(req.body.staffId.value).value)
      ==> Handle(req, b).response == NoUserAccount && |Handle(req, b).calls| == 3
  {
  }

  /** The standard header "Bearer <jwt>" yields the bare token. */
  lemma {:induction false} BearerToken(jwt: string)
    ensures Token("Bearer " + jwt) == jwt
  {
    var s := "Bearer " + jwt;
    assert OccursAt(s, "Bearer ", 0);
    assert IndexOf(s, "Bearer ").value == 0;
  }
}
