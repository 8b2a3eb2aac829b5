/**
 * verifyJwt: finds the access token, verifies it, resolves the user and
 * either stores that user on the request and calls `next()`, or calls
 * `next(error)`. Verification is a parameter: `verify` stands for
 * `jwt.verify` under the access-token secret.
 */
module AuthMiddleware {
  import opened Wrappers
  import opened Text
  import opened Envelope
  import opened Schema
  import opened Db

  /** What `jwt.verify` does with a token: throws with some message, or yields a payload whose `_id` may be absent. */
  datatype Verified = Rejected(reason: string) | Accepted(subject: Option<Id>)

  const Bearer: string := "Bearer "

  /** The `accessToken` cookie when truthy, else the Authorization header with its first "Bearer " removed. */
  function ExtractToken(cookie: Option<string>, header: Option<string>): (t: Option<string>)
    ensures Truthy(cookie) ==> t == cookie
    ensures !Truthy(cookie) && header.None? ==> t.None?
    ensures !Truthy(cookie) && header.Some? ==> t == Some(RemoveFirst(header.value, Bearer))
  {
    if Truthy(cookie) then cookie
    else match header
      case None => None
      case Some(h) => Some(RemoveFirst(h, Bearer))
  }

  /** Without a cookie, a header "Bearer <t>" yields exactly `t`. */
  lemma BearerHeaderYieldsToken(t: string)
    ensures ExtractToken(None, Some(Bearer + t)) == Some(t)
  {
    RemoveLeadingPattern(Bearer, t);
  }

  /** A header of just "Bearer " yields the empty token. */
  lemma BareBearerIsEmpty()
    ensures ExtractToken(None, Some(Bearer)) == Some("")
  {
    BearerHeaderYieldsToken("");
    assert Bearer + "" == Bearer;
  }

  /** The catch block: the error's own status and message, or 403 and "Invalid Access Token". */
  function Forwarded(message: string): (e: ApiError)
    ensures e.statusCode == Code(403)
    ensures message != "" ==> e.message == message
    ensures message == "" ==> e.message == "Invalid Access Token"
  {
    NewApiError(Code(403), Some(if message != "" then message else "Invalid Access Token"), None)
  }

  /**
   * The outcome of verifyJwt: the user's public view, or the error handed to
   * `next`, always with status 403.
   */
  function Authenticate(users: seq<User>, cookie: Option<string>, header: Option<string>,
                        verify: string -> Verified): (r: Result<PublicUser, ApiError>)
    ensures !Truthy(ExtractToken(cookie, header)) ==> r == Failure(Forwarded("Unauthorized Access"))
    ensures Truthy(ExtractToken(cookie, header)) && verify(ExtractToken(cookie, header).value).Rejected?
            ==> r == Failure(Forwarded(verify(ExtractToken(cookie, header).value).reason))
    ensures r.Failure? ==> r.error.statusCode == Code(403)
    ensures r.Success? <==>
              && Truthy(ExtractToken(cookie, header))
              && var v := verify(ExtractToken(cookie, header).value);
                 v.Accepted? && v.subject.Some? && FindUser(users, v.subject.value).Some?
    ensures r.Success? ==>
              var v := verify(ExtractToken(cookie, header).value);
              r.value == Publish(users[FindUser(users, v.subject.value).value])
  {
    var token := ExtractToken(cookie, header);
    if !Truthy(token) then Failure(Forwarded("Unauthorized Access"))
    else match verify(token.value)
      case Rejected(reason) => Failure(Forwarded(reason))
      case Accepted(subject) =>
        if subject.None? then Failure(Forwarded("Invalid Access Token"))
        else match FindUser(users, subject.value)
          case None => Failure(Forwarded("Invalid Access Token"))
          case Some(i) => Success(Publish(users[i]))
  }

  /** The request as the middleware sees it; `user` is what it sets on success. */
  class Request {
    var accessCookie: Option<string>
    var authorization: Option<string>
    var user: Option<PublicUser>

    constructor (accessCookie: Option<string>, authorization: Option<string>)
      ensures this.accessCookie == accessCookie && this.authorization == authorization && user.None?
    {
      this.accessCookie := accessCookie;
      this.authorization := authorization;
      user := None;
    }
  }

  /** How the middleware hands over: `next()` or `next(error)`, exactly once. */
  datatype NextCall = Proceed | ProceedWithError(error: ApiError)

  /** verifyJwt: on success `req.user` is the user without its secrets; on failure the request is untouched. */
  method VerifyJwt(req: Request, db: Store, verify: string -> Verified) returns (next: NextCall)
    modifies req
    ensures var outcome := Authenticate(db.users, old(req.accessCookie), old(req.authorization), verify);
      && (outcome.Success? ==> next == Proceed && req.user == Some(outcome.value))
      && (outcome.Failure? ==> next == ProceedWithError(outcome.error) && req.user == old(req.user))
    ensures req.accessCookie == old(req.accessCookie) && req.authorization == old(req.authorization)
  {
    var outcome := Authenticate(db.users, req.accessCookie, req.authorization, verify);
    if outcome.Success? {
      req.user := Some(outcome.value);
      next := Proceed;
    } else {
      next := ProceedWithError(outcome.error);
    }
  }
}
