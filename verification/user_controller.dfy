/**
 * registerUser, login and logout. A session is the reply body plus what the
 * handler does to the two token cookies.
 */
module UserController {
  import opened Wrappers
  import opened Seqs
  import opened Text
  import opened Envelope
  import opened Schema
  import opened Db
  import opened Validation
  import opened TokenIssuer

  /** The cookie side of a reply: both token cookies set, or both cleared. */
  datatype Cookies = SetTokens(accessToken: string, refreshToken: string) | ClearTokens

  datatype Session<T> = Session(body: ApiResponse<T>, cookies: Cookies)

  // ---------------------------------------------------------------- register

  /** The `errobj` loop: one entry per error path, a later message for a path replacing an earlier one. */
  method BuildErrorMap(errs: seq<FieldError>) returns (m: map<string, string>)
    ensures m == ErrorMap(errs)
  {
    m := map[];
    var i := 0;
    while i < |errs|
      invariant 0 <= i <= |errs|
      invariant m == ErrorMap(errs[..i])
    {
      assert errs[..i + 1][..i] == errs[..i];
      m := m[errs[i].path := errs[i].msg];
      i := i + 1;
    }
    assert errs[..|errs|] == errs;
  }

  /** The 422 error registerUser throws for these validation errors. */
  function ValidationFailure(errs: seq<FieldError>): (t: Thrown)
    ensures t.Raised? && t.error.statusCode == Code(422) && t.error.message == "Validation Errors"
    ensures t.error.errors == FieldMessages(ErrorMap(errs))
  {
    Raised(NewApiError(Code(422), Some("Validation Errors"), Some(FieldMessages(ErrorMap(errs)))))
  }

  /**
   * registerUser: 422 with the field map when a chain failed, 409 when the
   * (normalised) email is taken, otherwise one new user whose public view
   * is returned.
   */
  method RegisterUser(db: Store, body: RegisterBody, isEmail: string -> bool) returns (r: Reply<PublicUser>)
    requires db.Valid()
    modifies db
    ensures db.Valid()
    ensures r.Failure? ==> unchanged(db)
    ensures RegisterErrors(body, isEmail) != [] ==> r == Failure(ValidationFailure(RegisterErrors(body, isEmail)))
    ensures RegistrationAcceptable(body, isEmail) && FindUserByEmail(old(db.users), body.email.value).Some?
            ==> r == Failure(Raise(409, "User already exists"))
    ensures r.Success? <==>
              && RegistrationAcceptable(body, isEmail)
              && FindUserByEmail(old(db.users), body.email.value).None?
              && NormalizeEmail(body.email.value) != ""
    ensures r.Success? ==> |db.users| == |old(db.users)| + 1
    ensures r.Success? ==>
              var u := db.users[|old(db.users)|];
              && db.users == old(db.users) + [u]
              && u.displayName == body.fullName.value && u.email == NormalizeEmail(body.email.value)
              && u.password == Some(Bcrypt(body.password.value))
              && u.refreshToken.None? && u.googleId.None? && u.avatar.None?
              && r.value == ApiResponse(201, Publish(u), "User Registered Successfully")
    ensures db.notes == old(db.notes) && db.labels == old(db.labels) && db.grants == old(db.grants)
  {
    var errs := RegisterErrors(body, isEmail);
    if errs != [] {
      var m := BuildErrorMap(errs);
      assert Raised(NewApiError(Code(422), Some("Validation Errors"), Some(FieldMessages(m)))) == ValidationFailure(errs);
      return Failure(Raised(NewApiError(Code(422), Some("Validation Errors"), Some(FieldMessages(m)))));
    }
    assert RegistrationAcceptable(body, isEmail);
    var email := body.email.value;
    if FindUserByEmail(db.users, email).Some? {
      return Failure(Raise(409, "User already exists"));
    }
    var created := db.InsertUser(UserFields(body.fullName.value, email, Some(body.password.value), None, None));
    if created.Failure? {
      return Failure(Unexpected("ValidationError"));
    }
    r := Respond(201, Publish(created.value), "User Registered Successfully");
  }

  // ------------------------------------------------------------------- login

  /**
   * The guards of login as written. `isPasswordCorrect` returns a promise
   * that is never awaited, and a promise is truthy, so no password is ever
   * refused.
   */
  function LoginGate(users: seq<User>, email: Option<string>, password: Option<string>): (t: Option<Thrown>)
    ensures !(Truthy(email) && Truthy(password)) ==> t == Some(Raise(400, "Email and password are required"))
    ensures Truthy(email) && Truthy(password) && FindUserByEmail(users, email.value).None?
            ==> t == Some(Raise(404, "User not found"))
    ensures t.None? <==> Truthy(email) && Truthy(password) && FindUserByEmail(users, email.value).Some?
  {
    if !(Truthy(email) && Truthy(password)) then Some(Raise(400, "Email and password are required"))
    else if FindUserByEmail(users, email.value).None? then Some(Raise(404, "User not found"))
    else None
  }

  /** As written, the password plays no part beyond being non-empty. */
  lemma LoginGateIgnoresPassword(users: seq<User>, email: Option<string>, p: string, q: string)
    requires p != "" && q != ""
    ensures LoginGate(users, email, Some(p)) == LoginGate(users, email, Some(q))
  {
  }

  /**
   * The guards of login with the comparison awaited: a wrong password is
   * 401 "Bad Credentials"; an account without a password (one made by the
   * Google sign-in) makes bcrypt reject, which is not an ApiError.
   */
  function CheckedLoginGate(users: seq<User>, email: Option<string>, password: Option<string>): (t: Option<Thrown>)
    ensures LoginGate(users, email, password).Some? ==> t == LoginGate(users, email, password)
    ensures t.None? <==>
              && LoginGate(users, email, password).None?
              && var u := users[FindUserByEmail(users, email.value).value];
                 u.password.Some? && PasswordMatches(password.value, u.password.value)
    ensures LoginGate(users, email, password).None? ==>
              var u := users[FindUserByEmail(users, email.value).value];
              (u.password.Some? && !PasswordMatches(password.value, u.password.value) ==>
                 t == Some(Raise(401, "Bad Credentials")))
  {
    match LoginGate(users, email, password)
    case Some(e) => Some(e)
    case None =>
      var u := users[FindUserByEmail(users, email.value).value];
      match u.password
      case None => Some(Unexpected("Error"))
      case Some(d) => if PasswordMatches(password.value, d) then None else Some(Raise(401, "Bad Credentials"))
  }

  /**
   * A stored user and a wrong password: login as written lets the request
   * through to token issuance, where the awaited check refuses it with 401.
   */
  lemma WrongPasswordLogsIn(users: seq<User>, email: string, password: string)
    requires email != "" && password != ""
    requires FindUserByEmail(users, email).Some?
    requires var u := users[FindUserByEmail(users, email).value];
             u.password.Some? && !PasswordMatches(password, u.password.value)
    ensures LoginGate(users, Some(email), Some(password)).None?
    ensures CheckedLoginGate(users, Some(email), Some(password)) == Some(Raise(401, "Bad Credentials"))
  {
  }

  /** The users table after the login of the user at `i` has stored the new refresh token. */
  method FinishLogin(db: Store, i: nat, sign: Claims -> string, now: int, saveFails: bool)
    returns (r: Result<Session<PublicUser>, Thrown>)
    requires db.Valid() && i < |db.users|
    modifies db
    ensures db.Valid()
    ensures r.Success? <==> !saveFails
    ensures r.Failure? ==> r.error == Raise(500, TokenFailure) && unchanged(db)
    ensures r.Success? ==>
              var u := old(db.users)[i];
              && db.users == StoreRefreshToken(old(db.users), u.id, Some(sign(RefreshClaims(u, now))))
              && r.value.cookies == SetTokens(sign(AccessClaims(u, now)), sign(RefreshClaims(u, now)))
              && r.value.body == ApiResponse(200, Publish(u), "User LoggedIn Successfully")
    ensures db.notes == old(db.notes) && db.labels == old(db.labels) && db.grants == old(db.grants)
  {
    var u := db.users[i];
    assert FindUser(db.users, u.id) == Some(i) by {
      var k := FindUser(db.users, u.id).value;
      assert UserKey(db.users[k]) == UserKey(db.users[i]);
    }
    var tokens := IssueTokens(db, u.id, sign, now, saveFails);
    if tokens.Failure? {
      return Failure(tokens.error);
    }
    var refetched := FindUser(db.users, u.id).value;
    assert refetched == i by {
      FindUserAfterReplace(old(db.users), i, u.(refreshToken := Some(tokens.value.refreshToken)), u.id);
    }
    PublishHidesSecrets(u, u.password, Some(tokens.value.refreshToken), u.googleId);
    var loggedIn := Publish(db.users[refetched]);
    r := Success(Session(NewApiResponse(200, loggedIn, Some("User LoggedIn Successfully")),
                         SetTokens(tokens.value.accessToken, tokens.value.refreshToken)));
  }

  /** login as written: 400, 404, then tokens for the user found, whatever the password. */
  method Login(db: Store, email: Option<string>, password: Option<string>, sign: Claims -> string, now: int,
               saveFails: bool) returns (r: Result<Session<PublicUser>, Thrown>)
    requires db.Valid()
    modifies db
    ensures db.Valid()
    ensures var gate := LoginGate(old(db.users), email, password);
      && (gate.Some? ==> r == Failure(gate.value) && unchanged(db))
      && (r.Success? <==> gate.None? && !saveFails)
      && (gate.None? && saveFails ==> r == Failure(Raise(500, TokenFailure)))
    ensures r.Success? ==>
              var u := old(db.users)[FindUserByEmail(old(db.users), email.value).value];
              && db.users == StoreRefreshToken(old(db.users), u.id, Some(sign(RefreshClaims(u, now))))
              && r.value.cookies == SetTokens(sign(AccessClaims(u, now)), sign(RefreshClaims(u, now)))
              && r.value.body == ApiResponse(200, Publish(u), "User LoggedIn Successfully")
    ensures db.notes == old(db.notes) && db.labels == old(db.labels) && db.grants == old(db.grants)
  {
    var gate := LoginGate(db.users, email, password);
    if gate.Some? {
      return Failure(gate.value);
    }
    r := FinishLogin(db, FindUserByEmail(db.users, email.value).value, sign, now, saveFails);
  }

  /** login with the password comparison awaited: tokens are issued only for a matching password. */
  method CheckedLogin(db: Store, email: Option<string>, password: Option<string>, sign: Claims -> string,
                      now: int, saveFails: bool) returns (r: Result<Session<PublicUser>, Thrown>)
    requires db.Valid()
    modifies db
    ensures db.Valid()
    ensures var gate := CheckedLoginGate(old(db.users), email, password);
      && (gate.Some? ==> r == Failure(gate.value) && unchanged(db))
      && (r.Success? <==> gate.None? && !saveFails)
    ensures r.Success? ==>
              var u := old(db.users)[FindUserByEmail(old(db.users), email.value).value];
              && u.password.Some? && PasswordMatches(password.value, u.password.value)
              && db.users == StoreRefreshToken(old(db.users), u.id, Some(sign(RefreshClaims(u, now))))
              && r.value.cookies == SetTokens(sign(AccessClaims(u, now)), sign(RefreshClaims(u, now)))
              && r.value.body == ApiResponse(200, Publish(u), "User LoggedIn Successfully")
    ensures db.notes == old(db.notes) && db.labels == old(db.labels) && db.grants == old(db.grants)
  {
    var gate := CheckedLoginGate(db.users, email, password);
    if gate.Some? {
      return Failure(gate.value);
    }
    r := FinishLogin(db, FindUserByEmail(db.users, email.value).value, sign, now, saveFails);
  }

  // ------------------------------------------------------------------ logout

  /**
   * logout: empties the caller's refresh-token slot (a no-op when no user
   * has that id) and clears both cookies. Without `req.user` the handler
   * dies on a TypeError.
   */
  method Logout(db: Store, caller: Option<Id>) returns (r: Result<Session<NoData>, Thrown>)
    requires db.Valid()
    modifies db
    ensures db.Valid()
    ensures caller.None? ==> r.Failure? && r.error.Unexpected? && unchanged(db)
    ensures caller.Some? ==>
              && db.users == StoreRefreshToken(old(db.users), caller.value, None)
              && r == Success(Session(ApiResponse(200, EmptyObject, "User logged Out Successfully"), ClearTokens))
    ensures db.notes == old(db.notes) && db.labels == old(db.labels) && db.grants == old(db.grants)
  {
    if caller.None? {
      return Failure(Unexpected("TypeError"));
    }
    var found := FindUser(db.users, caller.value);
    if found.Some? {
      db.SetRefreshToken(found.value, None);
    }
    r := Success(Session(NewApiResponse(200, EmptyObject, Some("User logged Out Successfully")), ClearTokens));
  }

  /** Logging out twice leaves the users as logging out once. */
  lemma LogoutIdempotent(users: seq<User>, caller: Id)
    ensures StoreRefreshToken(StoreRefreshToken(users, caller, None), caller, None) == StoreRefreshToken(users, caller, None)
  {
    StoreRefreshTokenOverwrites(users, caller, None, None);
  }
}
