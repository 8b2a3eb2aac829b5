/**
 * generateAccessAndRefreshToken: signs an access token and a refresh token
 * for a user and keeps the refresh token in the user's single
 * `refreshToken` slot. Signing is a parameter: `sign` maps the claims to the
 * token text.
 */
module TokenIssuer {
  import opened Wrappers
  import opened Envelope
  import opened Schema
  import opened Db

  datatype TokenPair = TokenPair(accessToken: string, refreshToken: string)

  const TokenFailure: string := "Something went wrong while generating tokens"

  /**
   * The users after the refresh-token slot of the user with this id is
   * overwritten (`user.refreshToken = token; await user.save()`, or logout's
   * `$set`): only that user's token changes. The password is not rehashed,
   * since it was not modified.
   */
  function StoreRefreshToken(users: seq<User>, id: Id, token: Option<string>): (r: seq<User>)
    ensures |r| == |users|
    ensures forall j :: 0 <= j < |r| ==> r[j].(refreshToken := users[j].refreshToken) == users[j]
    ensures forall j :: 0 <= j < |r| && r[j] != users[j] ==> users[j].id == id
    ensures FindUser(users, id).Some? ==> r[FindUser(users, id).value].refreshToken == token
    ensures FindUser(users, id).None? ==> r == users
  {
    match FindUser(users, id)
    case None => users
    case Some(i) => users[i := users[i].(refreshToken := token)]
  }

  /** Writing back a user with the same id does not move where `findById` finds any id. */
  lemma FindUserAfterReplace(users: seq<User>, i: nat, u: User, id: Id)
    requires i < |users| && u.id == users[i].id
    ensures FindUser(users[i := u], id) == FindUser(users, id)
  {
    assert forall j :: 0 <= j < |users| ==> (users[i := u][j].id == id <==> users[j].id == id);
  }

  /** Storing twice leaves only the second token: issuing twice keeps the later token, logging out twice is logging out once. */
  lemma StoreRefreshTokenOverwrites(users: seq<User>, id: Id, first: Option<string>, second: Option<string>)
    ensures StoreRefreshToken(StoreRefreshToken(users, id, first), id, second) == StoreRefreshToken(users, id, second)
  {
    if FindUser(users, id).Some? {
      var i := FindUser(users, id).value;
      FindUserAfterReplace(users, i, users[i].(refreshToken := first), id);
    }
  }

  /**
   * generateAccessAndRefreshToken(userId). Every failure, whether an
   * unknown id (the null dereference) or a failed save (`saveFails`),
   * becomes a 500 ApiError.
   */
  method IssueTokens(db: Store, userId: Id, sign: Claims -> string, now: int, saveFails: bool)
    returns (r: Result<TokenPair, Thrown>)
    requires db.Valid()
    modifies db
    ensures db.Valid()
    ensures r.Success? <==> FindUser(old(db.users), userId).Some? && !saveFails
    ensures r.Failure? ==> r.error == Raise(500, TokenFailure) && unchanged(db)
    ensures r.Success? ==>
              var u := old(db.users)[FindUser(old(db.users), userId).value];
              && r.value == TokenPair(sign(AccessClaims(u, now)), sign(RefreshClaims(u, now)))
              && db.users == StoreRefreshToken(old(db.users), userId, Some(r.value.refreshToken))
    ensures r.Success? ==>
              && FindUser(db.users, userId).Some?
              && db.users[FindUser(db.users, userId).value].refreshToken == Some(r.value.refreshToken)
    ensures db.notes == old(db.notes) && db.labels == old(db.labels) && db.grants == old(db.grants)
  {
    var found := FindUser(db.users, userId);
    if found.None? || saveFails {
      return Failure(Raise(500, TokenFailure));
    }
    var u := db.users[found.value];
    var pair := TokenPair(sign(AccessClaims(u, now)), sign(RefreshClaims(u, now)));
    db.SetRefreshToken(found.value, Some(pair.refreshToken));
    FindUserAfterReplace(old(db.users), found.value, u.(refreshToken := Some(pair.refreshToken)), userId);
    r := Success(pair);
  }
}
