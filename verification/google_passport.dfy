/**
 * The Google strategy's verify callback (find-or-create) and the session
 * (de)serialisers. The profile arrives from Google; `emails` and `photos`
 * hold the `value` of each entry.
 */
module GooglePassport {
  import opened Wrappers
  import opened Seqs
  import opened Text
  import opened Schema
  import opened Db

  datatype Profile = Profile(id: string, emails: seq<string>, displayName: string, photos: seq<string>)

  /** What the callback passes to `done`: a user, or the error it caught. */
  datatype Done = DoneUser(user: User) | DoneError(kind: string)

  /** `User.findOne({$or: [{googleId: id}, {email}]})`: the first user matching either. */
  function FindGoogleUser(users: seq<User>, googleId: string, email: string): (r: Option<nat>)
    ensures r.Some? ==> r.value < |users|
    ensures r.Some? ==> users[r.value].googleId == Some(googleId) || users[r.value].email == NormalizeEmail(email)
    ensures r.None? <==> forall i :: 0 <= i < |users| ==>
              users[i].googleId != Some(googleId) && users[i].email != NormalizeEmail(email)
  {
    Find(users, (u: User) => u.googleId == Some(googleId) || u.email == NormalizeEmail(email))
  }

  /**
   * The verify callback. Without an email, or (when it must create) without
   * a photo, it hits a TypeError; that, and a failed validation, go to
   * `done(error)`. A user found by either key is returned as stored: a
   * Google id is never added to an account found by email.
   */
  method GoogleVerify(db: Store, profile: Profile) returns (d: Done)
    requires db.Valid()
    modifies db
    ensures db.Valid()
    ensures d.DoneError? ==> unchanged(db)
    ensures |profile.emails| == 0 ==> d.DoneError?
    ensures |profile.emails| > 0 && FindGoogleUser(old(db.users), profile.id, profile.emails[0]).Some? ==>
              && d == DoneUser(old(db.users)[FindGoogleUser(old(db.users), profile.id, profile.emails[0]).value])
              && unchanged(db)
    ensures |profile.emails| > 0 && FindGoogleUser(old(db.users), profile.id, profile.emails[0]).None? ==>
              && (d.DoneUser? <==> |profile.photos| > 0 && profile.displayName != "" && NormalizeEmail(profile.emails[0]) != "")
              && (d.DoneUser? ==>
                    && db.users == old(db.users) + [d.user]
                    && d.user.email == NormalizeEmail(profile.emails[0]) && d.user.googleId == Some(profile.id)
                    && d.user.displayName == profile.displayName && d.user.avatar == Some(profile.photos[0])
                    && d.user.password.None? && d.user.refreshToken.None?)
    ensures db.notes == old(db.notes) && db.labels == old(db.labels) && db.grants == old(db.grants)
  {
    if |profile.emails| == 0 {
      return DoneError("TypeError");
    }
    var email := profile.emails[0];
    var found := FindGoogleUser(db.users, profile.id, email);
    if found.Some? {
      return DoneUser(db.users[found.value]);
    }
    if |profile.photos| == 0 {
      return DoneError("TypeError");
    }
    var created := db.InsertUser(UserFields(profile.displayName, email, None, Some(profile.photos[0]), Some(profile.id)));
    if created.Failure? {
      return DoneError("ValidationError");
    }
    d := DoneUser(created.value);
  }

  /** `serializeUser`: the session keeps the user's id. */
  function SerializeUser(u: User): (id: Id)
    ensures id == u.id
  {
    u.id
  }

  /** `deserializeUser`: `User.findById(id)`, null when there is none. */
  function DeserializeUser(users: seq<User>, id: Id): (r: Option<User>)
    ensures r.Some? ==> r.value in users && r.value.id == id
    ensures r.None? <==> forall i :: 0 <= i < |users| ==> users[i].id != id
  {
    match FindUser(users, id)
    case None => None
    case Some(i) => Some(users[i])
  }

  /** With unique ids, deserialising a stored user's serialised form gives that user back. */
  lemma SessionRoundTrip(users: seq<User>, i: nat)
    requires UniqueBy(users, UserKey) && i < |users|
    ensures DeserializeUser(users, SerializeUser(users[i])) == Some(users[i])
  {
    var k := FindUser(users, users[i].id).value;
    assert UserKey(users[k]) == UserKey(users[i]);
  }
}
