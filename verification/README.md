# noting-backend in Dafny

A model of the core of `noting-backend`, an Express/Mongoose REST service for
a note-taking application. It covers:

- the user, note, label and collaborator controllers;
- the JWT authentication middleware and the error-handling middleware;
- the token issuer, the Google OAuth verify callback and the session (de)serialisers;
- the express-validator chains;
- the four Mongoose models;
- the nightly cron job that purges trashed notes.

The model is organised as follows:

- **Database.** The MongoDB database is the class `Db.Store`. It holds one
  sequence per collection (users, notes, labels, collaborators), in natural
  order. `Valid()` is the invariant every handler keeps: `_id`s are unique
  and below `nextId`, and e-mail addresses are unique.
- **Handlers.** Each handler is a method that changes the store in place.
  It returns either the `ApiResponse` it sends or the value it throws
  (`Envelope.Thrown`).
- **Pure parts.** The validators, guards, projections, the aggregation
  pipelines and the error middleware are functions.
- **Oracles.** Things outside the process are parameters:
  - the Cloudinary upload outcome (`NoteController.Upload`);
  - `JSON.parse` of the list items;
  - validator.js `isEmail`;
  - `jwt.sign` and `jwt.verify`;
  - the clock;
  - whether a `save()` fails.

  bcrypt is symbolic: `Bcrypt(p)` matches exactly `p`.

A value JavaScript would dereference as `undefined` (a missing `req.user`
behind a handler that reads `req.user._id`) becomes the `Unexpected("TypeError")`
outcome. The error middleware turns it into the generic 500 reply.

Four facts of the code shape several contracts:

- `ApiError`'s one-argument form stores the message in `statusCode`. The two
  label handlers' "Note not found" therefore has status `TextCode("Note not found")`
  and the default message.
- `removeCollborator` answers "Collaborator added Successfully" with `data: null`.
- `unpinNote` answers "Note Pinned successfully".
- `restoreTrashNote` answers "Note Trashed successfully".

The model reproduces each of these as written.

Three behaviours of the code differ from what it evidently intends. The
model follows the code, and also models the corrected behaviour:

- `login` does not await the password check.
- `trashNote` stores the day of the month as the trash time.
- The cron job never deletes the notes it selects.

All three are listed under Findings.

## Model

| member | source | states |
|---|---|---|
| Envelope.NewApiError | src/utils/ApiError.js:2-20 | status stored as given; message defaults to the generic text, errors to `[]`; `data` null and `success` false |
| Envelope.Raise | src/utils/ApiError.js:2-13 | a thrown `ApiError(code, msg)` carries that numeric status and message with no field errors |
| Envelope.NewApiResponse | src/utils/ApiResponse.js:2-7 | status and data as given, message defaults to "Everything went well", `success` is the string "success" |
| Envelope.Respond | src/utils/ApiResponse.js:2-7 | a success reply carries exactly the given status code, data and message |
| Envelope.HandleError | src/middleware/errorHandler.middleware.js:3-20 | an ApiError is answered with its own status, message and errors; anything else with 500 and the generic body; `success` is always false |
| Envelope.GenericReplyHidesCause | src/middleware/errorHandler.middleware.js:14-19 | the reply to any unexpected error is the same whatever its cause, with the generic message |
| Text.Trim | src/modals/note.model.js:5-14 | the trimmed string is a contiguous slice of the input that neither starts nor ends with JavaScript white space |
| Text.TrimDropsOnlySpaces | src/modals/note.model.js:5-14 | every character trimming drops, before or after the slice, is JavaScript white space, so the slice is the longest one |
| Text.TrimIdempotent | src/modals/note.model.js:5-14 | trimming twice is trimming once |
| Text.TrimAllSpaces | src/modals/note.model.js:5-9 | a string of white space alone trims to the empty string |
| Text.NormalizeEmail | src/modals/user.modal.js:10-16 | a stored address has no upper-case letter and no surrounding white space |
| Text.NormalizeEmailIdempotent | src/modals/user.modal.js:10-16 | normalising a normalised address changes nothing, so a stored address matches itself as a query |
| Text.RemoveFirst | src/middleware/auth.middleware.js:7-9 | `replace` with a string pattern deletes exactly the first occurrence, or nothing when there is none |
| Text.RemoveLeadingPattern | src/middleware/auth.middleware.js:7-9 | a string that starts with the pattern loses exactly that prefix |
| Schema.ParseNoteType | src/modals/note.model.js:15-20 | the note type enum accepts exactly "text", "image", "list" |
| Schema.ParsePermission | src/modals/collaborator.model.js:14-18 | the permission enum accepts exactly "read" and "write" |
| Schema.CreateNote | src/modals/note.model.js:3-63 | creation succeeds iff the trimmed title is non-empty and the type is in the enum; title and content trimmed, content defaults to "" only when absent, type to text, flags false, labels empty |
| Schema.HashIfModified | src/modals/user.modal.js:33-38 | the password is rehashed only when a new one is assigned |
| Schema.CreateUser | src/modals/user.modal.js:5-38 | creation succeeds iff display name and normalised email are non-empty; the stored password matches the given one; no refresh token |
| Schema.CreateLabel | src/modals/label.model.js:3-14 | creation succeeds iff the trimmed name is non-empty; the label is owned by the caller with the trimmed name |
| Schema.CreateGrant | src/modals/collaborator.model.js:3-20 | permission defaults to read; creation succeeds iff the given permission is in the enum |
| Schema.Publish | src/controllers/user.controller.js:35 | the published user keeps id, name, email and avatar |
| Schema.PublishHidesSecrets | src/middleware/auth.middleware.js:18-20 | changing password, refresh token or Google id leaves the published user unchanged |
| Schema.AccessClaims | src/modals/user.modal.js:45-54 | an access token is signed over id, email and display name with the access key |
| Schema.RefreshClaims | src/modals/user.modal.js:56-63 | a refresh token is signed over the id alone with the refresh key |
| Schema.RefreshClaimsOnlyId | src/modals/user.modal.js:56-63 | two users' refresh claims coincide iff their ids do |
| Validation.Check | src/validations/validateRegisterUser.js:4-8 | one validator yields no error iff it passes, else exactly one error under its path |
| Validation.FullNameErrors | src/validations/validateRegisterUser.js:4-8 | no error iff the name is a string of at least 3 letters or spaces; every error is under "fullName" |
| Validation.EmailErrors | src/validations/validateRegisterUser.js:10-12 | no error iff the email is non-empty and an email; every error under "email" |
| Validation.PasswordErrors | src/validations/validateRegisterUser.js:14-15 | no error iff the password is at least 8 non-newline characters with a lower, an upper, a digit and a symbol |
| Validation.RegisterErrors | src/validations/validateRegisterUser.js:3-18 | no error iff the body is acceptable field by field |
| Validation.ErrorMapKeys | src/controllers/user.controller.js:18-21 | the error object has exactly the failing paths as keys |
| Validation.ErrorMapLastWins | src/controllers/user.controller.js:18-21 | under each path the error object holds the message of the last error for it |
| Validation.EmptyFullNameMessage | src/validations/validateRegisterUser.js:4-8 | for an empty full name the misworded "Email is required" is overwritten by the last failing message |
| Validation.LabelNameErrors | src/validations/validateLabelName.js:3-9 | no error iff the trimmed name has 1 to 50 letters, digits, spaces, dashes or underscores |
| Validation.AcceptedLabelNameShape | src/validations/validateLabelName.js:3-9 | an accepted name is 1..50 characters with no surrounding white space and is its own trim |
| Validation.CollaboratorErrors | src/validations/validateAddCollaborator.js:3-19 | no error iff email is an email, noteId a Mongo id (24 characters of hexadecimal, an optional `0x`/`0h` prefix included) and permission read or write; errors only under those three paths |
| Validation.PrefixedMongoId | src/validations/validateAddCollaborator.js:9-13 | "0x" followed by 22 hexadecimal digits passes `isMongoId` |
| Db.FindUser | src/middleware/auth.middleware.js:18-20 | finds a user with that id, or none exists |
| Db.FindUserByEmail | src/controllers/user.controller.js:26 | finds a user with the normalised address, or none has it |
| Db.FindNote | src/controllers/note.controller.js:321 | finds a note with that id, or none exists |
| Db.FindOwnedNote | src/controllers/note.controller.js:241 | finds a note with that id owned by the caller, or none exists |
| Db.FindLabel | src/controllers/note.controller.js:265 | finds a label with that id, or none exists |
| Db.FindGrant | src/controllers/collaborator.controller.js:55 | finds a collaborator document with that id, or none exists |
| Db.FindGrantFor | src/controllers/collaborator.controller.js:26-29 | finds a grant for that (user, note) pair, or none exists |
| Db.GrantsNotOn | src/controllers/note.controller.js:249 | `deleteMany({note})` keeps exactly the grants on other notes |
| Db.Store.InsertNote | src/controllers/note.controller.js:25-32 | on success the created note is appended under a fresh id; on failure nothing changes; the invariant is kept |
| Db.Store.ReplaceNote | src/controllers/note.controller.js:321-325 | the note at its position is replaced, ids stay unique |
| Db.Store.DeleteNoteAt | src/controllers/note.controller.js:250 | the note is removed and no remaining note has its id |
| Db.Store.InsertUser | src/controllers/user.controller.js:30-34 | the created user is appended under a fresh id; emails stay unique |
| Db.Store.SetRefreshToken | src/utils/generateAccessAndRefreshToken.js:11-12 | only that user's refresh token changes |
| Db.Store.InsertLabel | src/controllers/label.controller.js:13-16 | the created label is appended under a fresh id |
| Db.Store.DeleteLabelAt | src/controllers/label.controller.js:27 | the label is removed and no remaining label has its id |
| Db.Store.InsertGrant | src/controllers/collaborator.controller.js:34-38 | the created grant is appended under a fresh id |
| Db.Store.DeleteGrantAt | src/controllers/collaborator.controller.js:64 | the grant is removed and no remaining grant has its id |
| Db.Store.DeleteGrantsOn | src/controllers/note.controller.js:249 | the grants become exactly those on other notes |
| NoteController.ImageUrlFor | src/controllers/note.controller.js:18-30 | a note gets an image URL iff its type is "image" and a file was uploaded |
| NoteController.AddNote | src/controllers/note.controller.js:11-39 | 401 without a user, 400 without title or type, 500 on a failed upload; succeeds iff every guard passes and the note validates; then 201 and exactly that note appended; on failure nothing changes |
| NoteController.ApplyEdit | src/controllers/note.controller.js:217-225 | the edit sets title, content, owner, image and list items and keeps every other field |
| NoteController.EditNote | src/controllers/note.controller.js:192-232 | 401, 400 and 500 as the guards say; on success the note is replaced by its edit and the reply carries the document before the update; an unknown id answers 500 |
| NoteController.DeleteNote | src/controllers/note.controller.js:234-255 | succeeds iff the caller owns the note; then its grants and the note are removed; 404 otherwise |
| NoteController.NoteNotFoundAsWritten | src/controllers/note.controller.js:279 | the label handlers' "Note not found" has the text as its status and the default message |
| NoteController.LabelGuard | src/controllers/note.controller.js:257-279 | 401 without a user, 400 without both ids, 404 unknown label, 401 label of another user, then the "Note not found" error with the text as its status for a note the caller does not own; passes iff none applies |
| NoteController.WithoutLabel | src/controllers/note.controller.js:301-307 | `$pull` removes every occurrence of the label and keeps the rest |
| NoteController.AddLabelToNote | src/controllers/note.controller.js:257-284 | when the guard passes the label id is appended to the note and the updated note is returned; otherwise nothing changes |
| NoteController.RemoveLabelFromNote | src/controllers/note.controller.js:286-314 | when the guard passes every occurrence of the label id is pulled from the note |
| NoteController.SetFlagById | src/controllers/note.controller.js:321-325 | only the note with that id changes, and only the one flag (and the trash time for trash/restore) |
| NoteController.SetFlagIdempotent | src/controllers/note.controller.js:321-325 | setting a flag twice is setting it once |
| NoteController.EditCanBlankTitle | src/controllers/note.controller.js:217-225 | an edit whose title is white space stores a note that fails `save()` validation |
| NoteController.SetFlag | src/controllers/note.controller.js:315-330 | 401, 400, 404 "Note not found", then a ValidationError (500) when the stored title is empty; succeeds iff the note exists and validates, and then the notes are exactly the flag update and the reply is 200 with `{}` and the handler's message; on failure nothing changes |
| NoteController.ArchiveNote | src/controllers/note.controller.js:315-330 | the flag outcome (401, 400, 404, the save's ValidationError) with `isArchived` true and "Note Archived successfully" |
| NoteController.UnarchiveNote | src/controllers/note.controller.js:331-346 | the flag outcome with `isArchived` false and "Note Unarchived successfully" |
| NoteController.TrashNote | src/controllers/note.controller.js:348-363 | as written: the flag outcome, trashed with the day of the month as its trash time, "Note Trashed successfully" |
| NoteController.TrashNoteAt | src/controllers/note.controller.js:348-363 | corrected: the flag outcome, trashed with the current time as its trash time |
| NoteController.RestoreTrashNote | src/controllers/note.controller.js:364-380 | the flag outcome, untrashed with the trash time cleared, and the message "Note Trashed successfully" |
| NoteController.PinNote | src/controllers/note.controller.js:478-493 | the flag outcome with `isPinned` true and "Note Pinned successfully" |
| NoteController.UnpinNote | src/controllers/note.controller.js:494-509 | the flag outcome with `isPinned` false and, as written, "Note Pinned successfully" |
| NoteController.PinnedBlockFirst | src/controllers/note.controller.js:179-183 | a block of pinned notes followed by unpinned ones is ordered pinned-first |
| NoteController.PinnedFirst | src/controllers/note.controller.js:179-183 | the sort is a permutation that puts every pinned note before every unpinned one |
| NoteController.GetAllNotes | src/controllers/note.controller.js:113-190 | 401 without a user; otherwise 200 with exactly the caller's notes (when the caller's user exists), as a permutation, pinned first |
| NoteController.GetNote | src/controllers/note.controller.js:41-111 | 401, 400 without an id; otherwise 200 with at most one note, which is the one with that id whose owner exists |
| NoteController.CollabRows | src/controllers/note.controller.js:386-411 | each row joins one of the caller's grants with its existing note |
| NoteController.CollabRowsComplete | src/controllers/note.controller.js:386-411 | every grant of the caller on an existing note yields a row |
| NoteController.GetCollabNotes | src/controllers/note.controller.js:382-476 | 401 without a user; otherwise 200; every row is one of the caller's grants joined with the note it names; when the caller's user exists, every grant of the caller on an existing note has a row |
| CollaboratorController.AddGuard | src/controllers/collaborator.controller.js:9-32 | 403, 404 missing fields, 404 unknown user, 404 unknown note, 403 not the owner, 400 duplicate; passes iff none applies |
| CollaboratorController.AppendNewPair | src/controllers/collaborator.controller.js:26-38 | appending a grant for a pair without one keeps one grant per pair |
| CollaboratorController.AddCollaborator | src/controllers/collaborator.controller.js:8-46 | succeeds iff the guard passes and the permission is valid; then 201 with the grant appended and one grant per pair kept |
| CollaboratorController.OwnerMayGrantSelf | src/controllers/collaborator.controller.js:16-24 | nothing stops an owner from adding themself as collaborator |
| CollaboratorController.RemoveGuard | src/controllers/collaborator.controller.js:49-62 | 403, 400 missing id, 404 unknown grant, 404 missing note, 403 not the owner; passes iff none applies |
| CollaboratorController.GranteeCannotRevoke | src/controllers/collaborator.controller.js:61-62 | a collaborator who does not own the note cannot remove a grant on it |
| CollaboratorController.RemoveCollaborator | src/controllers/collaborator.controller.js:48-69 | when the guard passes exactly that grant is removed and 200 with null data is sent; one grant per pair kept |
| TokenIssuer.StoreRefreshToken | src/utils/generateAccessAndRefreshToken.js:11-12 | only the user's refresh token changes |
| TokenIssuer.StoreRefreshTokenOverwrites | src/utils/generateAccessAndRefreshToken.js:11-12 | a second stored token overwrites the first |
| TokenIssuer.IssueTokens | src/utils/generateAccessAndRefreshToken.js:5-18 | succeeds iff the user exists and the save succeeds; the pair is signed over the user's claims and the stored refresh token is the one returned; failure is 500 and changes nothing |
| UserController.BuildErrorMap | src/controllers/user.controller.js:18-21 | the loop builds the path → message object of the errors |
| UserController.ValidationFailure | src/controllers/user.controller.js:22 | 422 "Validation Errors" carrying that object |
| UserController.RegisterUser | src/controllers/user.controller.js:15-39 | 422 on validation errors, 409 on a known email; succeeds iff acceptable and new; then one user is appended with the hashed password and 201 carries the published user |
| UserController.LoginGate | src/controllers/user.controller.js:40-49 | as written: 400 without email or password, 404 unknown email, otherwise passes |
| UserController.LoginGateIgnoresPassword | src/controllers/user.controller.js:48-49 | as written the gate's outcome does not depend on the password |
| UserController.CheckedLoginGate | src/controllers/user.controller.js:40-49 | corrected: additionally 401 "Bad Credentials" unless the password matches the stored hash |
| UserController.WrongPasswordLogsIn | src/controllers/user.controller.js:48-49 | a known user with a wrong password passes the written gate but gets 401 from the corrected one |
| UserController.FinishLogin | src/controllers/user.controller.js:51-59 | tokens are issued, the refresh token stored, both set as cookies and the published user returned with 200 |
| UserController.Login | src/controllers/user.controller.js:40-62 | as written: succeeds iff the written gate passes and the tokens are saved |
| UserController.CheckedLogin | src/controllers/user.controller.js:40-62 | corrected: succeeds iff the checked gate passes and the tokens are saved |
| UserController.Logout | src/controllers/user.controller.js:69-87 | the caller's refresh token is cleared, cookies cleared, 200 with `{}` |
| UserController.LogoutIdempotent | src/controllers/user.controller.js:70-80 | clearing the token twice is clearing it once |
| LabelController.CreateLabel | src/controllers/label.controller.js:7-22 | 401 "validation errros" on a rejected name; otherwise a label with the trimmed name is appended for the caller and returned with 201 |
| LabelController.DeleteLabel | src/controllers/label.controller.js:23-33 | 400 without id, 404 unknown label; otherwise exactly that label is removed, with no ownership check |
| AuthMiddleware.ExtractToken | src/middleware/auth.middleware.js:7-9 | the cookie wins when truthy; otherwise the header with its first "Bearer " removed |
| AuthMiddleware.BearerHeaderYieldsToken | src/middleware/auth.middleware.js:7-9 | "Bearer t" yields exactly t |
| AuthMiddleware.BareBearerIsEmpty | src/middleware/auth.middleware.js:7-11 | "Bearer " alone yields the empty token, which is then refused |
| AuthMiddleware.Forwarded | src/middleware/auth.middleware.js:26-32 | every forwarded error has status 403 and keeps a non-empty message |
| AuthMiddleware.Authenticate | src/middleware/auth.middleware.js:5-34 | every failure is 403; succeeds iff a token is present, verifies and names an existing user, who is attached published |
| AuthMiddleware.VerifyJwt | src/middleware/auth.middleware.js:5-34 | the request's user is set exactly when authentication succeeds; otherwise next is called with the error |
| GooglePassport.FindGoogleUser | src/utils/passport.js:15-17 | finds a user whose Google id or normalised email matches, or none does |
| GooglePassport.GoogleVerify | src/utils/passport.js:13-30 | an existing user is returned unchanged; otherwise a user is created from the profile; an error when the profile has no email or photo or fails validation |
| GooglePassport.SerializeUser | src/utils/passport.js:34-36 | the session stores the user's id |
| GooglePassport.DeserializeUser | src/utils/passport.js:38-45 | the session id loads the user with that id, or none |
| GooglePassport.SessionRoundTrip | src/utils/passport.js:34-45 | deserialising a serialised stored user gives that user back |
| TrashPurge.Cutoff | src/cron/deleteOldNotes.js:7-8 | the cutoff is ten days before now |
| TrashPurge.SelectExpired | src/cron/deleteOldNotes.js:10 | selects exactly the notes with a trash time before the cutoff |
| TrashPurge.SelectionIgnoresIsTrashed | src/cron/deleteOldNotes.js:10 | the selection does not look at `isTrashed` |
| TrashPurge.PurgeAsWritten | src/cron/deleteOldNotes.js:6-16 | as written: the grants on selected notes are removed and no note is deleted |
| TrashPurge.Purge | src/cron/deleteOldNotes.js:6-16 | corrected: the grants on selected notes and the selected notes are removed |
| TrashPurge.PurgeRemovesExactlyExpired | src/cron/deleteOldNotes.js:10-15 | after the purge a note remains iff it was not expired |
| TrashPurge.EmptySelectionChangesNothing | src/cron/deleteOldNotes.js:10-15 | with nothing expired the purge changes nothing |
| TrashPurge.DayStampExpiresAtOnce | src/controllers/note.controller.js:358 | a note trashed with a day-of-month stamp is expired at once for any present-day clock |
| TrashPurge.TimestampExpiresAfterTenDays | src/cron/deleteOldNotes.js:7-10 | a note trashed at time t is purged iff more than ten days have passed |

## Left out

- Cloudinary, multer and the local file system: the upload is the `Upload` parameter (no file, a URL, or the thrown 500).
- The database connection, `app.js`, the routers and the route order. Each handler receives the caller that `verifyJwt` attached, or none.
- `auth.controller.js` and the unused `generateAccessToken` and `getUserProfile` handlers are not part of this model.
- JWT signing and verification, bcrypt salting, and token expiry: tokens are the `sign` function applied to `Claims`, and verification is the `verify` parameter.
- The `$lookup`/`$project` shapes of `getNote`, `getAllNotes` and `getCollabNotes`: the model keeps which notes are returned and in what order, not the joined label and user fields.
- `createdAt`/`updatedAt` timestamps, `reminder` and `notification`, which no handler writes.
- The cron schedule. Also the `async` callbacks passed to `forEach`, whose deletions run unawaited and interleaved; the model runs them in sequence.
- NoteController.PinnedFirst: models the `$sort` on `isPinned` as a stable partition; MongoDB does not promise an order among notes with equal `isPinned`.
- Unicode case mapping: `lowercase: true` is modelled on ASCII letters only, and lengths count code points, not UTF-16 units.
- ObjectId casting: ids are natural numbers, so the CastError a malformed id raises is not modelled.
- The HTTP layer's treatment of a non-numeric status (the label handlers' `TextCode`).
- UserController.Logout: models `$set: {refreshToken: undefined}` as clearing the token; whether Mongoose drops or unsets the field depends on its version.
- TrashPurge.Cutoff: a day is 86 400 000 ms; daylight-saving and calendar arithmetic of `setDate` are not modelled.
- `isEmail` and `JSON.parse` are parameters, not implementations.
- CollaboratorController.AddCollaborator: does not consult the validation chain, which the router runs before it.
- The 500 branches after a successful `create` or `findById` (`if (!label)`, `if (!collaborator)`, `if (!createdUser)`) cannot be reached in the model.
- validator.js is assumed at version 13, whose `isHexadecimal` accepts the `0x`/`0h` prefix; its version is not pinned.
- UserController.Login: for an account created by the Google strategy, which has no password, the unawaited `bcrypt.compare(password, undefined)` rejects and nothing handles the rejection. The model answers as Node before version 15 does (the login goes on). From Node 15 on, an unhandled rejection ends the process, and the model does not capture that.
- TrashPurge.PurgeAsWritten: each `forEach` callback rejects with its ReferenceError outside the job's `try`/`catch`. The model keeps the state those callbacks leave (grants deleted, notes kept). It does not capture the unhandled rejections, which from Node 15 on end the process at the first purge that selects a note.
- Db.FindUserByEmail: assumes the schema's `lowercase`/`trim` setters also normalise the queried address.

## Findings

| source | as written | input that shows it | evidently intended | confidence | as-written member | corrected member |
|---|---|---|---|---|---|---|
| src/controllers/user.controller.js:48-49 | `isPasswordCorrect` is not awaited, so `isMatched` is a Promise, always truthy, and the 401 branch never runs | a registered user and a login with their email and any other password | refuse a password that does not match the stored hash with 401 "Bad Credentials" | high; not executed | UserController.WrongPasswordLogsIn | UserController.CheckedLogin |
| src/controllers/note.controller.js:358 | `trashedAt` is set to `getDate()`, the day of the month (1..31), which Mongoose stores as that many milliseconds after the epoch | trash any note and run the purge at any present-day time: the note is selected at once | store the current time, so the note is purged ten days later (NoteController.TrashNoteAt) | high; not executed | TrashPurge.DayStampExpiresAtOnce | TrashPurge.TimestampExpiresAfterTenDays |
| src/cron/deleteOldNotes.js:14 | `Note.findByIdAndDelete(id)` names an undefined `id`, so each callback throws after deleting the grants and no note is deleted | one note trashed more than ten days ago | delete each selected note after its grants | high; not executed | TrashPurge.PurgeAsWritten | TrashPurge.Purge |
