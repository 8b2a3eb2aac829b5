/**
 * The express-validator chains run before registerUser, createLabel and
 * addCollborator. A chain runs every validator of a field (none of them
 * bails), so one field can collect several errors; a missing field is
 * validated as the empty string, except by `isString`. `isEmail` is a
 * library predicate and is passed in.
 */
module Validation {
  import opened Wrappers
  import opened Text

  datatype FieldError = FieldError(path: string, msg: string)

  /** One validator: no error when it passes, one error otherwise. */
  function Check(passes: bool, path: string, msg: string): (r: seq<FieldError>)
    ensures passes <==> r == []
    ensures !passes ==> r == [FieldError(path, msg)]
  {
    if passes then [] else [FieldError(path, msg)]
  }

  /** How a validator reads a body field: a missing one as "". */
  function AsText(v: Option<string>): string {
    match v case Some(s) => s case None => ""
  }

  // ---------------------------------------------------------------- register

  datatype RegisterBody = RegisterBody(fullName: Option<string>, email: Option<string>, password: Option<string>)

  /** `/^[A-Za-z\s]+$/` */
  predicate IsPersonName(s: string) {
    s != [] && forall i :: 0 <= i < |s| ==> IsLetter(s[i]) || IsJsSpace(s[i])
  }

  /** `/^(?=.*[a-z])(?=.*[A-Z])(?=.*\d)(?=.*[@$!%*?&]).{8,}$/` */
  predicate IsStrongPassword(s: string) {
    && |s| >= 8
    && (forall i :: 0 <= i < |s| ==> !IsLineTerminator(s[i]))
    && (exists i :: 0 <= i < |s| && IsLower(s[i]))
    && (exists i :: 0 <= i < |s| && IsUpper(s[i]))
    && (exists i :: 0 <= i < |s| && IsDigit(s[i]))
    && (exists i :: 0 <= i < |s| && s[i] in "@$!%*?&")
  }

  /** What the register chains accept, field by field. */
  predicate RegistrationAcceptable(b: RegisterBody, isEmail: string -> bool) {
    && b.fullName.Some? && |b.fullName.value| >= 3 && IsPersonName(b.fullName.value)
    && b.email.Some? && b.email.value != "" && isEmail(b.email.value)
    && b.password.Some? && IsStrongPassword(b.password.value)
  }

  /** The `fullName` chain: notEmpty, isString, isLength({min: 3}), matches. */
  function FullNameErrors(v: Option<string>): (r: seq<FieldError>)
    ensures r == [] <==> v.Some? && |v.value| >= 3 && IsPersonName(v.value)
    ensures forall i :: 0 <= i < |r| ==> r[i].path == "fullName"
  {
    var name := AsText(v);
    Check(name != "", "fullName", "Email is required")
    + Check(v.Some?, "fullName", "Full Name should be a string")
    + Check(|name| >= 3, "fullName", "Name should contain alleast 3 characters")
    + Check(IsPersonName(name), "fullName", "Name must contain only alphabets and spaces")
  }

  /** The `email` chain: notEmpty, isEmail. */
  function EmailErrors(v: Option<string>, isEmail: string -> bool): (r: seq<FieldError>)
    ensures r == [] <==> v.Some? && v.value != "" && isEmail(v.value)
    ensures forall i :: 0 <= i < |r| ==> r[i].path == "email"
  {
    var email := AsText(v);
    Check(email != "", "email", "Email is required")
    + Check(isEmail(email), "email", "Invalid Email Address")
  }

  /** The `password` chain: notEmpty, matches. */
  function PasswordErrors(v: Option<string>): (r: seq<FieldError>)
    ensures r == [] <==> v.Some? && IsStrongPassword(v.value)
    ensures forall i :: 0 <= i < |r| ==> r[i].path == "password"
  {
    var password := AsText(v);
    Check(password != "", "password", "Password is required")
    + Check(IsStrongPassword(password), "password", "Invalid value")
  }

  /** The errors of the register chains, in the order the chains report them. */
  function RegisterErrors(b: RegisterBody, isEmail: string -> bool): (r: seq<FieldError>)
    ensures r == [] <==> RegistrationAcceptable(b, isEmail)
  {
    FullNameErrors(b.fullName) + EmailErrors(b.email, isEmail) + PasswordErrors(b.password)
  }

  /**
   * The field-path → message object registerUser builds: each error writes
   * its message under its path, in order.
   */
  function ErrorMap(errs: seq<FieldError>): map<string, string> {
    if errs == [] then map[]
    else ErrorMap(errs[..|errs| - 1])[errs[|errs| - 1].path := errs[|errs| - 1].msg]
  }

  /** The map has exactly the paths of the errors as keys. */
  lemma {:induction false} ErrorMapKeys(errs: seq<FieldError>)
    ensures forall p :: p in ErrorMap(errs) <==> exists i :: 0 <= i < |errs| && errs[i].path == p
  {
    if errs != [] {
      var init, last := errs[..|errs| - 1], errs[|errs| - 1];
      ErrorMapKeys(init);
      assert ErrorMap(errs) == ErrorMap(init)[last.path := last.msg];
      forall p ensures p in ErrorMap(errs) <==> exists i :: 0 <= i < |errs| && errs[i].path == p {
        if p != last.path {
          if p in ErrorMap(errs) {
            var i :| 0 <= i < |init| && init[i].path == p;
            assert errs[i].path == p;
          }
          if exists i :: 0 <= i < |errs| && errs[i].path == p {
            var i :| 0 <= i < |errs| && errs[i].path == p;
            assert i < |init| && init[i] == errs[i];
          }
        } else {
          assert errs[|errs| - 1].path == p;
        }
      }
    }
  }

  /** Under each path the map holds the message of the LAST error with that path. */
  lemma {:induction false} ErrorMapLastWins(errs: seq<FieldError>, i: nat)
    requires i < |errs|
    requires forall j :: i < j < |errs| ==> errs[j].path != errs[i].path
    ensures errs[i].path in ErrorMap(errs) && ErrorMap(errs)[errs[i].path] == errs[i].msg
  {
    if i < |errs| - 1 {
      var init := errs[..|errs| - 1];
      assert init[i] == errs[i];
      ErrorMapLastWins(init, i);
    }
  }

  /**
   * An empty full name fails three validators; the map keeps the last of
   * their messages, so the misworded "Email is required" never reaches the
   * client under "fullName".
   */
  lemma EmptyFullNameMessage(email: Option<string>, password: Option<string>, isEmail: string -> bool)
    ensures var errs := RegisterErrors(RegisterBody(Some(""), email, password), isEmail);
      && errs[0] == FieldError("fullName", "Email is required")
      && "fullName" in ErrorMap(errs) && ErrorMap(errs)["fullName"] == "Name must contain only alphabets and spaces"
  {
    var errs := RegisterErrors(RegisterBody(Some(""), email, password), isEmail);
    var rest := EmailErrors(email, isEmail) + PasswordErrors(password);
    EmptyFullNameErrors();
    assert errs == EmptyNameErrors + rest;
    assert errs[0] == FieldError("fullName", "Email is required");
    assert errs[2] == FieldError("fullName", "Name must contain only alphabets and spaces");
    assert forall j :: 2 < j < |errs| ==> errs[j].path != "fullName" by {
      forall j | 2 < j < |errs| ensures errs[j].path != "fullName" {
        assert errs[j] == rest[j - 3];
      }
    }
    ErrorMapLastWins(errs, 2);
  }

  /** The three failures of the full-name chain on an empty name, in order. */
  const EmptyNameErrors: seq<FieldError> :=
    [FieldError("fullName", "Email is required"),
     FieldError("fullName", "Name should contain alleast 3 characters"),
     FieldError("fullName", "Name must contain only alphabets and spaces")]

  lemma EmptyFullNameErrors()
    ensures FullNameErrors(Some("")) == EmptyNameErrors
  {
    assert !IsPersonName("");
  }

  // ------------------------------------------------------------------ labels

  /** `/^[a-zA-Z0-9\s\-_]+$/`, one character. */
  predicate IsLabelChar(c: char) {
    IsLetter(c) || IsDigit(c) || IsJsSpace(c) || c == '-' || c == '_'
  }

  /** The label-name chain's `trim()` sanitiser; createLabel receives this value. */
  function SanitizeLabelName(raw: Option<string>): string {
    Trim(AsText(raw))
  }

  predicate AcceptableLabelName(name: string) {
    1 <= |name| <= 50 && forall i :: 0 <= i < |name| ==> IsLabelChar(name[i])
  }

  /** The errors of the label-name chain, checked on the trimmed name. */
  function LabelNameErrors(raw: Option<string>): (r: seq<FieldError>)
    ensures r == [] <==> AcceptableLabelName(SanitizeLabelName(raw))
  {
    var name := SanitizeLabelName(raw);
    Check(name != "", "name", "Label name is required")
    + Check(1 <= |name| <= 50, "name", "Label name must be between 1 and 50 characters")
    + Check(name != [] && forall i :: 0 <= i < |name| ==> IsLabelChar(name[i]),
            "name", "Label name can only contain letters, numbers, spaces, dashes, and underscores")
  }

  /** A name the chain accepts is non-empty, at most 50 characters, and has no surrounding white space. */
  lemma AcceptedLabelNameShape(raw: Option<string>)
    requires LabelNameErrors(raw) == []
    ensures var name := SanitizeLabelName(raw);
      && 1 <= |name| <= 50 && !IsJsSpace(name[0]) && !IsJsSpace(name[|name| - 1])
      && Trim(name) == name
  {
    var name := SanitizeLabelName(raw);
    assert AcceptableLabelName(name);
    assert name == Trim(AsText(raw));
    TrimIdempotent(AsText(raw));
  }

  // ----------------------------------------------------------- collaborators

  datatype CollaboratorBody = CollaboratorBody(email: Option<string>, noteId: Option<string>, permission: Option<string>)

  /**
   * validator.js `isHexadecimal`: one or more hexadecimal digits, after an
   * optional `0x` or `0h` prefix whose letter may be in either case.
   */
  predicate IsHexadecimal(s: string) {
    || (|s| >= 1 && forall i :: 0 <= i < |s| ==> IsHexDigit(s[i]))
    || (|s| >= 3 && s[0] == '0' && s[1] in "xXhH" && forall i :: 2 <= i < |s| ==> IsHexDigit(s[i]))
  }

  /** validator.js `isMongoId`: hexadecimal and 24 characters long, the prefix included. */
  predicate IsMongoId(s: string) {
    IsHexadecimal(s) && |s| == 24
  }

  /** An ObjectId written with a `0x` prefix and 22 digits passes the noteId check. */
  lemma PrefixedMongoId(digits: string)
    requires |digits| == 22 && forall i :: 0 <= i < |digits| ==> IsHexDigit(digits[i])
    ensures IsMongoId("0x" + digits)
  {
    var s := "0x" + digits;
    assert forall i :: 2 <= i < |s| ==> s[i] == digits[i - 2];
  }

  predicate CollaboratorAcceptable(b: CollaboratorBody, isEmail: string -> bool) {
    && b.email.Some? && b.email.value != "" && isEmail(b.email.value)
    && b.noteId.Some? && IsMongoId(b.noteId.value)
    && b.permission.Some? && (b.permission.value == "read" || b.permission.value == "write")
  }

  /** The errors of the add-collaborator chains. */
  function CollaboratorErrors(b: CollaboratorBody, isEmail: string -> bool): (r: seq<FieldError>)
    ensures r == [] <==> CollaboratorAcceptable(b, isEmail)
    ensures forall i :: 0 <= i < |r| ==> r[i].path in {"email", "noteId", "permission"}
  {
    var email, noteId, permission := AsText(b.email), AsText(b.noteId), AsText(b.permission);
    Check(email != "", "email", "Collabortaor is required")
    + Check(isEmail(email), "email", "Email must be a valid email address")
    + Check(noteId != "", "noteId", "Note ID is required")
    + Check(IsMongoId(noteId), "noteId", "Note ID must be a valid MongoDB ObjectId")
    + Check(permission != "", "permission", "Permission is required")
    + Check(permission == "read" || permission == "write", "permission", "Permission must be either \"read\" or \"write\"")
  }
}
