/**
 * What the two onboarding forms share: their fields, the `validateForm`
 * checks, the `handleChange` edit, and the shape of what a submission does.
 */
module Forms {
  import opened Wrappers
  import opened JsText
  import opened EmailPattern
  import opened Remote
  import opened Session

  datatype Field = FirstName | LastName | Email | Password

  /** The `errors` state object: a message per field key. */
  type Errors = map<Field, string>

  const FirstNameRequired := "First name is required"
  const LastNameRequired := "Last name is required"
  const EmailRequired := "Valid email is required"
  const PasswordTooShort := "Password must be at least 8 characters"
  const PasswordNeedsNumber := "Password must include at least one number"
  const PasswordNeedsSpecial := "Password must include at least one special character"

  /** `/\d/.test(p)`. */
  predicate HasDigit(p: string) {
    exists i | 0 <= i < |p| :: IsAsciiDigit(p[i])
  }

  /** `/[^A-Za-z0-9]/.test(p)`: white space and non-ASCII characters count as special. */
  predicate HasSpecial(p: string) {
    exists i | 0 <= i < |p| :: !IsAsciiAlnum(p[i])
  }

  /** The one password message, checked in order: length, then a digit, then a special character. */
  function PasswordIssue(p: string): (r: Option<string>)
    ensures r == Some(PasswordTooShort) <==> |p| < 8
    ensures r == Some(PasswordNeedsNumber) <==> |p| >= 8 && !HasDigit(p)
    ensures r == Some(PasswordNeedsSpecial) <==> |p| >= 8 && HasDigit(p) && !HasSpecial(p)
    ensures r == None <==> |p| >= 8 && HasDigit(p) && HasSpecial(p)
  {
    if p == [] || |p| < 8 then Some(PasswordTooShort)
    else if !HasDigit(p) then Some(PasswordNeedsNumber)
    else if !HasSpecial(p) then Some(PasswordNeedsSpecial)
    else None
  }

  /** The email check: non-empty and containing a match of `\S+@\S+\.\S+`. */
  predicate EmailAccepted(email: string) {
    email != [] && LooksLikeEmail(email)
  }

  /** The email and password entries of a fresh errors object. */
  function CredentialErrors(email: string, password: string): (e: Errors)
    ensures e.Keys <= {Email, Password}
    ensures Email in e <==> !Matches(email)
    ensures Email in e ==> e[Email] == EmailRequired
    ensures Password in e <==> PasswordIssue(password).Some?
    ensures Password in e ==> e[Password] == PasswordIssue(password).value
  {
    LooksLikeEmailCorrect(email);
    ShortHasNoMatch([]);
    var withEmail: Errors := if !EmailAccepted(email) then map[Email := EmailRequired] else map[];
    match PasswordIssue(password)
    case Some(m) => withEmail[Password := m]
    case None => withEmail
  }

  /** `validateForm` of the partner application: the errors object it stores. */
  function ValidatePartnerForm(email: string, password: string): (e: Errors)
    ensures e == map[] <==> Matches(email) && PasswordIssue(password) == None
  {
    CredentialErrors(email, password)
  }

  /** `validateForm` of the join form: the names are checked too, each independently of the others. */
  function ValidateJoinForm(firstName: string, lastName: string, email: string, password: string): (e: Errors)
    ensures FirstName in e <==> firstName == ""
    ensures FirstName in e ==> e[FirstName] == FirstNameRequired
    ensures LastName in e <==> lastName == ""
    ensures LastName in e ==> e[LastName] == LastNameRequired
    ensures e == map[] <==> firstName != "" && lastName != "" && Matches(email) && PasswordIssue(password) == None
  {
    var names: Errors :=
      (if firstName == "" then map[FirstName := FirstNameRequired] else map[])
      + (if lastName == "" then map[LastName := LastNameRequired] else map[]);
    names + CredentialErrors(email, password)
  }

  /** The join form's email and password entries are exactly the partner form's: the checks are shared. */
  lemma JoinExtendsPartnerChecks(firstName: string, lastName: string, email: string, password: string)
    ensures var j := ValidateJoinForm(firstName, lastName, email, password);
            var p := ValidatePartnerForm(email, password);
            (Email in j <==> Email in p) && (Password in j <==> Password in p)
            && (Email in j ==> j[Email] == p[Email]) && (Password in j ==> j[Password] == p[Password])
  {
  }

  /** An email passes exactly when the regular expression finds a match in it. */
  lemma EmailAcceptedIff(email: string)
    ensures EmailAccepted(email) <==> Matches(email)
  {
    LooksLikeEmailCorrect(email);
    ShortHasNoMatch([]);
  }

  /** A well-formed example: "a@b.com" with "Abcdef1!" raises no validation error. */
  lemma ExampleCredentialsValid()
    ensures ValidatePartnerForm("a@b.com", "Abcdef1!") == map[]
  {
    assert MatchAt("a@b.com", 1, 3);
    assert IsAsciiDigit("Abcdef1!"[6]);
    assert !IsAsciiAlnum("Abcdef1!"[7]);
  }

  /** `handleChange`: the password is stored verbatim, every other field trimmed. */
  function StoredValue(field: Field, value: string): (r: string)
    ensures field == Password ==> r == value
    ensures field != Password ==> r == Trim(value)
  {
    if field == Password then value else Trim(value)
  }

  /** `handleChange`: a truthy error on the edited field is blanked (the key stays, holding ""). */
  function ClearedError(errors: Errors, field: Field): (r: Errors)
    ensures r.Keys == errors.Keys
    ensures field in r ==> r[field] == ""
    ensures forall f :: f in errors && f != field ==> r[f] == errors[f]
  {
    if field in errors && errors[field] != "" then errors[field := ""] else errors
  }

  /** What a submission ends with. */
  datatype Final =
    | ShowErrors(errors: Errors)                              // `setErrors(errors)` was the last update
    | EnterVerify(username: string, entries: map<string, string>)   // `setUsername`, session writes, `setVerify(true)`
    | Silent                                                  // returned without touching the view

  /** The end of a submission together with the calls it made, in order. */
  datatype Submission = Submission(final: Final, calls: seq<Call>)

  /** The errors object a submission leaves: the last one set, else the empty one validation stored. */
  function ErrorsAfter(f: Final): Errors {
    if f.ShowErrors? then f.errors else map[]
  }

  /** The part of a form component's state that a submission settles. */
  datatype Settled = Settled(errors: Errors, verify: bool, username: string, items: map<string, string>)

  /**
   * What a submission ending in `fin` leaves of the state `before`, storage
   * being `available` or not: the last errors object set, code entry with its
   * username and session entries, or nothing changed.
   */
  function SettleTo(fin: Final, before: Settled, available: bool): Settled {
    match fin
    case ShowErrors(e) => before.(errors := e)
    case EnterVerify(u, entries) => before.(verify := true, username := u, items := Written(before.items, available, entries))
    case Silent => before
  }

  function Prepend(calls: seq<Call>, s: Submission): (r: Submission)
    ensures r.final == s.final && r.calls == calls + s.calls
  {
    Submission(s.final, calls + s.calls)
  }

  /** A single-field error, as every `catch` branch sets it. */
  function FieldError(field: Field, message: string): (r: Final)
    ensures r.ShowErrors? && r.errors.Keys == {field} && r.errors[field] == message
  {
    ShowErrors(map[field := message])
  }
}
