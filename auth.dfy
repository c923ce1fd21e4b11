/**
 * src/api/auth.js: the identity-provider helpers. Each maps what the SDK did
 * to what the helper returns or rethrows.
 */
module Auth {
  import opened Wrappers
  import opened JsText
  import opened Remote

  /** The object `signupUser` destructures. */
  datatype SignupForm = SignupForm(firstName: string, lastName: string, email: string, password: string)

  /** The account name: first name, last name and the millisecond timestamp `now`, run together. */
  function SignupUsername(f: SignupForm, now: nat): string {
    f.firstName + f.lastName + DecimalString(now)
  }

  /** What `signupUser` passes to the SDK's `signUp`. */
  function SignupRequest(f: SignupForm, now: nat): (r: SignUpRequest)
    ensures r.username == SignupUsername(f, now) && r.password == f.password
    ensures r.attributes.Keys == {"email", "name", "custom:PaidPlan"}
    ensures r.attributes["email"] == f.email
    ensures r.attributes["name"] == f.firstName + " " + f.lastName
    ensures r.attributes["custom:PaidPlan"] == "none"
  {
    SignUpRequest(SignupUsername(f, now), f.password,
                  map["email" := f.email, "name" := f.firstName + " " + f.lastName, "custom:PaidPlan" := "none"])
  }

  /**
   * `signupUser`: the username on success; otherwise a fresh `Error`, whose
   * message is "Email already exists" for a duplicate username or any SDK
   * message mentioning "email" (case-sensitively) and the SDK's own message otherwise.
   */
  function SignupUser(f: SignupForm, now: nat, sdk: SdkResult<()>): (r: Outcome<string>)
    ensures r.Returned? <==> sdk.SdkOk?
    ensures r.Returned? ==> r.value == SignupUsername(f, now)
  {
    match sdk
    case SdkOk(_) => Returned(SignupUsername(f, now))
    case SdkError(name, message) =>
      if name == "UsernameExistsException" || Contains(message, "email")
      then Threw(Fault("Error", Some("Email already exists")))
      else Threw(Fault("Error", Some(message)))
  }

  /**
   * `verifyUser`: `confirmSignUp` inside a `try` whose `catch` returns false.
   * `confirm` is what the SDK call did.
   */
  function VerifyUser(confirm: Outcome<()>): Outcome<bool> {
    match confirm
    case Returned(_) => Returned(true)
    case Threw(_) => Returned(false)
  }

  /** The object `resendConfirmationCode` resolves to. */
  datatype ResendResult = ResendResult(success: bool, error: Option<string>)

  /** `resendConfirmationCode`: `resendSignUpCode` inside a `try` whose `catch` reports the error's message. */
  function ResendConfirmationCode(resend: Outcome<()>): Outcome<ResendResult> {
    match resend
    case Returned(_) => Returned(ResendResult(true, None))
    case Threw(e) => Returned(ResendResult(false, e.message))
  }

  /** `getAuthenticatedUser`: `getCurrentUser` inside a `try` whose `catch` returns `null`. */
  function GetAuthenticatedUser(current: Outcome<AuthUser>): Outcome<Option<AuthUser>> {
    match current
    case Returned(u) => Returned(Some(u))
    case Threw(_) => Returned(None)
  }

  /**
   * The callers' `try { const result = await resendConfirmationCode(…);
   * if (result?.success) … } catch {}`: whether code entry is shown.
   */
  function ResendShowsCode(resend: Outcome<()>): (shown: bool)
    ensures shown <==> resend.Returned?
  {
    ResendNeverThrows(resend);
    match ResendConfirmationCode(resend)
    case Returned(r) => r.success
    case Threw(_) => false
  }

  /** The username starts with the two names and ends with the timestamp's digits. */
  lemma SignupUsernameShape(f: SignupForm, now: nat)
    ensures var u := SignupUsername(f, now);
            && f.firstName + f.lastName <= u
            && |u| > |f.firstName + f.lastName|
            && forall i :: |f.firstName + f.lastName| <= i < |u| ==> IsAsciiDigit(u[i])
  {
  }

  /** Two sign-ups with the same names at different milliseconds ask for different usernames. */
  lemma SignupUsernameDistinct(f: SignupForm, g: SignupForm, m: nat, n: nat)
    requires f.firstName + f.lastName == g.firstName + g.lastName
    requires SignupUsername(f, m) == SignupUsername(g, n)
    ensures m == n
  {
    var p := f.firstName + f.lastName;
    assert SignupUsername(f, m)[|p|..] == DecimalString(m);
    assert SignupUsername(g, n)[|p|..] == DecimalString(n);
    DecimalStringInjective(m, n);
  }

  /**
   * Every error `signupUser` rethrows is a plain `Error` with a string message:
   * "Email already exists" for a duplicate username or an SDK message
   * mentioning "email", the SDK's own message for every other failure.
   */
  lemma SignupFaultsAreFresh(f: SignupForm, now: nat, sdk: SdkResult<()>)
    requires SignupUser(f, now, sdk).Threw?
    ensures var e := SignupUser(f, now, sdk).fault;
            && e.name == "Error" && e.message.Some?
            && ((sdk.name == "UsernameExistsException" || Contains(sdk.message, "email"))
                ==> e.message == Some("Email already exists"))
            && (!(sdk.name == "UsernameExistsException" || Contains(sdk.message, "email"))
                ==> e.message == Some(sdk.message))
  {
  }

  /** `verifyUser` never throws, whatever the SDK does, and reports true exactly when confirmation went through. */
  lemma VerifyUserNeverThrows(confirm: Outcome<()>)
    ensures VerifyUser(confirm).Returned?
    ensures VerifyUser(confirm).value <==> confirm.Returned?
  {
  }

  /** `resendConfirmationCode` never throws; a failure carries the thrown error's message, a success none. */
  lemma ResendNeverThrows(resend: Outcome<()>)
    ensures ResendConfirmationCode(resend).Returned?
    ensures ResendConfirmationCode(resend).value.success <==> resend.Returned?
    ensures resend.Returned? ==> ResendConfirmationCode(resend).value.error == None
    ensures resend.Threw? ==> ResendConfirmationCode(resend).value.error == resend.fault.message
  {
  }

  /** `getAuthenticatedUser` never throws; it yields the SDK's user, and `null` exactly when the SDK threw. */
  lemma CurrentUserNeverThrows(current: Outcome<AuthUser>)
    ensures GetAuthenticatedUser(current).Returned?
    ensures GetAuthenticatedUser(current).value.None? <==> current.Threw?
    ensures current.Returned? ==> GetAuthenticatedUser(current).value == Some(current.value)
  {
  }
}
