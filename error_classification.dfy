/**
 * The `catch` blocks of the two forms: first-match-wins tests on a thrown
 * value's name and (lower-cased) message. Each ends with one field message,
 * or, for a duplicate username, with a code resend whose failure shows a
 * fixed message.
 */
module ErrorClassification {
  import opened Wrappers
  import opened JsText
  import opened Remote
  import opened Forms

  const ExistsTryLogIn := "An account with this email already exists. Please try logging in instead."
  const AlreadyPartner := "You are already an AF Partner. Please sign in instead."
  const SignupFailedSupport := "Signup failed. Please try again or contact support."
  const PartnerExistsCheckEmail := "An account with this email already exists. Please check your email for verification code."
  const InvalidPassword := "Invalid password"
  const InvalidOrUsedEmail := "Invalid or already used email"
  const PartnerFallback := "Sign in failed, please try again"
  const JoinEmailExists := "Email already exists"
  const JoinFallback := "Signup failed, please try again"
  const IncorrectPassword := "Incorrect password. Please try again."
  const SignInFailed := "Sign in failed. Please try again."

  /** `typeof error?.message === 'string' ? error.message : ''`. */
  function MessageOf(f: Fault): string {
    f.message.GetOr("")
  }

  /** `message.toLowerCase()`; `/x/i.test(message)` is `Contains(LowerOf(f), x)` for a lower-case ASCII `x`. */
  function LowerOf(f: Fault): string {
    AsciiLower(MessageOf(f))
  }

  /** What a sign-up `catch` block does. */
  datatype Reaction =
    | SetError(field: Field, text: string)
    | ResendThen(failureText: string)   // resend the code; on success show code entry, else this email error

  /** `InvalidPasswordException` and the `/password/i` branch show the provider's message on the password field. */
  function PasswordReaction(f: Fault): (r: Reaction)
    ensures r.SetError? && r.field == Password && r.text != ""
  {
    if MessageOf(f) != "" then SetError(Password, MessageOf(f)) else SetError(Password, InvalidPassword)
  }

  /** The sign-in failure test: a wrong-password fault by name or by message words. */
  predicate LooksLikeWrongPassword(f: Fault) {
    var low := LowerOf(f);
    f.name == "NotAuthorizedException" || Contains(low, "incorrect") || Contains(low, "invalid") || Contains(low, "password")
  }

  /** PartnershipApplication.jsx, the outer `catch`: a failed status lookup or partner sign-up. */
  function PartnerSignupReaction(f: Fault): Reaction {
    var message := MessageOf(f);
    var low := LowerOf(f);
    if f.name == "UserLambdaValidationException" && Contains(message, "PreSignUp failed") then
      if Contains(low, "already exists") || Contains(low, "try logging in instead") then SetError(Email, ExistsTryLogIn)
      else if Contains(low, "partner") && (Contains(low, "already") || Contains(low, "active")) then SetError(Email, AlreadyPartner)
      else SetError(Email, SignupFailedSupport)
    else if f.name == "UsernameExistsException" then ResendThen(PartnerExistsCheckEmail)
    else if f.name == "InvalidPasswordException" then PasswordReaction(f)
    else if Contains(low, "password") then SetError(Password, message)
    else if Contains(low, "email") then SetError(Email, InvalidOrUsedEmail)
    else SetError(Email, PartnerFallback)
  }

  /** JoinPage.jsx, the `catch` of `handleSubmit`: a failed `signupUser`. */
  function JoinSignupReaction(f: Fault): Reaction {
    var message := MessageOf(f);
    var low := LowerOf(f);
    if Contains(low, "please try logging in instead") || Contains(low, "try logging in instead") then SetError(Email, ExistsTryLogIn)
    else if f.name == "UserLambdaValidationException" || Contains(message, "PreSignUp failed") then
      if Contains(low, "already exists") then SetError(Email, ExistsTryLogIn) else SetError(Email, SignupFailedSupport)
    else if f.name == "UsernameExistsException" then ResendThen(JoinEmailExists)
    else if Contains(low, "already exists") && Contains(low, "email") then SetError(Email, ExistsTryLogIn)
    else if f.name == "InvalidPasswordException" then PasswordReaction(f)
    else if Contains(low, "password") then SetError(Password, message)
    else if Contains(low, "email") then SetError(Email, InvalidOrUsedEmail)
    else SetError(Email, JoinFallback)
  }

  /** A message containing `needle` is non-empty when `needle` is. */
  lemma ContainsNonEmpty(s: string, needle: string)
    requires Contains(s, needle) && needle != ""
    ensures s != ""
  {
    if s == "" { ContainsNeedsRoom(s, needle); }
  }

  /** Every field message a partner sign-up failure shows is non-empty, so the field is marked invalid. */
  lemma PartnerReactionShows(f: Fault)
    ensures var r := PartnerSignupReaction(f);
            (r.SetError? ==> r.text != "" && r.field in {Email, Password}) && (r.ResendThen? ==> r.failureText != "")
  {
    if PartnerSignupReaction(f) == SetError(Password, MessageOf(f)) && Contains(LowerOf(f), "password") {
      ContainsNonEmpty(LowerOf(f), "password");
    }
  }

  /** Every field message a join sign-up failure shows is non-empty. */
  lemma JoinReactionShows(f: Fault)
    ensures var r := JoinSignupReaction(f);
            (r.SetError? ==> r.text != "" && r.field in {Email, Password}) && (r.ResendThen? ==> r.failureText != "")
  {
    if JoinSignupReaction(f) == SetError(Password, MessageOf(f)) && Contains(LowerOf(f), "password") {
      ContainsNonEmpty(LowerOf(f), "password");
    }
  }

  /** The partner form resends exactly for a duplicate-username fault. */
  lemma PartnerResendIff(f: Fault)
    ensures PartnerSignupReaction(f).ResendThen? <==> f.name == "UsernameExistsException"
  {
  }

  /** A PreSignUp rejection naming an existing account is reported as such before any partner wording is looked at. */
  lemma PartnerPreSignUpExistsFirst(f: Fault)
    requires f.name == "UserLambdaValidationException" && Contains(MessageOf(f), "PreSignUp failed")
    requires Contains(LowerOf(f), "already exists")
    ensures PartnerSignupReaction(f) == SetError(Email, ExistsTryLogIn)
  {
  }

  /** The password branches come before the email one: a password fault mentioning email still lands on the password field. */
  lemma PartnerPasswordBeforeEmail(f: Fault)
    requires f.name != "UserLambdaValidationException" && f.name != "UsernameExistsException"
    requires Contains(LowerOf(f), "password")
    ensures PartnerSignupReaction(f).SetError? && PartnerSignupReaction(f).field == Password
  {
  }

  /** Join: "please try logging in instead" already contains "try logging in instead", so the first test is the second one. */
  lemma JoinFirstTestIsOneTest(s: string)
    ensures Contains(s, "please try logging in instead") || Contains(s, "try logging in instead")
            <==> Contains(s, "try logging in instead")
  {
    if Contains(s, "please try logging in instead") {
      var outer := "please try logging in instead";
      var inner := "try logging in instead";
      assert outer == "please " + inner;
      assert outer[7..7 + |inner|] == inner;
      ContainsAt(outer, inner, 7);
      ContainsTransitive(s, outer, inner);
    }
  }

  /** Join: a "try logging in instead" message always gives the log-in message and never a resend. */
  lemma JoinTryLoggingInFirst(f: Fault)
    requires Contains(LowerOf(f), "try logging in instead")
    ensures JoinSignupReaction(f) == SetError(Email, ExistsTryLogIn)
  {
  }

  /** Join: a rejection by the PreSignUp hook shows the log-in message exactly when it says "already exists". */
  lemma JoinPreSignUp(f: Fault)
    requires !Contains(LowerOf(f), "try logging in instead")
    requires f.name == "UserLambdaValidationException" || Contains(MessageOf(f), "PreSignUp failed")
    ensures JoinSignupReaction(f) == if Contains(LowerOf(f), "already exists") then SetError(Email, ExistsTryLogIn)
                                     else SetError(Email, SignupFailedSupport)
  {
    JoinFirstTestIsOneTest(LowerOf(f));
  }

  /** Join: the resend is attempted exactly for a duplicate-username fault that none of the earlier tests caught. */
  lemma JoinResendIff(f: Fault)
    ensures JoinSignupReaction(f).ResendThen?
            <==> f.name == "UsernameExistsException"
                 && !Contains(LowerOf(f), "try logging in instead")
                 && !Contains(MessageOf(f), "PreSignUp failed")
  {
    JoinFirstTestIsOneTest(LowerOf(f));
  }
}
