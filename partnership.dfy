/**
 * src/routes/Partnership/PartnershipApplication.jsx: the partner application.
 *
 * `Submit` is the decision procedure of `handleSubmit` as a function of the
 * form and of what each awaited call produced; the class
 * `PartnershipApplication` holds the component's state and its `HandleSubmit`
 * runs the handler step by step, proved to end where `Submit` says.
 */
module Partnership {
  import opened Wrappers
  import opened JsText
  import opened Remote
  import opened Auth
  import opened Session
  import opened EmailPattern
  import opened Forms
  import opened ErrorClassification

  const ApplicationSubmitted := "Partnership application submitted! Your application is pending admin approval."
  const SubmitFailed := "Signed in successfully, but failed to submit partnership application. Please try again or contact support."
  const StatusUnavailable := "Unable to verify account status. Please try again later."
  const ApplicationPending := "Your partnership application is still pending admin approval. Please wait for approval or contact support."
  const NotVerified := "An account with this email exists but is not verified. Please check your email for verification code."

  /**
   * What `checkPartnerStatus` resolves to, truthiness already applied:
   * `error` is "" when absent, `userId` is "" when absent, and
   * `partnerStatus` is `None` for `null`.
   */
  datatype PartnerCheck = PartnerCheck(
    apiUnavailable: bool, error: string, accountExists: bool, isPartner: bool,
    partnerStatus: Option<string>, emailVerified: bool, userId: string)
  {
    predicate ActivePartner() { isPartner && partnerStatus == Some("true") }
    predicate PendingApplication() { partnerStatus == Some("pending") }
  }

  /**
   * What each awaited call produces in one submission. Along every path of
   * `handleSubmit` each call is made at most once, so one value per call
   * suffices; of these, only the resend bound is proved (`ResendAtMostOnce`).
   */
  datatype Oracle = Oracle(
    lookup: Outcome<PartnerCheck>,     // checkPartnerStatus(email)
    signIn: Outcome<bool>,             // signInPartner(email, password).isSignedIn
    currentUser: Outcome<AuthUser>,    // what getAuthenticatedUser's SDK call did
    convert: Outcome<bool>,            // convertUserToPendingPartner(...).success
    resend: Outcome<()>,               // what resendConfirmationCode's SDK call did
    signup: Outcome<string>)           // signupPartnerSimple(formData).username

  /** Code entry for `username`, with the two pending entries written. */
  function VerifyAs(username: string): Final {
    EnterVerify(username, PendingEntries(username))
  }

  /** `resendConfirmationCode(email)`: code entry on success, the email error `failure` otherwise. */
  function ResendOrError(email: string, resend: Outcome<()>, failure: string): Submission {
    Submission(if ResendShowsCode(resend) then VerifyAs(email) else FieldError(Email, failure), [ResendSignUpCode(email)])
  }

  /** The outer `catch`. */
  function Catch(email: string, f: Fault, o: Oracle): Submission {
    match PartnerSignupReaction(f)
    case SetError(field, text) => Submission(FieldError(field, text), [])
    case ResendThen(failure) => ResendOrError(email, o.resend, failure)
  }

  /** STEP 3: `signupPartnerSimple`, then code entry for the returned username. */
  function SignUpStep(email: string, password: string, o: Oracle): Submission {
    Prepend([SignupPartnerSimple(email, password)],
      match o.signup
      case Returned(u) => Submission(VerifyAs(u), [])
      case Threw(f) => Catch(email, f, o))
  }

  /** The sign-in `catch` of the degraded path: a wrong password stops, anything else falls through to sign-up. */
  function FallbackCatch(email: string, password: string, f: Fault, o: Oracle): Submission {
    if LooksLikeWrongPassword(f) then Submission(FieldError(Password, IncorrectPassword), [])
    else SignUpStep(email, password, o)
  }

  /** The status lookup is unavailable: sign in first, convert the signed-in user, else sign up. */
  function Fallback(email: string, password: string, o: Oracle): Submission {
    Prepend([SignInPartner(email, password)],
      match o.signIn
      case Threw(f) => FallbackCatch(email, password, f, o)
      case Returned(false) => SignUpStep(email, password, o)
      case Returned(true) => SignedInFallback(email, password, o))
  }

  /** Signed in on the degraded path: look up the current user and convert it; no user ends silently. */
  function SignedInFallback(email: string, password: string, o: Oracle): Submission {
    Prepend([GetCurrentUser],
      match GetAuthenticatedUser(o.currentUser)
      case Threw(f) => FallbackCatch(email, password, f, o)
      case Returned(None) => Submission(Silent, [])
      case Returned(Some(user)) => ConvertFallback(email, password, user.userId, o))
  }

  /** The conversion on the degraded path; a throw lands in the sign-in `catch`. */
  function ConvertFallback(email: string, password: string, userId: string, o: Oracle): Submission {
    Prepend([ConvertToPendingPartner(email, userId)],
      match o.convert
      case Returned(true) => Submission(FieldError(Email, ApplicationSubmitted), [])
      case Returned(false) => Submission(Silent, [])
      case Threw(f) => FallbackCatch(email, password, f, o))
  }

  /** The sign-in `catch` of an existing, verified account. */
  function SignInFailure(f: Fault): Final {
    FieldError(Password, if LooksLikeWrongPassword(f) then IncorrectPassword else SignInFailed)
  }

  /** STEP 2: the lookup found an account. */
  function Existing(email: string, password: string, pc: PartnerCheck, o: Oracle): Submission {
    if pc.ActivePartner() then Submission(FieldError(Email, AlreadyPartner), [])
    else if pc.PendingApplication() then Submission(FieldError(Email, ApplicationPending), [])
    else if pc.isPartner then SignUpStep(email, password, o)
    else if !pc.emailVerified then ResendOrError(email, o.resend, NotVerified)
    else SignInExisting(email, password, pc, o)
  }

  /** An existing, verified non-partner: sign in, then convert under the looked-up id (or the email). */
  function SignInExisting(email: string, password: string, pc: PartnerCheck, o: Oracle): Submission {
    Prepend([SignInPartner(email, password)],
      match o.signIn
      case Threw(f) => Submission(SignInFailure(f), [])
      case Returned(false) => SignUpStep(email, password, o)
      case Returned(true) =>
        var id := if pc.userId != "" then pc.userId else email;
        Submission(
          match o.convert
          case Returned(ok) => FieldError(Email, if ok then ApplicationSubmitted else SubmitFailed)
          case Threw(f) => SignInFailure(f),
          [ConvertToPendingPartner(email, id)]))
  }

  /** Everything after successful validation: the lookup and the branches on its result. */
  function AfterLookup(email: string, password: string, o: Oracle): Submission {
    Prepend([CheckPartnerStatus(email)],
      match o.lookup
      case Threw(f) => Catch(email, f, o)
      case Returned(pc) =>
        if pc.apiUnavailable then Fallback(email, password, o)
        else if pc.error != "" then Submission(FieldError(Email, StatusUnavailable), [])
        else if pc.accountExists then Existing(email, password, pc, o)
        else SignUpStep(email, password, o))
  }

  /** `handleSubmit`: validation, then the decision procedure. */
  function Submit(email: string, password: string, o: Oracle): Submission {
    var v := ValidatePartnerForm(email, password);
    if v != map[] then Submission(ShowErrors(v), []) else AfterLookup(email, password, o)
  }

  // ---- Properties of the decision procedure ----

  /** An invalid form stores its validation errors and makes no call at all. */
  lemma InvalidFormMakesNoCall(email: string, password: string, o: Oracle)
    requires !Matches(email) || PasswordIssue(password).Some?
    ensures Submit(email, password, o) == Submission(ShowErrors(ValidatePartnerForm(email, password)), [])
    ensures var calls := Submit(email, password, o).calls;
            !exists i :: 0 <= i < |calls| && calls[i].IsRemote()
  {
  }

  /** A valid form always starts with the status lookup for its email. */
  lemma ValidFormLooksUpFirst(email: string, password: string, o: Oracle)
    requires Matches(email) && PasswordIssue(password) == None
    ensures var s := Submit(email, password, o); |s.calls| >= 1 && s.calls[0] == CheckPartnerStatus(email)
  {
  }

  /** A lookup that fails (and is not merely unavailable) gives one blocking email error and no further call. */
  lemma LookupErrorBlocks(email: string, password: string, o: Oracle)
    requires Matches(email) && PasswordIssue(password) == None
    requires o.lookup.Returned? && !o.lookup.value.apiUnavailable && o.lookup.value.error != ""
    ensures Submit(email, password, o) == Submission(FieldError(Email, StatusUnavailable), [CheckPartnerStatus(email)])
  {
  }

  /** An active partner is told so; the check comes first and the identity provider is never called. */
  lemma ActivePartnerRejected(email: string, password: string, o: Oracle)
    requires Matches(email) && PasswordIssue(password) == None
    requires o.lookup.Returned? && var pc := o.lookup.value;
             !pc.apiUnavailable && pc.error == "" && pc.accountExists && pc.ActivePartner()
    ensures Submit(email, password, o) == Submission(FieldError(Email, AlreadyPartner), [CheckPartnerStatus(email)])
  {
  }

  /** A pending application is told so, whether or not the account is flagged as a partner, with no provider call. */
  lemma PendingApplicationRejected(email: string, password: string, o: Oracle)
    requires Matches(email) && PasswordIssue(password) == None
    requires o.lookup.Returned? && var pc := o.lookup.value;
             !pc.apiUnavailable && pc.error == "" && pc.accountExists && !pc.ActivePartner() && pc.PendingApplication()
    ensures Submit(email, password, o) == Submission(FieldError(Email, ApplicationPending), [CheckPartnerStatus(email)])
  {
  }

  /** An existing, unverified non-partner gets exactly one resend, and code entry exactly when it succeeds. */
  lemma UnverifiedAccountResends(email: string, password: string, o: Oracle)
    requires Matches(email) && PasswordIssue(password) == None
    requires o.lookup.Returned? && var pc := o.lookup.value;
             !pc.apiUnavailable && pc.error == "" && pc.accountExists
             && !pc.isPartner && !pc.PendingApplication() && !pc.emailVerified
    ensures var s := Submit(email, password, o);
            && s.calls == [CheckPartnerStatus(email), ResendSignUpCode(email)]
            && (s.final.EnterVerify? <==> o.resend.Returned?)
            && (s.final.EnterVerify? ==>
                  s.final.username == email && s.final.entries == map["pendingVerification" := "true", "pendingUsername" := email])
            && (!s.final.EnterVerify? ==> s.final == FieldError(Email, NotVerified))
  {
  }

  /** An existing, verified non-partner is signed in and, once signed in, converted under its id or, failing that, its email. */
  lemma VerifiedAccountSignsIn(email: string, password: string, o: Oracle)
    requires Matches(email) && PasswordIssue(password) == None
    requires o.lookup.Returned? && var pc := o.lookup.value;
             !pc.apiUnavailable && pc.error == "" && pc.accountExists
             && !pc.isPartner && !pc.PendingApplication() && pc.emailVerified
    requires o.signIn == Returned(true)
    ensures var s := Submit(email, password, o);
            var pc := o.lookup.value;
            && s.calls == [CheckPartnerStatus(email), SignInPartner(email, password),
                           ConvertToPendingPartner(email, if pc.userId != "" then pc.userId else email)]
            && (o.convert == Returned(true) ==> s.final == FieldError(Email, ApplicationSubmitted))
            && (o.convert == Returned(false) ==> s.final == FieldError(Email, SubmitFailed))
  {
  }

  /** A failed sign-in of a verified non-partner is a password error: "Incorrect password" for wrong-password faults, "Sign in failed" otherwise. */
  lemma VerifiedAccountSignInFails(email: string, password: string, o: Oracle)
    requires Matches(email) && PasswordIssue(password) == None
    requires o.lookup.Returned? && var pc := o.lookup.value;
             !pc.apiUnavailable && pc.error == "" && pc.accountExists
             && !pc.isPartner && !pc.PendingApplication() && pc.emailVerified
    requires o.signIn.Threw?
    ensures Submit(email, password, o)
            == Submission(FieldError(Password, if LooksLikeWrongPassword(o.signIn.fault) then IncorrectPassword else SignInFailed),
                          [CheckPartnerStatus(email), SignInPartner(email, password)])
  {
  }

  /** With the lookup unavailable, sign-in comes first and a wrong-password failure stops there. */
  lemma UnavailableWrongPasswordStops(email: string, password: string, o: Oracle)
    requires Matches(email) && PasswordIssue(password) == None
    requires o.lookup.Returned? && o.lookup.value.apiUnavailable
    requires o.signIn.Threw? && LooksLikeWrongPassword(o.signIn.fault)
    ensures Submit(email, password, o)
            == Submission(FieldError(Password, IncorrectPassword), [CheckPartnerStatus(email), SignInPartner(email, password)])
  {
  }

  /** With the lookup unavailable, any other sign-in failure falls through to sign-up, whose success shows code entry. */
  lemma UnavailableFallsThroughToSignUp(email: string, password: string, o: Oracle)
    requires Matches(email) && PasswordIssue(password) == None
    requires o.lookup.Returned? && o.lookup.value.apiUnavailable
    requires o.signIn == Returned(false) || (o.signIn.Threw? && !LooksLikeWrongPassword(o.signIn.fault))
    ensures var s := Submit(email, password, o);
            && |s.calls| >= 3
            && s.calls[..3] == [CheckPartnerStatus(email), SignInPartner(email, password), SignupPartnerSimple(email, password)]
            && (o.signup.Returned? ==> s.final == VerifyAs(o.signup.value) && |s.calls| == 3)
  {
  }

  /** An unknown email with the lookup answering goes straight to sign-up. */
  lemma UnknownEmailSignsUp(email: string, password: string, o: Oracle)
    requires Matches(email) && PasswordIssue(password) == None
    requires o.lookup.Returned? && var pc := o.lookup.value;
             !pc.apiUnavailable && pc.error == "" && !pc.accountExists
    ensures var s := Submit(email, password, o);
            |s.calls| >= 2 && s.calls[..2] == [CheckPartnerStatus(email), SignupPartnerSimple(email, password)]
  {
  }

  /** A sign-up failure is classified by the catch block; only a duplicate username leads to a resend. */
  lemma SignUpFailureClassified(email: string, password: string, o: Oracle)
    requires Matches(email) && PasswordIssue(password) == None
    requires o.lookup.Returned? && var pc := o.lookup.value;
             !pc.apiUnavailable && pc.error == "" && !pc.accountExists
    requires o.signup.Threw?
    ensures var s := Submit(email, password, o);
            var f := o.signup.fault;
            (s.calls == [CheckPartnerStatus(email), SignupPartnerSimple(email, password), ResendSignUpCode(email)])
            <==> f.name == "UsernameExistsException"
    ensures var s := Submit(email, password, o);
            var f := o.signup.fault;
            f.name != "UsernameExistsException" ==> s.final == FieldError(PartnerSignupReaction(f).field, PartnerSignupReaction(f).text)
  {
    PartnerResendIff(o.signup.fault);
  }

  /** At most one resend, and an error outcome that sets exactly one field to a non-empty message. */
  predicate Sound(s: Submission) {
    && Resends(s.calls) <= 1
    && (s.final.ShowErrors? ==> |s.final.errors.Keys| == 1 && forall k :: k in s.final.errors ==> s.final.errors[k] != "")
  }

  lemma PrependSound(c: Call, s: Submission)
    requires Sound(s) && !c.ResendSignUpCode?
    ensures Sound(Prepend([c], s))
  {
    ResendsAppend([c], s.calls);
  }

  lemma CatchSound(email: string, f: Fault, o: Oracle)
    ensures Sound(Catch(email, f, o))
  {
    PartnerReactionShows(f);
  }

  lemma SignUpStepSound(email: string, password: string, o: Oracle)
    ensures Sound(SignUpStep(email, password, o))
  {
    match o.signup
    case Returned(u) =>
      PrependSound(SignupPartnerSimple(email, password), Submission(VerifyAs(u), []));
    case Threw(f) =>
      CatchSound(email, f, o);
      PrependSound(SignupPartnerSimple(email, password), Catch(email, f, o));
  }

  lemma FallbackCatchSound(email: string, password: string, f: Fault, o: Oracle)
    ensures Sound(FallbackCatch(email, password, f, o))
  {
    SignUpStepSound(email, password, o);
  }

  lemma FallbackSound(email: string, password: string, o: Oracle)
    ensures Sound(Fallback(email, password, o))
  {
    var inner := match o.signIn
      case Threw(f) => FallbackCatch(email, password, f, o)
      case Returned(false) => SignUpStep(email, password, o)
      case Returned(true) => SignedInFallback(email, password, o);
    match o.signIn
    case Threw(f) => FallbackCatchSound(email, password, f, o);
    case Returned(false) => SignUpStepSound(email, password, o);
    case Returned(true) =>
      var conv := match GetAuthenticatedUser(o.currentUser)
        case Threw(f) => FallbackCatch(email, password, f, o)
        case Returned(None) => Submission(Silent, [])
        case Returned(Some(user)) => ConvertFallback(email, password, user.userId, o);
      if o.currentUser.Returned? {
        var user := o.currentUser.value;
        var last := match o.convert
          case Returned(true) => Submission(FieldError(Email, ApplicationSubmitted), [])
          case Returned(false) => Submission(Silent, [])
          case Threw(f) => FallbackCatch(email, password, f, o);
        if o.convert.Threw? { FallbackCatchSound(email, password, o.convert.fault, o); }
        PrependSound(ConvertToPendingPartner(email, user.userId), last);
      }
      PrependSound(GetCurrentUser, conv);
    PrependSound(SignInPartner(email, password), inner);
  }

  lemma ExistingSound(email: string, password: string, pc: PartnerCheck, o: Oracle)
    ensures Sound(Existing(email, password, pc, o))
  {
    SignUpStepSound(email, password, o);
    if !pc.ActivePartner() && !pc.PendingApplication() && !pc.isPartner && pc.emailVerified {
      var inner := match o.signIn
        case Threw(f) => Submission(SignInFailure(f), [])
        case Returned(false) => SignUpStep(email, password, o)
        case Returned(true) =>
          var id := if pc.userId != "" then pc.userId else email;
          Submission(
            match o.convert
            case Returned(ok) => FieldError(Email, if ok then ApplicationSubmitted else SubmitFailed)
            case Threw(f) => SignInFailure(f),
            [ConvertToPendingPartner(email, id)]);
      PrependSound(SignInPartner(email, password), inner);
    }
  }

  lemma AfterLookupSound(email: string, password: string, o: Oracle)
    ensures Sound(AfterLookup(email, password, o))
  {
    var inner := match o.lookup
      case Threw(f) => Catch(email, f, o)
      case Returned(pc) =>
        if pc.apiUnavailable then Fallback(email, password, o)
        else if pc.error != "" then Submission(FieldError(Email, StatusUnavailable), [])
        else if pc.accountExists then Existing(email, password, pc, o)
        else SignUpStep(email, password, o);
    match o.lookup
    case Threw(f) => CatchSound(email, f, o);
    case Returned(pc) =>
      FallbackSound(email, password, o);
      ExistingSound(email, password, pc, o);
      SignUpStepSound(email, password, o);
    PrependSound(CheckPartnerStatus(email), inner);
  }

  /** Whatever the services do, one submission resends the code at most once. */
  lemma ResendAtMostOnce(email: string, password: string, o: Oracle)
    ensures Resends(Submit(email, password, o).calls) <= 1
  {
    AfterLookupSound(email, password, o);
  }

  /** Code entry always writes exactly the two pending entries for the username it switches to. */
  lemma EnterVerifyWritesPending(email: string, password: string, o: Oracle)
    ensures var f := Submit(email, password, o).final;
            f.EnterVerify? ==> f.entries == PendingEntries(f.username)
                               && (f.username == email || (o.signup.Returned? && f.username == o.signup.value))
  {
  }

  /** After a valid form, every error outcome sets exactly one field, with a non-empty message. */
  lemma OneFieldPerOutcome(email: string, password: string, o: Oracle)
    requires Matches(email) && PasswordIssue(password) == None
    ensures var f := Submit(email, password, o).final;
            f.ShowErrors? ==> |f.errors.Keys| == 1 && forall k :: k in f.errors ==> f.errors[k] != ""
  {
    AfterLookupSound(email, password, o);
  }

  // ---- The component ----

  class PartnershipApplication {
    var email: string
    var password: string
    var errors: Errors
    var verify: bool
    var username: string
    const storage: Store

    constructor (storage: Store)
      ensures email == "" && password == "" && errors == map[] && !verify && username == ""
      ensures this.storage == storage
    {
      email, password := "", "";
      errors := map[];
      verify := false;
      username := "";
      this.storage := storage;
    }

    /** The state update that `final` describes, relative to the state before. */
    twostate predicate Applied(fin: Final)
      reads this, storage
    {
      && Settled(errors, verify, username, storage.items)
         == SettleTo(fin, Settled(old(errors), old(verify), old(username), old(storage.items)), old(storage.available))
      && storage.available == old(storage.available)
      && email == old(email) && password == old(password)
    }

    /** The mount-time `useEffect`: restore code entry from the session. */
    method Mount()
      modifies this
      ensures match RestoredUsername(storage.items, storage.available)
              case Some(u) => username == u && verify
              case None => username == old(username) && verify == old(verify)
      ensures email == old(email) && password == old(password) && errors == old(errors)
    {
      var restored := RestoredUsername(storage.items, storage.available);
      if restored.Some? {
        username := restored.value;
        verify := true;
      }
    }

    /** `handleChange` for the two inputs of this form. */
    method HandleChange(field: Field, value: string)
      requires field == Email || field == Password
      modifies this
      ensures email == (if field == Email then StoredValue(field, value) else old(email))
      ensures password == (if field == Password then StoredValue(field, value) else old(password))
      ensures errors == ClearedError(old(errors), field)
      ensures verify == old(verify) && username == old(username)
    {
      if field == Email { email := StoredValue(field, value); } else { password := StoredValue(field, value); }
      errors := ClearedError(errors, field);
    }

    method ShowVerify(u: string)
      modifies this, storage
      ensures Applied(VerifyAs(u))
    {
      username := u;
      storage.SetItems(PendingEntries(u));
      verify := true;
    }

    method Resend(failure: string, resend: Outcome<()>) returns (calls: seq<Call>)
      modifies this, storage
      ensures var s := ResendOrError(email, resend, failure); Applied(s.final) && calls == s.calls
    {
      calls := [ResendSignUpCode(email)];
      match ResendConfirmationCode(resend) {
        case Returned(result) =>
          if result.success {
            ShowVerify(email);
            return;
          }
        case Threw(_) =>
      }
      errors := map[Email := failure];
    }

    /** The outer `catch` block. */
    method CatchBlock(f: Fault, o: Oracle) returns (calls: seq<Call>)
      modifies this, storage
      ensures var s := Catch(email, f, o); Applied(s.final) && calls == s.calls
    {
      match PartnerSignupReaction(f)
      case SetError(field, text) =>
        errors := map[field := text];
        calls := [];
      case ResendThen(failure) =>
        calls := Resend(failure, o.resend);
    }

    /** STEP 3 and the `catch` it can end in. */
    method SignUp(o: Oracle) returns (calls: seq<Call>)
      modifies this, storage
      ensures var s := SignUpStep(email, password, o); Applied(s.final) && calls == s.calls
    {
      calls := [SignupPartnerSimple(email, password)];
      match o.signup
      case Returned(u) =>
        ShowVerify(u);
      case Threw(f) =>
        var more := CatchBlock(f, o);
        calls := calls + more;
    }

    /** `handleSubmit`. */
    method HandleSubmit(o: Oracle) returns (calls: seq<Call>)
      modifies this, storage
      ensures var s := Submit(old(email), old(password), o);
              && calls == s.calls
              && errors == ErrorsAfter(s.final)
              && verify == (s.final.EnterVerify? || old(verify))
              && username == (if s.final.EnterVerify? then s.final.username else old(username))
              && storage.items == (if s.final.EnterVerify? then Written(old(storage.items), old(storage.available), s.final.entries)
                                   else old(storage.items))
              && storage.available == old(storage.available)
      ensures email == old(email) && password == old(password)
    {
      errors := ValidatePartnerForm(email, password);
      calls := [];
      if errors != map[] {
        return;
      }
      calls := [CheckPartnerStatus(email)];
      var pc;
      match o.lookup {
        case Threw(f) =>
          var more := CatchBlock(f, o);
          calls := calls + more;
          return;
        case Returned(r) =>
          pc := r;
      }
      var more: seq<Call>;
      if pc.apiUnavailable {
        more := SignInFirst(o);
      } else if pc.error != "" {
        errors := map[Email := StatusUnavailable];
        return;
      } else if pc.accountExists {
        more := ExistingAccount(pc, o);
      } else {
        more := SignUp(o);
      }
      calls := calls + more;
    }

    /** The degraded path: sign in, convert, or fall through to sign-up. */
    method SignInFirst(o: Oracle) returns (calls: seq<Call>)
      modifies this, storage
      ensures var s := Fallback(email, password, o); Applied(s.final) && calls == s.calls
    {
      calls := [SignInPartner(email, password)];
      var thrown: Option<Fault> := None;
      match o.signIn {
        case Threw(f) =>
          thrown := Some(f);
        case Returned(signedIn) =>
          if signedIn {
            calls := calls + [GetCurrentUser];
            var user;
            match GetAuthenticatedUser(o.currentUser) {
              case Threw(f) =>
                thrown := Some(f);
                user := None;
              case Returned(u) =>
                user := u;
            }
            if thrown.Some? {
            } else if user.Some? {
              calls := calls + [ConvertToPendingPartner(email, user.value.userId)];
              match o.convert {
                case Threw(f) =>
                  thrown := Some(f);
                case Returned(ok) =>
                  if ok {
                    errors := map[Email := ApplicationSubmitted];
                  }
                  return;
              }
            } else {
              return;
            }
          }
      }
      if thrown.Some? && LooksLikeWrongPassword(thrown.value) {
        errors := map[Password := IncorrectPassword];
        return;
      }
      var more := SignUp(o);
      calls := calls + more;
    }

    /** STEP 2: the lookup found an account. */
    method ExistingAccount(pc: PartnerCheck, o: Oracle) returns (calls: seq<Call>)
      modifies this, storage
      ensures var s := Existing(email, password, pc, o); Applied(s.final) && calls == s.calls
    {
      calls := [];
      if pc.isPartner && pc.partnerStatus == Some("true") {
        errors := map[Email := AlreadyPartner];
        return;
      }
      if pc.partnerStatus == Some("pending") {
        errors := map[Email := ApplicationPending];
        return;
      }
      if !pc.isPartner {
        if !pc.emailVerified {
          calls := Resend(NotVerified, o.resend);
          return;
        }
        calls := [SignInPartner(email, password)];
        match o.signIn {
          case Threw(f) =>
            errors := map[Password := if LooksLikeWrongPassword(f) then IncorrectPassword else SignInFailed];
            return;
          case Returned(signedIn) =>
            if signedIn {
              calls := calls + [ConvertToPendingPartner(email, if pc.userId != "" then pc.userId else email)];
              match o.convert {
                case Threw(f) =>
                  errors := map[Password := if LooksLikeWrongPassword(f) then IncorrectPassword else SignInFailed];
                case Returned(ok) =>
                  errors := map[Email := if ok then ApplicationSubmitted else SubmitFailed];
              }
              return;
            }
        }
      }
      var more := SignUp(o);
      calls := calls + more;
    }
  }
}
