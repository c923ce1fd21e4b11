/**
 * src/routes/JoinPage/JoinPage.jsx: the join form. `Submit` is the decision
 * of `handleSubmit` as a function of the form, the timestamp and what the SDK
 * did; the class `JoinPage` runs it step by step. Sign-up goes through
 * `signupUser` of src/api/auth.js, whose rethrown errors decide which of the
 * `catch` block's branches can be reached.
 */
module Join {
  import opened Wrappers
  import opened JsText
  import opened Remote
  import opened Auth
  import opened Session
  import opened EmailPattern
  import opened Forms
  import opened ErrorClassification

  function Validate(f: SignupForm): Errors {
    ValidateJoinForm(f.firstName, f.lastName, f.email, f.password)
  }

  /** The three entries the successful sign-up writes. */
  function SignupEntries(username: string, email: string): (m: map<string, string>)
    ensures m.Keys == {PendingVerificationKey, PendingUsernameKey, UserEmailKey}
  {
    PendingEntries(username)[UserEmailKey := email]
  }

  /** The `catch` of `handleSubmit`, including its possible resend. */
  function Catch(f: SignupForm, fault: Fault, resend: Outcome<()>): Submission {
    match JoinSignupReaction(fault)
    case SetError(field, text) => Submission(FieldError(field, text), [])
    case ResendThen(failure) =>
      Submission(if ResendShowsCode(resend) then EnterVerify(f.email, PendingEntries(f.email))
                 else FieldError(Email, failure),
                 [ResendSignUpCode(f.email)])
  }

  /** `handleSubmit`: validation, `signupUser`, then code entry or the `catch` block. */
  function Submit(f: SignupForm, now: nat, signUp: SdkResult<()>, resend: Outcome<()>): Submission {
    var v := Validate(f);
    if v != map[] then Submission(ShowErrors(v), [])
    else
      Prepend([SignUp(SignupRequest(f, now))],
        match SignupUser(f, now, signUp)
        case Returned(u) => Submission(EnterVerify(u, SignupEntries(u, f.email)), [])
        case Threw(fault) => Catch(f, fault, resend))
  }

  // ---- Properties ----

  /** Sign-up is attempted only when validation stored an empty errors object. */
  lemma SignUpOnlyWhenValid(f: SignupForm, now: nat, signUp: SdkResult<()>, resend: Outcome<()>)
    ensures Submit(f, now, signUp, resend).calls != [] <==> Validate(f) == map[]
    ensures var calls := Submit(f, now, signUp, resend).calls;
            (exists i :: 0 <= i < |calls| && calls[i].IsRemote()) <==> Validate(f) == map[]
    ensures Validate(f) != map[] ==> Submit(f, now, signUp, resend).final == ShowErrors(Validate(f))
  {
    var calls := Submit(f, now, signUp, resend).calls;
    if Validate(f) == map[] {
      assert calls[0] == SignUp(SignupRequest(f, now));
    }
  }

  /** Name, email and password errors are independent: an empty form reports all four fields. */
  lemma EmptyFormReportsEveryField()
    ensures Validate(SignupForm("", "", "", "")).Keys == {FirstName, LastName, Email, Password}
  {
    ShortHasNoMatch("");
  }

  /** A successful sign-up writes the pending flag, the returned username and the email, and shows code entry. */
  lemma SuccessfulSignUp(f: SignupForm, now: nat, resend: Outcome<()>)
    requires Validate(f) == map[]
    ensures var s := Submit(f, now, SdkOk(()), resend);
            && s.calls == [SignUp(SignupRequest(f, now))]
            && s.final.EnterVerify? && s.final.username == SignupUsername(f, now)
            && s.final.entries == map["pendingVerification" := "true",
                                      "pendingUsername" := SignupUsername(f, now),
                                      "userEmail" := f.email]
  {
  }

  /** Through `signupUser` the resend branch is dead: no submission ever resends a code. */
  lemma NeverResends(f: SignupForm, now: nat, signUp: SdkResult<()>, resend: Outcome<()>)
    ensures Resends(Submit(f, now, signUp, resend).calls) == 0
    ensures !Submit(f, now, signUp, resend).final.EnterVerify? || signUp.SdkOk?
  {
    if Validate(f) == map[] && signUp.SdkError? {
      SignupFaultsAreFresh(f, now, signUp);
      JoinResendIff(SignupUser(f, now, signUp).fault);
    }
  }

  /** A string without the needle's first character does not contain it. */
  lemma {:induction false} LacksFirstChar(s: string, needle: string)
    requires needle != [] && forall i :: 0 <= i < |s| ==> s[i] != needle[0]
    ensures !Contains(s, needle)
  {
    if s != [] {
      assert s[0] != needle[0];
      LacksFirstChar(s[1..], needle);
    }
  }

  lemma LowerEmailExists()
    ensures AsciiLower(JoinEmailExists) == "email already exists"
  {
    var low := AsciiLower(JoinEmailExists);
    assert low[0] == 'e';
    assert low[1..] == JoinEmailExists[1..];
  }

  lemma EmailExistsWords()
    ensures Contains("email already exists", "already exists")
    ensures Contains("email already exists", "email")
    ensures !Contains("email already exists", "try logging in instead")
  {
    var low := "email already exists";
    assert low[6..6 + |"already exists"|] == "already exists";
    ContainsAt(low, "already exists", 6);
    assert low[0..|"email"|] == "email";
    ContainsAt(low, "email", 0);
    ContainsNeedsRoom(low, "try logging in instead");
  }

  lemma EmailExistsNotPreSignUp()
    ensures !Contains(JoinEmailExists, "PreSignUp failed")
  {
    LacksFirstChar(JoinEmailExists, "PreSignUp failed");
  }

  /** A fault saying an account with this email already exists, under no special name, asks to log in. */
  lemma ExistingEmailWording(f: Fault)
    requires f.name != "UserLambdaValidationException" && f.name != "UsernameExistsException"
    requires !Contains(LowerOf(f), "try logging in instead") && !Contains(MessageOf(f), "PreSignUp failed")
    requires Contains(LowerOf(f), "already exists") && Contains(LowerOf(f), "email")
    ensures JoinSignupReaction(f) == SetError(Email, ExistsTryLogIn)
  {
    JoinFirstTestIsOneTest(LowerOf(f));
  }

  /** What "Email already exists" from `signupUser` is classified as. */
  lemma EmailExistsClassified(f: Fault)
    requires f == Fault("Error", Some(JoinEmailExists))
    ensures JoinSignupReaction(f) == SetError(Email, ExistsTryLogIn)
  {
    LowerEmailExists();
    EmailExistsWords();
    EmailExistsNotPreSignUp();
    ExistingEmailWording(f);
  }

  /** A duplicate username, or any provider message mentioning "email", ends in the log-in message. */
  lemma DuplicateShowsLogIn(f: SignupForm, now: nat, name: string, message: string, resend: Outcome<()>)
    requires Validate(f) == map[]
    requires name == "UsernameExistsException" || Contains(message, "email")
    ensures Submit(f, now, SdkError(name, message), resend)
            == Submission(FieldError(Email, ExistsTryLogIn), [SignUp(SignupRequest(f, now))])
  {
    EmailExistsClassified(SignupUser(f, now, SdkError(name, message)).fault);
  }

  /** Any other provider failure is classified by its message alone: the provider's error name is lost. */
  lemma OtherFailuresIgnoreName(f: SignupForm, now: nat, n1: string, n2: string, message: string, resend: Outcome<()>)
    requires n1 != "UsernameExistsException" && n2 != "UsernameExistsException" && !Contains(message, "email")
    ensures Submit(f, now, SdkError(n1, message), resend) == Submit(f, now, SdkError(n2, message), resend)
  {
  }

  /** Every error outcome of a valid form sets exactly one field, with a non-empty message. */
  lemma OneFieldPerOutcome(f: SignupForm, now: nat, signUp: SdkResult<()>, resend: Outcome<()>)
    requires Validate(f) == map[]
    ensures var fin := Submit(f, now, signUp, resend).final;
            fin.ShowErrors? ==> |fin.errors.Keys| == 1 && forall k :: k in fin.errors ==> fin.errors[k] != ""
  {
    if signUp.SdkError? {
      JoinReactionShows(SignupUser(f, now, signUp).fault);
    }
  }

  // ---- The component ----

  class JoinPage {
    var form: SignupForm
    var errors: Errors
    var verify: bool
    var username: string
    const storage: Store

    constructor (storage: Store)
      ensures form == SignupForm("", "", "", "") && errors == map[] && !verify && username == ""
      ensures this.storage == storage
    {
      form := SignupForm("", "", "", "");
      errors := map[];
      verify := false;
      username := "";
      this.storage := storage;
    }

    /** The mount-time `useEffect`: restore code entry from the session. */
    method Mount()
      modifies this
      ensures match RestoredUsername(storage.items, storage.available)
              case Some(u) => username == u && verify
              case None => username == old(username) && verify == old(verify)
      ensures form == old(form) && errors == old(errors)
    {
      var restored := RestoredUsername(storage.items, storage.available);
      if restored.Some? {
        username := restored.value;
        verify := true;
      }
    }

    /** `handleChange`: store the edited field, blank only its error. */
    method HandleChange(field: Field, value: string)
      modifies this
      ensures form == match field
                      case FirstName => old(form).(firstName := StoredValue(field, value))
                      case LastName => old(form).(lastName := StoredValue(field, value))
                      case Email => old(form).(email := StoredValue(field, value))
                      case Password => old(form).(password := StoredValue(field, value))
      ensures errors == ClearedError(old(errors), field)
      ensures verify == old(verify) && username == old(username)
    {
      var v := StoredValue(field, value);
      match field {
        case FirstName => form := form.(firstName := v);
        case LastName => form := form.(lastName := v);
        case Email => form := form.(email := v);
        case Password => form := form.(password := v);
      }
      errors := ClearedError(errors, field);
    }

    /** The state update that `fin` describes, relative to the state before. */
    twostate predicate Applied(fin: Final)
      reads this, storage
    {
      && Settled(errors, verify, username, storage.items)
         == SettleTo(fin, Settled(old(errors), old(verify), old(username), old(storage.items)), old(storage.available))
      && storage.available == old(storage.available)
      && form == old(form)
    }

    method ShowVerify(u: string, entries: map<string, string>)
      modifies this, storage
      ensures Applied(EnterVerify(u, entries))
    {
      username := u;
      storage.SetItems(entries);
      verify := true;
    }

    /** The `catch` of `handleSubmit`. */
    method CatchBlock(fault: Fault, resend: Outcome<()>) returns (calls: seq<Call>)
      modifies this, storage
      ensures var s := Catch(form, fault, resend); Applied(s.final) && calls == s.calls
    {
      match JoinSignupReaction(fault)
      case SetError(field, text) =>
        errors := map[field := text];
        calls := [];
      case ResendThen(failure) =>
        calls := [ResendSignUpCode(form.email)];
        if ResendShowsCode(resend) {
          ShowVerify(form.email, PendingEntries(form.email));
          return;
        }
        errors := map[Email := failure];
    }

    /** `handleSubmit`, with `now` for `Date.now()`. */
    method HandleSubmit(now: nat, signUp: SdkResult<()>, resend: Outcome<()>) returns (calls: seq<Call>)
      modifies this, storage
      ensures var s := Submit(old(form), now, signUp, resend);
              && calls == s.calls
              && errors == ErrorsAfter(s.final)
              && verify == (s.final.EnterVerify? || old(verify))
              && username == (if s.final.EnterVerify? then s.final.username else old(username))
              && storage.items == (if s.final.EnterVerify? then Written(old(storage.items), old(storage.available), s.final.entries)
                                   else old(storage.items))
              && storage.available == old(storage.available)
      ensures form == old(form)
    {
      errors := Validate(form);
      calls := [];
      if errors != map[] {
        return;
      }
      calls := [SignUp(SignupRequest(form, now))];
      match SignupUser(form, now, signUp) {
        case Returned(u) =>
          ShowVerify(u, SignupEntries(u, form.email));
        case Threw(fault) =>
          var more := CatchBlock(fault, resend);
          calls := calls + more;
      }
    }
  }
}
