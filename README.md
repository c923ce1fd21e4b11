# Athletic Finance onboarding, modelled in Dafny

This project models the client-side onboarding core of the Athletic Finance web app:

- the partner application form (`PartnershipApplication.jsx`);
- the join form (`JoinPage.jsx`);
- the six-box confirmation-code screen (`Verify.jsx`);
- the identity-provider helpers they call (`src/api/auth.js`).

Each form's `handleSubmit` gets two parts:

- a pure decision procedure (`Partnership.Submit`, `Join.Submit`). It takes the form contents and what every awaited call produced, and returns how the submission ends plus the calls it made, in order.
- a class whose fields are the component's state. Its `HandleSubmit` runs the handler step by step and is proved to end exactly where the decision procedure says.

The lemmas beside each decision procedure state what the handler promises:

- which branch wins;
- that an invalid form calls nothing;
- that a code is resent at most once;
- that every error outcome sets exactly one field, with a non-empty message;
- that code entry writes the pending-verification entries.

`Verification.Verify` holds the code screen's state and its six input boxes (an `array<string>`). Each asynchronous handler is split at its `await`: `ClickVerify` / `VerifyFinished` and `ClickResend` / `ResendFinished`. This makes the in-flight flags visible. The class invariant `Valid()` states that at most one request is in flight.

Supporting modules:

- `JsText`: the JavaScript string operations used (`trim`, `includes`, `toLowerCase`/`toUpperCase` on ASCII, `String(number)`).
- `EmailPattern`: the validation regex `\S+@\S+\.\S+`. It is defined as a search for a match, and implemented by a six-state scanner proved equivalent to it.
- `Forms`: the two `validateForm`s and `handleChange`.
- `ErrorClassification`: the two `catch` blocks.
- `Session`: `sessionStorage`.
- `Remote`: faults, outcomes and the call record.

Calls into code outside the model are parameters:

- the AWS Amplify SDK, the partner-status backend and `markSignupComplete`: what each call resolved to or threw;
- `Date.now()`: a `nat`;
- storage failure: a flag on the store.

## Model

| member | source | states |
|---|---|---|
| Auth.SignupRequest | src/api/auth.js:8-20 | the username is first name + last name + the timestamp's decimal digits; the attributes are exactly `email`, `name` = first + " " + last and `custom:PaidPlan` = "none" |
| Auth.SignupUser | src/api/auth.js:6-33 | resolves exactly when the SDK's `signUp` succeeded, and then with the built username |
| Auth.SignupUsernameShape | src/api/auth.js:8 | the username starts with the two names run together and ends with the digits of the timestamp |
| Auth.SignupUsernameDistinct | src/api/auth.js:8 | the same names at two different milliseconds give two different usernames |
| Auth.SignupFaultsAreFresh | src/api/auth.js:24-32 | every rethrown error is a plain `Error`. A duplicate name or a message containing "email" becomes "Email already exists"; any other failure keeps the SDK's message |
| Auth.VerifyUser | src/api/auth.js:38-51 | `verifyUser`: the `try`/`catch` around `confirmSignUp` turns its outcome into a returned boolean |
| Auth.VerifyUserNeverThrows | src/api/auth.js:38-51 | whatever `confirmSignUp` does, `verifyUser` returns, and it returns true exactly when `confirmSignUp` returned |
| Auth.ResendConfirmationCode | src/api/auth.js:56-65 | `resendConfirmationCode`: the `try`/`catch` around `resendSignUpCode` turns its outcome into a returned `{ success, error }` |
| Auth.ResendNeverThrows | src/api/auth.js:56-65 | whatever `resendSignUpCode` does, `resendConfirmationCode` returns; `success` is true exactly when the SDK call returned; on success there is no error, and on a throw the error is the thrown fault's message |
| Auth.ResendShowsCode | src/routes/Partnership/PartnershipApplication.jsx:132-145 | a caller's `try { if (result?.success) … } catch {}` goes on to code entry exactly when `resendSignUpCode` returned |
| Auth.GetAuthenticatedUser | src/api/auth.js:70-77 | `getAuthenticatedUser`: the `try`/`catch` around `getCurrentUser` turns its outcome into a returned user or `null` |
| Auth.CurrentUserNeverThrows | src/api/auth.js:70-77 | whatever `getCurrentUser` does, `getAuthenticatedUser` returns; the result is `null` exactly when the SDK call threw, and otherwise it is the SDK's user |
| JsText.Contains | src/routes/JoinPage/JoinPage.jsx:90 | `includes`: the needle is a prefix of the string or of some suffix of it |
| JsText.ContainsIff | src/routes/JoinPage/JoinPage.jsx:90 | `includes` holds exactly when the needle occurs at some position |
| JsText.ContainsTransitive | src/routes/JoinPage/JoinPage.jsx:90 | a string containing a string that contains the needle contains the needle |
| JsText.Trim | src/routes/JoinPage/JoinPage.jsx:22 | `trim` gives the slice left after dropping the JavaScript white space at both ends, and that slice has none at either end |
| JsText.TrimIdempotent | src/routes/JoinPage/JoinPage.jsx:22 | trimming twice is trimming once |
| JsText.DecimalString | src/api/auth.js:8 | `String(n)` for a safe integer is a non-empty run of digits without a leading zero |
| JsText.ParseDecimalString | src/api/auth.js:8 | reading the digits back gives the number again |
| JsText.DecimalStringInjective | src/api/auth.js:8 | different numbers print differently |
| EmailPattern.Matches | src/routes/JoinPage/JoinPage.jsx:54 | `\S+@\S+\.\S+` matches somewhere: an `@` and a later `.` with non-blank text before the `@`, between them and after the `.` |
| EmailPattern.LooksLikeEmail | src/routes/JoinPage/JoinPage.jsx:54 | the executable test: the six-state scanner run over the email from its start |
| EmailPattern.LooksLikeEmailCorrect | src/routes/JoinPage/JoinPage.jsx:54 | the scanner accepts an email exactly when `\S+@\S+\.\S+` matches somewhere in it |
| EmailPattern.ScanMeaning | src/routes/JoinPage/JoinPage.jsx:54 | from each scanner state, acceptance of the rest is the existence of a match after that state's witness prefix |
| EmailPattern.MatchNeedsAtThenDot | src/routes/JoinPage/JoinPage.jsx:54 | an accepted email has an `@` after its first character and a later `.` before its last character |
| EmailPattern.ShortHasNoMatch | src/routes/JoinPage/JoinPage.jsx:54 | no text under five characters is accepted, the empty email included |
| EmailPattern.MatchesExtend | src/routes/JoinPage/JoinPage.jsx:54 | the test is unanchored: text around an accepted email keeps it accepted |
| EmailPattern.EmbeddedSpaceAccepted | src/routes/JoinPage/JoinPage.jsx:54 | "a b@c.d" passes, because the pattern is not anchored |
| Forms.PasswordIssue | src/routes/JoinPage/JoinPage.jsx:56-62 | the first failing password rule wins: under 8 characters, then no digit, then no character outside `[A-Za-z0-9]`; no message means all three hold |
| Forms.CredentialErrors | src/routes/Partnership/PartnershipApplication.jsx:49-57 | the email key is present exactly when no match is found; the password key holds exactly the password's one message |
| Forms.ValidatePartnerForm | src/routes/Partnership/PartnershipApplication.jsx:47-60 | the stored errors object is empty exactly when the email matches and the password has no issue |
| Forms.ValidateJoinForm | src/routes/JoinPage/JoinPage.jsx:50-65 | each name is required independently of the other fields; the errors object is empty exactly when every check passes |
| Forms.JoinExtendsPartnerChecks | src/routes/JoinPage/JoinPage.jsx:54-62 | the join form's email and password checks are exactly the partner form's |
| Forms.EmailAcceptedIff | src/routes/JoinPage/JoinPage.jsx:54 | `!email \|\| !/re/.test(email)` rejects exactly the emails without a match (the empty one has none) |
| Forms.ExampleCredentialsValid | src/routes/Partnership/PartnershipApplication.jsx:47-60 | "a@b.com" with "Abcdef1!" raises no validation error |
| Forms.StoredValue | src/routes/JoinPage/JoinPage.jsx:18-23 | the password is stored verbatim, every other field trimmed |
| Forms.ClearedError | src/routes/JoinPage/JoinPage.jsx:26-31 | only the edited field's error is blanked; the key stays and the other entries are unchanged |
| Session.PendingEntries | src/routes/Partnership/PartnershipApplication.jsx:136-139 | code entry writes exactly two keys: `pendingVerification` = "true" and `pendingUsername` = the username |
| Session.RestoredUsername | src/routes/JoinPage/JoinPage.jsx:39-48 | the restore happens exactly when storage works, the pending flag reads "true" and the stored username is non-empty |
| Session.Written | src/routes/JoinPage/JoinPage.jsx:73-77 | a write adds or replaces exactly the written entries; with storage unavailable nothing changes |
| Session.RestoreAfterWrite | src/routes/Partnership/PartnershipApplication.jsx:36-45 | a restore right after code entry wrote its entries finds the username again |
| Session.NoRestoreWithoutStorage | src/routes/Partnership/PartnershipApplication.jsx:36-45 | when storage throws, nothing is restored |
| Session.NoRestoreAfterRemoval | src/routes/JoinPage/Verify.jsx:40-43 | after verification removes the two keys, no restore happens |
| Session.Store.SetItems | src/routes/JoinPage/JoinPage.jsx:73-77 | the store's new contents are `Written` of the old ones |
| Session.Store.RemoveItems | src/routes/JoinPage/Verify.jsx:40-43 | the keys are removed when storage works, nothing changes otherwise |
| ErrorClassification.MessageOf | src/routes/Partnership/PartnershipApplication.jsx:196 | the fault's message when it is a string, else the empty string |
| ErrorClassification.LowerOf | src/routes/Partnership/PartnershipApplication.jsx:197 | the lower-cased message the `catch` blocks test their words against |
| ErrorClassification.LooksLikeWrongPassword | src/routes/Partnership/PartnershipApplication.jsx:88-97 | a sign-in failure is a wrong password when its name is `NotAuthorizedException` or its lower-cased message contains "incorrect", "invalid" or "password" |
| ErrorClassification.PartnerSignupReaction | src/routes/Partnership/PartnershipApplication.jsx:195-238 | the partner `catch`'s tests in source order: the PreSignUp rejections, the duplicate username (resend), the invalid password, a password or email message, then the fallback message |
| ErrorClassification.JoinSignupReaction | src/routes/JoinPage/JoinPage.jsx:82-136 | the join `catch`'s tests in source order: "try logging in instead", the PreSignUp rejections, the duplicate username (resend), then the email, password and fallback messages |
| ErrorClassification.PasswordReaction | src/routes/Partnership/PartnershipApplication.jsx:230-231 | the password field gets the message, or "Invalid password" when the message is empty |
| ErrorClassification.PartnerReactionShows | src/routes/Partnership/PartnershipApplication.jsx:195-238 | every branch of the partner `catch` sets the email or password field to a non-empty message |
| ErrorClassification.PartnerResendIff | src/routes/Partnership/PartnershipApplication.jsx:215-229 | the partner `catch` resends exactly for `UsernameExistsException` |
| ErrorClassification.PartnerPreSignUpExistsFirst | src/routes/Partnership/PartnershipApplication.jsx:201-205 | a PreSignUp rejection saying "already exists" asks to log in, whatever else it says |
| ErrorClassification.PartnerPasswordBeforeEmail | src/routes/Partnership/PartnershipApplication.jsx:230-235 | a message mentioning the password lands on the password field even when it also mentions email |
| ErrorClassification.JoinReactionShows | src/routes/JoinPage/JoinPage.jsx:82-136 | every branch of the join `catch` sets the email or password field to a non-empty message |
| ErrorClassification.JoinFirstTestIsOneTest | src/routes/JoinPage/JoinPage.jsx:90 | the two-part test is the single test for "try logging in instead" |
| ErrorClassification.JoinTryLoggingInFirst | src/routes/JoinPage/JoinPage.jsx:88-93 | a message saying "try logging in instead" always asks to log in and never resends |
| ErrorClassification.JoinPreSignUp | src/routes/JoinPage/JoinPage.jsx:95-105 | a PreSignUp rejection asks to log in exactly when it says "already exists", else shows the support message |
| ErrorClassification.JoinResendIff | src/routes/JoinPage/JoinPage.jsx:107-121 | the join `catch` resends exactly for `UsernameExistsException` not caught by the two earlier tests |
| Partnership.Submit | src/routes/Partnership/PartnershipApplication.jsx:62-241 | `handleSubmit` as a decision: an invalid form shows its errors, a valid one goes on to the lookup |
| Partnership.AfterLookup | src/routes/Partnership/PartnershipApplication.jsx:65-238 | the status lookup, then the degraded path, the lookup error, the existing account or sign-up; a thrown lookup goes to the outer `catch` |
| Partnership.FallbackCatch | src/routes/Partnership/PartnershipApplication.jsx:87-107 | the degraded path's sign-in `catch`: a wrong-password failure stops with "Incorrect password" on the password field; any other failure falls through to sign-up |
| Partnership.Fallback | src/routes/Partnership/PartnershipApplication.jsx:70-108 | the degraded path: sign in; a throw goes to the sign-in `catch`, a false sign-in to sign-up |
| Partnership.SignedInFallback | src/routes/Partnership/PartnershipApplication.jsx:74-86 | once signed in, the current user is looked up and converted; no user ends silently |
| Partnership.ConvertFallback | src/routes/Partnership/PartnershipApplication.jsx:78-86 | a successful conversion reports the submitted application; a false one ends silently; a throw goes to the sign-in `catch` |
| Partnership.Existing | src/routes/Partnership/PartnershipApplication.jsx:115-182 | an existing account: active partner, pending application, other partner (sign-up), unverified (resend) or verified (sign in), tested in that order |
| Partnership.SignInExisting | src/routes/Partnership/PartnershipApplication.jsx:148-180 | a verified non-partner signs in and is converted under the looked-up id, or the email when there is none |
| Partnership.SignInFailure | src/routes/Partnership/PartnershipApplication.jsx:165-179 | the existing account's sign-in `catch`: "Incorrect password" for a wrong-password failure, else "Sign in failed", on the password field |
| Partnership.VerifyAs | src/routes/Partnership/PartnershipApplication.jsx:135-140 | code entry for the username, with the two pending entries written |
| Partnership.ResendOrError | src/routes/Partnership/PartnershipApplication.jsx:132-145 | one resend for the email: code entry when it succeeds, the given email error otherwise |
| Partnership.SignUpStep | src/routes/Partnership/PartnershipApplication.jsx:184-191 | `signupPartnerSimple`, then code entry for the returned username, or the outer `catch` |
| Partnership.Catch | src/routes/Partnership/PartnershipApplication.jsx:195-238 | the outer `catch`: the field error that `PartnerSignupReaction` picks, or its resend |
| Partnership.InvalidFormMakesNoCall | src/routes/Partnership/PartnershipApplication.jsx:62-64 | an invalid form ends with its validation errors, no call at all and so no remote call |
| Partnership.ValidFormLooksUpFirst | src/routes/Partnership/PartnershipApplication.jsx:64-67 | a valid form always starts with the status lookup for its email |
| Partnership.LookupErrorBlocks | src/routes/Partnership/PartnershipApplication.jsx:109-112 | a lookup reporting an error blocks with "Unable to verify account status" and makes no further call |
| Partnership.ActivePartnerRejected | src/routes/Partnership/PartnershipApplication.jsx:115-120 | an active partner is told to sign in, with no identity-provider call |
| Partnership.PendingApplicationRejected | src/routes/Partnership/PartnershipApplication.jsx:122-126 | a pending application is reported, with no identity-provider call |
| Partnership.UnverifiedAccountResends | src/routes/Partnership/PartnershipApplication.jsx:129-146 | an unverified non-partner gets one resend: code entry for the email when it succeeds, the "not verified" error when it fails |
| Partnership.VerifiedAccountSignsIn | src/routes/Partnership/PartnershipApplication.jsx:148-164 | a signed-in verified non-partner is converted under the looked-up id, or the email when there is none; the outcome message follows the conversion |
| Partnership.VerifiedAccountSignInFails | src/routes/Partnership/PartnershipApplication.jsx:165-180 | a failed sign-in becomes "Incorrect password" for wrong-password faults and "Sign in failed" otherwise, both on the password field |
| Partnership.UnavailableWrongPasswordStops | src/routes/Partnership/PartnershipApplication.jsx:87-97 | with the lookup unavailable, a wrong-password sign-in failure stops with "Incorrect password" |
| Partnership.UnavailableFallsThroughToSignUp | src/routes/Partnership/PartnershipApplication.jsx:87-191 | with the lookup unavailable, any other sign-in failure or a false sign-in goes on to sign-up |
| Partnership.UnknownEmailSignsUp | src/routes/Partnership/PartnershipApplication.jsx:184-191 | an unknown email goes straight from the lookup to sign-up |
| Partnership.SignUpFailureClassified | src/routes/Partnership/PartnershipApplication.jsx:195-238 | a sign-up failure ends as the `catch` classifies it; only a duplicate username resends |
| Partnership.ResendAtMostOnce | src/routes/Partnership/PartnershipApplication.jsx:130-229 | whatever the services do, one submission resends the code at most once |
| Partnership.EnterVerifyWritesPending | src/routes/Partnership/PartnershipApplication.jsx:135-225 | code entry always writes exactly the pending flag and the username it switches to |
| Partnership.OneFieldPerOutcome | src/routes/Partnership/PartnershipApplication.jsx:62-241 | after a valid form, every error outcome sets exactly one field to a non-empty message |
| Partnership.AfterLookupSound | src/routes/Partnership/PartnershipApplication.jsx:65-238 | every path after validation resends at most once and sets at most one field |
| Partnership.PartnershipApplication.Mount | src/routes/Partnership/PartnershipApplication.jsx:36-45 | code entry is restored for the stored username exactly when the restore finds one |
| Partnership.PartnershipApplication.HandleChange | src/routes/Partnership/PartnershipApplication.jsx:17-30 | the edited field takes its stored value and only its error is blanked |
| Partnership.PartnershipApplication.ShowVerify | src/routes/Partnership/PartnershipApplication.jsx:186-191 | the username is set, the two pending entries are written to storage and code entry is shown |
| Partnership.PartnershipApplication.Resend | src/routes/Partnership/PartnershipApplication.jsx:132-145 | one resend; on success the username, the pending entries and code entry are set, otherwise only the email error |
| Partnership.PartnershipApplication.CatchBlock | src/routes/Partnership/PartnershipApplication.jsx:195-238 | the outer `catch` leaves the state and calls that `Catch` prescribes |
| Partnership.PartnershipApplication.SignUp | src/routes/Partnership/PartnershipApplication.jsx:184-191 | the sign-up step leaves the state and calls that `SignUpStep` prescribes |
| Partnership.PartnershipApplication.SignInFirst | src/routes/Partnership/PartnershipApplication.jsx:70-108 | the degraded path leaves the state and calls that `Fallback` prescribes |
| Partnership.PartnershipApplication.ExistingAccount | src/routes/Partnership/PartnershipApplication.jsx:115-182 | the existing-account cases leave the state and calls that `Existing` prescribes |
| Partnership.PartnershipApplication.HandleSubmit | src/routes/Partnership/PartnershipApplication.jsx:62-241 | the handler makes the calls of `Submit` and leaves the errors, view, username and storage it prescribes |
| Join.Validate | src/routes/JoinPage/JoinPage.jsx:50-65 | the join form's `validateForm` over its four fields |
| Join.SignupEntries | src/routes/JoinPage/JoinPage.jsx:73-77 | the three keys a successful sign-up writes: the pending flag, the username and the email |
| Join.Catch | src/routes/JoinPage/JoinPage.jsx:82-136 | the `catch`: the field error that `JoinSignupReaction` picks, or its resend and code entry for the email |
| Join.Submit | src/routes/JoinPage/JoinPage.jsx:67-139 | `handleSubmit` as a decision: validation, `signupUser`, then code entry for the returned username or the `catch` |
| Forms.SettleTo | src/routes/JoinPage/JoinPage.jsx:67-139 | what a submission leaves of a form's state: the last errors object set, or code entry with its username and session writes, or nothing changed; both components' handlers are proved to end in it |
| Join.SignUpOnlyWhenValid | src/routes/JoinPage/JoinPage.jsx:67-71 | a sign-up call, and with it any remote call, is made exactly when validation stored an empty errors object |
| Join.EmptyFormReportsEveryField | src/routes/JoinPage/JoinPage.jsx:50-62 | an empty form reports all four fields at once |
| Join.SuccessfulSignUp | src/routes/JoinPage/JoinPage.jsx:71-78 | a successful sign-up writes the pending flag, the returned username and the email, and shows code entry for that username |
| Join.NeverResends | src/routes/JoinPage/JoinPage.jsx:107-121 | through `signupUser` the resend branch cannot be reached: no submission resends, and code entry only follows a successful sign-up |
| Join.EmailExistsClassified | src/routes/JoinPage/JoinPage.jsx:122-125 | the "Email already exists" that `signupUser` rethrows is shown as the log-in message |
| Join.DuplicateShowsLogIn | src/routes/JoinPage/JoinPage.jsx:67-136 | a duplicate username, or a provider message mentioning "email", ends with the log-in message on the email field |
| Join.OtherFailuresIgnoreName | src/api/auth.js:28-31 | any other failure is classified by its message alone: the provider's error name never reaches the `catch` |
| Join.OneFieldPerOutcome | src/routes/JoinPage/JoinPage.jsx:82-136 | after a valid form, every error outcome sets exactly one field to a non-empty message |
| Join.JoinPage.Mount | src/routes/JoinPage/JoinPage.jsx:39-48 | code entry is restored for the stored username exactly when the restore finds one |
| Join.JoinPage.HandleChange | src/routes/JoinPage/JoinPage.jsx:18-32 | the edited field takes its stored value and only its error is blanked |
| Join.JoinPage.ShowVerify | src/routes/JoinPage/JoinPage.jsx:72-78 | the username is set, the given entries are written to storage and code entry is shown |
| Join.JoinPage.CatchBlock | src/routes/JoinPage/JoinPage.jsx:82-136 | the `catch` leaves the state and calls that `Catch` prescribes |
| Join.JoinPage.HandleSubmit | src/routes/JoinPage/JoinPage.jsx:67-139 | the handler makes the calls of `Submit` and leaves the errors, view, username and storage it prescribes |
| Verification.DisplayedValue | src/routes/JoinPage/Verify.jsx:80-86 | a box's entry made only of lowercase letters is stored upper-cased, anything else as typed |
| Verification.ReplaceAt | src/routes/JoinPage/Verify.jsx:79-87 | the code with position `index` set to the box's value, appended when past the end |
| Verification.RemoveAt | src/routes/JoinPage/Verify.jsx:106-110 | the code without position `index`, unchanged when past the end |
| Verification.DisplayedValueShape | src/routes/JoinPage/Verify.jsx:80-86 | the displayed value keeps the entry's length and is never all lowercase letters; digits are kept as typed; applying it twice changes nothing more |
| Verification.DisplayedLetter | src/routes/JoinPage/Verify.jsx:80-83 | a lowercase letter is shown as its capital |
| Verification.ReplaceAtInside | src/routes/JoinPage/Verify.jsx:79-87 | writing inside the code keeps the prefix and the suffix and puts the value in place |
| Verification.ReplaceAtPastEnd | src/routes/JoinPage/Verify.jsx:79-87 | writing past the end appends the value, because the array holes join as empty strings |
| Verification.ReplaceAtChar | src/routes/JoinPage/Verify.jsx:79-87 | a one-character value replaces exactly that character |
| Verification.ReplaceAtEmptyIsRemoveAt | src/routes/JoinPage/Verify.jsx:79-87 | clearing a box inside the code deletes that character and shortens the code |
| Verification.RemoveAtShifts | src/routes/JoinPage/Verify.jsx:106-110 | deleting keeps everything before the position and shifts the rest down by one |
| Verification.ConcatSingles | src/routes/JoinPage/Verify.jsx:121-123 | single-character boxes join into one character per box, in order |
| Verification.ReplaceAtFollowsBoxes | src/routes/JoinPage/Verify.jsx:79-87 | while every box and entry is one character, the code string equals the joined boxes |
| Verification.ClearThenRetypeDesyncs | src/routes/JoinPage/Verify.jsx:79-87 | after a box is cleared and retyped, the code has five characters while the boxes show six |
| Verification.MirroredCodeComplete | src/routes/JoinPage/Verify.jsx:79-87 | with the corrected edit, typing one character into a box whose neighbours each hold one character gives a code of one character per box, whatever the box held before, a cleared box included |
| Verification.MirroredCode | src/routes/JoinPage/Verify.jsx:79-87 | the corrected edit: the code is the boxes joined after box `index` takes its displayed value |
| Verification.MirroredRetypeComplete | src/routes/JoinPage/Verify.jsx:79-87 | the clear-then-retype input of the finding gives the six-character code "129456" under the corrected edit |
| Verification.PastedCodeIsComplete | src/routes/JoinPage/Verify.jsx:117-125 | the boxes after a paste join back into the pasted code |
| Verification.Verify.constructor | src/routes/JoinPage/Verify.jsx:12-24 | six empty boxes, empty code and error, no request in flight |
| Verification.Verify.ClickVerify | src/routes/JoinPage/Verify.jsx:26-36 | disabled buttons do nothing. An incomplete code sets the "complete 6-digit code" error and sends nothing. Otherwise the error clears, `isVerifying` is set and the confirmation is sent |
| Verification.Verify.VerifyFinished | src/routes/JoinPage/Verify.jsx:36-52 | success marks sign-up complete, removes both pending keys and navigates to `/plans`. A false result sets "Invalid or expired code". A throw sets "Verification failed". `isVerifying` ends false in every case |
| Verification.Verify.ClickResend | src/routes/JoinPage/Verify.jsx:55-60 | disabled buttons do nothing; otherwise the error clears, `isResending` is set and the resend is sent |
| Verification.Verify.ResendFinished | src/routes/JoinPage/Verify.jsx:60-72 | success leaves the error cleared, failure sets "Failed to resend code"; `isResending` ends false |
| Verification.Verify.HandleInput | src/routes/JoinPage/Verify.jsx:75-87 | the box takes the displayed value and the code becomes `ReplaceAt` of the old code |
| Verification.Verify.HandleKeyDown | src/routes/JoinPage/Verify.jsx:102-110 | Backspace or Delete on an empty box deletes that position from the code; any other key changes nothing |
| Verification.Verify.HandlePaste | src/routes/JoinPage/Verify.jsx:117-125 | a six-character paste becomes the code, one character per box; any other length changes nothing |

## Left out

- String lengths: JavaScript `.length` and `slice` count UTF-16 code units, but the model's strings are sequences of code points. The two differ only for characters outside the Basic Multilingual Plane.
- `toLowerCase`, `toUpperCase` and the `/i` flag: modelled on ASCII letters only. Two non-ASCII characters lower-case into ASCII: U+212A (KELVIN SIGN) becomes `k`, and U+0130 becomes `i` followed by U+0307. No needle tested contains a `k`, and none ends in an `i`, so every `includes` test gives the same answer as JavaScript's.
- `String(Date.now())` is modelled as the plain decimal digits. JavaScript switches to exponent notation only from 10^21, far beyond any millisecond timestamp.
- The message of an error thrown by the SDK's `signUp` inside `signupUser` is assumed to be a string. If it were missing, `error.message.includes` at src/api/auth.js:28 would throw a `TypeError`, and that error is not modelled. The other helpers take the fault's message as optional.
- `markSignupComplete` is imported by src/routes/JoinPage/Verify.jsx:4 from src/api/auth.js, which does not define it. It is modelled as an unseen call that either returns or throws (`markThrows`).
- The partner-status backend and `signInPartner`, `convertUserToPendingPartner`, `signupPartnerSimple` are outside the shown sources. Only what each call resolves to or throws is modelled, as an `Oracle`.
- Each call is given one result per submission. This is exact because along every path each call is made at most once; only the bound for the resend is proved (`Partnership.ResendAtMostOnce`).
- Storage failure is all-or-nothing per store (`available`). A store that fails after some writes of one `try` block is not modelled.
- Asynchrony is modelled per handler: each submission's awaits run in order, with no interleaving with other events. A second submission before the first settles is not modelled.
- In `Verify.jsx` the await is modelled as a click followed by a continuation, so the in-flight flags can be observed in between.
- Everything the DOM does is left out:
  - focus and selection moves;
  - `alert` and console logging;
  - the password-visibility toggle, the markup and the animation;
  - the browser's own insertion of pasted text into the focused box (the `paste` event is not cancelled).
- The rest of the app is not modelled: routing, the plans page, the payment page and the layout.
- Verification.Verify.HandleInput: the boxes are modelled as receiving the displayed value. The browser's `maxLength` limit on what a user can type is not modelled, so values of any length are allowed.
- Join.JoinPage.HandleSubmit and Partnership.PartnershipApplication.HandleSubmit: `setErrors` from validation and from the `catch` are collapsed into the final errors object. The view renders only after the handler's await points, and that ordering is not modelled.

## Findings

| source | as written | input that shows it | evidently intended | confidence | as-written member | corrected member |
|---|---|---|---|---|---|---|
| src/routes/JoinPage/Verify.jsx:79-87 | the code string is edited by position and an empty value deletes the character, so the code shifts out of step with the boxes | paste "123456", clear the third box, type "9" into it: the boxes show 1 2 9 4 5 6 but the code is "12956", so Verify reports an incomplete code | the code is the boxes' values joined in order | medium, not executed | Verification.ClearThenRetypeDesyncs | Verification.MirroredCodeComplete |

The component still models the code as written (`Verification.Verify.HandleInput` uses `ReplaceAt`). The corrected edit is `Verification.MirroredCode`, the joined boxes. `Verification.ReplaceAtFollowsBoxes` proves the two agree for as long as every box holds exactly one character. They part only when an entry is empty. On the finding's own input, `Verification.MirroredRetypeComplete` shows the corrected edit giving "129456" where the as-written one gives "12956".
