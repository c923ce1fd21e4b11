/**
 * The boundary between the onboarding code and the services it awaits: what a
 * remote call can produce, and the record of which calls a handler made.
 */
module Remote {
  import opened Wrappers

  /**
   * A thrown value as a `catch` block sees it: `name` is `error?.name || ''`
   * and `message` is `error?.message` when it is a string, `None` otherwise.
   */
  datatype Fault = Fault(name: string, message: Option<string>)

  /** The value an awaited call resolved to, or what it threw. */
  datatype Outcome<+T> = Returned(value: T) | Threw(fault: Fault)

  /** What the identity-provider SDK did: resolved with a value or failed with a named error. */
  datatype SdkResult<+T> = SdkOk(value: T) | SdkError(name: string, message: string)

  /** The signed-in user the SDK reports. */
  datatype AuthUser = AuthUser(username: string, userId: string)

  /** The argument object of the SDK's `signUp`. */
  datatype SignUpRequest = SignUpRequest(username: string, password: string, attributes: map<string, string>)

  /** One call a handler makes beyond the component: to a service, to an unseen helper, or to the router. */
  datatype Call =
    | CheckPartnerStatus(email: string)
    | SignInPartner(email: string, password: string)
    | GetCurrentUser
    | ConvertToPendingPartner(email: string, userId: string)
    | SignupPartnerSimple(email: string, password: string)
    | SignUp(request: SignUpRequest)
    | ResendSignUpCode(username: string)
    | ConfirmSignUp(username: string, code: string)
    | MarkSignupComplete
    | Navigate(path: string)
  {
    /** Calls that reach the identity provider or the partner-status backend. */
    predicate IsRemote() {
      !MarkSignupComplete? && !Navigate?
    }
  }

  /** The number of code resends in a call record. */
  function Resends(calls: seq<Call>): (n: nat)
    ensures n <= |calls|
    ensures n == 0 <==> forall i :: 0 <= i < |calls| ==> !calls[i].ResendSignUpCode?
  {
    if calls == [] then 0
    else Resends(calls[..|calls| - 1]) + (if calls[|calls| - 1].ResendSignUpCode? then 1 else 0)
  }

  /** Counting resends distributes over concatenation. */
  lemma {:induction false} ResendsAppend(a: seq<Call>, b: seq<Call>)
    ensures Resends(a + b) == Resends(a) + Resends(b)
    decreases |b|
  {
    if b == [] {
      assert a + b == a;
    } else {
      assert (a + b)[..|a + b| - 1] == a + b[..|b| - 1];
      ResendsAppend(a, b[..|b| - 1]);
    }
  }
}
