/** The login form: two text fields, a password-visibility toggle, and a submit
    handler that validates, calls sign-in, and reports the outcome. */
module LoginForm {
  import opened Optional
  import opened AuthOutcome

  const RejectedFallback := "Login failed"
  const ThrownFallback := "Login failed. Please check your credentials."

  /** The guard in front of the sign-in call: both fields must be non-empty; no
      length rule applies here. `None` lets the call go ahead. */
  function ValidationError(email: string, password: string): (r: Option<string>)
    ensures r.Some? <==> email == "" || password == ""
    ensures r.Some? ==> r.value == FillInMessage
  {
    if email == "" || password == "" then Some(FillInMessage) else None
  }

  /** The sign-in call's arguments. */
  datatype SignIn = SignIn(email: string, password: string)

  class Form {
    var email: string
    var password: string
    var showPassword: bool
    var loading: bool
    var error: string
    /** The sign-in calls made so far, in order. */
    var signIns: seq<SignIn>
    /** How many times `onSuccess` was called. */
    var successes: nat

    constructor ()
      ensures email == "" && password == ""
      ensures !showPassword && !loading && error == ""
      ensures signIns == [] && successes == 0
    {
      email, password := "", "";
      showPassword, loading, error := false, false, "";
      signIns, successes := [], 0;
    }

    method SetEmail(s: string)
      modifies this`email
      ensures email == s
    {
      email := s;
    }

    method SetPassword(s: string)
      modifies this`password
      ensures password == s
    {
      password := s;
    }

    /** The eye button next to the password. */
    method TogglePassword()
      modifies this`showPassword
      ensures showPassword == !old(showPassword)
    {
      showPassword := !showPassword;
    }

    /** The synchronous part of `handleSubmit`: the guard, then, when it passes,
        loading on, the error cleared, and the sign-in call issued. */
    method BeginSubmit() returns (started: bool)
      modifies this`error, this`loading, this`signIns
      ensures started <==> email != "" && password != ""
      ensures !started ==> (error == FillInMessage && loading == old(loading) && signIns == old(signIns))
      ensures started ==> (loading && error == "" && signIns == old(signIns) + [SignIn(email, password)])
    {
      var v := ValidationError(email, password);
      if v.Some? {
        error := v.value;
        return false;
      }
      loading := true;
      error := "";
      signIns := signIns + [SignIn(email, password)];
      started := true;
    }

    /** The part of `handleSubmit` after the call settles, `finally` included. */
    method FinishSubmit(outcome: Outcome)
      requires loading && error == ""
      modifies this`error, this`loading, this`successes
      ensures !loading
      ensures error == ErrorAfter(outcome, RejectedFallback, ThrownFallback)
      ensures successes == old(successes) + (if outcome.Succeeded? then 1 else 0)
    {
      match outcome {
        case Succeeded => successes := successes + 1;
        case Rejected(m) => error := StringOr(m, RejectedFallback);
        case Threw(m) => error := StringOr(m, ThrownFallback);
      }
      loading := false;
    }

    /** A whole submission whose sign-in call, if made, settles with `outcome`. */
    method HandleSubmit(outcome: Outcome)
      modifies this`error, this`loading, this`signIns, this`successes
      ensures email == "" || password == "" ==> (error == FillInMessage && loading == old(loading) &&
        signIns == old(signIns) && successes == old(successes))
      ensures email != "" && password != "" ==> (!loading &&
        error == ErrorAfter(outcome, RejectedFallback, ThrownFallback) &&
        signIns == old(signIns) + [SignIn(email, password)] &&
        successes == old(successes) + (if outcome.Succeeded? then 1 else 0))
    {
      var started := BeginSubmit();
      if started {
        FinishSubmit(outcome);
      }
    }
  }
}
