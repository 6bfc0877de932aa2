/** The registration form: four text fields, a password-visibility toggle, and a
    submit handler that validates, calls sign-up, and reports the outcome. */
module RegisterForm {
  import opened Optional
  import opened AuthOutcome

  const MinPasswordLength := 8
  const TooShortMessage := "Password must be at least 8 characters long"
  const RejectedFallback := "Registration failed"
  const ThrownFallback := "Registration failed. Please try again."

  /** The guard chain in front of the sign-up call: the emptiness check first, the
      password length second. `None` lets the call go ahead. */
  function ValidationError(first: string, last: string, email: string, password: string): (r: Option<string>)
    ensures r == Some(FillInMessage) <==> first == "" || last == "" || email == "" || password == ""
    ensures r == Some(TooShortMessage) <==>
      first != "" && last != "" && email != "" && password != "" && |password| < MinPasswordLength
    ensures r.None? <==>
      first != "" && last != "" && email != "" && |password| >= MinPasswordLength
  {
    if first == "" || last == "" || email == "" || password == "" then Some(FillInMessage)
    else if |password| < MinPasswordLength then Some(TooShortMessage)
    else None
  }

  /** The display name sent with the sign-up: first name, one space, last name. */
  function FullName(first: string, last: string): string {
    first + " " + last
  }

  /** The sign-up call's arguments. */
  datatype SignUp = SignUp(email: string, password: string, name: string)

  class Form {
    var firstName: string
    var lastName: string
    var email: string
    var password: string
    var showPassword: bool
    var loading: bool
    var error: string
    /** The sign-up calls made so far, in order. */
    var signUps: seq<SignUp>
    /** How many times `onSuccess` was called. */
    var successes: nat

    constructor ()
      ensures firstName == "" && lastName == "" && email == "" && password == ""
      ensures !showPassword && !loading && error == ""
      ensures signUps == [] && successes == 0
    {
      firstName, lastName, email, password := "", "", "", "";
      showPassword, loading, error := false, false, "";
      signUps, successes := [], 0;
    }

    method SetFirstName(s: string)
      modifies this`firstName
      ensures firstName == s
    {
      firstName := s;
    }

    method SetLastName(s: string)
      modifies this`lastName
      ensures lastName == s
    {
      lastName := s;
    }

    method SetEmail(s: string)
      modifies this`email
      ensures email == s
    {
      email := s;
    }

    method SetPassword(s: string)
      modifies this`password
      ensures password == s
    {
      password := s;
    }

    /** The eye button next to the password. */
    method TogglePassword()
      modifies this`showPassword
      ensures showPassword == !old(showPassword)
    {
      showPassword := !showPassword;
    }

    /** The synchronous part of `handleSubmit`: the guard chain, then, when it passes,
        loading on, the error cleared, and the sign-up call issued. */
    method BeginSubmit() returns (started: bool)
      modifies this`error, this`loading, this`signUps
      ensures started <==> ValidationError(firstName, lastName, email, password).None?
      ensures !started ==> (error == ValidationError(firstName, lastName, email, password).value &&
        loading == old(loading) && signUps == old(signUps))
      ensures started ==> (loading && error == "" &&
        signUps == old(signUps) + [SignUp(email, password, FullName(firstName, lastName))])
    {
      var v := ValidationError(firstName, lastName, email, password);
      if v.Some? {
        error := v.value;
        return false;
      }
      loading := true;
      error := "";
      signUps := signUps + [SignUp(email, password, FullName(firstName, lastName))];
      started := true;
    }

    /** The part of `handleSubmit` after the call settles, `finally` included. */
    method FinishSubmit(outcome: Outcome)
      requires loading && error == ""
      modifies this`error, this`loading, this`successes
      ensures !loading
      ensures error == ErrorAfter(outcome, RejectedFallback, ThrownFallback)
      ensures successes == old(successes) + (if outcome.Succeeded? then 1 else 0)
    {
      match outcome {
        case Succeeded => successes := successes + 1;
        case Rejected(m) => error := StringOr(m, RejectedFallback);
        case Threw(m) => error := StringOr(m, ThrownFallback);
      }
      loading := false;
    }

    /** A whole submission whose sign-up call, if made, settles with `outcome`. */
    method HandleSubmit(outcome: Outcome)
      modifies this`error, this`loading, this`signUps, this`successes
      ensures var v := ValidationError(firstName, lastName, email, password);
        (v.Some? ==> (error == v.value && loading == old(loading) &&
           signUps == old(signUps) && successes == old(successes))) &&
        (v.None? ==> (!loading && error == ErrorAfter(outcome, RejectedFallback, ThrownFallback) &&
           signUps == old(signUps) + [SignUp(email, password, FullName(firstName, lastName))] &&
           successes == old(successes) + (if outcome.Succeeded? then 1 else 0)))
    {
      var started := BeginSubmit();
      if started {
        FinishSubmit(outcome);
      }
    }
  }
}
