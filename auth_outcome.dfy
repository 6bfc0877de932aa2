/** What the authentication client's sign-in or sign-up call comes back with, and
    the error text a form shows afterwards. The call itself is outside this model:
    its outcome is an input. */
module AuthOutcome {
  import opened Optional

  /** The call resolved without an error, resolved with `result.error`, or threw. */
  datatype Outcome =
    | Succeeded
    | Rejected(message: Option<string>)
    | Threw(message: Option<string>)

  const FillInMessage := "Please fill in all fields"

  /** The `error` state after an attempt: cleared before the call and left cleared on
      success; otherwise the outcome's message, or the form's fallback for its kind
      when the message is missing or empty. */
  function ErrorAfter(o: Outcome, rejectedFallback: string, thrownFallback: string): (r: string)
    ensures o.Succeeded? ==> r == ""
    ensures o.Rejected? && o.message.Some? && o.message.value != "" ==> r == o.message.value
    ensures o.Threw? && o.message.Some? && o.message.value != "" ==> r == o.message.value
    ensures o.Rejected? && (o.message.None? || o.message.value == "") ==> r == rejectedFallback
    ensures o.Threw? && (o.message.None? || o.message.value == "") ==> r == thrownFallback
    ensures rejectedFallback != "" && thrownFallback != "" ==> (r == "" <==> o.Succeeded?)
  {
    match o
    case Succeeded => ""
    case Rejected(m) => StringOr(m, rejectedFallback)
    case Threw(m) => StringOr(m, thrownFallback)
  }
}
