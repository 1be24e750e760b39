/** The outcome of posting a form to the third-party relay, as each form's
    `onSubmit` handles it. The relay call itself is I/O: its result is an input. */
module Relay {
  import opened Wrappers

  /** What `await fetch(...)` and `await res.json()` produced: a reply whose
      `success` is truthy or not, with an optional `message`; or an exception. */
  datatype RelayResult = Replied(success: bool, message: Option<string>) | Threw

  datatype ToastKind = SuccessToast | ErrorToast | WarningToast

  datatype Toast = Toast(kind: ToastKind, text: string)

  const NetworkErrorText := "Network error. Please check your connection and try again."

  predicate Delivered(r: RelayResult) {
    r.Replied? && r.success
  }

  /** What the form does with the relay's answer: whether it switches to its
      "received" view, and the toast it shows. */
  datatype Outcome = Outcome(submitted: bool, toast: Toast)

  /** The `if (data?.success) ... else ...` and `catch` branches of `onSubmit`;
      `data?.message || fallback` shows the relay's message unless it is
      absent or empty. */
  function ReplyOutcome(r: RelayResult, successText: string, fallback: string): (o: Outcome)
    ensures o.submitted <==> Delivered(r)
    ensures o.toast.kind == SuccessToast <==> o.submitted
    ensures o.submitted ==> o.toast.text == successText
    ensures r.Threw? ==> o.toast == Toast(ErrorToast, NetworkErrorText)
    ensures r.Replied? && !r.success && (r.message == None || r.message == Some("")) ==>
      o.toast == Toast(ErrorToast, fallback)
    ensures r.Replied? && !r.success && r.message.Some? && r.message.value != "" ==>
      o.toast == Toast(ErrorToast, r.message.value)
  {
    match r
    case Threw => Outcome(false, Toast(ErrorToast, NetworkErrorText))
    case Replied(success, message) =>
      if success then Outcome(true, Toast(SuccessToast, successText))
      else if message.Some? && message.value != "" then Outcome(false, Toast(ErrorToast, message.value))
      else Outcome(false, Toast(ErrorToast, fallback))
  }
}
