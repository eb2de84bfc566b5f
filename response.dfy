/**
 * How the script judges the replies of the login and renew endpoints
 * (raw_renew.js:43-44, raw_renew.js:59-62).
 */
module Response {
  import opened Results

  /**
   * The `success` property of a reply body. `data?.success` is `undefined`
   * when the body is missing, is not an object, or has no such property; a
   * present value may be a boolean or something else (a string, a number,
   * `null`), which the strict comparison `=== false` never equates with
   * `false`.
   */
  datatype SuccessField = Absent | Flag(value: bool) | NonBoolean

  /**
   * The parts of an HTTP reply the script reads: the status code, the
   * status text, and the `success` and `message` properties of the body
   * (`message` is None when it is absent or not a string).
   */
  datatype Reply = Reply(status: int, statusText: string, success: SuccessField, message: Option<string>)

  /**
   * The HTTP client's default status check: a reply with a status outside
   * 200-299 rejects the request instead of being returned to the script.
   */
  predicate Delivered(r: Reply) {
    200 <= r.status < 300
  }

  /** `data?.success === false` */
  predicate SignalsFailure(r: Reply): (b: bool)
    ensures b <==> r.success.Flag? && !r.success.value
  {
    r.success == Flag(false)
  }

  /** The login check as written: the login fails when `status !== 200 || data?.success === false`. */
  predicate LoginRejected(r: Reply): (b: bool)
    ensures !Delivered(r) ==> b
    ensures !b ==> r.status == 200 && !(r.success.Flag? && !r.success.value)
  {
    r.status != 200 || SignalsFailure(r)
  }

  /** The renew check as written: the renewal succeeds when `status === 200 && data?.success !== false`. */
  predicate RenewAccepted(r: Reply): (b: bool)
    ensures b ==> Delivered(r)
    ensures b <==> r.status == 200 && (r.success.Absent? || r.success.NonBoolean? || r.success == Flag(true))
  {
    r.status == 200 && !SignalsFailure(r)
  }

  /**
   * A reply is accepted exactly when its status is 200 and its body does not
   * carry `success: false`; an absent or non-boolean `success` counts as
   * success.
   */
  lemma AcceptedCases(r: Reply)
    ensures RenewAccepted(r) <==>
      r.status == 200 && (r.success == Absent || r.success == Flag(true) || r.success == NonBoolean)
  {
  }

  /** Login and renew apply the same rule: a login is rejected exactly when a renewal would not be accepted. */
  lemma SameRule(r: Reply)
    ensures LoginRejected(r) <==> !RenewAccepted(r)
  {
  }

  /** `x || fallback` on an optional string: the empty string and a missing value are falsy. */
  function OrElse(x: Option<string>, fallback: string): (s: string)
    ensures x.Some? && x.value != "" ==> s == x.value
    ensures x.None? || x.value == "" ==> s == fallback
  {
    match x
    case Some(m) => if m != "" then m else fallback
    case None => fallback
  }

  /** `data?.message || statusText`: the reason given when a login or a renewal fails. */
  function FailureReason(r: Reply): (reason: string)
    ensures reason == "" ==> r.statusText == ""
    ensures r.message.Some? && r.message.value != "" ==> reason == r.message.value
    ensures r.message.None? || r.message.value == "" ==> reason == r.statusText
  {
    OrElse(r.message, r.statusText)
  }

  /** `data?.message || ''`: the text logged after a successful renewal. */
  function SuccessMessage(r: Reply): (m: string)
    ensures r.message.Some? ==> m == r.message.value
    ensures r.message.None? ==> m == ""
  {
    OrElse(r.message, "")
  }
}
