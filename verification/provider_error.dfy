/** Classification of backend failures: a retry decision, and a
    caller-facing (message, status) pair. For an `Error` the message is
    generic and never forwards the backend's own text; any other thrown
    value is passed on as its string form. */
module ProviderError {
  import opened Wrappers
  import opened Text

  /** What a backend call can throw. `NonError` is any thrown value that is
      not an `Error` instance, carried with its `String(value)` form.
      `ErrorValue` is an `Error`; its `status` is `Some` exactly when the
      object has a numeric `status` property. */
  datatype Thrown = NonError(text: string) | ErrorValue(status: Option<int>)

  datatype ProviderErrorDetails = ProviderErrorDetails(message: string, status: int)

  /** Status used when a failure carries no status code ("bad gateway"). */
  const DefaultStatus: int := 502

  /** Status codes that signal a transient, capacity-related failure. */
  const RetryableStatusCodes: set<int> := {429, 402, 503}

  /** The fixed message table, `None` for codes outside it. */
  function StatusMessage(code: int): Option<string>
  {
    if code == 400 then Some("Bad request — the provider rejected the request parameters")
    else if code == 401 then Some("Authentication failed — invalid API key for this provider")
    else if code == 402 then Some("Payment required — provider quota or credits exhausted")
    else if code == 403 then Some("Access denied — your API key lacks permission for this model")
    else if code == 404 then Some("Model not found — the requested model does not exist on this provider")
    else if code == 429 then Some("Rate limit exceeded — too many requests, try again later")
    else if code == 500 then Some("Provider internal error — the upstream service failed")
    else if code == 503 then Some("Provider unavailable — the upstream service is temporarily down")
    else None
  }

  function GenericMessage(code: int): string
  {
    "Provider error (" + IntToString(code) + ")"
  }

  /** The message a status code is reported with: its table entry, else
      the generic one naming the code. */
  function FriendlyMessage(code: int): (m: string)
    ensures StatusMessage(code).Some? ==> m == StatusMessage(code).value
    ensures StatusMessage(code).None? ==> m == GenericMessage(code)
  {
    StatusMessage(code).GetOr(GenericMessage(code))
  }

  function ExtractProviderError(e: Thrown): (d: ProviderErrorDetails)
    ensures e.NonError? ==> d == ProviderErrorDetails(e.text, DefaultStatus)
    ensures e.ErrorValue? && e.status.None? ==> d.status == DefaultStatus
    ensures e.ErrorValue? && e.status.Some? ==> d.status == e.status.value
    ensures e.ErrorValue? ==> d.message == FriendlyMessage(d.status)
  {
    match e
    case NonError(text) => ProviderErrorDetails(text, DefaultStatus)
    case ErrorValue(status) =>
      var code := status.GetOr(DefaultStatus);
      ProviderErrorDetails(FriendlyMessage(code), code)
  }

  predicate IsRetryableError(e: Thrown)
  {
    match e
    case NonError(_) => false
    case ErrorValue(status) => status.Some? && status.value in RetryableStatusCodes
  }

  /** Retryable exactly for `Error`s whose own status is 429, 402 or 503;
      every other recognised code, including 500, is terminal. */
  lemma {:induction false} RetryableCodes(e: Thrown)
    ensures IsRetryableError(e) <==> e == ErrorValue(Some(429)) || e == ErrorValue(Some(402)) || e == ErrorValue(Some(503))
    ensures e.ErrorValue? && e.status.Some? && e.status.value in {400, 401, 403, 404, 500} ==> !IsRetryableError(e)
  {
  }

  /** The two outputs are independent: a status-less `Error` is reported
      as 502 with the generic message (502 has no table entry) yet is not
      retryable, while an `Error` that really carries 502 is reported
      identically and is not retryable either. */
  lemma {:induction false} StatuslessErrorIsTerminalBadGateway()
    ensures ExtractProviderError(ErrorValue(None)) == ProviderErrorDetails("Provider error (502)", 502)
    ensures ExtractProviderError(ErrorValue(Some(502))) == ExtractProviderError(ErrorValue(None))
    ensures !IsRetryableError(ErrorValue(None)) && !IsRetryableError(ErrorValue(Some(502)))
  {
    assert NatToString(502) == "502" by {
      assert NatToString(50) == "50" by {
        assert NatToString(5) == "5";
      }
    }
  }

  /** For `Error` values the caller-facing details depend on the status
      code alone: the backend's own error text never reaches the caller. */
  lemma {:induction false} DetailsDependOnStatusOnly(a: Thrown, b: Thrown)
    requires a.ErrorValue? && b.ErrorValue?
    requires a.status.GetOr(DefaultStatus) == b.status.GetOr(DefaultStatus)
    ensures ExtractProviderError(a) == ExtractProviderError(b)
  {
  }

  /** A retryable failure is always reported with its own capacity-related
      status and that status's table message. */
  lemma {:induction false} RetryableReportedWithTableMessage(e: Thrown)
    requires IsRetryableError(e)
    ensures ExtractProviderError(e).status in RetryableStatusCodes
    ensures StatusMessage(ExtractProviderError(e).status).Some?
  {
  }

  /** Distinct codes outside the table get distinct generic messages. */
  lemma {:induction false} GenericMessageInjective(a: int, b: int)
    requires GenericMessage(a) == GenericMessage(b)
    ensures a == b
  {
    var p := "Provider error (";
    var sa := IntToString(a);
    var sb := IntToString(b);
    assert GenericMessage(a) == p + sa + ")";
    assert sa == GenericMessage(a)[|p|..|GenericMessage(a)| - 1];
    assert sb == GenericMessage(b)[|p|..|GenericMessage(b)| - 1];
    assert sa == sb;
    if a >= 0 && b >= 0 {
      NatToStringInjective(a, b);
    } else if a < 0 && b < 0 {
      assert sa[1..] == sb[1..];
      NatToStringInjective(-a, -b);
    }
  }
}
