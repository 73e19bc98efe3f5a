/**
 * `NetworkErrorHandler.handleApiResponse`: calls an API up to three times,
 * retrying only errors classified as network errors, waiting 1000·k ms
 * before attempt k + 1, and shows at most one error toast. The k-th call's
 * outcome is the parameter `answer(k)`; the waits and the toast are returned
 * as a trace.
 */
module NetworkErrorHandler {
  import opened Wrappers
  import opened Text

  const RetryAttempts: nat := 3
  const RetryDelay: nat := 1000
  const DefaultErrorMessage: string := "An unexpected error occurred"
  const DefaultContext: string := "API call"

  /** The fields of a thrown error object that the handler reads. */
  datatype ErrorObject = ErrorObject(code: Option<string>, message: Option<string>, name: Option<string>, status: Option<int>)

  /** The `ApiResponse` an API call resolves with. */
  datatype ApiResponse<T> = ApiResponse(response: T, errorMessage: Option<string>, status: bool)

  /** One call of `apiCall`: it resolves, or rejects; `online` is `navigator.onLine` when the error is classified. */
  datatype Attempt<T> = Resolved(reply: ApiResponse<T>, online: bool) | Rejected(error: ErrorObject, online: bool)

  datatype NetworkError = NetworkError(message: string, status: Option<int>, code: Option<string>, isNetworkError: bool)

  datatype Options<T> = Options(showErrorToast: bool, retryOnFailure: bool, fallbackData: Option<T>, errorContext: string)

  datatype Toast = Toast(text: string, durationMs: nat, id: Option<string>)

  /** What `attemptApiCall` settles with, and what it did on the way. */
  datatype Outcome<T> = Outcome(data: Option<T>, error: Option<NetworkError>, calls: nat, waits: seq<nat>)

  /** The full answer of `handleApiResponse`, with the toast it showed. */
  datatype Handled<T> = Handled(data: Option<T>, error: Option<NetworkError>, calls: nat, waits: seq<nat>, toast: Option<Toast>)

  function DefaultOptions<T>(): Options<T> {
    Options(true, true, None, DefaultContext)
  }

  /** `isNetworkError`: offline, or one of the recognised codes, messages or names. */
  predicate IsNetworkError(e: ErrorObject, online: bool) {
    !online
    || e.code == Some("NETWORK_ERROR")
    || (e.message.Some? && Includes(e.message.value, "Network error"))
    || (e.message.Some? && Includes(e.message.value, "cannot connect"))
    || e.name == Some("NetworkError")
    || e.code == Some("ERR_NETWORK")
  }

  /** A resolved reply with `status` false and a non-empty `errorMessage` is thrown as `new Error(errorMessage)`. */
  function Failure<T>(a: Attempt<T>): (e: Option<(ErrorObject, bool)>)
    ensures e.None? <==> a.Resolved? && (a.reply.status || !Truthy(a.reply.errorMessage))
  {
    match a
    case Rejected(err, online) => Some((err, online))
    case Resolved(reply, online) =>
      if !reply.status && Truthy(reply.errorMessage) then
        Some((ErrorObject(None, reply.errorMessage, Some("Error"), None), online))
      else None
  }

  /** The `NetworkError` built in the catch block. */
  function ToNetworkError(e: ErrorObject, online: bool): (n: NetworkError)
    ensures n.isNetworkError == IsNetworkError(e, online)
    ensures n.message == (if Truthy(e.message) then e.message.value else DefaultErrorMessage)
    ensures n.message != ""
  {
    NetworkError(OrDefault(e.message, DefaultErrorMessage), e.status, e.code, IsNetworkError(e, online))
  }

  /** `attemptApiCall(attempt)`. */
  function AttemptApiCall<T>(attempt: nat, answer: nat -> Attempt<T>, opts: Options<T>): (o: Outcome<T>)
    requires 1 <= attempt <= RetryAttempts
    ensures 1 <= o.calls <= RetryAttempts - attempt + 1
    ensures |o.waits| == o.calls - 1
    ensures forall i :: 0 <= i < |o.waits| ==> o.waits[i] == RetryDelay * (attempt + i)
    ensures var last := answer(attempt + o.calls - 1);
      (o.error.None? <==> Failure(last).None?)
      && (o.error.None? ==> o.data == Some(last.reply.response))
      && (o.error.Some? ==> o.data == opts.fallbackData
                            && o.error == Some(ToNetworkError(Failure(last).value.0, Failure(last).value.1)))
    decreases RetryAttempts - attempt
  {
    match Failure(answer(attempt))
    case None => Outcome(Some(answer(attempt).reply.response), None, 1, [])
    case Some(failure) =>
      var err := ToNetworkError(failure.0, failure.1);
      if opts.retryOnFailure && err.isNetworkError && attempt < RetryAttempts then
        var next := AttemptApiCall(attempt + 1, answer, opts);
        Outcome(next.data, next.error, next.calls + 1, [RetryDelay * attempt] + next.waits)
      else
        Outcome(opts.fallbackData, Some(err), 1, [])
  }

  /** A call whose failure lets `attemptApiCall` try again: retries on, and a network error. */
  predicate Retryable<T>(a: Attempt<T>, opts: Options<T>) {
    opts.retryOnFailure && Failure(a).Some? && IsNetworkError(Failure(a).value.0, Failure(a).value.1)
  }

  /** Every call that was followed by another failed with a network error, and retries were enabled. */
  lemma {:induction false} RetriesOnlyAfterNetworkErrors<T>(attempt: nat, answer: nat -> Attempt<T>, opts: Options<T>)
    requires 1 <= attempt <= RetryAttempts
    ensures var o := AttemptApiCall(attempt, answer, opts);
      forall i :: attempt <= i < attempt + o.calls - 1 ==> Retryable(answer(i), opts)
    decreases RetryAttempts - attempt
  {
    var o := AttemptApiCall(attempt, answer, opts);
    if Retryable(answer(attempt), opts) && attempt < RetryAttempts {
      RetriesOnlyAfterNetworkErrors(attempt + 1, answer, opts);
      var next := AttemptApiCall(attempt + 1, answer, opts);
      assert o.calls == next.calls + 1;
      forall i | attempt <= i < attempt + o.calls - 1 ensures Retryable(answer(i), opts) {
        if i > attempt {
          assert attempt + 1 <= i < attempt + 1 + next.calls - 1;
        }
      }
    } else {
      assert o.calls == 1;
    }
  }

  /**
   * Every retryable failure before the last attempt is retried: the calls stop
   * early only at a call that succeeded or whose failure is not retryable.
   */
  lemma {:induction false} RetriesWhenRetryable<T>(attempt: nat, answer: nat -> Attempt<T>, opts: Options<T>)
    requires 1 <= attempt <= RetryAttempts
    ensures var o := AttemptApiCall(attempt, answer, opts);
      o.calls < RetryAttempts - attempt + 1 ==> !Retryable(answer(attempt + o.calls - 1), opts)
    decreases RetryAttempts - attempt
  {
    var o := AttemptApiCall(attempt, answer, opts);
    if Retryable(answer(attempt), opts) && attempt < RetryAttempts {
      RetriesWhenRetryable(attempt + 1, answer, opts);
      var next := AttemptApiCall(attempt + 1, answer, opts);
      assert o.calls == next.calls + 1;
      assert attempt + o.calls - 1 == attempt + 1 + next.calls - 1;
    } else if attempt < RetryAttempts {
      assert o.calls == 1;
    }
  }

  const NetworkToastPrefix: string := "Network connection failed while "
  const NetworkToastSuffix: string := ". Please check your internet connection and try again."
  const FailureToastPrefix: string := "Failed to "

  /**
   * `showErrorToast`: a network error gets the connection message naming the
   * context, shown for 6 s under the shared id "network-error"; any other error
   * gets "Failed to <context>: <message>" for 4 s with no id.
   */
  function ToastFor(error: NetworkError, context: string): (t: Toast)
    ensures error.isNetworkError <==> t.id.Some?
    ensures error.isNetworkError ==> (t.id == Some("network-error") && t.durationMs == 6000
      && |t.text| == |NetworkToastPrefix| + |context| + |NetworkToastSuffix|
      && t.text[..|NetworkToastPrefix|] == NetworkToastPrefix
      && t.text[|NetworkToastPrefix|..|NetworkToastPrefix| + |context|] == context
      && t.text[|NetworkToastPrefix| + |context|..] == NetworkToastSuffix)
    ensures !error.isNetworkError ==> (t.durationMs == 4000
      && |t.text| == |FailureToastPrefix| + |context| + 2 + |error.message|
      && t.text[..|FailureToastPrefix|] == FailureToastPrefix
      && t.text[|FailureToastPrefix|..|FailureToastPrefix| + |context|] == context
      && t.text[|FailureToastPrefix| + |context|..|FailureToastPrefix| + |context| + 2] == ": "
      && t.text[|t.text| - |error.message|..] == error.message)
  {
    if error.isNetworkError then
      Toast(NetworkToastPrefix + context + NetworkToastSuffix, 6000, Some("network-error"))
    else
      Toast(FailureToastPrefix + context + ": " + error.message, 4000, None)
  }

  /** `handleApiResponse`: the attempts from 1, then at most one toast. */
  function HandleApiResponse<T>(answer: nat -> Attempt<T>, opts: Options<T>): (h: Handled<T>)
    ensures 1 <= h.calls <= RetryAttempts
    ensures var o := AttemptApiCall(1, answer, opts);
      h.data == o.data && h.error == o.error && h.calls == o.calls && h.waits == o.waits
    ensures h.toast.Some? <==> opts.showErrorToast && h.error.Some?
    ensures h.toast.Some? ==> h.toast == Some(ToastFor(h.error.value, opts.errorContext))
  {
    var o := AttemptApiCall(1, answer, opts);
    var toast := if opts.showErrorToast && o.error.Some? then Some(ToastFor(o.error.value, opts.errorContext)) else None;
    Handled(o.data, o.error, o.calls, o.waits, toast)
  }

  /** Offline, every error is a network error, whatever the error object says. */
  lemma OfflineIsNetworkError(e: ErrorObject)
    ensures IsNetworkError(e, false)
  {
  }

  /** A first call that succeeds is the only call: its response is the data and no toast is shown. */
  lemma FirstSuccess<T>(answer: nat -> Attempt<T>, opts: Options<T>)
    requires Failure(answer(1)).None?
    ensures var h := HandleApiResponse(answer, opts);
      h.calls == 1 && h.waits == [] && h.error.None? && h.data == Some(answer(1).reply.response) && h.toast.None?
  {
  }

  /** A failure that is not a network error, or retries switched off: one call, fallback data, the error kept. */
  lemma NoRetry<T>(answer: nat -> Attempt<T>, opts: Options<T>)
    requires Failure(answer(1)).Some?
    requires !opts.retryOnFailure || !IsNetworkError(Failure(answer(1)).value.0, Failure(answer(1)).value.1)
    ensures var h := HandleApiResponse(answer, opts);
      h.calls == 1 && h.data == opts.fallbackData && h.error.Some? && h.waits == []
  {
  }

  /** Three network failures in a row: three calls, waits of 1000 and 2000 ms, then the fallback. */
  lemma ThreeNetworkFailures<T>(answer: nat -> Attempt<T>, opts: Options<T>)
    requires opts.retryOnFailure
    requires forall k :: 1 <= k <= 3 ==> answer(k).Rejected? && !answer(k).online
    ensures var h := HandleApiResponse(answer, opts);
      h.calls == 3 && h.waits == [1000, 2000] && h.data == opts.fallbackData
      && h.error.Some? && h.error.value.isNetworkError
      && (opts.showErrorToast ==> h.toast.Some? && h.toast.value.id == Some("network-error"))
  {
    var h := HandleApiResponse(answer, opts);
    assert answer(1).Rejected? && answer(2).Rejected? && answer(3).Rejected?;
    assert h.calls == 3;
  }

  /** `status` false without an error message is not a failure: the response is returned as data. */
  lemma FalseStatusWithoutMessage<T>(r: T, online: bool, opts: Options<T>)
    ensures var h := HandleApiResponse((k: nat) => Resolved(ApiResponse(r, None, false), online), opts);
      h.error.None? && h.data == Some(r) && h.calls == 1
  {
  }
}
