// Posting with bounded retries and exponential back-off.
module HttpRetry {

  datatype PostError = ApiError(status: int) | TimedOut | UrlError | OtherError

  datatype PostResult<+R> = Reply(reply: R) | Raised(error: PostError)

  predicate Retryable(e: PostError)
  {
    match e
    case ApiError(status) => status in {408, 409, 429, 500, 502, 503, 504}
    case TimedOut => true
    case UrlError => true
    case OtherError => false
  }

  /** Of HTTP statuses: time-outs, conflicts and rate limits of the client's, and four of the server's. */
  lemma RetryableStatuses(status: int)
    ensures 400 <= status < 500 ==> (Retryable(ApiError(status)) <==> status == 408 || status == 409 || status == 429)
    ensures 500 <= status < 600 ==> (Retryable(ApiError(status)) <==> status == 500 || 502 <= status <= 504)
    ensures status < 400 || 600 <= status ==> !Retryable(ApiError(status))
  {
  }

  function Pow2(n: nat): nat
  {
    if n == 0 then 1 else 2 * Pow2(n - 1)
  }

  lemma {:induction false} Pow2Grows(m: nat, n: nat)
    requires m <= n
    ensures 1 <= Pow2(m) <= Pow2(n)
  {
    if m < n {
      Pow2Grows(m, n - 1);
    } else if n > 0 {
      Pow2Grows(m - 1, n - 1);
    }
  }

  function AtLeastZero(n: int): nat { if n < 0 then 0 else n }

  function NotNegative(x: real): real { if x < 0.0 then 0.0 else x }

  /**
   * post(i) is the outcome of the i-th request. Posting stops at the first success
   * or the first error that is not retryable, or with the last permitted attempt;
   * after k retried failures the time slept is backoff * (2^k - 1).
   */
  method PostWithRetries<R>(maxRetries: int, backoff: real, post: nat -> PostResult<R>)
    returns (result: PostResult<R>, posts: nat, slept: real)
    ensures 1 <= posts <= AtLeastZero(maxRetries) + 1
    ensures result == post(posts - 1)
    ensures forall i: nat | i < posts - 1 :: post(i).Raised? && Retryable(post(i).error)
    ensures result.Raised? ==> !Retryable(result.error) || posts == AtLeastZero(maxRetries) + 1
    ensures slept == NotNegative(backoff) * (Pow2(posts - 1) - 1) as real
  {
    var allowed, delayUnit := AtLeastZero(maxRetries), NotNegative(backoff);
    slept := 0.0;
    posts := 0;
    var power := 1;
    for attempt := 0 to allowed + 1
      invariant posts == attempt <= allowed
      invariant power == Pow2(posts)
      invariant forall i: nat | i < posts :: post(i).Raised? && Retryable(post(i).error)
      invariant slept == delayUnit * (Pow2(posts) - 1) as real
    {
      result := post(attempt);
      posts := posts + 1;
      if result.Reply? || attempt >= allowed || !Retryable(result.error) {
        return;
      }
      var delay := delayUnit * power as real;
      if delay > 0.0 {
        slept := slept + delay;
      }
      power := 2 * power;
      assert delayUnit * (Pow2(posts) - 1) as real
          == delayUnit * (Pow2(posts - 1) - 1) as real + delayUnit * Pow2(posts - 1) as real;
    }
  }

  /** Hence the bound on the whole wait. */
  lemma WaitIsBounded(maxRetries: int, backoff: real, posts: nat)
    requires 1 <= posts <= AtLeastZero(maxRetries) + 1
    ensures NotNegative(backoff) * (Pow2(posts - 1) - 1) as real
         <= NotNegative(backoff) * (Pow2(AtLeastZero(maxRetries)) - 1) as real
  {
    Pow2Grows(posts - 1, AtLeastZero(maxRetries));
    var unit, slept, most := NotNegative(backoff), (Pow2(posts - 1) - 1) as real, (Pow2(AtLeastZero(maxRetries)) - 1) as real;
    assert unit * (most - slept) >= 0.0;
  }
}
