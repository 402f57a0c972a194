/**
 * The retry policy around `query_single_turn`: up to five attempts, the first
 * attempt that returns a response wins, and exhausting them all yields no
 * response (`RetryError`, which the caller turns into `None`).
 */
module Client {
  import opened Wrappers
  import opened Envelope
  import opened Environment

  /** `stop_after_attempt(5)`. */
  const MaxAttempts: nat := 5

  /** The response (or none) and how many calls to the endpoint were made. */
  datatype Attempted = Attempted(response: Option<Response>, calls: nat)

  /** Attempts `k`, `k + 1`, ... of the same payload until one answers or the attempts run out. */
  function RetryFrom(endpoint: (Payload, nat) -> Option<Response>, payload: Payload, k: nat): (r: Attempted)
    requires k < MaxAttempts
    ensures k < r.calls <= MaxAttempts
    ensures r.response.Some? ==> r.response == endpoint(payload, r.calls - 1)
    ensures r.response.Some? ==> forall j :: k <= j < r.calls - 1 ==> endpoint(payload, j).None?
    ensures r.response.None? ==> r.calls == MaxAttempts
    ensures r.response.None? ==> forall j :: k <= j < MaxAttempts ==> endpoint(payload, j).None?
    decreases MaxAttempts - k
  {
    var reply := endpoint(payload, k);
    if reply.Some? then Attempted(reply, k + 1)
    else if k + 1 == MaxAttempts then Attempted(None, MaxAttempts)
    else RetryFrom(endpoint, payload, k + 1)
  }

  /** When some attempt answers, the first one that does decides the response, after exactly that many calls. */
  lemma RetryOutcome(endpoint: (Payload, nat) -> Option<Response>, payload: Payload, first: nat)
    requires first < MaxAttempts && endpoint(payload, first).Some?
    requires forall j :: 0 <= j < first ==> endpoint(payload, j).None?
    ensures RetryFrom(endpoint, payload, 0) == Attempted(endpoint(payload, first), first + 1)
  {
  }

  /** The retried call: the same payload is posted again after each failed attempt. */
  method QueryWithRetry(endpoint: (Payload, nat) -> Option<Response>, payload: Payload)
    returns (response: Option<Response>, calls: nat)
    ensures Attempted(response, calls) == RetryFrom(endpoint, payload, 0)
  {
    var k := 0;
    while true
      invariant k < MaxAttempts
      invariant RetryFrom(endpoint, payload, k) == RetryFrom(endpoint, payload, 0)
      decreases MaxAttempts - k
    {
      var reply := endpoint(payload, k);
      if reply.Some? {
        return reply, k + 1;
      }
      if k + 1 == MaxAttempts {
        return None, MaxAttempts;
      }
      k := k + 1;
    }
  }
}
