/** `send_message` of the reminder service and of the sheet scanner: up to
    `retries` POST attempts, stopping at the first HTTP 200. The network is
    abstracted as `respond(k)`, the outcome of the k-th attempt (counting
    from 0). */
module Retry {

  /** The outcome of one POST: a response with a status code, or a
      `RequestException` (time-out, refused connection, ...). */
  datatype Response = Status(code: int) | RequestFailed

  predicate Delivered(r: Response) {
    r == Status(200)
  }

  /** The number of attempts made when no attempt succeeds. */
  function MaxAttempts(retries: int): nat {
    if retries > 0 then retries else 0
  }

  /** Returns whether the message got through and how many POSTs were made.
      It gets through exactly when one of the first `retries` attempts
      answers 200; it then stops right after the first such attempt, and
      otherwise makes all `retries` attempts (none when `retries <= 0`). */
  method SendMessage(retries: int, respond: nat -> Response) returns (sent: bool, posts: nat)
    ensures posts <= MaxAttempts(retries)
    ensures sent <==> exists k: nat :: k < retries && Delivered(respond(k))
    ensures sent ==> posts >= 1 && Delivered(respond(posts - 1))
    ensures forall k: nat :: k < posts - (if sent then 1 else 0) ==> !Delivered(respond(k))
    ensures !sent ==> posts == MaxAttempts(retries)
  {
    var attempt: nat := 0;
    while attempt < retries
      invariant attempt <= MaxAttempts(retries)
      invariant forall k: nat :: k < attempt ==> !Delivered(respond(k))
    {
      var response := respond(attempt);
      if response == Status(200) {
        return true, attempt + 1;
      }
      attempt := attempt + 1;
    }
    return false, attempt;
  }
}
