/** The browser's request loop, and what it means for a submission that the server answers
    idempotently. */
module Client {
  import opened Basics
  import Documents
  import Queue
  import QueueInvariant
  import opened QueueIdempotency

  /** What one attempt meets. `Answered` carries the parsed body, None if it cannot be read;
      `timedOut` tells the client's own deadline from other failures; `aborted` is the
      caller's signal when the failure is handled. */
  datatype Exchange<T> =
    | HttpReply(status: nat, body: Option<T>, timedOut: bool, aborted: bool)
    | Lost(timedOut: bool, aborted: bool)

  datatype Response<T> = Value(value: T) | NoContent | Failed(error: ApiError)

  datatype ApiError = HttpError(status: nat) | RequestTimeout | NetworkError

  predicate Successful(status: nat) { 200 <= status < 300 }

  predicate RetryableStatus(status: nat) { status == 408 || status == 429 || status >= 500 }

  /** An attempt without a usable answer: nothing arrived, or a success without a readable body. */
  predicate Broken<T>(x: Exchange<T>) {
    x.Lost? || (Successful(x.status) && x.status != 204 && x.body.None?)
  }

  /** What the caller gets if the attempt is the last. */
  function Outcome<T>(x: Exchange<T>): (r: Response<T>) {
    if Broken(x) then Failed(if x.timedOut && !x.aborted then RequestTimeout else NetworkError)
    else if !Successful(x.status) then Failed(HttpError(x.status))
    else if x.status == 204 then NoContent
    else Value(x.body.value)
  }

  /** The attempt may be repeated. */
  predicate Repeatable<T>(x: Exchange<T>) {
    if Broken(x) then !x.aborted else !Successful(x.status) && RetryableStatus(x.status)
  }

  function Limit(idempotent: bool): (n: nat) { if idempotent then 3 else 1 }

  /** `apiRequest`: the first attempt that may not be repeated, or the last, decides. A request
      without the idempotent policy is sent once. */
  method ApiRequest<T>(idempotent: bool, exchanges: seq<Exchange<T>>) returns (r: Response<T>, sent: nat, unauthorized: bool)
    requires |exchanges| >= Limit(idempotent)
    ensures 1 <= sent <= if idempotent then 3 else 1
    ensures forall i | 0 <= i < sent - 1 ::
      var x := exchanges[i];
      if x.Lost? || (200 <= x.status < 300 && x.status != 204 && x.body.None?) then !x.aborted
      else x.status == 408 || x.status == 429 || x.status >= 500
    ensures sent < (if idempotent then 3 else 1) ==>
      var x := exchanges[sent - 1];
      if x.Lost? || (200 <= x.status < 300 && x.status != 204 && x.body.None?) then x.aborted
      else x.status != 408 && x.status != 429 && x.status < 500
    ensures
      var x := exchanges[sent - 1];
      r == if x.Lost? || (200 <= x.status < 300 && x.status != 204 && x.body.None?)
           then Failed(if x.timedOut && !x.aborted then RequestTimeout else NetworkError)
           else if x.status == 204 then NoContent
           else if 200 <= x.status < 300 then Value(x.body.value)
           else Failed(HttpError(x.status))
    ensures r == Outcome(exchanges[sent - 1])
    ensures unauthorized <==> exists i :: 0 <= i < sent && exchanges[i].HttpReply? && exchanges[i].status == 401
  {
    var attempts := if idempotent then 3 else 1;
    var finalError := NetworkError;
    unauthorized := false;
    sent := 0;
    while sent < attempts
      invariant 0 <= sent <= attempts
      invariant forall i | 0 <= i < sent :: Repeatable(exchanges[i])
      invariant sent < attempts || Failed(finalError) == Outcome(exchanges[sent - 1])
      invariant sent == 0 || sent < attempts
      invariant unauthorized <==> exists i :: 0 <= i < sent && exchanges[i].HttpReply? && exchanges[i].status == 401
      decreases attempts - sent
    {
      var x := exchanges[sent];
      sent := sent + 1;
      var caught := x.Lost?;
      if x.HttpReply? {
        if 200 <= x.status < 300 {
          if x.status == 204 { return NoContent, sent, unauthorized; }
          if x.body.Some? { return Value(x.body.value), sent, unauthorized; }
          caught := true;
        } else {
          if x.status == 401 { unauthorized := true; }
          finalError := HttpError(x.status);
          if sent == attempts || !RetryableStatus(x.status) { return Failed(finalError), sent, unauthorized; }
        }
      }
      if caught {
        finalError := if x.timedOut && !x.aborted then RequestTimeout else NetworkError;
        if sent == attempts || x.aborted { return Failed(finalError), sent, unauthorized; }
      }
    }
    r := Failed(finalError);
  }

  /** The exchanges a client sees against the server: a success with a body is the server's
      own reply to that delivery. Requests and replies may be lost. */
  ghost predicate Truthful(s: Queue.State, q: Request, attempts: seq<Attempt>, exchanges: seq<Exchange<Documents.Id>>) {
    && |attempts| == |exchanges|
    && forall i | 0 <= i < |exchanges| && Outcome(exchanges[i]).Value? ::
         attempts[i].delivered && Reply(TryAll(s, q, attempts[..i]), q, attempts[i]) == Ok(exchanges[i].body.value)
  }

  /** When the loop returns an operation, it is the one operation every answered delivery of
      the submission names, before or after, and it has the submitted body. */
  lemma {:induction false} SubmissionNamesOneOperation(
    s: Queue.State, q: Request, attempts: seq<Attempt>, exchanges: seq<Exchange<Documents.Id>>, sent: nat, k: nat)
    requires QueueInvariant.Base(s) && NoClear(attempts, q.owner) && Truthful(s, q, attempts, exchanges)
    requires 1 <= sent <= |exchanges| && Outcome(exchanges[sent - 1]).Value?
    requires k < |attempts| && attempts[k].delivered && Reply(TryAll(s, q, attempts[..k]), q, attempts[k]).Ok?
    ensures Reply(TryAll(s, q, attempts[..k]), q, attempts[k]) == Ok(Outcome(exchanges[sent - 1]).value)
    ensures Answered(TryAll(s, q, attempts), q, Outcome(exchanges[sent - 1]).value)
  {
    var n := sent - 1;
    var x := Outcome(exchanges[n]).value;
    if k < n { ManyDeliveriesOneOperation(s, q, attempts, k, n); }
    if n < k { ManyDeliveriesOneOperation(s, q, attempts, n, k); }
    StaysAnswered(s, q, attempts, n, x);
  }

  lemma {:induction false} StaysAnswered(s: Queue.State, q: Request, attempts: seq<Attempt>, n: nat, x: Documents.Id)
    requires QueueInvariant.Base(s) && NoClear(attempts, q.owner) && n < |attempts|
    requires attempts[n].delivered && Reply(TryAll(s, q, attempts[..n]), q, attempts[n]) == Ok(x)
    ensures Answered(TryAll(s, q, attempts), q, x)
  {
    AnsweredAt(s, q, attempts, n, x);
    AnsweredAlong(s, q, attempts, x, n + 1, |attempts|);
    assert attempts[..|attempts|] == attempts;
  }
}
