/**
 vcpRoundTripper.RoundTrip of clients/google-proxy-client/client.go: a retry
 loop that owns every response it obtains.  Responses, request bodies and
 headers are heap objects, so that closing twice, leaking and sharing a header
 between attempts are all visible.
 */
module RoundTripper {
  import opened Common

  /** What one inner attempt comes back with; error types and MIME parsing are abstracted to flags. */
  datatype Outcome =
    | Reply(status: int, json: bool)
    | Failure(transient: bool, withResponse: bool)

  const RETRY_STATUSES := {403, 429, 500, 503, 504}

  /** The loop goes on after this outcome. */
  predicate Retryable(o: Outcome) {
    match o
    case Reply(status, json) => status in RETRY_STATUSES || (status != 204 && !json)
    case Failure(transient, _) => transient
  }

  datatype Error = NoError | ReadFailed | Cancelled | AttemptFailed(attempt: nat)

  class Response {
    const attempt: nat
    var closes: nat

    constructor (attempt: nat)
      ensures this.attempt == attempt && closes == 0
    {
      this.attempt, closes := attempt, 0;
    }

    method Close()
      modifies this
      ensures closes == old(closes) + 1
    {
      closes := closes + 1;
    }
  }

  type Fields = map<string, seq<string>>

  function Values(h: Fields, key: string): seq<string> {
    if key in h then h[key] else []
  }

  const AUTHORIZATION := "Authorization"
  const CORRELATION := "X-Correlation-Id"

  class Header {
    var fields: Fields

    constructor (fields: Fields)
      ensures this.fields == fields
    {
      this.fields := fields;
    }

    method Clone() returns (h: Header)
      ensures fresh(h) && h.fields == fields
    {
      h := new Header(fields);
    }

    method Add(key: string, value: string)
      modifies this
      ensures fields == old(fields)[key := Values(old(fields), key) + [value]]
    {
      fields := fields[key := Values(fields, key) + [value]];
    }

    method Set(key: string, value: string)
      modifies this
      ensures fields == old(fields)[key := [value]]
    {
      fields := fields[key := [value]];
    }
  }

  class RequestBody {
    const bytes: seq<bv8>
    var closes: nat

    constructor (bytes: seq<bv8>)
      ensures this.bytes == bytes && closes == 0
    {
      this.bytes, closes := bytes, 0;
    }
  }

  class Request {
    const header: Header
    const body: RequestBody?
    const correlation: Option<string>

    constructor (header: Header, body: RequestBody?, correlation: Option<string>)
      ensures this.header == header && this.body == body && this.correlation == correlation
    {
      this.header, this.body, this.correlation := header, body, correlation;
    }
  }

  /** A request as the inner transport receives it. */
  datatype Sent = Sent(fields: Fields, body: Option<seq<bv8>>)

  /** Header.Get sees no value. */
  predicate Blank(values: seq<string>) {
    values == [] || values[0] == ""
  }

  /**
   One Authorization value more than the caller's request, the context's correlation ID where the request has
   none, and nothing else changed.
   */
  ghost predicate Stamped(sent: Sent, fields: Fields, body: Option<seq<bv8>>, jwt: string,
                          correlation: Option<string>)
  {
    && sent.body == body
    && Values(sent.fields, "Authorization") == Values(fields, "Authorization") + [jwt]
    && (forall key :: key != "Authorization" && key != "X-Correlation-Id" ==>
          Values(sent.fields, key) == Values(fields, key))
    && Values(sent.fields, "X-Correlation-Id")
       == if Blank(Values(fields, "X-Correlation-Id")) && correlation.Some? then [correlation.value]
          else Values(fields, "X-Correlation-Id")
  }

  method Prepare(r: Request, body: Option<seq<bv8>>, jwt: string) returns (sent: Sent)
    ensures Stamped(sent, r.header.fields, body, jwt, r.correlation)
  {
    var header := r.header.Clone();
    header.Add(AUTHORIZATION, jwt);
    if Blank(Values(header.fields, CORRELATION)) {
      if r.correlation.Some? {
        header.Set(CORRELATION, r.correlation.value);
      }
    }
    sent := Sent(header.fields, body);
  }

  /** Every response obtained is closed exactly once, except the one handed to the caller, which is open. */
  ghost predicate OwnedLinearly(obtained: seq<Response>, returned: Response?)
    reads set k | 0 <= k < |obtained| :: obtained[k]
  {
    && (forall i, j :: 0 <= i < j < |obtained| ==> obtained[i] != obtained[j])
    && (forall k :: 0 <= k < |obtained| ==> obtained[k].closes == if obtained[k] == returned then 0 else 1)
    && (returned != null ==> returned in obtained)
  }

  /** The loop stops at the first terminal outcome, at a cancellation, or when the attempts are used up. */
  ghost predicate StopsAt(script: nat -> Outcome, cancelled: nat -> bool, maxRetries: int, attempts: nat) {
    && (forall i: nat :: i < attempts ==> !cancelled(i) && i < maxRetries)
    && (forall i: nat :: i + 1 < attempts ==> Retryable(script(i)))
    && (attempts < maxRetries && !cancelled(attempts) ==> attempts > 0 && !Retryable(script(attempts - 1)))
  }

  /** The context was found cancelled although another attempt was due. */
  ghost predicate EndsCancelled(script: nat -> Outcome, cancelled: nat -> bool, maxRetries: int, attempts: nat) {
    attempts < maxRetries && cancelled(attempts) && (attempts > 0 ==> Retryable(script(attempts - 1)))
  }

  /** What the loop holds after n attempts: the outcome of the last one. */
  ghost predicate HoldsLast(script: nat -> Outcome, n: nat, response: Option<nat>, err: Error) {
    if n == 0 then response == None && err == NoError
    else
      var last := script(n - 1);
      && response == (if last.Reply? || last.withResponse then Some(n - 1) else None)
      && err == if last.Reply? then NoError else AttemptFailed(n - 1)
  }

  /** First terminal outcome, else last outcome, unless cancelled. */
  ghost predicate Concludes(script: nat -> Outcome, cancelled: nat -> bool, maxRetries: int,
                            attempts: nat, response: Option<nat>, err: Error) {
    && StopsAt(script, cancelled, maxRetries, attempts)
    && if EndsCancelled(script, cancelled, maxRetries, attempts) then response == None && err == Cancelled
       else HoldsLast(script, attempts, response, err)
  }

  /** The attempt a held response came from. */
  function Origin(r: Response?): Option<nat> {
    if r == null then None else Some(r.attempt)
  }

  method CloseHeld(response: Response?, ghost obtained: seq<Response>)
    requires OwnedLinearly(obtained, response)
    modifies response
    ensures OwnedLinearly(obtained, null)
  {
    if response != null {
      response.Close();
    }
  }

  /** One attempt of the inner transport. */
  method Attempt(o: Outcome, attempt: nat, ghost obtained: seq<Response>)
    returns (response: Response?, err: Error, ghost obtained': seq<Response>)
    requires OwnedLinearly(obtained, null)
    ensures OwnedLinearly(obtained', response) && obtained <= obtained'
    ensures forall k :: |obtained| <= k < |obtained'| ==> fresh(obtained'[k])
    ensures response != null ==> fresh(response)
    ensures Origin(response) == if o.Reply? || o.withResponse then Some(attempt) else None
    ensures err == if o.Reply? then NoError else AttemptFailed(attempt)
  {
    response, err, obtained' := null, NoError, obtained;
    if o.Reply? || o.withResponse {
      response := new Response(attempt);
      obtained' := obtained + [response];
    }
    if o.Failure? {
      err := AttemptFailed(attempt);
    }
  }

  /** Closes what the previous attempt left and makes the next one; the sleep in between is counted by the caller. */
  method Retry(r: Request, body: Option<seq<bv8>>, jwt: string, held: Response?, o: Outcome, attempt: nat,
               ghost obtained: seq<Response>)
    returns (request: Sent, response: Response?, err: Error, ghost obtained': seq<Response>)
    requires OwnedLinearly(obtained, held)
    modifies held
    ensures Stamped(request, r.header.fields, body, jwt, r.correlation)
    ensures OwnedLinearly(obtained', response) && obtained <= obtained'
    ensures forall k :: |obtained| <= k < |obtained'| ==> fresh(obtained'[k])
    ensures response != null ==> fresh(response)
    ensures Origin(response) == if o.Reply? || o.withResponse then Some(attempt) else None
    ensures err == if o.Reply? then NoError else AttemptFailed(attempt)
  {
    CloseHeld(held, obtained);
    request := Prepare(r, body, jwt);
    response, err, obtained' := Attempt(o, attempt, obtained);
  }

  /** Reads the request body once and closes it, whether or not reading succeeds. */
  method TakeBody(body: RequestBody?, readFails: bool) returns (ok: bool, bytes: Option<seq<bv8>>)
    modifies body
    ensures body != null ==> body.closes == old(body.closes) + 1
    ensures ok <==> body == null || !readFails
    ensures bytes == if body != null && ok then Some(body.bytes) else None
  {
    if body == null {
      return true, None;
    }
    body.closes := body.closes + 1;
    if readFails {
      return false, None;
    }
    return true, Some(body.bytes);
  }

  /** The retry loop, once the request body is in memory. */
  method Attempts(r: Request, body: Option<seq<bv8>>, jwt: string, maxRetries: int,
                  script: nat -> Outcome, cancelled: nat -> bool)
    returns (response: Response?, err: Error, sleeps: nat, sent: seq<Sent>, ghost obtained: seq<Response>)
    ensures forall k :: 0 <= k < |obtained| ==> fresh(obtained[k])
    ensures OwnedLinearly(obtained, response)
    ensures forall k :: 0 <= k < |sent| ==> Stamped(sent[k], r.header.fields, body, jwt, r.correlation)
    ensures sleeps == if |sent| == 0 then 0 else |sent| - 1
    ensures Concludes(script, cancelled, maxRetries, |sent|, Origin(response), err)
  {
    response, err, sleeps, sent, obtained := null, NoError, 0, [], [];
    var i := 0;
    while i < maxRetries
      invariant 0 <= i && |sent| == i && (i == 0 || i <= maxRetries)
      invariant sleeps == if i == 0 then 0 else i - 1
      invariant forall k :: 0 <= k < |obtained| ==> fresh(obtained[k])
      invariant response != null ==> fresh(response)
      invariant OwnedLinearly(obtained, response)
      invariant forall k :: 0 <= k < |sent| ==> Stamped(sent[k], r.header.fields, body, jwt, r.correlation)
      invariant forall k: nat :: k < i ==> !cancelled(k) && Retryable(script(k))
      invariant HoldsLast(script, i, Origin(response), err)
    {
      if cancelled(i) {
        CloseHeld(response, obtained);
        response, err := null, Cancelled;
        return;
      }
      if i > 0 {
        sleeps := sleeps + 1;
      }
      var request;
      request, response, err, obtained := Retry(r, body, jwt, response, script(i), i, obtained);
      sent := sent + [request];
      if !Retryable(script(i)) {
        return;
      }
      i := i + 1;
    }
  }

  method RoundTrip(r: Request, jwt: string, maxRetries: int, readFails: bool,
                   script: nat -> Outcome, cancelled: nat -> bool)
    returns (response: Response?, err: Error, sleeps: nat, sent: seq<Sent>, ghost obtained: seq<Response>)
    modifies r.body
    ensures r.body != null ==> r.body.closes == old(r.body.closes) + 1
    ensures forall k :: 0 <= k < |obtained| ==> fresh(obtained[k])
    ensures OwnedLinearly(obtained, response)
    ensures forall k :: 0 <= k < |sent| ==>
              Stamped(sent[k], r.header.fields, if r.body == null then None else Some(r.body.bytes), jwt, r.correlation)
    ensures sleeps == if |sent| == 0 then 0 else |sent| - 1
    ensures if r.body != null && readFails then
              |sent| == 0 && response == null && err == ReadFailed
            else
              Concludes(script, cancelled, maxRetries, |sent|, Origin(response), err)
  {
    var ok, body := TakeBody(r.body, readFails);
    if !ok {
      return null, ReadFailed, 0, [], [];
    }
    response, err, sleeps, sent, obtained := Attempts(r, body, jwt, maxRetries, script, cancelled);
  }

  lemma StopIsUnique(script: nat -> Outcome, cancelled: nat -> bool, maxRetries: int, a: nat, b: nat)
    requires StopsAt(script, cancelled, maxRetries, a) && StopsAt(script, cancelled, maxRetries, b)
    ensures a == b
  {
  }

  /** Outcomes and cancellations determine the number of attempts and everything returned. */
  lemma ConclusionIsUnique(script: nat -> Outcome, cancelled: nat -> bool, maxRetries: int,
                           a: nat, response: Option<nat>, err: Error, b: nat, response': Option<nat>, err': Error)
    requires Concludes(script, cancelled, maxRetries, a, response, err)
    requires Concludes(script, cancelled, maxRetries, b, response', err')
    ensures a == b && response == response' && err == err'
  {
    StopIsUnique(script, cancelled, maxRetries, a, b);
  }

  /** The first reply or error that ends the call is returned, and nothing is sent after it. */
  lemma FirstFinalOutcomeIsReturned(script: nat -> Outcome, cancelled: nat -> bool, maxRetries: int,
                                    attempts: nat, response: Option<nat>, err: Error, i: nat)
    requires Concludes(script, cancelled, maxRetries, attempts, response, err) && i < attempts
    requires match script(i)
             case Reply(status, json) => status == 204 || (json && status !in {403, 429, 500, 503, 504})
             case Failure(transient, _) => !transient
    ensures attempts == i + 1
    ensures script(i).Reply? ==> response == Some(i) && err == NoError
    ensures script(i).Failure? ==>
              err == AttemptFailed(i) && response == if script(i).withResponse then Some(i) else None
  {
    assert !Retryable(script(i));
  }

  /** The five statuses, any other reply without JSON but 204, and transient errors are tried again while it lasts. */
  lemma OtherOutcomesAreTriedAgain(script: nat -> Outcome, cancelled: nat -> bool, maxRetries: int,
                                   attempts: nat, response: Option<nat>, err: Error, i: nat)
    requires Concludes(script, cancelled, maxRetries, attempts, response, err) && i < attempts
    requires match script(i)
             case Reply(status, json) => status in {403, 429, 500, 503, 504} || (!json && status != 204)
             case Failure(transient, _) => transient
    requires i + 1 < maxRetries && !cancelled(i + 1)
    ensures i + 1 < attempts
  {
  }

  /** A cancellation found before an attempt ends the call with neither response nor transport error. */
  lemma CancellationEnds(script: nat -> Outcome, cancelled: nat -> bool, maxRetries: int,
                         attempts: nat, response: Option<nat>, err: Error)
    requires Concludes(script, cancelled, maxRetries, attempts, response, err)
    requires attempts < maxRetries && cancelled(attempts)
    requires attempts > 0 ==> match script(attempts - 1)
                              case Reply(status, json) =>
                                status in {403, 429, 500, 503, 504} || (!json && status != 204)
                              case Failure(transient, _) => transient
    ensures response == None && err == Cancelled
  {
  }

  /**
   An inner transport that returns either a response or an error makes RoundTrip
   do the same, provided there is at least one attempt; with none, it returns neither.
   */
  lemma ExactlyOneIsReturned(script: nat -> Outcome, cancelled: nat -> bool, maxRetries: int,
                             attempts: nat, response: Option<nat>, err: Error)
    requires Concludes(script, cancelled, maxRetries, attempts, response, err)
    requires forall i: nat :: script(i).Failure? ==> !script(i).withResponse
    ensures (response.Some? <==> err == NoError) <==> maxRetries >= 1
  {
    if attempts > 0 { assert !cancelled(0) && 0 < maxRetries; }
  }
}
