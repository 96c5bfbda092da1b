/**
 * The chat-completion client (gdrive_summarizer/llm_client.py): the bounded
 * retry loop `_request_with_retry`, the text request `chat` and the vision
 * request `describe_image` with its fallback chain of models.
 *
 * The network is an oracle: `net(payload, k)` is what the k-th request of
 * the run (counted from 0 over the whole run) receives when it carries
 * `payload`. Sleeping is not performed; each back-off is recorded instead.
 */
module LlmClient {
  import opened Wrappers
  import opened Strings
  import opened Config

  datatype Role = System | User

  /** One typed part of a multimodal message. */
  datatype Part = TextPart(text: string) | ImageUrlPart(url: string)

  /** A message's content: a plain string, or a list of typed parts. */
  datatype Content = Plain(text: string) | Multimodal(parts: seq<Part>)

  datatype Message = Message(role: Role, content: Content)

  /** The JSON body of one request. */
  datatype Payload = Payload(model: string, messages: seq<Message>)

  /**
   * The part of a JSON reply the client reads: `choices[0].message.content`
   * ("" when absent or empty) and `error.message` ("" when absent).
   */
  datatype Body = Body(content: string, errorMessage: string)

  /** An HTTP response; `json` is None when the body is not valid JSON. */
  datatype Response = Response(status: int, json: Option<Body>, text: string)

  /** What one `requests.post` yields: a response, or a raised transport error. */
  datatype Delivery = Delivered(response: Response) | TransportFailed

  type Network = (Payload, nat) -> Delivery

  /** MAX_RETRIES and RETRY_DELAY as the client reads them. */
  datatype RetryPolicy = RetryPolicy(maxRetries: int, retryDelay: real)

  /** The exceptions that leave the client. */
  datatype Failure =
    | ContentBlocked(model: string, detail: string)
      // ContentBlockedError: HTTP 403
    | RetriesExhausted(maxRetries: int, lastStatus: Option<int>, lastBody: Option<string>)
      // RuntimeError after the last attempt; None prints as '?' and 'N/A'
    | HttpStatusError(status: int)
      // requests.HTTPError from raise_for_status
    | MalformedJson
      // a status-200 body that is not JSON
    | NegativeSleep(seconds: real)
      // ValueError from time.sleep
    | Transport
      // an exception raised by requests.post itself
    | AllVisionModelsFailed(last: Option<Failure>)
      // RuntimeError at the end of describe_image

  /** The failures that are instances of RuntimeError. */
  predicate IsRuntimeError(f: Failure) {
    f.RetriesExhausted? || f.AllVisionModelsFailed?
  }

  /** The failures after which describe_image tries the next model. */
  predicate SkipsToNextModel(f: Failure) {
    f.ContentBlocked? || IsRuntimeError(f)
  }

  datatype Outcome = Reply(text: string) | Raised(error: Failure)

  /** Statuses answered by a linear back-off: 429, 402 and 503. */
  predicate IsRateLimited(status: int) {
    status == 429 || status == 402 || status == 503
  }

  /** `raise_for_status` raises exactly for client and server errors. */
  predicate IsHttpError(status: int) {
    400 <= status < 600
  }

  /** The truth value of a `requests.Response`, which is its `ok` property. */
  predicate IsTruthy(r: Response) {
    !IsHttpError(r.status)
  }

  /** One recorded back-off: the attempt it followed and the seconds waited. */
  datatype Backoff = Backoff(attempt: nat, seconds: real)

  /** What one pass of the retry loop decides. */
  datatype Step = Return(reply: string) | Sleep(seconds: real) | Raise(error: Failure) | Proceed

  /** A step that leaves the loop. */
  predicate Decisive(s: Step) {
    s.Return? || s.Raise?
  }

  /** The text reported for a 403: the JSON error message, else the first 300 characters of the body. */
  function BlockedDetail(r: Response): (detail: string)
    ensures r.json.None? ==> |detail| == (if |r.text| < 300 then |r.text| else 300) && detail <= r.text
    ensures r.json.Some? ==> detail == r.json.value.errorMessage
  {
    if r.json.Some? then r.json.value.errorMessage else Take(r.text, 300)
  }

  /** The decision taken for attempt number `attempt` when the request yields `d`. */
  function Decide(model: string, retryDelay: real, attempt: nat, d: Delivery): (s: Step)
    ensures s.Return? ==> s.reply != []
    ensures s.Sleep? ==> s.seconds == retryDelay * attempt as real && s.seconds >= 0.0
    ensures s.Raise? ==> !IsRuntimeError(s.error)
    ensures s.Raise? && s.error.ContentBlocked? ==> s.error.model == model
    ensures d.TransportFailed? ==> s == Raise(Transport)
  {
    match d
    case TransportFailed => Raise(Transport)
    case Delivered(r) =>
      if r.status == 200 && r.json.None? then Raise(MalformedJson)
      else if r.status == 200 && r.json.value.content != [] then Return(r.json.value.content)
      else if IsRateLimited(r.status) then
        var wait := retryDelay * attempt as real;
        if wait < 0.0 then Raise(NegativeSleep(wait)) else Sleep(wait)
      else if r.status == 403 then Raise(ContentBlocked(model, BlockedDetail(r)))
      else if IsHttpError(r.status) then Raise(HttpStatusError(r.status))
      else Proceed
  }

  /** The number of attempts: `range(1, MAX_RETRIES + 1)` is empty for MAX_RETRIES <= 0. */
  function Attempts(policy: RetryPolicy): nat {
    if policy.maxRetries < 0 then 0 else policy.maxRetries
  }

  /** The decision of attempt `k + 1`, whose request is the run's request number `start + k`. */
  function StepAt(net: Network, start: nat, payload: Payload, policy: RetryPolicy, k: nat): Step {
    Decide(payload.model, policy.retryDelay, k + 1, net(payload, start + k))
  }

  /** The first attempt index at or after `from` whose decision leaves the loop. */
  function FirstDecisive(net: Network, start: nat, payload: Payload, policy: RetryPolicy, from: nat): (r: Option<nat>)
    requires from <= Attempts(policy)
    ensures r.Some? ==> from <= r.value < Attempts(policy) && Decisive(StepAt(net, start, payload, policy, r.value))
    ensures r.Some? ==> forall k :: from <= k < r.value ==> !Decisive(StepAt(net, start, payload, policy, k))
    ensures r.None? ==> forall k :: from <= k < Attempts(policy) ==> !Decisive(StepAt(net, start, payload, policy, k))
    decreases Attempts(policy) - from
  {
    if from == Attempts(policy) then None
    else if Decisive(StepAt(net, start, payload, policy, from)) then Some(from)
    else FirstDecisive(net, start, payload, policy, from + 1)
  }

  /** The first decisive attempt is the one preceded only by attempts that went on. */
  lemma FirstDecisiveIs(net: Network, start: nat, payload: Payload, policy: RetryPolicy, j: nat)
    requires j < Attempts(policy)
    requires forall k :: 0 <= k < j ==> !Decisive(StepAt(net, start, payload, policy, k))
    requires Decisive(StepAt(net, start, payload, policy, j))
    ensures FirstDecisive(net, start, payload, policy, 0) == Some(j)
  {
  }

  /** The back-offs taken during the first `m` attempts. */
  function Backoffs(net: Network, start: nat, payload: Payload, policy: RetryPolicy, m: nat): (bs: seq<Backoff>)
    ensures |bs| <= m
  {
    if m == 0 then []
    else
      Backoffs(net, start, payload, policy, m - 1) +
      match StepAt(net, start, payload, policy, m - 1)
      case Sleep(w) => [Backoff(m, w)]
      case _ => []
  }

  /** `last_resp` after `m` attempts: the response to the last request sent, if any. */
  function LastResponse(net: Network, start: nat, payload: Payload, m: nat): (last: Option<Response>)
    ensures last.Some? ==> m > 0 && net(payload, start + m - 1) == Delivered(last.value)
    ensures m > 0 && net(payload, start + m - 1).Delivered? ==> last == Some(net(payload, start + m - 1).response)
  {
    if m == 0 then None
    else match net(payload, start + m - 1)
      case Delivered(r) => Some(r)
      case TransportFailed => None
  }

  /**
   * The RuntimeError raised when the attempts run out, reporting the last
   * response whenever there is one (see README "Findings" for the source's test).
   */
  function ExhaustedError(policy: RetryPolicy, last: Option<Response>): (f: Failure)
    ensures f.RetriesExhausted? && f.maxRetries == policy.maxRetries
    ensures f.lastStatus.Some? <==> last.Some?
    ensures last.Some? ==> f.lastStatus == Some(last.value.status) && f.lastBody == Some(Take(last.value.text, 500))
  {
    match last
    case None => RetriesExhausted(policy.maxRetries, None, None)
    case Some(r) => RetriesExhausted(policy.maxRetries, Some(r.status), Some(Take(r.text, 500)))
  }

  /**
   * The same error as the source writes it: `last_resp if last_resp` tests the
   * response's truth value, which is false for every 4xx and 5xx response.
   */
  function ExhaustedErrorAsWritten(policy: RetryPolicy, last: Option<Response>): (f: Failure)
    ensures f.RetriesExhausted? && (f.lastStatus.Some? <==> last.Some? && IsTruthy(last.value))
  {
    if last.Some? && IsTruthy(last.value) then
      RetriesExhausted(policy.maxRetries, Some(last.value.status), Some(Take(last.value.text, 500)))
    else RetriesExhausted(policy.maxRetries, None, None)
  }

  /** After three rate-limited answers the source's message carries '?' instead of 429. */
  lemma AsWrittenHidesRateLimitStatus(policy: RetryPolicy, body: string)
    ensures ExhaustedErrorAsWritten(policy, Some(Response(429, None, body))).lastStatus == None
    ensures ExhaustedError(policy, Some(Response(429, None, body))).lastStatus == Some(429)
  {
  }

  /** The outcome of a loop that left at a decisive step. */
  function StepOutcome(s: Step): Outcome
    requires Decisive(s)
  {
    if s.Return? then Reply(s.reply) else Raised(s.error)
  }

  /** What one call of `_request_with_retry` returns or raises, how many requests it sends, and its back-offs. */
  datatype Trace = Trace(outcome: Outcome, sent: nat, backoffs: seq<Backoff>)

  /**
   * The reference behaviour of `_request_with_retry`: the request of the first
   * decisive attempt ends the call; without one, every attempt is used and the
   * exhaustion error is raised.
   */
  function RetryReference(net: Network, start: nat, payload: Payload, policy: RetryPolicy): (t: Trace)
    ensures t.sent <= Attempts(policy) && |t.backoffs| <= t.sent
    ensures t.outcome.Raised? && IsRuntimeError(t.outcome.error) ==>
      t.outcome.error.RetriesExhausted? && t.sent == Attempts(policy)
  {
    var n := Attempts(policy);
    match FirstDecisive(net, start, payload, policy, 0)
    case Some(k) =>
      Trace(StepOutcome(StepAt(net, start, payload, policy, k)), k + 1, Backoffs(net, start, payload, policy, k + 1))
    case None =>
      Trace(Raised(ExhaustedError(policy, LastResponse(net, start, payload, n))), n, Backoffs(net, start, payload, policy, n))
  }

  /**
   * The retry loop from attempt index `k` on, with the back-offs taken and the
   * last response received before it: one attempt at a time.
   */
  function RetryFrom(net: Network, start: nat, payload: Payload, policy: RetryPolicy,
                     k: nat, backoffs: seq<Backoff>, lastResp: Option<Response>): (t: Trace)
    requires k <= Attempts(policy)
    ensures k <= t.sent <= Attempts(policy)
    ensures t.outcome.Raised? ==> !t.outcome.error.AllVisionModelsFailed?
    ensures t.outcome.Raised? && t.outcome.error.ContentBlocked? ==> t.outcome.error.model == payload.model
    decreases Attempts(policy) - k
  {
    if k == Attempts(policy) then Trace(Raised(ExhaustedError(policy, lastResp)), k, backoffs)
    else
      var d := net(payload, start + k);
      var last := if d.Delivered? then Some(d.response) else lastResp;
      match Decide(payload.model, policy.retryDelay, k + 1, d)
      case Return(reply) => Trace(Reply(reply), k + 1, backoffs)
      case Raise(error) => Trace(Raised(error), k + 1, backoffs)
      case Sleep(wait) => RetryFrom(net, start, payload, policy, k + 1, backoffs + [Backoff(k + 1, wait)], last)
      case Proceed => RetryFrom(net, start, payload, policy, k + 1, backoffs, last)
  }

  /** What one call of `_request_with_retry` returns or raises, sends and waits. */
  function RetrySpec(net: Network, start: nat, payload: Payload, policy: RetryPolicy): (t: Trace)
    ensures t.sent <= Attempts(policy)
    ensures t.outcome.Raised? ==> !t.outcome.error.AllVisionModelsFailed?
    ensures t.outcome.Raised? && t.outcome.error.ContentBlocked? ==> t.outcome.error.model == payload.model
  {
    RetryFrom(net, start, payload, policy, 0, [], None)
  }

  /** From any attempt reached without leaving the loop, the step-by-step loop agrees with the reference. */
  lemma {:induction false} RetryFromMatchesReference(net: Network, start: nat, payload: Payload, policy: RetryPolicy, k: nat)
    requires k <= Attempts(policy)
    requires forall j :: 0 <= j < k ==> !Decisive(StepAt(net, start, payload, policy, j))
    ensures RetryFrom(net, start, payload, policy, k, Backoffs(net, start, payload, policy, k), LastResponse(net, start, payload, k))
      == RetryReference(net, start, payload, policy)
    decreases Attempts(policy) - k
  {
    var n := Attempts(policy);
    if k == n {
      assert FirstDecisive(net, start, payload, policy, 0).None?;
    } else {
      var step := StepAt(net, start, payload, policy, k);
      if Decisive(step) {
        FirstDecisiveIs(net, start, payload, policy, k);
      } else {
        assert net(payload, start + k).Delivered?;
        var bs, last := Backoffs(net, start, payload, policy, k), LastResponse(net, start, payload, k);
        assert LastResponse(net, start, payload, k + 1) == Some(net(payload, start + k).response);
        var next := Some(net(payload, start + k).response);
        if step.Sleep? {
          assert Backoffs(net, start, payload, policy, k + 1) == bs + [Backoff(k + 1, step.seconds)];
          assert RetryFrom(net, start, payload, policy, k, bs, last)
            == RetryFrom(net, start, payload, policy, k + 1, bs + [Backoff(k + 1, step.seconds)], next);
        } else {
          assert step.Proceed?;
          assert Backoffs(net, start, payload, policy, k + 1) == bs + [] == bs;
          assert RetryFrom(net, start, payload, policy, k, bs, last)
            == RetryFrom(net, start, payload, policy, k + 1, bs, next);
        }
        RetryFromMatchesReference(net, start, payload, policy, k + 1);
      }
    }
  }

  /** The step-by-step loop and the reference agree on every network, payload and policy. */
  lemma RetryMatchesReference(net: Network, start: nat, payload: Payload, policy: RetryPolicy)
    ensures RetrySpec(net, start, payload, policy) == RetryReference(net, start, payload, policy)
  {
    RetryFromMatchesReference(net, start, payload, policy, 0);
  }

  /**
   * The first attempt whose decision leaves the loop ends the call: its
   * outcome is returned or raised, and no later request is sent.
   */
  lemma RetryEndsAt(net: Network, start: nat, payload: Payload, policy: RetryPolicy, j: nat)
    requires j < Attempts(policy)
    requires forall k :: 0 <= k < j ==> !Decisive(StepAt(net, start, payload, policy, k))
    requires Decisive(StepAt(net, start, payload, policy, j))
    ensures RetrySpec(net, start, payload, policy)
      == Trace(StepOutcome(StepAt(net, start, payload, policy, j)), j + 1, Backoffs(net, start, payload, policy, j))
  {
    RetryMatchesReference(net, start, payload, policy);
    FirstDecisiveIs(net, start, payload, policy, j);
  }

  /** The back-offs of a call are those of the attempts it used. */
  lemma RetryBackoffs(net: Network, start: nat, payload: Payload, policy: RetryPolicy)
    ensures RetrySpec(net, start, payload, policy).backoffs
      == Backoffs(net, start, payload, policy, RetrySpec(net, start, payload, policy).sent)
  {
    RetryMatchesReference(net, start, payload, policy);
  }

  /**
   * `_request_with_retry`: at most MAX_RETRIES requests, numbered 1.., with a
   * linear back-off on 429/402/503, an immediate ContentBlocked on 403 and
   * an exhaustion error when no attempt returns or raises.
   */
  method RequestWithRetry(net: Network, start: nat, payload: Payload, policy: RetryPolicy)
    returns (outcome: Outcome, sent: nat, backoffs: seq<Backoff>)
    ensures Trace(outcome, sent, backoffs) == RetrySpec(net, start, payload, policy)
  {
    var lastResp: Option<Response> := None;
    sent, backoffs := 0, [];
    var attempt := 1;
    while attempt <= policy.maxRetries
      invariant 1 <= attempt && sent == attempt - 1 && sent <= Attempts(policy)
      invariant RetrySpec(net, start, payload, policy) == RetryFrom(net, start, payload, policy, sent, backoffs, lastResp)
      decreases policy.maxRetries - attempt
    {
      var delivery := net(payload, start + sent);
      sent := sent + 1;
      if delivery.Delivered? {
        lastResp := Some(delivery.response);
      }
      var step := Decide(payload.model, policy.retryDelay, attempt, delivery);
      match step {
        case Return(reply) =>
          outcome := Reply(reply);
          return;
        case Raise(error) =>
          outcome := Raised(error);
          return;
        case Sleep(wait) =>
          backoffs := backoffs + [Backoff(attempt, wait)];
        case Proceed =>
      }
      attempt := attempt + 1;
    }
    outcome := Raised(ExhaustedError(policy, lastResp));
  }

  // ---------------------------------------------------------------------
  // Properties of the retry protocol

  /** A status-200 reply with content is returned by the attempt that receives it; nothing more is sent. */
  lemma ReplyReturnedAtOnce(net: Network, start: nat, payload: Payload, policy: RetryPolicy, j: nat, r: Response)
    requires j < Attempts(policy)
    requires forall k :: 0 <= k < j ==> !Decisive(StepAt(net, start, payload, policy, k))
    requires net(payload, start + j) == Delivered(r)
    requires r.status == 200 && r.json.Some? && r.json.value.content != []
    ensures RetrySpec(net, start, payload, policy)
      == Trace(Reply(r.json.value.content), j + 1, Backoffs(net, start, payload, policy, j))
  {
    RetryEndsAt(net, start, payload, policy, j);
  }

  /** A 403 raises ContentBlocked for the requested model at once; nothing more is sent. */
  lemma BlockedRaisedAtOnce(net: Network, start: nat, payload: Payload, policy: RetryPolicy, j: nat, r: Response)
    requires j < Attempts(policy)
    requires forall k :: 0 <= k < j ==> !Decisive(StepAt(net, start, payload, policy, k))
    requires net(payload, start + j) == Delivered(r) && r.status == 403
    ensures RetrySpec(net, start, payload, policy)
      == Trace(Raised(ContentBlocked(payload.model, BlockedDetail(r))), j + 1, Backoffs(net, start, payload, policy, j))
  {
    RetryEndsAt(net, start, payload, policy, j);
  }

  /**
   * Any other client or server error (4xx/5xx but not 402, 403, 429 or 503)
   * makes `raise_for_status` raise on that same attempt: no further request.
   */
  lemma HttpErrorRaisedAtOnce(net: Network, start: nat, payload: Payload, policy: RetryPolicy, j: nat, r: Response)
    requires j < Attempts(policy)
    requires forall k :: 0 <= k < j ==> !Decisive(StepAt(net, start, payload, policy, k))
    requires net(payload, start + j) == Delivered(r)
    requires IsHttpError(r.status) && !IsRateLimited(r.status) && r.status != 403
    ensures RetrySpec(net, start, payload, policy)
      == Trace(Raised(HttpStatusError(r.status)), j + 1, Backoffs(net, start, payload, policy, j))
  {
    RetryEndsAt(net, start, payload, policy, j);
  }

  /**
   * A status-200 reply without content, with or without an embedded error
   * message, neither returns nor sleeps: the loop goes on to the next attempt.
   */
  lemma EmptyReplyUsesAttempt(model: string, retryDelay: real, attempt: nat, r: Response)
    requires r.status == 200 && r.json.Some? && r.json.value.content == []
    ensures Decide(model, retryDelay, attempt, Delivered(r)) == Proceed
  {
  }

  /** The loop sleeps exactly after a 429, 402 or 503, for RETRY_DELAY times the attempt number. */
  lemma SleepOnlyWhenRateLimited(model: string, retryDelay: real, attempt: nat, d: Delivery)
    ensures Decide(model, retryDelay, attempt, d).Sleep?
      <==> d.Delivered? && IsRateLimited(d.response.status) && retryDelay * attempt as real >= 0.0
    ensures Decide(model, retryDelay, attempt, d).Sleep?
      ==> Decide(model, retryDelay, attempt, d).seconds == retryDelay * attempt as real
  {
  }

  /** Attempt `a` (counting from 1) decided to sleep. */
  predicate SleepsAt(net: Network, start: nat, payload: Payload, policy: RetryPolicy, a: nat) {
    a >= 1 && StepAt(net, start, payload, policy, a - 1).Sleep?
  }

  /** `b` records a wait that attempt `b.attempt`, one of the first `m`, decided on. */
  predicate RecordsSleep(net: Network, start: nat, payload: Payload, policy: RetryPolicy, m: nat, b: Backoff) {
    1 <= b.attempt <= m
    && StepAt(net, start, payload, policy, b.attempt - 1) == Sleep(b.seconds)
    && b.seconds == policy.retryDelay * b.attempt as real
  }

  /** Some entry of `bs` is for attempt `a`. */
  predicate HasBackoffFor(bs: seq<Backoff>, a: nat) {
    exists i :: 0 <= i < |bs| && bs[i].attempt == a
  }

  /**
   * The recorded back-offs of the first `m` attempts: each records a wait
   * that its attempt decided on, `RETRY_DELAY * attempt` long, in attempt order.
   */
  lemma {:induction false} BackoffsSound(net: Network, start: nat, payload: Payload, policy: RetryPolicy, m: nat)
    ensures forall i :: 0 <= i < |Backoffs(net, start, payload, policy, m)| ==>
      RecordsSleep(net, start, payload, policy, m, Backoffs(net, start, payload, policy, m)[i])
    decreases m
  {
    if m > 0 {
      BackoffsSound(net, start, payload, policy, m - 1);
      var prev := Backoffs(net, start, payload, policy, m - 1);
      var step := StepAt(net, start, payload, policy, m - 1);
      assert forall i :: 0 <= i < |prev| ==> RecordsSleep(net, start, payload, policy, m - 1, prev[i]);
      if step.Sleep? {
        SleepOnlyWhenRateLimited(payload.model, policy.retryDelay, m, net(payload, start + m - 1));
        assert RecordsSleep(net, start, payload, policy, m, Backoff(m, step.seconds));
      }
    }
  }

  /** The waits are recorded in attempt order, each under an attempt among the first `m`. */
  lemma {:induction false} BackoffsInAttemptOrder(net: Network, start: nat, payload: Payload, policy: RetryPolicy, m: nat)
    ensures forall i :: 0 <= i < |Backoffs(net, start, payload, policy, m)| ==>
      1 <= Backoffs(net, start, payload, policy, m)[i].attempt <= m
    ensures forall i, j :: 0 <= i < j < |Backoffs(net, start, payload, policy, m)| ==>
      Backoffs(net, start, payload, policy, m)[i].attempt < Backoffs(net, start, payload, policy, m)[j].attempt
    decreases m
  {
    if m > 0 {
      BackoffsInAttemptOrder(net, start, payload, policy, m - 1);
      var prev := Backoffs(net, start, payload, policy, m - 1);
      var bs := Backoffs(net, start, payload, policy, m);
      assert bs[..|prev|] == prev;
      assert |bs| > |prev| ==> |bs| == |prev| + 1 && bs[|prev|].attempt == m;
      forall i | 0 <= i < |bs| ensures 1 <= bs[i].attempt <= m {
        if i < |prev| {
          assert bs[i] == prev[i];
        }
      }
      forall i, j | 0 <= i < j < |bs| ensures bs[i].attempt < bs[j].attempt {
        assert bs[i] == prev[i];
        if j < |prev| {
          assert bs[j] == prev[j];
        }
      }
    }
  }

  /** Every attempt among the first `m` that decided to sleep has its back-off recorded. */
  lemma {:induction false} BackoffsComplete(net: Network, start: nat, payload: Payload, policy: RetryPolicy, m: nat)
    ensures forall a: nat :: a <= m && SleepsAt(net, start, payload, policy, a) ==>
      HasBackoffFor(Backoffs(net, start, payload, policy, m), a)
    decreases m
  {
    if m > 0 {
      BackoffsComplete(net, start, payload, policy, m - 1);
      var prev := Backoffs(net, start, payload, policy, m - 1);
      var bs := Backoffs(net, start, payload, policy, m);
      assert bs[..|prev|] == prev;
      forall a: nat | a <= m && SleepsAt(net, start, payload, policy, a)
        ensures HasBackoffFor(bs, a)
      {
        if a < m {
          assert HasBackoffFor(prev, a);
          var i :| 0 <= i < |prev| && prev[i].attempt == a;
          assert bs[i] == prev[i];
        } else {
          assert bs[|prev|].attempt == a;
        }
      }
    }
  }

  /** With a positive RETRY_DELAY every wait is strictly longer than the one before. */
  lemma BackoffWaitsIncrease(net: Network, start: nat, payload: Payload, policy: RetryPolicy, m: nat)
    requires policy.retryDelay > 0.0
    ensures forall i, j :: 0 <= i < j < |Backoffs(net, start, payload, policy, m)| ==>
      Backoffs(net, start, payload, policy, m)[i].seconds < Backoffs(net, start, payload, policy, m)[j].seconds
  {
    BackoffsScaled(net, start, payload, policy, m);
    ScaledWaitsIncrease(policy.retryDelay, Backoffs(net, start, payload, policy, m));
  }

  /** Waits that are a positive delay times strictly increasing attempt numbers strictly increase. */
  lemma ScaledWaitsIncrease(d: real, bs: seq<Backoff>)
    requires d > 0.0
    requires forall i :: 0 <= i < |bs| ==> bs[i].seconds == d * bs[i].attempt as real
    requires forall i, j :: 0 <= i < j < |bs| ==> bs[i].attempt < bs[j].attempt
    ensures forall i, j :: 0 <= i < j < |bs| ==> bs[i].seconds < bs[j].seconds
  {
    forall i, j | 0 <= i < j < |bs| ensures bs[i].seconds < bs[j].seconds {
      WaitsOrdered(d, bs[i], bs[j]);
    }
  }

  /** Each recorded wait is RETRY_DELAY times its attempt number, and attempt numbers increase. */
  lemma BackoffsScaled(net: Network, start: nat, payload: Payload, policy: RetryPolicy, m: nat)
    ensures forall i :: 0 <= i < |Backoffs(net, start, payload, policy, m)| ==>
      Backoffs(net, start, payload, policy, m)[i].seconds
        == policy.retryDelay * Backoffs(net, start, payload, policy, m)[i].attempt as real
    ensures forall i, j :: 0 <= i < j < |Backoffs(net, start, payload, policy, m)| ==>
      Backoffs(net, start, payload, policy, m)[i].attempt < Backoffs(net, start, payload, policy, m)[j].attempt
  {
    BackoffsSound(net, start, payload, policy, m);
    BackoffsInAttemptOrder(net, start, payload, policy, m);
  }

  /** Of two waits at a positive delay times the attempt number, the later attempt waits longer. */
  lemma WaitsOrdered(d: real, b: Backoff, c: Backoff)
    requires d > 0.0 && b.attempt < c.attempt
    requires b.seconds == d * b.attempt as real && c.seconds == d * c.attempt as real
    ensures b.seconds < c.seconds
  {
    assert d * c.attempt as real == d * b.attempt as real + d * (c.attempt - b.attempt) as real;
  }

  /**
   * The exhaustion error is raised exactly when no attempt returns or raises;
   * then every attempt has been used and the error reports the last status.
   */
  lemma ExhaustionReportsLastStatus(net: Network, start: nat, payload: Payload, policy: RetryPolicy)
    ensures RetrySpec(net, start, payload, policy).outcome.Raised?
        && RetrySpec(net, start, payload, policy).outcome.error.RetriesExhausted?
      <==> forall k :: 0 <= k < Attempts(policy) ==> !Decisive(StepAt(net, start, payload, policy, k))
    ensures RetrySpec(net, start, payload, policy).outcome.Raised?
        && RetrySpec(net, start, payload, policy).outcome.error.RetriesExhausted?
      ==> (RetrySpec(net, start, payload, policy).sent == Attempts(policy)
        && (Attempts(policy) == 0 ==> RetrySpec(net, start, payload, policy).outcome.error.lastStatus == None)
        && (Attempts(policy) > 0 ==>
              net(payload, start + Attempts(policy) - 1).Delivered?
              && RetrySpec(net, start, payload, policy).outcome.error.lastStatus
                 == Some(net(payload, start + Attempts(policy) - 1).response.status)))
  {
    var n := Attempts(policy);
    RetryMatchesReference(net, start, payload, policy);
    match FirstDecisive(net, start, payload, policy, 0)
    case Some(k) =>
      assert Decisive(StepAt(net, start, payload, policy, k));
    case None =>
      if n > 0 {
        assert !Decisive(StepAt(net, start, payload, policy, n - 1));
      }
  }

  /**
   * The report the source builds when the attempts run out, from the same last
   * response: after at least one attempt it gives a status exactly when the
   * last attempt was not rate-limited, while the model's corrected error
   * always gives the last status.
   */
  lemma ExhaustionAsWritten(net: Network, start: nat, payload: Payload, policy: RetryPolicy)
    requires Attempts(policy) > 0
    requires forall k :: 0 <= k < Attempts(policy) ==> !Decisive(StepAt(net, start, payload, policy, k))
    ensures var n := Attempts(policy);
      var last := LastResponse(net, start, payload, n);
      last.Some?
      && RetrySpec(net, start, payload, policy).outcome == Raised(ExhaustedError(policy, last))
      && (ExhaustedErrorAsWritten(policy, last).lastStatus.None? <==> IsRateLimited(last.value.status))
  {
    var n := Attempts(policy);
    RetryMatchesReference(net, start, payload, policy);
    assert FirstDecisive(net, start, payload, policy, 0).None?;
    assert !Decisive(StepAt(net, start, payload, policy, n - 1));
  }

  /**
   * When every answer is a 429 and RETRY_DELAY is not negative, each of the
   * first m attempts is followed by a wait of RETRY_DELAY times its number.
   */
  lemma {:induction false} AlwaysRateLimited(net: Network, start: nat, payload: Payload, policy: RetryPolicy, m: nat)
    requires policy.retryDelay >= 0.0
    requires forall k :: net(payload, k).Delivered? && net(payload, k).response.status == 429
    ensures |Backoffs(net, start, payload, policy, m)| == m
    ensures forall i :: 0 <= i < m ==>
      Backoffs(net, start, payload, policy, m)[i] == Backoff(i + 1, policy.retryDelay * (i + 1) as real)
    decreases m
  {
    if m > 0 {
      AlwaysRateLimited(net, start, payload, policy, m - 1);
      var w := policy.retryDelay * m as real;
      assert 0.0 <= w;
      assert StepAt(net, start, payload, policy, m - 1) == Sleep(w);
    }
  }

  /**
   * Against the same provider, the loop uses all MAX_RETRIES attempts, waits
   * after each of them, and raises the exhaustion error built from the last
   * 429 answer.
   */
  lemma AlwaysRateLimitedExhausts(net: Network, start: nat, payload: Payload, policy: RetryPolicy)
    requires Attempts(policy) > 0
    requires policy.retryDelay >= 0.0
    requires forall k :: net(payload, k).Delivered? && net(payload, k).response.status == 429
    ensures var n := Attempts(policy);
      var t := RetrySpec(net, start, payload, policy);
      t.outcome == Raised(ExhaustedError(policy, Some(net(payload, start + n - 1).response)))
      && t.sent == n
      && |t.backoffs| == n
  {
    var n := Attempts(policy);
    forall k | 0 <= k < n
      ensures !Decisive(StepAt(net, start, payload, policy, k))
    {
      assert 0.0 <= policy.retryDelay * (k + 1) as real;
    }
    ExhaustionAsWritten(net, start, payload, policy);
    RetryMatchesReference(net, start, payload, policy);
    AlwaysRateLimited(net, start, payload, policy, n);
  }

  // ---------------------------------------------------------------------
  // chat

  /** MAX_RETRIES and RETRY_DELAY from the configuration. */
  function Policy(settings: Settings): RetryPolicy {
    RetryPolicy(settings.maxRetries, settings.retryDelay)
  }

  /** The messages of a text request: the system message only when it is not empty, then the prompt. */
  function ChatMessages(prompt: string, system: string): (ms: seq<Message>)
    ensures ms != [] && ms[|ms| - 1] == Message(User, Plain(prompt))
    ensures (exists i :: 0 <= i < |ms| && ms[i].role == System) <==> system != []
    ensures forall i :: 0 <= i < |ms| && ms[i].role == System ==> i == 0 && ms[i].content == Plain(system)
    ensures forall i :: 0 <= i < |ms| - 1 ==> ms[i].role == System
  {
    var ms := (if system != [] then [Message(System, Plain(system))] else []) + [Message(User, Plain(prompt))];
    assert system != [] ==> ms[0].role == System;
    ms
  }

  /** `chat(prompt, system)`: one retried request to TEXT_MODEL. */
  method Chat(net: Network, start: nat, settings: Settings, prompt: string, system: string)
    returns (outcome: Outcome, sent: nat, backoffs: seq<Backoff>)
    ensures Trace(outcome, sent, backoffs)
      == RetrySpec(net, start, Payload(settings.textModel, ChatMessages(prompt, system)), Policy(settings))
  {
    var messages: seq<Message> := [];
    if system != [] {
      messages := messages + [Message(System, Plain(system))];
    }
    messages := messages + [Message(User, Plain(prompt))];
    assert messages == ChatMessages(prompt, system);
    outcome, sent, backoffs := RequestWithRetry(net, start, Payload(settings.textModel, messages), Policy(settings));
  }

  // ---------------------------------------------------------------------
  // describe_image

  /** The single user message of a vision request: the prompt, then the image. */
  function VisionMessages(prompt: string, dataUrl: string): seq<Message> {
    [Message(User, Multimodal([TextPart(prompt), ImageUrlPart(dataUrl)]))]
  }

  /** The models to try: VISION_MODEL, then each fallback not already listed. */
  method CandidateModels(primary: string, fallbacks: seq<string>) returns (models: seq<string>)
    ensures models == Dedup([primary] + fallbacks)
    ensures models != [] && models[0] == primary
    ensures NoDuplicates(models)
    ensures forall m :: m in models <==> m == primary || m in fallbacks
  {
    models := [primary];
    for i := 0 to |fallbacks|
      invariant models == Dedup([primary] + fallbacks[..i])
    {
      var fb := fallbacks[i];
      assert ([primary] + fallbacks[..i + 1])[..i + 1] == [primary] + fallbacks[..i];
      if fb !in models {
        models := models + [fb];
      }
    }
    assert fallbacks[..|fallbacks|] == fallbacks;
    DedupHead([primary] + fallbacks);
  }

  /**
   * What the walk over the models yields: the outcome, the requests sent,
   * how many models were tried and the back-offs of all their retry loops.
   */
  datatype VisionTrace = VisionTrace(outcome: Outcome, sent: nat, tried: nat, backoffs: seq<Backoff>)

  /** What one retry loop yields for a model whose first request is the run's request number `start`. */
  type ModelRun = (string, nat) -> Trace

  /** The retry loop of `describe_image` for each model: `_request_with_retry` on the shared messages. */
  function VisionRun(net: Network, messages: seq<Message>, policy: RetryPolicy): ModelRun {
    (model: string, start: nat) => RetrySpec(net, start, Payload(model, messages), policy)
  }

  /** What the retry loop of `model` returns or raises when its first request is the run's request number `s`. */
  function OutcomeOf(run: ModelRun, model: string, s: nat): Outcome {
    run(model, s).outcome
  }

  /** Some run of the retry loop of `model` returns or raises `o`. */
  ghost predicate Yields(run: ModelRun, model: string, o: Outcome) {
    exists s: nat :: OutcomeOf(run, model, s) == o
  }

  /** The error of a retry loop after which `describe_image` tries the next model. */
  predicate MovesOn(r: Trace) {
    r.outcome.Raised? && SkipsToNextModel(r.outcome.error)
  }

  /**
   * The fallback walk from model `i` on, with `lastError` the error
   * remembered from the models before: a reply or an error that is neither
   * ContentBlockedError nor RuntimeError ends it; those two move on to the next
   * model; after the last model the RuntimeError reports the last error.
   */
  function FallbackSpec(run: ModelRun, start: nat, models: seq<string>, i: nat, lastError: Option<Failure>): (t: VisionTrace)
    requires i <= |models|
    ensures t.tried <= |models| - i
    ensures i < |models| ==> t.tried >= 1
    decreases |models| - i
  {
    if i == |models| then VisionTrace(Raised(AllVisionModelsFailed(lastError)), 0, 0, [])
    else
      var r := run(models[i], start);
      if MovesOn(r) then
        var rest := FallbackSpec(run, start + r.sent, models, i + 1, Some(r.outcome.error));
        VisionTrace(rest.outcome, r.sent + rest.sent, 1 + rest.tried, r.backoffs + rest.backoffs)
      else
        VisionTrace(r.outcome, r.sent, 1, r.backoffs)
  }

  /**
   * The models from `i` on are tried in list order, each at most once, and at
   * least one when there is one; a ContentBlockedError or exhaustion error
   * never escapes; the final RuntimeError comes only after all of them were
   * tried and carries the error of the last model, one that moves on.
   */
  lemma {:induction false} FallbackTriesInOrder(run: ModelRun, start: nat, models: seq<string>, i: nat, lastError: Option<Failure>)
    requires i <= |models|
    ensures var t := FallbackSpec(run, start, models, i, lastError);
      t.tried <= |models| - i
      && (i < |models| ==> t.tried >= 1)
      && (t.outcome.Raised? ==> !t.outcome.error.ContentBlocked? && !t.outcome.error.RetriesExhausted?)
      && (t.outcome.Raised? && t.outcome.error.AllVisionModelsFailed? ==>
            t.tried == |models| - i
            && (i == |models| ==> t.outcome.error.last == lastError)
            && (i < |models| ==>
                  && t.outcome.error.last.Some? && SkipsToNextModel(t.outcome.error.last.value)
                  && Yields(run, models[|models| - 1], Raised(t.outcome.error.last.value))))
    decreases |models| - i
  {
    if i < |models| {
      var r := run(models[i], start);
      if MovesOn(r) {
        FallbackTriesInOrder(run, start + r.sent, models, i + 1, Some(r.outcome.error));
        if i + 1 == |models| {
          assert OutcomeOf(run, models[|models| - 1], start) == Raised(r.outcome.error);
        }
      }
    }
  }

  /**
   * A walk that does not end with the final RuntimeError ends with the outcome
   * of the last model it tried: that model's reply, or its error that does
   * not move on.
   */
  lemma {:induction false} FallbackEndsAtModel(run: ModelRun, start: nat, models: seq<string>, i: nat, lastError: Option<Failure>)
    requires i <= |models|
    ensures var t := FallbackSpec(run, start, models, i, lastError);
      !(t.outcome.Raised? && t.outcome.error.AllVisionModelsFailed?) ==>
        && !(t.outcome.Raised? && SkipsToNextModel(t.outcome.error))
        && Yields(run, models[i + t.tried - 1], t.outcome)
    decreases |models| - i
  {
    if i < |models| {
      var r := run(models[i], start);
      if MovesOn(r) {
        FallbackEndsAtModel(run, start + r.sent, models, i + 1, Some(r.outcome.error));
        var rest := FallbackSpec(run, start + r.sent, models, i + 1, Some(r.outcome.error));
        if !(rest.outcome.Raised? && rest.outcome.error.AllVisionModelsFailed?) {
          var t := FallbackSpec(run, start, models, i, lastError);
          assert t.outcome == rest.outcome && i + t.tried - 1 == i + 1 + rest.tried - 1;
        }
      } else {
        assert OutcomeOf(run, models[i + 1 - 1], start) == r.outcome;
        assert Yields(run, models[i + 1 - 1], r.outcome);
      }
    }
  }

  /** Each model tried costs at most `bound` requests when each retry loop does. */
  lemma {:induction false} FallbackSentBound(run: ModelRun, start: nat, models: seq<string>, i: nat,
                                             lastError: Option<Failure>, bound: nat)
    requires i <= |models|
    requires forall m, s :: run(m, s).sent <= bound
    ensures FallbackSpec(run, start, models, i, lastError).sent <= FallbackSpec(run, start, models, i, lastError).tried * bound
    decreases |models| - i
  {
    if i < |models| {
      var r := run(models[i], start);
      if MovesOn(r) {
        FallbackSentBound(run, start + r.sent, models, i + 1, Some(r.outcome.error), bound);
        var rest := FallbackSpec(run, start + r.sent, models, i + 1, Some(r.outcome.error));
        assert (1 + rest.tried) * bound == bound + rest.tried * bound;
      }
    }
  }

  /** The error carried to the end is one that a retry loop raised, never the final RuntimeError itself. */
  lemma {:induction false} FallbackLastFromRun(run: ModelRun, start: nat, models: seq<string>, i: nat, lastError: Option<Failure>)
    requires i < |models|
    requires forall m, s :: !(run(m, s).outcome.Raised? && run(m, s).outcome.error.AllVisionModelsFailed?)
    ensures var t := FallbackSpec(run, start, models, i, lastError);
      t.outcome.Raised? && t.outcome.error.AllVisionModelsFailed? ==>
        t.outcome.error.last.Some? && !t.outcome.error.last.value.AllVisionModelsFailed?
    decreases |models| - i
  {
    var r := run(models[i], start);
    if MovesOn(r) && i + 1 < |models| {
      FallbackLastFromRun(run, start + r.sent, models, i + 1, Some(r.outcome.error));
    }
  }

  /**
   * With the real retry loop: each model tried is given at most MAX_RETRIES
   * requests, and the final RuntimeError carries the last model's
   * ContentBlockedError or exhaustion error.
   */
  lemma VisionFallbackFacts(net: Network, start: nat, models: seq<string>, messages: seq<Message>, policy: RetryPolicy)
    ensures var t := FallbackSpec(VisionRun(net, messages, policy), start, models, 0, None);
      t.sent <= t.tried * Attempts(policy)
      && (t.outcome.Raised? && t.outcome.error.AllVisionModelsFailed? && models != [] ==>
            t.outcome.error.last.Some?
            && (t.outcome.error.last.value.ContentBlocked? || t.outcome.error.last.value.RetriesExhausted?))
  {
    var run := VisionRun(net, messages, policy);
    forall m, s: nat
      ensures run(m, s).sent <= Attempts(policy)
      ensures !(run(m, s).outcome.Raised? && run(m, s).outcome.error.AllVisionModelsFailed?)
    {
      assert run(m, s) == RetrySpec(net, s, Payload(m, messages), policy);
    }
    FallbackSentBound(run, start, models, 0, None, Attempts(policy));
    FallbackTriesInOrder(run, start, models, 0, None);
    if models != [] {
      FallbackLastFromRun(run, start, models, 0, None);
    }
  }

  /**
   * When every model blocks at its first request, each model is tried once,
   * in order, and the final RuntimeError carries the last model's
   * ContentBlockedError.
   */
  lemma {:induction false} AllBlockedFallback(run: ModelRun, start: nat, models: seq<string>, i: nat, lastError: Option<Failure>)
    requires i < |models|
    requires forall m, s ::
      run(m, s).sent == 1 && run(m, s).outcome.Raised?
      && run(m, s).outcome.error.ContentBlocked? && run(m, s).outcome.error.model == m
    ensures var t := FallbackSpec(run, start, models, i, lastError);
      t.sent == |models| - i && t.tried == |models| - i
      && t.outcome.Raised? && t.outcome.error.AllVisionModelsFailed?
      && t.outcome.error.last.Some? && t.outcome.error.last.value.ContentBlocked?
      && t.outcome.error.last.value.model == models[|models| - 1]
    decreases |models| - i
  {
    var r := run(models[i], start);
    assert MovesOn(r);
    if i + 1 < |models| {
      AllBlockedFallback(run, start + 1, models, i + 1, Some(r.outcome.error));
    }
  }

  /** Against a provider that answers every request with a 403, `describe_image` fails after one request per model. */
  lemma AllBlockedDescribeImage(net: Network, start: nat, models: seq<string>, messages: seq<Message>, policy: RetryPolicy)
    requires models != [] && Attempts(policy) >= 1
    requires forall p, k :: net(p, k).Delivered? && net(p, k).response.status == 403
    ensures var t := FallbackSpec(VisionRun(net, messages, policy), start, models, 0, None);
      t.sent == |models| && t.tried == |models|
      && t.outcome.Raised? && t.outcome.error.AllVisionModelsFailed?
      && t.outcome.error.last.Some? && t.outcome.error.last.value.ContentBlocked?
      && t.outcome.error.last.value.model == models[|models| - 1]
  {
    var run := VisionRun(net, messages, policy);
    forall m, s: nat
      ensures run(m, s).sent == 1 && run(m, s).outcome.Raised?
        && run(m, s).outcome.error.ContentBlocked? && run(m, s).outcome.error.model == m
    {
      BlockedRaisedAtOnce(net, s, Payload(m, messages), policy, 0, net(Payload(m, messages), s + 0).response);
    }
    AllBlockedFallback(run, start, models, 0, None);
  }

  /** `t` preceded by what earlier models already sent, tried and waited. */
  function After(sent: nat, tried: nat, backoffs: seq<Backoff>, t: VisionTrace): VisionTrace {
    VisionTrace(t.outcome, sent + t.sent, tried + t.tried, backoffs + t.backoffs)
  }

  /** A model whose error moves on hands the walk to the next model, with that error remembered. */
  lemma FallbackAdvance(run: ModelRun, start: nat, models: seq<string>, lastError: Option<Failure>,
                        i: nat, sent: nat, backoffs: seq<Backoff>, r: Trace)
    requires i < |models|
    requires r == run(models[i], start + sent) && MovesOn(r)
    ensures After(sent, i, backoffs, FallbackSpec(run, start + sent, models, i, lastError))
      == After(sent + r.sent, i + 1, backoffs + r.backoffs,
               FallbackSpec(run, start + (sent + r.sent), models, i + 1, Some(r.outcome.error)))
  {
    var rest := FallbackSpec(run, start + (sent + r.sent), models, i + 1, Some(r.outcome.error));
    assert backoffs + (r.backoffs + rest.backoffs) == (backoffs + r.backoffs) + rest.backoffs;
  }

  /** A model whose outcome does not move on ends the walk with that outcome. */
  lemma FallbackStop(run: ModelRun, start: nat, models: seq<string>, lastError: Option<Failure>,
                     i: nat, sent: nat, backoffs: seq<Backoff>, r: Trace)
    requires i < |models|
    requires r == run(models[i], start + sent) && !MovesOn(r)
    ensures After(sent, i, backoffs, FallbackSpec(run, start + sent, models, i, lastError))
      == VisionTrace(r.outcome, sent + r.sent, i + 1, backoffs + r.backoffs)
  {
  }

  /** One pass of the loop of `describe_image`: `_request_with_retry` for `model`. */
  method AskModel(net: Network, start: nat, model: string, messages: seq<Message>, policy: RetryPolicy)
    returns (t: Trace)
    ensures t == RetrySpec(net, start, Payload(model, messages), policy)
  {
    var r, n, b := RequestWithRetry(net, start, Payload(model, messages), policy);
    t := Trace(r, n, b);
  }

  /**
   * The loop over the candidate models of `describe_image`, from the run's request
   * number `start` on; `run` stands for `_request_with_retry` on the shared messages.
   */
  method TryModels(net: Network, start: nat, models: seq<string>, messages: seq<Message>, policy: RetryPolicy,
                   ghost run: ModelRun)
    returns (outcome: Outcome, sent: nat, tried: nat, backoffs: seq<Backoff>)
    requires forall m, s {:trigger RetrySpec(net, s, Payload(m, messages), policy)} ::
      run(m, s) == RetrySpec(net, s, Payload(m, messages), policy)
    ensures VisionTrace(outcome, sent, tried, backoffs) == FallbackSpec(run, start, models, 0, None)
  {
    var lastError: Option<Failure> := None;
    sent, backoffs := 0, [];
    ghost var spec := FallbackSpec(run, start, models, 0, None);
    assert start + sent == start && [] + spec.backoffs == spec.backoffs;
    for i := 0 to |models|
      invariant spec == After(sent, i, backoffs, FallbackSpec(run, start + sent, models, i, lastError))
    {
      var t := AskModel(net, start + sent, models[i], messages, policy);
      assert t == run(models[i], start + sent);
      if t.outcome.Raised? && SkipsToNextModel(t.outcome.error) {
        assert spec == After(sent + t.sent, i + 1, backoffs + t.backoffs,
                             FallbackSpec(run, start + (sent + t.sent), models, i + 1, Some(t.outcome.error))) by {
          FallbackAdvance(run, start, models, lastError, i, sent, backoffs, t);
        }
        lastError := Some(t.outcome.error);
        sent, backoffs := sent + t.sent, backoffs + t.backoffs;
      } else {
        FallbackStop(run, start, models, lastError, i, sent, backoffs, t);
        outcome, sent, tried, backoffs := t.outcome, sent + t.sent, i + 1, backoffs + t.backoffs;
        return;
      }
    }
    outcome, tried := Raised(AllVisionModelsFailed(lastError)), |models|;
    assert backoffs + [] == backoffs;
  }

  /**
   * `describe_image(data_url, prompt)`: the fallback walk over the candidate
   * models; the first `tried` of them were asked, in order.
   */
  method DescribeImage(net: Network, start: nat, settings: Settings, dataUrl: string, prompt: string)
    returns (outcome: Outcome, sent: nat, tried: nat, backoffs: seq<Backoff>)
    ensures VisionTrace(outcome, sent, tried, backoffs)
      == FallbackSpec(VisionRun(net, VisionMessages(prompt, dataUrl), Policy(settings)), start,
                      Dedup([settings.visionModel] + settings.visionFallbacks), 0, None)
  {
    var messages := VisionMessages(prompt, dataUrl);
    var models := CandidateModels(settings.visionModel, settings.visionFallbacks);
    outcome, sent, tried, backoffs := TryModels(net, start, models, messages, Policy(settings),
                                                VisionRun(net, messages, Policy(settings)));
  }
}
