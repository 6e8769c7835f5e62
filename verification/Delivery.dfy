/** One JetStream delivery, from evaluation to its single answer
    (internal/broker/subscription.go:376-534), and the HTTP retry loop under it
    (internal/httpclient/httpclient.go:57-180). Transports are oracles. */
module Delivery {

  // -------------------------------------------------------------- HTTP retry

  /** The answer to one request. */
  datatype Reply = Status(code: int) | NoReply

  predicate IsSuccess(r: Reply) { r.Status? && 200 <= r.code < 300 }

  /** StatusError.Permanent: a 4xx other than 408 and 429. */
  predicate IsPermanentReply(r: Reply) { r.Status? && 400 <= r.code < 500 && r.code != 408 && r.code != 429 }

  /** `reply(n)` answers the n-th request; `cancelled(n)`: the wait after it is cut short. */
  datatype HttpAction = HttpAction(maxAttempts: int, reply: nat -> Reply, cancelled: nat -> bool)

  /** How an attempted action ended. */
  datatype Attempt = Done | Failed(permanent: bool) | Panicked

  function Limit(a: HttpAction): (m: nat)
    ensures m >= 1
  {
    if a.maxAttempts > 0 then a.maxAttempts else 1
  }

  /** Nothing is gained by another request. */
  predicate Settles(a: HttpAction, n: nat) {
    IsSuccess(a.reply(n)) || IsPermanentReply(a.reply(n)) || n == Limit(a)
  }

  ghost predicate LastRequest(a: HttpAction, n: nat) {
    1 <= n <= Limit(a) && (Settles(a, n) || a.cancelled(n)) &&
    forall k :: 1 <= k < n ==> !Settles(a, k) && !a.cancelled(k)
  }

  /** How many requests are sent. */
  function Sent(a: HttpAction, from: nat): (n: nat)
    requires 1 <= from <= Limit(a)
    ensures from <= n <= Limit(a) && (Settles(a, n) || a.cancelled(n))
    ensures forall k :: from <= k < n ==> !Settles(a, k) && !a.cancelled(k)
    decreases Limit(a) - from
  {
    if Settles(a, from) || a.cancelled(from) then from else Sent(a, from + 1)
  }

  function HttpResult(a: HttpAction): Attempt {
    var n := Sent(a, 1);
    if IsSuccess(a.reply(n)) then Done
    else Failed(Settles(a, n) && IsPermanentReply(a.reply(n)))
  }

  method ExecuteHTTPAction(a: HttpAction) returns (sent: nat, r: Attempt)
    ensures LastRequest(a, sent) && r == HttpResult(a)
  {
    var attempt, max := 1, Limit(a);
    while true
      invariant 1 <= attempt <= max
      invariant forall k :: 1 <= k < attempt ==> !Settles(a, k) && !a.cancelled(k)
      invariant Sent(a, 1) == Sent(a, attempt)
      decreases max - attempt
    {
      var reply := a.reply(attempt);
      if IsSuccess(reply) {
        return attempt, Done;
      }
      if attempt == max || IsPermanentReply(reply) {
        return attempt, Failed(IsPermanentReply(reply));
      }
      if a.cancelled(attempt) {
        return attempt, Failed(false);
      }
      attempt := attempt + 1;
    }
  }

  /** The last request is unique, and `Sent` finds it. */
  lemma SentIff(a: HttpAction, n: nat)
    ensures LastRequest(a, n) <==> n == Sent(a, 1)
  {
    var sent := Sent(a, 1);
    assert LastRequest(a, sent);
    if LastRequest(a, n) {
      assert !(n < sent) by { assert Settles(a, n) || a.cancelled(n); }
      assert !(sent < n) by { assert Settles(a, sent) || a.cancelled(sent); }
    }
  }

  lemma {:induction false} SentPasses(a: HttpAction, from: nat, k: nat)
    requires 1 <= from <= k <= Limit(a) && k < Sent(a, from)
    ensures !Settles(a, k)
    decreases k - from
  {
    if from < k { SentPasses(a, from + 1, k); }
  }

  /** Uncancelled, the loop succeeds exactly if some reply within the limit is a
      success with no permanent failure before it. */
  lemma SucceedsIff(a: HttpAction)
    requires forall n :: !a.cancelled(n)
    ensures HttpResult(a) == Done <==>
            exists n :: 1 <= n <= Limit(a) && IsSuccess(a.reply(n)) &&
                        forall k :: 1 <= k < n ==> !IsPermanentReply(a.reply(k))
  {
    var sent := Sent(a, 1);
    forall k: nat | 1 <= k < sent ensures !IsPermanentReply(a.reply(k)) {
      SentPasses(a, 1, k);
    }
    if n :| 1 <= n <= Limit(a) && IsSuccess(a.reply(n)) && forall k :: 1 <= k < n ==> !IsPermanentReply(a.reply(k)) {
      assert Settles(a, n);
      assert sent <= n;
      assert IsSuccess(a.reply(sent));
    }
  }

  lemma {:induction false} SentToConstant(a: HttpAction, reply: Reply, from: nat)
    requires 1 <= from <= Limit(a) && (forall n :: a.reply(n) == reply && !a.cancelled(n))
    ensures Sent(a, from) == if IsSuccess(reply) || IsPermanentReply(reply) then from else Limit(a)
    decreases Limit(a) - from
  {
    if !Settles(a, from) { SentToConstant(a, reply, from + 1); }
  }

  /** A server that always answers alike: 2xx succeeds at once; 4xx other than 408
      and 429 fails permanently at once; 408, 429, any other status and silence
      use up all attempts (one, unless more are configured) and may be retried. */
  lemma ConstantServer(a: HttpAction, reply: Reply)
    requires forall n :: a.reply(n) == reply && !a.cancelled(n)
    ensures reply.Status? && 200 <= reply.code <= 299 ==> Sent(a, 1) == 1 && HttpResult(a) == Done
    ensures reply.Status? && 400 <= reply.code <= 499 && reply.code != 408 && reply.code != 429 ==>
              Sent(a, 1) == 1 && HttpResult(a) == Failed(true)
    ensures reply == NoReply || reply == Status(408) || reply == Status(429) ||
            (reply.Status? && (reply.code < 200 || 300 <= reply.code <= 399 || reply.code >= 500)) ==>
              Sent(a, 1) == (if a.maxAttempts > 0 then a.maxAttempts else 1) && HttpResult(a) == Failed(false)
  {
    SentToConstant(a, reply, 1);
  }

  // ---------------------------------------------------------------- delivery

  datatype Action = Publish(result: Attempt) | Request(http: HttpAction)

  function Result(a: Action): Attempt {
    match a
    case Publish(r) => r
    case Request(h) => HttpResult(h)
  }

  /** What evaluating the message gives; batches are only handed on. */
  datatype Evaluation<Batch> =
    | Evaluated(deferred: seq<Batch>, immediate: seq<Action>)
    | EvaluationFailed
    | EvaluationPanicked

  datatype Answer = Ack | Nak | Term

  /** How processMessage returns. */
  datatype Return = Success | Retryable | Terminal | Panic

  class Message {
    var answers: seq<Answer>
    constructor ()
      ensures answers == []
    {
      answers := [];
    }

    method Reply(a: Answer)
      modifies this
      ensures answers == old(answers) + [a]
    {
      answers := answers + [a];
    }
  }

  ghost predicate AllDone(actions: seq<Action>) { forall a :: a in actions ==> Result(a) == Done }

  ghost predicate SomePanic(actions: seq<Action>) { exists a :: a in actions && Result(a) == Panicked }

  ghost predicate AllFailuresPermanent(actions: seq<Action>) {
    forall a :: a in actions ==> Result(a) != Failed(false)
  }

  /** The answer the source promises. */
  ghost function Verdict<Batch>(e: Evaluation<Batch>): Answer {
    match e
    case EvaluationFailed => Nak
    case EvaluationPanicked => Term
    case Evaluated(_, actions) =>
      if AllDone(actions) then Ack
      else if SomePanic(actions) || AllFailuresPermanent(actions) then Term
      else Nak
  }

  method ExecuteAction(a: Action) returns (r: Attempt)
    ensures r == Result(a)
  {
    match a {
      case Publish(result) => r := result;
      case Request(h) => var _, ended := ExecuteHTTPAction(h); r := ended;
    }
  }

  /** `attempted` actions were run, in order; only a panic cuts them short. */
  method ProcessMessage<Batch>(e: Evaluation<Batch>) returns (submitted: seq<Batch>, attempted: nat, r: Return)
    ensures submitted == if e.Evaluated? then e.deferred else []
    ensures e.Evaluated? ==> attempted <= |e.immediate|
    ensures e.Evaluated? && attempted < |e.immediate| ==>
              attempted > 0 && Result(e.immediate[attempted - 1]) == Panicked
    ensures r == match Verdict(e)
                 case Ack => Success
                 case Nak => Retryable
                 case Term => if e.Evaluated? && !SomePanic(e.immediate) then Terminal else Panic
  {
    submitted, attempted := [], 0;
    if e.EvaluationPanicked? {
      return submitted, 0, Panic;
    }
    if e.EvaluationFailed? {
      return submitted, 0, Retryable;
    }
    for i := 0 to |e.deferred|
      invariant submitted == e.deferred[..i]
    {
      submitted := submitted + [e.deferred[i]];
    }
    var failures, retryable := 0, false;
    while attempted < |e.immediate|
      invariant attempted <= |e.immediate|
      invariant failures == 0 <==> AllDone(e.immediate[..attempted])
      invariant !SomePanic(e.immediate[..attempted])
      invariant retryable <==> !AllFailuresPermanent(e.immediate[..attempted])
    {
      var a := e.immediate[attempted];
      var result := ExecuteAction(a);
      assert e.immediate[..attempted + 1] == e.immediate[..attempted] + [a];
      attempted := attempted + 1;
      match result {
        case Panicked =>
          assert a in e.immediate;
          return submitted, attempted, Panic;
        case Failed(permanent) =>
          failures, retryable := failures + 1, retryable || !permanent;
        case Done =>
      }
    }
    assert e.immediate[..attempted] == e.immediate;
    return submitted, attempted, if failures == 0 then Success else if retryable then Retryable else Terminal;
  }

  /** Every delivery gets exactly one answer, and it is the promised one. */
  method ProcessMessageWithRecovery<Batch>(msg: Message, e: Evaluation<Batch>) returns (submitted: seq<Batch>)
    modifies msg
    ensures msg.answers == old(msg.answers) + [Verdict(e)]
    ensures e.EvaluationFailed? ==> msg.answers == old(msg.answers) + [Nak]
    ensures e.EvaluationPanicked? ==> msg.answers == old(msg.answers) + [Term]
    ensures e.Evaluated? && (forall a :: a in e.immediate ==> Result(a) == Done) ==>
              msg.answers == old(msg.answers) + [Ack]
    ensures e.Evaluated? && (exists a :: a in e.immediate && Result(a) == Panicked) ==>
              msg.answers == old(msg.answers) + [Term]
    ensures e.Evaluated? && (exists a :: a in e.immediate && Result(a) != Done) &&
            (forall a :: a in e.immediate ==> Result(a) == Done || Result(a) == Failed(true)) ==>
              msg.answers == old(msg.answers) + [Term]
    ensures e.Evaluated? && (forall a :: a in e.immediate ==> Result(a) != Panicked) &&
            (exists a :: a in e.immediate && Result(a) == Failed(false)) ==>
              msg.answers == old(msg.answers) + [Nak]
    ensures submitted == if e.Evaluated? then e.deferred else []
  {
    var attempted, r;
    submitted, attempted, r := ProcessMessage(e);
    match r {
      case Panic => msg.Reply(Term);
      case Terminal => msg.Reply(Term);
      case Retryable => msg.Reply(Nak);
      case Success => msg.Reply(Ack);
    }
  }
}
