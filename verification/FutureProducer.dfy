/** `FutureProducer` (src/producer/future_producer.rs): the queue-full retry loop of `send`, and what the awaited
    channel yields. The opaque of a record is the sending half of its channel. */
module FutureProducer {
  import opened Wrappers
  import opened Timeouts
  import opened ProducerDelivery
  import opened BaseProducer

  const QUEUE_FULL: ErrorCode := -184
  const RETRY_DELAY: nat := 100 * NANOS_PER_MILLI

  datatype FutureRecord = FutureRecord(
    topic: string, partition: Option<int>, payload: Option<Bytes>, key: Option<Bytes>,
    timestamp: Option<int>, headers: Option<Headers>)

  datatype MessageTime = NotAvailable | CreateTime(millis: int)

  datatype OwnedMessage = OwnedMessage(
    payload: Option<Bytes>, key: Option<Bytes>, topic: string, timestamp: MessageTime,
    partition: int, offset: int, headers: Option<Headers>)

  function IntoBase(r: FutureRecord, channel: Opaque): Record {
    Record(r.topic, r.partition, r.payload, r.key, r.timestamp, r.headers, channel)
  }

  function FromBase(r: Record): FutureRecord {
    FutureRecord(r.topic, r.partition, r.payload, r.key, r.timestamp, r.headers)
  }

  /** The message returned with an enqueue error. */
  function Owned(r: Record): OwnedMessage {
    OwnedMessage(r.payload, r.key, r.topic,
                 if r.timestamp.Some? then CreateTime(r.timestamp.value) else NotAvailable,
                 if r.partition.Some? then r.partition.value else -1, 0, r.headers)
  }

  /** The record has the fields of the future record. */
  predicate Carries(base: Record, r: FutureRecord) {
    && base.topic == r.topic && base.partition == r.partition && base.payload == r.payload && base.key == r.key
    && base.timestamp == r.timestamp && base.headers == r.headers
  }

  /** The message gives the sender back what the future record held. */
  predicate Returns(m: OwnedMessage, r: FutureRecord) {
    && m.topic == r.topic && m.payload == r.payload && m.key == r.key && m.headers == r.headers && m.offset == 0
    && m.timestamp == (match r.timestamp case Some(millis) => CreateTime(millis) case None => NotAvailable)
    && m.partition == (match r.partition case Some(n) => n case None => -1)
  }

  /** One round of the loop: native's answer, how long the attempt took, how long the delay took if it is reached. */
  datatype Attempt = Attempt(refusal: Option<ErrorCode>, took: nat, nap: nat)

  datatype SendOutcome = Enqueued | GaveUp(error: SendError, message: OwnedMessage) | StillSending

  predicate CanRetry(timeout: Timeout, elapsed: nat) {
    timeout.Never? || elapsed < timeout.nanos
  }

  /** The attempt is answered "queue full", and there is time left. */
  predicate Retries(record: Record, timeout: Timeout, elapsed: nat, a: Attempt) {
    && SendAnswer(record, a.refusal) == Rejected(MessageProduction(QUEUE_FULL), record)
    && CanRetry(timeout, elapsed + a.took)
  }

  /** The number of attempts that the loop makes from the n-th on. */
  function Tries(record: Record, timeout: Timeout, elapsed: nat, script: seq<Attempt>, n: nat): nat
    requires n <= |script|
    decreases |script| - n
  {
    if n == |script| then 0
    else if Retries(record, timeout, elapsed, script[n]) then
      1 + Tries(record, timeout, elapsed + script[n].took + script[n].nap, script, n + 1)
    else 1
  }

  /** The timeout in retry delays, rounded up. */
  function MaxRetries(t: nat): nat {
    (t + RETRY_DELAY - 1) / RETRY_DELAY
  }

  /** A delay lasts at least as long as it was asked to. */
  ghost predicate NapsLongEnough(script: seq<Attempt>) {
    forall i :: 0 <= i < |script| ==> script[i].nap >= RETRY_DELAY
  }

  /** After n delays there are at most the remaining ones and one more attempt to come. */
  lemma {:induction false} TriesBounded(record: Record, t: nat, elapsed: nat, script: seq<Attempt>, n: nat)
    requires NapsLongEnough(script) && n <= |script| && n * RETRY_DELAY <= elapsed && n <= MaxRetries(t)
    ensures Tries(record, After(t), elapsed, script, n) <= MaxRetries(t) + 1 - n
    decreases |script| - n
  {
    if n < |script| && Retries(record, After(t), elapsed, script[n]) {
      assert n * RETRY_DELAY < t;
      assert (n + 1) * RETRY_DELAY == n * RETRY_DELAY + RETRY_DELAY;
      TriesBounded(record, t, elapsed + script[n].took + script[n].nap, script, n + 1);
    }
  }

  /** How a run of the loop has ended, seen from its last attempt. */
  ghost predicate Explains(record: Record, timeout: Timeout, last: Attempt, outcome: SendOutcome, elapsed: nat) {
    match outcome
    case Enqueued => SendAnswer(record, last.refusal) == Sent
    case GaveUp(error, message) =>
      && message == Owned(record) && SendAnswer(record, last.refusal) == Rejected(error, record)
      && (error == MessageProduction(QUEUE_FULL) ==> timeout.After? && timeout.nanos <= elapsed)
    case StillSending => false
  }

  /** `send` up to the point where the record is enqueued or given up: every attempt offers native the identical
      record and channel; all attempts but the last were answered "queue full"; a failure carries the original
      fields and the last answer, and is "queue full" only once the time is up. With delays that last at least
      what they are asked for, a finite timeout t allows at most ceil(t / 100 ms) + 1 attempts. */
  method SendRetrying(record: FutureRecord, channel: Opaque, timeout: Timeout, script: seq<Attempt>)
    returns (outcome: SendOutcome, tried: seq<Record>, elapsed: nat)
    ensures |tried| <= |script| && |tried| == Tries(IntoBase(record, channel), timeout, 0, script, 0)
    ensures forall i :: 0 <= i < |tried| ==> tried[i] == IntoBase(record, channel)
    ensures forall i :: 0 <= i < |tried| - 1 ==> script[i].refusal == Some(QUEUE_FULL)
    ensures if outcome.StillSending?
            then |tried| == |script| && forall a :: a in script ==> a.refusal == Some(QUEUE_FULL)
            else |tried| > 0 && Explains(IntoBase(record, channel), timeout, script[|tried| - 1], outcome, elapsed)
    ensures timeout.After? && NapsLongEnough(script) ==> |tried| <= MaxRetries(timeout.nanos) + 1
    ensures forall i :: 0 <= i < |tried| ==> Carries(tried[i], record) && tried[i].token == channel
    ensures outcome.GaveUp? ==> Returns(outcome.message, record)
    ensures outcome.Enqueued? ==> '\0' !in record.topic && script[|tried| - 1].refusal == None
    ensures outcome.GaveUp? ==>
      outcome.error == if '\0' in record.topic then NulInTopic else MessageProduction(script[|tried| - 1].refusal.value)
  {
    outcome, tried, elapsed := RetryLoop(IntoBase(record, channel), timeout, script);
    if timeout.After? && NapsLongEnough(script) {
      TriesBounded(IntoBase(record, channel), timeout.nanos, 0, script, 0);
    }
  }

  /** The loop, on the base record. */
  method RetryLoop(record: Record, timeout: Timeout, script: seq<Attempt>)
    returns (outcome: SendOutcome, tried: seq<Record>, elapsed: nat)
    ensures |tried| <= |script| && |tried| == Tries(record, timeout, 0, script, 0)
    ensures forall i :: 0 <= i < |tried| ==> tried[i] == record
    ensures forall i :: 0 <= i < |tried| - 1 ==> script[i].refusal == Some(QUEUE_FULL)
    ensures if outcome.StillSending?
            then |tried| == |script| && forall a :: a in script ==> a.refusal == Some(QUEUE_FULL)
            else |tried| > 0 && Explains(record, timeout, script[|tried| - 1], outcome, elapsed)
  {
    var base := record;
    outcome, tried, elapsed := StillSending, [], 0;
    while |tried| < |script|
      invariant |tried| <= |script| && base == record && outcome.StillSending?
      invariant forall i :: 0 <= i < |tried| ==> tried[i] == record
      invariant forall i :: 0 <= i < |tried| ==> script[i].refusal == Some(QUEUE_FULL)
      invariant Tries(record, timeout, 0, script, 0) == |tried| + Tries(record, timeout, elapsed, script, |tried|)
      decreases |script| - |tried|
    {
      var a := script[|tried|];
      tried := tried + [base];
      var answer := SendAnswer(base, a.refusal);
      elapsed := elapsed + a.took;
      if answer == Sent {
        outcome := Enqueued;
        break;
      } else if answer.error != MessageProduction(QUEUE_FULL) || !CanRetry(timeout, elapsed) {
        outcome := GaveUp(answer.error, Owned(answer.record));
        break;
      }
      base := answer.record;
      elapsed := elapsed + a.nap;
    }
  }

  /** A queue that stays full, and delays that are exact. */
  function AlwaysFull(n: nat): seq<Attempt> {
    seq(n, _ => Attempt(Some(QUEUE_FULL), 0, RETRY_DELAY))
  }

  /** The bound on the attempts is reached, whatever the timeout. */
  lemma {:induction false} RetryBoundReached(record: Record, t: nat, n: nat)
    requires '\0' !in record.topic && n <= MaxRetries(t)
    ensures Tries(record, After(t), n * RETRY_DELAY, AlwaysFull(MaxRetries(t) + 1), n) == MaxRetries(t) + 1 - n
    decreases MaxRetries(t) - n
  {
    if n < MaxRetries(t) {
      assert n * RETRY_DELAY < t;
      assert (n + 1) * RETRY_DELAY == n * RETRY_DELAY + RETRY_DELAY;
      RetryBoundReached(record, t, n + 1);
    } else {
      assert t <= n * RETRY_DELAY;
    }
  }

  /** `send_result`: a refused record comes back as the future record it was made from. */
  lemma RecordRoundTrip(r: FutureRecord, channel: Opaque, refusal: Option<ErrorCode>)
    ensures FromBase(IntoBase(r, channel)) == r
    ensures var answer := SendAnswer(IntoBase(r, channel), refusal);
      answer.Rejected? ==> FromBase(answer.record) == r && answer.record.token == channel
  {
  }

  // ---- What the future yields ----

  /** Every send makes a channel of its own. */
  ghost predicate DistinctChannels(accepted: seq<Record>) {
    forall i, j :: 0 <= i < j < |accepted| ==> accepted[i].token != accepted[j].token
  }

  /** The results sent on a channel. */
  function SentOn(delivered: seq<Report>, channel: Opaque): seq<Outcome> {
    if delivered == [] then []
    else (if delivered[0].token == channel then [delivered[0].outcome] else []) + SentOn(delivered[1..], channel)
  }

  lemma {:induction false} SentOnOwn(s: State, delivered: seq<Report>, id: MessageId)
    requires id < |s.accepted| && DistinctChannels(s.accepted) && AllTruthful(s, delivered)
    ensures |SentOn(delivered, s.accepted[id].token)| == Count(delivered, id)
    ensures forall o :: o in SentOn(delivered, s.accepted[id].token) ==> id in s.verdicts && o == s.verdicts[id]
    decreases |delivered|
  {
    if delivered != [] {
      assert Truthful(s, delivered[0]);
      assert AllTruthful(s, delivered[1..]);
      SentOnOwn(s, delivered[1..], id);
    }
  }

  /** Each enqueued send resolves with the result of its own record: in every reachable state either its sender is
      still owed by native (and nothing was sent), or exactly one result was sent on its channel, the one that
      native settled for it. So awaiting it can never find the sender gone without a result. */
  lemma FutureGetsOwnResult(s: State, id: MessageId)
    requires Reachable(s) && id < |s.accepted| && DistinctChannels(s.accepted)
    ensures var sent := SentOn(s.delivered, s.accepted[id].token);
      if Owed(s, id) == 1 then sent == []
      else Owed(s, id) == 0 && id in s.verdicts && sent == [s.verdicts[id]]
  {
    forall r | r in s.delivered ensures Truthful(s, r) { CallbacksAreTruthful(s, r); }
    SentOnOwn(s, s.delivered, id);
    OpaqueInOnePlace(s, id);
    var sent := SentOn(s.delivered, s.accepted[id].token);
    if |sent| == 1 {
      assert sent[0] in sent;
    }
  }
}
