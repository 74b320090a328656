/** Delivery reports and opaque ownership of `BaseProducer` (src/producer/base_producer.rs) as a transition system.

    Native takes a record's opaque and headers when it accepts it, settles each accepted message once, and
    hands out settled messages in report batches. Any number of threads poll; each takes a batch off the
    queue, reclaims the opaques one by one for the delivery callback, and destroys the event at the end.
    Native's count of outstanding messages falls only then, and a flush succeeds exactly when it is zero. */
module ProducerDelivery {
  import opened Wrappers
  import opened Counting

  type Opaque = int
  type Bytes = int
  type Headers = int
  type ErrorCode = int
  type MessageId = nat  // the position among the accepted records
  type Thread = nat

  datatype Record = Record(
    topic: string, partition: Option<int>, payload: Option<Bytes>, key: Option<Bytes>,
    timestamp: Option<int>, headers: Option<Headers>, token: Opaque)

  datatype Outcome = Acked(partition: int, offset: int, timestamp: int) | Failed(code: ErrorCode)

  /** One message of a delivery report, with the opaque that native was given. */
  datatype Report = Report(id: MessageId, token: Opaque, outcome: Outcome)

  /** A report event in the hands of a thread: still to dispatch, in its callback, dispatched. */
  datatype Batch = Batch(todo: seq<Report>, current: seq<Report>, done: seq<Report>)

  datatype State = State(
    accepted: seq<Record>,          // history: every record that native took
    held: set<MessageId>,           // queued or in flight
    forming: seq<Report>,           // settled, batch not yet on the queue
    queue: seq<seq<Report>>,        // report events
    busy: seq<Batch>,               // the event each polling thread is working on, empty if none
    delivered: seq<Report>,         // history: delivery callbacks that have run to completion
    outstanding: int,               // native's message count
    verdicts: map<MessageId, Outcome>)

  datatype Step =
    | Accept(record: Record)
    | Settle(id: MessageId, outcome: Outcome)  // acknowledged, failed or purged
    | Publish
    | NewThread
    | Pop(thread: Thread)
    | Begin(thread: Thread)                    // reclaim the opaque, enter the callback
    | End(thread: Thread)                      // the callback returns
    | Destroy(thread: Thread)                  // the event is dropped

  const EMPTY: State := State([], {}, [], [], [], [], 0, map[])
  const NO_BATCH: Batch := Batch([], [], [])

  predicate Enabled(s: State, step: Step) {
    match step
    case Accept(_) => true
    case Settle(id, _) => id in s.held && id < |s.accepted|
    case Publish => true
    case NewThread => true
    case Pop(t) => t < |s.busy| && s.busy[t] == NO_BATCH && s.queue != []
    case Begin(t) => t < |s.busy| && s.busy[t].current == [] && s.busy[t].todo != []
    case End(t) => t < |s.busy| && s.busy[t].current != []
    case Destroy(t) => t < |s.busy| && s.busy[t].todo == [] && s.busy[t].current == []
  }

  function Apply(s: State, step: Step): State
    requires Enabled(s, step)
  {
    match step
    case Accept(record) =>
      s.(accepted := s.accepted + [record], held := s.held + {|s.accepted|}, outstanding := s.outstanding + 1)
    case Settle(id, outcome) =>
      s.(held := s.held - {id}, forming := s.forming + [Report(id, s.accepted[id].token, outcome)],
         verdicts := s.verdicts[id := outcome])
    case Publish => s.(forming := [], queue := s.queue + [s.forming])
    case NewThread => s.(busy := s.busy + [NO_BATCH])
    case Pop(t) => s.(queue := s.queue[1..], busy := s.busy[t := Batch(s.queue[0], [], [])])
    case Begin(t) =>
      var b := s.busy[t];
      s.(busy := s.busy[t := b.(todo := b.todo[1..], current := [b.todo[0]])])
    case End(t) =>
      var b := s.busy[t];
      s.(busy := s.busy[t := b.(current := [], done := b.done + b.current)], delivered := s.delivered + b.current)
    case Destroy(t) =>
      s.(busy := s.busy[t := NO_BATCH], outstanding := s.outstanding - |s.busy[t].done|)
  }

  predicate ValidRun(s: State, steps: seq<Step>)
    decreases |steps|
  {
    steps == [] || (Enabled(s, steps[0]) && ValidRun(Apply(s, steps[0]), steps[1..]))
  }

  function Exec(s: State, steps: seq<Step>): State
    requires ValidRun(s, steps)
    decreases |steps|
  {
    if steps == [] then s else Exec(Apply(s, steps[0]), steps[1..])
  }

  lemma {:induction false} ExecAppend(s: State, a: seq<Step>, b: seq<Step>)
    requires ValidRun(s, a) && ValidRun(Exec(s, a), b)
    ensures ValidRun(s, a + b) && Exec(s, a + b) == Exec(Exec(s, a), b)
    decreases |a|
  {
    if a == [] {
      assert a + b == b;
    } else {
      ExecAppend(Apply(s, a[0]), a[1..], b);
      assert (a + b)[1..] == a[1..] + b;
    }
  }

  ghost predicate Reachable(s: State) {
    exists steps :: ValidRun(EMPTY, steps) && Exec(EMPTY, steps) == s
  }

  // ---- Where messages are ----

  /** How many of the reports are about the message. */
  function Count(reports: seq<Report>, id: MessageId): nat {
    if reports == [] then 0 else Bit(reports[0].id == id) + Count(reports[1..], id)
  }

  function QueueCount(queue: seq<seq<Report>>, id: MessageId): nat {
    if queue == [] then 0 else Count(queue[0], id) + QueueCount(queue[1..], id)
  }

  function BusyCount(busy: seq<Batch>, id: MessageId): nat {
    if busy == [] then 0 else Count(busy[0].todo, id) + Count(busy[0].current, id) + BusyCount(busy[1..], id)
  }

  /** The places from which the message's opaque has not come back through a completed callback. */
  function Owed(s: State, id: MessageId): nat {
    Bit(id in s.held) + Count(s.forming, id) + QueueCount(s.queue, id) + BusyCount(s.busy, id)
  }

  function QueueSize(queue: seq<seq<Report>>): nat {
    if queue == [] then 0 else |queue[0]| + QueueSize(queue[1..])
  }

  /** Messages in the events that threads hold, called back or not. */
  function BusySize(busy: seq<Batch>): nat {
    if busy == [] then 0 else |busy[0].todo| + |busy[0].current| + |busy[0].done| + BusySize(busy[1..])
  }

  function Size(s: State): nat {
    |s.held| + |s.forming| + QueueSize(s.queue) + BusySize(s.busy)
  }

  lemma {:induction false} CountAppend(a: seq<Report>, b: seq<Report>, id: MessageId)
    ensures Count(a + b, id) == Count(a, id) + Count(b, id)
  {
    if a == [] {
      assert a + b == b;
    } else {
      CountAppend(a[1..], b, id);
      assert (a + b)[1..] == a[1..] + b;
    }
  }

  lemma CountOne(r: Report, id: MessageId)
    ensures Count([r], id) == Bit(r.id == id)
  {
    assert [r][1..] == [];
  }

  lemma {:induction false} QueueAppend(queue: seq<seq<Report>>, batch: seq<Report>, id: MessageId)
    ensures QueueCount(queue + [batch], id) == QueueCount(queue, id) + Count(batch, id)
    ensures QueueSize(queue + [batch]) == QueueSize(queue) + |batch|
  {
    if queue == [] {
      assert (queue + [batch])[1..] == [];
    } else {
      QueueAppend(queue[1..], batch, id);
      assert (queue + [batch])[1..] == queue[1..] + [batch];
    }
  }

  lemma {:induction false} BusyUpdate(busy: seq<Batch>, t: Thread, b: Batch, id: MessageId)
    requires t < |busy|
    ensures BusyCount(busy[t := b], id) == BusyCount(busy, id)
      - Count(busy[t].todo, id) - Count(busy[t].current, id) + Count(b.todo, id) + Count(b.current, id)
    ensures BusySize(busy[t := b]) == BusySize(busy)
      - |busy[t].todo| - |busy[t].current| - |busy[t].done| + |b.todo| + |b.current| + |b.done|
  {
    if t == 0 {
      assert busy[0 := b][1..] == busy[1..];
    } else {
      BusyUpdate(busy[1..], t - 1, b, id);
      assert busy[t := b][1..] == busy[1..][t - 1 := b];
    }
  }

  lemma {:induction false} BusyAppend(busy: seq<Batch>, id: MessageId)
    ensures BusyCount(busy + [NO_BATCH], id) == BusyCount(busy, id) && BusySize(busy + [NO_BATCH]) == BusySize(busy)
  {
    if busy == [] {
      assert (busy + [NO_BATCH])[1..] == [];
    } else {
      BusyAppend(busy[1..], id);
      assert (busy + [NO_BATCH])[1..] == busy[1..] + [NO_BATCH];
    }
  }

  // ---- Conservation ----

  /** The message is in one place if it was accepted, and nowhere otherwise. */
  predicate InOnePlace(s: State, id: MessageId) {
    Owed(s, id) + Count(s.delivered, id) == Bit(id < |s.accepted|)
  }

  ghost predicate Inv(s: State) {
    && (forall id: MessageId :: InOnePlace(s, id))
    && s.outstanding == Size(s)
  }

  lemma ThreadStepKeepsPlace(s: State, step: Step, id: MessageId)
    requires Enabled(s, step) && (step.Pop? || step.Begin? || step.End? || step.Destroy?)
    requires InOnePlace(s, id) && s.outstanding == Size(s)
    ensures InOnePlace(Apply(s, step), id) && Apply(s, step).outstanding == Size(Apply(s, step))
  {
    var b := s.busy[step.thread];
    var after := Apply(s, step);
    BusyUpdate(s.busy, step.thread, after.busy[step.thread], id);
    if step.Begin? {
      CountOne(b.todo[0], id);
    } else if step.End? {
      CountAppend(s.delivered, b.current, id);
    }
  }

  lemma NativeStepKeepsPlace(s: State, step: Step, id: MessageId)
    requires Enabled(s, step) && !step.Pop? && !step.Begin? && !step.End? && !step.Destroy?
    requires InOnePlace(s, id) && InOnePlace(s, |s.accepted|) && s.outstanding == Size(s)
    ensures InOnePlace(Apply(s, step), id) && Apply(s, step).outstanding == Size(Apply(s, step))
  {
    match step {
      case Accept(_) =>
      case Settle(m, outcome) =>
        var report := Report(m, s.accepted[m].token, outcome);
        CountAppend(s.forming, [report], id);
        CountOne(report, id);
      case Publish => QueueAppend(s.queue, s.forming, id);
      case NewThread => BusyAppend(s.busy, id);
    }
  }

  lemma StepKeepsInv(s: State, step: Step)
    requires Inv(s) && Enabled(s, step)
    ensures Inv(Apply(s, step))
  {
    forall id: MessageId
      ensures InOnePlace(Apply(s, step), id) && Apply(s, step).outstanding == Size(Apply(s, step))
    {
      if step.Pop? || step.Begin? || step.End? || step.Destroy? {
        ThreadStepKeepsPlace(s, step, id);
      } else {
        NativeStepKeepsPlace(s, step, id);
      }
    }
    assert InOnePlace(Apply(s, step), 0);
  }

  lemma {:induction false} RunKeepsInv(s: State, steps: seq<Step>)
    requires Inv(s) && ValidRun(s, steps)
    ensures Inv(Exec(s, steps))
    decreases |steps|
  {
    if steps != [] {
      StepKeepsInv(s, steps[0]);
      RunKeepsInv(Apply(s, steps[0]), steps[1..]);
    }
  }

  /** Delivery conservation in every reachable state: an accepted message's opaque is in exactly one place, held
      by native, in a batch, in a running callback, or reclaimed by one completed callback, and nothing else is
      anywhere. So no opaque is reclaimed twice and none is lost. */
  lemma OpaqueInOnePlace(s: State, id: MessageId)
    requires Reachable(s)
    ensures Owed(s, id) + Count(s.delivered, id) == Bit(id < |s.accepted|)
    ensures s.outstanding == Size(s)
  {
    var steps :| ValidRun(EMPTY, steps) && Exec(EMPTY, steps) == s;
    RunKeepsInv(EMPTY, steps);
    assert InOnePlace(s, id);
  }

  lemma {:induction false} CountBounded(reports: seq<Report>, id: MessageId)
    ensures Count(reports, id) <= |reports|
  {
    if reports != [] { CountBounded(reports[1..], id); }
  }

  lemma {:induction false} QueueCountBounded(queue: seq<seq<Report>>, id: MessageId)
    ensures QueueCount(queue, id) <= QueueSize(queue)
  {
    if queue != [] {
      CountBounded(queue[0], id);
      QueueCountBounded(queue[1..], id);
    }
  }

  lemma {:induction false} BusyCountBounded(busy: seq<Batch>, id: MessageId)
    ensures BusyCount(busy, id) <= BusySize(busy)
  {
    if busy != [] {
      CountBounded(busy[0].todo, id);
      CountBounded(busy[0].current, id);
      BusyCountBounded(busy[1..], id);
    }
  }

  /** Flush means drained: when native's count is zero, every accepted message has had its callback run to
      completion exactly once, whichever threads did the polling, and nothing is in any other place. */
  lemma FlushMeansDrained(s: State, id: MessageId)
    requires Reachable(s) && s.outstanding == 0
    ensures Owed(s, id) == 0 && Count(s.delivered, id) == Bit(id < |s.accepted|)
  {
    OpaqueInOnePlace(s, id);
    CountBounded(s.forming, id);
    QueueCountBounded(s.queue, id);
    BusyCountBounded(s.busy, id);
  }

  // ---- What a callback is told ----

  /** The report is about its own record: its opaque, and the outcome that native settled for it. */
  predicate Truthful(s: State, r: Report) {
    && r.id < |s.accepted| && r.token == s.accepted[r.id].token
    && r.id in s.verdicts && s.verdicts[r.id] == r.outcome
  }

  ghost predicate AllTruthful(s: State, reports: seq<Report>) {
    forall r :: r in reports ==> Truthful(s, r)
  }

  ghost predicate BatchTruthful(s: State, b: Batch) {
    AllTruthful(s, b.todo) && AllTruthful(s, b.current) && AllTruthful(s, b.done)
  }

  ghost predicate TruthInv(s: State) {
    && AllTruthful(s, s.forming) && AllTruthful(s, s.delivered)
    && (forall i :: 0 <= i < |s.queue| ==> AllTruthful(s, s.queue[i]))
    && (forall t :: 0 <= t < |s.busy| ==> BatchTruthful(s, s.busy[t]))
    && (forall id :: id in s.verdicts ==> id !in s.held && id < |s.accepted|)
  }

  /** What is true of a message stays true. */
  lemma TruthGrows(s: State, step: Step, r: Report)
    requires TruthInv(s) && Enabled(s, step) && Truthful(s, r)
    ensures Truthful(Apply(s, step), r)
  {
  }

  lemma StepKeepsTruth(s: State, step: Step)
    requires TruthInv(s) && Enabled(s, step)
    ensures TruthInv(Apply(s, step))
  {
    var t := Apply(s, step);
    forall r | Truthful(s, r) ensures Truthful(t, r) { TruthGrows(s, step, r); }
    match step {
      case Pop(i) => assert AllTruthful(s, s.queue[0]);
      case Begin(i) => assert BatchTruthful(s, s.busy[i]);
      case End(i) => assert BatchTruthful(s, s.busy[i]);
      case _ =>
    }
  }

  lemma {:induction false} RunKeepsTruth(s: State, steps: seq<Step>)
    requires TruthInv(s) && ValidRun(s, steps)
    ensures TruthInv(Exec(s, steps))
    decreases |steps|
  {
    if steps != [] {
      StepKeepsTruth(s, steps[0]);
      RunKeepsTruth(Apply(s, steps[0]), steps[1..]);
    }
  }

  /** Every delivery callback gets the opaque of its own record and the outcome settled for that record. */
  lemma CallbacksAreTruthful(s: State, r: Report)
    requires Reachable(s) && r in s.delivered
    ensures Truthful(s, r)
  {
    var steps :| ValidRun(EMPTY, steps) && Exec(EMPTY, steps) == s;
    RunKeepsTruth(EMPTY, steps);
  }

  lemma {:induction false} RunSplits(s: State, a: seq<Step>, b: seq<Step>)
    requires ValidRun(s, a + b)
    ensures ValidRun(s, a) && ValidRun(Exec(s, a), b) && Exec(s, a + b) == Exec(Exec(s, a), b)
    decreases |a|
  {
    if a == [] {
      assert a + b == b;
    } else {
      assert (a + b)[1..] == a[1..] + b;
      RunSplits(Apply(s, a[0]), a[1..], b);
    }
  }

  lemma ReachableTruth(s: State, steps: seq<Step>)
    requires Reachable(s) && ValidRun(s, steps)
    ensures TruthInv(Exec(s, steps))
  {
    var before :| ValidRun(EMPTY, before) && Exec(EMPTY, before) == s;
    RunKeepsTruth(EMPTY, before);
    RunKeepsTruth(s, steps);
  }

  /** A message is settled once and for all. */
  lemma {:induction false} VerdictsStay(s: State, steps: seq<Step>)
    requires TruthInv(s) && ValidRun(s, steps)
    ensures forall id :: id in s.verdicts ==>
      id in Exec(s, steps).verdicts && Exec(s, steps).verdicts[id] == s.verdicts[id]
    decreases |steps|
  {
    if steps != [] {
      StepKeepsTruth(s, steps[0]);
      VerdictsStay(Apply(s, steps[0]), steps[1..]);
    }
  }

  // ---- After a flush ----

  function Accepts(steps: seq<Step>): nat {
    if steps == [] then 0 else (if steps[0].Accept? then 1 else 0) + Accepts(steps[1..])
  }

  lemma {:induction false} HistoriesGrow(s: State, steps: seq<Step>)
    requires ValidRun(s, steps)
    ensures s.accepted <= Exec(s, steps).accepted && s.delivered <= Exec(s, steps).delivered
    ensures |Exec(s, steps).accepted| == |s.accepted| + Accepts(steps)
    ensures Exec(s, steps).outstanding <= s.outstanding + Accepts(steps)
    decreases |steps|
  {
    if steps != [] {
      HistoriesGrow(Apply(s, steps[0]), steps[1..]);
    }
  }

  /** From a drained state on, whatever other threads do: the records accepted by then stay delivered exactly
      once, and only records accepted since can be outstanding, so none is when none was accepted. */
  lemma DrainedPrefixStays(s: State, steps: seq<Step>, id: MessageId)
    requires Reachable(s) && s.outstanding == 0 && ValidRun(s, steps) && id < |s.accepted|
    ensures Count(Exec(s, steps).delivered, id) == 1 && Owed(Exec(s, steps), id) == 0
    ensures 0 <= Exec(s, steps).outstanding <= Accepts(steps)
  {
    var t := Exec(s, steps);
    FlushMeansDrained(s, id);
    HistoriesGrow(s, steps);
    ReachableFrom(s, steps);
    OpaqueInOnePlace(t, id);
    assert t.delivered == s.delivered + t.delivered[|s.delivered|..];
    CountAppend(s.delivered, t.delivered[|s.delivered|..], id);
  }

  lemma ReachableFrom(s: State, steps: seq<Step>)
    requires Reachable(s) && ValidRun(s, steps)
    ensures Reachable(Exec(s, steps))
  {
    var before :| ValidRun(EMPTY, before) && Exec(EMPTY, before) == s;
    ExecAppend(EMPTY, before, steps);
  }

  function AcceptAll(records: seq<Record>): seq<Step> {
    if records == [] then [] else [Accept(records[0])] + AcceptAll(records[1..])
  }

  /** That bound is reached: n records accepted are n messages outstanding. */
  lemma {:induction false} AcceptAllOutstanding(s: State, records: seq<Record>)
    ensures ValidRun(s, AcceptAll(records)) && Accepts(AcceptAll(records)) == |records|
    ensures Exec(s, AcceptAll(records)).outstanding == s.outstanding + |records|
    decreases |records|
  {
    var steps := AcceptAll(records);
    if records != [] {
      assert steps[1..] == AcceptAll(records[1..]);
      AcceptAllOutstanding(Apply(s, Accept(records[0])), records[1..]);
    }
  }

  // ---- What a thread takes, it delivers ----

  /** The reports of all events that the thread takes off the queue in a run. */
  function PoppedBy(s: State, steps: seq<Step>, me: Thread): seq<Report>
    requires ValidRun(s, steps)
    decreases |steps|
  {
    if steps == [] then []
    else (if steps[0] == Pop(me) then s.queue[0] else []) + PoppedBy(Apply(s, steps[0]), steps[1..], me)
  }

  /** The thread has the report still to dispatch, is in its callback, or the callback has completed. */
  predicate Underway(s: State, me: Thread, r: Report) {
    me < |s.busy| && (r in s.busy[me].todo || r in s.busy[me].current || r in s.delivered)
  }

  lemma UnderwayNext(s: State, step: Step, me: Thread, r: Report)
    requires Enabled(s, step) && Underway(s, me, r)
    ensures Underway(Apply(s, step), me, r)
  {
  }

  lemma {:induction false} UnderwayStays(s: State, steps: seq<Step>, me: Thread, r: Report)
    requires ValidRun(s, steps) && Underway(s, me, r)
    ensures Underway(Exec(s, steps), me, r)
    decreases |steps|
  {
    if steps != [] {
      UnderwayNext(s, steps[0], me, r);
      UnderwayStays(Apply(s, steps[0]), steps[1..], me, r);
    }
  }

  lemma {:induction false} PoppedIsUnderway(s: State, steps: seq<Step>, me: Thread, r: Report)
    requires ValidRun(s, steps) && r in PoppedBy(s, steps, me)
    ensures Underway(Exec(s, steps), me, r)
    decreases |steps|
  {
    var next := Apply(s, steps[0]);
    if steps[0] == Pop(me) && r in s.queue[0] {
      UnderwayStays(next, steps[1..], me, r);
    } else {
      PoppedIsUnderway(next, steps[1..], me, r);
    }
  }

  // ---- A flush can always succeed ----

  function BatchWork(b: Batch): nat {
    2 * |b.todo| + |b.current| + Bit(b != NO_BATCH)
  }

  function BusyWork(busy: seq<Batch>): nat {
    if busy == [] then 0 else BatchWork(busy[0]) + BusyWork(busy[1..])
  }

  /** What is left to do before everything is delivered. */
  function Work(s: State): nat {
    6 * |s.held| + 5 * |s.forming| + 3 * QueueSize(s.queue) + |s.queue| + BusyWork(s.busy)
  }

  lemma {:induction false} BusyWorkUpdate(busy: seq<Batch>, t: Thread, b: Batch)
    requires t < |busy|
    ensures BusyWork(busy[t := b]) == BusyWork(busy) - BatchWork(busy[t]) + BatchWork(b)
  {
    if t == 0 {
      assert busy[0 := b][1..] == busy[1..];
    } else {
      BusyWorkUpdate(busy[1..], t - 1, b);
      assert busy[t := b][1..] == busy[1..][t - 1 := b];
    }
  }

  lemma {:induction false} AllIdle(busy: seq<Batch>)
    requires forall t :: 0 <= t < |busy| ==> busy[t] == NO_BATCH
    ensures BusySize(busy) == 0
  {
    if busy != [] { AllIdle(busy[1..]); }
  }

  /** Unless everything is delivered, some step other than accepting a record brings that nearer. */
  lemma NextStep(s: State) returns (step: Step)
    requires Inv(s) && s.outstanding > 0 && |s.busy| > 0
    ensures Enabled(s, step) && !step.Accept? && Work(Apply(s, step)) < Work(s) && |Apply(s, step).busy| == |s.busy|
  {
    if t :| 0 <= t < |s.busy| && s.busy[t] != NO_BATCH {
      var b := s.busy[t];
      step := if b.current != [] then End(t) else if b.todo != [] then Begin(t) else Destroy(t);
      BusyWorkUpdate(s.busy, t, Apply(s, step).busy[t]);
    } else if s.queue != [] {
      step := Pop(0);
      BusyWorkUpdate(s.busy, 0, Batch(s.queue[0], [], []));
    } else if s.forming != [] {
      step := Publish;
      QueueAppend(s.queue, s.forming, 0);
    } else {
      AllIdle(s.busy);
      var id :| id in s.held;
      assert InOnePlace(s, id);
      step := Settle(id, Failed(-1));
    }
  }

  lemma {:induction false} DrainFrom(s: State) returns (steps: seq<Step>)
    requires Inv(s) && |s.busy| > 0
    ensures ValidRun(s, steps) && Accepts(steps) == 0 && Exec(s, steps).outstanding == 0
    decreases Work(s)
  {
    if s.outstanding == 0 {
      steps := [];
    } else {
      var step := NextStep(s);
      StepKeepsInv(s, step);
      var rest := DrainFrom(Apply(s, step));
      steps := [step] + rest;
      assert steps[1..] == rest;
    }
  }

  /** Nothing stands in the way of a flush: from every reachable state with a polling thread, the brokers and the
      threads can deliver every accepted message, without accepting another. */
  lemma DrainAlwaysPossible(s: State) returns (steps: seq<Step>)
    requires Reachable(s) && |s.busy| > 0
    ensures ValidRun(s, steps) && Accepts(steps) == 0
    ensures Reachable(Exec(s, steps)) && Exec(s, steps).outstanding == 0
    ensures Exec(s, steps).accepted == s.accepted
  {
    var before :| ValidRun(EMPTY, before) && Exec(EMPTY, before) == s;
    RunKeepsInv(EMPTY, before);
    steps := DrainFrom(s);
    ReachableFrom(s, steps);
    HistoriesGrow(s, steps);
  }
}
