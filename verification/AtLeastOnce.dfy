/** The at-least-once pipeline (examples/at_least_once.rs) as runs with crashes.

    One process at a time reads the partitions of the input topic, copies each message to every output topic,
    stores its position and lets the client commit stored positions in the background. It may crash at any
    point (a failed delivery makes it panic) and is started again. Storing message offset n stores n + 1. */
module AtLeastOnce {
  import opened Wrappers

  type Partition = nat
  type Topic = nat
  type Body = int  // key and payload

  datatype Cursor = Cursor(partition: Partition, offset: nat)
  datatype Copy = Copy(topic: Topic, from: Cursor, body: Body)

  /** Where to begin on a partition that has no committed offset. */
  datatype Reset = Earliest | Latest

  /** The example runs with `autoStore` off (`enable.auto.offset.store`) and takes one message at a time; the
      two switches describe the pipelines that its documentation warns of. */
  datatype Config = Config(topics: set<Topic>, reset: Reset, autoStore: bool, anyOrder: bool) {
    predicate AsWritten() { !autoStore && !anyOrder }
  }

  datatype State = State(
    log: map<Partition, seq<Body>>,
    outputs: seq<Copy>,
    committed: map<Partition, nat>,
    running: bool,
    position: map<Partition, nat>,
    stored: map<Partition, nat>,
    inFlight: map<Cursor, set<Topic>>,  // messages being copied, and the topics that have confirmed
    origin: map<Partition, nat>,        // history: where the group began without a committed offset
    received: set<Cursor>)              // history: every message that some process has received

  datatype Step =
    | Produce(partition: Partition, body: Body)  // somebody writes to the input topic
    | Start
    | Receive(partition: Partition)
    | Deliver(at: Cursor, topic: Topic)          // the delivery report of one output arrives
    | DeliverSilently(at: Cursor, topic: Topic)  // the output has the copy, the report is never seen
    | Store(at: Cursor, ok: bool)                // all outputs confirmed; storing the offset may fail
    | Commit(partition: Partition)
    | Crash

  function Initial(partitions: set<Partition>): State {
    State(map p | p in partitions :: [], [], map[], false, map[], map[], map[], map p | p in partitions :: 0, {})
  }

  predicate Enabled(c: Config, s: State, step: Step) {
    match step
    case Produce(p, _) => p in s.log
    case Start => !s.running
    case Receive(p) =>
      && s.running && (c.anyOrder || s.inFlight == map[])
      && p in s.log && p in s.position && s.position[p] < |s.log[p]|
    case Deliver(at, t) => s.running && at in s.inFlight && InLog(s, at) && t in c.topics && t !in s.inFlight[at]
    case DeliverSilently(at, t) => s.running && at in s.inFlight && InLog(s, at) && t in c.topics
    case Store(at, _) => s.running && at in s.inFlight && s.inFlight[at] == c.topics
    case Commit(p) => s.running && p in s.stored
    case Crash => s.running
  }

  predicate InLog(s: State, at: Cursor) {
    at.partition in s.log && at.offset < |s.log[at.partition]|
  }

  function StartOf(c: Config, s: State, p: Partition): nat
    requires p in s.log
  {
    if p in s.committed then s.committed[p] else if c.reset.Earliest? then 0 else |s.log[p]|
  }

  function CopyOf(s: State, at: Cursor, t: Topic): Copy
    requires InLog(s, at)
  {
    Copy(t, at, s.log[at.partition][at.offset])
  }

  function Apply(c: Config, s: State, step: Step): State
    requires Enabled(c, s, step)
  {
    match step
    case Produce(p, body) => s.(log := s.log[p := s.log[p] + [body]])
    case Start =>
      s.(running := true, stored := map[], inFlight := map[],
         position := map p | p in s.log :: StartOf(c, s, p),
         origin := map p | p in s.log :: if p in s.committed && p in s.origin then s.origin[p] else StartOf(c, s, p))
    case Receive(p) =>
      var at := Cursor(p, s.position[p]);
      s.(position := s.position[p := s.position[p] + 1], received := s.received + {at},
         inFlight := s.inFlight[at := {}],
         stored := if c.autoStore then s.stored[p := s.position[p] + 1] else s.stored)
    case Deliver(at, t) =>
      s.(outputs := s.outputs + [CopyOf(s, at, t)], inFlight := s.inFlight[at := s.inFlight[at] + {t}])
    case DeliverSilently(at, t) => s.(outputs := s.outputs + [CopyOf(s, at, t)])
    case Store(at, ok) =>
      s.(inFlight := s.inFlight - {at}, stored := if ok then s.stored[at.partition := at.offset + 1] else s.stored)
    case Commit(p) => s.(committed := s.committed[p := s.stored[p]])
    case Crash => s.(running := false, stored := map[], inFlight := map[], position := map[])
  }

  predicate ValidRun(c: Config, s: State, steps: seq<Step>)
    decreases |steps|
  {
    steps == [] || (Enabled(c, s, steps[0]) && ValidRun(c, Apply(c, s, steps[0]), steps[1..]))
  }

  function Exec(c: Config, s: State, steps: seq<Step>): State
    requires ValidRun(c, s, steps)
    decreases |steps|
  {
    if steps == [] then s else Exec(c, Apply(c, s, steps[0]), steps[1..])
  }

  // ---- What is guaranteed ----

  /** Every output topic has a copy of the message, with the message's own content. */
  predicate Copied(c: Config, s: State, at: Cursor) {
    InLog(s, at) && forall t :: t in c.topics ==> Copy(t, at, s.log[at.partition][at.offset]) in s.outputs
  }

  /** All messages of the partition from where the group began up to `limit` are copied everywhere. */
  ghost predicate CopiedBelow(c: Config, s: State, p: Partition, limit: nat)
    requires p in s.origin
  {
    forall i :: s.origin[p] <= i < limit ==> Copied(c, s, Cursor(p, i))
  }

  ghost predicate PartitionInv(c: Config, s: State, p: Partition)
    requires p in s.log && p in s.origin
  {
    && (p in s.committed ==> s.committed[p] <= |s.log[p]| && CopiedBelow(c, s, p, s.committed[p]))
    && (p in s.stored ==> p in s.position && s.stored[p] <= s.position[p] && CopiedBelow(c, s, p, s.stored[p]))
    && (s.running ==> p in s.position)
    && (p in s.position ==> s.position[p] <= |s.log[p]|)
    && (p in s.position ==> forall i :: s.origin[p] <= i < s.position[p] ==>
          Copied(c, s, Cursor(p, i)) || Cursor(p, i) in s.inFlight)
  }

  /** At most one message is in flight, the latest received of its partition; confirmed topics have their copy. */
  ghost predicate FlightInv(c: Config, s: State) {
    && (forall a, b :: a in s.inFlight && b in s.inFlight ==> a == b)
    && forall a :: a in s.inFlight ==> FlightOk(s, a)
  }

  ghost predicate Inv(c: Config, s: State) {
    && s.origin.Keys == s.log.Keys && s.position.Keys <= s.log.Keys && s.stored.Keys <= s.log.Keys
    && s.committed.Keys <= s.log.Keys
    && (c.reset.Earliest? ==> forall p :: p in s.origin ==> s.origin[p] == 0)
    && FlightInv(c, s)
    && forall p :: p in s.log ==> PartitionInv(c, s, p)
  }

  /** Copies are never taken back. */
  lemma CopiedStays(c: Config, s: State, step: Step, at: Cursor)
    requires Enabled(c, s, step) && Copied(c, s, at)
    ensures Copied(c, Apply(c, s, step), at)
  {
  }

  ghost predicate FlightOk(s: State, a: Cursor)
    requires a in s.inFlight
  {
    && InLog(s, a) && a.partition in s.position && s.position[a.partition] == a.offset + 1
    && forall t :: t in s.inFlight[a] ==> CopyOf(s, a, t) in s.outputs
  }

  lemma StepKeepsFlightOk(c: Config, s: State, step: Step, a: Cursor)
    requires c.AsWritten() && Enabled(c, s, step) && a in Apply(c, s, step).inFlight
    requires a in s.inFlight ==> FlightOk(s, a)
    ensures FlightOk(Apply(c, s, step), a)
  {
  }

  lemma StepKeepsFlight(c: Config, s: State, step: Step)
    requires c.AsWritten() && FlightInv(c, s) && Enabled(c, s, step)
    ensures FlightInv(c, Apply(c, s, step))
  {
    forall a | a in Apply(c, s, step).inFlight ensures FlightOk(Apply(c, s, step), a) {
      StepKeepsFlightOk(c, s, step, a);
    }
  }

  lemma ConfirmedIsCopied(c: Config, s: State, a: Cursor)
    requires Inv(c, s) && a in s.inFlight && s.inFlight[a] == c.topics
    ensures Copied(c, s, a)
  {
    assert FlightOk(s, a);
  }

  /** A received message can be confirmed on any output that has not been. */
  lemma CanConfirm(c: Config, s: State, a: Cursor, t: Topic)
    requires Inv(c, s) && s.running && a in s.inFlight && t in c.topics && t !in s.inFlight[a]
    ensures Enabled(c, s, Deliver(a, t))
  {
    assert FlightOk(s, a);
  }

  /** The steps that move what is in flight. */
  lemma FlightStepKeepsPartition(c: Config, s: State, step: Step, p: Partition)
    requires c.AsWritten() && Inv(c, s) && Enabled(c, s, step) && p in s.log
    requires step.Receive? || step.Deliver? || step.DeliverSilently? || step.Store?
    ensures p in Apply(c, s, step).origin && PartitionInv(c, Apply(c, s, step), p)
  {
    assert PartitionInv(c, s, p);
    forall at | Copied(c, s, at) ensures Copied(c, Apply(c, s, step), at) { CopiedStays(c, s, step, at); }
    if step.Store? { ConfirmedIsCopied(c, s, step.at); }
  }

  /** The others. */
  lemma OuterStepKeepsPartition(c: Config, s: State, step: Step, p: Partition)
    requires c.AsWritten() && Inv(c, s) && Enabled(c, s, step) && p in s.log
    requires step.Produce? || step.Start? || step.Commit? || step.Crash?
    ensures p in Apply(c, s, step).origin && PartitionInv(c, Apply(c, s, step), p)
  {
    assert PartitionInv(c, s, p);
    forall at | Copied(c, s, at) ensures Copied(c, Apply(c, s, step), at) { CopiedStays(c, s, step, at); }
  }

  lemma StepKeepsInv(c: Config, s: State, step: Step)
    requires c.AsWritten() && Inv(c, s) && Enabled(c, s, step)
    ensures Inv(c, Apply(c, s, step))
  {
    StepKeepsFlight(c, s, step);
    forall p | p in s.log ensures p in Apply(c, s, step).origin && PartitionInv(c, Apply(c, s, step), p) {
      if step.Receive? || step.Deliver? || step.DeliverSilently? || step.Store? {
        FlightStepKeepsPartition(c, s, step, p);
      } else {
        OuterStepKeepsPartition(c, s, step, p);
      }
    }
  }

  lemma {:induction false} RunKeepsInv(c: Config, s: State, steps: seq<Step>)
    requires c.AsWritten() && Inv(c, s) && ValidRun(c, s, steps)
    ensures Inv(c, Exec(c, s, steps))
    decreases |steps|
  {
    if steps != [] {
      StepKeepsInv(c, s, steps[0]);
      RunKeepsInv(c, Apply(c, s, steps[0]), steps[1..]);
    }
  }

  /** At-least-once, over every run with crashes and failed stores: whatever lies below the committed offset has
      been copied, content and all, to every output topic, from the first message on when the group begins at
      the earliest offset, and otherwise from where it began. While a process runs, nothing behind its position
      is missing but the one message it is working on. */
  lemma NothingCommittedIsLost(c: Config, partitions: set<Partition>, steps: seq<Step>, p: Partition, i: nat)
    requires c.AsWritten() && ValidRun(c, Initial(partitions), steps)
    requires var s := Exec(c, Initial(partitions), steps);
      p in s.origin && (c.reset.Earliest? || s.origin[p] <= i)
    ensures var s := Exec(c, Initial(partitions), steps);
      && (p in s.committed && i < s.committed[p] ==> Copied(c, s, Cursor(p, i)))
      && (p in s.position && i < s.position[p] ==> Copied(c, s, Cursor(p, i)) || s.inFlight.Keys == {Cursor(p, i)})
  {
    RunKeepsInv(c, Initial(partitions), steps);
    var s := Exec(c, Initial(partitions), steps);
    assert PartitionInv(c, s, p);
    if Cursor(p, i) in s.inFlight {
      assert s.inFlight.Keys == {Cursor(p, i)};
    }
  }

  // ---- Where the guarantee begins ----

  /** Once there is a committed offset the beginning stays where it is. */
  lemma {:induction false} OriginFixedOnceCommitted(c: Config, s: State, steps: seq<Step>, p: Partition)
    requires ValidRun(c, s, steps) && p in s.committed && p in s.origin && p in s.log
    ensures p in Exec(c, s, steps).committed && p in Exec(c, s, steps).origin
    ensures Exec(c, s, steps).origin[p] == s.origin[p]
    decreases |steps|
  {
    if steps != [] {
      OriginFixedOnceCommitted(c, Apply(c, s, steps[0]), steps[1..], p);
    }
  }

  // ---- Exactly which pipelines lose nothing ----

  /** Everything behind a position is copied everywhere or being worked on. */
  ghost predicate NothingSkipped(c: Config, s: State) {
    forall p, i: nat :: p in s.position && i < s.position[p] ==>
      Copied(c, s, Cursor(p, i)) || Cursor(p, i) in s.inFlight
  }

  /** The message was received once; the position is past it, nobody works on it and some output lacks it. */
  predicate Lost(c: Config, s: State, at: Cursor) {
    && at in s.received && at.partition in s.position && at.offset < s.position[at.partition]
    && !Copied(c, s, at) && at !in s.inFlight
  }

  ghost predicate NeverSkips(c: Config) {
    forall partitions, steps | ValidRun(c, Initial(partitions), steps) ::
      NothingSkipped(c, Exec(c, Initial(partitions), steps))
  }

  ghost predicate NeverLoses(c: Config) {
    forall partitions, steps, at | ValidRun(c, Initial(partitions), steps) ::
      !Lost(c, Exec(c, Initial(partitions), steps), at)
  }

  /** A run that ends in the given state. */
  ghost predicate Reaches(c: Config, steps: seq<Step>, s: State) {
    ValidRun(c, Initial({0}), steps) && Exec(c, Initial({0}), steps) == s
  }

  lemma Then(c: Config, steps: seq<Step>, s: State, step: Step) returns (longer: seq<Step>, t: State)
    requires Reaches(c, steps, s) && Enabled(c, s, step)
    ensures Reaches(c, longer, t) && t == Apply(c, s, step)
  {
    RunExtends(c, Initial({0}), steps, step);
    longer, t := steps + [step], Apply(c, s, step);
  }

  lemma StartedOnEmpty(c: Config) returns (steps: seq<Step>, s: State)
    ensures Reaches(c, steps, s) && s.running && s.log == map[0 := []] && s.position == map[0 := 0]
    ensures s.outputs == [] && s.committed == map[] == s.stored && s.inFlight == map[]
  {
    steps, s := Then(c, [], Initial({0}), Start);
  }

  /** A process that has started on an empty partition, where the reset makes no difference, and then received a
      message that arrived. */
  lemma FirstReceived(c: Config, body: Body) returns (steps: seq<Step>, s: State)
    ensures Reaches(c, steps, s) && s.running && s.log == map[0 := [body]] && s.outputs == [] && s.committed == map[]
    ensures s.position == map[0 := 1] && Cursor(0, 0) in s.received && s.inFlight == map[Cursor(0, 0) := {}]
    ensures c.autoStore ==> s.stored == map[0 := 1]
  {
    steps, s := StartedOnEmpty(c);
    steps, s := Then(c, steps, s, Produce(0, body));
    assert s.log[0] == [body];
    steps, s := Then(c, steps, s, Receive(0));
  }

  lemma NoOutputsNotCopied(c: Config, s: State, at: Cursor)
    requires c.topics != {} && forall o :: o in s.outputs ==> o.from != at
    ensures !Copied(c, s, at)
  {
    var t :| t in c.topics;
    if InLog(s, at) {
      assert CopyOf(s, at, t) !in s.outputs;
    }
  }

  /** Resetting to the latest offset can lose a message, however the pipeline is otherwise set up: a crash before the
      first commit, and the restart begins behind a message that had been received. */
  lemma LatestLosesBeforeFirstCommit(c: Config, body: Body) returns (steps: seq<Step>, s: State)
    requires c.reset.Latest? && c.topics != {}
    ensures Reaches(c, steps, s) && s.running && s.committed == map[] && Lost(c, s, Cursor(0, 0))
  {
    steps, s := FirstReceived(c, body);
    steps, s := Then(c, steps, s, Crash);
    steps, s := Then(c, steps, s, Start);
    NoOutputsNotCopied(c, s, Cursor(0, 0));
  }

  /** So can storing on receipt: the message is committed, the process crashes, no output has it. */
  lemma StoringEarlyLoses(c: Config, body: Body) returns (steps: seq<Step>, s: State)
    requires c.autoStore && c.topics != {}
    ensures Reaches(c, steps, s) && s.committed == map[0 := 1] && Lost(c, s, Cursor(0, 0))
  {
    steps, s := FirstReceived(c, body);
    steps, s := Then(c, steps, s, Commit(0));
    steps, s := Then(c, steps, s, Crash);
    steps, s := Then(c, steps, s, Start);
    NoOutputsNotCopied(c, s, Cursor(0, 0));
  }

  /** Confirms one message on all its remaining outputs. */
  lemma {:induction false} DeliverAll(c: Config, steps: seq<Step>, s: State, at: Cursor)
    returns (longer: seq<Step>, t: State)
    requires Reaches(c, steps, s) && s.running && at in s.inFlight && InLog(s, at) && s.inFlight[at] <= c.topics
    ensures Reaches(c, longer, t) && t == s.(outputs := t.outputs, inFlight := s.inFlight[at := c.topics])
    ensures forall o :: o in t.outputs ==> o in s.outputs || o.from == at
    decreases c.topics - s.inFlight[at]
  {
    if topic :| topic in c.topics && topic !in s.inFlight[at] {
      longer, t := Then(c, steps, s, Deliver(at, topic));
      longer, t := DeliverAll(c, longer, t, at);
    } else {
      assert s.inFlight[at] == c.topics;
      longer, t := steps, s;
    }
  }

  /** Two messages received, the later one confirmed everywhere and the earlier one nowhere. */
  lemma LaterConfirmed(c: Config, body: Body, later: Body) returns (steps: seq<Step>, s: State)
    requires c.anyOrder
    ensures Reaches(c, steps, s) && s.running && Cursor(0, 1) in s.inFlight && s.inFlight[Cursor(0, 1)] == c.topics
    ensures s.committed == map[] && s.log.Keys == {0} && |s.log[0]| == 2 && Cursor(0, 0) in s.received
    ensures forall o :: o in s.outputs ==> o.from != Cursor(0, 0)
  {
    steps, s := FirstReceived(c, body);
    steps, s := Then(c, steps, s, Produce(0, later));
    steps, s := Then(c, steps, s, Receive(0));
    assert InLog(s, Cursor(0, 1));
    steps, s := DeliverAll(c, steps, s, Cursor(0, 1));
  }

  /** And so can finishing out of order: the later message is stored and committed before the earlier is copied. */
  lemma OutOfOrderLoses(c: Config, body: Body, later: Body) returns (steps: seq<Step>, s: State)
    requires c.anyOrder && c.topics != {}
    ensures Reaches(c, steps, s) && s.committed == map[0 := 2] && Lost(c, s, Cursor(0, 0))
  {
    steps, s := LaterConfirmed(c, body, later);
    steps, s := Then(c, steps, s, Store(Cursor(0, 1), true));
    steps, s := Then(c, steps, s, Commit(0));
    assert s.committed == map[0 := 2];
    steps, s := Then(c, steps, s, Crash);
    steps, s := Then(c, steps, s, Start);
    NoOutputsNotCopied(c, s, Cursor(0, 0));
  }

  lemma AsWrittenNeverSkips(c: Config)
    requires c.topics == {} || (c.AsWritten() && c.reset.Earliest?)
    ensures NeverSkips(c)
  {
    forall partitions, steps | ValidRun(c, Initial(partitions), steps)
      ensures NothingSkipped(c, Exec(c, Initial(partitions), steps))
    {
      var s := Exec(c, Initial(partitions), steps);
      forall p, i: nat | p in s.position && i < s.position[p]
        ensures Copied(c, s, Cursor(p, i)) || Cursor(p, i) in s.inFlight
      {
        BehindPosition(c, partitions, steps, p, i);
      }
    }
  }

  lemma BehindPosition(c: Config, partitions: set<Partition>, steps: seq<Step>, p: Partition, i: nat)
    requires c.topics == {} || (c.AsWritten() && c.reset.Earliest?)
    requires ValidRun(c, Initial(partitions), steps)
    requires var s := Exec(c, Initial(partitions), steps); p in s.position && i < s.position[p]
    ensures var s := Exec(c, Initial(partitions), steps); Copied(c, s, Cursor(p, i)) || Cursor(p, i) in s.inFlight
  {
    PositionsInLog(c, Initial(partitions), steps);
    if c.topics != {} {
      NothingCommittedIsLost(c, partitions, steps, p, i);
    }
  }

  /** Positions stay inside the log whatever the configuration. */
  ghost predicate InsideLog(s: State) {
    && s.origin.Keys == s.log.Keys
    && Within(s, s.committed) && Within(s, s.stored) && Within(s, s.position)
    && (forall a :: a in s.inFlight ==> InLog(s, a))
  }

  ghost predicate Within(s: State, offsets: map<Partition, nat>) {
    forall p :: p in offsets ==> p in s.log && offsets[p] <= |s.log[p]|
  }

  lemma ProduceInsideLog(c: Config, s: State, p: Partition, body: Body)
    requires InsideLog(s) && Enabled(c, s, Produce(p, body))
    ensures InsideLog(Apply(c, s, Produce(p, body)))
  {
  }

  lemma StartInsideLog(c: Config, s: State)
    requires InsideLog(s) && Enabled(c, s, Start)
    ensures InsideLog(Apply(c, s, Start))
  {
  }

  lemma ReceiveInsideLog(c: Config, s: State, p: Partition)
    requires InsideLog(s) && Enabled(c, s, Receive(p))
    ensures InsideLog(Apply(c, s, Receive(p)))
  {
  }

  lemma StoreInsideLog(c: Config, s: State, at: Cursor, ok: bool)
    requires InsideLog(s) && Enabled(c, s, Store(at, ok))
    ensures InsideLog(Apply(c, s, Store(at, ok)))
  {
  }

  lemma CommitInsideLog(c: Config, s: State, p: Partition)
    requires InsideLog(s) && Enabled(c, s, Commit(p))
    ensures InsideLog(Apply(c, s, Commit(p)))
  {
  }

  lemma StepInsideLog(c: Config, s: State, step: Step)
    requires InsideLog(s) && Enabled(c, s, step)
    ensures InsideLog(Apply(c, s, step))
  {
    match step {
      case Produce(p, body) => ProduceInsideLog(c, s, p, body);
      case Start => StartInsideLog(c, s);
      case Receive(p) => ReceiveInsideLog(c, s, p);
      case Store(at, ok) => StoreInsideLog(c, s, at, ok);
      case Commit(p) => CommitInsideLog(c, s, p);
      case _ =>
    }
  }

  lemma {:induction false} PositionsInLog(c: Config, s: State, steps: seq<Step>)
    requires InsideLog(s) && ValidRun(c, s, steps)
    ensures InsideLog(Exec(c, s, steps))
    decreases |steps|
  {
    if steps != [] {
      StepInsideLog(c, s, steps[0]);
      PositionsInLog(c, Apply(c, s, steps[0]), steps[1..]);
    }
  }

  /** A pipeline never loses a message it has received, and never even skips one behind its position, exactly when it
      has no outputs at all, or stores by hand, in order, and resets to the earliest offset. */
  lemma NeverLosesIff(c: Config)
    ensures NeverLoses(c) <==> c.topics == {} || (c.AsWritten() && c.reset.Earliest?)
    ensures NeverSkips(c) <==> c.topics == {} || (c.AsWritten() && c.reset.Earliest?)
  {
    if c.topics == {} || (c.AsWritten() && c.reset.Earliest?) {
      AsWrittenNeverSkips(c);
      forall partitions, steps, at | ValidRun(c, Initial(partitions), steps)
        ensures !Lost(c, Exec(c, Initial(partitions), steps), at)
      {
        assert NothingSkipped(c, Exec(c, Initial(partitions), steps));
      }
    } else {
      var steps, s;
      if c.reset.Latest? {
        steps, s := LatestLosesBeforeFirstCommit(c, 0);
      } else if c.autoStore {
        steps, s := StoringEarlyLoses(c, 0);
      } else {
        steps, s := OutOfOrderLoses(c, 0, 1);
      }
      assert Lost(c, Exec(c, Initial({0}), steps), Cursor(0, 0));
    }
  }

  // ---- The loop itself ----

  /** One turn of the main loop as the environment decides it: what happens in the background before each of its
      operations, the partition that a message comes from, the outputs whose delivery fails, and whether storing the
      offset works. */
  datatype Turn = Turn(meanwhile: seq<seq<Step>>, partition: Partition, failing: set<Topic>, storeOk: bool)

  /** New input, commits of stored offsets, and copies that arrive without a report. */
  predicate Background(step: Step) {
    step.Produce? || step.Commit? || step.DeliverSilently?
  }

  function Nth(meanwhile: seq<seq<Step>>, n: nat): seq<Step> {
    if n < |meanwhile| then meanwhile[n] else []
  }

  /** Those of the given steps that are of the background and can be taken, one after the other. */
  function Backgrounded(c: Config, s: State, steps: seq<Step>): State
    decreases |steps|
  {
    if steps == [] then s
    else
      Backgrounded(
        c, if Background(steps[0]) && Enabled(c, s, steps[0]) then Apply(c, s, steps[0]) else s, steps[1..])
  }

  /** What may have been committed since: offsets that had been stored before, and nothing else. */
  ghost predicate CommitsOnlyStored(before: State, after: State) {
    forall q :: q in after.committed ==>
      || (q in before.committed && after.committed[q] == before.committed[q])
      || (q in before.stored && after.committed[q] == before.stored[q])
  }

  /** What the background leaves alone. */
  ghost predicate OnlyBackground(before: State, after: State) {
    && after.running == before.running && after.inFlight == before.inFlight
    && after.position == before.position && after.stored == before.stored
    && CommitsOnlyStored(before, after)
  }

  /** Nothing is taken back: logs and outputs only grow. */
  ghost predicate Extends(before: State, after: State) {
    && before.outputs <= after.outputs
    && forall p :: p in before.log ==> p in after.log && before.log[p] <= after.log[p]
  }

  lemma StepExtends(c: Config, s: State, step: Step)
    requires Enabled(c, s, step)
    ensures Extends(s, Apply(c, s, step))
  {
  }

  lemma CopiedInExtension(c: Config, before: State, after: State, at: Cursor)
    requires Extends(before, after) && Copied(c, before, at)
    ensures Copied(c, after, at)
  {
    assert after.log[at.partition][at.offset] == before.log[at.partition][at.offset];
    forall t | t in c.topics ensures Copy(t, at, after.log[at.partition][at.offset]) in after.outputs {
      var copy := Copy(t, at, before.log[at.partition][at.offset]);
      var k :| 0 <= k < |before.outputs| && before.outputs[k] == copy;
      assert after.outputs[k] == copy;
    }
  }

  // ---- What the main loop achieves ----

  /** How many of the messages handled are of the partition. */
  function HandledOn(handled: seq<Option<Cursor>>, p: Partition): nat {
    if handled == [] then 0
    else
      var last := handled[|handled| - 1];
      HandledOn(handled[..|handled| - 1], p) + if last.Some? && last.value.partition == p then 1 else 0
  }

  /** The stored offsets after the turns: each message handled whose store worked has moved its partition's. */
  function StoredAfter(stored: map<Partition, nat>, turns: seq<Turn>, handled: seq<Option<Cursor>>): map<Partition, nat>
    requires |handled| <= |turns|
    decreases |handled|
  {
    if handled == [] then stored
    else
      var n := |handled| - 1;
      var before := StoredAfter(stored, turns, handled[..n]);
      match handled[n]
      case Some(at) => if turns[n].storeOk then before[at.partition := at.offset + 1] else before
      case None => before
  }

  /** A turn that is over: its message is everywhere, or there was none left of what there was at the beginning. */
  ghost predicate TurnDone(c: Config, first: State, s: State, turn: Turn, handled: Option<Cursor>) {
    match handled
    case Some(at) => at.partition == turn.partition && turn.failing !! c.topics && Copied(c, s, at)
    case None =>
      turn.partition in first.log && turn.partition in s.position ==>
        |first.log[turn.partition]| <= s.position[turn.partition]
  }

  /** All turns so far are over, every partition has moved by one message per turn that found one, and what was stored
      is stored. */
  ghost predicate TurnsDone(c: Config, first: State, s: State, turns: seq<Turn>, handled: seq<Option<Cursor>>) {
    && |handled| <= |turns| && s.running && s.inFlight == map[] && Extends(first, s)
    && (forall n :: 0 <= n < |handled| ==> TurnDone(c, first, s, turns[n], handled[n]))
    && s.position.Keys == first.position.Keys
    && (forall p :: p in first.position ==> s.position[p] == first.position[p] + HandledOn(handled, p))
    && s.stored == StoredAfter(first.stored, turns, handled)
  }

  lemma HandledOneMore(handled: seq<Option<Cursor>>, h: Option<Cursor>, p: Partition)
    ensures HandledOn(handled + [h], p) == HandledOn(handled, p) + if h.Some? && h.value.partition == p then 1 else 0
  {
    assert (handled + [h])[..|handled|] == handled;
  }

  /** Where a turn leaves a partition. */
  function MovedBy(position: map<Partition, nat>, h: Option<Cursor>): map<Partition, nat> {
    match h
    case Some(at) => if at.partition in position then position[at.partition := position[at.partition] + 1] else position
    case None => position
  }

  /** One more turn, that has handled a message or found none. */
  lemma OneMoreTurn(
    c: Config, first: State, s: State, t: State, turns: seq<Turn>, handled: seq<Option<Cursor>>, h: Option<Cursor>)
    requires TurnsDone(c, first, s, turns, handled) && |handled| < |turns|
    requires t.running && t.inFlight == map[] && Extends(s, t) && TurnDone(c, s, t, turns[|handled|], h)
    requires t.position == MovedBy(s.position, h) && t.stored == StoredAfter(s.stored, [turns[|handled|]], [h])
    ensures TurnsDone(c, first, t, turns, handled + [h])
  {
    var all := handled + [h];
    forall n | 0 <= n < |all| ensures TurnDone(c, first, t, turns[n], all[n]) {
      if n < |handled| {
        assert TurnDone(c, first, s, turns[n], handled[n]);
        if handled[n].Some? { CopiedInExtension(c, s, t, handled[n].value); }
      }
    }
    forall p | p in first.position ensures t.position[p] == first.position[p] + HandledOn(all, p) {
      HandledOneMore(handled, h, p);
    }
    StoredOneMore(first.stored, turns, handled, h);
  }

  function TurnsOn(turns: seq<Turn>, p: Partition): nat {
    if turns == [] then 0
    else TurnsOn(turns[..|turns| - 1], p) + if turns[|turns| - 1].partition == p then 1 else 0
  }

  /** So a partition keeps up with its turns unless it has run out of what there was at the beginning. */
  lemma {:induction false} KeepsUp(
    c: Config, first: State, s: State, turns: seq<Turn>, handled: seq<Option<Cursor>>, p: Partition)
    requires |handled| == |turns| && p in first.log && p in s.position && s.position[p] < |first.log[p]|
    requires forall n :: 0 <= n < |handled| ==> TurnDone(c, first, s, turns[n], handled[n])
    ensures HandledOn(handled, p) == TurnsOn(turns, p)
    decreases |turns|
  {
    if turns != [] {
      var n := |turns| - 1;
      assert TurnDone(c, first, s, turns[n], handled[n]);
      forall k | 0 <= k < n ensures TurnDone(c, first, s, turns[..n][k], handled[..n][k]) {
        assert TurnDone(c, first, s, turns[k], handled[k]);
      }
      KeepsUp(c, first, s, turns[..n], handled[..n], p);
    }
  }

  /** A turn that finds nothing to receive. */
  lemma NothingLeft(c: Config, first: State, t: State, turn: Turn)
    requires OnlyBackground(first, t) && Extends(first, t) && t.running && t.inFlight == map[]
    requires !Enabled(c, t, Receive(turn.partition))
    ensures TurnDone(c, first, t, turn, None) && t.stored == StoredAfter(first.stored, [turn], [None])
  {
    StoredAfterOne(first.stored, turn, None);
  }

  /** A turn that handles a message, after what the background does. */
  lemma MessageHandled(c: Config, first: State, mid: State, t: State, turn: Turn, at: Cursor)
    requires OnlyBackground(first, mid) && turn.partition in mid.position && Copied(c, t, at)
    requires at == Cursor(turn.partition, mid.position[turn.partition]) && turn.failing !! c.topics
    requires t.position == mid.position[at.partition := at.offset + 1]
    requires t.stored == if turn.storeOk then mid.stored[at.partition := at.offset + 1] else mid.stored
    ensures TurnDone(c, first, t, turn, Some(at)) && t.position == MovedBy(first.position, Some(at))
    ensures t.stored == StoredAfter(first.stored, [turn], [Some(at)])
  {
    StoredAfterOne(first.stored, turn, Some(at));
  }

  lemma StoredAfterOne(stored: map<Partition, nat>, turn: Turn, h: Option<Cursor>)
    ensures StoredAfter(stored, [turn], [h]) ==
      if h.Some? && turn.storeOk then stored[h.value.partition := h.value.offset + 1] else stored
  {
    assert [h][..0] == [];
  }

  lemma StoredOneMore(stored: map<Partition, nat>, turns: seq<Turn>, handled: seq<Option<Cursor>>, h: Option<Cursor>)
    requires |handled| < |turns|
    ensures StoredAfter(stored, turns, handled + [h]) ==
      StoredAfter(StoredAfter(stored, turns, handled), [turns[|handled|]], [h])
  {
    assert (handled + [h])[..|handled|] == handled;
    assert [h][..0] == [];
  }

  class Pipeline {
    const config: Config
    var state: State
    ghost var run: seq<Step>
    ghost const start: State

    constructor (config: Config, state: State)
      requires config.AsWritten() && Inv(config, state)
      ensures Valid() && this.state == state && this.config == config && run == []
    {
      this.config, this.state, this.run, this.start := config, state, [], state;
    }

    ghost predicate Valid()
      reads this
    {
      && config.AsWritten() && Inv(config, start)
      && ValidRun(config, start, run) && state == Exec(config, start, run)
    }

    lemma ValidHasInv()
      requires Valid()
      ensures Inv(config, state)
    {
      RunKeepsInv(config, start, run);
    }

    lemma ConfirmedEverywhere(at: Cursor)
      requires Valid() && at in state.inFlight && state.inFlight[at] == config.topics
      ensures Copied(config, state, at)
    {
      ValidHasInv();
      ConfirmedIsCopied(config, state, at);
    }

    method Take(step: Step)
      requires Valid() && Enabled(config, state, step)
      modifies this`state, this`run
      ensures Valid() && state == Apply(config, old(state), step) && run == old(run) + [step]
      ensures Extends(old(state), state)
    {
      StepExtends(config, state, step);
      RunExtends(config, start, run, step);
      run := run + [step];
      state := Apply(config, state, step);
    }

    /** Background activity between two operations of the loop. */
    method Meanwhile(steps: seq<Step>)
      requires Valid() && state.running
      modifies this`state, this`run
      ensures Valid() && OnlyBackground(old(state), state) && Extends(old(state), state)
      ensures state == Backgrounded(config, old(state), steps)
    {
      for i := 0 to |steps|
        invariant Valid() && OnlyBackground(old(state), state) && Extends(old(state), state)
        invariant Backgrounded(config, old(state), steps) == Backgrounded(config, state, steps[i..])
      {
        assert steps[i..][1..] == steps[i + 1..];
        if Background(steps[i]) && Enabled(config, state, steps[i]) {
          Take(steps[i]);
        }
      }
    }

    /** The next message of a partition, now being worked on. */
    method ReceiveFrom(p: Partition) returns (at: Cursor)
      requires Valid() && Enabled(config, state, Receive(p))
      modifies this`state, this`run
      ensures Valid() && state.running && at == Cursor(p, old(state).position[p])
      ensures at in state.inFlight && state.inFlight[at] == {} && Extends(old(state), state)
      ensures state.committed == old(state).committed && state.log == old(state).log
      ensures state.stored == old(state).stored && state.position == old(state).position[p := at.offset + 1]
    {
      at := Cursor(p, state.position[p]);
      Take(Receive(p));
    }

    /** The background, and then one delivery report; a failed delivery is a panic. */
    method AwaitReport(at: Cursor, topic: Topic, failed: bool, meanwhile: seq<Step>)
      requires Valid() && state.running && at in state.inFlight
      requires topic in config.topics && topic !in state.inFlight[at]
      modifies this`state, this`run
      ensures Valid() && state.running == !failed && CommitsOnlyStored(old(state), state)
      ensures Extends(old(state), state)
      ensures !failed ==> state.position == old(state).position && state.stored == old(state).stored
      ensures !failed ==> at in state.inFlight && state.inFlight[at] == old(state).inFlight[at] + {topic}
    {
      Meanwhile(meanwhile);
      if failed {
        Take(Crash);
      } else {
        ValidHasInv();
        CanConfirm(config, state, at, topic);
        Take(Deliver(at, topic));
      }
    }

    /** Copies one received message to every output topic, in whatever order the reports come, and waits for the
        reports; a failure is a panic. */
    method CopyToOutputs(at: Cursor, failing: set<Topic>, meanwhile: seq<seq<Step>>) returns (ok: bool)
      requires Valid() && state.running && at in state.inFlight && state.inFlight[at] == {}
      modifies this`state, this`run
      ensures Valid() && ok == state.running && (ok <==> failing !! config.topics)
      ensures CommitsOnlyStored(old(state), state) && Extends(old(state), state)
      ensures ok ==> state.position == old(state).position && state.stored == old(state).stored
      ensures ok ==> at in state.inFlight && state.inFlight[at] == config.topics && Copied(config, state, at)
    {
      var rest := config.topics;
      ok := true;
      while rest != {} && ok
        invariant Valid() && ok == state.running && CommitsOnlyStored(old(state), state)
        invariant Extends(old(state), state)
        invariant rest <= config.topics && (ok <==> failing !! config.topics - rest)
        invariant ok ==> state.position == old(state).position && state.stored == old(state).stored
        invariant ok ==> at in state.inFlight && state.inFlight[at] == config.topics - rest
        decreases rest
      {
        var topic :| topic in rest;
        rest := rest - {topic};
        AwaitReport(at, topic, topic in failing, Nth(meanwhile, |config.topics - rest|));
        ok := topic !in failing;
      }
      if ok {
        ConfirmedEverywhere(at);
      }
    }

    /** Stores the offset of a message that is everywhere; a failure is only logged. */
    method Finish(at: Cursor, ok: bool)
      requires Valid() && Enabled(config, state, Store(at, ok)) && Copied(config, state, at)
      modifies this`state, this`run
      ensures Valid() && state.running && state.inFlight == map[] && Copied(config, state, at)
      ensures Extends(old(state), state)
      ensures state.committed == old(state).committed && state.log == old(state).log
      ensures state.position == old(state).position
      ensures state.stored == if ok then old(state).stored[at.partition := at.offset + 1] else old(state).stored
    {
      ValidHasInv();
      assert state.inFlight.Keys == {at};
      CopiedStays(config, state, Store(at, ok), at);
      Take(Store(at, ok));
    }

    /** One message, from receipt to stored offset, with the background at work in between. If an output fails the
        process is gone; otherwise the message is everywhere, the position has moved past it and, if storing works, so
        has the stored offset. Only what had been stored before can have been committed by then. */
    method HandleMessage(p: Partition, failing: set<Topic>, storeOk: bool, meanwhile: seq<seq<Step>>)
      returns (at: Cursor)
      requires Valid() && Enabled(config, state, Receive(p))
      modifies this`state, this`run
      ensures Valid() && CommitsOnlyStored(old(state), state) && Extends(old(state), state)
      ensures state.running <==> failing !! config.topics
      ensures at == Cursor(p, old(state).position[p])
      ensures state.running ==> state.inFlight == map[] && Copied(config, state, at)
      ensures state.running ==> state.position == old(state).position[p := at.offset + 1]
      ensures state.running ==>
        state.stored == if storeOk then old(state).stored[p := at.offset + 1] else old(state).stored
    {
      at := ReceiveFrom(p);
      var ok := CopyToOutputs(at, failing, meanwhile);
      if ok {
        Meanwhile(Nth(meanwhile, 0));
        ConfirmedEverywhere(at);
        Finish(at, storeOk);
      }
    }

    /** One turn: the background, and then a message of the turn's partition if one is left. */
    method TakeTurn(turn: Turn) returns (h: Option<Cursor>)
      requires Valid() && state.running && state.inFlight == map[]
      modifies this`state, this`run
      ensures Valid() && Extends(old(state), state)
      ensures state.running ==> state.inFlight == map[] && TurnDone(config, old(state), state, turn, h)
      ensures state.running ==>
        state.position == MovedBy(old(state).position, h) && state.stored == StoredAfter(old(state).stored, [turn], [h])
      ensures !state.running ==> !(turn.failing !! config.topics)
    {
      Meanwhile(Nth(turn.meanwhile, 0));
      ghost var mid := state;
      if !Enabled(config, state, Receive(turn.partition)) {
        NothingLeft(config, old(state), state, turn);
        return None;
      }
      var at := HandleMessage(
        turn.partition, turn.failing, turn.storeOk, if turn.meanwhile == [] then [] else turn.meanwhile[1..]);
      h := Some(at);
      if state.running {
        MessageHandled(config, old(state), mid, state, turn, at);
      }
    }

    /** The main loop; it ends only with the process. Each turn on a partition that has a message left handles one: it
        is copied to every output, the position moves past it and, if storing works, so does the stored offset. The
        process is gone exactly after a turn whose message could not be copied everywhere. */
    method Run(turns: seq<Turn>) returns (handled: seq<Option<Cursor>>)
      requires Valid() && state.running && state.inFlight == map[]
      modifies this`state, this`run
      ensures Valid() && |handled| <= |turns| && Extends(old(state), state)
      ensures state.running ==> |handled| == |turns| && TurnsDone(config, old(state), state, turns, handled)
      ensures state.running ==> forall p :: p in old(state).position && p in old(state).log ==>
        || |old(state).log[p]| <= state.position[p]
        || state.position[p] == old(state).position[p] + TurnsOn(turns, p)
      ensures !state.running ==> |handled| > 0 && !(turns[|handled| - 1].failing !! config.topics)
    {
      handled := [];
      while |handled| < |turns|
        invariant Valid() && TurnsDone(config, old(state), state, turns, handled)
        decreases |turns| - |handled|
      {
        ghost var before := state;
        var h := TakeTurn(turns[|handled|]);
        if !state.running {
          return handled + [h];
        }
        OneMoreTurn(config, old(state), before, state, turns, handled, h);
        handled := handled + [h];
      }
      forall p | p in old(state).position && p in old(state).log && state.position[p] < |old(state).log[p]|
        ensures state.position[p] == old(state).position[p] + TurnsOn(turns, p)
      {
        KeepsUp(config, old(state), state, turns, handled, p);
      }
    }
  }

  lemma {:induction false} RunExtends(c: Config, s: State, steps: seq<Step>, step: Step)
    requires ValidRun(c, s, steps) && Enabled(c, Exec(c, s, steps), step)
    ensures ValidRun(c, s, steps + [step]) && Exec(c, s, steps + [step]) == Apply(c, Exec(c, s, steps), step)
    decreases |steps|
  {
    if steps == [] {
      assert (steps + [step])[1..] == [];
    } else {
      RunExtends(c, Apply(c, s, steps[0]), steps[1..], step);
      assert (steps + [step])[1..] == steps[1..] + [step];
    }
  }
}
