/** The wakeup protocol of `MessageStream` (src/consumer/stream_consumer.rs) as a transition system.

    Any number of streams share one native queue and one waker slab. The queue's callback is edge-triggered:
    an enqueue on an empty queue owes one callback, which runs as a step of its own. Every native poll, every
    slab operation (each holds the slab's mutex) and the handling of one event is atomic; anything may happen
    between two of them.

    A waker is named by its task. Waking a task notifies every stream whose latest poll was made by that
    task, and a notified stream is one that its task will poll again. */
module StreamWakeup {
  import opened Wrappers
  import opened ClientEvents
  import opened PollEngine

  type StreamId = nat
  type Slot = nat
  type Task = nat

  /** Where a stream is: between polls after an item (or before the first poll), at one of the three parts of
      `poll_next`, handling an event that the first or the second poll has taken, or between polls after `Pending`. */
  datatype Pc = Idle | FirstPoll | Install | SecondPoll | Handling(event: Event, second: bool) | Waiting

  /** `eaten` holds the events taken by the current or latest call of `poll_next`. */
  datatype Stream = Stream(slot: Slot, pc: Pc, task: Task, notified: bool, eaten: seq<Event>)

  type Slab = map<Slot, Option<Task>>

  datatype System = System(
    queue: seq<Event>,
    owed: nat,                       // callbacks that the queue has to make and that have not run yet
    slab: Slab,
    streams: map<StreamId, Stream>,
    past: History)

  datatype History = History(
    enqueued: seq<Event>,               // every event ever put on the queue
    taken: seq<Taken>,                  // every event taken off it, and by whom
    returned: map<StreamId, seq<Item>>, // the items that each stream has yielded
    calls: map<StreamId, seq<Call>>,    // the context calls made in each stream's polls
    refreshTokens: bool)                // whether the context refreshes tokens, which never changes

  datatype Taken = Taken(event: Event, reader: StreamId)

  datatype Step =
    | Enqueue(event: Event)
    | Callback                            // native_message_queue_nonempty_cb
    | WakeLoop                            // the background loop's wake_all
    | Register(id: StreamId, slot: Slot)  // a new stream, in any vacant slot
    | StartPoll(id: StreamId, task: Task) // a task calls poll_next
    | NativePoll(id: StreamId)
    | Handle(id: StreamId)                // context calls for the event taken, and what it does to the poll
    | SetWaker(id: StreamId)
    | Drop(id: StreamId)

  function Fresh(refreshTokens: bool): System {
    System([], 0, map[], map[], History([], [], map[], map[], refreshTokens))
  }

  // ---- The slab operations ----

  function Wakers(slab: Slab): set<Task> {
    set k | k in slab && slab[k].Some? :: slab[k].value
  }

  function TakeAll(slab: Slab): Slab {
    map k | k in slab :: None
  }

  function Notify(streams: map<StreamId, Stream>, tasks: set<Task>): map<StreamId, Stream> {
    map id | id in streams :: streams[id].(notified := streams[id].notified || streams[id].task in tasks)
  }

  function WakeAll(s: System): System {
    s.(slab := TakeAll(s.slab), streams := Notify(s.streams, Wakers(s.slab)))
  }

  // ---- The steps ----

  predicate Polling(pc: Pc) {
    pc.FirstPoll? || pc.SecondPoll?
  }

  predicate Enabled(s: System, step: Step) {
    match step
    case Enqueue(_) => true
    case Callback => s.owed > 0
    case WakeLoop => true
    case Register(id, slot) => id !in s.streams && slot !in s.slab
    case StartPoll(id, _) => id in s.streams && (s.streams[id].pc.Idle? || s.streams[id].pc.Waiting?)
    case NativePoll(id) => id in s.streams && Polling(s.streams[id].pc)
    case Handle(id) => id in s.streams && s.streams[id].pc.Handling?
    case SetWaker(id) => id in s.streams && s.streams[id].pc.Install? && s.streams[id].slot in s.slab
    case Drop(id) => id in s.streams && (s.streams[id].pc.Idle? || s.streams[id].pc.Waiting?)
  }

  function With(s: System, id: StreamId, stream: Stream): System {
    s.(streams := s.streams[id := stream])
  }

  /** One native poll of the stream's queue. */
  function ApplyNativePoll(s: System, id: StreamId): System
    requires id in s.streams && Polling(s.streams[id].pc)
  {
    var stream := s.streams[id];
    if s.queue == [] then
      With(s, id, stream.(pc := if stream.pc.FirstPoll? then Install else Waiting))
    else
      var e := s.queue[0];
      With(s, id, stream.(pc := Handling(e, stream.pc.SecondPoll?), eaten := stream.eaten + [e]))
        .(queue := s.queue[1..], past := s.past.(taken := s.past.taken + [Taken(e, id)]))
  }

  function HistoryOf<T>(history: map<StreamId, seq<T>>, id: StreamId): seq<T> {
    if id in history then history[id] else []
  }

  /** Where a poll goes on after an event that it has taken: it polls again, waits, or yields the item. */
  function AfterEvent(e: Event, second: bool): Pc {
    match StreamResult(Some(e))
    case None => if second then SecondPoll else FirstPoll
    case Some(EventConsumed) => Waiting
    case Some(_) => Idle
  }

  function Yields(e: Event): seq<Item> {
    match StreamResult(Some(e))
    case Some(Ready(item)) => [item]
    case _ => []
  }

  function Recorded(past: History, id: StreamId, e: Event): History {
    past.(calls := past.calls[id := HistoryOf(past.calls, id) + DispatchCalls(e, past.refreshTokens)],
          returned := past.returned[id := HistoryOf(past.returned, id) + Yields(e)])
  }

  /** The context calls for an event taken, and then what `poll_next` does; a poll that has consumed an event without
      an item wakes its own task. */
  function ApplyHandle(s: System, id: StreamId): System
    requires id in s.streams && s.streams[id].pc.Handling?
  {
    var stream := s.streams[id];
    var e := stream.pc.event;
    var next := AfterEvent(e, stream.pc.second);
    s.(streams := Notify(s.streams[id := stream.(pc := next)], if next.Waiting? then {stream.task} else {}),
       past := Recorded(s.past, id, e))
  }

  /** `recheck` says whether the queue is polled again after the waker is stored, as the source does. */
  function Apply(s: System, step: Step, recheck: bool): System
    requires Enabled(s, step)
  {
    match step
    case Enqueue(e) =>
      s.(queue := s.queue + [e], owed := s.owed + (if s.queue == [] then 1 else 0),
         past := s.past.(enqueued := s.past.enqueued + [e]))
    case Callback => WakeAll(s.(owed := s.owed - 1))
    case WakeLoop => WakeAll(s)
    case Register(id, slot) =>
      With(s, id, Stream(slot, Idle, 0, false, [])).(slab := s.slab[slot := None])
    case StartPoll(id, task) =>
      With(s, id, s.streams[id].(pc := FirstPoll, task := task, notified := false, eaten := []))
    case NativePoll(id) => ApplyNativePoll(s, id)
    case Handle(id) => ApplyHandle(s, id)
    case SetWaker(id) =>
      var stream := s.streams[id];
      With(s, id, stream.(pc := if recheck then SecondPoll else Waiting))
        .(slab := s.slab[stream.slot := Some(stream.task)])
    case Drop(id) =>
      s.(streams := s.streams - {id}, slab := s.slab - {s.streams[id].slot})
  }

  predicate ValidRun(s: System, steps: seq<Step>, recheck: bool)
    decreases |steps|
  {
    steps == [] || (Enabled(s, steps[0]) && ValidRun(Apply(s, steps[0], recheck), steps[1..], recheck))
  }

  function Exec(s: System, steps: seq<Step>, recheck: bool): System
    requires ValidRun(s, steps, recheck)
    decreases |steps|
  {
    if steps == [] then s else Exec(Apply(s, steps[0], recheck), steps[1..], recheck)
  }

  lemma {:induction false} ExecAppend(s: System, a: seq<Step>, b: seq<Step>, recheck: bool)
    requires ValidRun(s, a, recheck) && ValidRun(Exec(s, a, recheck), b, recheck)
    ensures ValidRun(s, a + b, recheck) && Exec(s, a + b, recheck) == Exec(Exec(s, a, recheck), b, recheck)
    decreases |a|
  {
    if a == [] {
      assert a + b == b;
    } else {
      ExecAppend(Apply(s, a[0], recheck), a[1..], b, recheck);
      assert (a + b)[1..] == a[1..] + b;
    }
  }

  ghost predicate RunsTo(steps: seq<Step>, s: System) {
    ValidRun(Fresh(s.past.refreshTokens), steps, true) && Exec(Fresh(s.past.refreshTokens), steps, true) == s
  }

  /** Reachable states of the protocol as written. */
  ghost predicate Reachable(s: System) {
    exists steps :: RunsTo(steps, s)
  }

  // ---- The inductive invariant ----

  /** Every live stream has a slot of its own in the slab, and the slab has no other slot. */
  ghost predicate SlotsOwned(s: System) {
    && |s.slab| == |s.streams|
    && (forall id :: id in s.streams ==> s.streams[id].slot in s.slab)
    && (forall i, j :: i in s.streams && j in s.streams && i != j ==> s.streams[i].slot != s.streams[j].slot)
  }

  /** The stream is notified already, or its own slot holds the waker of its latest poll. */
  predicate Armed(s: System, id: StreamId)
    requires id in s.streams
  {
    var stream := s.streams[id];
    stream.notified || (stream.slot in s.slab && s.slab[stream.slot] == Some(stream.task))
  }

  /** No wakeup is lost: a waiting stream that nobody has notified has its waker in its slot, and either there
      is nothing to read or a callback is still to come. */
  predicate Safe(s: System, id: StreamId)
    requires id in s.streams
  {
    s.streams[id].pc.Waiting? ==>
      Armed(s, id) && (s.streams[id].notified || s.queue == [] || s.owed > 0)
  }

  predicate PastInstall(pc: Pc) {
    pc.SecondPoll? || (pc.Handling? && pc.second)
  }

  predicate StreamInv(s: System, id: StreamId)
    requires id in s.streams
  {
    Safe(s, id) && (PastInstall(s.streams[id].pc) ==> Armed(s, id))
  }

  ghost predicate Inv(s: System) {
    SlotsOwned(s) && forall id :: id in s.streams ==> StreamInv(s, id)
  }

  /** `wake_all` leaves every stream that has stored its waker notified. */
  lemma WakeAllNotifies(s: System, id: StreamId)
    requires id in s.streams && Armed(s, id)
    ensures WakeAll(s).streams[id].notified
  {
  }

  lemma StepKeepsSize(s: System, step: Step)
    requires |s.slab| == |s.streams| && Enabled(s, step)
    requires step.Drop? ==> s.streams[step.id].slot in s.slab
    ensures |Apply(s, step, true).slab| == |Apply(s, step, true).streams|
  {
    var t := Apply(s, step, true);
    if step.Drop? {
      assert t.slab.Keys == s.slab.Keys - {s.streams[step.id].slot} && t.streams.Keys == s.streams.Keys - {step.id};
    } else if !step.Register? {
      assert t.slab.Keys == s.slab.Keys && t.streams.Keys == s.streams.Keys;
    }
  }

  /** Slots are handed out and given back by `Register` and `Drop` only. */
  lemma SlotsStay(s: System, step: Step, id: StreamId)
    requires Enabled(s, step) && !step.Register? && !step.Drop?
    ensures Apply(s, step, true).slab.Keys == s.slab.Keys && Apply(s, step, true).streams.Keys == s.streams.Keys
    ensures id in s.streams ==> Apply(s, step, true).streams[id].slot == s.streams[id].slot
  {
    if step.Handle? {
      HandleFrame(s, step.id, id);
    }
  }

  /** What handling an event leaves alone, in the reader and in the other streams. */
  lemma HandleFrame(s: System, reader: StreamId, id: StreamId)
    requires Enabled(s, Handle(reader))
    ensures var t := ApplyHandle(s, reader);
      && t.slab == s.slab && t.queue == s.queue && t.owed == s.owed
      && t.past.taken == s.past.taken && t.past.enqueued == s.past.enqueued
      && t.streams.Keys == s.streams.Keys
      && (id in s.streams ==>
            && t.streams[id].(pc := s.streams[id].pc, notified := s.streams[id].notified) == s.streams[id]
            && (s.streams[id].notified ==> t.streams[id].notified)
            && (id != reader ==> t.streams[id].pc == s.streams[id].pc))
  {
  }

  lemma StepKeepsSlots(s: System, step: Step)
    requires SlotsOwned(s) && Enabled(s, step)
    ensures SlotsOwned(Apply(s, step, true))
  {
    var t := Apply(s, step, true);
    StepKeepsSize(s, step);
    if !step.Register? && !step.Drop? {
      SlotsStay(s, step, 0);
      forall id | id in s.streams ensures t.streams[id].slot == s.streams[id].slot { SlotsStay(s, step, id); }
    }
  }

  lemma HandleKeepsStream(s: System, reader: StreamId, id: StreamId)
    requires Enabled(s, Handle(reader)) && id in s.streams && StreamInv(s, id)
    ensures id in ApplyHandle(s, reader).streams && StreamInv(ApplyHandle(s, reader), id)
  {
    HandleFrame(s, reader, id);
  }

  lemma PollKeepsStream(s: System, reader: StreamId, id: StreamId)
    requires Enabled(s, NativePoll(reader)) && id in s.streams && StreamInv(s, id)
    ensures id in ApplyNativePoll(s, reader).streams && StreamInv(ApplyNativePoll(s, reader), id)
  {
  }

  lemma WakeKeepsStream(s: System, id: StreamId)
    requires id in s.streams && (s.streams[id].pc.Waiting? || PastInstall(s.streams[id].pc) ==> Armed(s, id))
    ensures id in WakeAll(s).streams && StreamInv(WakeAll(s), id)
  {
    if Armed(s, id) { WakeAllNotifies(s, id); }
  }

  lemma StepKeepsStream(s: System, step: Step, id: StreamId)
    requires SlotsOwned(s) && Enabled(s, step) && id in s.streams && StreamInv(s, id)
    requires id in Apply(s, step, true).streams
    ensures StreamInv(Apply(s, step, true), id)
  {
    match step {
      case Callback => WakeKeepsStream(s.(owed := s.owed - 1), id);
      case WakeLoop => WakeKeepsStream(s, id);
      case NativePoll(reader) => PollKeepsStream(s, reader, id);
      case Handle(reader) => HandleKeepsStream(s, reader, id);
      case _ =>
    }
  }

  /** Every step of the protocol keeps the invariant. */
  lemma StepKeepsInv(s: System, step: Step)
    requires Inv(s) && Enabled(s, step)
    ensures Inv(Apply(s, step, true))
  {
    var t := Apply(s, step, true);
    StepKeepsSlots(s, step);
    forall id | id in t.streams ensures StreamInv(t, id) {
      if id in s.streams { StepKeepsStream(s, step, id); }
    }
  }

  lemma {:induction false} RunKeepsInv(s: System, steps: seq<Step>)
    requires Inv(s) && ValidRun(s, steps, true)
    ensures Inv(Exec(s, steps, true))
    decreases |steps|
  {
    if steps != [] {
      StepKeepsInv(s, steps[0]);
      RunKeepsInv(Apply(s, steps[0], true), steps[1..]);
    }
  }

  /** No lost wakeup, in every state that any interleaving can reach. */
  lemma NoLostWakeup(s: System, id: StreamId)
    requires Reachable(s) && id in s.streams
    ensures Safe(s, id) && SlotsOwned(s)
  {
    var steps :| RunsTo(steps, s);
    RunKeepsInv(Fresh(s.past.refreshTokens), steps);
  }

  /** A wakeup is worth something: whenever an event is queued and a stream waits, at most one callback makes
      the stream notified, and the poll that follows takes the event at the head of the queue. */
  lemma WaitingStreamGetsEvent(s: System, id: StreamId, task: Task) returns (wake: seq<Step>)
    requires Reachable(s) && id in s.streams && s.streams[id].pc.Waiting? && s.queue != []
    ensures wake == [] || wake == [Callback]
    ensures ValidRun(s, wake, true) && id in Exec(s, wake, true).streams && Exec(s, wake, true).streams[id].notified
    ensures var polled := wake + [StartPoll(id, task), NativePoll(id)];
      ValidRun(s, polled, true) && Exec(s, polled, true).past.taken == s.past.taken + [Taken(s.queue[0], id)]
  {
    NoLostWakeup(s, id);
    var steps :| RunsTo(steps, s);
    RunKeepsInv(Fresh(s.past.refreshTokens), steps);
    if s.streams[id].notified {
      wake := [];
      PollTakesHead(s, id, task);
      assert wake + [StartPoll(id, task), NativePoll(id)] == [StartPoll(id, task), NativePoll(id)];
    } else {
      wake := [Callback];
      var woken := Apply(s, Callback, true);
      WakeAllNotifies(s.(owed := s.owed - 1), id);
      assert Exec(s, wake, true) == Exec(woken, wake[1..], true) == woken;
      PollTakesHead(woken, id, task);
      var polled := wake + [StartPoll(id, task), NativePoll(id)];
      assert polled[1..] == [StartPoll(id, task), NativePoll(id)];
    }
  }

  lemma PollTakesHead(s: System, id: StreamId, task: Task)
    requires id in s.streams && s.streams[id].pc.Waiting? && s.queue != []
    ensures var polled := [StartPoll(id, task), NativePoll(id)];
      ValidRun(s, polled, true) && Exec(s, polled, true).past.taken == s.past.taken + [Taken(s.queue[0], id)]
  {
    var polled := [StartPoll(id, task), NativePoll(id)];
    var s1 := Apply(s, polled[0], true);
    var s2 := Apply(s1, polled[1], true);
    assert polled[1..] == [polled[1]];
    assert [polled[1]][1..] == [];
    assert ValidRun(s2, [], true) && Exec(s2, [], true) == s2;
    assert ValidRun(s1, [polled[1]], true) && Exec(s1, [polled[1]], true) == s2;
  }

  /** A call of `poll_next` that is left alone on an empty queue waits, with its own task's waker in its slot and its
      earlier notification used up. */
  lemma PollOfEmptyQueue(s: System, id: StreamId, task: Task) returns (end: System)
    requires Reachable(s) && Enabled(s, StartPoll(id, task)) && s.queue == []
    ensures var call := [StartPoll(id, task), NativePoll(id), SetWaker(id), NativePoll(id)];
      ValidRun(s, call, true) && Exec(s, call, true) == end
    ensures end == s.(slab := end.slab, streams := end.streams)
    ensures end.slab == s.slab[s.streams[id].slot := Some(task)]
    ensures end.streams == s.streams[id := Stream(s.streams[id].slot, Waiting, task, false, [])]
  {
    NoLostWakeup(s, id);
    var call := [StartPoll(id, task), NativePoll(id), SetWaker(id), NativePoll(id)];
    var s1 := Apply(s, call[0], true);
    var s2 := Apply(s1, call[1], true);
    var s3 := Apply(s2, call[2], true);
    end := Apply(s3, call[3], true);
    assert call[1..] == [call[1], call[2], call[3]] && call[1..][1..] == [call[2], call[3]];
    assert call[1..][1..][1..] == [call[3]] && call[1..][1..][1..][1..] == [];
    assert ValidRun(s3, [call[3]], true) && Exec(s3, [call[3]], true) == end;
    assert ValidRun(s2, call[1..][1..], true) && Exec(s2, call[1..][1..], true) == end;
    assert ValidRun(s1, call[1..], true) && Exec(s1, call[1..], true) == end;
  }

  /** A first poll that has found nothing, just before it stores its waker. */
  lemma AboutToInstall() returns (steps: seq<Step>, s: System)
    ensures ValidRun(Fresh(false), steps, false) && Exec(Fresh(false), steps, false) == s
    ensures s.queue == [] && s.owed == 0 && s.slab == map[0 := None]
    ensures 0 in s.streams && s.streams[0] == Stream(0, Install, 7, false, [])
  {
    var s1 := Apply(Fresh(false), Register(0, 0), false);
    var s2 := Apply(s1, StartPoll(0, 7), false);
    s := Apply(s2, NativePoll(0), false);
    var t2 := Before(s2, NativePoll(0), [], s);
    var t1 := Before(s1, StartPoll(0, 7), t2, s);
    steps := Before(Fresh(false), Register(0, 0), t1, s);
  }

  /** The race that the second poll is there for: without it, some interleaving leaves a stream waiting,
      with an event queued, nobody notified and no callback to come. */
  lemma LostWakeupWithoutRecheck(e: Event) returns (steps: seq<Step>)
    ensures ValidRun(Fresh(false), steps, false)
    ensures var s := Exec(Fresh(false), steps, false);
      0 in s.streams && s.streams[0].pc.Waiting? && !s.streams[0].notified && s.queue == [e] && s.owed == 0
  {
    var before, s3 := AboutToInstall();
    var s4 := Apply(s3, Enqueue(e), false);
    var s5 := Apply(s4, Callback, false);
    var s6 := Apply(s5, SetWaker(0), false);
    var t5 := Before(s5, SetWaker(0), [], s6);
    var t4 := Before(s4, Callback, t5, s6);
    var t3 := Before(s3, Enqueue(e), t4, s6);
    ExecAppend(Fresh(false), before, t3, false);
    steps := before + t3;
  }

  lemma Before(s: System, step: Step, rest: seq<Step>, last: System) returns (steps: seq<Step>)
    requires Enabled(s, step)
    requires ValidRun(Apply(s, step, false), rest, false) && Exec(Apply(s, step, false), rest, false) == last
    ensures ValidRun(s, steps, false) && Exec(s, steps, false) == last
  {
    steps := [step] + rest;
    assert steps[1..] == rest;
  }

  // ---- Conservation and cancellation safety ----

  function EventsOf(taken: seq<Taken>): seq<Event> {
    seq(|taken|, i requires 0 <= i < |taken| => taken[i].event)
  }

  /** The events that one reader has taken, in order. */
  function TakenBy(taken: seq<Taken>, id: StreamId): seq<Event> {
    if taken == [] then []
    else
      var last := taken[|taken| - 1];
      TakenBy(taken[..|taken| - 1], id) + if last.reader == id then [last.event] else []
  }

  /** The items that the events carry, and the context calls they demand. */
  function ItemsOf(events: seq<Event>): seq<Item> {
    if events == [] then []
    else
      var item := ConsumerItem(events[|events| - 1]);
      ItemsOf(events[..|events| - 1]) + if item.Some? then [item.value] else []
  }

  function CallsFor(events: seq<Event>, refreshTokens: bool): seq<Call> {
    if events == [] then []
    else CallsFor(events[..|events| - 1], refreshTokens) + DispatchCalls(events[|events| - 1], refreshTokens)
  }

  predicate IsHandling(s: System, id: StreamId) {
    id in s.streams && s.streams[id].pc.Handling?
  }

  /** The events that the reader is done with: all it has taken, but for one that it is handling. */
  function Finished(s: System, id: StreamId): seq<Event> {
    var own := TakenBy(s.past.taken, id);
    if IsHandling(s, id) && own != [] then own[..|own| - 1] else own
  }

  /** What the reader is done with was yielded if it carries an item, and dispatched to the context, once and in
      order. */
  ghost predicate Accounted(s: System, id: StreamId) {
    && (IsHandling(s, id) ==> TakenBy(s.past.taken, id) == Finished(s, id) + [s.streams[id].pc.event])
    && HistoryOf(s.past.returned, id) == ItemsOf(Finished(s, id))
    && HistoryOf(s.past.calls, id) == CallsFor(Finished(s, id), s.past.refreshTokens)
  }

  /** What one call of `poll_next` has taken: skipped events only while it polls or came back empty-handed, and
      skipped events followed by one event that ended it otherwise. */
  predicate EatenWell(stream: Stream) {
    var n := |stream.eaten|;
    && (forall i :: 0 <= i < n - 1 ==> Skipped(stream.eaten[i]))
    && (Polling(stream.pc) || stream.pc.Install? ==> n > 0 ==> Skipped(stream.eaten[n - 1]))
    && (stream.pc.Handling? ==> n > 0 && stream.eaten[n - 1] == stream.pc.event)
    && (stream.pc.Waiting? && n > 0 ==> ConsumerItem(stream.eaten[n - 1]).None?)
    && (stream.pc.Idle? && n > 0 ==> ConsumerItem(stream.eaten[n - 1]).Some?)
  }

  ghost predicate Conserved(s: System) {
    && s.past.enqueued == EventsOf(s.past.taken) + s.queue
    && (forall id :: id in s.streams ==> EatenWell(s.streams[id]))
    && (forall id: StreamId :: Accounted(s, id))
  }

  lemma EventsOfAppend(taken: seq<Taken>, one: Taken)
    ensures EventsOf(taken + [one]) == EventsOf(taken) + [one.event]
  {
  }

  lemma HandleEatsWell(s: System, reader: StreamId, id: StreamId)
    requires Enabled(s, Handle(reader)) && id in s.streams && EatenWell(s.streams[id])
    ensures id in ApplyHandle(s, reader).streams && EatenWell(ApplyHandle(s, reader).streams[id])
  {
    HandleFrame(s, reader, id);
  }

  lemma StepEatsWell(s: System, step: Step, id: StreamId)
    requires Enabled(s, step) && id in Apply(s, step, true).streams
    requires id in s.streams ==> EatenWell(s.streams[id])
    ensures EatenWell(Apply(s, step, true).streams[id])
  {
    if step.Handle? {
      HandleEatsWell(s, step.id, id);
    } else if step.NativePoll? && step.id == id && s.queue != [] {
      assert Apply(s, step, true).streams[id].eaten == s.streams[id].eaten + [s.queue[0]];
    }
  }

  lemma StepConservesQueue(s: System, step: Step)
    requires s.past.enqueued == EventsOf(s.past.taken) + s.queue && Enabled(s, step)
    ensures var t := Apply(s, step, true); t.past.enqueued == EventsOf(t.past.taken) + t.queue
  {
    if step.NativePoll? && s.queue != [] {
      EventsOfAppend(s.past.taken, Taken(s.queue[0], step.id));
      assert s.queue == [s.queue[0]] + s.queue[1..];
    }
  }

  lemma TakenByAppend(taken: seq<Taken>, one: Taken, id: StreamId)
    ensures TakenBy(taken + [one], id) == TakenBy(taken, id) + if one.reader == id then [one.event] else []
  {
    assert (taken + [one])[..|taken|] == taken;
  }

  /** The account of a reader for whom nothing has changed. */
  lemma SameAccount(s: System, t: System, id: StreamId)
    requires Accounted(s, id) && TakenBy(t.past.taken, id) == TakenBy(s.past.taken, id)
    requires t.past.(taken := s.past.taken, enqueued := s.past.enqueued) == s.past
    requires IsHandling(t, id) == IsHandling(s, id)
    requires IsHandling(s, id) ==> t.streams[id].pc == s.streams[id].pc
    ensures Accounted(t, id)
  {
  }

  /** The account of a reader who has taken one more event, to be handled. */
  lemma OneMoreTaken(s: System, t: System, id: StreamId, e: Event)
    requires Accounted(s, id) && !IsHandling(s, id) && t.past.(taken := s.past.taken) == s.past
    requires TakenBy(t.past.taken, id) == TakenBy(s.past.taken, id) + [e]
    requires IsHandling(t, id) && t.streams[id].pc.event == e
    ensures Accounted(t, id)
  {
    assert Finished(t, id) == TakenBy(s.past.taken, id);
  }

  lemma PollAccounted(s: System, reader: StreamId, id: StreamId)
    requires Enabled(s, NativePoll(reader)) && Accounted(s, id)
    ensures Accounted(ApplyNativePoll(s, reader), id)
  {
    var t := ApplyNativePoll(s, reader);
    if s.queue == [] {
      SameAccount(s, t, id);
    } else {
      TakenByAppend(s.past.taken, Taken(s.queue[0], reader), id);
      if id == reader {
        OneMoreTaken(s, t, id, s.queue[0]);
      } else {
        SameAccount(s, t, id);
      }
    }
  }

  lemma HandleAccounted(s: System, reader: StreamId, id: StreamId)
    requires Enabled(s, Handle(reader)) && Accounted(s, id)
    ensures Accounted(ApplyHandle(s, reader), id)
  {
    var t := ApplyHandle(s, reader);
    HandleFrame(s, reader, id);
    if id == reader {
      var own, e := TakenBy(s.past.taken, id), s.streams[id].pc.event;
      assert own[..|own| - 1] == Finished(s, id) && own[|own| - 1] == e;
      assert Finished(t, id) == own;
      assert Yields(e) == if ConsumerItem(e).Some? then [ConsumerItem(e).value] else [];
    }
  }

  lemma QuietAccounted(s: System, step: Step, id: StreamId)
    requires Enabled(s, step) && !step.NativePoll? && !step.Handle?
    ensures var t := Apply(s, step, true);
      && t.past.(enqueued := s.past.enqueued) == s.past
      && IsHandling(t, id) == IsHandling(s, id) && (IsHandling(s, id) ==> t.streams[id].pc == s.streams[id].pc)
  {
  }

  lemma StepAccounted(s: System, step: Step, id: StreamId)
    requires Enabled(s, step) && Accounted(s, id)
    ensures Accounted(Apply(s, step, true), id)
  {
    match step {
      case NativePoll(reader) => PollAccounted(s, reader, id);
      case Handle(reader) => HandleAccounted(s, reader, id);
      case _ =>
        QuietAccounted(s, step, id);
        SameAccount(s, Apply(s, step, true), id);
    }
  }

  lemma StepConserves(s: System, step: Step)
    requires Conserved(s) && Enabled(s, step)
    ensures Conserved(Apply(s, step, true))
  {
    var t := Apply(s, step, true);
    forall id | id in t.streams ensures EatenWell(t.streams[id]) {
      StepEatsWell(s, step, id);
    }
    forall id: StreamId ensures Accounted(t, id) { StepAccounted(s, step, id); }
    StepConservesQueue(s, step);
  }

  lemma {:induction false} RunConserves(s: System, steps: seq<Step>)
    requires Conserved(s) && ValidRun(s, steps, true)
    ensures Conserved(Exec(s, steps, true))
    decreases |steps|
  {
    if steps != [] {
      StepConserves(s, steps[0]);
      RunConserves(Apply(s, steps[0], true), steps[1..]);
    }
  }

  /** Conservation and cancellation safety, in every reachable state and wherever streams were dropped: the events
      ever enqueued are those taken, each once and in queue order, followed by those still queued; each reader has
      yielded exactly the items of the events it took and made exactly the context calls they demand, in order,
      but for an event that it is handling at this moment; and each `poll_next` took nothing after the event that
      ended it. */
  lemma EventsConserved(s: System)
    requires Reachable(s)
    ensures s.past.enqueued == EventsOf(s.past.taken) + s.queue
    ensures forall id: StreamId :: Accounted(s, id)
    ensures forall id :: id in s.streams ==> EatenWell(s.streams[id])
  {
    var steps :| RunsTo(steps, s);
    RunConserves(Fresh(s.past.refreshTokens), steps);
  }

  /** A stream that is gone, or between two calls, owes nothing. */
  lemma NothingLeftBehind(s: System, id: StreamId)
    requires Reachable(s) && (id !in s.streams || s.streams[id].pc.Idle? || s.streams[id].pc.Waiting?)
    ensures HistoryOf(s.past.returned, id) == ItemsOf(TakenBy(s.past.taken, id))
    ensures HistoryOf(s.past.calls, id) == CallsFor(TakenBy(s.past.taken, id), s.past.refreshTokens)
  {
    EventsConserved(s);
    assert Accounted(s, id);
  }
}
