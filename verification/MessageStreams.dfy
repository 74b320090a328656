/** `WakerSlab` and `MessageStream` (src/consumer/stream_consumer.rs) in their own imperative form. */
module MessageStreams {
  import opened Wrappers
  import opened Counting
  import opened Timeouts
  import opened ClientEvents
  import opened PollEngine
  import opened StreamWakeup

  /** The slab behind its mutex: each method runs with the lock held. */
  class WakerSlab {
    var wakers: Slab

    constructor ()
      ensures wakers == map[]
    {
      wakers := map[];
    }

    /** Takes every stored waker and wakes its task. */
    method WakeAll() returns (woken: set<Task>)
      modifies this
      ensures woken == Wakers(old(wakers)) && wakers == TakeAll(old(wakers))
      ensures forall t :: t in woken <==> exists k :: k in old(wakers) && old(wakers)[k] == Some(t)
      ensures wakers.Keys == old(wakers).Keys && forall k :: k in wakers ==> wakers[k] == None
    {
      woken := {};
      var rest := wakers.Keys;
      while rest != {}
        invariant rest <= wakers.Keys == old(wakers).Keys
        invariant forall k :: k in rest ==> wakers[k] == old(wakers)[k]
        invariant forall k :: k in wakers && k !in rest ==> wakers[k] == None
        invariant forall t :: t in woken <==> exists k :: k in wakers && k !in rest && old(wakers)[k] == Some(t)
        decreases rest
      {
        var k :| k in rest;
        if wakers[k].Some? {
          woken := woken + {wakers[k].value};
          wakers := wakers[k := None];
        }
        rest := rest - {k};
      }
      assert wakers == TakeAll(old(wakers));
    }

    /** Inserts an empty entry at a vacant key. */
    method Register() returns (slot: Slot)
      modifies this
      ensures slot !in old(wakers) && wakers == old(wakers)[slot := None]
    {
      slot := 0;
      while slot in wakers
        invariant wakers == old(wakers)
        invariant forall k: nat :: k < slot ==> k in wakers
        decreases |wakers| - slot
      {
        FirstNumbers(wakers.Keys, slot + 1);
        slot := slot + 1;
      }
      wakers := wakers[slot := None];
    }

    method Unregister(slot: Slot)
      requires slot in wakers
      modifies this
      ensures wakers == old(wakers) - {slot}
    {
      wakers := wakers - {slot};
    }

    method SetWaker(slot: Slot, task: Task)
      requires slot in wakers
      modifies this
      ensures wakers == old(wakers)[slot := Some(task)]
    {
      wakers := wakers[slot := Some(task)];
    }
  }

  // ---- poll_next among other threads ----

  /** Steps that somebody else may take while stream `id` is inside `poll_next`. */
  predicate Foreign(step: Step, id: StreamId) {
    match step
    case StartPoll(i, _) => i != id
    case NativePoll(i) => i != id
    case Handle(i) => i != id
    case SetWaker(i) => i != id
    case Drop(i) => i != id
    case _ => true
  }

  /** Those of the given steps that are foreign and can be taken, one after the other. */
  function OthersRun(s: System, steps: seq<Step>, id: StreamId): (run: seq<Step>)
    ensures ValidRun(s, run, true)
    decreases |steps|
  {
    if steps == [] then []
    else if Foreign(steps[0], id) && Enabled(s, steps[0]) then
      [steps[0]] + OthersRun(Apply(s, steps[0], true), steps[1..], id)
    else OthersRun(s, steps[1..], id)
  }

  predicate SameButNotified(a: Stream, b: Stream) {
    a.(notified := false) == b.(notified := false)
  }

  lemma {:induction false} OthersLeaveStream(s: System, steps: seq<Step>, id: StreamId)
    requires id in s.streams
    ensures var t := Exec(s, OthersRun(s, steps, id), true);
      id in t.streams && SameButNotified(s.streams[id], t.streams[id])
    decreases |steps|
  {
    if steps != [] {
      if Foreign(steps[0], id) && Enabled(s, steps[0]) {
        var t := Apply(s, steps[0], true);
        assert id in t.streams && SameButNotified(s.streams[id], t.streams[id]);
        OthersLeaveStream(t, steps[1..], id);
        var run := OthersRun(t, steps[1..], id);
        assert ([steps[0]] + run)[1..] == run;
      } else {
        OthersLeaveStream(s, steps[1..], id);
      }
    }
  }

  /** The item carried by the last event that the stream's current call has taken. */
  function LastEaten(stream: Stream): Option<ClientEvents.Item> {
    if stream.eaten == [] then None else ConsumerItem(stream.eaten[|stream.eaten| - 1])
  }

  /** Where an empty native poll leaves a stream. */
  function Settled(pc: Pc): Pc {
    if pc.FirstPoll? then Install else Waiting
  }

  lemma {:induction false} CallsForAppend(events: seq<Event>, e: Event, refreshTokens: bool)
    ensures CallsFor(events + [e], refreshTokens) == CallsFor(events, refreshTokens) + DispatchCalls(e, refreshTokens)
  {
    assert (events + [e])[..|events|] == events;
  }

  lemma {:induction false} CallsForConcat(a: seq<Event>, b: seq<Event>, refreshTokens: bool)
    ensures CallsFor(a + b, refreshTokens) == CallsFor(a, refreshTokens) + CallsFor(b, refreshTokens)
  {
    if b == [] {
      assert a + b == a;
    } else {
      var front, last := b[..|b| - 1], b[|b| - 1];
      assert b == front + [last];
      CallsForConcat(a, front, refreshTokens);
      CallsForLast(a, front, last, refreshTokens);
    }
  }

  lemma {:induction false} CallsForLast(a: seq<Event>, front: seq<Event>, last: Event, refreshTokens: bool)
    requires CallsFor(a + front, refreshTokens) == CallsFor(a, refreshTokens) + CallsFor(front, refreshTokens)
    ensures CallsFor(a + (front + [last]), refreshTokens) ==
      CallsFor(a, refreshTokens) + CallsFor(front + [last], refreshTokens)
  {
    CallsForAppend(a + front, last, refreshTokens);
    CallsForAppend(front, last, refreshTokens);
    Assoc(a, front, [last]);
    Assoc(CallsFor(a, refreshTokens), CallsFor(front, refreshTokens), DispatchCalls(last, refreshTokens));
  }

  lemma {:induction false} TokensStay(s: System, steps: seq<Step>)
    requires ValidRun(s, steps, true)
    ensures Exec(s, steps, true).past.refreshTokens == s.past.refreshTokens
    decreases |steps|
  {
    if steps != [] { TokensStay(Apply(s, steps[0], true), steps[1..]); }
  }

  /** Between two states a stream has polled: a run of the protocol led from one to the other, in which the stream took
      the given events for its task, and the given calls are theirs. */
  ghost predicate PolledBetween(
    s: System, t: System, id: StreamId, run: seq<Step>, took: seq<Event>, calls: seq<Call>)
  {
    && ValidRun(s, run, true) && t == Exec(s, run, true)
    && id in s.streams && id in t.streams && t.past.refreshTokens == s.past.refreshTokens
    && t.streams[id].task == s.streams[id].task && t.streams[id].eaten == s.streams[id].eaten + took
    && calls == CallsFor(took, t.past.refreshTokens)
  }

  lemma PolledOn(
    s: System, t: System, u: System, id: StreamId, run: seq<Step>, took: seq<Event>, calls: seq<Call>,
    run': seq<Step>, took': seq<Event>, calls': seq<Call>)
    requires PolledBetween(s, t, id, run, took, calls) && PolledBetween(t, u, id, run', took', calls')
    ensures PolledBetween(s, u, id, run + run', took + took', calls + calls')
  {
    ExecAppend(s, run, run', true);
    CallsForConcat(took, took', t.past.refreshTokens);
    Assoc(s.streams[id].eaten, took, took');
  }

  datatype Poll = Pending | Item(item: ClientEvents.Item)

  /** The state shared by the streams of one queue, with the other threads' doings given as a script: the
      k-th entry is what they try to do just before this stream's k-th atomic operation. */
  class SharedQueue {
    var sys: System
    var others: seq<seq<Step>>

    constructor (sys: System, others: seq<seq<Step>>)
      ensures this.sys == sys && this.others == others
    {
      this.sys, this.others := sys, others;
    }

    /** Lets the other threads run up to this stream's next atomic operation. */
    method Interleave(id: StreamId) returns (ghost run: seq<Step>)
      requires id in sys.streams
      modifies this
      ensures |others| == if old(others) == [] then 0 else |old(others)| - 1
      ensures old(others) == [] ==> sys == old(sys)
      ensures run == if old(others) == [] then [] else OthersRun(old(sys), old(others)[0], id)
      ensures ValidRun(old(sys), run, true) && sys == Exec(old(sys), run, true)
      ensures id in sys.streams && SameButNotified(old(sys).streams[id], sys.streams[id])
    {
      run := [];
      if others != [] {
        run := OthersRun(sys, others[0], id);
        OthersLeaveStream(sys, others[0], id);
        sys := Exec(sys, OthersRun(sys, others[0], id), true);
        others := others[1..];
      }
    }

    /** A step of this stream's own. */
    method Act(step: Step) returns (ghost run: seq<Step>)
      requires Enabled(sys, step)
      modifies this`sys
      ensures run == [step] && ValidRun(old(sys), run, true) && sys == Exec(old(sys), run, true)
      ensures sys == Apply(old(sys), step, true)
    {
      run := [step];
      assert run[1..] == [];
      sys := Apply(sys, step, true);
    }

    /** One native poll of the stream, with a zero timeout, after what others do; the event it returns, if any, is for
        this stream to handle. */
    method PollNative(id: StreamId) returns (event: Option<Event>, ghost run: seq<Step>)
      requires id in sys.streams && Polling(sys.streams[id].pc)
      modifies this
      ensures ValidRun(old(sys), run, true) && sys == Exec(old(sys), run, true)
      ensures |others| < |old(others)| || (old(others) == [] == others && |sys.queue| <= |old(sys).queue|)
      ensures old(others) == [] && event.Some? ==> |sys.queue| < |old(sys).queue|
      ensures id in sys.streams && sys.past.refreshTokens == old(sys).past.refreshTokens
      ensures var before, after := old(sys).streams[id], sys.streams[id];
        && after.task == before.task
        && match event
           case None => sys.queue == [] && after.pc == Settled(before.pc) && after.eaten == before.eaten
           case Some(e) => after.pc == Handling(e, before.pc.SecondPoll?) && after.eaten == before.eaten + [e]
    {
      ghost var before := sys;
      ghost var r1 := Interleave(id);
      event := if sys.queue == [] then None else Some(sys.queue[0]);
      ghost var r2 := Act(NativePoll(id));
      ExecAppend(before, r1, r2, true);
      TokensStay(before, r1 + r2);
      run := r1 + r2;
    }

    /** The poll engine's round on an event that the stream has taken, after what others do. */
    method HandleEvent(id: StreamId, loop: Loop, event: Event)
      returns (round: Round, made: seq<Call>, ghost run: seq<Step>)
      requires id in sys.streams && sys.streams[id].pc.Handling? && sys.streams[id].pc.event == event
      requires loop.timeout == After(0)
      modifies this
      ensures ValidRun(old(sys), run, true) && sys == Exec(old(sys), run, true)
      ensures |others| < |old(others)| || (old(others) == [] == others && sys.queue == old(sys).queue)
      ensures id in sys.streams && sys.past.refreshTokens == old(sys).past.refreshTokens
      ensures made == DispatchCalls(event, sys.past.refreshTokens)
      ensures var before, after := old(sys).streams[id], sys.streams[id];
        && after.task == before.task && after.eaten == before.eaten
        && after.pc == AfterEvent(event, before.pc.second) && (after.pc.Waiting? ==> after.notified)
      ensures if round.Again? then round.loop.timeout == After(0) && Polling(sys.streams[id].pc)
              else StreamResult(Some(event)) == Some(round.result)
    {
      ghost var before := sys;
      ghost var r1 := Interleave(id);
      TokensStay(before, r1);
      var c := Config(After(0), DEFAULT_INTERVAL, sys.past.refreshTokens);
      round, made := HandleReply(c, loop, Reply(Some(event), 0, 0));
      ghost var handling := sys;
      ghost var r2 := Act(Handle(id));
      HandleFrame(handling, id, id);
      ExecAppend(before, r1, r2, true);
      run := r1 + r2;
    }

    /** What a settled poll says agrees with where the stream is then. */
    ghost predicate Agrees(r: EventPollResult<ClientEvents.Item>, id: StreamId, before: Pc)
      reads this
    {
      id in sys.streams &&
      match r
      case NoEvent => sys.queue == [] && sys.streams[id].pc == Settled(before)
      case EventConsumed => sys.streams[id].pc == Waiting && sys.streams[id].notified
      case Ready(item) => sys.streams[id].pc == Idle && LastEaten(sys.streams[id]) == Some(item)
    }

    /** One native poll and the handling of its event; no result means that the poll goes on. */
    method PollOnce(id: StreamId, loop: Loop)
      returns (result: Option<EventPollResult<ClientEvents.Item>>, next: Loop, calls: seq<Call>,
               ghost took: seq<Event>, ghost run: seq<Step>)
      requires id in sys.streams && Polling(sys.streams[id].pc) && loop.timeout == After(0)
      modifies this
      ensures PolledBetween(old(sys), sys, id, run, took, calls)
      ensures result.Some? ==> Agrees(result.value, id, old(sys).streams[id].pc)
      ensures result.None? ==> sys.streams[id].pc == old(sys).streams[id].pc && next.timeout == After(0)
      ensures result.None? ==> |others| < |old(others)| || (others == [] && |sys.queue| < |old(sys).queue|)
    {
      ghost var before := sys;
      var event, r1 := PollNative(id);
      run, took, calls, next := r1, [], [], loop;
      if event.None? {
        return Some(NoEvent), next, calls, took, run;
      }
      var round, made, r2 := HandleEvent(id, loop, event.value);
      ExecAppend(before, r1, r2, true);
      CallsForAppend([], event.value, sys.past.refreshTokens);
      run, took, calls := r1 + r2, [event.value], made;
      match round {
        case Stop(stopped) => result := Some(stopped);
        case Again(again) => result, next := None, again;
      }
    }

    /** `MessageStream::poll`: native polls with a zero timeout until one of them settles the call. The context calls it
        makes are those of the events it has taken, in order. */
    method PollZero(id: StreamId)
      returns (r: EventPollResult<ClientEvents.Item>, calls: seq<Call>, ghost took: seq<Event>, ghost run: seq<Step>)
      requires id in sys.streams && Polling(sys.streams[id].pc)
      modifies this
      ensures PolledBetween(old(sys), sys, id, run, took, calls)
      ensures Agrees(r, id, old(sys).streams[id].pc)
    {
      ghost var before := sys;
      var loop := Loop(After(0), 0, 0);
      calls, took, run := [], [], [];
      while true
        invariant PolledBetween(before, sys, id, run, took, calls)
        invariant sys.streams[id].pc == before.streams[id].pc && loop.timeout == After(0)
        decreases |others|, |sys.queue|
      {
        ghost var mid := sys;
        var result, next, made, taken, more := PollOnce(id, loop);
        PolledOn(before, mid, sys, id, run, took, calls, more, taken, made);
        run, took, calls, loop := run + more, took + taken, calls + made, next;
        if result.Some? {
          return result.value, calls, took, run;
        }
      }
    }

    /** `poll_next`, with anything the other threads do between its atomic parts: it is a run of the protocol, and it
        answers `Pending` only as a waiting stream whose wakeup is not lost. Its context calls are those of the events
        it has taken, and an item is that of the last of them. */
    method PollNext(id: StreamId, task: Task) returns (r: Poll, calls: seq<Call>, ghost run: seq<Step>)
      requires Inv(sys) && Enabled(sys, StartPoll(id, task))
      modifies this
      ensures ValidRun(old(sys), run, true) && sys == Exec(old(sys), run, true)
      ensures Inv(sys) && id in sys.streams && calls == CallsFor(sys.streams[id].eaten, sys.past.refreshTokens)
      ensures r.Pending? ==> sys.streams[id].pc == Waiting && sys.streams[id].task == task && Safe(sys, id)
      ensures r.Item? ==> sys.streams[id].pc == Idle && LastEaten(sys.streams[id]) == Some(r.item)
    {
      ghost var before := sys;
      run := Act(StartPoll(id, task));
      var first, made, took, run1 := PollZero(id);
      assert sys.streams[id].eaten == took;
      ExecAppend(before, run, run1, true);
      run, calls := run + run1, made;
      match first {
        case Ready(item) =>
          r := Item(item);
        case EventConsumed =>
          r := Pending;
        case NoEvent =>
          ghost var run2 := InstallWaker(id, before, run);
          ExecAppend(before, run, run2, true);
          run := run + run2;
          var second, more, rest, run3 := PollZero(id);
          ExecAppend(before, run, run3, true);
          CallsForConcat(took, rest, sys.past.refreshTokens);
          run, calls := run + run3, calls + more;
          r := if second.Ready? then Item(second.value) else Pending;
      }
      RunKeepsInv(before, run);
    }

    /** `set_waker`, after what others do. */
    method InstallWaker(id: StreamId, ghost before: System, ghost sofar: seq<Step>) returns (ghost run: seq<Step>)
      requires Inv(before) && ValidRun(before, sofar, true) && sys == Exec(before, sofar, true)
      requires id in sys.streams && sys.streams[id].pc.Install?
      modifies this
      ensures ValidRun(old(sys), run, true) && sys == Exec(old(sys), run, true)
      ensures id in sys.streams && sys.streams[id].pc == SecondPoll
      ensures sys.past.refreshTokens == old(sys).past.refreshTokens
      ensures sys.streams[id].task == old(sys).streams[id].task && sys.streams[id].eaten == old(sys).streams[id].eaten
    {
      ghost var start := sys;
      ghost var r1 := Interleave(id);
      RunKeepsInv(before, sofar);
      RunKeepsInv(start, r1);
      TokensStay(start, r1);
      ghost var r2 := Act(SetWaker(id));
      ExecAppend(start, r1, r2, true);
      run := r1 + r2;
    }
  }

  // ---- The slab's methods are the protocol's steps ----

  /** A new stream takes a slot of the slab. */
  method OpenStream(queue: SharedQueue, slab: WakerSlab, id: StreamId) returns (slot: Slot)
    requires slab.wakers == queue.sys.slab && id !in queue.sys.streams
    modifies queue, slab
    ensures Enabled(old(queue.sys), Register(id, slot))
    ensures queue.sys == Apply(old(queue.sys), Register(id, slot), true) && slab.wakers == queue.sys.slab
  {
    slot := slab.Register();
    var _ := queue.Act(Register(id, slot));
  }

  /** Dropping a stream gives its slot, waker and all, back. */
  method CloseStream(queue: SharedQueue, slab: WakerSlab, id: StreamId)
    requires slab.wakers == queue.sys.slab && Inv(queue.sys) && Enabled(queue.sys, Drop(id))
    modifies queue, slab
    ensures queue.sys == Apply(old(queue.sys), Drop(id), true) && slab.wakers == queue.sys.slab && Inv(queue.sys)
  {
    StepKeepsInv(queue.sys, Drop(id));
    slab.Unregister(queue.sys.streams[id].slot);
    var _ := queue.Act(Drop(id));
  }

  /** The queue's callback, and the background loop: every stored waker is woken. */
  method WakeStreams(queue: SharedQueue, slab: WakerSlab)
    requires slab.wakers == queue.sys.slab
    modifies queue, slab
    ensures queue.sys == Apply(old(queue.sys), WakeLoop, true) && slab.wakers == queue.sys.slab
    ensures queue.sys.streams.Keys == old(queue.sys).streams.Keys
    ensures forall id :: id in queue.sys.streams ==>
      var stream := old(queue.sys).streams[id];
      queue.sys.streams[id].notified <==>
        stream.notified || exists k :: k in old(slab.wakers) && old(slab.wakers)[k] == Some(stream.task)
  {
    var _ := slab.WakeAll();
    var _ := queue.Act(WakeLoop);
  }

  /** Storing the waker of the task that polls. */
  method StoreWaker(queue: SharedQueue, slab: WakerSlab, id: StreamId)
    requires slab.wakers == queue.sys.slab && Enabled(queue.sys, SetWaker(id))
    modifies queue, slab
    ensures queue.sys == Apply(old(queue.sys), SetWaker(id), true) && slab.wakers == queue.sys.slab
    ensures id in queue.sys.streams && Armed(queue.sys, id)
  {
    slab.SetWaker(queue.sys.streams[id].slot, queue.sys.streams[id].task);
    var _ := queue.Act(SetWaker(id));
  }
}
