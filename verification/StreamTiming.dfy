/** The background wake loop of `StreamConsumer` against `max.poll.interval.ms`: the wakeup protocol with a clock.

    The loop fires every half interval. A waiting stream is polled again within `delay` of its notification, which is
    all that is asked of the executor; a stream that has yielded an item may be left alone for as long as its user
    likes. A call of `poll_next` itself takes no time. */
module StreamTiming {
  import opened Wrappers
  import opened StreamWakeup

  /** The configured interval and the executor's promise, both in nanoseconds, and whether the slab has a background
      loop: the consumer's own slab has one, the slab of a partition queue does not. */
  datatype Config = Config(interval: nat, delay: nat, wakeLoop: bool, refreshTokens: bool) {
    function Half(): nat { interval / 2 }
  }

  /** `since` is when a notified stream was notified, `polled` when a stream last polled the native queue. */
  datatype Timed = Timed(sys: System, now: nat, nextWake: nat, since: map<StreamId, nat>, polled: map<StreamId, nat>)

  datatype TimedStep = Act(step: Step) | Fire | Tick(nanos: nat)

  function Initial(c: Config): Timed {
    Timed(Fresh(c.refreshTokens), 0, c.Half(), map[], map[])
  }

  predicate Resting(pc: Pc) {
    pc.Idle? || pc.Waiting?
  }

  predicate TimedEnabled(c: Config, t: Timed, step: TimedStep) {
    match step
    case Act(a) => !a.WakeLoop? && Enabled(t.sys, a)
    case Fire => c.wakeLoop && t.now == t.nextWake
    case Tick(n) =>
      && (c.wakeLoop ==> t.now + n <= t.nextWake)
      && forall id :: id in t.sys.streams ==>
           && Resting(t.sys.streams[id].pc)
           && (t.sys.streams[id].pc.Waiting? && t.sys.streams[id].notified && id in t.since ==>
                 t.now + n <= t.since[id] + c.delay)
  }

  /** Notification times after a step: those of streams notified before stay, the others start now. */
  function Since(t: Timed, next: System): map<StreamId, nat> {
    map id | id in next.streams && next.streams[id].notified ::
      if id in t.sys.streams && t.sys.streams[id].notified && id in t.since then t.since[id] else t.now
  }

  function Polled(t: Timed, step: Step): map<StreamId, nat> {
    if step.NativePoll? then t.polled[step.id := t.now] else t.polled
  }

  function TimedApply(c: Config, t: Timed, step: TimedStep): Timed
    requires TimedEnabled(c, t, step)
  {
    match step
    case Act(a) =>
      var next := Apply(t.sys, a, true);
      t.(sys := next, since := Since(t, next), polled := Polled(t, a))
    case Fire =>
      var next := Apply(t.sys, WakeLoop, true);
      t.(sys := next, since := Since(t, next), nextWake := t.now + c.Half())
    case Tick(n) => t.(now := t.now + n)
  }

  predicate TimedRun(c: Config, t: Timed, steps: seq<TimedStep>)
    decreases |steps|
  {
    steps == [] || (TimedEnabled(c, t, steps[0]) && TimedRun(c, TimedApply(c, t, steps[0]), steps[1..]))
  }

  function TimedExec(c: Config, t: Timed, steps: seq<TimedStep>): Timed
    requires TimedRun(c, t, steps)
    decreases |steps|
  {
    if steps == [] then t else TimedExec(c, TimedApply(c, t, steps[0]), steps[1..])
  }

  /** Bounds for one stream: an un-notified waiting stream is woken by the next firing at the latest, and a
      notified one was notified at most half an interval after its last poll. */
  predicate StreamTimely(c: Config, t: Timed, id: StreamId)
    requires id in t.sys.streams
  {
    var stream := t.sys.streams[id];
    && (stream.notified ==> id in t.since && t.since[id] <= t.now)
    && (stream.notified && !stream.pc.Idle? ==> t.now <= t.since[id] + c.delay)
    && (stream.pc.Install? || stream.pc.SecondPoll? || stream.pc.Handling? || stream.pc.Waiting? ==>
          && id in t.polled && t.polled[id] <= t.now
          && (if stream.pc.Waiting? && stream.notified then t.since[id] <= t.polled[id] + c.Half()
              else if stream.pc.Waiting? then t.nextWake <= t.polled[id] + c.Half()
              else t.now == t.polled[id]))
  }

  /** Kept while the background loop runs. */
  ghost predicate TimedInv(c: Config, t: Timed) {
    && c.wakeLoop
    && Inv(t.sys)
    && t.now <= t.nextWake <= t.now + c.Half()
    && forall id :: id in t.sys.streams ==> StreamTimely(c, t, id)
  }

  lemma FireTimely(c: Config, t: Timed, id: StreamId)
    requires TimedInv(c, t) && t.now == t.nextWake && id in t.sys.streams
    ensures StreamTimely(c, TimedApply(c, t, Fire), id)
  {
    assert StreamInv(t.sys, id) && StreamTimely(c, t, id);
    if Armed(t.sys, id) { WakeAllNotifies(t.sys, id); }
  }

  lemma PollTimely(c: Config, t: Timed, reader: StreamId, id: StreamId)
    requires Enabled(t.sys, NativePoll(reader)) && id in t.sys.streams && StreamTimely(c, t, id)
    requires t.now <= t.nextWake <= t.now + c.Half()
    ensures id in ApplyNativePoll(t.sys, reader).streams
    ensures StreamTimely(c, TimedApply(c, t, Act(NativePoll(reader))), id)
  {
  }

  /** Waking, by whatever step, leaves a stream timely that was. */
  lemma WakingTimely(c: Config, t: Timed, next: Timed, id: StreamId)
    requires id in t.sys.streams && StreamTimely(c, t, id) && t.now <= t.nextWake <= t.now + c.Half()
    requires id in next.sys.streams
    requires next.sys.streams[id].(notified := t.sys.streams[id].notified) == t.sys.streams[id]
    requires t.sys.streams[id].notified ==> next.sys.streams[id].notified
    requires next.now == t.now && next.polled == t.polled && next.since == Since(t, next.sys)
    requires next.nextWake == t.nextWake
    ensures StreamTimely(c, next, id)
  {
  }

  lemma CallbackTimely(c: Config, t: Timed, id: StreamId)
    requires TimedInv(c, t) && t.sys.owed > 0 && id in t.sys.streams
    ensures StreamTimely(c, TimedApply(c, t, Act(Callback)), id)
  {
    assert StreamTimely(c, t, id);
    WakingTimely(c, t, TimedApply(c, t, Act(Callback)), id);
  }

  lemma HandleTimely(c: Config, t: Timed, reader: StreamId, id: StreamId)
    requires TimedInv(c, t) && Enabled(t.sys, Handle(reader)) && id in t.sys.streams
    ensures id in ApplyHandle(t.sys, reader).streams
    ensures StreamTimely(c, TimedApply(c, t, Act(Handle(reader))), id)
  {
    assert StreamTimely(c, t, id);
    HandleFrame(t.sys, reader, id);
    if id != reader {
      WakingTimely(c, t, TimedApply(c, t, Act(Handle(reader))), id);
    }
  }

  lemma QuietActTimely(c: Config, t: Timed, a: Step, id: StreamId)
    requires TimedEnabled(c, t, Act(a)) && !a.NativePoll? && !a.Callback? && !a.Handle?
    requires id in Apply(t.sys, a, true).streams
    requires id in t.sys.streams ==> StreamTimely(c, t, id)
    ensures StreamTimely(c, TimedApply(c, t, Act(a)), id)
  {
  }

  lemma ActTimely(c: Config, t: Timed, a: Step, id: StreamId)
    requires TimedInv(c, t) && TimedEnabled(c, t, Act(a)) && id in Apply(t.sys, a, true).streams
    ensures StreamTimely(c, TimedApply(c, t, Act(a)), id)
  {
    if a.Callback? {
      CallbackTimely(c, t, id);
    } else if a.Handle? {
      HandleFrame(t.sys, a.id, id);
      HandleTimely(c, t, a.id, id);
    } else {
      if id in t.sys.streams { assert StreamTimely(c, t, id); }
      if a.NativePoll? { PollTimely(c, t, a.id, id); } else { QuietActTimely(c, t, a, id); }
    }
  }

  lemma TimedStepKeepsInv(c: Config, t: Timed, step: TimedStep)
    requires TimedInv(c, t) && TimedEnabled(c, t, step)
    ensures TimedInv(c, TimedApply(c, t, step))
  {
    var u := TimedApply(c, t, step);
    match step {
      case Act(a) =>
        StepKeepsInv(t.sys, a);
        forall id | id in u.sys.streams ensures StreamTimely(c, u, id) { ActTimely(c, t, a, id); }
      case Fire =>
        StepKeepsInv(t.sys, WakeLoop);
        forall id | id in u.sys.streams ensures StreamTimely(c, u, id) { FireTimely(c, t, id); }
      case Tick(_) =>
        forall id | id in u.sys.streams ensures StreamTimely(c, u, id) { assert StreamTimely(c, t, id); }
    }
  }

  lemma {:induction false} TimedRunKeepsInv(c: Config, t: Timed, steps: seq<TimedStep>)
    requires TimedInv(c, t) && TimedRun(c, t, steps)
    ensures TimedInv(c, TimedExec(c, t, steps))
    decreases |steps|
  {
    if steps != [] {
      TimedStepKeepsInv(c, t, steps[0]);
      TimedRunKeepsInv(c, TimedApply(c, t, steps[0]), steps[1..]);
    }
  }

  /** How long ago a waiting stream polled. */
  function Gap(t: Timed, id: StreamId): int
    requires id in t.polled
  {
    t.now - t.polled[id]
  }

  /** The run ends with the stream waiting. */
  predicate EndsWaiting(c: Config, steps: seq<TimedStep>, id: StreamId) {
    && TimedRun(c, Initial(c), steps)
    && id in TimedExec(c, Initial(c), steps).sys.streams
    && TimedExec(c, Initial(c), steps).sys.streams[id].pc.Waiting?
  }

  /** In every timed run with a background loop, a stream that is waiting has polled within the last half interval plus
      delay; so when the delay is at most half the interval, its polls are never further apart than the interval. */
  lemma PollGapBounded(c: Config, steps: seq<TimedStep>, id: StreamId)
    requires c.wakeLoop && EndsWaiting(c, steps, id)
    ensures var t := TimedExec(c, Initial(c), steps);
      id in t.polled && Gap(t, id) <= c.Half() + c.delay
      && (c.delay <= c.interval / 2 ==> Gap(t, id) <= c.interval)
  {
    TimedRunKeepsInv(c, Initial(c), steps);
    assert StreamTimely(c, TimedExec(c, Initial(c), steps), id);
  }

  // ---- The bound is reached ----

  lemma {:induction false} TimedAppend(c: Config, t: Timed, a: seq<TimedStep>, b: seq<TimedStep>)
    requires TimedRun(c, t, a) && TimedRun(c, TimedExec(c, t, a), b)
    ensures TimedRun(c, t, a + b) && TimedExec(c, t, a + b) == TimedExec(c, TimedExec(c, t, a), b)
    decreases |a|
  {
    if a == [] {
      assert a + b == b;
    } else {
      var u := TimedApply(c, t, a[0]);
      assert TimedRun(c, u, a[1..]) && TimedExec(c, t, a) == TimedExec(c, u, a[1..]);
      TimedAppend(c, u, a[1..], b);
      assert (a + b)[0] == a[0] && (a + b)[1..] == a[1..] + b;
    }
  }

  /** Stream 0 is the only stream and waits, last polled at time 0. */
  predicate OneWaiting(c: Config, t: Timed) {
    && t.sys.streams.Keys == {0} && t.sys.streams[0].pc.Waiting? && t.sys.queue == []
    && t.polled == map[0 := 0] && t.now <= t.nextWake
  }

  lemma One(c: Config, t: Timed, step: TimedStep) returns (steps: seq<TimedStep>)
    requires TimedEnabled(c, t, step)
    ensures steps == [step] && TimedRun(c, t, steps) && TimedExec(c, t, steps) == TimedApply(c, t, step)
  {
    steps := [step];
    var u := TimedApply(c, t, step);
    assert steps[1..] == [] && TimedRun(c, u, []) && TimedExec(c, u, []) == u;
  }

  /** A step of the protocol that leaves the clock alone, after steps that did. */
  lemma Then(c: Config, steps: seq<TimedStep>, t: Timed, a: Step) returns (longer: seq<TimedStep>, u: Timed)
    requires TimedRun(c, Initial(c), steps) && TimedExec(c, Initial(c), steps) == t && TimedEnabled(c, t, Act(a))
    ensures TimedRun(c, Initial(c), longer) && TimedExec(c, Initial(c), longer) == u
    ensures u == TimedApply(c, t, Act(a))
  {
    var one := One(c, t, Act(a));
    TimedAppend(c, Initial(c), steps, one);
    longer, u := steps + one, TimedApply(c, t, Act(a));
  }

  /** The only stream, in its first call, at time 0. */
  predicate FirstCall(c: Config, t: Timed, pc: Pc, waker: Option<Task>) {
    && t.sys.streams == map[0 := Stream(0, pc, 1, false, [])] && t.sys.slab == map[0 := waker] && t.sys.queue == []
    && t.now == 0 && t.nextWake == c.Half() && t.polled.Keys <= {0}
  }

  lemma FirstPollFromZero(c: Config) returns (steps: seq<TimedStep>, t: Timed)
    ensures TimedRun(c, Initial(c), steps) && TimedExec(c, Initial(c), steps) == t
    ensures FirstCall(c, t, Install, None)
  {
    steps, t := [], Initial(c);
    steps, t := Then(c, steps, t, Register(0, 0));
    steps, t := Then(c, steps, t, StartPoll(0, 1));
    assert FirstCall(c, t, FirstPoll, None);
    steps, t := Then(c, steps, t, NativePoll(0));
  }

  lemma StoreWakerAtZero(c: Config) returns (steps: seq<TimedStep>, t: Timed)
    ensures TimedRun(c, Initial(c), steps) && TimedExec(c, Initial(c), steps) == t
    ensures FirstCall(c, t, SecondPoll, Some(1))
  {
    steps, t := FirstPollFromZero(c);
    steps, t := Then(c, steps, t, SetWaker(0));
  }

  /** The first poll of a fresh stream, at time 0, finds nothing and waits. */
  lemma WaitFromZero(c: Config) returns (steps: seq<TimedStep>)
    ensures TimedRun(c, Initial(c), steps)
    ensures var t := TimedExec(c, Initial(c), steps);
      OneWaiting(c, t) && t.now == 0 && t.nextWake == c.Half()
      && !t.sys.streams[0].notified && Armed(t.sys, 0)
  {
    var t;
    steps, t := StoreWakerAtZero(c);
    steps, t := Then(c, steps, t, NativePoll(0));
    assert FirstCall(c, t, Waiting, Some(1)) && t.polled == map[0 := 0];
  }

  /** A notified stream may be left alone for as long as the executor's promise allows. */
  lemma {:induction false} WaitOut(c: Config, t: Timed, n: nat) returns (steps: seq<TimedStep>)
    requires c.wakeLoop && c.Half() > 0 && OneWaiting(c, t)
    requires t.sys.streams[0].notified && 0 in t.since && t.now + n <= t.since[0] + c.delay
    ensures TimedRun(c, t, steps)
    ensures var u := TimedExec(c, t, steps); OneWaiting(c, u) && u.now == t.now + n
    decreases n, if t.now == t.nextWake then 1 else 0
  {
    if t.now + n <= t.nextWake {
      steps := One(c, t, Tick(n));
    } else {
      var k := t.nextWake - t.now;
      var s1 := One(c, t, Tick(k));
      var t1 := TimedApply(c, t, Tick(k));
      var s2 := One(c, t1, Fire);
      var t2 := TimedApply(c, t1, Fire);
      assert t2.sys.streams.Keys == {0};
      var s3 := WaitOut(c, t2, n - k);
      TimedAppend(c, t, s1, s2);
      TimedAppend(c, t, s1 + s2, s3);
      steps := s1 + s2 + s3;
    }
  }

  ghost predicate KeepsInterval(c: Config) {
    forall steps, id | EndsWaiting(c, steps, id) ::
      var t := TimedExec(c, Initial(c), steps);
      id in t.polled && Gap(t, id) <= c.interval
  }

  /** Every waiting stream is kept inside the poll interval exactly when its slab has the background loop and the
      executor polls a woken stream within what the half interval leaves. */
  lemma IntervalKeptIff(c: Config)
    requires c.Half() > 0
    ensures KeepsInterval(c) <==> c.wakeLoop && c.Half() + c.delay <= c.interval
  {
    if c.wakeLoop && c.Half() + c.delay <= c.interval {
      forall steps, id | EndsWaiting(c, steps, id)
        ensures var t := TimedExec(c, Initial(c), steps); id in t.polled && Gap(t, id) <= c.interval
      {
        PollGapBounded(c, steps, id);
      }
    } else {
      var steps;
      if c.wakeLoop { steps := LongestGap(c); } else { steps := UnboundedGap(c, c.interval + 1); }
      assert EndsWaiting(c, steps, 0);
    }
  }

  /** Without the background loop a waiting stream may be left alone for any length of time. */
  lemma UnboundedGap(c: Config, n: nat) returns (steps: seq<TimedStep>)
    requires !c.wakeLoop
    ensures EndsWaiting(c, steps, 0)
    ensures var t := TimedExec(c, Initial(c), steps); 0 in t.polled && Gap(t, 0) == n
  {
    var s1 := WaitFromZero(c);
    var t1 := TimedExec(c, Initial(c), s1);
    var s2 := One(c, t1, Tick(n));
    TimedAppend(c, Initial(c), s1, s2);
    steps := s1 + s2;
  }

  lemma LongestGap(c: Config) returns (steps: seq<TimedStep>)
    requires c.wakeLoop && c.Half() > 0
    ensures EndsWaiting(c, steps, 0)
    ensures var t := TimedExec(c, Initial(c), steps); 0 in t.polled && Gap(t, 0) == c.Half() + c.delay
  {
    var t0 := Initial(c);
    var s1 := WaitFromZero(c);
    var t1 := TimedExec(c, t0, s1);
    var s2 := One(c, t1, Tick(c.Half()));
    var t2 := TimedApply(c, t1, Tick(c.Half()));
    var s3 := One(c, t2, Fire);
    var t3 := TimedApply(c, t2, Fire);
    WakeAllNotifies(t2.sys, 0);
    assert t3.sys.streams.Keys == {0};
    var s4 := WaitOut(c, t3, c.delay);
    TimedAppend(c, t0, s1, s2);
    TimedAppend(c, t0, s1 + s2, s3);
    TimedAppend(c, t0, s1 + s2 + s3, s4);
    steps := s1 + s2 + s3 + s4;
  }
}
