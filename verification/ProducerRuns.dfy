/** What one thread's calls of `poll` and `flush` do (src/producer/base_producer.rs), as functions of the state and of
    a script of what other threads and the clock do in between. */
module ProducerRuns {
  import opened Timeouts
  import opened ProducerDelivery

  const FLUSH_POLL: Timeout := After(100 * NANOS_PER_MILLI)

  /** What happens before this thread's next operation: the steps that the brokers and other threads try to
      take, and the clock. A method that has used up its slices is still running. */
  datatype Slice = Slice(steps: seq<Step>, now: nat)

  /** Steps of somebody other than the polling thread `me`. */
  predicate Foreign(step: Step, me: Thread) {
    match step
    case Pop(t) => t != me
    case Begin(t) => t != me
    case End(t) => t != me
    case Destroy(t) => t != me
    case _ => true
  }

  /** Those of the given steps that are foreign and can be taken, one after the other. */
  function OthersRun(s: State, steps: seq<Step>, me: Thread): (run: seq<Step>)
    ensures ValidRun(s, run)
    decreases |steps|
  {
    if steps == [] then []
    else if Foreign(steps[0], me) && Enabled(s, steps[0]) then
      [steps[0]] + OthersRun(Apply(s, steps[0]), steps[1..], me)
    else OthersRun(s, steps[1..], me)
  }

  lemma {:induction false} OthersLeaveBatch(s: State, steps: seq<Step>, me: Thread)
    requires me < |s.busy|
    ensures var t := Exec(s, OthersRun(s, steps, me)); me < |t.busy| && t.busy[me] == s.busy[me]
    decreases |steps|
  {
    if steps != [] {
      if Foreign(steps[0], me) && Enabled(s, steps[0]) {
        var run := OthersRun(Apply(s, steps[0]), steps[1..], me);
        OthersLeaveBatch(Apply(s, steps[0]), steps[1..], me);
        assert ([steps[0]] + run)[1..] == run;
      } else {
        OthersLeaveBatch(s, steps[1..], me);
      }
    }
  }

  ghost predicate AllForeign(steps: seq<Step>, me: Thread) {
    forall step :: step in steps ==> Foreign(step, me)
  }

  lemma {:induction false} OthersAreForeign(s: State, steps: seq<Step>, me: Thread)
    ensures AllForeign(OthersRun(s, steps, me), me)
    decreases |steps|
  {
    if steps != [] {
      OthersAreForeign(s, steps[1..], me);
      if Foreign(steps[0], me) && Enabled(s, steps[0]) {
        OthersAreForeign(Apply(s, steps[0]), steps[1..], me);
      }
    }
  }

  lemma {:induction false} OthersAcceptAll(s: State, records: seq<Record>, me: Thread)
    ensures OthersRun(s, AcceptAll(records), me) == AcceptAll(records)
    decreases |records|
  {
    if records != [] {
      assert AcceptAll(records)[1..] == AcceptAll(records[1..]);
      OthersAcceptAll(Apply(s, Accept(records[0])), records[1..], me);
    }
  }

  /** A message that others settle gets a verdict that they tried to give it. */
  lemma {:induction false} OthersSettle(s: State, steps: seq<Step>, me: Thread, id: MessageId)
    requires TruthInv(s) && id in s.held
    ensures var t := Exec(s, OthersRun(s, steps, me));
      id in t.held || (id in t.verdicts && Settle(id, t.verdicts[id]) in steps)
    decreases |steps|
  {
    if steps != [] {
      if Foreign(steps[0], me) && Enabled(s, steps[0]) {
        var next := Apply(s, steps[0]);
        var run := OthersRun(next, steps[1..], me);
        assert ([steps[0]] + run)[1..] == run;
        StepKeepsTruth(s, steps[0]);
        if id in next.held {
          OthersSettle(next, steps[1..], me, id);
        } else {
          assert steps[0] == Settle(id, next.verdicts[id]);
          VerdictsStay(next, run);
        }
      } else {
        OthersSettle(s, steps[1..], me, id);
      }
    }
  }

  /** The state in which this thread first looks at native. */
  function FirstLook(s: State, slices: seq<Slice>, me: Thread): State {
    if slices == [] then s else Exec(s, OthersRun(s, slices[0].steps, me))
  }

  /** The report event that is on the queue when this thread first looks, if there is one. */
  function FirstEvent(s: State, slices: seq<Slice>, me: Thread): seq<Report> {
    var t := FirstLook(s, slices, me);
    if slices == [] || t.queue == [] then [] else t.queue[0]
  }

  // ---- The calls as functions ----

  /** The state, what is still to come from others, and the time. */
  datatype View = View(state: State, slices: seq<Slice>, now: nat)

  predicate IdleIn(v: View, me: Thread) {
    me < |v.state.busy| && v.state.busy[me] == NO_BATCH
  }

  /** Others have their turn. */
  function Next(v: View, me: Thread): (w: View)
    requires me < |v.state.busy|
    ensures me < |w.state.busy| && w.state.busy[me] == v.state.busy[me] && v.now <= w.now
    ensures |w.slices| == if v.slices == [] then 0 else |v.slices| - 1
  {
    if v.slices == [] then v
    else
      OthersLeaveBatch(v.state, v.slices[0].steps, me);
      View(FirstLook(v.state, v.slices, me), v.slices[1..], if v.slices[0].now < v.now then v.now else v.slices[0].now)
  }

  /** The callback of the next message of the event in hand. */
  function OneCallback(v: View, me: Thread): (w: View)
    requires me < |v.state.busy| && v.state.busy[me].current == [] && v.state.busy[me].todo != []
    ensures me < |w.state.busy| && |w.slices| <= |v.slices| && v.now <= w.now
    ensures var b := v.state.busy[me]; w.state.busy[me] == Batch(b.todo[1..], [], b.done + [b.todo[0]])
  {
    var begun := Next(v, me);
    var called := Next(begun.(state := Apply(begun.state, Begin(me))), me);
    called.(state := Apply(called.state, End(me)))
  }

  /** All callbacks of the event in hand, and then it is destroyed. */
  function Callbacks(v: View, me: Thread): (w: View)
    requires me < |v.state.busy| && v.state.busy[me].current == []
    ensures IdleIn(w, me) && |w.slices| <= |v.slices| && v.now <= w.now
    decreases |v.state.busy[me].todo|
  {
    if v.state.busy[me].todo == [] then v.(state := Apply(v.state, Destroy(me)))
    else Callbacks(OneCallback(v, me), me)
  }

  /** One look at native; an event that is there is served. */
  function Looked(v: View, me: Thread): (w: View)
    requires IdleIn(v, me)
    ensures IdleIn(w, me) && v.now <= w.now
    ensures if v.slices == [] then w.slices == [] else |w.slices| < |v.slices|
  {
    var seen := Next(v, me);
    if seen.state.queue == [] then seen else Callbacks(seen.(state := Apply(seen.state, Pop(me))), me)
  }

  /** `poll`: looks until the deadline has passed. */
  function Polled(v: View, deadline: Deadline, me: Thread): (w: View)
    requires IdleIn(v, me)
    ensures IdleIn(w, me) && |w.slices| <= |v.slices| && v.now <= w.now
    decreases |v.slices|
  {
    if v.slices == [] then v
    else
      var w := Looked(v, me);
      if deadline.Elapsed(w.now) then w else Polled(w, deadline, me)
  }

  datatype FlushResult = Flushed | TimedOut | StillFlushing
  datatype FlushRun = FlushRun(result: FlushResult, view: View)

  /** The deadline of a poll that a flush makes: what is left of its own, but at most 100 ms. */
  function PollDeadline(deadline: Deadline, now: nat): Deadline {
    Deadline.From(deadline.Remaining(now).Min(FLUSH_POLL), now)
  }

  /** `flush`: asks native whether anything is outstanding, and polls in between. */
  function Flushing(v: View, deadline: Deadline, me: Thread): (r: FlushRun)
    requires IdleIn(v, me)
    ensures IdleIn(r.view, me)
    decreases |v.slices|
  {
    if v.slices == [] then FlushRun(StillFlushing, v)
    else
      var asked := Next(v, me);
      if asked.state.outstanding == 0 then FlushRun(Flushed, asked)
      else if deadline.Elapsed(asked.now) then FlushRun(TimedOut, asked)
      else Flushing(Polled(asked, PollDeadline(deadline, asked.now), me), deadline, me)
  }

  // ---- Nothing is taken back ----

  lemma NextGrows(v: View, me: Thread)
    requires me < |v.state.busy|
    ensures v.state.delivered <= Next(v, me).state.delivered
  {
    if v.slices != [] {
      HistoriesGrow(v.state, OthersRun(v.state, v.slices[0].steps, me));
    }
  }

  lemma OneCallbackGrows(v: View, me: Thread)
    requires me < |v.state.busy| && v.state.busy[me].current == [] && v.state.busy[me].todo != []
    ensures v.state.delivered <= OneCallback(v, me).state.delivered
    ensures v.state.busy[me].todo[0] in OneCallback(v, me).state.delivered
  {
    var begun := Next(v, me);
    NextGrows(v, me);
    NextGrows(begun.(state := Apply(begun.state, Begin(me))), me);
    var delivered := OneCallback(v, me).state.delivered;
    assert delivered[|delivered| - 1] == v.state.busy[me].todo[0];
  }

  lemma {:induction false} CallbacksDeliver(v: View, me: Thread)
    requires me < |v.state.busy| && v.state.busy[me].current == []
    ensures v.state.delivered <= Callbacks(v, me).state.delivered
    ensures forall r :: r in v.state.busy[me].todo ==> r in Callbacks(v, me).state.delivered
    decreases |v.state.busy[me].todo|
  {
    var todo := v.state.busy[me].todo;
    if todo != [] {
      OneCallbackGrows(v, me);
      CallbacksDeliver(OneCallback(v, me), me);
      assert forall r :: r in todo ==> r == todo[0] || r in todo[1..];
    }
  }

  /** An event that a look finds is delivered, every report of it. */
  lemma LookDelivers(v: View, me: Thread)
    requires IdleIn(v, me)
    ensures v.state.delivered <= Looked(v, me).state.delivered
    ensures forall r :: r in FirstEvent(v.state, v.slices, me) ==> r in Looked(v, me).state.delivered
  {
    NextGrows(v, me);
    var seen := Next(v, me);
    if seen.state.queue != [] {
      CallbacksDeliver(seen.(state := Apply(seen.state, Pop(me))), me);
    }
  }

  lemma {:induction false} PollDelivers(v: View, deadline: Deadline, me: Thread)
    requires IdleIn(v, me)
    ensures v.state.delivered <= Polled(v, deadline, me).state.delivered
    ensures forall r :: r in FirstEvent(v.state, v.slices, me) ==> r in Polled(v, deadline, me).state.delivered
    decreases |v.slices|
  {
    if v.slices != [] {
      var w := Looked(v, me);
      LookDelivers(v, me);
      if !deadline.Elapsed(w.now) { PollDelivers(w, deadline, me); }
    }
  }

  lemma {:induction false} FlushGrows(v: View, deadline: Deadline, me: Thread)
    requires IdleIn(v, me)
    ensures v.state.delivered <= Flushing(v, deadline, me).view.state.delivered
    decreases |v.slices|
  {
    if v.slices != [] {
      var asked := Next(v, me);
      NextGrows(v, me);
      if asked.state.outstanding != 0 && !deadline.Elapsed(asked.now) {
        var polled := Polled(asked, PollDeadline(deadline, asked.now), me);
        PollDelivers(asked, PollDeadline(deadline, asked.now), me);
        FlushGrows(polled, deadline, me);
      }
    }
  }

  /** A flush that finds messages outstanding in time polls: whatever that poll delivers is delivered when the flush
      returns, the event that it finds at once among it. */
  lemma FlushServes(v: View, deadline: Deadline, me: Thread)
    requires IdleIn(v, me) && v.slices != []
    requires Next(v, me).state.outstanding != 0 && !deadline.Elapsed(Next(v, me).now)
    ensures var asked := Next(v, me); var end := Flushing(v, deadline, me).view.state;
      && Polled(asked, PollDeadline(deadline, asked.now), me).state.delivered <= end.delivered
      && forall r :: r in FirstEvent(asked.state, asked.slices, me) ==> r in end.delivered
  {
    var asked := Next(v, me);
    PollDelivers(asked, PollDeadline(deadline, asked.now), me);
    FlushGrows(Polled(asked, PollDeadline(deadline, asked.now), me), deadline, me);
  }

  // ---- Nothing is begun too late ----

  /** The last look of a poll was begun before the deadline, or is the first. */
  lemma {:induction false} LastLookInTime(v: View, deadline: Deadline, me: Thread) returns (last: View)
    requires IdleIn(v, me) && v.slices != []
    ensures IdleIn(last, me) && Polled(v, deadline, me) == Looked(last, me)
    ensures last == v || (v.now <= last.now && !deadline.Elapsed(last.now))
    decreases |v.slices|
  {
    var w := Looked(v, me);
    last := v;
    if !deadline.Elapsed(w.now) && w.slices != [] {
      last := LastLookInTime(w, deadline, me);
    }
  }

  /** A poll that ends before the script does has used up its time. */
  lemma {:induction false} PollTakesItsTime(v: View, deadline: Deadline, me: Thread)
    requires IdleIn(v, me)
    ensures Polled(v, deadline, me).slices != [] ==> deadline.Elapsed(Polled(v, deadline, me).now)
    decreases |v.slices|
  {
    if v.slices != [] && !deadline.Elapsed(Looked(v, me).now) {
      PollTakesItsTime(Looked(v, me), deadline, me);
    }
  }

  /** Every poll that a flush makes in time lasts until 100 ms are over or its own deadline comes, whichever is
      first. */
  lemma PollDeadlineMeaning(deadline: Deadline, now: nat)
    requires !deadline.Elapsed(now)
    ensures PollDeadline(deadline, now) ==
      At(if deadline.At? && deadline.instant < now + 100_000_000 then deadline.instant else now + 100_000_000)
  {
  }

  /** How a flush ended: it asked native after a poll that it had begun in time with messages outstanding, or never
      polled. */
  lemma {:induction false} LastPollInTime(v: View, deadline: Deadline, me: Thread) returns (before: View)
    requires IdleIn(v, me)
    ensures IdleIn(before, me) && Flushing(v, deadline, me) == Flushing(before, deadline, me)
    ensures before.slices == [] || Next(before, me).state.outstanding == 0 || deadline.Elapsed(Next(before, me).now)
    ensures before == v || PolledInTime(before, deadline, me)
    decreases |v.slices|
  {
    before := v;
    if v.slices != [] {
      var asked := Next(v, me);
      if asked.state.outstanding != 0 && !deadline.Elapsed(asked.now) {
        var polled := Polled(asked, PollDeadline(deadline, asked.now), me);
        before := LastPollInTime(polled, deadline, me);
        if before == polled {
          assert PolledFrom(before, asked, deadline, me);
        }
      }
    }
  }

  ghost predicate PolledFrom(v: View, asked: View, deadline: Deadline, me: Thread) {
    && IdleIn(asked, me) && asked.state.outstanding != 0 && !deadline.Elapsed(asked.now)
    && v == Polled(asked, PollDeadline(deadline, asked.now), me)
  }

  ghost predicate PolledInTime(v: View, deadline: Deadline, me: Thread) {
    exists asked :: PolledFrom(v, asked, deadline, me)
  }

  // ---- A poll that is left alone serves the whole queue ----

  /** Others do nothing. */
  ghost predicate Quiet(slices: seq<Slice>) {
    forall sl :: sl in slices ==> sl.steps == []
  }

  /** The operations that a poll needs for the events: one look each, and two per report. */
  function LooksFor(queue: seq<seq<Report>>): nat {
    if queue == [] then 0 else 1 + 2 * |queue[0]| + LooksFor(queue[1..])
  }

  function Flat(queue: seq<seq<Report>>): seq<Report> {
    if queue == [] then [] else queue[0] + Flat(queue[1..])
  }

  lemma QuietNext(v: View, me: Thread)
    requires me < |v.state.busy| && Quiet(v.slices)
    ensures Next(v, me).state == v.state && Quiet(Next(v, me).slices)
  {
    if v.slices != [] { assert v.slices[0].steps == []; }
  }

  lemma QuietCallback(v: View, me: Thread)
    requires me < |v.state.busy| && v.state.busy[me].current == [] && v.state.busy[me].todo != [] && Quiet(v.slices)
    ensures var w := OneCallback(v, me);
      && w.state.delivered == v.state.delivered + [v.state.busy[me].todo[0]] && w.state.queue == v.state.queue
      && Quiet(w.slices) && |w.slices| + 2 >= |v.slices| && Timely(v, w)
  {
    var begun := Next(v, me);
    QuietNext(v, me);
    QuietNext(begun.(state := Apply(begun.state, Begin(me))), me);
  }

  /** The clock shows a time that it showed before or that the script held. */
  ghost predicate Timely(v: View, w: View) {
    && (w.now == v.now || exists sl :: sl in v.slices && sl.now == w.now)
    && (forall sl :: sl in w.slices ==> sl in v.slices)
  }

  lemma {:induction false} QuietCallbacks(v: View, me: Thread)
    requires me < |v.state.busy| && v.state.busy[me].current == [] && Quiet(v.slices)
    ensures var w := Callbacks(v, me); var todo := v.state.busy[me].todo;
      && w.state.delivered == v.state.delivered + todo && w.state.queue == v.state.queue
      && Quiet(w.slices) && |w.slices| + 2 * |todo| >= |v.slices| && Timely(v, w)
    decreases |v.state.busy[me].todo|
  {
    var todo := v.state.busy[me].todo;
    if todo != [] {
      var w := OneCallback(v, me);
      QuietCallback(v, me);
      QuietCallbacks(w, me);
      TimelyThen(v, w, Callbacks(w, me));
      HeadFirst(v.state.delivered, todo);
    }
  }

  lemma TimelyThen(u: View, v: View, w: View)
    requires Timely(u, v) && Timely(v, w)
    ensures Timely(u, w)
  {
  }

  lemma HeadFirst(delivered: seq<Report>, todo: seq<Report>)
    requires todo != []
    ensures delivered + [todo[0]] + todo[1..] == delivered + todo
  {
  }

  lemma QuietLook(v: View, me: Thread)
    requires IdleIn(v, me) && Quiet(v.slices)
    ensures var w := Looked(v, me);
      && (v.state.queue == [] ==> w.state == v.state)
      && (v.state.queue != [] ==>
            && w.state.delivered == v.state.delivered + v.state.queue[0] && w.state.queue == v.state.queue[1..]
            && |w.slices| + 1 + 2 * |v.state.queue[0]| >= |v.slices|)
      && Quiet(w.slices) && Timely(v, w)
  {
    QuietNext(v, me);
    var seen := Next(v, me);
    if seen.state.queue != [] {
      QuietCallbacks(seen.(state := Apply(seen.state, Pop(me))), me);
    }
  }

  /** There is time for every operation of the script. */
  ghost predicate InTimeFor(v: View, deadline: Deadline) {
    !deadline.Elapsed(v.now) && forall sl :: sl in v.slices ==> !deadline.Elapsed(sl.now)
  }

  lemma StaysInTime(v: View, w: View, deadline: Deadline)
    requires InTimeFor(v, deadline) && Timely(v, w)
    ensures InTimeFor(w, deadline)
  {
  }

  lemma FlatNext(delivered: seq<Report>, queue: seq<seq<Report>>)
    requires queue != []
    ensures delivered + queue[0] + Flat(queue[1..]) == delivered + Flat(queue)
  {
  }

  /** A poll to which nobody else does anything delivers all that is queued, in order, if it has the time. */
  lemma {:induction false} QuietPollDrains(v: View, deadline: Deadline, me: Thread)
    requires IdleIn(v, me) && Quiet(v.slices) && |v.slices| >= LooksFor(v.state.queue) && InTimeFor(v, deadline)
    ensures var w := Polled(v, deadline, me);
      w.state.queue == [] && w.state.delivered == v.state.delivered + Flat(v.state.queue)
    decreases |v.slices|
  {
    if v.slices != [] {
      var w := Looked(v, me);
      QuietLook(v, me);
      StaysInTime(v, w, deadline);
      QuietPollDrains(w, deadline, me);
      if v.state.queue != [] { FlatNext(v.state.delivered, v.state.queue); }
    }
  }
}
