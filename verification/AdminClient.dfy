/** Requests, responses and shutdown of `AdminClient` (src/admin.rs).

    Each request hands native a boxed sender as its opaque; a polling thread takes responses off the client's
    queue and sends each to the sender it carries; dropping the client sets a flag and joins the thread, which
    looks at the flag after each empty poll. The poll and the look are two operations. */
module AdminClient {
  import opened Wrappers
  import opened Counting
  import opened Timeouts

  type Channel = nat
  type Response = int

  datatype Event = Event(sender: Channel, response: Response)

  /** The polling thread: at its poll, between an empty poll and the look at the flag, out of its loop. */
  datatype Poller = Polling | Checking | Exited

  datatype State = State(
    issued: nat,              // channels made so far; a channel is its number
    pending: set<Channel>,    // senders that native holds
    queue: seq<Event>,
    resolved: seq<Event>,     // history: events sent on the channel of their sender
    answered: seq<Event>,     // history: everything native ever put on the queue
    stop: bool,
    poller: Poller,
    served: nat,              // history: how many answers there had been at its last empty poll
    dropped: bool)

  datatype Step =
    | Submit
    | Answer(sender: Channel, response: Response)
    | PollEvent
    | PollEmpty
    | CheckStop
    | RequestStop
    | Join

  const FRESH: State := State(0, {}, [], [], [], false, Polling, 0, false)

  predicate Enabled(s: State, step: Step) {
    match step
    case Submit => !s.stop
    case Answer(c, _) => c in s.pending
    case PollEvent => s.poller.Polling? && s.queue != []
    case PollEmpty => s.poller.Polling? && s.queue == []
    case CheckStop => s.poller.Checking?
    case RequestStop => !s.stop
    case Join => s.stop && s.poller.Exited? && !s.dropped
  }

  function Apply(s: State, step: Step): State
    requires Enabled(s, step)
  {
    match step
    case Submit => s.(issued := s.issued + 1, pending := s.pending + {s.issued})
    case Answer(c, response) =>
      var e := Event(c, response);
      s.(pending := s.pending - {c}, queue := s.queue + [e], answered := s.answered + [e])
    case PollEvent => s.(queue := s.queue[1..], resolved := s.resolved + [s.queue[0]])
    case PollEmpty => s.(poller := Checking, served := |s.answered|)
    case CheckStop => s.(poller := if s.stop then Exited else Polling)
    case RequestStop => s.(stop := true)
    case Join => s.(dropped := true)
  }

  predicate ValidRun(s: State, steps: seq<Step>)
    decreases |steps|
  {
    steps == [] || (Enabled(s, steps[0]) && ValidRun(Apply(s, steps[0]), steps[1..]))
  }

  function Exec(s: State, steps: seq<Step>): State
    requires ValidRun(s, steps)
    decreases |steps|
  {
    if steps == [] then s else Exec(Apply(s, steps[0]), steps[1..])
  }

  // ---- Correlation ----

  ghost predicate AnsweredOnce(events: seq<Event>) {
    forall i, j :: 0 <= i < j < |events| ==> events[i].sender != events[j].sender
  }

  predicate Answered(s: State, c: Channel) {
    exists i :: 0 <= i < |s.answered| && s.answered[i].sender == c
  }

  ghost predicate Inv(s: State) {
    && s.answered == s.resolved + s.queue
    && AnsweredOnce(s.answered)
    && (forall c :: c in s.pending ==> c < s.issued && !Answered(s, c))
    && (forall i :: 0 <= i < |s.answered| ==> s.answered[i].sender < s.issued)
    && (forall c: Channel :: c < s.issued ==> c in s.pending || Answered(s, c))
    && (!s.poller.Polling? ==> s.served == |s.resolved|)
    && (s.poller.Exited? ==> s.stop)
    && (s.dropped ==> s.poller.Exited?)
  }

  lemma AnsweredAfter(s: State, c: Channel, response: Response, d: Channel)
    requires c in s.pending
    ensures Answered(Apply(s, Answer(c, response)), d) <==> d == c || Answered(s, d)
  {
    var t := Apply(s, Answer(c, response));
    assert t.answered[|s.answered|].sender == c;
    if Answered(s, d) {
      var i :| 0 <= i < |s.answered| && s.answered[i].sender == d;
      assert t.answered[i].sender == d;
    }
  }

  lemma AnswerKeepsInv(s: State, c: Channel, response: Response)
    requires Inv(s) && c in s.pending
    ensures Inv(Apply(s, Answer(c, response)))
  {
    var t := Apply(s, Answer(c, response));
    assert t.answered == t.resolved + t.queue;
    assert !Answered(s, c);
    forall d: Channel ensures Answered(t, d) <==> d == c || Answered(s, d) { AnsweredAfter(s, c, response, d); }
  }

  lemma StepKeepsInv(s: State, step: Step)
    requires Inv(s) && Enabled(s, step)
    ensures Inv(Apply(s, step))
  {
    var t := Apply(s, step);
    match step {
      case Answer(c, response) => AnswerKeepsInv(s, c, response);
      case PollEvent => assert s.queue == [s.queue[0]] + s.queue[1..];
      case Submit =>
        assert !Answered(t, s.issued);
        forall c: Channel | c < t.issued ensures c in t.pending || Answered(t, c) {
          if c < s.issued { assert c in s.pending || Answered(s, c); }
        }
        forall c | c in s.pending ensures !Answered(t, c) { assert !Answered(s, c); }
      case _ =>
    }
  }

  lemma {:induction false} RunKeepsInv(s: State, steps: seq<Step>)
    requires Inv(s) && ValidRun(s, steps)
    ensures Inv(Exec(s, steps))
    decreases |steps|
  {
    if steps != [] {
      StepKeepsInv(s, steps[0]);
      RunKeepsInv(Apply(s, steps[0]), steps[1..]);
    }
  }

  /** The responses sent on a channel. */
  function SentOn(events: seq<Event>, c: Channel): seq<Response> {
    if events == [] then []
    else (if events[0].sender == c then [events[0].response] else []) + SentOn(events[1..], c)
  }

  lemma {:induction false} SentOnOnce(events: seq<Event>, i: nat)
    requires AnsweredOnce(events) && i < |events|
    ensures SentOn(events, events[i].sender) == [events[i].response]
  {
    if i == 0 {
      SentOnNone(events[1..], events[0].sender);
    } else {
      assert events[i] == events[1..][i - 1];
      SentOnOnce(events[1..], i - 1);
    }
  }

  lemma {:induction false} SentOnNone(events: seq<Event>, c: Channel)
    requires forall i :: 0 <= i < |events| ==> events[i].sender != c
    ensures SentOn(events, c) == []
  {
    if events != [] { SentOnNone(events[1..], c); }
  }

  /** Correlation in every run: a request is resolved at most once, by the response that native gave to that very
      request, and native's responses are resolved in the order given. */
  lemma ResponseReachesItsRequest(steps: seq<Step>, i: nat)
    requires ValidRun(FRESH, steps) && i < |Exec(FRESH, steps).answered|
    ensures var s := Exec(FRESH, steps); var e := s.answered[i];
      && s.resolved <= s.answered && e.sender < s.issued && e.sender !in s.pending
      && SentOn(s.resolved, e.sender) == if i < |s.resolved| then [e.response] else []
  {
    RunKeepsInv(FRESH, steps);
    var s := Exec(FRESH, steps);
    assert Answered(s, s.answered[i].sender);
    if i < |s.resolved| {
      assert s.resolved[i] == s.answered[i];
      forall a, b | 0 <= a < b < |s.resolved| ensures s.resolved[a].sender != s.resolved[b].sender {
        assert s.answered[a] == s.resolved[a] && s.answered[b] == s.resolved[b];
      }
      SentOnOnce(s.resolved, i);
    } else {
      forall a | 0 <= a < |s.resolved| ensures s.resolved[a].sender != s.answered[i].sender {
        assert s.answered[a] == s.resolved[a];
      }
      SentOnNone(s.resolved, s.answered[i].sender);
    }
  }

  /** Shutdown: when `drop` has returned, exactly the responses queued before the thread's final empty poll have been
      sent; the requests left unresolved are those native still holds and those answered later. */
  lemma DropDeliversWhatWasQueued(steps: seq<Step>, c: Channel)
    requires ValidRun(FRESH, steps) && Exec(FRESH, steps).dropped
    ensures var s := Exec(FRESH, steps);
      && s.served <= |s.answered| && s.resolved == s.answered[..s.served] && s.queue == s.answered[s.served..]
      && (c < s.issued && SentOn(s.resolved, c) == [] ==>
            c in s.pending || exists i :: s.served <= i < |s.answered| && s.answered[i].sender == c)
  {
    RunKeepsInv(FRESH, steps);
    var s := Exec(FRESH, steps);
    if c < s.issued && c !in s.pending {
      assert Answered(s, c);
      var i :| 0 <= i < |s.answered| && s.answered[i].sender == c;
      ResponseReachesItsRequest(steps, i);
    }
  }

  // ---- What drop leaves behind ----

  /** The thread has committed itself to leaving: the flag is set and it will not poll again. */
  lemma {:induction false} LeavingSendsNothing(s: State, steps: seq<Step>)
    requires ValidRun(s, steps) && s.stop && !s.poller.Polling?
    ensures Exec(s, steps).resolved == s.resolved
    decreases |steps|
  {
    if steps != [] { LeavingSendsNothing(Apply(s, steps[0]), steps[1..]); }
  }

  /** Either the thread has still to make an empty poll, or everything of the given answers has been sent. */
  ghost predicate SentUnlessPolling(s: State, answers: seq<Event>) {
    answers <= s.answered && (s.poller.Polling? || answers <= s.resolved)
  }

  lemma {:induction false} PollingSendsAll(s: State, steps: seq<Step>, answers: seq<Event>)
    requires Inv(s) && ValidRun(s, steps) && SentUnlessPolling(s, answers)
    ensures SentUnlessPolling(Exec(s, steps), answers)
    decreases |steps|
  {
    if steps != [] {
      StepKeepsInv(s, steps[0]);
      PollingSendsAll(Apply(s, steps[0]), steps[1..], answers);
    }
  }

  /** Whether every response that was queued when `drop` was called has been sent when it returns, whatever happens
      in between: exactly when the polling thread was not, at the call, between an empty poll and its look at the
      flag with a response queued since that poll. */
  lemma DropSendsAllIff(before: seq<Step>, after: seq<Step>)
    requires ValidRun(FRESH, before) && Enabled(Exec(FRESH, before), RequestStop)
    requires ValidRun(Apply(Exec(FRESH, before), RequestStop), after)
    requires Exec(Apply(Exec(FRESH, before), RequestStop), after).dropped
    ensures var called := Exec(FRESH, before); var returned := Exec(Apply(called, RequestStop), after);
      called.answered <= returned.resolved <==> !(called.poller.Checking? && called.queue != [])
  {
    var called := Exec(FRESH, before);
    var stopping := Apply(called, RequestStop);
    RunKeepsInv(FRESH, before);
    StepKeepsInv(called, RequestStop);
    RunKeepsInv(stopping, after);
    if called.poller.Checking? && called.queue != [] {
      LeavingSendsNothing(stopping, after);
    } else {
      PollingSendsAll(stopping, after, called.answered);
    }
  }

  /** The failing case is real: a response queued before `drop` is called is still unsent when it has returned. */
  lemma ResponseCanBeLeft(response: Response) returns (before: seq<Step>, after: seq<Step>)
    ensures ValidRun(FRESH, before) && Exec(FRESH, before).answered == [Event(0, response)]
    ensures Enabled(Exec(FRESH, before), RequestStop)
    ensures ValidRun(Apply(Exec(FRESH, before), RequestStop), after)
    ensures var s := Exec(Apply(Exec(FRESH, before), RequestStop), after);
      s.dropped && s.resolved == [] && s.queue == [Event(0, response)]
  {
    before, after := [Submit, PollEmpty, Answer(0, response)], [CheckStop, Join];
    var s1 := Apply(FRESH, Submit);
    var s2 := Apply(s1, PollEmpty);
    var s3 := Apply(s2, Answer(0, response));
    assert before[1..][1..][1..] == [] && before[1..][1..] == [Answer(0, response)];
    assert ValidRun(s2, before[1..][1..]) && Exec(s2, before[1..][1..]) == s3;
    assert ValidRun(s1, before[1..]) && Exec(s1, before[1..]) == s3;
    var s4 := Apply(s3, RequestStop);
    var s5 := Apply(s4, CheckStop);
    assert after[1..] == [Join] && after[1..][1..] == [];
    assert ValidRun(s5, after[1..]) && Exec(s5, after[1..]) == Apply(s5, Join);
  }

  // ---- Submitting a request ----

  /** What a request is about, with what its conversion looks at: strings become C strings, and the numbers of
      assigned partitions are checked. `config` holds keys and values in turn. */
  datatype Item =
    | NewTopic(name: string, partitions: int, assignment: Option<nat>, config: seq<string>)
    | NewPartitions(name: string, total: nat, assignment: Option<nat>)
    | Named(name: string)                         // a topic, group or resource
    | Resource(name: string, config: seq<string>) // a configuration to alter
    | Offsets                                     // records to delete

  predicate NoNul(s: string) { '\0' !in s }

  predicate WellFormed(item: Item) {
    match item
    case NewTopic(name, partitions, assignment, config) =>
      && NoNul(name) && (assignment.Some? ==> TruncateToI32(assignment.value) == partitions)
      && forall i :: 0 <= i < |config| ==> NoNul(config[i])
    case NewPartitions(name, total, assignment) => NoNul(name) && (assignment.Some? ==> assignment.value <= total)
    case Named(name) => NoNul(name)
    case Resource(name, config) => NoNul(name) && forall i :: 0 <= i < |config| ==> NoNul(config[i])
    case Offsets => true
  }

  /** An item, and whether native takes what it is given for it. */
  datatype Asked = Asked(item: Item, taken: bool)

  /** What can go wrong before the request is made: converting each item, then setting each of the four options. */
  datatype Request = Request(
    items: seq<Asked>,
    requestTimeout: Option<bool>, operationTimeout: Option<bool>, validateOnly: Option<bool>, brokerId: Option<bool>) {

    predicate Convertible() {
      && (forall i :: 0 <= i < |items| ==> WellFormed(items[i].item) && items[i].taken)
      && requestTimeout != Some(false) && operationTimeout != Some(false)
      && validateOnly != Some(false) && brokerId != Some(false)
    }
  }

  method ConvertStrings(strings: seq<string>) returns (ok: bool)
    ensures ok <==> forall i :: 0 <= i < |strings| ==> NoNul(strings[i])
  {
    for n := 0 to |strings|
      invariant forall i :: 0 <= i < n ==> NoNul(strings[i])
    {
      if !NoNul(strings[n]) {
        return false;
      }
    }
    ok := true;
  }

  /** The conversions of the seven operations, check by check. An assignment that native would crash on never gets
      there. */
  method Convert(asked: Asked) returns (ok: bool)
    ensures ok <==> WellFormed(asked.item) && asked.taken
  {
    var item := asked.item;
    if !item.Offsets? && !NoNul(item.name) {
      return false;
    }
    if item.NewTopic? && item.assignment.Some? && TruncateToI32(item.assignment.value) != item.partitions {
      return false;
    }
    if item.NewPartitions? && item.assignment.Some? && item.assignment.value > item.total {
      return false;
    }
    if !asked.taken {
      return false;
    }
    if item.NewTopic? || item.Resource? {
      ok := ConvertStrings(item.config);
    } else {
      ok := true;
    }
  }

  // ---- The polling thread as a function ----

  /** Steps of somebody other than the polling thread. */
  predicate Foreign(step: Step) {
    !step.PollEvent? && !step.PollEmpty? && !step.CheckStop?
  }

  /** Those of the given steps that others can take, one after the other. */
  function Interfered(s: State, steps: seq<Step>): State
    decreases |steps|
  {
    if steps == [] then s
    else Interfered(if Foreign(steps[0]) && Enabled(s, steps[0]) then Apply(s, steps[0]) else s, steps[1..])
  }

  /** The thread's operations, each after what others do, until it has left its loop. */
  function Looped(s: State, others: seq<seq<Step>>): State
    decreases |others|
  {
    if others == [] || s.poller.Exited? then s
    else
      var t := Interfered(s, others[0]);
      var next :=
        if t.poller.Checking? then Apply(t, CheckStop)
        else if t.poller.Exited? then t
        else if t.queue == [] then Apply(t, PollEmpty) else Apply(t, PollEvent);
      Looped(next, others[1..])
  }

  datatype Submitted = Receiver(channel: Channel) | Failed

  class Client {
    var state: State

    constructor ()
      ensures state == FRESH
    {
      state := FRESH;
    }

    /** The shape shared by the seven `*_inner` functions and `AdminOptions::to_native`: a channel is made, and its
        sender handed over, only after every fallible conversion has succeeded. */
    method SubmitRequest(r: Request) returns (result: Submitted)
      requires Inv(state) && !state.stop
      modifies this
      ensures Inv(state)
      ensures result.Receiver? <==> r.Convertible()
      ensures result.Failed? ==> state == old(state)
      ensures result.Receiver? ==>
        && state == Apply(old(state), Submit) && result.channel in state.pending
        && result.channel !in old(state).pending && !Answered(state, result.channel)
    {
      var n := 0;
      while n < |r.items|
        invariant n <= |r.items| && state == old(state)
        invariant forall i :: 0 <= i < n ==> WellFormed(r.items[i].item) && r.items[i].taken
      {
        var ok := Convert(r.items[n]);
        if !ok {
          return Failed;
        }
        n := n + 1;
      }
      if r.requestTimeout == Some(false) {
        return Failed;
      }
      if r.operationTimeout == Some(false) {
        return Failed;
      }
      if r.validateOnly == Some(false) {
        return Failed;
      }
      if r.brokerId == Some(false) {
        return Failed;
      }
      var channel := state.issued;
      StepKeepsInv(state, Submit);
      state := Apply(state, Submit);
      result := Receiver(channel);
    }

    /** The polling thread, with what native and the client's owner do before each of its operations given as a
        script. Every response that is queued is sent, one poll each. It leaves only with the flag set; by then it has
        sent every response that was queued at its last empty poll, and those queued since are left. Once the flag is
        set it leaves after at most two operations more than there are responses to send: those queued and those given
        while it runs. */
    method PollLoop(others: seq<seq<Step>>)
      requires Inv(state) && state.poller.Polling?
      modifies this
      ensures Inv(state) && state == Looped(old(state), others)
      ensures |others| >= |old(state).queue| ==> old(state).answered <= state.resolved
      ensures state.poller.Exited? ==> state.stop && state.served <= |state.answered|
      ensures state.poller.Exited? ==>
        state.resolved == state.answered[..state.served] && state.queue == state.answered[state.served..]
      ensures |old(state).answered| <= |state.answered|
      ensures old(state).stop && |others| > |old(state).queue| + |state.answered| - |old(state).answered| + 1 ==>
        state.poller.Exited?
    {
      var n := 0;
      while n < |others|
        invariant n <= |others| && Inv(state) && !state.poller.Exited?
        invariant Looped(old(state), others) == Looped(state, others[n..])
        invariant old(state).answered <= state.answered && old(state).resolved <= state.resolved
        invariant old(state).answered <= state.resolved ||
                  (state.poller.Polling? && |state.resolved| == |old(state).resolved| + n)
        invariant old(state).stop ==> state.stop
        invariant old(state).stop ==>
          |state.queue| + n - Bit(state.poller.Checking?) <=
            |old(state).queue| + |state.answered| - |old(state).answered|
      {
        Interfere(others[n]);
        assert others[n..][1..] == others[n + 1..];
        n := n + 1;
        var operation :=
          if state.poller.Checking? then CheckStop else if state.queue == [] then PollEmpty else PollEvent;
        StepKeepsInv(state, operation);
        state := Apply(state, operation);
        if state.poller.Exited? {
          return;
        }
      }
    }

    /** Whatever of the given steps others can take. */
    method Interfere(steps: seq<Step>)
      requires Inv(state) && !state.poller.Exited?
      modifies this
      ensures Inv(state) && state == Interfered(old(state), steps)
      ensures state.poller == old(state).poller && (old(state).stop ==> state.stop)
      ensures state.resolved == old(state).resolved && old(state).answered <= state.answered
      ensures |state.queue| - |old(state).queue| == |state.answered| - |old(state).answered|
    {
      for i := 0 to |steps|
        invariant Inv(state) && Interfered(old(state), steps) == Interfered(state, steps[i..])
        invariant state.poller == old(state).poller && (old(state).stop ==> state.stop)
        invariant state.resolved == old(state).resolved && old(state).answered <= state.answered
        invariant |state.queue| - |old(state).queue| == |state.answered| - |old(state).answered|
      {
        assert steps[i..][1..] == steps[i + 1..];
        if Foreign(steps[i]) && Enabled(state, steps[i]) {
          StepKeepsInv(state, steps[i]);
          state := Apply(state, steps[i]);
        }
      }
    }
  }
}
