/** `BaseConsumer::poll_queue` (src/consumer/base_consumer.rs): a loop over native polls with a time budget
    that only some of its paths refresh.

    The environment is a script: what each native poll returned, how long it blocked, and how long the
    handlers of its event ran. A run that has used up its script is still inside a native poll. */
module PollEngine {
  import opened Wrappers
  import opened Timeouts
  import opened ClientEvents

  datatype Reply = Reply(event: Option<Event>, wait: nat, handling: nat)

  datatype Outcome = Returned(result: EventPollResult<Item>) | StillPolling

  /** What stays fixed in one call. */
  datatype Config = Config(initial: Timeout, interval: Timeout, refreshTokens: bool)

  /** The loop's variables; `stale` counts the rounds since the budget was last refreshed. */
  datatype Loop = Loop(timeout: Timeout, elapsed: nat, stale: nat)

  /** A finished or unfinished run: the replies used, the timeouts given to native, the context calls. */
  datatype Run = Run(outcome: Outcome, used: nat, ops: seq<Timeout>, calls: seq<Call>, elapsed: nat, stale: nat)

  const DEFAULT_INTERVAL: Timeout := After(1000 * NANOS_PER_MILLI)

  function Start(c: Config): Loop {
    Loop(c.initial, 0, 0)
  }

  /** How one round ends: with a result, or with new loop variables. */
  datatype Round = Stop(result: EventPollResult<Item>) | Again(loop: Loop)

  function Refreshed(c: Config, elapsed: nat, result: EventPollResult<Item>): Round {
    var left := c.initial.SaturatingSub(elapsed);
    if left.IsZero() then Stop(result) else Again(Loop(left, elapsed, 0))
  }

  function OneRound(c: Config, l: Loop, r: Reply): Round {
    var elapsed := l.elapsed + r.wait + r.handling;
    match r.event
    case None => Refreshed(c, elapsed, NoEvent)
    case Some(e) =>
      if !Forwarded(e) then Refreshed(c, elapsed, EventConsumed)
      else if ConsumerItem(e).Some? then Stop(Ready(ConsumerItem(e).value))
      else if (e.Rebalance? || e.OffsetCommit?) && l.timeout != Never then Stop(EventConsumed)
      else Again(Loop(l.timeout, elapsed, l.stale + 1))
  }

  function ReplyCalls(r: Reply, refreshTokens: bool): seq<Call> {
    if r.event.Some? then DispatchCalls(r.event.value, refreshTokens) else []
  }

  /** The reference run of the loop over a script. */
  function PollFrom(c: Config, l: Loop, script: seq<Reply>): Run
    decreases |script|
  {
    if script == [] then Run(StillPolling, 0, [], [], l.elapsed, l.stale)
    else
      var op := l.timeout.Min(c.interval);
      var calls := ReplyCalls(script[0], c.refreshTokens);
      match OneRound(c, l, script[0])
      case Stop(result) =>
        Run(Returned(result), 1, [op], calls, l.elapsed + script[0].wait + script[0].handling, l.stale)
      case Again(next) =>
        var rest := PollFrom(c, next, script[1..]);
        Run(rest.outcome, rest.used + 1, [op] + rest.ops, calls + rest.calls, rest.elapsed, rest.stale)
  }

  /** `Client::poll_event` on an event that native returned: the context calls it makes, and whether the event goes
      on to the caller. */
  method PollEvent(event: Event, refreshTokens: bool) returns (forwarded: bool, calls: seq<Call>)
    ensures forwarded == Forwarded(event) && calls == ClientCalls(event, refreshTokens)
    ensures |calls| <= 1 && (forwarded && calls != [] ==> event.Error?)
  {
    forwarded, calls := false, [];
    match event {
      case Log(readable) =>
        if readable { calls := [LogCall]; }
      case Stats =>
        calls := [StatsCall];
      case Error(code, _, _) =>
        forwarded, calls := true, [ErrorCall(code)];
      case OauthRefresh =>
        if refreshTokens { calls := [TokenCall]; }
      case _ =>
        forwarded := true;
    }
  }

  /** One trip round the loop body, branch by branch as it is written. */
  method HandleReply(c: Config, l: Loop, reply: Reply) returns (round: Round, calls: seq<Call>)
    ensures round == OneRound(c, l, reply) && calls == ReplyCalls(reply, c.refreshTokens)
  {
    var elapsed := l.elapsed + reply.wait + reply.handling;
    if reply.event == None {
      var timeout := c.initial.SaturatingSub(elapsed);
      return if timeout.IsZero() then Stop(NoEvent) else Again(Loop(timeout, elapsed, 0)), [];
    }
    var event := reply.event.value;
    var forwarded;
    forwarded, calls := PollEvent(event, c.refreshTokens);
    if !forwarded {
      var timeout := c.initial.SaturatingSub(elapsed);
      return if timeout.IsZero() then Stop(EventConsumed) else Again(Loop(timeout, elapsed, 0)), calls;
    }
    round := Again(Loop(l.timeout, elapsed, l.stale + 1));
    match event {
      case Fetch(message) =>
        if message.Some? { round := Stop(Ready(Ok(message.value))); }
      case Error(code, fatal, partition) =>
        if code == PARTITION_EOF {
          round := Stop(Ready(Err(PartitionEof(partition))));
        } else if code != NO_ERROR {
          round := Stop(Ready(Err(if fatal then ConsumptionFatal(code) else Consumption(code))));
        }
      case Rebalance(valid) =>
        if valid { calls := calls + [RebalanceCall]; }
        if l.timeout != Never { round := Stop(EventConsumed); }
      case OffsetCommit(code) =>
        calls := calls + [CommitCall(code)];
        if l.timeout != Never { round := Stop(EventConsumed); }
      case _ =>
    }
  }

  /** The loop, proved to be the reference run. */
  method PollQueue(c: Config, script: seq<Reply>)
    returns (outcome: Outcome, used: nat, ops: seq<Timeout>, calls: seq<Call>, elapsed: nat, stale: nat)
    ensures Run(outcome, used, ops, calls, elapsed, stale) == PollFrom(c, Start(c), script)
    ensures outcome.Returned? && outcome.result.Ready? ==>
      && 0 < used <= |script| && script[used - 1].event.Some?
      && SaysWhat(script[used - 1].event.value, outcome.result.value)
  {
    ItemMeaning(c, script);
    var loop := Start(c);
    used, ops, calls := 0, [], [];
    ghost var whole := PollFrom(c, Start(c), script);
    while used < |script|
      invariant used <= |script|
      invariant whole == Prefixed(used, ops, calls, PollFrom(c, loop, script[used..]))
    {
      var reply := script[used];
      var round, made := HandleReply(c, loop, reply);
      if round.Stop? {
        PrefixedStop(c, loop, script[used..], used, ops, calls);
      } else {
        PrefixedAgain(c, loop, round.loop, script[used..], used, ops, calls);
      }
      assert script[used..][1..] == script[used + 1..];
      ops := ops + [loop.timeout.Min(c.interval)];
      calls := calls + made;
      used := used + 1;
      match round {
        case Stop(result) =>
          return Returned(result), used, ops, calls, loop.elapsed + reply.wait + reply.handling, loop.stale;
        case Again(next) =>
          loop := next;
      }
    }
    outcome, elapsed, stale := StillPolling, loop.elapsed, loop.stale;
  }

  lemma PrefixedStop(c: Config, l: Loop, script: seq<Reply>, used: nat, ops: seq<Timeout>, calls: seq<Call>)
    requires script != [] && OneRound(c, l, script[0]).Stop?
    ensures Prefixed(used, ops, calls, PollFrom(c, l, script)) ==
      Run(Returned(OneRound(c, l, script[0]).result), used + 1, ops + [l.timeout.Min(c.interval)],
          calls + ReplyCalls(script[0], c.refreshTokens), l.elapsed + script[0].wait + script[0].handling, l.stale)
  {
  }

  lemma PrefixedAgain(
    c: Config, l: Loop, next: Loop, script: seq<Reply>, used: nat, ops: seq<Timeout>, calls: seq<Call>)
    requires script != [] && OneRound(c, l, script[0]) == Again(next)
    ensures Prefixed(used, ops, calls, PollFrom(c, l, script)) ==
      Prefixed(used + 1, ops + [l.timeout.Min(c.interval)], calls + ReplyCalls(script[0], c.refreshTokens),
               PollFrom(c, next, script[1..]))
  {
    var op, now := [l.timeout.Min(c.interval)], ReplyCalls(script[0], c.refreshTokens);
    var rest := PollFrom(c, next, script[1..]);
    assert PollFrom(c, l, script) ==
      Run(rest.outcome, rest.used + 1, op + rest.ops, now + rest.calls, rest.elapsed, rest.stale);
    Assoc(ops, op, rest.ops);
    Assoc(calls, now, rest.calls);
  }

  lemma Assoc<T>(a: seq<T>, b: seq<T>, c: seq<T>)
    ensures a + (b + c) == (a + b) + c
  {
  }

  /** A run preceded by rounds already done. */
  ghost function Prefixed(used: nat, ops: seq<Timeout>, calls: seq<Call>, r: Run): Run {
    Run(r.outcome, used + r.used, ops + r.ops, calls + r.calls, r.elapsed, r.stale)
  }

  // ---- What a result means ----

  /** All context calls for the replies, in order. */
  function CallsOf(script: seq<Reply>, refreshTokens: bool): seq<Call> {
    if script == [] then [] else ReplyCalls(script[0], refreshTokens) + CallsOf(script[1..], refreshTokens)
  }

  predicate HasItem(r: Reply) {
    r.event.Some? && ConsumerItem(r.event.value).Some?
  }

  /** The meaning of the last reply a returning run has used. */
  predicate LastReplyExplains(c: Config, last: Reply, result: EventPollResult<Item>, elapsed: nat) {
    match result
    case NoEvent => last.event.None? && c.initial.After? && c.initial.nanos <= elapsed
    case Ready(item) => last.event.Some? && ConsumerItem(last.event.value) == Some(item)
    case EventConsumed =>
      && last.event.Some? && ConsumerItem(last.event.value).None? && c.initial.After?
      && (last.event.value.Rebalance? || last.event.value.OffsetCommit?
          || (!Forwarded(last.event.value) && c.initial.nanos <= elapsed))
  }

  /** Each event taken is dispatched once, in order. */
  lemma {:induction false} DispatchedInOrder(c: Config, l: Loop, script: seq<Reply>)
    ensures var r := PollFrom(c, l, script);
      r.used <= |script| && |r.ops| == r.used && r.calls == CallsOf(script[..r.used], c.refreshTokens)
    decreases |script|
  {
    if script != [] {
      var round := OneRound(c, l, script[0]);
      if round.Stop? {
        assert script[..1][0] == script[0] && script[..1][1..] == [];
      } else {
        DispatchedInOrder(c, round.loop, script[1..]);
        var rest := PollFrom(c, round.loop, script[1..]);
        assert script[..rest.used + 1][1..] == script[1..][..rest.used];
      }
    }
  }

  /** What a run from the loop state has taken off the queue and what it says about it. */
  ghost predicate Meaningful(c: Config, script: seq<Reply>, r: Run) {
    && r.used <= |script|
    && (forall i :: 0 <= i < r.used - 1 ==> !HasItem(script[i]))
    && match r.outcome
       case StillPolling => r.used == |script| && (r.used > 0 ==> !HasItem(script[r.used - 1]))
       case Returned(result) => r.used > 0 && LastReplyExplains(c, script[r.used - 1], result, r.elapsed)
  }

  /** Conservation and meaning, for every script and from every loop state that keeps `Never` as `Never`: only the
      last event taken can carry an item, and an item is never swallowed; "no event" means that the last native
      poll came back empty with the time used up. */
  lemma {:induction false} PollMeaning(c: Config, l: Loop, script: seq<Reply>)
    requires l.timeout.Never? <==> c.initial.Never?
    ensures Meaningful(c, script, PollFrom(c, l, script))
    decreases |script|
  {
    if script != [] {
      var round := OneRound(c, l, script[0]);
      if round.Again? {
        PollMeaning(c, round.loop, script[1..]);
        var rest := PollFrom(c, round.loop, script[1..]);
        assert !HasItem(script[0]);
        forall i | 0 < i < rest.used ensures !HasItem(script[i]) {
          assert script[i] == script[1..][i - 1];
        }
      }
    }
  }

  /** The item is what the event says, kind by kind: a message that was fetched, the end of a partition, or the error
      that native reported, fatal exactly if native calls it so. */
  predicate SaysWhat(e: Event, item: Item) {
    match item
    case Ok(m) => e == Fetch(Some(m))
    case Err(PartitionEof(partition)) => e.Error? && e.code == -191 && e.partition == partition
    case Err(ConsumptionFatal(code)) => e.Error? && e.code == code && code != 0 && code != -191 && e.fatal
    case Err(Consumption(code)) => e.Error? && e.code == code && code != 0 && code != -191 && !e.fatal
  }

  /** An event of these kinds, and no other, has an item, and the item is what it says. */
  lemma ItemsOfKinds(e: Event)
    ensures ConsumerItem(e).Some? <==> (e.Fetch? && e.message.Some?) || (e.Error? && e.code != 0)
    ensures ConsumerItem(e).Some? ==> SaysWhat(e, ConsumerItem(e).value)
    ensures Skipped(e) <==> e == Fetch(None) || (e.Error? && e.code == 0) || e == Unknown
    ensures Forwarded(e) <==> e.Fetch? || e.Error? || e.Rebalance? || e.OffsetCommit? || e.Unknown?
  {
  }

  /** What the user of a consumer is told is what the last event taken says. */
  lemma {:induction false} ItemMeaning(c: Config, script: seq<Reply>)
    ensures var r := PollFrom(c, Start(c), script);
      r.outcome.Returned? && r.outcome.result.Ready? ==>
        && 0 < r.used <= |script| && script[r.used - 1].event.Some?
        && SaysWhat(script[r.used - 1].event.value, r.outcome.result.value)
  {
    PollMeaning(c, Start(c), script);
    var r := PollFrom(c, Start(c), script);
    if r.outcome.Returned? && r.outcome.result.Ready? {
      ItemsOfKinds(script[r.used - 1].event.value);
    }
  }

  /** What the context is told of an event, kind by kind: an error reaches it even where the poll also returns it, and
      it hears nothing of a fetch or an unknown kind. */
  lemma CallsOfKinds(e: Event, refreshTokens: bool)
    ensures e.Error? ==> DispatchCalls(e, refreshTokens) == [ErrorCall(e.code)]
    ensures e.OffsetCommit? ==> DispatchCalls(e, refreshTokens) == [CommitCall(e.code)]
    ensures DispatchCalls(Rebalance(true), refreshTokens) == [RebalanceCall]
    ensures DispatchCalls(Log(true), refreshTokens) == [LogCall]
    ensures DispatchCalls(Stats, refreshTokens) == [StatsCall]
    ensures DispatchCalls(OauthRefresh, true) == [TokenCall]
    ensures e.Fetch? || e.Unknown? || e == Rebalance(false) || e == Log(false) ==> DispatchCalls(e, refreshTokens) == []
    ensures DispatchCalls(OauthRefresh, false) == []
  {
  }

  /** With no timeout only an item ends the call, so `Iter::next` returns from its first inner poll. */
  lemma NeverReturnsOnlyItems(c: Config, script: seq<Reply>)
    requires c.initial == Never
    ensures var r := PollFrom(c, Start(c), script);
      r.outcome.Returned? ==> r.outcome.result.Ready?
  {
    PollMeaning(c, Start(c), script);
  }

  // ---- Zero timeout: the polls made by a message stream ----

  /** What a stream's poll makes of one native reply; nothing means that it polls native again. */
  function StreamResult(event: Option<Event>): Option<EventPollResult<Item>> {
    match event
    case None => Some(NoEvent)
    case Some(e) =>
      if Skipped(e) then None
      else if ConsumerItem(e).Some? then Some(Ready(ConsumerItem(e).value))
      else Some(EventConsumed)
  }

  /** A stream's poll stops at the first reply that is empty or whose event is not skipped. */
  lemma {:induction false} ZeroTimeoutPoll(c: Config, elapsed: nat, stale: nat, script: seq<Reply>)
    requires c.initial == After(0)
    ensures var r := PollFrom(c, Loop(After(0), elapsed, stale), script);
      && r.used <= |script|
      && (forall i :: 0 <= i < r.used - 1 ==> StreamResult(script[i].event) == None)
      && (r.outcome.StillPolling? ==>
            forall i :: 0 <= i < |script| ==> StreamResult(script[i].event) == None)
      && (r.outcome.Returned? ==> r.used > 0)
      && (r.outcome.Returned? ==> StreamResult(script[r.used - 1].event) == Some(r.outcome.result))
    decreases |script|
  {
    if script != [] {
      var round := OneRound(c, Loop(After(0), elapsed, stale), script[0]);
      if round.Again? {
        ZeroTimeoutPoll(c, round.loop.elapsed, round.loop.stale, script[1..]);
        forall i | 0 <= i < |script| && i > 0 ensures script[i] == script[1..][i - 1] {}
      }
    }
  }

  // ---- Time ----

  /** A native poll blocks no longer than the milliseconds it was given; a negative number means for ever. */
  predicate Honoured(op: Timeout, wait: nat) {
    op.AsMillis() >= 0 ==> wait <= op.AsMillis() * NANOS_PER_MILLI
  }

  ghost predicate NativeHonours(ops: seq<Timeout>, script: seq<Reply>)
    requires |ops| <= |script|
  {
    forall i :: 0 <= i < |ops| ==> Honoured(ops[i], script[i].wait)
  }

  function HandlingTime(script: seq<Reply>): nat {
    if script == [] then 0 else script[0].handling + HandlingTime(script[1..])
  }

  /** The budget accounting kept by the loop: time spent is covered by the part of the budget given up at
      the last refresh, one allowance per stale round, and the handlers. */
  predicate Accounted(c: Config, l: Loop, handled: nat)
    requires c.initial.After?
  {
    && l.timeout.After? && l.timeout.nanos <= c.initial.nanos
    && l.elapsed <= c.initial.nanos - l.timeout.nanos + l.stale * c.initial.Min(c.interval).nanos + handled
  }

  lemma OneRoundAccounted(c: Config, l: Loop, r: Reply, handled: nat)
    requires c.initial.After? && c.initial.Min(c.interval).FitsI32()
    requires Accounted(c, l, handled) && Honoured(l.timeout.Min(c.interval), r.wait)
    ensures l.elapsed + r.wait <= c.initial.nanos + l.stale * c.initial.Min(c.interval).nanos + handled
    ensures var round := OneRound(c, l, r);
      round.Again? ==> Accounted(c, round.loop, handled + r.handling)
  {
    var op := l.timeout.Min(c.interval);
    var m := c.initial.Min(c.interval).nanos;
    FitsDownwards(op, c.initial.Min(c.interval));
    AsMillisExactness(op);
    assert r.wait <= op.nanos <= m;
    assert (l.stale + 1) * m == l.stale * m + m;
  }

  /** What native honours in a run it also honours in the run's rest. */
  lemma HonoursRest(c: Config, l: Loop, next: Loop, script: seq<Reply>)
    requires script != [] && OneRound(c, l, script[0]) == Again(next)
    ensures var r, rest := PollFrom(c, l, script), PollFrom(c, next, script[1..]);
      && r.used == rest.used + 1 == |r.ops| == |rest.ops| + 1 <= |script|
      && script[..r.used][1..] == script[1..][..rest.used]
      && (NativeHonours(r.ops, script) <==>
            Honoured(l.timeout.Min(c.interval), script[0].wait) && NativeHonours(rest.ops, script[1..]))
  {
    DispatchedInOrder(c, next, script[1..]);
    var rest := PollFrom(c, next, script[1..]);
    TailOfPrefix(script, rest.used);
    HonoursTail(l.timeout.Min(c.interval), rest.ops, script);
  }

  lemma TailOfPrefix(script: seq<Reply>, n: nat)
    requires n < |script|
    ensures script[..n + 1][1..] == script[1..][..n]
  {
  }

  lemma HonoursTail(op: Timeout, rest: seq<Timeout>, script: seq<Reply>)
    requires |rest| < |script|
    ensures NativeHonours([op] + rest, script) <==>
      Honoured(op, script[0].wait) && NativeHonours(rest, script[1..])
  {
    var ops := [op] + rest;
    if NativeHonours(ops, script) {
      assert Honoured(ops[0], script[0].wait);
      forall i | 0 <= i < |rest| ensures Honoured(rest[i], script[1..][i].wait) {
        assert ops[i + 1] == rest[i];
      }
    }
  }

  /** The time bound: a call with timeout T takes at most T, plus one `min(T, interval)` for every round that
      went round without refreshing the budget since the last refresh, plus the handlers' own time. */
  lemma {:induction false} PollTimeBound(c: Config, l: Loop, script: seq<Reply>, handled: nat)
    requires c.initial.After? && c.initial.Min(c.interval).FitsI32() && Accounted(c, l, handled)
    requires var r := PollFrom(c, l, script); |r.ops| <= |script| && NativeHonours(r.ops, script)
    ensures var r := PollFrom(c, l, script);
      r.used <= |script| &&
      r.elapsed <= c.initial.nanos + r.stale * c.initial.Min(c.interval).nanos
                   + handled + HandlingTime(script[..r.used])
    decreases |script|
  {
    DispatchedInOrder(c, l, script);
    if script != [] {
      assert Honoured(PollFrom(c, l, script).ops[0], script[0].wait);
      OneRoundAccounted(c, l, script[0], handled);
      var round := OneRound(c, l, script[0]);
      if round.Stop? {
        assert script[..1] == [script[0]];
        assert HandlingTime([script[0]]) == script[0].handling + HandlingTime([]);
      } else {
        HonoursRest(c, l, round.loop, script);
        PollTimeBound(c, round.loop, script[1..], handled + script[0].handling);
      }
    }
  }

  /** The bound, for every queue. */
  ghost predicate TimeBounded(c: Config)
    requires c.initial.After?
  {
    forall script | Kept(c, script) ::
      var r := PollFrom(c, Start(c), script);
      r.used <= |script| &&
      r.elapsed <= c.initial.nanos + r.stale * c.initial.Min(c.interval).nanos + HandlingTime(script[..r.used])
  }

  /** Native honours every timeout that the run passes to it. */
  ghost predicate Kept(c: Config, script: seq<Reply>) {
    var r := PollFrom(c, Start(c), script);
    |r.ops| <= |script| && NativeHonours(r.ops, script)
  }

  const TOO_LONG: nat := I32_LIMIT * NANOS_PER_MILLI

  /** A budget of 2^31 ms is passed to native as a negative number, which means for ever. */
  lemma TooLongIsForEver(op: Timeout, wait: nat)
    requires op == After(TOO_LONG)
    ensures Honoured(op, wait)
  {
    assert TOO_LONG / NANOS_PER_MILLI == I32_LIMIT;
    assert I32_LIMIT % I32_RANGE == I32_LIMIT;
  }

  /** Otherwise a handler can use up the budget down to 2^31 ms, and then native may block without limit. */
  lemma UnboundedPoll(c: Config) returns (script: seq<Reply>)
    requires c.initial.After? && c.initial.nanos >= TOO_LONG && After(TOO_LONG).AtMost(c.interval)
    ensures Kept(c, script)
    ensures var r := PollFrom(c, Start(c), script);
      && r.used <= |script| && r.stale == 0
      && r.elapsed > c.initial.nanos + HandlingTime(script[..r.used])
  {
    var t := c.initial.nanos;
    var last := Reply(Some(Fetch(Some(0))), t + 1, 0);
    var first := Reply(Some(Stats), 0, t - TOO_LONG);
    var next := Loop(After(TOO_LONG), t - TOO_LONG, 0);
    TooLongIsForEver(After(TOO_LONG).Min(c.interval), t + 1);
    script := [first, last];
    assert script[1..] == [last] && script[..2] == script;
    assert OneRound(c, Start(c), first) == Again(next);
    assert OneRound(c, next, last).Stop?;
    HonoursRest(c, Start(c), next, script);
    assert PollFrom(c, next, [last]).ops == [After(TOO_LONG).Min(c.interval)];
    assert HandlingTime(script) == t - TOO_LONG + HandlingTime([last]) && HandlingTime([last][1..]) == 0;
  }

  /** The bound holds for every queue exactly when the smaller of timeout and interval fits in 32-bit milliseconds. */
  lemma TimeBoundedIff(c: Config)
    requires c.initial.After?
    ensures TimeBounded(c) <==> c.initial.Min(c.interval).FitsI32()
  {
    if c.initial.Min(c.interval).FitsI32() {
      forall script | Kept(c, script)
        ensures var r := PollFrom(c, Start(c), script);
          r.used <= |script| &&
          r.elapsed <= c.initial.nanos + r.stale * c.initial.Min(c.interval).nanos + HandlingTime(script[..r.used])
      {
        PollTimeBound(c, Start(c), script, 0);
      }
    } else {
      DoesNotFit(c.initial.Min(c.interval));
      var script := UnboundedPoll(c);
    }
  }

  lemma DoesNotFit(t: Timeout)
    requires t.After? && !t.FitsI32()
    ensures t.nanos >= TOO_LONG
  {
  }

  function SkippedIn(script: seq<Reply>): nat {
    if script == [] then 0
    else (if script[0].event.Some? && Skipped(script[0].event.value) then 1 else 0) + SkippedIn(script[1..])
  }

  /** The rounds without a refresh are skipped events: empty fetches, errors that are none, unknown kinds. */
  lemma {:induction false} StaleRoundsAreSkips(c: Config, l: Loop, script: seq<Reply>)
    requires c.initial.After? && l.timeout.After?
    ensures var r := PollFrom(c, l, script);
      r.used <= |script| && r.stale <= l.stale + SkippedIn(script[..r.used])
    decreases |script|
  {
    DispatchedInOrder(c, l, script);
    if script != [] {
      var round := OneRound(c, l, script[0]);
      if round.Again? {
        HonoursRest(c, l, round.loop, script);
        StaleRoundsAreSkips(c, round.loop, script[1..]);
      }
    }
  }

  /** The same bound by what is on the queue: with no skipped event among those taken, the call keeps to its timeout
      but for its handlers. */
  lemma PollTimeBySkips(c: Config, script: seq<Reply>)
    requires c.initial.After? && c.initial.Min(c.interval).FitsI32()
    requires var r := PollFrom(c, Start(c), script); |r.ops| <= |script| && NativeHonours(r.ops, script)
    ensures var r := PollFrom(c, Start(c), script);
      && r.used <= |script|
      && r.elapsed <= c.initial.nanos + SkippedIn(script[..r.used]) * c.initial.Min(c.interval).nanos
                      + HandlingTime(script[..r.used])
  {
    PollTimeBound(c, Start(c), script, 0);
    StaleRoundsAreSkips(c, Start(c), script);
    var r := PollFrom(c, Start(c), script);
    TimesMonotone(r.stale, SkippedIn(script[..r.used]), c.initial.Min(c.interval).nanos);
  }

  lemma TimesMonotone(a: nat, b: nat, m: nat)
    requires a <= b
    ensures a * m <= b * m
  {
  }

  // ---- Exactly when a call keeps to its timeout ----

  /** Native honours every timeout that the run passes to it, and no handler takes time. */
  ghost predicate Punctual(c: Config, l: Loop, script: seq<Reply>) {
    var r := PollFrom(c, l, script);
    |r.ops| <= |script| && NativeHonours(r.ops, script) && HandlingTime(script[..|r.ops|]) == 0
  }

  /** Whatever is on the queue and whenever it arrives, a call never takes longer than its timeout. */
  ghost predicate NeverOverruns(c: Config)
    requires c.initial.After?
  {
    forall script | Punctual(c, Start(c), script) :: PollFrom(c, Start(c), script).elapsed <= c.initial.nanos
  }

  /** With 0 ms passed to native no time passes, so that the same 0 ms are passed again. */
  lemma {:induction false} NoTimePasses(c: Config, l: Loop, script: seq<Reply>)
    requires c.initial.After? && l.timeout == c.initial && l.elapsed == 0
    requires c.initial.Min(c.interval).AsMillis() == 0 && Punctual(c, l, script)
    ensures PollFrom(c, l, script).elapsed == 0
    decreases |script|
  {
    DispatchedInOrder(c, l, script);
    if script != [] {
      var r := PollFrom(c, l, script);
      assert Honoured(r.ops[0], script[0].wait) && script[..|r.ops|][0] == script[0];
      var round := OneRound(c, l, script[0]);
      if round.Again? {
        HonoursRest(c, l, round.loop, script);
        NoTimePasses(c, round.loop, script[1..]);
      }
    }
  }

  /** Otherwise enough skipped events, each at the end of its wait, use up more than the timeout. */
  lemma SkipsOverrun(c: Config) returns (script: seq<Reply>)
    requires c.initial.After? && c.initial.Min(c.interval).AsMillis() != 0
    ensures Punctual(c, Start(c), script) && PollFrom(c, Start(c), script).elapsed > c.initial.nanos
  {
    var wait := LongestWait(c.initial.Min(c.interval));
    script := ManySkips(c, wait);
  }

  lemma ManySkips(c: Config, wait: nat) returns (script: seq<Reply>)
    requires c.initial.After? && wait > 0 && Honoured(c.initial.Min(c.interval), wait)
    ensures Punctual(c, Start(c), script) && PollFrom(c, Start(c), script).elapsed > c.initial.nanos
  {
    var k := c.initial.nanos;
    script := Skips(k, wait);
    SkipsShape(k, wait);
    SkipsTakeAll(c, Start(c), k, wait);
    SkipsPunctual(c, Start(c), script, wait);
  }

  /** Some time that native may block for, given a timeout other than 0 ms. */
  lemma LongestWait(op: Timeout) returns (wait: nat)
    requires op.AsMillis() != 0
    ensures wait > 0 && Honoured(op, wait)
  {
    wait := if op.AsMillis() > 0 then op.AsMillis() * NANOS_PER_MILLI else 1;
  }

  /** A call keeps to its timeout, for every queue, exactly when the smaller of timeout and interval comes to 0 ms
      once it is converted for native. */
  lemma NeverOverrunsIff(c: Config)
    requires c.initial.After?
    ensures NeverOverruns(c) <==> c.initial.Min(c.interval).AsMillis() == 0
  {
    if c.initial.Min(c.interval).AsMillis() == 0 {
      forall script | Punctual(c, Start(c), script)
        ensures PollFrom(c, Start(c), script).elapsed <= c.initial.nanos
      {
        NoTimePasses(c, Start(c), script);
      }
    } else {
      var script := SkipsOverrun(c);
    }
  }

  /** Under the default context every timeout given to native is between 0 and 1000 ms: the truncating
      cast is harmless there, whatever timeout the caller asked for. */
  lemma {:induction false} DefaultOpsInRange(c: Config, l: Loop, script: seq<Reply>)
    requires c.interval == DEFAULT_INTERVAL
    ensures forall op :: op in PollFrom(c, l, script).ops ==> 0 <= op.AsMillis() <= 1000
    decreases |script|
  {
    if script != [] {
      var op := l.timeout.Min(c.interval);
      FitsDownwards(op, c.interval);
      AsMillisExactness(op);
      assert op.nanos / NANOS_PER_MILLI <= 1000;
      var round := OneRound(c, l, script[0]);
      if round.Again? {
        DefaultOpsInRange(c, round.loop, script[1..]);
      }
    }
  }

  /** Skipped events that each arrive at the end of a wait, and then nothing. */
  function Skips(k: nat, wait: nat): seq<Reply> {
    if k == 0 then [Reply(None, wait, 0)] else [Reply(Some(Unknown), wait, 0)] + Skips(k - 1, wait)
  }

  lemma {:induction false} SkipsShape(k: nat, t: nat)
    ensures |Skips(k, t)| == k + 1
    ensures forall r :: r in Skips(k, t) ==> r.wait == t && r.handling == 0
    decreases k
  {
    if k > 0 {
      assert Skips(k, t)[1..] == Skips(k - 1, t);
      SkipsShape(k - 1, t);
    }
  }

  lemma {:induction false} NoHandlingTime(script: seq<Reply>)
    requires forall r :: r in script ==> r.handling == 0
    ensures HandlingTime(script) == 0
  {
    if script != [] { NoHandlingTime(script[1..]); }
  }

  /** Skipped events leave the budget alone, so that the same timeout goes to native every time. */
  lemma {:induction false} SkipsTakeAll(c: Config, l: Loop, k: nat, wait: nat)
    requires c.initial.After? && l.timeout.After?
    ensures var r := PollFrom(c, l, Skips(k, wait));
      && r.used == k + 1 && r.elapsed == l.elapsed + (k + 1) * wait && (wait > 0 ==> r.elapsed > l.elapsed + k)
      && (forall op :: op in r.ops ==> op == l.timeout.Min(c.interval))
      && (c.initial.nanos <= r.elapsed ==> r.outcome == Returned(NoEvent) && r.stale == l.stale + k)
    decreases k
  {
    var script := Skips(k, wait);
    if k > 0 {
      var next := Loop(l.timeout, l.elapsed + wait, l.stale + 1);
      assert script[0] == Reply(Some(Unknown), wait, 0) && script[1..] == Skips(k - 1, wait);
      assert OneRound(c, l, script[0]) == Again(next);
      SkipsTakeAll(c, next, k - 1, wait);
      assert (k + 1) * wait == k * wait + wait;
    } else {
      assert PollFrom(c, l, script).ops == [l.timeout.Min(c.interval)];
    }
  }

  lemma SkipsPunctual(c: Config, l: Loop, script: seq<Reply>, wait: nat)
    requires forall r :: r in script ==> r.wait == wait && r.handling == 0
    requires Honoured(l.timeout.Min(c.interval), wait)
    requires forall op :: op in PollFrom(c, l, script).ops ==> op == l.timeout.Min(c.interval)
    ensures Punctual(c, l, script)
  {
    DispatchedInOrder(c, l, script);
    var r := PollFrom(c, l, script);
    forall i | 0 <= i < |r.ops| ensures Honoured(r.ops[i], script[i].wait) {
      assert r.ops[i] in r.ops && script[i] in script;
    }
    NoHandlingTime(script[..|r.ops|]);
  }

  /** The run takes `extra` longer than its timeout, though native is punctual, and ends with k stale rounds. */
  ghost predicate OverrunsBy(c: Config, l: Loop, script: seq<Reply>, k: nat, extra: nat)
    requires c.initial.After?
  {
    var r := PollFrom(c, l, script);
    Punctual(c, l, script) && r.outcome == Returned(NoEvent) && r.stale == k && r.elapsed == c.initial.nanos + extra
  }

  lemma SkipsOverrunBy(c: Config, l: Loop, k: nat, wait: nat)
    requires c.initial.After? && l.timeout == After(wait) && l.elapsed + wait == c.initial.nanos && l.stale == 0
    requires Honoured(l.timeout.Min(c.interval), wait)
    ensures OverrunsBy(c, l, Skips(k, wait), k, k * wait)
  {
    SkipsShape(k, wait);
    SkipsTakeAll(c, l, k, wait);
    SkipsPunctual(c, l, Skips(k, wait), wait);
    assert (k + 1) * wait == k * wait + wait;
  }

  lemma PrependRefresh(c: Config, l: Loop, next: Loop, script: seq<Reply>, wait: nat, k: nat, extra: nat)
    requires c.initial.After? && OneRound(c, l, Reply(Some(Stats), wait, 0)) == Again(next)
    requires Honoured(l.timeout.Min(c.interval), wait) && OverrunsBy(c, next, script, k, extra)
    ensures OverrunsBy(c, l, [Reply(Some(Stats), wait, 0)] + script, k, extra)
  {
    var longer := [Reply(Some(Stats), wait, 0)] + script;
    assert longer[0] == Reply(Some(Stats), wait, 0) && longer[1..] == script;
    DispatchedInOrder(c, next, script);
    HonoursRest(c, l, next, longer);
  }

  lemma RefreshRound(c: Config, l: Loop, wait: nat)
    requires c.initial.After? && l.timeout.After? && l.timeout.nanos + l.elapsed == c.initial.nanos
    requires wait < l.timeout.nanos
    ensures OneRound(c, l, Reply(Some(Stats), wait, 0)) ==
      Again(Loop(After(l.timeout.nanos - wait), l.elapsed + wait, 0))
  {
  }

  /** Events that refresh the budget until one allowance is left of it, and then k skipped events. */
  lemma {:induction false} UseUp(c: Config, l: Loop, k: nat, extra: nat) returns (script: seq<Reply>)
    requires c.initial.After? && l.timeout.After? && l.timeout.nanos + l.elapsed == c.initial.nanos && l.stale == 0
    requires var m := c.initial.Min(c.interval);
      0 < m.nanos == m.AsMillis() * NANOS_PER_MILLI <= l.timeout.nanos && extra == k * m.nanos
    ensures OverrunsBy(c, l, script, k, extra)
    decreases l.timeout.nanos
  {
    var m := c.initial.Min(c.interval).nanos;
    var left := l.timeout.nanos;
    if left == m {
      SkipsOverrunBy(c, l, k, m);
      script := Skips(k, m);
    } else {
      var wait := if left - m < m then left - m else m;
      var next := Loop(After(left - wait), l.elapsed + wait, 0);
      RefreshRound(c, l, wait);
      var rest := UseUp(c, next, k, extra);
      PrependRefresh(c, l, next, rest, wait, k, extra);
      script := [Reply(Some(Stats), wait, 0)] + rest;
    }
  }

  /** The allowance is exact: for every k, every timeout and every interval of which the smaller is a whole number of
      milliseconds that native can be given, k skipped events make the call take k times that much longer than its
      timeout, although native honours every timeout it is given and no handler takes time. */
  lemma StaleBudgetOverruns(c: Config, k: nat) returns (script: seq<Reply>)
    requires c.initial.After?
    requires var m := c.initial.Min(c.interval); 0 < m.nanos == m.AsMillis() * NANOS_PER_MILLI
    ensures OverrunsBy(c, Start(c), script, k, k * c.initial.Min(c.interval).nanos)
  {
    script := UseUp(c, Start(c), k, k * c.initial.Min(c.interval).nanos);
  }

  // ---- The producer's dispatch ----

  /** What `BaseProducer::poll` does with an event other than a delivery report: the client's dispatch first, then its
      own handler for what was forwarded. An error event, and nothing else, reaches the context twice, both times
      with its code; no other event reaches it more than once or not through the client. */
  method ProducerDispatch(event: Event, refreshTokens: bool) returns (calls: seq<Call>)
    ensures |calls| == 2 <==> event.Error?
    ensures event.Error? ==> calls == [ErrorCall(event.code), ErrorCall(event.code)]
    ensures !event.Error? ==> calls == ClientCalls(event, refreshTokens) && |calls| <= 1
  {
    var forwarded;
    forwarded, calls := PollEvent(event, refreshTokens);
    if forwarded {
      match event {
        case Error(code, _, _) => calls := calls + [ErrorCall(code)];
        case _ =>
      }
    }
  }
}
