/** `BaseProducer`'s methods (src/producer/base_producer.rs) in their own imperative form, running among other
    threads: each is proved to be a run of the delivery protocol. */
module BaseProducer {
  import opened Wrappers
  import opened Timeouts
  import opened ProducerDelivery
  import opened ProducerRuns

  const PURGED_IN_QUEUE: ErrorCode := -152
  const PURGED_IN_FLIGHT: ErrorCode := -151
  const DROP_FLUSH: Timeout := After(500 * NANOS_PER_MILLI)

  datatype SendError = NulInTopic | MessageProduction(code: ErrorCode)
  datatype SendResult = Sent | Rejected(error: SendError, record: Record)
  datatype CommitResult = Committed | CommitFailed(code: ErrorCode) | NotFlushed(flush: FlushResult)

  /** What `send` answers, given native's refusal if there is one. */
  function SendAnswer(record: Record, refusal: Option<ErrorCode>): SendResult {
    if '\0' in record.topic then Rejected(NulInTopic, record)
    else if refusal.Some? then Rejected(MessageProduction(refusal.value), record)
    else Sent
  }

  // ---- Exactly when a commit goes out drained ----

  /** Whatever others do after a flush has succeeded, if n records are accepted meanwhile, nothing is outstanding. */
  ghost predicate CommitsDrained(flushed: State, me: Thread, n: nat) {
    forall steps | ValidRun(flushed, steps) && AllForeign(steps, me) && Accepts(steps) == n ::
      Exec(flushed, steps).outstanding == 0
  }

  /** A commit is sure to go out in a drained state exactly when no record is accepted between the flush and it. */
  lemma CommitDrainedIff(flushed: State, me: Thread, n: nat)
    requires Reachable(flushed) && flushed.outstanding == 0
    ensures CommitsDrained(flushed, me, n) <==> n == 0
  {
    if n == 0 {
      forall steps | ValidRun(flushed, steps) && AllForeign(steps, me) && Accepts(steps) == n
        ensures Exec(flushed, steps).outstanding == 0
      {
        NoneOutstanding(flushed, steps);
      }
    } else {
      var records := seq(n, _ => Record("", None, None, None, None, None, 0));
      AcceptAllOutstanding(flushed, records);
      OthersAcceptAll(flushed, records, me);
      OthersAreForeign(flushed, AcceptAll(records), me);
    }
  }

  lemma NoneOutstanding(s: State, steps: seq<Step>)
    requires Reachable(s) && s.outstanding == 0 && ValidRun(s, steps) && Accepts(steps) == 0
    ensures Exec(s, steps).outstanding == 0
  {
    HistoriesGrow(s, steps);
    ReachableFrom(s, steps);
    OpaqueInOnePlace(Exec(s, steps), 0);
  }

  /** Some slice has others try the step. */
  ghost predicate Scripted(slices: seq<Slice>, step: Step) {
    exists i :: 0 <= i < |slices| && step in slices[i].steps
  }

  /** What a purge settles a message as. */
  function Purged(id: MessageId, inFlight: set<MessageId>): Outcome {
    Failed(if id in inFlight then PURGED_IN_FLIGHT else PURGED_IN_QUEUE)
  }

  /** The message is settled, as purged unless others settled it first. */
  ghost predicate SettledByPurge(s: State, id: MessageId, inFlight: set<MessageId>, slices: seq<Slice>) {
    && id in s.verdicts
    && (|| s.verdicts[id] == Failed(if id in inFlight then -151 else -152)
        || Scripted(slices, Settle(id, s.verdicts[id])))
  }

  class Producer {
    var state: State
    var slices: seq<Slice>
    var now: nat
    var commits: seq<State>  // history: the state in which each native commit was issued
    const me: Thread
    ghost var run: seq<Step>
    ghost const start: State

    /** A producer whose calling thread is `me`, in a reachable state. */
    constructor (state: State, slices: seq<Slice>, now: nat, me: Thread)
      requires Reachable(state) && me < |state.busy| && state.busy[me] == NO_BATCH
      ensures Idle() && this.state == state && this.slices == slices && this.now == now && commits == []
    {
      this.state, this.slices, this.now, this.me, commits := state, slices, now, me, [];
      this.run, this.start := [], state;
    }

    /** All that has happened is a run of the delivery protocol. */
    ghost predicate Valid()
      reads this
    {
      && Reachable(start) && ValidRun(start, run) && state == Exec(start, run)
      && me < |state.busy|
    }

    ghost function V(): View
      reads this
    {
      View(state, slices, now)
    }

    ghost predicate Idle()
      reads this
    {
      Valid() && state.busy[me] == NO_BATCH
    }

    /** One step of the protocol taken by this thread. */
    method Take(step: Step)
      requires Valid() && Enabled(state, step)
      modifies this`state, this`run
      ensures Valid() && state == Apply(old(state), step) && run == old(run) + [step]
    {
      ghost var one := [step];
      assert one[1..] == [];
      ExecAppend(start, run, one);
      run := run + one;
      state := Apply(state, step);
    }

    method Interleave()
      requires Valid()
      modifies this`state, this`run, this`slices, this`now
      ensures Valid() && state.busy[me] == old(state).busy[me] && old(run) <= run
      ensures ValidRun(old(state), run[|old(run)|..]) && state == Exec(old(state), run[|old(run)|..])
      ensures old(state).delivered <= state.delivered && old(state).accepted <= state.accepted
      ensures AllForeign(run[|old(run)|..], me)
      ensures slices == if old(slices) == [] then [] else old(slices)[1..]
      ensures state == FirstLook(old(state), old(slices), me)
      ensures run[|old(run)|..] == if old(slices) == [] then [] else OthersRun(old(state), old(slices)[0].steps, me)
      ensures V() == Next(old(V()), me)
    {
      ghost var others := [];
      if slices != [] {
        OthersLeaveBatch(state, slices[0].steps, me);
        others := OthersRun(state, slices[0].steps, me);
        ExecAppend(start, run, others);
        HistoriesGrow(state, others);
        OthersAreForeign(state, slices[0].steps, me);
        state := Exec(state, OthersRun(state, slices[0].steps, me));
        now := if slices[0].now < now then now else slices[0].now;
        slices := slices[1..];
      }
      assert (run + others)[|run|..] == others;
      assert others == [] ==> run + others == run;
      run := run + others;
    }

    /** `send`: a record that native refuses comes back as it was, opaque and headers included, and native is
        left as it was; a topic with an embedded NUL never reaches native. `refusal` is native's answer. */
    method Send(record: Record, refusal: Option<ErrorCode>) returns (r: SendResult)
      requires Valid()
      modifies this`state, this`run
      ensures Valid()
      ensures r == SendAnswer(record, refusal)
      ensures r.Sent? <==> '\0' !in record.topic && refusal.None?
      ensures r.Rejected? ==> r.record == record && state == old(state) && run == old(run)
      ensures r.Rejected? ==>
        r.error == if '\0' in record.topic then NulInTopic else MessageProduction(refusal.value)
      ensures r.Sent? ==> state == Apply(old(state), Accept(record)) && state.accepted == old(state).accepted + [record]
      ensures r.Sent? ==> |old(state).accepted| in state.held && state.outstanding == old(state).outstanding + 1
    {
      if '\0' in record.topic {
        return Rejected(NulInTopic, record);
      }
      var raw := record.token;
      if refusal.Some? {
        return Rejected(MessageProduction(refusal.value), record.(token := raw));
      }
      Take(Accept(record));
      r := Sent;
    }

    /** One message of the event: its opaque is reclaimed and its callback runs to completion. */
    method RunCallback()
      requires Valid() && state.busy[me].current == [] && state.busy[me].todo != []
      modifies this`state, this`run, this`slices, this`now
      ensures Valid() && old(run) <= run && V() == OneCallback(old(V()), me)
      ensures old(state).busy[me].todo[0] in state.delivered
    {
      Interleave();
      Take(Begin(me));
      Interleave();
      Take(End(me));
      OneCallbackGrows(old(V()), me);
    }

    /** `handle_delivery_report_event`: one callback per message of the event, in order, and only then is the
        event destroyed. */
    method HandleDeliveryReport(ghost batch: seq<Report>)
      requires Valid() && state.busy[me] == Batch(batch, [], [])
      modifies this`state, this`run, this`slices, this`now
      ensures Idle() && old(run) <= run && V() == Callbacks(old(V()), me)
      ensures old(state).delivered <= state.delivered
      ensures forall r :: r in batch ==> r in state.delivered
    {
      while state.busy[me].todo != []
        invariant Valid() && old(run) <= run && state.busy[me].current == []
        invariant Callbacks(V(), me) == Callbacks(old(V()), me)
        decreases |state.busy[me].todo|
      {
        RunCallback();
      }
      Take(Destroy(me));
      CallbacksDeliver(old(V()), me);
    }

    /** Since an earlier moment, a run has led here. */
    lemma RunSince(before: seq<Step>)
      requires Valid() && before <= run && ValidRun(start, before)
      ensures ValidRun(Exec(start, before), run[|before|..])
      ensures state == Exec(Exec(start, before), run[|before|..])
    {
      assert before + run[|before|..] == run;
      RunSplits(start, before, run[|before|..]);
    }

    /** One look at native, after what others do: an event that is there is served. */
    method ServeNext()
      requires Idle()
      modifies this`state, this`run, this`slices, this`now
      ensures Idle() && old(run) <= run && V() == Looked(old(V()), me)
    {
      Interleave();
      if state.queue != [] {
        ghost var batch := state.queue[0];
        Take(Pop(me));
        HandleDeliveryReport(batch);
      }
    }

    /** `poll`: serves report events until the deadline has passed, whether or not there is anything to serve, and
        asks native for no further event once it has passed. Every report of every event it has taken has been
        delivered, and it has taken the event that was there when it first looked. */
    method Poll(timeout: Timeout)
      requires Idle()
      modifies this`state, this`run, this`slices, this`now
      ensures Idle() && old(run) <= run && V() == Polled(old(V()), Deadline.From(timeout, old(now)), me)
      ensures slices != [] ==> timeout.After? && timeout.nanos <= now - old(now)
      ensures old(state).delivered <= state.delivered
      ensures forall r :: r in FirstEvent(old(state), old(slices), me) ==> r in state.delivered
      ensures ValidRun(old(state), run[|old(run)|..]) && state == Exec(old(state), run[|old(run)|..])
      ensures forall r :: r in PoppedBy(old(state), run[|old(run)|..], me) ==> r in state.delivered
    {
      var deadline := Deadline.From(timeout, now);
      PollDelivers(V(), deadline, me);
      PollTakesItsTime(V(), deadline, me);
      while slices != []
        invariant Idle() && old(run) <= run
        invariant Polled(V(), deadline, me) == Polled(old(V()), deadline, me)
        decreases |slices|
      {
        ServeNext();
        if deadline.Elapsed(now) {
          break;
        }
      }
      RunSince(old(run));
      PoppedDelivered(old(state), run[|old(run)|..]);
    }

    lemma PoppedDelivered(before: State, steps: seq<Step>)
      requires Idle() && ValidRun(before, steps) && state == Exec(before, steps)
      ensures forall r :: r in PoppedBy(before, steps, me) ==> r in state.delivered
    {
      forall r | r in PoppedBy(before, steps, me) ensures r in state.delivered {
        PoppedIsUnderway(before, steps, me, r);
      }
    }

    /** Every accepted record has had its delivery callback run to completion, exactly once. */
    ghost predicate Drained()
      reads this
    {
      forall id: MessageId :: id < |state.accepted| ==> Owed(state, id) == 0 && Count(state.delivered, id) == 1
    }

    lemma ZeroIsDrained()
      requires Valid() && state.outstanding == 0
      ensures Drained()
    {
      ReachableFrom(start, run);
      forall id: MessageId | id < |state.accepted| ensures Owed(state, id) == 0 && Count(state.delivered, id) == 1 {
        FlushMeansDrained(state, id);
      }
    }

    /** `flush`: asks native whether its count is zero, polls for at most 100 ms at a time in between, and begins no
        further poll once the deadline has passed. If it finds messages outstanding in time, the event that is there
        when it then polls is delivered by the time it returns. */
    method Flush(timeout: Timeout) returns (r: FlushResult)
      requires Idle()
      modifies this`state, this`run, this`slices, this`now
      ensures Idle() && old(run) <= run && old(now) <= now
      ensures FlushRun(r, V()) == Flushing(old(V()), Deadline.From(timeout, old(now)), me)
      ensures r.Flushed? ==> state.outstanding == 0 && Drained()
      ensures r.TimedOut? ==> state.outstanding != 0 && timeout.After? && timeout.nanos <= now - old(now)
      ensures r.StillFlushing? ==> slices == []
      ensures old(slices) != [] && FirstLook(old(state), old(slices), me).outstanding == 0 ==>
        r.Flushed? && state == FirstLook(old(state), old(slices), me) && slices == old(slices)[1..]
      ensures var asked := Next(old(V()), me);
        && old(slices) != [] && asked.state.outstanding != 0
        && (timeout.Never? || asked.now - old(now) < timeout.nanos)
        ==> forall rep :: rep in FirstEvent(asked.state, asked.slices, me) ==> rep in state.delivered
    {
      var deadline := Deadline.From(timeout, now);
      ServedAtOnce(timeout);
      while slices != []
        invariant Idle() && old(run) <= run && old(now) <= now
        invariant Flushing(V(), deadline, me) == Flushing(old(V()), deadline, me)
        decreases |slices|
      {
        Interleave();
        if state.outstanding == 0 {
          ZeroIsDrained();
          return Flushed;
        }
        if deadline.Elapsed(now) {
          return TimedOut;
        }
        Poll(deadline.Remaining(now).Min(FLUSH_POLL));
      }
      r := StillFlushing;
    }

    /** What a flush from here that finds messages outstanding in time will have delivered. */
    lemma ServedAtOnce(timeout: Timeout)
      requires Idle()
      ensures var asked := Next(V(), me);
        && slices != [] && asked.state.outstanding != 0
        && (timeout.Never? || asked.now - now < timeout.nanos)
        ==> forall rep :: rep in FirstEvent(asked.state, asked.slices, me) ==>
              rep in Flushing(V(), Deadline.From(timeout, now), me).view.state.delivered
    {
      var asked := Next(V(), me);
      if slices != [] && asked.state.outstanding != 0 && (timeout.Never? || asked.now - now < timeout.nanos) {
        FlushServes(V(), Deadline.From(timeout, now), me);
      }
    }

    /** `commit_transaction`: the native commit is issued only after a successful flush, and then in the state that
        others have made of the flushed one since. Every record accepted before the flush came back, so every record
        accepted before the call, has by then had its callback exactly once; what is outstanding when the commit goes
        out was accepted by other threads since. A producer that is drained when the flush first looks flushes at
        once; otherwise no commit is issued only if the flush ran out of time with messages outstanding. */
    method CommitTransaction(timeout: Timeout, answer: ErrorCode)
      returns (r: CommitResult, ghost flushed: State, ghost since: seq<Step>)
      requires Idle()
      modifies this
      ensures Idle()
      ensures var f := Flushing(old(V()), Deadline.From(timeout, old(now)), me);
        if f.result.Flushed? then !r.NotFlushed? && flushed == f.view.state && V() == Next(f.view, me)
        else r == NotFlushed(f.result) && V() == f.view
      ensures r.NotFlushed? ==> commits == old(commits)
      ensures r.NotFlushed? && slices != [] ==>
        state.outstanding != 0 && timeout.After? && timeout.nanos <= now - old(now)
      ensures !r.NotFlushed? ==>
        && commits == old(commits) + [state] && r == (if answer == 0 then Committed else CommitFailed(answer))
        && Reachable(flushed) && flushed.outstanding == 0 && |old(state).accepted| <= |flushed.accepted|
        && ValidRun(flushed, since) && AllForeign(since, me) && state == Exec(flushed, since)
        && state.outstanding <= Accepts(since)
        && forall id: MessageId :: id < |flushed.accepted| ==> Owed(state, id) == 0 && Count(state.delivered, id) == 1
      ensures old(slices) != [] && FirstLook(old(state), old(slices), me).outstanding == 0 ==>
        && !r.NotFlushed? && flushed == FirstLook(old(state), old(slices), me)
        && since == if |old(slices)| == 1 then [] else OthersRun(flushed, old(slices)[1].steps, me)
    {
      var flush := Flush(timeout);
      GrewBetween(old(run));
      flushed, since := state, [];
      if !flush.Flushed? {
        return NotFlushed(flush), flushed, since;
      }
      ReachableFrom(start, run);
      ghost var before := run;
      Interleave();
      since := run[|before|..];
      HistoriesGrow(flushed, since);
      forall id: MessageId | id < |flushed.accepted| ensures Owed(state, id) == 0 && Count(state.delivered, id) == 1 {
        DrainedPrefixStays(flushed, since, id);
      }
      commits := commits + [state];
      r := if answer == 0 then Committed else CommitFailed(answer);
    }

    /** Histories only grow along a longer run. */
    lemma GrewBetween(before: seq<Step>)
      requires Valid() && before <= run && ValidRun(start, before)
      ensures |Exec(start, before).accepted| <= |state.accepted|
    {
      assert before + run[|before|..] == run;
      RunSplits(start, before, run[|before|..]);
      HistoriesGrow(Exec(start, before), run[|before|..]);
    }

    /** Others leave every message either held or settled, by this purge or by themselves. */
    method InterleaveWithPurge(ghost targets: set<MessageId>, ghost inFlight: set<MessageId>, ghost script: seq<Slice>)
      requires Idle() && (forall sl :: sl in slices ==> sl in script)
      requires forall id :: id in targets ==> id in state.held || SettledByPurge(state, id, inFlight, script)
      modifies this`state, this`run, this`slices, this`now
      ensures Idle() && old(run) <= run && V() == Next(old(V()), me) && (forall sl :: sl in slices ==> sl in script)
      ensures forall id :: id in targets ==> id in state.held || SettledByPurge(state, id, inFlight, script)
      ensures forall id :: id in targets && SettledByPurge(old(state), id, inFlight, script) ==>
        SettledByPurge(state, id, inFlight, script)
    {
      ReachableTruth(start, run);
      ghost var before := state;
      ghost var steps := if slices == [] then [] else slices[0].steps;
      assert slices != [] ==> slices[0] in script;
      Interleave();
      forall id | id in targets
        ensures if SettledByPurge(before, id, inFlight, script) then SettledByPurge(state, id, inFlight, script)
                else id in state.held || SettledByPurge(state, id, inFlight, script)
      {
        if !SettledByPurge(before, id, inFlight, script) && old(slices) != [] {
          OthersSettle(before, steps, me, id);
          if id !in state.held {
            var k :| 0 <= k < |script| && script[k] == old(slices)[0];
            assert Settle(id, state.verdicts[id]) in script[k].steps;
          }
        } else if old(slices) != [] {
          VerdictsStay(before, OthersRun(before, steps, me));
        }
      }
    }

    /** `purge` of everything queued and in flight, with others at work in between: each message that native held is
        settled as purged, in one event, unless others settle it first. */
    method Purge(inFlight: set<MessageId>)
      requires Idle()
      modifies this`state, this`run, this`slices, this`now
      ensures Idle() && old(run) <= run && old(now) <= now && state.forming == []
      ensures forall id :: id in old(state).held ==> SettledByPurge(state, id, inFlight, old(slices))
    {
      var targets := state.held;
      var rest := targets;
      while rest != {}
        invariant Idle() && old(run) <= run && old(now) <= now && rest <= targets
        invariant forall sl :: sl in slices ==> sl in old(slices)
        invariant forall id :: id in targets ==> id in state.held || SettledByPurge(state, id, inFlight, old(slices))
        invariant forall id :: id in targets && id !in rest ==> SettledByPurge(state, id, inFlight, old(slices))
        decreases rest
      {
        var id :| id in rest;
        InterleaveWithPurge(targets, inFlight, old(slices));
        if id in state.held {
          HeldIsAccepted(id);
          Take(Settle(id, Purged(id, inFlight)));
        }
        rest := rest - {id};
      }
      Take(Publish);
    }

    lemma HeldIsAccepted(id: MessageId)
      requires Valid() && id in state.held
      ensures id < |state.accepted|
    {
      ReachableFrom(start, run);
      OpaqueInOnePlace(state, id);
    }

    /** `drop`: purge, then flush for at most half a second, whose result is given here although the source only logs
        it. Every message that native still held is settled, as purged unless others settled it first, and none of
        their reports is held back; if the flush succeeds, each has been called back exactly once. */
    method Drop(inFlight: set<MessageId>) returns (r: FlushResult, ghost purged: View)
      requires Idle()
      modifies this`state, this`run, this`slices, this`now
      ensures Idle() && old(now) <= purged.now && IdleIn(purged, me) && purged.state.forming == []
      ensures forall id :: id in old(state).held ==>
        SettledByPurge(purged.state, id, inFlight, old(slices)) && SettledByPurge(state, id, inFlight, old(slices))
      ensures FlushRun(r, V()) == Flushing(purged, Deadline.From(DROP_FLUSH, purged.now), me)
      ensures r.TimedOut? ==> state.outstanding != 0 && now - old(now) >= 500_000_000
      ensures r.StillFlushing? ==> slices == []
      ensures r.Flushed? ==> Drained() && forall id :: id in old(state).held ==> Count(state.delivered, id) == 1
    {
      forall id | id in state.held ensures id < |state.accepted| { HeldIsAccepted(id); }
      Purge(inFlight);
      purged := V();
      ghost var before := run;
      GrewBetween(old(run));
      r := Flush(DROP_FLUSH);
      GrewBetween(before);
      VerdictsStayTo(before);
    }

    lemma VerdictsStayTo(before: seq<Step>)
      requires Valid() && before <= run && ValidRun(start, before)
      ensures var s := Exec(start, before);
        forall id :: id in s.verdicts ==> id in state.verdicts && state.verdicts[id] == s.verdicts[id]
    {
      assert before + run[|before|..] == run;
      RunSplits(start, before, run[|before|..]);
      ReachableTruth(start, before);
      VerdictsStay(Exec(start, before), run[|before|..]);
    }
  }

  /** A commit that does not go out drained: whatever records another thread sends between the flush and the native
      commit are outstanding when the commit is issued. */
  method CommitWithLateSends(records: seq<Record>) returns (p: Producer)
    ensures |p.commits| == 1 && p.commits[0].outstanding == |records|
  {
    var idle := Apply(EMPTY, NewThread);
    assert [NewThread][1..] == [] && ValidRun(EMPTY, [NewThread]) && Exec(EMPTY, [NewThread]) == idle;
    p := new Producer(idle, [Slice([], 0), Slice(AcceptAll(records), 0)], 0, 0);
    var _, flushed, since := p.CommitTransaction(After(0), 0);
    OthersAcceptAll(flushed, records, 0);
    AcceptAllOutstanding(flushed, records);
  }
}
