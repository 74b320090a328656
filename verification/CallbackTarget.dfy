/** Who keeps a `WakerSlab` alive while a native queue may call into it: reference counts and field drop order
    of `StreamConsumer`, `StreamPartitionQueue`, `PartitionQueue` and `BaseConsumer`.

    The state is one stream consumer with any number of partition queues split from it; two consumers share
    none of these objects. A callback that is disabled has stopped running. Dropping a struct is its `Drop`
    followed by its fields in declaration order, one step each. Borrows held by message streams are counted,
    and a borrowed object is not dropped. */
module CallbackTarget {
  import opened Counting

  type QueueId = nat  // a native partition queue; splitting a partition twice yields the same one
  type SplitId = nat  // a StreamPartitionQueue, which also names the slab that it owns

  /** What a stream consumer's drop has left to do, in order. */
  datatype ConsumerPc = Whole | ReleaseBase | ReleaseWakers | ReleaseTrigger | ConsumerGone

  /** The same for a stream partition queue: its own `Drop`, then `queue` (whose `Drop` disables the callback
      again before its reference to the base consumer goes), `wakers`, `_consumer`. */
  datatype SplitPc = Alive | InnerDrop | ReleaseQueue | ReleaseSlab | ReleaseConsumer | SplitGone

  datatype Split = Split(queue: QueueId, pc: SplitPc, streams: nat)

  datatype State = State(
    handles: nat,            // Arc<StreamConsumer> held by the user
    consumerRefs: nat,       // strong count of that Arc
    consumer: ConsumerPc,
    baseRefs: nat,           // strong count of Arc<BaseConsumer>
    mainRefs: nat,           // strong count of the consumer's Arc<WakerSlab>
    mainCallback: bool,      // the consumer queue has its callback, aimed at that slab
    wakeLoop: bool,          // the background task is alive and holds the slab
    tripped: bool,
    mainStreams: nat,        // message streams that borrow the consumer
    splits: map<SplitId, Split>,
    callbacks: map<QueueId, SplitId>) // registered partition callbacks and the slab each is aimed at

  datatype Step =
    | CloneHandle
    | DropHandle
    | Separate(id: SplitId, queue: QueueId)  // split_partition_queue
    | OpenStream
    | CloseStream
    | OpenSplitStream(id: SplitId)
    | CloseSplitStream(id: SplitId)
    | DropSplit(id: SplitId)                 // the next part of a partition queue's drop
    | DropConsumer                           // the next part of the consumer's drop
    | WakeLoopExits

  const FRESH: State := State(1, 1, Whole, 1, 2, true, true, false, 0, map[], map[])

  predicate Enabled(s: State, step: Step) {
    match step
    case CloneHandle => s.handles > 0
    case DropHandle => s.handles > 0 && s.consumerRefs > 0 && (s.handles > 1 || s.mainStreams == 0)
    case Separate(id, _) => s.handles > 0 && id !in s.splits
    case OpenStream => s.handles > 0
    case CloseStream => s.mainStreams > 0
    case OpenSplitStream(id) => id in s.splits && s.splits[id].pc.Alive?
    case CloseSplitStream(id) => id in s.splits && s.splits[id].streams > 0
    case DropSplit(id) =>
      && id in s.splits && !s.splits[id].pc.SplitGone? && s.splits[id].streams == 0
      && (s.splits[id].pc.ReleaseQueue? ==> s.baseRefs > 0)
      && (s.splits[id].pc.ReleaseConsumer? ==> s.consumerRefs > 0)
    case DropConsumer =>
      && !s.consumer.Whole? && !s.consumer.ConsumerGone?
      && (s.consumer.ReleaseBase? ==> s.baseRefs > 0)
      && (s.consumer.ReleaseWakers? ==> s.mainRefs > 0)
    case WakeLoopExits => s.tripped && s.wakeLoop && s.mainRefs > 0
  }

  /** Giving up one reference to the base consumer; the last one runs its `Drop`, which disables the main callback. */
  function DropBaseRef(s: State): State
    requires s.baseRefs > 0
  {
    s.(baseRefs := s.baseRefs - 1, mainCallback := s.mainCallback && s.baseRefs > 1)
  }

  /** Giving up one reference to the stream consumer; the last one starts the drop of its fields. */
  function DropConsumerRef(s: State): State
    requires s.consumerRefs > 0
  {
    s.(consumerRefs := s.consumerRefs - 1, consumer := if s.consumerRefs == 1 then ReleaseBase else s.consumer)
  }

  function SetPc(s: State, id: SplitId, pc: SplitPc): State
    requires id in s.splits
  {
    s.(splits := s.splits[id := s.splits[id].(pc := pc)])
  }

  /** `consumerFirst` drops `_consumer` before `queue`, as it would be were the fields declared in that order. */
  function DropSplitPart(s: State, id: SplitId, consumerFirst: bool): State
    requires Enabled(s, DropSplit(id))
  {
    match s.splits[id].pc
    case Alive =>
      SetPc(s, id, if consumerFirst then ReleaseConsumer else InnerDrop)
        .(callbacks := s.callbacks - {s.splits[id].queue})
    case InnerDrop => SetPc(s, id, ReleaseQueue).(callbacks := s.callbacks - {s.splits[id].queue})
    case ReleaseQueue => DropBaseRef(SetPc(s, id, ReleaseSlab))
    case ReleaseSlab => SetPc(s, id, if consumerFirst then SplitGone else ReleaseConsumer)
    case ReleaseConsumer => DropConsumerRef(SetPc(s, id, if consumerFirst then InnerDrop else SplitGone))
    case SplitGone => s
  }

  function DropConsumerPart(s: State): State
    requires Enabled(s, DropConsumer)
  {
    match s.consumer
    case ReleaseBase => DropBaseRef(s).(consumer := ReleaseWakers)
    case ReleaseWakers => s.(consumer := ReleaseTrigger, mainRefs := s.mainRefs - 1)
    case _ => s.(consumer := ConsumerGone, tripped := true)
  }

  function Apply(s: State, step: Step, consumerFirst: bool): State
    requires Enabled(s, step)
  {
    match step
    case CloneHandle => s.(handles := s.handles + 1, consumerRefs := s.consumerRefs + 1)
    case DropHandle => DropConsumerRef(s.(handles := s.handles - 1))
    case Separate(id, queue) =>
      s.(splits := s.splits[id := Split(queue, Alive, 0)], callbacks := s.callbacks[queue := id],
         consumerRefs := s.consumerRefs + 1, baseRefs := s.baseRefs + 1)
    case OpenStream => s.(mainStreams := s.mainStreams + 1)
    case CloseStream => s.(mainStreams := s.mainStreams - 1)
    case OpenSplitStream(id) => s.(splits := s.splits[id := s.splits[id].(streams := s.splits[id].streams + 1)])
    case CloseSplitStream(id) => s.(splits := s.splits[id := s.splits[id].(streams := s.splits[id].streams - 1)])
    case DropSplit(id) => DropSplitPart(s, id, consumerFirst)
    case DropConsumer => DropConsumerPart(s)
    case WakeLoopExits => s.(wakeLoop := false, mainRefs := s.mainRefs - 1)
  }

  predicate ValidRun(s: State, steps: seq<Step>, consumerFirst: bool)
    decreases |steps|
  {
    steps == [] || (Enabled(s, steps[0]) && ValidRun(Apply(s, steps[0], consumerFirst), steps[1..], consumerFirst))
  }

  function Exec(s: State, steps: seq<Step>, consumerFirst: bool): State
    requires ValidRun(s, steps, consumerFirst)
    decreases |steps|
  {
    if steps == [] then s else Exec(Apply(s, steps[0], consumerFirst), steps[1..], consumerFirst)
  }

  // ---- The invariant ----

  predicate HoldsBase(pc: SplitPc) { pc.Alive? || pc.InnerDrop? || pc.ReleaseQueue? }
  predicate HoldsSlab(pc: SplitPc) { HoldsBase(pc) || pc.ReleaseSlab? }
  predicate HoldsConsumer(pc: SplitPc) { !pc.SplitGone? }

  function BaseHolders(splits: map<SplitId, Split>): set<SplitId> {
    set id | id in splits && HoldsBase(splits[id].pc)
  }

  function ConsumerHolders(splits: map<SplitId, Split>): set<SplitId> {
    set id | id in splits && HoldsConsumer(splits[id].pc)
  }

  /** Each count is the number of owners; the main callback lasts no longer than the base consumer. */
  ghost predicate Counted(s: State) {
    && s.consumerRefs == s.handles + |ConsumerHolders(s.splits)|
    && (s.consumer.Whole? <==> s.consumerRefs > 0)
    && s.baseRefs == |BaseHolders(s.splits)| + Bit(s.consumer.Whole? || s.consumer.ReleaseBase?)
    && s.mainRefs == Bit(s.consumer.Whole? || s.consumer.ReleaseBase? || s.consumer.ReleaseWakers?) + Bit(s.wakeLoop)
    && (s.mainCallback ==> s.baseRefs > 0)
    && (s.mainStreams > 0 ==> s.handles > 0)
    && (s.tripped ==> s.consumer.ConsumerGone?)
  }

  ghost predicate Inv(s: State) {
    Counted(s) && forall q :: q in s.callbacks ==> CallbackOwned(s, q)
  }

  predicate CallbackOwned(s: State, q: QueueId)
    requires q in s.callbacks
  {
    var id := s.callbacks[q];
    id in s.splits && s.splits[id].queue == q && s.splits[id].pc.Alive?
  }

  /** Every registered callback is aimed at a slab that still has a strong owner. */
  predicate TargetsAlive(s: State) {
    && (s.mainCallback ==> s.mainRefs > 0)
    && forall q :: q in s.callbacks ==> s.callbacks[q] in s.splits && HoldsSlab(s.splits[s.callbacks[q]].pc)
  }

  lemma InvMeansTargetsAlive(s: State)
    requires Inv(s)
    ensures TargetsAlive(s)
  {
    assert BaseHolders(s.splits) <= ConsumerHolders(s.splits);
    if s.consumerRefs == 0 {
      assert BaseHolders(s.splits) == {};
    }
    forall q | q in s.callbacks ensures s.callbacks[q] in s.splits && HoldsSlab(s.splits[s.callbacks[q]].pc) {
      assert CallbackOwned(s, q);
    }
  }

  lemma BaseHoldersAfter(splits: map<SplitId, Split>, id: SplitId, split: Split)
    ensures |BaseHolders(splits[id := split])| ==
      |BaseHolders(splits)| - Bit(id in BaseHolders(splits)) + Bit(HoldsBase(split.pc))
  {
    SizeAfter(BaseHolders(splits), BaseHolders(splits[id := split]), id, HoldsBase(split.pc));
  }

  lemma ConsumerHoldersAfter(splits: map<SplitId, Split>, id: SplitId, split: Split)
    ensures |ConsumerHolders(splits[id := split])| ==
      |ConsumerHolders(splits)| - Bit(id in ConsumerHolders(splits)) + Bit(HoldsConsumer(split.pc))
  {
    SizeAfter(ConsumerHolders(splits), ConsumerHolders(splits[id := split]), id, HoldsConsumer(split.pc));
  }

  lemma EarlyPartKeepsCounts(s: State, id: SplitId)
    requires Counted(s) && Enabled(s, DropSplit(id))
    requires s.splits[id].pc.Alive? || s.splits[id].pc.InnerDrop? || s.splits[id].pc.ReleaseSlab?
    ensures Counted(DropSplitPart(s, id, false))
  {
    var t := DropSplitPart(s, id, false);
    BaseHoldersAfter(s.splits, id, t.splits[id]);
    ConsumerHoldersAfter(s.splits, id, t.splits[id]);
  }

  lemma ReleaseKeepsCounts(s: State, id: SplitId)
    requires Counted(s) && Enabled(s, DropSplit(id))
    requires s.splits[id].pc.ReleaseQueue? || s.splits[id].pc.ReleaseConsumer?
    ensures Counted(DropSplitPart(s, id, false))
  {
    var t := DropSplitPart(s, id, false);
    BaseHoldersAfter(s.splits, id, t.splits[id]);
    ConsumerHoldersAfter(s.splits, id, t.splits[id]);
  }

  lemma SeparateKeepsCounts(s: State, id: SplitId, queue: QueueId)
    requires Counted(s) && Enabled(s, Separate(id, queue))
    ensures Counted(Apply(s, Separate(id, queue), false))
  {
    BaseHoldersAfter(s.splits, id, Split(queue, Alive, 0));
    ConsumerHoldersAfter(s.splits, id, Split(queue, Alive, 0));
  }

  lemma StreamsKeepCounts(s: State, id: SplitId, streams: nat)
    requires Counted(s) && id in s.splits
    ensures Counted(s.(splits := s.splits[id := s.splits[id].(streams := streams)]))
  {
    BaseHoldersAfter(s.splits, id, s.splits[id].(streams := streams));
    ConsumerHoldersAfter(s.splits, id, s.splits[id].(streams := streams));
  }

  lemma PlainStepKeepsCounts(s: State, step: Step)
    requires Counted(s) && Enabled(s, step)
    requires !step.DropSplit? && !step.Separate? && !step.OpenSplitStream? && !step.CloseSplitStream?
    ensures Counted(Apply(s, step, false))
  {
    assert Apply(s, step, false).splits == s.splits;
  }

  lemma StepKeepsCounts(s: State, step: Step)
    requires Counted(s) && Enabled(s, step)
    ensures Counted(Apply(s, step, false))
  {
    match step {
      case DropSplit(id) =>
        if s.splits[id].pc.ReleaseQueue? || s.splits[id].pc.ReleaseConsumer? {
          ReleaseKeepsCounts(s, id);
        } else {
          EarlyPartKeepsCounts(s, id);
        }
      case Separate(id, queue) => SeparateKeepsCounts(s, id, queue);
      case OpenSplitStream(id) => StreamsKeepCounts(s, id, s.splits[id].streams + 1);
      case CloseSplitStream(id) => StreamsKeepCounts(s, id, s.splits[id].streams - 1);
      case _ => PlainStepKeepsCounts(s, step);
    }
  }

  lemma StepKeepsOwned(s: State, step: Step, q: QueueId)
    requires Enabled(s, step) && q in Apply(s, step, false).callbacks
    requires q in s.callbacks ==> CallbackOwned(s, q)
    ensures CallbackOwned(Apply(s, step, false), q)
  {
  }

  lemma StepKeepsInv(s: State, step: Step)
    requires Inv(s) && Enabled(s, step)
    ensures Inv(Apply(s, step, false))
  {
    StepKeepsCounts(s, step);
    forall q | q in Apply(s, step, false).callbacks ensures CallbackOwned(Apply(s, step, false), q) {
      StepKeepsOwned(s, step, q);
    }
  }

  lemma {:induction false} RunKeepsInv(s: State, steps: seq<Step>)
    requires Inv(s) && ValidRun(s, steps, false)
    ensures Inv(Exec(s, steps, false))
    decreases |steps|
  {
    if steps != [] {
      StepKeepsInv(s, steps[0]);
      RunKeepsInv(Apply(s, steps[0], false), steps[1..]);
    }
  }

  /** In every state of every order of creating and dropping, a registered callback has a live target. */
  lemma CallbackTargetsAlive(steps: seq<Step>)
    requires ValidRun(FRESH, steps, false)
    ensures TargetsAlive(Exec(FRESH, steps, false))
  {
    assert BaseHolders(map[]) == {} && ConsumerHolders(map[]) == {};
    RunKeepsInv(FRESH, steps);
    InvMeansTargetsAlive(Exec(FRESH, steps, false));
  }

  /** The counts never stand in the way: whoever still has something to release finds its reference counted. */
  lemma ReleasesAreCounted(s: State)
    requires Inv(s)
    ensures s.handles > 0 ==> s.consumerRefs > 0
    ensures forall id :: id in s.splits && HoldsBase(s.splits[id].pc) ==> s.baseRefs > 0
    ensures forall id :: id in s.splits && HoldsConsumer(s.splits[id].pc) ==> s.consumerRefs > 0
    ensures s.consumer.ReleaseBase? ==> s.baseRefs > 0
    ensures s.consumer.ReleaseWakers? ==> s.mainRefs > 0
    ensures s.tripped && s.wakeLoop ==> s.mainRefs > 0
  {
    forall id | id in s.splits && HoldsBase(s.splits[id].pc) ensures s.baseRefs > 0 {
      assert id in BaseHolders(s.splits);
    }
    forall id | id in s.splits && HoldsConsumer(s.splits[id].pc) ensures s.consumerRefs > 0 {
      assert id in ConsumerHolders(s.splits);
    }
  }

  /** The field order matters: with `_consumer` dropped before `queue`, some run frees the main slab while its
      callback is still registered. */
  lemma DanglingIfConsumerFirst() returns (steps: seq<Step>)
    ensures ValidRun(FRESH, steps, true) && !TargetsAlive(Exec(FRESH, steps, true))
  {
    var s1 := Apply(FRESH, Separate(0, 0), true);
    var s2 := Apply(s1, DropHandle, true);
    var s3 := Apply(s2, DropSplit(0), true);
    var s4 := Apply(s3, DropSplit(0), true);
    var s5 := Apply(s4, DropConsumer, true);
    var s6 := Apply(s5, DropConsumer, true);
    var s7 := Apply(s6, DropConsumer, true);
    var s8 := Apply(s7, WakeLoopExits, true);
    assert s8.mainCallback && s8.mainRefs == 0;
    var t7 := Before(s7, WakeLoopExits, [], s8);
    var t6 := Before(s6, DropConsumer, t7, s8);
    var t5 := Before(s5, DropConsumer, t6, s8);
    var t4 := Before(s4, DropConsumer, t5, s8);
    var t3 := Before(s3, DropSplit(0), t4, s8);
    var t2 := Before(s2, DropSplit(0), t3, s8);
    var t1 := Before(s1, DropHandle, t2, s8);
    steps := Before(FRESH, Separate(0, 0), t1, s8);
  }

  // ---- Whose callback a shared queue has ----

  /** The split's queue has its callback, aimed at the split's own slab. */
  predicate Registered(s: State, id: SplitId) {
    id in s.splits && s.splits[id].queue in s.callbacks && s.callbacks[s.splits[id].queue] == id
  }

  /** The step takes the callback of the split's queue away: a further split of the queue aims it elsewhere, and a drop,
      whosever it is, disables it. */
  predicate Disturbs(s: State, step: Step, id: SplitId)
    requires id in s.splits
  {
    match step
    case Separate(_, queue) => queue == s.splits[id].queue
    case DropSplit(other) =>
      && other in s.splits && s.splits[other].queue == s.splits[id].queue
      && (s.splits[other].pc.Alive? || s.splits[other].pc.InnerDrop?)
    case _ => false
  }

  lemma DropDisturbs(s: State, other: SplitId, id: SplitId)
    requires Enabled(s, DropSplit(other)) && id in s.splits
    ensures id in DropSplitPart(s, other, false).splits
    ensures Registered(DropSplitPart(s, other, false), id) <==> Registered(s, id) && !Disturbs(s, DropSplit(other), id)
  {
    var t := DropSplitPart(s, other, false);
    assert t.splits[id].queue == s.splits[id].queue;
    assert t.callbacks == if s.splits[other].pc.Alive? || s.splits[other].pc.InnerDrop?
                          then s.callbacks - {s.splits[other].queue} else s.callbacks;
  }

  lemma StepDisturbs(s: State, step: Step, id: SplitId)
    requires Enabled(s, step) && id in s.splits
    ensures id in Apply(s, step, false).splits
    ensures Registered(Apply(s, step, false), id) <==> Registered(s, id) && !Disturbs(s, step, id)
  {
    if step.DropSplit? {
      DropDisturbs(s, step.id, id);
    } else if !step.Separate? {
      assert Apply(s, step, false).callbacks == s.callbacks;
    }
  }

  predicate Undisturbed(s: State, steps: seq<Step>, id: SplitId)
    requires ValidRun(s, steps, false) && id in s.splits
    decreases |steps|
  {
    steps == [] ||
    (StepDisturbs(s, steps[0], id);
     !Disturbs(s, steps[0], id) && Undisturbed(Apply(s, steps[0], false), steps[1..], id))
  }

  lemma {:induction false} RegisteredStaysIff(s: State, steps: seq<Step>, id: SplitId)
    requires ValidRun(s, steps, false) && id in s.splits
    ensures Registered(Exec(s, steps, false), id) <==> Registered(s, id) && Undisturbed(s, steps, id)
    decreases |steps|
  {
    if steps != [] {
      StepDisturbs(s, steps[0], id);
      RegisteredStaysIff(Apply(s, steps[0], false), steps[1..], id);
    }
  }

  /** A split of a partition queue has its callback exactly until its queue is split again or any split of that queue
      is dropped, whatever else happens. */
  lemma CallbackRegisteredIff(before: seq<Step>, id: SplitId, queue: QueueId, after: seq<Step>)
    requires ValidRun(FRESH, before, false) && Enabled(Exec(FRESH, before, false), Separate(id, queue))
    requires ValidRun(Apply(Exec(FRESH, before, false), Separate(id, queue), false), after, false)
    ensures var made := Apply(Exec(FRESH, before, false), Separate(id, queue), false);
      Registered(Exec(made, after, false), id) <==> Undisturbed(made, after, id)
  {
    RegisteredStaysIff(Apply(Exec(FRESH, before, false), Separate(id, queue), false), after, id);
  }

  /** So a split can be left without a callback while it is in use: the queue is split again, and then the first split
      is dropped, whose drop disables the callback that the second has registered. */
  lemma SecondSplitSilenced(queue: QueueId) returns (steps: seq<Step>)
    ensures ValidRun(FRESH, steps, false)
    ensures var s := Exec(FRESH, steps, false);
      1 in s.splits && s.splits[1] == Split(queue, Alive, 0) && queue !in s.callbacks
  {
    steps := [Separate(0, queue), Separate(1, queue), DropSplit(0)];
    var s1 := Apply(FRESH, steps[0], false);
    var s2 := Apply(s1, steps[1], false);
    var s3 := Apply(s2, steps[2], false);
    assert steps[1..] == [steps[1], steps[2]] && [steps[1], steps[2]][1..] == [steps[2]] && [steps[2]][1..] == [];
    assert ValidRun(s3, [], false) && Exec(s3, [], false) == s3;
    assert ValidRun(s2, [steps[2]], false) && Exec(s2, [steps[2]], false) == s3;
    assert ValidRun(s1, steps[1..], false) && Exec(s1, steps[1..], false) == s3;
  }

  lemma Before(s: State, step: Step, rest: seq<Step>, last: State) returns (steps: seq<Step>)
    requires Enabled(s, step)
    requires ValidRun(Apply(s, step, true), rest, true) && Exec(Apply(s, step, true), rest, true) == last
    ensures ValidRun(s, steps, true) && Exec(s, steps, true) == last
  {
    steps := [step] + rest;
    assert steps[1..] == rest;
  }
}
