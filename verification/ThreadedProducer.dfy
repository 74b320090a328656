/** The lifecycle of `ThreadedProducer` (src/producer/base_producer.rs): clones, the shared join handle, the stop
    flag, and the polling thread that holds a reference to the base producer of its own.

    Every clone may be dropped by a thread of its own, so the parts of several drops interleave. */
module ThreadedProducer {
  import opened Counting

  type CloneId = nat

  /** A clone and what its drop has left to do. `Taken` clones had another clone hold the handle after them;
      the clone whose `Arc::into_inner` yields the handle stops and joins the thread. */
  datatype Clone = Live | Taken | Stopping | Joining | Releasing | Gone

  /** The polling thread: in its loop, out of it but with its reference, finished. */
  datatype Thread = Running | Exiting | Finished

  datatype State = State(
    clones: map<CloneId, Clone>,
    handleRefs: nat,             // strong count of Arc<JoinHandle>
    baseRefs: nat,               // strong count of Arc<BaseProducer>
    stop: bool,
    thread: Thread,
    joined: seq<CloneId>,        // history: clones whose join returned
    stoppedBy: seq<CloneId>,     // history: clones that stored the stop flag
    baseDrops: seq<Thread>)      // history: the thread's state whenever BaseProducer::drop ran

  datatype Step =
    | CloneFrom(source: CloneId, id: CloneId)
    | TakeHandle(id: CloneId)    // handle.take().and_then(Arc::into_inner)
    | StoreStop(id: CloneId)
    | Join(id: CloneId)
    | ReleaseBase(id: CloneId)   // the `producer` field of a clone
    | ThreadSeesStop             // a round of the loop that finds the flag set
    | ThreadEnds                 // the closure's own reference goes, the thread finishes

  const FRESH: State := State(map[0 := Live], 1, 2, false, Running, [], [], [])

  predicate Enabled(s: State, step: Step) {
    match step
    case CloneFrom(source, id) => source in s.clones && s.clones[source].Live? && id !in s.clones
    case TakeHandle(id) => id in s.clones && s.clones[id].Live? && s.handleRefs > 0
    case StoreStop(id) => id in s.clones && s.clones[id].Stopping?
    case Join(id) => id in s.clones && s.clones[id].Joining? && s.thread.Finished?
    case ReleaseBase(id) => id in s.clones && (s.clones[id].Taken? || s.clones[id].Releasing?) && s.baseRefs > 0
    case ThreadSeesStop => s.thread.Running? && s.stop
    case ThreadEnds => s.thread.Exiting? && s.baseRefs > 0
  }

  function Set(s: State, id: CloneId, c: Clone): State {
    s.(clones := s.clones[id := c])
  }

  /** Giving up one reference to the base producer; the last one runs its purge-and-flush drop. */
  function DropBaseRef(s: State): State
    requires s.baseRefs > 0
  {
    s.(baseRefs := s.baseRefs - 1, baseDrops := s.baseDrops + if s.baseRefs == 1 then [s.thread] else [])
  }

  function Apply(s: State, step: Step): State
    requires Enabled(s, step)
  {
    match step
    case CloneFrom(_, id) => Set(s, id, Live).(handleRefs := s.handleRefs + 1, baseRefs := s.baseRefs + 1)
    case TakeHandle(id) =>
      Set(s, id, if s.handleRefs == 1 then Stopping else Taken).(handleRefs := s.handleRefs - 1)
    case StoreStop(id) => Set(s, id, Joining).(stop := true, stoppedBy := s.stoppedBy + [id])
    case Join(id) => Set(s, id, Releasing).(joined := s.joined + [id])
    case ReleaseBase(id) => DropBaseRef(Set(s, id, Gone))
    case ThreadSeesStop => s.(thread := Exiting)
    case ThreadEnds => DropBaseRef(s).(thread := Finished)
  }

  predicate ValidRun(s: State, steps: seq<Step>)
    decreases |steps|
  {
    steps == [] || (Enabled(s, steps[0]) && ValidRun(Apply(s, steps[0]), steps[1..]))
  }

  function Exec(s: State, steps: seq<Step>): State
    requires ValidRun(s, steps)
    decreases |steps|
  {
    if steps == [] then s else Exec(Apply(s, steps[0]), steps[1..])
  }

  // ---- The invariant ----

  function Owners(clones: map<CloneId, Clone>): set<CloneId> {
    set id | id in clones && !clones[id].Gone?
  }

  function Holders(clones: map<CloneId, Clone>): set<CloneId> {
    set id | id in clones && clones[id].Live?
  }

  /** The clone that got the handle is on its way through stop, join and release. */
  predicate Ending(c: Clone) {
    c.Stopping? || c.Joining? || c.Releasing?
  }

  ghost predicate Counted(s: State) {
    && s.handleRefs == |Holders(s.clones)|
    && s.baseRefs == |Owners(s.clones)| + Bit(!s.thread.Finished?)
    && s.baseDrops == (if s.baseRefs == 0 then [Finished] else [])
  }

  /** The part of the history that names the joiner: nobody while some clone holds the handle, one clone after. */
  ghost predicate OneJoiner(s: State) {
    && (s.handleRefs > 0 ==> !s.stop && s.stoppedBy == [] && s.joined == [] && s.thread.Running?)
    && (s.handleRefs > 0 ==> forall id :: id in s.clones ==> !Ending(s.clones[id]))
    && (s.handleRefs == 0 ==> exists id :: JoinerIs(s, id))
  }

  ghost predicate JoinerIs(s: State, j: CloneId) {
    && j in s.clones && (Ending(s.clones[j]) || s.clones[j].Gone?)
    && (forall id :: id in s.clones && Ending(s.clones[id]) ==> id == j)
    && (s.clones[j].Stopping? ==> !s.stop && s.stoppedBy == [] && s.joined == [] && s.thread.Running?)
    && (!s.clones[j].Stopping? ==> s.stop && s.stoppedBy == [j])
    && (s.clones[j].Joining? ==> s.joined == [])
    && (s.clones[j].Releasing? || s.clones[j].Gone? ==> s.joined == [j] && s.thread.Finished?)
  }

  ghost predicate Inv(s: State) {
    Counted(s) && OneJoiner(s)
  }

  lemma OwnersAfter(clones: map<CloneId, Clone>, id: CloneId, c: Clone)
    ensures |Owners(clones[id := c])| ==
      |Owners(clones)| - Bit(id in Owners(clones)) + Bit(!c.Gone?)
  {
    SizeAfter(Owners(clones), Owners(clones[id := c]), id, !c.Gone?);
  }

  lemma HoldersAfter(clones: map<CloneId, Clone>, id: CloneId, c: Clone)
    ensures |Holders(clones[id := c])| ==
      |Holders(clones)| - Bit(id in Holders(clones)) + Bit(c.Live?)
  {
    SizeAfter(Holders(clones), Holders(clones[id := c]), id, c.Live?);
  }

  lemma LiveIsCounted(s: State, id: CloneId)
    requires Counted(s) && id in s.clones
    ensures s.clones[id].Live? ==> s.handleRefs > 0
    ensures !s.clones[id].Gone? ==> s.baseRefs > 0
  {
    assert s.clones[id].Live? ==> id in Holders(s.clones);
    assert !s.clones[id].Gone? ==> id in Owners(s.clones);
  }

  /** While the thread lives, some clone does too: the one that has to join it. */
  lemma ThreadIsOutlived(s: State)
    requires Inv(s) && !s.thread.Finished?
    ensures s.baseRefs > 1
  {
    if s.handleRefs == 0 {
      var j :| JoinerIs(s, j);
      assert j in Owners(s.clones);
    } else {
      var h :| h in Holders(s.clones);
      assert h in Owners(s.clones);
    }
  }

  lemma StepKeepsCounts(s: State, step: Step)
    requires Inv(s) && Enabled(s, step)
    ensures Counted(Apply(s, step))
  {
    var t := Apply(s, step);
    match step {
      case ThreadSeesStop =>
      case ThreadEnds =>
      case CloneFrom(source, id) =>
        LiveIsCounted(s, source);
        OwnersAfter(s.clones, id, Live);
        HoldersAfter(s.clones, id, Live);
      case _ =>
        LiveIsCounted(s, step.id);
        OwnersAfter(s.clones, step.id, t.clones[step.id]);
        HoldersAfter(s.clones, step.id, t.clones[step.id]);
    }
    if !s.thread.Finished? { ThreadIsOutlived(s); }
  }

  lemma StepKeepsJoiner(s: State, step: Step)
    requires Inv(s) && Enabled(s, step)
    ensures OneJoiner(Apply(s, step))
  {
    var t := Apply(s, step);
    if step.CloneFrom? { LiveIsCounted(s, step.source); }
    if s.handleRefs == 0 {
      var j :| JoinerIs(s, j);
      assert JoinerIs(t, j);
    } else if step.TakeHandle? && s.handleRefs == 1 {
      assert JoinerIs(t, step.id);
    }
  }

  lemma StepKeepsInv(s: State, step: Step)
    requires Inv(s) && Enabled(s, step)
    ensures Inv(Apply(s, step))
  {
    StepKeepsCounts(s, step);
    StepKeepsJoiner(s, step);
  }

  lemma {:induction false} RunKeepsInv(s: State, steps: seq<Step>)
    requires Inv(s) && ValidRun(s, steps)
    ensures Inv(Exec(s, steps))
    decreases |steps|
  {
    if steps != [] {
      StepKeepsInv(s, steps[0]);
      RunKeepsInv(Apply(s, steps[0]), steps[1..]);
    }
  }

  lemma FreshInv()
    ensures Inv(FRESH)
  {
    assert Owners(FRESH.clones) == {0} && Holders(FRESH.clones) == {0};
  }

  /** In every interleaving of clones, drops and the polling thread: at most one dropper stops and joins, the
      stop flag is set only once no clone holds the handle, and the base producer's own drop runs at most once
      and only after the thread has finished and every clone is gone. */
  lemma LifecycleSafe(steps: seq<Step>)
    requires ValidRun(FRESH, steps)
    ensures var s := Exec(FRESH, steps);
      && |s.joined| <= 1 && |s.stoppedBy| <= 1 && s.joined <= s.stoppedBy
      && (s.stop ==> forall id :: id in s.clones ==> !s.clones[id].Live?)
      && (s.baseDrops == [] || s.baseDrops == [Finished])
      && (s.baseDrops != [] ==> s.thread.Finished? && forall id :: id in s.clones ==> s.clones[id].Gone?)
  {
    FreshInv();
    RunKeepsInv(FRESH, steps);
    var s := Exec(FRESH, steps);
    forall id | id in s.clones
      ensures s.clones[id].Live? ==> s.handleRefs > 0
      ensures !s.clones[id].Gone? ==> s.baseRefs > 0
    {
      LiveIsCounted(s, id);
    }
    if s.handleRefs == 0 {
      var j :| JoinerIs(s, j);
    }
  }

  /** Nothing is forgotten: once every clone has been dropped to the end, exactly one of them joined the thread
      and the base producer has been dropped. */
  lemma LifecycleComplete(steps: seq<Step>)
    requires ValidRun(FRESH, steps)
    requires forall id :: id in Exec(FRESH, steps).clones ==> Exec(FRESH, steps).clones[id].Gone?
    ensures var s := Exec(FRESH, steps);
      |s.joined| == 1 && s.joined == s.stoppedBy && s.baseDrops == [Finished]
  {
    FreshInv();
    RunKeepsInv(FRESH, steps);
    var s := Exec(FRESH, steps);
    assert Owners(s.clones) == {} && Holders(s.clones) == {};
    var j :| JoinerIs(s, j);
  }

  // ---- No drop gets stuck ----

  /** The next step of a drop: the clone's own, or the thread's while the clone waits for it. */
  function NextOf(s: State, id: CloneId): Step
    requires id in s.clones
  {
    match s.clones[id]
    case Stopping => StoreStop(id)
    case Joining => if s.thread.Running? then ThreadSeesStop else if s.thread.Exiting? then ThreadEnds else Join(id)
    case _ => ReleaseBase(id)
  }

  /** How many steps a drop is away from its end. */
  function Distance(s: State, id: CloneId): nat
    requires id in s.clones
  {
    match s.clones[id]
    case Live => 6
    case Stopping => 5
    case Joining => if s.thread.Running? then 4 else if s.thread.Exiting? then 3 else 2
    case Taken => 1
    case Releasing => 1
    case Gone => 0
  }

  lemma NextIsEnabled(s: State, id: CloneId)
    requires Inv(s) && id in s.clones && !s.clones[id].Live? && !s.clones[id].Gone?
    ensures Enabled(s, NextOf(s, id)) && !NextOf(s, id).CloneFrom? && !NextOf(s, id).TakeHandle?
    ensures var t := Apply(s, NextOf(s, id));
      id in t.clones && !t.clones[id].Live? && Distance(t, id) < Distance(s, id)
  {
    LiveIsCounted(s, id);
    if s.clones[id].Joining? || s.clones[id].Stopping? {
      var j :| JoinerIs(s, j);
    }
    if !s.thread.Finished? { ThreadIsOutlived(s); }
  }

  lemma {:induction false} DropEnds(s: State, id: CloneId) returns (rest: seq<Step>)
    requires Inv(s) && id in s.clones && !s.clones[id].Live?
    ensures |rest| <= Distance(s, id) && ValidRun(s, rest)
    ensures forall step :: step in rest ==> !step.CloneFrom? && !step.TakeHandle?
    ensures id in Exec(s, rest).clones && Exec(s, rest).clones[id].Gone?
    decreases Distance(s, id)
  {
    if s.clones[id].Gone? {
      rest := [];
    } else {
      NextIsEnabled(s, id);
      StepKeepsInv(s, NextOf(s, id));
      var later := DropEnds(Apply(s, NextOf(s, id)), id);
      rest := [NextOf(s, id)] + later;
      assert rest[1..] == later;
    }
  }

  /** From every reachable state a clone that is being dropped is at most five steps from its end, steps of its own and
      of the thread; no other clone has to be made or dropped for it. */
  lemma DropProgresses(steps: seq<Step>, id: CloneId) returns (rest: seq<Step>)
    requires ValidRun(FRESH, steps)
    requires var s := Exec(FRESH, steps); id in s.clones && !s.clones[id].Live?
    ensures var s := Exec(FRESH, steps);
      |rest| <= 5 && ValidRun(s, rest) && id in Exec(s, rest).clones && Exec(s, rest).clones[id].Gone?
    ensures forall step :: step in rest ==> !step.CloneFrom? && !step.TakeHandle?
  {
    FreshInv();
    RunKeepsInv(FRESH, steps);
    rest := DropEnds(Exec(FRESH, steps), id);
  }
}
