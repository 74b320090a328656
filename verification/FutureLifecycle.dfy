/** `FutureProducer` in the course of its life: the delivery protocol and the lifecycle of the threaded producer, put
    together by the sends that are being awaited.

    All clones of a future producer share one threaded producer through an `Arc`. A send borrows its producer for as
    long as it is awaited, so a producer with such a send is not dropped. Every send makes a channel of its own. Once
    the base producer has been dropped, native may be destroyed with whatever it still holds. */
module FutureLifecycle {
  import Life = ThreadedProducer
  import Delivery = ProducerDelivery
  import opened FutureProducer

  type Handle = nat
  type MessageId = Delivery.MessageId

  datatype World = World(
    life: Life.State,
    delivery: Delivery.State,
    handles: set<Handle>,              // the clones of the future producer
    channels: nat,                     // channels made so far; a channel is its number
    awaiting: map<MessageId, Handle>,  // enqueued sends that are awaited, and the producer that each borrows
    destroyed: bool)

  datatype Act =
    | CloneProducer(source: Handle, id: Handle)
    | DropProducer(id: Handle)
    | SendAccepted(id: Handle, record: FutureRecord)
    | SendRefused(id: Handle)
    | Deliver(step: Delivery.Step)  // brokers and polling threads
    | Resolve(message: MessageId)   // a result is there and the await returns it
    | Abandon(message: MessageId)   // the caller drops the future of a send
    | Lifecycle(part: Life.Step)    // the drop of the threaded producer, and its thread
    | DestroyNative

  const FRESH: World := World(
    Life.FRESH, Delivery.Apply(Delivery.EMPTY, Delivery.NewThread), {0}, 0, map[], false)

  function Results(w: World, message: MessageId): seq<Delivery.Outcome>
    requires message < |w.delivery.accepted|
  {
    SentOn(w.delivery.delivered, w.delivery.accepted[message].token)
  }

  predicate Enabled(w: World, act: Act) {
    match act
    case CloneProducer(source, id) => source in w.handles && id !in w.handles
    case DropProducer(id) => id in w.handles && forall m :: m in w.awaiting ==> w.awaiting[m] != id
    case SendAccepted(id, _) => id in w.handles
    case SendRefused(id) => id in w.handles
    case Deliver(step) => !step.Accept? && !w.destroyed && Delivery.Enabled(w.delivery, step)
    case Resolve(m) => m in w.awaiting && m < |w.delivery.accepted| && Results(w, m) != []
    case Abandon(m) => m in w.awaiting
    case Lifecycle(step) =>
      !step.CloneFrom? && (step.TakeHandle? ==> w.handles == {}) && Life.Enabled(w.life, step)
    case DestroyNative => w.life.baseDrops != []
  }

  function Apply(w: World, act: Act): World
    requires Enabled(w, act)
  {
    match act
    case CloneProducer(_, id) => w.(handles := w.handles + {id})
    case DropProducer(id) => w.(handles := w.handles - {id})
    case SendAccepted(id, record) =>
      w.(delivery := Delivery.Apply(w.delivery, Delivery.Accept(IntoBase(record, w.channels))),
         channels := w.channels + 1, awaiting := w.awaiting[|w.delivery.accepted| := id])
    case SendRefused(_) => w.(channels := w.channels + 1)
    case Deliver(step) => w.(delivery := Delivery.Apply(w.delivery, step))
    case Resolve(m) => w.(awaiting := w.awaiting - {m})
    case Abandon(m) => w.(awaiting := w.awaiting - {m})
    case Lifecycle(step) => w.(life := Life.Apply(w.life, step))
    case DestroyNative => w.(destroyed := true)
  }

  predicate ValidRun(w: World, acts: seq<Act>)
    decreases |acts|
  {
    acts == [] || (Enabled(w, acts[0]) && ValidRun(Apply(w, acts[0]), acts[1..]))
  }

  function Exec(w: World, acts: seq<Act>): World
    requires ValidRun(w, acts)
    decreases |acts|
  {
    if acts == [] then w else Exec(Apply(w, acts[0]), acts[1..])
  }

  // ---- The invariant ----

  /** The lifecycle is in order, and the threaded producer is alive while a future producer is. */
  ghost predicate LifeInv(w: World) {
    && Life.Inv(w.life) && 0 in w.life.clones
    && (w.handles != {} ==> w.life.clones[0].Live?)
    && (w.destroyed ==> w.life.baseDrops != [])
  }

  /** Every accepted record has a channel of its own, made before now. */
  ghost predicate ChannelInv(w: World) {
    && DistinctChannels(w.delivery.accepted)
    && forall i :: 0 <= i < |w.delivery.accepted| ==> w.delivery.accepted[i].token < w.channels
  }

  ghost predicate AwaitInv(w: World) {
    forall m :: m in w.awaiting ==> m < |w.delivery.accepted| && w.awaiting[m] in w.handles
  }

  ghost predicate Inv(w: World) {
    LifeInv(w) && ChannelInv(w) && AwaitInv(w) && Delivery.Reachable(w.delivery) && |w.delivery.busy| > 0
  }

  lemma DeliveryStepReachable(s: Delivery.State, step: Delivery.Step)
    requires Delivery.Reachable(s) && Delivery.Enabled(s, step)
    ensures Delivery.Reachable(Delivery.Apply(s, step))
    ensures |s.busy| <= |Delivery.Apply(s, step).busy|
  {
    var one := [step];
    var t := Delivery.Apply(s, step);
    assert one[1..] == [] && Delivery.ValidRun(t, one[1..]) && Delivery.Exec(t, one[1..]) == t;
    Delivery.ReachableFrom(s, one);
  }

  lemma ActKeepsLife(w: World, act: Act)
    requires LifeInv(w) && Enabled(w, act)
    ensures LifeInv(Apply(w, act))
  {
    if act.Lifecycle? {
      Life.StepKeepsInv(w.life, act.part);
      if w.handles != {} { Life.LiveIsCounted(w.life, 0); }
    }
  }

  lemma ActKeepsInv(w: World, act: Act)
    requires Inv(w) && Enabled(w, act)
    ensures Inv(Apply(w, act))
  {
    ActKeepsLife(w, act);
    match act {
      case SendAccepted(_, record) =>
        DeliveryStepReachable(w.delivery, Delivery.Accept(IntoBase(record, w.channels)));
      case Deliver(step) => DeliveryStepReachable(w.delivery, step);
      case _ =>
    }
  }

  lemma {:induction false} RunKeepsInv(w: World, acts: seq<Act>)
    requires Inv(w) && ValidRun(w, acts)
    ensures Inv(Exec(w, acts))
    decreases |acts|
  {
    if acts != [] {
      ActKeepsInv(w, acts[0]);
      RunKeepsInv(Apply(w, acts[0]), acts[1..]);
    }
  }

  lemma FreshInv()
    ensures Inv(FRESH)
  {
    Life.FreshInv();
    var none: seq<Delivery.Step> := [];
    assert Delivery.ValidRun(Delivery.EMPTY, none) && Delivery.Exec(Delivery.EMPTY, none) == Delivery.EMPTY;
    DeliveryStepReachable(Delivery.EMPTY, Delivery.NewThread);
  }

  // ---- What an awaited send can rely on ----

  /** Nothing has been taken down: no stop requested, the polling thread in its loop, the base producer not dropped,
      native not destroyed. */
  predicate InService(w: World) {
    w.life.thread.Running? && !w.life.stop && w.life.baseDrops == [] && !w.destroyed
  }

  /** In every run, of any number of producers cloned and dropped and sends made, abandoned and refused: while a send
      is awaited the producer is in service, and its channel has its sender still owed and nothing sent, or exactly
      one result, the one settled for its own record. So the await never finds the sender gone. */
  lemma AwaitNeverCancelled(acts: seq<Act>, m: MessageId)
    requires ValidRun(FRESH, acts) && m in Exec(FRESH, acts).awaiting
    ensures var w := Exec(FRESH, acts);
      && InService(w) && m < |w.delivery.accepted|
      && if Delivery.Owed(w.delivery, m) == 1 then Results(w, m) == []
         else m in w.delivery.verdicts && Results(w, m) == [w.delivery.verdicts[m]]
  {
    FreshInv();
    RunKeepsInv(FRESH, acts);
    var w := Exec(FRESH, acts);
    assert w.awaiting[m] in w.handles;
    Life.LiveIsCounted(w.life, 0);
    FutureGetsOwnResult(w.delivery, m);
  }

  function Lifted(steps: seq<Delivery.Step>): seq<Act> {
    if steps == [] then [] else [Deliver(steps[0])] + Lifted(steps[1..])
  }

  lemma {:induction false} LiftedRuns(w: World, steps: seq<Delivery.Step>)
    requires Delivery.ValidRun(w.delivery, steps) && Delivery.Accepts(steps) == 0 && !w.destroyed
    ensures ValidRun(w, Lifted(steps))
    ensures Exec(w, Lifted(steps)) == w.(delivery := Delivery.Exec(w.delivery, steps))
    decreases |steps|
  {
    if steps != [] {
      assert Lifted(steps)[1..] == Lifted(steps[1..]);
      LiftedRuns(Apply(w, Deliver(steps[0])), steps[1..]);
    }
  }

  /** And it can always end: from every such state the brokers and the polling thread can bring the await to return,
      with no help from anyone else. */
  lemma AwaitCanResolve(acts: seq<Act>, m: MessageId) returns (more: seq<Act>)
    requires ValidRun(FRESH, acts) && m in Exec(FRESH, acts).awaiting
    ensures ValidRun(Exec(FRESH, acts), more) && forall act :: act in more ==> act.Deliver?
    ensures Enabled(Exec(Exec(FRESH, acts), more), Resolve(m))
  {
    AwaitNeverCancelled(acts, m);
    FreshInv();
    RunKeepsInv(FRESH, acts);
    var w := Exec(FRESH, acts);
    var steps := Delivery.DrainAlwaysPossible(w.delivery);
    more := Lifted(steps);
    LiftedRuns(w, steps);
    LiftedDelivers(steps);
    var after := Exec(w, more);
    Delivery.FlushMeansDrained(after.delivery, m);
    FutureGetsOwnResult(after.delivery, m);
  }

  lemma {:induction false} LiftedDelivers(steps: seq<Delivery.Step>)
    ensures forall act :: act in Lifted(steps) ==> act.Deliver?
  {
    if steps != [] { LiftedDelivers(steps[1..]); }
  }
}
