/**
 What becomes of a cached message while nothing fails any more: it is published, unless drainer or
 monitor has left before; and neither leaves a client that nobody has closed.
 */
module RabbitDelivery {
  import opened Wrappers
  import opened RabbitProtocol
  import opened RabbitTheorems

  // ------------------------------------------------------------------ nobody leaves an open client

  predicate LeftOnlyIfClosed(s: State) {
    (s.drainer.DrainerDone? ==> s.closed) && (s.monitor.MonitorDone? ==> s.closed)
  }

  lemma {:induction false} RunLeavesOpen(s: State, steps: seq<Step>)
    requires Schedule(s, steps) && LeftOnlyIfClosed(s)
    ensures LeftOnlyIfClosed(Run(s, steps))
    decreases |steps|
  {
    if steps != [] {
      RunLeavesOpen(Apply(s, steps[0]), steps[1..]);
    }
  }

  /** In every reachable state drainer and monitor have left only a closed client. */
  lemma NobodyLeavesAnOpenClient(s: State)
    requires Reachable(s)
    ensures s.drainer.DrainerDone? || s.monitor.MonitorDone? ==> s.closed
  {
    var capacity: nat, producers: nat, steps: seq<Step> :|
      Schedule(Initial(capacity, producers), steps) && s == Run(Initial(capacity, producers), steps);
    RunLeavesOpen(Initial(capacity, producers), steps);
  }

  // ------------------------------------------------------------------ publishing from the queue

  /** Some schedule publishes m from the queue without closing the client and without a message
      that cannot be encoded or sent. */
  ghost predicate CanPublish(s: State, m: Msg) {
    exists steps: seq<Step> :: Publishes(s, steps, m)
  }

  ghost predicate Publishes(s: State, steps: seq<Step>, m: Msg) {
    Schedule(s, steps) && Close !in steps && FaultFree(steps) && Event(m, Drained) in Run(s, steps).log
  }

  lemma CanPublishBefore(s: State, step: Step, m: Msg)
    requires Enabled(s, step) && CanPublish(Apply(s, step), m)
    requires step != Close && step != ByDrainer(Send(false)) && step != ByDrainer(Encode(false))
    ensures CanPublish(s, m)
  {
    var rest: seq<Step> :| Publishes(Apply(s, step), rest, m);
    var steps := [step] + rest;
    assert steps[0] == step && steps[1..] == rest;
    assert Schedule(s, steps) && Run(s, steps) == Run(Apply(s, step), rest);
    assert Publishes(s, steps, m);
  }

  function Position(queue: seq<Msg>, m: Msg): (i: nat)
    requires m in queue
    ensures i < |queue| && queue[i] == m
  {
    if queue[0] == m then 0 else 1 + Position(queue[1..], m)
  }

  predicate InHand(d: Drainer, m: Msg) {
    (d.Encoding? || d.AwaitingChannel? || d.Sending?) && d.msg == m
  }

  /** Steps the drainer needs before it is back at the queue. */
  function BackAtQueue(d: Drainer): nat {
    match d
    case Receiving => 0
    case Sleeping => 1
    case CheckingLength => 1
    case CountingProcessed => 2
    case PuttingBack(_) => 2
    case Sending(_, _) => 3
    case AwaitingChannel(_) => 4
    case Encoding(_) => 5
    case _ => 0
  }

  function ToGo(s: State, m: Msg): nat
    requires InHand(s.drainer, m) || m in s.queue
  {
    if InHand(s.drainer, m) then BackAtQueue(s.drainer)
    else 6 + 6 * Position(s.queue, m) + BackAtQueue(s.drainer)
  }

  /** The drainer's next step when everything works. */
  function WorkingMove(d: Drainer): DrainerOp
    requires !d.NotStarted? && !d.DrainerDone?
  {
    match d
    case Sleeping => Wake
    case Receiving => Receive
    case Encoding(_) => Encode(true)
    case AwaitingChannel(_) => GetChannel
    case Sending(_, _) => Send(true)
    case PuttingBack(_) => PutBack
    case CountingProcessed => CountProcessed
    case CheckingLength => CheckLength
  }

  predicate Working(s: State) {
    s.channel.Some? && !s.drainer.NotStarted? && !s.drainer.DrainerDone?
  }

  lemma PutBackKeepsPosition(queue: seq<Msg>, m: Msg, x: Msg)
    requires m in queue
    ensures Position(queue + [x], m) == Position(queue, m)
  {
    if queue[0] != m {
      assert (queue + [x])[1..] == queue[1..] + [x];
      PutBackKeepsPosition(queue[1..], m, x);
    }
  }

  /** Unless it publishes m, the drainer's next step brings it nearer to that. */
  lemma Nearer(s: State, m: Msg)
    requires Working(s) && (InHand(s.drainer, m) || m in s.queue)
    requires !(s.drainer.Sending? && s.drainer.msg == m)
    ensures DrainerEnabled(s, WorkingMove(s.drainer))
    ensures var t := DrainerApply(s, WorkingMove(s.drainer));
      Working(t) && (InHand(t.drainer, m) || m in t.queue) && ToGo(t, m) < ToGo(s, m)
  {
    var t := DrainerApply(s, WorkingMove(s.drainer));
    if s.drainer.Receiving? {
      assert s.queue[0] == m || m in s.queue[1..];
    } else if s.drainer.PuttingBack? {
      PutBackKeepsPosition(s.queue, m, s.drainer.msg);
    } else {
      assert t.queue == s.queue;
    }
  }

  lemma {:induction false} DrainerPublishes(s: State, m: Msg)
    requires Working(s) && (InHand(s.drainer, m) || m in s.queue)
    ensures CanPublish(s, m)
    decreases ToGo(s, m)
  {
    var step := ByDrainer(WorkingMove(s.drainer));
    if s.drainer.Sending? && s.drainer.msg == m {
      var t := Apply(s, step);
      assert t.log[|s.log|] == Event(m, Drained);
      assert Publishes(t, [], m);
    } else {
      Nearer(s, m);
      DrainerPublishes(Apply(s, step), m);
    }
    CanPublishBefore(s, step, m);
  }

  // ------------------------------------------------------------------ bringing the channel up

  /** The monitor's next step towards an open channel. */
  function ConnectingMove(monitor: Monitor): MonitorOp
    requires !monitor.Waiting? && !monitor.MonitorDone?
  {
    match monitor
    case Checking => Check
    case Dialing => Dial(true)
    case Opening => Open(true)
    case Spawning => Spawn
    case Clearing => Clear
    case BackingOff => Retry
  }

  lemma {:induction false} MonitorConnects(s: State, m: Msg)
    requires Connected(s) && |s.queue| <= s.capacity && !s.monitor.MonitorDone?
    requires !s.drainer.DrainerDone? && m in s.queue
    ensures CanPublish(s, m)
    decreases MonitorDistance(s.monitor)
  {
    if s.monitor.Waiting? {
      DrainerPublishes(s, m);
    } else {
      var step := ByMonitor(ConnectingMove(s.monitor));
      StepConnected(s, step);
      MonitorConnects(Apply(s, step), m);
      CanPublishBefore(s, step, m);
    }
  }

  // ------------------------------------------------------------------ exactly when

  /** Nobody is left to open a channel, and m is not the message being sent. */
  predicate Cut(s: State, m: Msg) {
    && s.monitor.MonitorDone? && s.channel.None?
    && !(s.drainer.Sending? && s.drainer.msg == m)
    && Event(m, Drained) !in s.log
  }

  lemma StepCut(s: State, step: Step, m: Msg)
    requires Cut(s, m) && Enabled(s, step)
    ensures Cut(Apply(s, step), m)
  {
    match step
    case ByProducer(p, op) => assert Event(m, Drained) !in ProducerEvents(s, s.producers[p], op);
    case ByDrainer(op) => assert Event(m, Drained) !in DrainerEvents(s, op);
    case _ =>
  }

  lemma {:induction false} StaysCut(s: State, steps: seq<Step>, m: Msg)
    requires Cut(s, m) && Schedule(s, steps)
    ensures Cut(Run(s, steps), m)
    decreases |steps|
  {
    if steps != [] {
      StepCut(s, steps[0], m);
      StaysCut(Apply(s, steps[0]), steps[1..], m);
    }
  }

  lemma StepLeft(s: State, step: Step, m: Msg)
    requires s.drainer.DrainerDone? && Event(m, Drained) !in s.log && Enabled(s, step)
    ensures Apply(s, step).drainer.DrainerDone? && Event(m, Drained) !in Apply(s, step).log
  {
    match step
    case ByProducer(p, op) => assert Event(m, Drained) !in ProducerEvents(s, s.producers[p], op);
    case _ =>
  }

  lemma {:induction false} StaysLeft(s: State, steps: seq<Step>, m: Msg)
    requires s.drainer.DrainerDone? && Event(m, Drained) !in s.log && Schedule(s, steps)
    ensures Event(m, Drained) !in Run(s, steps).log
    decreases |steps|
  {
    if steps != [] {
      StepLeft(s, steps[0], m);
      StaysLeft(Apply(s, steps[0]), steps[1..], m);
    }
  }

  /** A queued message has not ended and is not in the drainer's hand. */
  lemma QueuedOnly(s: State, m: Msg)
    requires Inv(s) && m in s.queue
    ensures Event(m, Drained) !in s.log && !(s.drainer.Sending? && s.drainer.msg == m)
  {
    assert Places(s, m) <= 1;
    NotQueued(s.queue, m);
    if Event(m, Drained) in s.log {
      EndedOnce(s.log, m, Drained);
    }
  }

  lemma {:induction false} EndedOnce(log: seq<Event>, m: Msg, fate: Fate)
    requires Event(m, fate) in log
    ensures Endings(log, m) > 0
  {
    var front, last := log[..|log| - 1], log[|log| - 1];
    assert log == front + [last];
    if last != Event(m, fate) {
      EndedOnce(front, m, fate);
    }
  }

  /** A message in the queue can still be published, once nothing fails any more, exactly if the
      drainer has not left and the monitor has not left without a channel. */
  lemma PublishedExactly(s: State, m: Msg)
    requires Reachable(s) && m in s.queue
    ensures CanPublish(s, m) <==> !s.drainer.DrainerDone? && (s.monitor.MonitorDone? ==> s.channel.Some?)
  {
    ReachableInv(s);
    QueuedOnly(s, m);
    if s.drainer.DrainerDone? {
      forall steps: seq<Step> | Schedule(s, steps) ensures !Publishes(s, steps, m) {
        StaysLeft(s, steps, m);
      }
    } else if !s.monitor.MonitorDone? {
      MonitorConnects(s, m);
    } else if s.channel.Some? {
      StartedBefore(s);
      DrainerPublishes(s, m);
    } else {
      forall steps: seq<Step> | Schedule(s, steps) ensures !Publishes(s, steps, m) {
        StaysCut(s, steps, m);
      }
    }
  }

  /** In a client nobody has closed every queued message can be published. */
  lemma OpenClientDelivers(s: State, m: Msg)
    requires Reachable(s) && !s.closed && m in s.queue
    ensures CanPublish(s, m)
  {
    NobodyLeavesAnOpenClient(s);
    PublishedExactly(s, m);
  }

  // ------------------------------------------------------------------ while there is no channel

  predicate AsleepOffline(s: State) {
    s.channel.None? && (s.drainer.NotStarted? || s.drainer.Sleeping? || s.drainer.DrainerDone?)
  }

  /** Until a channel is opened a sleeping drainer takes nothing out of the queue. */
  lemma {:induction false} QueueWaits(s: State, steps: seq<Step>)
    requires AsleepOffline(s) && Schedule(s, steps) && ByMonitor(Open(true)) !in steps
    ensures AsleepOffline(Run(s, steps)) && s.queue <= Run(s, steps).queue
    decreases |steps|
  {
    if steps != [] {
      QueueWaits(Apply(s, steps[0]), steps[1..]);
    }
  }

  // ------------------------------------------------------------------ the drainer has been started

  predicate Started(s: State) {
    s.drainer.NotStarted? ==> !s.monitor.Waiting? && (s.channel.Some? ==> s.monitor.Spawning?)
  }

  lemma {:induction false} RunStarted(s: State, steps: seq<Step>)
    requires Schedule(s, steps) && Started(s) && Connected(s) && |s.queue| <= s.capacity
    ensures Started(Run(s, steps))
    decreases |steps|
  {
    if steps != [] {
      StepConnected(s, steps[0]);
      RunStarted(Apply(s, steps[0]), steps[1..]);
    }
  }

  lemma StartedBefore(s: State)
    requires Reachable(s) && s.channel.Some? && !s.monitor.Spawning?
    ensures !s.drainer.NotStarted?
  {
    var capacity: nat, producers: nat, steps: seq<Step> :|
      Schedule(Initial(capacity, producers), steps) && s == Run(Initial(capacity, producers), steps);
    InitialInv(capacity, producers);
    RunStarted(Initial(capacity, producers), steps);
  }
}
