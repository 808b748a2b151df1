/**
 What the RabbitMQ client guarantees in every interleaving of its goroutines, and the two
 places where it guarantees less than it seems to: the order of cached messages after a
 put-back, and the return of Close.
 */
module RabbitTheorems {
  import opened Wrappers
  import opened RabbitProtocol

  ghost predicate Reachable(s: State) {
    exists capacity: nat, producers: nat, steps: seq<Step> ::
      Schedule(Initial(capacity, producers), steps) && s == Run(Initial(capacity, producers), steps)
  }

  lemma ReachableInv(s: State)
    requires Reachable(s)
    ensures Inv(s)
  {
    var capacity: nat, producers: nat, steps: seq<Step> :|
      Schedule(Initial(capacity, producers), steps) && s == Run(Initial(capacity, producers), steps);
    InitialInv(capacity, producers);
    RunInv(Initial(capacity, producers), steps);
  }

  lemma OneStep(s: State, step: Step)
    requires Enabled(s, step)
    ensures Schedule(s, [step]) && Run(s, [step]) == Apply(s, step)
  {
    var rest := [step][1..];
    assert rest == [];
    assert Schedule(Apply(s, step), rest) && Run(Apply(s, step), rest) == Apply(s, step);
  }

  lemma ReachableStep(s: State, step: Step)
    requires Reachable(s) && Enabled(s, step)
    ensures Reachable(Apply(s, step))
  {
    var capacity: nat, producers: nat, steps: seq<Step> :|
      Schedule(Initial(capacity, producers), steps) && s == Run(Initial(capacity, producers), steps);
    OneStep(s, step);
    RunConcat(Initial(capacity, producers), steps, [step]);
  }

  // ------------------------------------------------------------------ conservation

  /** Every submitted message is in exactly one place and nothing else is anywhere; the queue
      keeps its bound; the published and cached metrics account for every message. */
  lemma EveryMessageInOnePlace(s: State, m: Msg)
    requires Reachable(s)
    ensures Places(s, m) == if m < s.submitted then 1 else 0
    ensures |s.queue| <= s.capacity
    ensures s.metrics.cached + Tally(s.producers, OwingCached)
         == s.metrics.processed + Counting(s.drainer) + |s.queue| + |DrainerHand(s.drainer)|
            + Times(s.log, Bounced) + Times(s.log, Spoiled)
    ensures s.metrics.processed + Counting(s.drainer) == Times(s.log, Drained)
    ensures s.metrics.published + Tally(s.producers, OwingPublished) == Times(s.log, Direct)
  {
    ReachableInv(s);
  }

  // ------------------------------------------------------------------ room for everyone

  /** Undelivered messages never exceed the queue's capacity along the schedule. */
  ghost predicate RoomAllAlong(s: State, steps: seq<Step>)
    requires Schedule(s, steps)
    decreases |steps|
  {
    Undelivered(s) <= s.capacity && (steps != [] ==> RoomAllAlong(Apply(s, steps[0]), steps[1..]))
  }

  predicate NothingDroppedForFullness(s: State) {
    Times(s.log, Refused) == 0 && Times(s.log, Bounced) == 0
  }

  lemma LogKeepsRoom(log: seq<Event>, es: seq<Event>)
    requires |es| <= 1 && Times(log, Refused) == 0 && Times(log, Bounced) == 0
    requires es == [] || (!es[0].fate.Refused? && !es[0].fate.Bounced?)
    ensures Times(log + es, Refused) == 0 && Times(log + es, Bounced) == 0
  {
    LogCount(log, es, Refused);
    LogCount(log, es, Bounced);
  }

  /** A producer about to cache is itself undelivered, so the queue is not full. */
  lemma ProducerRoom(s: State, i: nat, op: ProducerOp)
    requires Undelivered(s) <= s.capacity && NothingDroppedForFullness(s)
    requires i < |s.producers| && ProducerEnabled(s.producers[i], op)
    ensures NothingDroppedForFullness(ProducerApply(s, i, op))
  {
    var es := ProducerEvents(s, s.producers[i], op);
    TallyAtLeast(s.producers, i, HoldingAny);
    assert op.AddToCache? ==> |s.queue| < s.capacity;
    LogKeepsRoom(s.log, es);
  }

  lemma DrainerRoom(s: State, op: DrainerOp)
    requires Undelivered(s) <= s.capacity && NothingDroppedForFullness(s) && DrainerEnabled(s, op)
    ensures NothingDroppedForFullness(DrainerApply(s, op))
  {
    assert op.PutBack? ==> |s.queue| < s.capacity;
    LogKeepsRoom(s.log, DrainerEvents(s, op));
  }

  lemma RoomStep(s: State, step: Step)
    requires Undelivered(s) <= s.capacity && NothingDroppedForFullness(s) && Enabled(s, step)
    ensures NothingDroppedForFullness(Apply(s, step))
  {
    match step
    case ByProducer(i, op) => ProducerRoom(s, i, op);
    case ByDrainer(op) => DrainerRoom(s, op);
    case _ =>
  }

  /** While there is room for all undelivered messages, neither caching nor put-back drops one. */
  lemma {:induction false} RoomMeansNoDrop(s: State, steps: seq<Step>)
    requires Schedule(s, steps) && RoomAllAlong(s, steps) && NothingDroppedForFullness(s)
    ensures NothingDroppedForFullness(Run(s, steps))
    decreases |steps|
  {
    if steps != [] {
      RoomStep(s, steps[0]);
      RoomMeansNoDrop(Apply(s, steps[0]), steps[1..]);
    }
  }

  // ------------------------------------------------------------------ order of cached messages

  /** The messages published from the queue, in order. */
  function DrainedSeq(log: seq<Event>): seq<Msg> {
    if log == [] then []
    else
      var e := log[|log| - 1];
      DrainedSeq(log[..|log| - 1]) + if e.fate.Drained? then [e.msg] else []
  }

  predicate IsLateDrop(e: Event) {
    e.fate.Bounced? || e.fate.Spoiled?
  }

  /** m was dropped by the drainer, after having been cached. */
  predicate DroppedLate(log: seq<Event>, m: Msg) {
    log != [] &&
    var e := log[|log| - 1];
    (e.msg == m && IsLateDrop(e)) || DroppedLate(log[..|log| - 1], m)
  }

  lemma DroppedAppend(log: seq<Event>, e: Event, m: Msg)
    ensures DroppedLate(log + [e], m) <==> DroppedLate(log, m) || (e.msg == m && IsLateDrop(e))
  {
    assert (log + [e])[..|log|] == log;
  }

  /** The cached messages the drainer has not dropped, in the order they were cached. */
  function Survivors(cached: seq<Msg>, log: seq<Event>): seq<Msg> {
    if cached == [] then []
    else
      var m := cached[|cached| - 1];
      Survivors(cached[..|cached| - 1], log) + if DroppedLate(log, m) then [] else [m]
  }

  /** Published, then in the drainer's hand, then queued: exactly the surviving cached
      messages in the order they were cached. */
  predicate InOrder(s: State) {
    Survivors(s.cached, s.log) == DrainedSeq(s.log) + DrainerHand(s.drainer) + s.queue
  }

  /** The one step that overtakes: a put-back behind messages already waiting. */
  predicate Reorders(s: State, step: Step) {
    step == ByDrainer(PutBack) && s.queue != [] && |s.queue| < s.capacity
  }

  function Without(ms: seq<Msg>, m: Msg): seq<Msg> {
    if ms == [] then []
    else Without(ms[..|ms| - 1], m) + if ms[|ms| - 1] == m then [] else [ms[|ms| - 1]]
  }

  lemma {:induction false} WithoutConcat(a: seq<Msg>, b: seq<Msg>, m: Msg)
    ensures Without(a + b, m) == Without(a, m) + Without(b, m)
  {
    if b == [] {
      assert a + b == a;
    } else {
      assert (a + b)[..|a + b| - 1] == a + b[..|b| - 1];
      WithoutConcat(a, b[..|b| - 1], m);
    }
  }

  lemma {:induction false} WithoutAbsent(ms: seq<Msg>, m: Msg)
    requires m !in ms
    ensures Without(ms, m) == ms
  {
    if ms != [] {
      WithoutAbsent(ms[..|ms| - 1], m);
    }
  }

  /** A late drop takes exactly that message out of the survivors. */
  lemma {:induction false} SurvivorsDrop(cached: seq<Msg>, log: seq<Event>, e: Event)
    requires IsLateDrop(e)
    ensures Survivors(cached, log + [e]) == Without(Survivors(cached, log), e.msg)
  {
    if cached != [] {
      var m := cached[|cached| - 1];
      SurvivorsDrop(cached[..|cached| - 1], log, e);
      var tail: seq<Msg> := if DroppedLate(log, m) then [] else [m];
      WithoutConcat(Survivors(cached[..|cached| - 1], log), tail, e.msg);
      DroppedAppend(log, e, m);
      assert Without([m], e.msg) == if m == e.msg then [] else [m] by {
        assert [m][..0] == [];
      }
    }
  }

  /** Any other ending leaves the survivors alone. */
  lemma {:induction false} SurvivorsKeep(cached: seq<Msg>, log: seq<Event>, e: Event)
    requires !IsLateDrop(e)
    ensures Survivors(cached, log + [e]) == Survivors(cached, log)
  {
    if cached != [] {
      var m := cached[|cached| - 1];
      SurvivorsKeep(cached[..|cached| - 1], log, e);
      DroppedAppend(log, e, m);
    }
  }

  lemma DrainedAppend(log: seq<Event>, e: Event)
    ensures DrainedSeq(log + [e]) == DrainedSeq(log) + if e.fate.Drained? then [e.msg] else []
  {
    assert (log + [e])[..|log|] == log;
  }

  lemma {:induction false} LoggedMeansEnded(log: seq<Event>, m: Msg)
    requires Endings(log, m) == 0
    ensures m !in DrainedSeq(log) && !DroppedLate(log, m)
  {
    if log != [] {
      LoggedMeansEnded(log[..|log| - 1], m);
    }
  }

  lemma {:induction false} NotQueued(queue: seq<Msg>, m: Msg)
    ensures m in queue <==> Queued(queue, m) > 0
  {
    if queue != [] {
      assert queue == [queue[0]] + queue[1..];
      NotQueued(queue[1..], m);
    }
  }

  /** A message the drainer holds is nowhere else. */
  lemma HeldOnce(s: State)
    requires Inv(s) && DrainerCarries(s.drainer)
    ensures s.drainer.msg !in DrainedSeq(s.log) && s.drainer.msg !in s.queue
    ensures !DroppedLate(s.log, s.drainer.msg)
  {
    var m := s.drainer.msg;
    assert Places(s, m) <= 1;
    LoggedMeansEnded(s.log, m);
    NotQueued(s.queue, m);
  }

  lemma DropKeepsOrder(s: State, e: Event)
    requires Inv(s) && InOrder(s) && DrainerCarries(s.drainer)
    requires e == Event(s.drainer.msg, Spoiled) || e == Event(s.drainer.msg, Bounced)
    ensures Survivors(s.cached, s.log + [e]) == DrainedSeq(s.log + [e]) + [] + s.queue
  {
    var m := s.drainer.msg;
    HeldOnce(s);
    SurvivorsDrop(s.cached, s.log, e);
    DrainedAppend(s.log, e);
    var d, q := DrainedSeq(s.log), s.queue;
    WithoutConcat(d + [m], q, m);
    WithoutConcat(d, [m], m);
    WithoutAbsent(d, m);
    WithoutAbsent(q, m);
    assert Without([m], m) == [] by {
      assert [m][..0] == [];
    }
  }

  /** A producer's step ends no cached message and drops none late. */
  lemma ProducerEffects(s: State, p: Producer, op: ProducerOp)
    requires ProducerEnabled(p, op)
    ensures var es, ms := ProducerEvents(s, p, op), ProducerEnqueues(s, p, op);
      && (es == [] || (es == [es[0]] && ms == [] && !es[0].fate.Drained? && !IsLateDrop(es[0])))
      && (ms == [] || (ms == [p.msg] && Carries(p)))
  {
  }

  lemma EnqueueKeepsOrder(cached: seq<Msg>, log: seq<Event>, hand: seq<Msg>, queue: seq<Msg>, m: Msg)
    requires Survivors(cached, log) == DrainedSeq(log) + hand + queue && !DroppedLate(log, m)
    ensures Survivors(cached + [m], log) == DrainedSeq(log) + hand + (queue + [m])
  {
    assert (cached + [m])[..|cached|] == cached;
  }

  lemma LogKeepsOrder(cached: seq<Msg>, log: seq<Event>, hand: seq<Msg>, queue: seq<Msg>, e: Event)
    requires Survivors(cached, log) == DrainedSeq(log) + hand + queue && !e.fate.Drained? && !IsLateDrop(e)
    ensures Survivors(cached, log + [e]) == DrainedSeq(log + [e]) + hand + queue
  {
    SurvivorsKeep(cached, log, e);
    DrainedAppend(log, e);
  }

  /** What a producer is about to queue has not been dropped. */
  lemma ProducerHoldsFresh(s: State, i: nat)
    requires Inv(s) && i < |s.producers| && Carries(s.producers[i])
    ensures !DroppedLate(s.log, s.producers[i].msg)
  {
    var m := s.producers[i].msg;
    TallyAtLeast(s.producers, i, Holding(m));
    assert Places(s, m) <= 1;
    LoggedMeansEnded(s.log, m);
  }

  lemma ProducerKeepsOrder(s: State, i: nat, op: ProducerOp)
    requires Inv(s) && InOrder(s) && i < |s.producers| && ProducerEnabled(s.producers[i], op)
    ensures InOrder(ProducerApply(s, i, op))
  {
    var p := s.producers[i];
    var t := ProducerApply(s, i, op);
    var es: seq<Event>, ms: seq<Msg> := ProducerEvents(s, p, op), ProducerEnqueues(s, p, op);
    ProducerEffects(s, p, op);
    assert t.drainer == s.drainer;
    assert t.log == s.log + es && t.cached == s.cached + ms && t.queue == s.queue + ms;
    var hand := DrainerHand(s.drainer);
    if es != [] {
      assert t.queue == s.queue && t.cached == s.cached;
      LogKeepsOrder(s.cached, s.log, hand, s.queue, es[0]);
    } else if ms != [] {
      assert t.log == s.log;
      ProducerHoldsFresh(s, i);
      EnqueueKeepsOrder(s.cached, s.log, hand, s.queue, p.msg);
    } else {
      assert t.log == s.log && t.queue == s.queue && t.cached == s.cached;
    }
  }

  lemma SendKeepsOrder(s: State)
    requires InOrder(s) && s.drainer.Sending?
    ensures InOrder(DrainerApply(s, Send(true)))
  {
    var e, t := Event(s.drainer.msg, Drained), DrainerApply(s, Send(true));
    SurvivorsKeep(s.cached, s.log, e);
    DrainedAppend(s.log, e);
    HandedOver(DrainedSeq(s.log), e.msg, s.queue);
    assert DrainerHand(s.drainer) == [e.msg] && DrainerHand(t.drainer) == [];
    assert t.log == s.log + [e] && t.cached == s.cached && t.queue == s.queue;
  }

  lemma HandedOver(drained: seq<Msg>, m: Msg, queue: seq<Msg>)
    ensures drained + [m] + [] + queue == drained + [m] + queue
  {
    assert drained + [m] + [] == drained + [m];
  }

  lemma TakenOver(drained: seq<Msg>, queue: seq<Msg>)
    requires queue != []
    ensures drained + [] + queue == drained + [queue[0]] + queue[1..]
  {
    assert queue == [queue[0]] + queue[1..];
  }

  lemma ReceiveKeepsOrder(s: State)
    requires InOrder(s) && s.drainer.Receiving?
    ensures InOrder(DrainerApply(s, Receive))
  {
    var d, q, t := DrainedSeq(s.log), s.queue, DrainerApply(s, Receive);
    assert t.log == s.log && t.cached == s.cached;
    assert DrainerHand(s.drainer) == [];
    if q != [] {
      assert DrainerHand(t.drainer) == [q[0]] && t.queue == q[1..];
      TakenOver(d, q);
    } else {
      assert DrainerHand(t.drainer) == [] && t.queue == q;
    }
  }

  lemma QuietKeepsOrder(s: State, op: DrainerOp)
    requires InOrder(s) && DrainerEnabled(s, op) && DrainerEvents(s, op) == [] && !op.Receive? && !op.PutBack?
    ensures InOrder(DrainerApply(s, op))
  {
    var t := DrainerApply(s, op);
    assert t.log == s.log && t.queue == s.queue && t.cached == s.cached;
    assert DrainerHand(t.drainer) == DrainerHand(s.drainer);
  }

  lemma EncodeFailureKeepsOrder(s: State)
    requires Inv(s) && InOrder(s) && s.drainer.Encoding?
    ensures InOrder(DrainerApply(s, Encode(false)))
  {
    DropKeepsOrder(s, Event(s.drainer.msg, Spoiled));
  }

  lemma BounceKeepsOrder(s: State)
    requires Inv(s) && InOrder(s) && s.drainer.PuttingBack? && |s.queue| >= s.capacity
    ensures InOrder(DrainerApply(s, PutBack))
  {
    DropKeepsOrder(s, Event(s.drainer.msg, Bounced));
  }

  lemma DrainerOrder(s: State, op: DrainerOp)
    requires Inv(s) && InOrder(s) && DrainerEnabled(s, op)
    ensures InOrder(DrainerApply(s, op)) <==> !Reorders(s, ByDrainer(op))
  {
    match op
    case Receive => ReceiveKeepsOrder(s);
    case PutBack => if |s.queue| < s.capacity { PutBackOrder(s); } else { BounceKeepsOrder(s); }
    case Send(ok) => if ok { SendKeepsOrder(s); } else { QuietKeepsOrder(s, op); }
    case Encode(ok) => if ok { QuietKeepsOrder(s, op); } else { EncodeFailureKeepsOrder(s); }
    case _ => QuietKeepsOrder(s, op);
  }

  lemma PutBackOrder(s: State)
    requires Inv(s) && InOrder(s) && s.drainer.PuttingBack? && |s.queue| < s.capacity
    ensures InOrder(DrainerApply(s, PutBack)) <==> s.queue == []
  {
    var t := DrainerApply(s, PutBack);
    assert t.log == s.log;
    HeldOnce(s);
    var d, m := DrainedSeq(s.log), s.drainer.msg;
    if s.queue != [] {
      assert (d + [m] + s.queue)[|d|] == m;
      assert (d + [] + (s.queue + [m]))[|d|] == s.queue[0];
    }
  }

  /** From an ordered state a step keeps the order exactly when it is not an overtaking put-back. */
  lemma StepOrder(s: State, step: Step)
    requires Inv(s) && InOrder(s) && Enabled(s, step)
    ensures InOrder(Apply(s, step)) <==> !Reorders(s, step)
  {
    match step
    case ByProducer(p, op) => ProducerKeepsOrder(s, p, op);
    case ByDrainer(op) => DrainerOrder(s, op);
    case ByMonitor(op) => assert DrainerHand(MonitorApply(s, op).drainer) == DrainerHand(s.drainer);
    case Close =>
  }

  ghost predicate OrderedAllAlong(s: State, steps: seq<Step>)
    requires Schedule(s, steps)
    decreases |steps|
  {
    InOrder(s) && (steps != [] ==> OrderedAllAlong(Apply(s, steps[0]), steps[1..]))
  }

  ghost predicate NeverReorders(s: State, steps: seq<Step>)
    requires Schedule(s, steps)
    decreases |steps|
  {
    steps != [] ==> !Reorders(s, steps[0]) && NeverReorders(Apply(s, steps[0]), steps[1..])
  }

  /** A run keeps cached messages in order exactly when it never puts one back behind others. */
  lemma {:induction false} RunOrder(s: State, steps: seq<Step>)
    requires Inv(s) && InOrder(s) && Schedule(s, steps)
    ensures OrderedAllAlong(s, steps) <==> NeverReorders(s, steps)
    decreases |steps|
  {
    if steps != [] {
      StepInv(s, steps[0]);
      StepOrder(s, steps[0]);
      if InOrder(Apply(s, steps[0])) {
        RunOrder(Apply(s, steps[0]), steps[1..]);
      }
    }
  }

  predicate FaultFree(steps: seq<Step>) {
    ByDrainer(Send(false)) !in steps && ByDrainer(Encode(false)) !in steps
  }

  /** Nothing cached has been dropped and nothing is being put back. */
  ghost predicate Unfailed(s: State) {
    InOrder(s) && !s.drainer.PuttingBack? && forall m :: !DroppedLate(s.log, m)
  }

  lemma {:induction false} SurvivorsAll(cached: seq<Msg>, log: seq<Event>)
    requires forall m :: !DroppedLate(log, m)
    ensures Survivors(cached, log) == cached
  {
    if cached != [] {
      SurvivorsAll(cached[..|cached| - 1], log);
    }
  }

  lemma NoLateDrop(log: seq<Event>, es: seq<Event>)
    requires |es| <= 1 && (es == [] || !IsLateDrop(es[0]))
    requires forall m :: !DroppedLate(log, m)
    ensures forall m :: !DroppedLate(log + es, m)
  {
    if es == [] {
      assert log + es == log;
    } else {
      assert log + es == log + [es[0]];
      forall m ensures !DroppedLate(log + es, m) {
        DroppedAppend(log, es[0], m);
      }
    }
  }

  lemma ProducerUnfailed(s: State, i: nat, op: ProducerOp)
    requires Inv(s) && Unfailed(s) && i < |s.producers| && ProducerEnabled(s.producers[i], op)
    ensures Unfailed(ProducerApply(s, i, op))
  {
    ProducerKeepsOrder(s, i, op);
    ProducerEffects(s, s.producers[i], op);
    NoLateDrop(s.log, ProducerEvents(s, s.producers[i], op));
  }

  lemma NoPutBackAhead(s: State, op: DrainerOp)
    requires !s.drainer.PuttingBack? && DrainerEnabled(s, op) && op != Send(false) && op != Encode(false)
    ensures !Reorders(s, ByDrainer(op)) && !DrainerApply(s, op).drainer.PuttingBack?
    ensures var es := DrainerEvents(s, op); |es| <= 1 && (es == [] || !IsLateDrop(es[0]))
  {
  }

  lemma DrainerUnfailed(s: State, op: DrainerOp)
    requires Inv(s) && Unfailed(s) && DrainerEnabled(s, op) && op != Send(false) && op != Encode(false)
    ensures Unfailed(DrainerApply(s, op))
  {
    NoPutBackAhead(s, op);
    DrainerOrder(s, op);
    NoLateDrop(s.log, DrainerEvents(s, op));
    assert DrainerApply(s, op).log == s.log + DrainerEvents(s, op);
  }

  lemma UnfailedStep(s: State, step: Step)
    requires Inv(s) && Unfailed(s) && Enabled(s, step)
    requires step != ByDrainer(Send(false)) && step != ByDrainer(Encode(false))
    ensures Unfailed(Apply(s, step))
  {
    match step
    case ByProducer(i, op) => ProducerUnfailed(s, i, op);
    case ByDrainer(op) => DrainerUnfailed(s, op);
    case _ => StepOrder(s, step);
  }

  /** When no publish and no marshalling of a cached message fails, what has been published from
      the queue is a prefix of what was cached, and what follows is in hand and in the queue. */
  lemma {:induction false} FaultFreeFifo(s: State, steps: seq<Step>)
    requires Inv(s) && Unfailed(s) && Schedule(s, steps) && FaultFree(steps)
    ensures var t := Run(s, steps); t.cached == DrainedSeq(t.log) + DrainerHand(t.drainer) + t.queue
    decreases |steps|
  {
    if steps == [] {
      SurvivorsAll(s.cached, s.log);
    } else {
      StepInv(s, steps[0]);
      UnfailedStep(s, steps[0]);
      FaultFreeFifo(Apply(s, steps[0]), steps[1..]);
    }
  }

  /** Both results, from the start of the client. */
  lemma OrderFromTheStart(capacity: nat, producers: nat, steps: seq<Step>)
    requires Schedule(Initial(capacity, producers), steps)
    ensures OrderedAllAlong(Initial(capacity, producers), steps) <==> NeverReorders(Initial(capacity, producers), steps)
    ensures var t := Run(Initial(capacity, producers), steps);
      FaultFree(steps) ==> t.cached == DrainedSeq(t.log) + DrainerHand(t.drainer) + t.queue
  {
    InitialInv(capacity, producers);
    RunOrder(Initial(capacity, producers), steps);
    if FaultFree(steps) {
      FaultFreeFifo(Initial(capacity, producers), steps);
    }
  }

  /** The client of capacity 2 after one producer has cached messages 0 and 1 while disconnected
      and the drainer holds message 0, its connection up. */
  function TwoCached(): State {
    State(2, Some(0), Some(0), 1, false, [1], [Idle], AwaitingChannel(0), Waiting, Metrics(2, 0, 0), 2, [0, 1], [])
  }

  /** A producer submits while disconnected. */
  lemma SubmitsOffline(s: State)
    requires Reachable(s) && s.producers == [Idle] && s.channel.None?
    ensures Reachable(s.(producers := [Caching(s.submitted)], submitted := s.submitted + 1))
  {
    var m := s.submitted;
    ReachableStep(s, ByProducer(0, Submit));
    var t := s.(producers := [Built(m)], submitted := m + 1);
    assert Apply(s, ByProducer(0, Submit)) == t;
    ReachableStep(t, ByProducer(0, ReadChannel));
    assert Apply(t, ByProducer(0, ReadChannel)) == t.(producers := [Caching(m)]);
  }

  /** And finds room. */
  lemma FindsRoom(s: State, m: Msg)
    requires Reachable(s) && s.producers == [Caching(m)] && |s.queue| < s.capacity
    ensures Reachable(s.(producers := [Idle], queue := s.queue + [m], cached := s.cached + [m],
                         metrics := s.metrics.(cached := s.metrics.cached + 1)))
  {
    ReachableStep(s, ByProducer(0, AddToCache));
    var t := s.(producers := [CountingCached], queue := s.queue + [m], cached := s.cached + [m]);
    assert Apply(s, ByProducer(0, AddToCache)) == t;
    ReachableStep(t, ByProducer(0, Count));
    assert Apply(t, ByProducer(0, Count)) ==
      t.(producers := [Idle], metrics := s.metrics.(cached := s.metrics.cached + 1));
  }

  lemma CachesOffline(s: State)
    requires Reachable(s) && s.producers == [Idle] && s.channel.None? && |s.queue| < s.capacity
    ensures Reachable(s.(submitted := s.submitted + 1, queue := s.queue + [s.submitted],
                         cached := s.cached + [s.submitted],
                         metrics := s.metrics.(cached := s.metrics.cached + 1)))
  {
    SubmitsOffline(s);
    FindsRoom(s.(producers := [Caching(s.submitted)], submitted := s.submitted + 1), s.submitted);
  }

  /** The first connection comes up, the drainer starts and wakes. */
  lemma Connects(s: State)
    requires Reachable(s) && s.monitor.Checking? && s.drainer.NotStarted? && s.channel.None?
    ensures Reachable(s.(monitor := Waiting, drainer := Receiving, channel := Some(s.generation),
                         conn := Some(s.generation), generation := s.generation + 1))
  {
    ReachableStep(s, ByMonitor(Check));
    var s1 := s.(monitor := Dialing);
    ReachableStep(s1, ByMonitor(Dial(true)));
    var s2 := s1.(monitor := Opening, conn := Some(s.generation), generation := s.generation + 1);
    ReachableStep(s2, ByMonitor(Open(true)));
    var s3 := s2.(monitor := Spawning, channel := Some(s.generation));
    ReachableStep(s3, ByMonitor(Spawn));
    var s4 := s3.(monitor := Waiting, drainer := Sleeping);
    ReachableStep(s4, ByDrainer(Wake));
  }

  /** The drainer takes the first queued message. */
  lemma Takes(s: State)
    requires Reachable(s) && s.drainer.Receiving? && s.queue != []
    ensures Reachable(s.(queue := s.queue[1..], drainer := AwaitingChannel(s.queue[0])))
  {
    ReachableStep(s, ByDrainer(Receive));
    var s1 := s.(queue := s.queue[1..], drainer := Encoding(s.queue[0]));
    assert s.log + [] == s.log;
    assert Apply(s, ByDrainer(Receive)) == s1;
    ReachableStep(s1, ByDrainer(Encode(true)));
    assert Apply(s1, ByDrainer(Encode(true))) == s1.(drainer := AwaitingChannel(s.queue[0]));
  }

  lemma TwoCachedReachable()
    ensures Reachable(TwoCached())
  {
    var s := Initial(2, 1);
    assert Schedule(s, []) && Run(s, []) == s;
    assert s.producers == [Idle];
    CachesOffline(s);
    var s1 := s.(submitted := 1, queue := [0], cached := [0], metrics := Metrics(1, 0, 0));
    CachesOffline(s1);
    var s2 := s1.(submitted := 2, queue := [0, 1], cached := [0, 1], metrics := Metrics(2, 0, 0));
    Connects(s2);
    Takes(TwoCached().(drainer := Receiving, queue := [0, 1]));
  }

  /** Order is really lost: message 1 can overtake message 0. */
  lemma PutBackOvertakes()
    ensures exists s :: Reachable(s) && !InOrder(s)
  {
    TwoCachedReachable();
    var s1 := TwoCached().(drainer := Sending(0, 0));
    ReachableStep(TwoCached(), ByDrainer(GetChannel));
    assert Apply(TwoCached(), ByDrainer(GetChannel)) == s1;
    var s2 := TwoCached().(drainer := PuttingBack(0));
    ReachableStep(s1, ByDrainer(Send(false)));
    assert Apply(s1, ByDrainer(Send(false))) == s2;
    ReachableStep(s2, ByDrainer(PutBack));
    PutBackSwaps(s2);
  }

  lemma PutBackSwaps(s: State)
    requires s == TwoCached().(drainer := PuttingBack(0))
    ensures !InOrder(DrainerApply(s, PutBack))
  {
    var t := DrainerApply(s, PutBack);
    assert t.queue == [1, 0] && t.log == [] && DrainerHand(t.drainer) == [];
    assert Survivors([0, 1], []) == [0, 1] by {
      assert [0, 1][..1] == [0] && [0][..0] == [];
    }
    assert ([] + [] + [1, 0])[0] == 1;
  }

  /** The connection drops and the monitor notices. */
  lemma Disconnects(s: State)
    requires Reachable(s) && s.monitor.Waiting?
    ensures Reachable(s.(monitor := Checking, channel := None, conn := None))
  {
    ReachableStep(s, ByMonitor(Lose));
    ReachableStep(s.(monitor := Clearing), ByMonitor(Clear));
  }

  // ------------------------------------------------------------------ one message and the channel

  function FirstIds(n: nat): seq<Msg> {
    if n == 0 then [] else FirstIds(n - 1) + [n - 1]
  }

  lemma {:induction false} FirstIdsSize(n: nat)
    ensures |FirstIds(n)| == n
  {
    if n > 0 {
      FirstIdsSize(n - 1);
    }
  }

  /** The client after n messages of its one producer have been cached with no connection yet. */
  function Offline(capacity: nat, n: nat): State {
    State(capacity, None, None, 0, false, FirstIds(n), [Idle], NotStarted, Checking, Metrics(n, 0, 0),
          n, FirstIds(n), [])
  }

  lemma {:induction false} OfflineReachable(capacity: nat, n: nat)
    requires n <= capacity
    ensures Reachable(Offline(capacity, n))
  {
    if n == 0 {
      var s := Initial(capacity, 1);
      assert Schedule(s, []) && Run(s, []) == s;
      assert s == Offline(capacity, 0);
    } else {
      OfflineReachable(capacity, n - 1);
      FirstIdsSize(n - 1);
      CachesOffline(Offline(capacity, n - 1));
    }
  }

  /** A producer submits and reads the channel field. */
  lemma Submits(s: State)
    requires Reachable(s) && s.producers == [Idle]
    ensures Reachable(s.(submitted := s.submitted + 1, producers := [
      if s.channel.None? then Caching(s.submitted) else Marshalling(s.submitted, s.channel.value)]))
  {
    ReachableStep(s, ByProducer(0, Submit));
    var s1 := s.(submitted := s.submitted + 1, producers := [Built(s.submitted)]);
    assert Apply(s, ByProducer(0, Submit)) == s1;
    ReachableStep(s1, ByProducer(0, ReadChannel));
  }

  /** A message refused by a full queue, after which the connection comes up. */
  lemma RefusedThenUp(capacity: nat)
    ensures exists s :: Reachable(s) && s.capacity == capacity && s.channel.Some? && Event(capacity, Refused) in s.log
  {
    OfflineReachable(capacity, capacity);
    FirstIdsSize(capacity);
    var s := Offline(capacity, capacity);
    Submits(s);
    var s1 := s.(submitted := capacity + 1, producers := [Caching(capacity)]);
    ReachableStep(s1, ByProducer(0, AddToCache));
    var s2 := Apply(s1, ByProducer(0, AddToCache));
    assert s2.log == [] + [Event(capacity, Refused)];
    Connects(s2);
  }

  /** The client with its first connection up. */
  function Online(capacity: nat): State {
    Offline(capacity, 0).(monitor := Waiting, drainer := Receiving, channel := Some(0), conn := Some(0),
                          generation := 1)
  }

  lemma OnlineMarshals(capacity: nat)
    ensures Reachable(Online(capacity).(submitted := 1, producers := [Marshalling(0, 0)]))
  {
    OfflineReachable(capacity, 0);
    Connects(Offline(capacity, 0));
    Submits(Online(capacity));
  }

  /** A message that cannot be encoded, with the connection up all the time. */
  lemma UnencodableWhileUp(capacity: nat)
    ensures exists s :: Reachable(s) && s.capacity == capacity && s.channel.Some? && Event(0, Unencodable) in s.log
  {
    OnlineMarshals(capacity);
    var s := Online(capacity).(submitted := 1, producers := [Marshalling(0, 0)]);
    ReachableStep(s, ByProducer(0, Marshal(false)));
    assert Apply(s, ByProducer(0, Marshal(false))).log == [] + [Event(0, Unencodable)];
  }

  /** A message published, after which the connection goes down. */
  lemma PublishedThenDown(capacity: nat)
    ensures exists s :: Reachable(s) && s.capacity == capacity && s.channel.None? && Event(0, Direct) in s.log
  {
    OnlineMarshals(capacity);
    var s := Online(capacity).(submitted := 1, producers := [Marshalling(0, 0)]);
    ReachableStep(s, ByProducer(0, Marshal(true)));
    var s1 := s.(producers := [Publishing(0, 0)]);
    assert Apply(s, ByProducer(0, Marshal(true))) == s1 by {
      assert s.log + [] == s.log && s.queue + [] == s.queue && s.cached + [] == s.cached;
    }
    ReachableStep(s1, ByProducer(0, Publish(true)));
    var s2 := Apply(s1, ByProducer(0, Publish(true)));
    assert s2.log == [] + [Event(0, Direct)];
    Disconnects(s2);
  }

  /** A schedule that ends in a client not closed has not closed it. */
  lemma {:induction false} NeverClosed(s: State, steps: seq<Step>)
    requires Schedule(s, steps) && !Run(s, steps).closed
    ensures forall i :: 0 <= i < |steps| ==> !steps[i].Close?
    ensures !s.closed
    decreases |steps|
  {
    if steps != [] {
      NeverClosed(Apply(s, steps[0]), steps[1..]);
      forall i | 0 <= i < |steps| ensures !steps[i].Close? {
        assert i > 0 ==> steps[i] == steps[1..][i - 1];
      }
    }
  }

  lemma {:induction false} RunKeepsSizes(s: State, steps: seq<Step>)
    requires Schedule(s, steps)
    ensures Run(s, steps).capacity == s.capacity && |Run(s, steps).producers| == |s.producers|
    decreases |steps|
  {
    if steps != [] {
      RunKeepsSizes(Apply(s, steps[0]), steps[1..]);
    }
  }

  /** The drainer of a client with one message cached waits for a channel, the connection just lost. */
  function Waits(capacity: nat): State {
    Offline(capacity, 1).(queue := [], drainer := AwaitingChannel(0), generation := 1)
  }

  lemma WaitsReachable(capacity: nat)
    requires capacity > 0
    ensures Reachable(Waits(capacity))
  {
    OfflineReachable(capacity, 1);
    assert FirstIds(1) == [0];
    var s := Offline(capacity, 1);
    Connects(s);
    var s1 := s.(monitor := Waiting, drainer := Receiving, channel := Some(0), conn := Some(0), generation := 1);
    Takes(s1);
    assert [0][1..] == [];
    Disconnects(s1.(queue := [], drainer := AwaitingChannel(0)));
  }

  /** The schedule to it, which does not close the client. */
  lemma WaitsForChannel(capacity: nat) returns (steps: seq<Step>, s: State)
    requires capacity > 0
    ensures s == Waits(capacity) && Schedule(Initial(capacity, 1), steps) && Run(Initial(capacity, 1), steps) == s
    ensures forall i :: 0 <= i < |steps| ==> !steps[i].Close?
  {
    s := Waits(capacity);
    WaitsReachable(capacity);
    var c: nat, p: nat;
    c, p, steps :| Schedule(Initial(c, p), steps) && s == Run(Initial(c, p), steps);
    RunKeepsSizes(Initial(c, p), steps);
    NeverClosed(Initial(c, p), steps);
  }

  /** From there, closing it and a failed dial leave the drainer stuck. */
  lemma ThenStuck(s: State) returns (steps: seq<Step>)
    requires !s.closed && s.drainer.AwaitingChannel? && s.monitor.Checking? && s.channel.None?
    ensures Schedule(s, steps) && Stuck(Run(s, steps))
  {
    var s1 := Apply(s, Close);
    var s2 := Apply(s1, ByMonitor(Check));
    var s3 := Apply(s2, ByMonitor(Dial(false)));
    var s4 := Apply(s3, ByMonitor(Stop));
    assert Schedule(s4, []) && Run(s4, []) == s4;
    steps := [Close, ByMonitor(Check), ByMonitor(Dial(false)), ByMonitor(Stop)];
    var r1, r2, r3 := steps[1..], steps[1..][1..], steps[1..][1..][1..];
    assert r3 == [ByMonitor(Stop)] && r3[1..] == [];
    assert Schedule(s3, r3) && Run(s3, r3) == s4;
    assert Schedule(s2, r2) && Run(s2, r2) == s4;
    assert Schedule(s1, r1) && Run(s1, r1) == s4;
  }

  /** A closed client's monitor fails to dial and leaves. */
  lemma GivesUp(s: State)
    requires Reachable(s) && s.closed && s.monitor.Checking? && s.channel.None? && s.conn.None?
    ensures Reachable(s.(monitor := MonitorDone))
  {
    ReachableStep(s, ByMonitor(Check));
    ReachableStep(s.(monitor := Dialing), ByMonitor(Dial(false)));
    ReachableStep(s.(monitor := BackingOff), ByMonitor(Stop));
  }

  /** Close really can hang: the connection is lost and the client closed while the drainer
      waits for a channel, and the monitor backs off and leaves. */
  lemma CloseCanHang()
    ensures exists s :: Reachable(s) && s.closed && Stuck(s)
  {
    TwoCachedReachable();
    Disconnects(TwoCached());
    var s := TwoCached().(monitor := Checking, channel := None, conn := None);
    ReachableStep(s, Close);
    GivesUp(s.(closed := true));
    assert Stuck(s.(closed := true, monitor := MonitorDone));
  }

  // ------------------------------------------------------------------ Close

  /** Both goroutines Close waits for have returned, or the drainer was never started. */
  predicate Finished(s: State) {
    s.closed && s.monitor.MonitorDone? && (s.drainer.DrainerDone? || s.drainer.NotStarted?)
  }

  /** The drainer polls for a channel that no goroutine is left to open. */
  predicate Stuck(s: State) {
    s.monitor.MonitorDone? && s.channel.None? && s.drainer.AwaitingChannel?
  }

  lemma {:induction false} StuckForever(s: State, steps: seq<Step>)
    requires Stuck(s) && Schedule(s, steps)
    ensures Stuck(Run(s, steps)) && !Finished(Run(s, steps))
    decreases |steps|
  {
    if steps != [] {
      StuckForever(Apply(s, steps[0]), steps[1..]);
    }
  }

  /** Once the drainer has left, cached messages stay: the queue only grows at its end and nothing
      is published from it any more. */
  lemma {:induction false} LeftBehind(s: State, steps: seq<Step>)
    requires s.drainer.DrainerDone? && Schedule(s, steps)
    ensures var t := Run(s, steps);
      t.drainer.DrainerDone? && s.queue <= t.queue && Times(t.log, Drained) == Times(s.log, Drained)
    decreases |steps|
  {
    if steps != [] {
      var t := Apply(s, steps[0]);
      if steps[0].ByProducer? {
        var p, op := s.producers[steps[0].p], steps[0].pop;
        ProducerOwes(s, p, op);
        LogCount(s.log, ProducerEvents(s, p, op), Drained);
      }
      LeftBehind(t, steps[1..]);
    }
  }

  /** The monitor leaves only a closed client, so one not closed yet is not stuck by closing it. */
  lemma NotStuckBeforeClose(s: State)
    requires Reachable(s) && !s.closed
    ensures !Stuck(Apply(s, Close))
  {
    ReachableLeft(s);
  }

  lemma ReachableLeft(s: State)
    requires Reachable(s)
    ensures s.monitor.MonitorDone? ==> s.closed
  {
    var capacity: nat, producers: nat, steps: seq<Step> :|
      Schedule(Initial(capacity, producers), steps) && s == Run(Initial(capacity, producers), steps);
    RunLeft(Initial(capacity, producers), steps);
  }

  lemma {:induction false} RunLeft(s: State, steps: seq<Step>)
    requires Schedule(s, steps) && (s.monitor.MonitorDone? ==> s.closed)
    ensures var t := Run(s, steps); t.monitor.MonitorDone? ==> t.closed
    decreases |steps|
  {
    if steps != [] {
      RunLeft(Apply(s, steps[0]), steps[1..]);
    }
  }

  /** Some schedule from s lets Close return. */
  ghost predicate CanFinish(s: State) {
    exists steps: seq<Step> :: Schedule(s, steps) && Finished(Run(s, steps))
  }

  lemma CanFinishBefore(s: State, step: Step)
    requires Enabled(s, step) && CanFinish(Apply(s, step))
    ensures CanFinish(s)
  {
    var rest: seq<Step> :| Schedule(Apply(s, step), rest) && Finished(Run(Apply(s, step), rest));
    var steps := [step] + rest;
    assert steps[1..] == rest;
    assert Schedule(s, steps) && Run(s, steps) == Run(Apply(s, step), rest);
  }

  /** How far the drainer is from returning when the broker and json cooperate. */
  function DrainerDistance(s: State): nat {
    match s.drainer
    case NotStarted => 0
    case DrainerDone => 0
    case Sleeping => 1
    case Receiving => 2 + 2 * |s.queue|
    case Encoding(_) => 3 + 2 * |s.queue|
    case CheckingLength => 3 + 2 * |s.queue|
    case PuttingBack(_) => 2
    case CountingProcessed => 4 + 2 * |s.queue|
    case Sending(_, _) => 5 + 2 * |s.queue|
    case AwaitingChannel(_) => 6 + 2 * |s.queue|
  }

  function DrainerMove(s: State): DrainerOp
    requires !s.drainer.NotStarted? && !s.drainer.DrainerDone?
  {
    match s.drainer
    case Sleeping => Exit
    case Receiving => Receive
    case Encoding(_) => Encode(false)
    case AwaitingChannel(_) => GetChannel
    case Sending(_, _) => Send(true)
    case PuttingBack(_) => PutBack
    case CountingProcessed => CountProcessed
    case CheckingLength => CheckLength
  }

  lemma {:induction false} DrainerFinishes(s: State)
    requires s.closed && s.monitor.MonitorDone? && (s.channel.None? ==> !s.drainer.AwaitingChannel?)
    ensures CanFinish(s)
    decreases DrainerDistance(s)
  {
    if Finished(s) {
      assert Schedule(s, []) && Run(s, []) == s;
    } else {
      var op := DrainerMove(s);
      assert DrainerEnabled(s, op);
      var t := Apply(s, ByDrainer(op));
      DrainerFinishes(t);
      CanFinishBefore(s, ByDrainer(op));
    }
  }

  function MonitorDistance(m: Monitor): nat {
    match m
    case MonitorDone => 0
    case Waiting => 1
    case Spawning => 2
    case Opening => 3
    case Dialing => 4
    case Checking => 5
    case BackingOff => 6
    case Clearing => 6
  }

  /** The drainer past GetChannel, before the monitor leaves. */
  lemma MonitorLeaves(s: State)
    requires s.closed && s.monitor.Waiting? && s.channel.Some?
    ensures CanFinish(s)
  {
    DrainerFinishes(Apply(s, ByMonitor(Stop)));
    CanFinishBefore(s, ByMonitor(Stop));
  }

  lemma {:induction false} MonitorFinishes(s: State)
    requires s.closed && Connected(s) && |s.queue| <= s.capacity && !s.monitor.MonitorDone?
    ensures CanFinish(s)
    decreases MonitorDistance(s.monitor)
  {
    if s.monitor.Waiting? {
      MonitorLeaves(s);
    } else {
      var op := match s.monitor
        case Checking => Check
        case Dialing => Dial(true)
        case Opening => Open(true)
        case Spawning => Spawn
        case Clearing => Clear
        case _ => Retry;
      StepConnected(s, ByMonitor(op));
      MonitorFinishes(Apply(s, ByMonitor(op)));
      CanFinishBefore(s, ByMonitor(op));
    }
  }

  /** Once the client is closed, Close can still return exactly when the drainer is not
      polling for a channel after the monitor has left. */
  lemma CloseReturns(s: State)
    requires Reachable(s) && s.closed
    ensures CanFinish(s) <==> !Stuck(s)
  {
    ReachableInv(s);
    if Stuck(s) {
      forall steps: seq<Step> | Schedule(s, steps) ensures !Finished(Run(s, steps)) {
        StuckForever(s, steps);
      }
    } else if s.monitor.MonitorDone? {
      DrainerFinishes(s);
    } else {
      MonitorFinishes(s);
    }
  }
}
