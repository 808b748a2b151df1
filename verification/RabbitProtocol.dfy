/**
 The store-and-forward RabbitMQ client as a transition system.

 Any number of producers (goroutines inside PublishMessageToExchange), one connection
 monitor and one cache drainer share a channel field and a bounded queue. Every read or
 write of something shared is one atomic step; what the broker, the network and
 json.Marshal answer is part of the step's label.
 */
module RabbitProtocol {
  import opened Wrappers

  /** One submission; the n-th call of PublishMessageToExchange submits message n. */
  type Msg = nat

  /** A broker channel, named by the connection that opened it. */
  type Channel = nat

  // ------------------------------------------------------------------ state

  datatype Producer =
    | Idle
    | Built(msg: Msg)                        // message built, channel field not read yet
    | Marshalling(msg: Msg, ch: Channel)
    | Publishing(msg: Msg, ch: Channel)
    | Caching(msg: Msg)                      // about to call AddToCache
    | CountingCached                         // MessagesCached.Inc is still to come
    | CountingPublished                      // MessagesPublished.Inc is still to come

  datatype Drainer =
    | NotStarted
    | Sleeping                               // in the outer select
    | Receiving                              // in the inner select
    | Encoding(msg: Msg)
    | AwaitingChannel(msg: Msg)              // inside GetChannel
    | Sending(msg: Msg, ch: Channel)
    | PuttingBack(msg: Msg)
    | CountingProcessed                      // MessagesCacheProcessed.Inc is still to come
    | CheckingLength
    | DrainerDone

  datatype Monitor = Checking | Dialing | Opening | Spawning | Waiting | Clearing | BackingOff | MonitorDone

  datatype Metrics = Metrics(cached: nat, processed: nat, published: nat)

  /** How a message ended: published by its producer or by the drainer, or dropped. */
  datatype Fate =
    | Direct          // published by a producer
    | Drained         // published from the queue
    | Refused         // dropped by AddToCache: queue full
    | Bounced         // dropped by the drainer on put-back: queue full
    | Unencodable     // dropped by a producer: json.Marshal failed
    | Spoiled         // dropped by the drainer: json.Marshal failed

  datatype Event = Event(msg: Msg, fate: Fate)

  datatype State = State(
    capacity: nat,
    channel: Option<Channel>,
    conn: Option<Channel>,
    generation: nat,
    closed: bool,
    queue: seq<Msg>,
    producers: seq<Producer>,
    drainer: Drainer,
    monitor: Monitor,
    metrics: Metrics,
    // history, for stating the results; no goroutine reads it
    submitted: nat,
    cached: seq<Msg>,         // accepted by AddToCache, in order
    log: seq<Event>           // how messages ended, in order
  )

  datatype ProducerOp = Submit | ReadChannel | Marshal(ok: bool) | Publish(ok: bool) | AddToCache | Count

  datatype DrainerOp =
    | Wake | Receive | Encode(ok: bool) | GetChannel | Send(ok: bool) | PutBack | CountProcessed | CheckLength | Exit

  datatype MonitorOp = Check | Dial(ok: bool) | Open(ok: bool) | Spawn | Lose | Clear | Retry | Stop

  datatype Step =
    | ByProducer(p: nat, pop: ProducerOp)
    | ByDrainer(dop: DrainerOp)
    | ByMonitor(mop: MonitorOp)
    | Close

  function Initial(capacity: nat, producers: nat): State {
    State(capacity, None, None, 0, false, [], seq(producers, i => Idle), NotStarted, Checking,
          Metrics(0, 0, 0), 0, [], [])
  }

  // ------------------------------------------------------------------ steps

  predicate ProducerEnabled(p: Producer, op: ProducerOp) {
    match op
    case Submit => p.Idle?
    case ReadChannel => p.Built?
    case Marshal(_) => p.Marshalling?
    case Publish(_) => p.Publishing?
    case AddToCache => p.Caching?
    case Count => p.CountingCached? || p.CountingPublished?
  }

  /** Where the producer's code goes next. */
  function ProducerNext(s: State, p: Producer, op: ProducerOp): Producer
    requires ProducerEnabled(p, op)
  {
    match op
    case Submit => Built(s.submitted)
    case ReadChannel => if s.channel.None? then Caching(p.msg) else Marshalling(p.msg, s.channel.value)
    case Marshal(ok) => if ok then Publishing(p.msg, p.ch) else Idle
    case Publish(ok) => if ok then CountingPublished else Caching(p.msg)
    case AddToCache => if |s.queue| < s.capacity then CountingCached else Idle
    case Count => Idle
  }

  function ProducerEvents(s: State, p: Producer, op: ProducerOp): seq<Event>
    requires ProducerEnabled(p, op)
  {
    match op
    case Marshal(ok) => if ok then [] else [Event(p.msg, Unencodable)]
    case Publish(ok) => if ok then [Event(p.msg, Direct)] else []
    case AddToCache => if |s.queue| < s.capacity then [] else [Event(p.msg, Refused)]
    case _ => []
  }

  /** What a producer's step appends to the queue. */
  function ProducerEnqueues(s: State, p: Producer, op: ProducerOp): seq<Msg>
    requires ProducerEnabled(p, op)
  {
    if op.AddToCache? && |s.queue| < s.capacity then [p.msg] else []
  }

  function ProducerApply(s: State, i: nat, op: ProducerOp): State
    requires i < |s.producers| && ProducerEnabled(s.producers[i], op)
  {
    var p := s.producers[i];
    s.(producers := s.producers[i := ProducerNext(s, p, op)],
       queue := s.queue + ProducerEnqueues(s, p, op),
       cached := s.cached + ProducerEnqueues(s, p, op),
       log := s.log + ProducerEvents(s, p, op),
       submitted := if op.Submit? then s.submitted + 1 else s.submitted,
       metrics := if !op.Count? then s.metrics
                  else if p.CountingCached? then s.metrics.(cached := s.metrics.cached + 1)
                  else s.metrics.(published := s.metrics.published + 1))
  }

  predicate DrainerEnabled(s: State, op: DrainerOp) {
    match op
    case Wake => s.drainer.Sleeping?
    case Receive => s.drainer.Receiving?
    case Encode(_) => s.drainer.Encoding?
    case GetChannel => s.drainer.AwaitingChannel? && s.channel.Some?
    case Send(_) => s.drainer.Sending?
    case PutBack => s.drainer.PuttingBack?
    case CountProcessed => s.drainer.CountingProcessed?
    case CheckLength => s.drainer.CheckingLength?
    case Exit => s.drainer.Sleeping? && s.closed
  }

  function DrainerNext(s: State, op: DrainerOp): Drainer
    requires DrainerEnabled(s, op)
  {
    match op
    case Wake => if s.channel.None? then Sleeping else Receiving
    case Receive => if s.queue == [] then Sleeping else Encoding(s.queue[0])
    case Encode(ok) => if ok then AwaitingChannel(s.drainer.msg) else Receiving
    case GetChannel => Sending(s.drainer.msg, s.channel.value)
    case Send(ok) => if ok then CountingProcessed else PuttingBack(s.drainer.msg)
    case PutBack => Sleeping
    case CountProcessed => CheckingLength
    case CheckLength => if s.queue == [] then Sleeping else Receiving
    case Exit => DrainerDone
  }

  function DrainerEvents(s: State, op: DrainerOp): seq<Event>
    requires DrainerEnabled(s, op)
  {
    match op
    case Encode(ok) => if ok then [] else [Event(s.drainer.msg, Spoiled)]
    case Send(ok) => if ok then [Event(s.drainer.msg, Drained)] else []
    case PutBack => if |s.queue| < s.capacity then [] else [Event(s.drainer.msg, Bounced)]
    case _ => []
  }

  function DrainerQueue(s: State, op: DrainerOp): seq<Msg>
    requires DrainerEnabled(s, op)
  {
    match op
    case Receive => if s.queue == [] then [] else s.queue[1..]
    case PutBack => if |s.queue| < s.capacity then s.queue + [s.drainer.msg] else s.queue
    case _ => s.queue
  }

  function DrainerApply(s: State, op: DrainerOp): State
    requires DrainerEnabled(s, op)
  {
    s.(drainer := DrainerNext(s, op),
       queue := DrainerQueue(s, op),
       log := s.log + DrainerEvents(s, op),
       metrics := if op.CountProcessed? then s.metrics.(processed := s.metrics.processed + 1) else s.metrics)
  }

  predicate MonitorEnabled(s: State, op: MonitorOp) {
    match op
    case Check => s.monitor.Checking?
    case Dial(_) => s.monitor.Dialing?
    case Open(_) => s.monitor.Opening?
    case Spawn => s.monitor.Spawning?
    case Lose => s.monitor.Waiting?
    case Clear => s.monitor.Clearing?
    case Retry => s.monitor.BackingOff?
    case Stop => (s.monitor.Waiting? || s.monitor.BackingOff?) && s.closed
  }

  function MonitorNext(s: State, op: MonitorOp): Monitor
    requires MonitorEnabled(s, op)
  {
    match op
    case Check => if s.channel.None? then Dialing else Waiting
    case Dial(ok) => if ok then Opening else BackingOff
    case Open(ok) => if ok then Spawning else BackingOff
    case Spawn => Waiting
    case Lose => Clearing
    case Clear => Checking
    case Retry => Checking
    case Stop => MonitorDone
  }

  function MonitorApply(s: State, op: MonitorOp): State
    requires MonitorEnabled(s, op)
  {
    s.(monitor := MonitorNext(s, op),
       generation := if op == Dial(true) then s.generation + 1 else s.generation,
       conn := if op == Dial(true) then Some(s.generation) else if op.Dial? || op.Clear? then None else s.conn,
       channel := if op == Open(true) then s.conn else if op.Open? || op.Clear? then None else s.channel,
       drainer := if op.Spawn? && s.drainer.NotStarted? then Sleeping else s.drainer)
  }

  predicate Enabled(s: State, step: Step) {
    match step
    case ByProducer(p, op) => p < |s.producers| && ProducerEnabled(s.producers[p], op)
    case ByDrainer(op) => DrainerEnabled(s, op)
    case ByMonitor(op) => MonitorEnabled(s, op)
    case Close => !s.closed
  }

  function Apply(s: State, step: Step): State
    requires Enabled(s, step)
  {
    match step
    case ByProducer(p, op) => ProducerApply(s, p, op)
    case ByDrainer(op) => DrainerApply(s, op)
    case ByMonitor(op) => MonitorApply(s, op)
    case Close => s.(closed := true)
  }

  /** A schedule the client can follow from s. */
  ghost predicate Schedule(s: State, steps: seq<Step>)
    decreases |steps|
  {
    steps == [] || (Enabled(s, steps[0]) && Schedule(Apply(s, steps[0]), steps[1..]))
  }

  function Run(s: State, steps: seq<Step>): State
    requires Schedule(s, steps)
    decreases |steps|
  {
    if steps == [] then s else Run(Apply(s, steps[0]), steps[1..])
  }

  lemma {:induction false} RunConcat(s: State, a: seq<Step>, b: seq<Step>)
    requires Schedule(s, a) && Schedule(Run(s, a), b)
    ensures Schedule(s, a + b) && Run(s, a + b) == Run(Run(s, a), b)
    decreases |a|
  {
    if a == [] {
      assert a + b == b;
    } else {
      assert (a + b)[0] == a[0] && (a + b)[1..] == a[1..] + b;
      RunConcat(Apply(s, a[0]), a[1..], b);
    }
  }

  // ------------------------------------------------------------------ counting over producers

  /** What to count: producers holding one message, holding any, or owing a metric. */
  datatype Probe = Holding(m: Msg) | HoldingAny | OwingCached | OwingPublished

  predicate Carries(p: Producer) {
    p.Built? || p.Marshalling? || p.Publishing? || p.Caching?
  }

  function Weight(p: Producer, probe: Probe): nat {
    match probe
    case Holding(m) => if Carries(p) && p.msg == m then 1 else 0
    case HoldingAny => if Carries(p) then 1 else 0
    case OwingCached => if p.CountingCached? then 1 else 0
    case OwingPublished => if p.CountingPublished? then 1 else 0
  }

  function Tally(ps: seq<Producer>, probe: Probe): nat {
    if ps == [] then 0 else Weight(ps[0], probe) + Tally(ps[1..], probe)
  }

  lemma {:induction false} TallyUpdate(ps: seq<Producer>, p: nat, x: Producer, probe: Probe)
    requires p < |ps|
    ensures Tally(ps[p := x], probe) + Weight(ps[p], probe) == Tally(ps, probe) + Weight(x, probe)
  {
    if p == 0 {
      assert ps[p := x][1..] == ps[1..];
    } else {
      assert ps[p := x][1..] == ps[1..][p - 1 := x];
      TallyUpdate(ps[1..], p - 1, x, probe);
    }
  }

  lemma {:induction false} TallyZero(ps: seq<Producer>, probe: Probe)
    requires forall i :: 0 <= i < |ps| ==> Weight(ps[i], probe) == 0
    ensures Tally(ps, probe) == 0
  {
    if ps != [] {
      TallyZero(ps[1..], probe);
    }
  }

  lemma {:induction false} TallyAtLeast(ps: seq<Producer>, p: nat, probe: Probe)
    requires p < |ps|
    ensures Weight(ps[p], probe) <= Tally(ps, probe)
  {
    if p > 0 {
      TallyAtLeast(ps[1..], p - 1, probe);
    }
  }

  // ------------------------------------------------------------------ where a message is

  predicate DrainerCarries(d: Drainer) {
    d.Encoding? || d.AwaitingChannel? || d.Sending? || d.PuttingBack?
  }

  function DrainerHand(d: Drainer): seq<Msg> {
    if DrainerCarries(d) then [d.msg] else []
  }

  function InHand(d: Drainer, m: Msg): nat {
    if DrainerCarries(d) && d.msg == m then 1 else 0
  }

  function Queued(queue: seq<Msg>, m: Msg): nat {
    if queue == [] then 0 else (if queue[0] == m then 1 else 0) + Queued(queue[1..], m)
  }

  lemma {:induction false} QueueAppend(queue: seq<Msg>, x: Msg, m: Msg)
    ensures Queued(queue + [x], m) == Queued(queue, m) + if x == m then 1 else 0
  {
    if queue == [] {
      assert queue + [x] == [x];
    } else {
      assert (queue + [x])[1..] == queue[1..] + [x];
      QueueAppend(queue[1..], x, m);
    }
  }

  /** How many times message m ended. */
  function Endings(log: seq<Event>, m: Msg): nat {
    if log == [] then 0
    else Endings(log[..|log| - 1], m) + if log[|log| - 1].msg == m then 1 else 0
  }

  /** How many messages met one fate. */
  function Times(log: seq<Event>, fate: Fate): nat {
    if log == [] then 0
    else Times(log[..|log| - 1], fate) + if log[|log| - 1].fate == fate then 1 else 0
  }

  /** How many places hold message m, with multiplicity: a producer's hand, the queue, the
      drainer's hand, published, dropped as full, dropped as not encodable. */
  function Places(s: State, m: Msg): nat {
    Tally(s.producers, Holding(m)) + Queued(s.queue, m) + InHand(s.drainer, m) + Endings(s.log, m)
  }

  function Undelivered(s: State): nat {
    Tally(s.producers, HoldingAny) + |s.queue| + |DrainerHand(s.drainer)|
  }

  function Mentions(es: seq<Event>, m: Msg): nat
    requires |es| <= 1
  {
    if es != [] && es[0].msg == m then 1 else 0
  }

  lemma LogExtend(log: seq<Event>, es: seq<Event>, m: Msg)
    requires |es| <= 1
    ensures Endings(log + es, m) == Endings(log, m) + Mentions(es, m)
  {
    if es == [] {
      assert log + es == log;
    } else {
      assert (log + es)[..|log|] == log;
    }
  }

  lemma ProducerBalance(s: State, p: Producer, op: ProducerOp, m: Msg)
    requires ProducerEnabled(p, op)
    ensures |ProducerEvents(s, p, op)| <= 1
    ensures Weight(ProducerNext(s, p, op), Holding(m)) + Queued(s.queue + ProducerEnqueues(s, p, op), m)
            + Mentions(ProducerEvents(s, p, op), m)
         == Weight(p, Holding(m)) + Queued(s.queue, m) + if op.Submit? && m == s.submitted then 1 else 0
  {
    if ProducerEnqueues(s, p, op) == [] {
      assert s.queue + ProducerEnqueues(s, p, op) == s.queue;
    } else {
      QueueAppend(s.queue, p.msg, m);
    }
  }

  lemma ProducerMoves(s: State, i: nat, op: ProducerOp, m: Msg)
    requires i < |s.producers| && ProducerEnabled(s.producers[i], op)
    ensures Places(ProducerApply(s, i, op), m) == Places(s, m) + (if op.Submit? && m == s.submitted then 1 else 0)
  {
    var p := s.producers[i];
    TallyUpdate(s.producers, i, ProducerNext(s, p, op), Holding(m));
    ProducerBalance(s, p, op, m);
    LogExtend(s.log, ProducerEvents(s, p, op), m);
  }

  lemma DrainerBalance(s: State, op: DrainerOp, m: Msg)
    requires DrainerEnabled(s, op)
    ensures |DrainerEvents(s, op)| <= 1
    ensures Queued(DrainerQueue(s, op), m) + InHand(DrainerNext(s, op), m) + Mentions(DrainerEvents(s, op), m)
         == Queued(s.queue, m) + InHand(s.drainer, m)
  {
    if op.PutBack? {
      QueueAppend(s.queue, s.drainer.msg, m);
    }
  }

  lemma DrainerMoves(s: State, op: DrainerOp, m: Msg)
    requires DrainerEnabled(s, op)
    ensures Places(DrainerApply(s, op), m) == Places(s, m)
  {
    DrainerBalance(s, op, m);
    LogExtend(s.log, DrainerEvents(s, op), m);
  }

  /** One step moves no message into a second place and lets none vanish. */
  lemma StepMoves(s: State, step: Step, m: Msg)
    requires Enabled(s, step)
    ensures Places(Apply(s, step), m)
         == Places(s, m) + (if step.ByProducer? && step.pop.Submit? && m == s.submitted then 1 else 0)
  {
    match step
    case ByProducer(p, op) => ProducerMoves(s, p, op, m);
    case ByDrainer(op) => DrainerMoves(s, op, m);
    case _ =>
  }

  // ------------------------------------------------------------------ the invariant

  ghost predicate Conserved(s: State) {
    forall m: Msg :: Places(s, m) == if m < s.submitted then 1 else 0
  }

  /** 1 while the drainer has published a message and not counted it yet. */
  function Counting(d: Drainer): nat {
    if d.CountingProcessed? then 1 else 0
  }

  predicate Counted(s: State) {
    && s.metrics.cached + Tally(s.producers, OwingCached)
       == s.metrics.processed + Counting(s.drainer) + |s.queue| + |DrainerHand(s.drainer)|
          + Times(s.log, Bounced) + Times(s.log, Spoiled)
    && s.metrics.processed + Counting(s.drainer) == Times(s.log, Drained)
    && s.metrics.published + Tally(s.producers, OwingPublished) == Times(s.log, Direct)
  }

  ghost predicate Connected(s: State) {
    && (s.channel.Some? ==> s.channel == s.conn)
    && (s.conn.Some? ==> s.conn.value < s.generation)
    && (s.monitor.Opening? ==> s.conn.Some?)
    && (s.channel.Some? ==> s.monitor.Spawning? || s.monitor.Waiting? || s.monitor.Clearing? || s.monitor.MonitorDone?)
    && (s.monitor.Spawning? || s.monitor.Waiting? || s.monitor.Clearing? ==> s.channel.Some?)
    && (s.drainer.NotStarted? ==> !s.monitor.Waiting? && !s.monitor.Clearing?)
  }

  ghost predicate Inv(s: State) {
    Conserved(s) && |s.queue| <= s.capacity && Counted(s) && Connected(s)
  }

  lemma InitialInv(capacity: nat, producers: nat)
    ensures Inv(Initial(capacity, producers))
  {
    var s := Initial(capacity, producers);
    forall m: Msg ensures Places(s, m) == 0 {
      TallyZero(s.producers, Holding(m));
    }
    TallyZero(s.producers, OwingCached);
    TallyZero(s.producers, OwingPublished);
  }

  function Meets(es: seq<Event>, fate: Fate): nat
    requires |es| <= 1
  {
    if es != [] && es[0].fate == fate then 1 else 0
  }

  lemma LogCount(log: seq<Event>, es: seq<Event>, fate: Fate)
    requires |es| <= 1
    ensures Times(log + es, fate) == Times(log, fate) + Meets(es, fate)
  {
    if es == [] {
      assert log + es == log;
    } else {
      assert (log + es)[..|log|] == log;
    }
  }

  lemma ProducerOwes(s: State, p: Producer, op: ProducerOp)
    requires ProducerEnabled(p, op)
    ensures |ProducerEvents(s, p, op)| <= 1
    ensures var q, es := ProducerNext(s, p, op), ProducerEvents(s, p, op);
      && Weight(q, OwingCached) + (if op.Count? && p.CountingCached? then 1 else 0)
         == Weight(p, OwingCached) + |ProducerEnqueues(s, p, op)|
      && Weight(q, OwingPublished) + (if op.Count? && p.CountingPublished? then 1 else 0)
         == Weight(p, OwingPublished) + Meets(es, Direct)
      && Meets(es, Drained) == Meets(es, Bounced) == Meets(es, Spoiled) == 0
  {
  }

  lemma ProducerCounted(s: State, i: nat, op: ProducerOp)
    requires Counted(s) && i < |s.producers| && ProducerEnabled(s.producers[i], op)
    ensures Counted(ProducerApply(s, i, op))
  {
    var p := s.producers[i];
    var q, es := ProducerNext(s, p, op), ProducerEvents(s, p, op);
    TallyUpdate(s.producers, i, q, OwingCached);
    TallyUpdate(s.producers, i, q, OwingPublished);
    ProducerOwes(s, p, op);
    LogCount(s.log, es, Drained);
    LogCount(s.log, es, Bounced);
    LogCount(s.log, es, Spoiled);
    LogCount(s.log, es, Direct);
  }

  lemma DrainerOwes(s: State, op: DrainerOp)
    requires DrainerEnabled(s, op)
    ensures |DrainerEvents(s, op)| <= 1
    ensures var es := DrainerEvents(s, op);
      && Meets(es, Drained) + Counting(s.drainer)
         == Counting(DrainerNext(s, op)) + (if op.CountProcessed? then 1 else 0)
      && |s.queue| + |DrainerHand(s.drainer)|
         == |DrainerQueue(s, op)| + |DrainerHand(DrainerNext(s, op))|
            + Meets(es, Drained) + Meets(es, Bounced) + Meets(es, Spoiled)
      && Meets(es, Direct) == 0
  {
  }

  lemma DrainerCounted(s: State, op: DrainerOp)
    requires Counted(s) && DrainerEnabled(s, op)
    ensures Counted(DrainerApply(s, op))
  {
    var es := DrainerEvents(s, op);
    DrainerOwes(s, op);
    LogCount(s.log, es, Drained);
    LogCount(s.log, es, Bounced);
    LogCount(s.log, es, Spoiled);
    LogCount(s.log, es, Direct);
  }

  lemma StepCounted(s: State, step: Step)
    requires Counted(s) && Enabled(s, step)
    ensures Counted(Apply(s, step))
  {
    match step
    case ByProducer(i, op) => ProducerCounted(s, i, op);
    case ByDrainer(op) => DrainerCounted(s, op);
    case _ =>
  }

  lemma StepConnected(s: State, step: Step)
    requires Connected(s) && |s.queue| <= s.capacity && Enabled(s, step)
    ensures Connected(Apply(s, step)) && |Apply(s, step).queue| <= Apply(s, step).capacity
  {
  }

  lemma StepInv(s: State, step: Step)
    requires Inv(s) && Enabled(s, step)
    ensures Inv(Apply(s, step))
  {
    forall m: Msg ensures Places(Apply(s, step), m) == if m < Apply(s, step).submitted then 1 else 0 {
      StepMoves(s, step, m);
    }
    StepCounted(s, step);
    StepConnected(s, step);
  }

  lemma {:induction false} RunInv(s: State, steps: seq<Step>)
    requires Inv(s) && Schedule(s, steps)
    ensures Inv(Run(s, steps))
    decreases |steps|
  {
    if steps != [] {
      StepInv(s, steps[0]);
      RunInv(Apply(s, steps[0]), steps[1..]);
    }
  }
}
