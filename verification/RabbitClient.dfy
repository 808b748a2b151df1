/**
 The client's own code, in the form the goroutines run it: a channel field, a bounded queue
 and metrics, changed in place. Every method is shown to be a schedule of the protocol's
 atomic steps, for any answers of the broker and of json.Marshal; what holds in every
 interleaving is stated about that protocol.
 */
module RabbitClient {
  import opened Wrappers
  import opened RabbitProtocol
  import opened RabbitTheorems

  /** t can be reached from s by steps of the protocol. */
  ghost predicate Leads(s: State, t: State) {
    exists steps: seq<Step> :: Schedule(s, steps) && Run(s, steps) == t
  }

  lemma LeadsNowhere(s: State)
    ensures Leads(s, s)
  {
    assert Schedule(s, []) && Run(s, []) == s;
  }

  lemma LeadsStep(s: State, t: State, step: Step)
    requires Leads(s, t) && Enabled(t, step)
    ensures Leads(s, Apply(t, step))
  {
    var steps: seq<Step> :| Schedule(s, steps) && Run(s, steps) == t;
    OneStep(t, step);
    RunConcat(s, steps, [step]);
  }

  /** How one call of PublishMessageToExchange ends. */
  datatype Outcome = Published | Cached | Dropped(full: bool)

  /** What became of one cached message: dropped as not encodable, published, or put back. */
  datatype Attempt = Skipped | Sent | Returned

  class RabbitMQClient {
    const maxCacheSize: nat
    var channel: Option<Channel>
    var messageCache: seq<Msg>
    var messagesCached: nat
    var messagesCacheProcessed: nat
    var messagesPublished: nat
    ghost var model: State

    ghost predicate Valid()
      reads this
    {
      && model.capacity == maxCacheSize
      && model.channel == channel
      && model.queue == messageCache
      && model.metrics == Metrics(messagesCached, messagesCacheProcessed, messagesPublished)
    }

    constructor (maxCacheSize: nat, ghost producers: nat)
      ensures Valid() && model == Initial(maxCacheSize, producers) && this.maxCacheSize == maxCacheSize
    {
      this.maxCacheSize := maxCacheSize;
      channel, messageCache := None, [];
      messagesCached, messagesCacheProcessed, messagesPublished := 0, 0, 0;
      model := Initial(maxCacheSize, producers);
    }

    /** Follow in the protocol what the code has just done. */
    ghost method Simulate(s: State, step: Step)
      requires Leads(s, model) && Enabled(model, step)
      modifies this`model
      ensures model == Apply(old(model), step) && Leads(s, model)
    {
      LeadsStep(s, model, step);
      model := Apply(model, step);
    }

    method AddToCache(msg: Msg, ghost p: nat, ghost start: State) returns (ok: bool)
      requires Valid() && Leads(start, model)
      requires p < |model.producers| && model.producers[p] == Caching(msg)
      modifies this`messageCache, this`model
      ensures Valid() && Leads(start, model)
      ensures model == Apply(old(model), ByProducer(p, RabbitProtocol.AddToCache))
      ensures ok <==> |old(messageCache)| < maxCacheSize
      ensures messageCache == if ok then old(messageCache) + [msg] else old(messageCache)
    {
      ok := |messageCache| < maxCacheSize;
      if ok {
        messageCache := messageCache + [msg];
      }
      Simulate(start, ByProducer(p, RabbitProtocol.AddToCache));
    }

    /** Cache the message and count it, or drop it. */
    method CacheOrDrop(msg: Msg, ghost p: nat, ghost start: State) returns (outcome: Outcome)
      requires Valid() && Leads(start, model)
      requires p < |model.producers| && model.producers[p] == Caching(msg)
      modifies this`messageCache, this`messagesCached, this`model
      ensures Valid() && Leads(start, model) && |model.producers| == old(|model.producers|)
      ensures model.producers[p] == Idle
      ensures outcome == if |old(messageCache)| < maxCacheSize then Cached else Dropped(true)
      ensures messageCache == old(messageCache) + if outcome.Cached? then [msg] else []
      ensures messagesCached == old(messagesCached) + if outcome.Cached? then 1 else 0
    {
      var ok := AddToCache(msg, p, start);
      if ok {
        messagesCached := messagesCached + 1;
        Simulate(start, ByProducer(p, Count));
        outcome := Cached;
      } else {
        outcome := Dropped(true);
      }
    }

    /** The part after a live channel has been read. */
    method MarshalAndPublish(msg: Msg, marshalOk: bool, publishOk: bool, ghost p: nat, ghost start: State)
      returns (outcome: Outcome)
      requires Valid() && Leads(start, model)
      requires p < |model.producers| && model.producers[p].Marshalling? && model.producers[p].msg == msg
      modifies this`messageCache, this`messagesCached, this`messagesPublished, this`model
      ensures Valid() && Leads(start, model) && |model.producers| == old(|model.producers|)
      ensures model.producers[p] == Idle
      ensures outcome == if !marshalOk then Dropped(false) else if publishOk then Published
                         else if |old(messageCache)| < maxCacheSize then Cached else Dropped(true)
      ensures messageCache == old(messageCache) + if outcome.Cached? then [msg] else []
      ensures messagesCached == old(messagesCached) + if outcome.Cached? then 1 else 0
      ensures messagesPublished == old(messagesPublished) + if outcome.Published? then 1 else 0
    {
      Simulate(start, ByProducer(p, Marshal(marshalOk)));
      if !marshalOk {
        return Dropped(false);
      }
      Simulate(start, ByProducer(p, Publish(publishOk)));
      if publishOk {
        messagesPublished := messagesPublished + 1;
        Simulate(start, ByProducer(p, Count));
        return Published;
      }
      outcome := CacheOrDrop(msg, p, start);
    }

    /** marshalOk and publishOk are what json.Marshal and the broker would answer. */
    method PublishMessageToExchange(msg: Msg, marshalOk: bool, publishOk: bool, ghost p: nat) returns (outcome: Outcome)
      requires Valid() && p < |model.producers| && model.producers[p].Idle? && msg == model.submitted
      modifies this`messageCache, this`messagesCached, this`messagesPublished, this`model
      ensures Valid() && Leads(old(model), model) && |model.producers| == old(|model.producers|)
      ensures model.producers[p] == Idle
      ensures outcome == if channel.Some? && !marshalOk then Dropped(false)
                         else if channel.Some? && publishOk then Published
                         else if |old(messageCache)| < maxCacheSize then Cached else Dropped(true)
      ensures messageCache == old(messageCache) + if outcome.Cached? then [msg] else []
      ensures messagesCached == old(messagesCached) + if outcome.Cached? then 1 else 0
      ensures messagesPublished == old(messagesPublished) + if outcome.Published? then 1 else 0
      ensures (channel.Some? <==> outcome.Published?) <==> old(channel).None? || (marshalOk && publishOk)
    {
      ghost var start := model;
      LeadsNowhere(start);
      Simulate(start, ByProducer(p, Submit));
      var ch := channel;
      Simulate(start, ByProducer(p, ReadChannel));
      if ch.None? {
        outcome := CacheOrDrop(msg, p, start);
      } else {
        outcome := MarshalAndPublish(msg, marshalOk, publishOk, p, start);
      }
    }

    /** Take the first cached message and try to publish it. */
    method PublishCached(encodeOk: bool, sendOk: bool, ghost start: State) returns (fate: Attempt)
      requires Valid() && Leads(start, model) && model.drainer.Receiving? && channel.Some? && messageCache != []
      modifies this`messageCache, this`messagesCacheProcessed, this`model
      ensures Valid() && Leads(start, model)
      ensures fate == if !encodeOk then Skipped else if sendOk then Sent else Returned
      ensures model.drainer == if fate.Returned? || (fate.Sent? && messageCache == []) then Sleeping else Receiving
      ensures messagesCacheProcessed == old(messagesCacheProcessed) + if fate.Sent? then 1 else 0
      ensures messageCache == old(messageCache)[1..]
                              + if fate.Returned? && |old(messageCache)| - 1 < maxCacheSize
                                then [old(messageCache)[0]] else []
    {
      var msg := messageCache[0];
      messageCache := messageCache[1..];
      Simulate(start, ByDrainer(Receive));
      Simulate(start, ByDrainer(Encode(encodeOk)));
      if !encodeOk {
        return Skipped;
      }
      fate := SendCached(msg, sendOk, start);
    }

    method SendCached(msg: Msg, sendOk: bool, ghost start: State) returns (fate: Attempt)
      requires Valid() && Leads(start, model) && model.drainer == AwaitingChannel(msg) && channel.Some?
      modifies this`messageCache, this`messagesCacheProcessed, this`model
      ensures Valid() && Leads(start, model)
      ensures fate == if sendOk then Sent else Returned
      ensures model.drainer == if fate.Returned? || messageCache == [] then Sleeping else Receiving
      ensures messagesCacheProcessed == old(messagesCacheProcessed) + if fate.Sent? then 1 else 0
      ensures messageCache == old(messageCache)
                              + if fate.Returned? && |old(messageCache)| < maxCacheSize then [msg] else []
    {
      Simulate(start, ByDrainer(GetChannel));
      Simulate(start, ByDrainer(Send(sendOk)));
      if sendOk {
        messagesCacheProcessed := messagesCacheProcessed + 1;
        Simulate(start, ByDrainer(CountProcessed));
        Simulate(start, ByDrainer(CheckLength));
        return Sent;
      }
      if |messageCache| < maxCacheSize {
        messageCache := messageCache + [msg];
      }
      Simulate(start, ByDrainer(PutBack));
      fate := Returned;
    }

    /** One burst of processCache, from the first receive until it goes back to sleep. */
    method ProcessCache(encodeOk: nat -> bool, sendOk: nat -> bool)
      requires Valid() && model.drainer.Receiving? && channel.Some?
      modifies this`messageCache, this`messagesCacheProcessed, this`model
      ensures Valid() && Leads(old(model), model) && model.drainer.Sleeping?
      ensures messageCache == Burst(old(messageCache), maxCacheSize, 0, encodeOk, sendOk).left
      ensures messagesCacheProcessed
           == old(messagesCacheProcessed) + Burst(old(messageCache), maxCacheSize, 0, encodeOk, sendOk).processed
    {
      ghost var start := model;
      LeadsNowhere(start);
      var k := 0;
      while messageCache != []
        invariant Valid() && Leads(start, model) && model.drainer.Receiving?
        invariant Burst(old(messageCache), maxCacheSize, 0, encodeOk, sendOk)
               == Burst(messageCache, maxCacheSize, k, encodeOk, sendOk)
                    .Plus(messagesCacheProcessed - old(messagesCacheProcessed))
        decreases |messageCache|
      {
        ghost var before := messageCache;
        var fate := PublishCached(encodeOk(k), sendOk(k), start);
        assert fate.Returned? || messageCache == before[1..];
        if fate.Returned? || (fate.Sent? && messageCache == []) {
          return;
        }
        k := k + 1;
      }
      Simulate(start, ByDrainer(Receive));
    }
  }

  /** What a burst over a queue leaves behind and how many messages it publishes. */
  datatype BurstResult = BurstResult(left: seq<Msg>, processed: int) {
    function Plus(n: int): BurstResult {
      this.(processed := processed + n)
    }
  }

  function Burst(queue: seq<Msg>, capacity: nat, k: nat, encodeOk: nat -> bool, sendOk: nat -> bool): BurstResult {
    if queue == [] then BurstResult([], 0)
    else if !encodeOk(k) then Burst(queue[1..], capacity, k + 1, encodeOk, sendOk)
    else if !sendOk(k) then BurstResult(queue[1..] + if |queue| - 1 < capacity then [queue[0]] else [], 0)
    else Burst(queue[1..], capacity, k + 1, encodeOk, sendOk).Plus(1)
  }

  /** How many of the next n messages can be encoded. */
  function Encodable(k: nat, n: nat, encodeOk: nat -> bool): nat
    decreases n
  {
    if n == 0 then 0 else (if encodeOk(k) then 1 else 0) + Encodable(k + 1, n - 1, encodeOk)
  }

  /** A burst publishes every message that can be encoded and drops the others, up to the first
      publish that fails; that message moves behind the ones after it. */
  lemma {:induction false} BurstUntilFailure(queue: seq<Msg>, capacity: nat, k: nat, encodeOk: nat -> bool,
                                             sendOk: nat -> bool, n: nat)
    requires n <= |queue| <= capacity
    requires forall i :: k <= i < k + n ==> encodeOk(i) ==> sendOk(i)
    requires n < |queue| ==> encodeOk(k + n) && !sendOk(k + n)
    ensures Burst(queue, capacity, k, encodeOk, sendOk)
         == BurstResult(if n == |queue| then [] else queue[n + 1..] + [queue[n]], Encodable(k, n, encodeOk))
    decreases n
  {
    if n > 0 {
      BurstUntilFailure(queue[1..], capacity, k + 1, encodeOk, sendOk, n - 1);
    }
  }
}
