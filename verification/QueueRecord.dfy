/**
 What a dispatching to a queue records, and what really became of the message: the record looks
 only at whether the channel is there once the call returns.
 */
module QueueRecord {
  import opened Wrappers
  import opened RabbitProtocol
  import RabbitTheorems
  import Fanout

  /** Delivered, by the producer or from the queue. */
  predicate Published(log: seq<Event>, m: Msg) {
    Event(m, Direct) in log || Event(m, Drained) in log
  }

  /** A step that takes the channel away or fails to open one. */
  predicate Downs(step: Step) {
    step == ByMonitor(Open(false)) || step == ByMonitor(Clear)
  }

  /** Up from the start and never taken away, or opened and not taken away after that. */
  predicate StaysUp(up: bool, steps: seq<Step>) {
    || (up && forall j :: 0 <= j < |steps| ==> !Downs(steps[j]))
    || exists i :: 0 <= i < |steps| && steps[i] == ByMonitor(Open(true))
                   && forall j :: i < j < |steps| ==> !Downs(steps[j])
  }

  /** The drainer publishes message m during the schedule. */
  ghost predicate Drains(s: State, steps: seq<Step>, m: Msg)
    requires Schedule(s, steps)
    decreases |steps|
  {
    steps != [] &&
    ((steps[0] == ByDrainer(Send(true)) && s.drainer.msg == m) || Drains(Apply(s, steps[0]), steps[1..], m))
  }

  /** One call of producer p, from its submission until it is idle again, with everything the others
      do in between. */
  ghost predicate Attempt(s: State, p: nat, steps: seq<Step>) {
    && p < |s.producers| && steps != [] && steps[0] == ByProducer(p, Submit) && Schedule(s, steps)
    && (forall i :: 0 < i < |steps| ==> steps[i] != ByProducer(p, Submit))
    && p < |Run(s, steps).producers| && Run(s, steps).producers[p].Idle?
  }

  // ------------------------------------------------------------------ the channel

  predicate After(up: bool, step: Step) {
    if Downs(step) then false else up || step == ByMonitor(Open(true))
  }

  lemma StaysUpNext(up: bool, steps: seq<Step>)
    requires steps != []
    ensures StaysUp(up, steps) <==> StaysUp(After(up, steps[0]), steps[1..])
  {
    var rest := steps[1..];
    assert forall j :: 0 <= j < |rest| ==> rest[j] == steps[j + 1];
    if StaysUp(up, steps) {
      if i :| && 0 <= i < |steps| && steps[i] == ByMonitor(Open(true))
              && forall j :: i < j < |steps| ==> !Downs(steps[j]) {
        if i > 0 {
          assert rest[i - 1] == ByMonitor(Open(true));
        }
      }
    }
    if StaysUp(After(up, steps[0]), rest) {
      if i :| 0 <= i < |rest| && rest[i] == ByMonitor(Open(true)) && forall j :: i < j < |rest| ==> !Downs(rest[j]) {
        assert steps[i + 1] == ByMonitor(Open(true));
        assert forall j :: i + 1 < j < |steps| ==> steps[j] == rest[j - 1];
      } else {
        assert forall j :: 0 < j < |steps| ==> steps[j] == rest[j - 1];
      }
    }
  }

  lemma {:induction false} ChannelAt(s: State, steps: seq<Step>)
    requires Inv(s) && Schedule(s, steps)
    ensures Run(s, steps).channel.Some? <==> StaysUp(s.channel.Some?, steps)
    decreases |steps|
  {
    if steps != [] {
      StepInv(s, steps[0]);
      assert Apply(s, steps[0]).channel.Some? == After(s.channel.Some?, steps[0]);
      StaysUpNext(s.channel.Some?, steps);
      ChannelAt(Apply(s, steps[0]), steps[1..]);
    }
  }

  // ------------------------------------------------------------------ the message

  /** No producer but p holds m, and p holds nothing else. */
  predicate Sole(s: State, p: nat, m: Msg) {
    && p < |s.producers| && m < s.submitted
    && (forall q :: 0 <= q < |s.producers| && Carries(s.producers[q]) && s.producers[q].msg == m ==> q == p)
    && (Carries(s.producers[p]) ==> s.producers[p].msg == m)
  }

  lemma SoleStep(s: State, p: nat, m: Msg, step: Step)
    requires Sole(s, p, m) && Enabled(s, step) && step != ByProducer(p, Submit)
    ensures Sole(Apply(s, step), p, m)
    ensures Event(m, Direct) in Apply(s, step).log
            <==> Event(m, Direct) in s.log || step == ByProducer(p, Publish(true))
  {
    match step
    case ByProducer(q, op) =>
      var es := ProducerEvents(s, s.producers[q], op);
      assert op == Publish(true) ==> es == [Event(s.producers[q].msg, Direct)];
    case ByDrainer(op) =>
      var es := DrainerEvents(s, op);
      assert Event(m, Direct) !in es;
    case _ =>
  }

  lemma {:induction false} DirectExactly(s: State, p: nat, m: Msg, steps: seq<Step>)
    requires Sole(s, p, m) && Schedule(s, steps) && ByProducer(p, Submit) !in steps
    ensures Event(m, Direct) in Run(s, steps).log
            <==> Event(m, Direct) in s.log || ByProducer(p, Publish(true)) in steps
    decreases |steps|
  {
    if steps != [] {
      assert steps == [steps[0]] + steps[1..];
      SoleStep(s, p, m, steps[0]);
      DirectExactly(Apply(s, steps[0]), p, m, steps[1..]);
    }
  }

  lemma DrainStep(s: State, m: Msg, step: Step)
    requires Enabled(s, step)
    ensures Event(m, Drained) in Apply(s, step).log
            <==> Event(m, Drained) in s.log || (step == ByDrainer(Send(true)) && s.drainer.msg == m)
  {
    match step
    case ByProducer(q, op) =>
      var es := ProducerEvents(s, s.producers[q], op);
      assert Event(m, Drained) !in es;
    case ByDrainer(op) =>
      var es := DrainerEvents(s, op);
      assert op == Send(true) ==> es == [Event(s.drainer.msg, Drained)];
    case _ =>
  }

  lemma {:induction false} DrainedExactly(s: State, m: Msg, steps: seq<Step>)
    requires Schedule(s, steps)
    ensures Event(m, Drained) in Run(s, steps).log <==> Event(m, Drained) in s.log || Drains(s, steps, m)
    decreases |steps|
  {
    if steps != [] {
      DrainStep(s, m, steps[0]);
      DrainedExactly(Apply(s, steps[0]), m, steps[1..]);
    }
  }

  lemma {:induction false} NeverEnded(log: seq<Event>, m: Msg, fate: Fate)
    requires Endings(log, m) == 0
    ensures Event(m, fate) !in log
  {
    if log != [] {
      NeverEnded(log[..|log| - 1], m, fate);
      assert log == log[..|log| - 1] + [log[|log| - 1]];
    }
  }

  /** A message just submitted is with its producer alone and has not ended before. */
  lemma Submitted(s: State, p: nat)
    requires Inv(s) && p < |s.producers| && s.producers[p].Idle?
    ensures var m := s.submitted; Sole(Apply(s, ByProducer(p, Submit)), p, m) && !Published(s.log, m)
  {
    var m := s.submitted;
    assert Places(s, m) == 0;
    NeverEnded(s.log, m, Direct);
    NeverEnded(s.log, m, Drained);
    forall q | 0 <= q < |s.producers| ensures !(Carries(s.producers[q]) && s.producers[q].msg == m) {
      TallyAtLeast(s.producers, q, Holding(m));
    }
  }

  /** In every interleaving of one call: the message is published exactly when the call's own publish
      succeeds or the drainer has already published it from the queue; a success is recorded exactly
      when the channel is up at the end. So the record is right exactly when both happen or neither. */
  lemma RecordExactly(s: State, p: nat, steps: seq<Step>)
    requires RabbitTheorems.Reachable(s) && Attempt(s, p, steps)
    ensures var t, m := Run(s, steps), s.submitted;
      var delivered := ByProducer(p, Publish(true)) in steps || Drains(s, steps, m);
      && (Published(t.log, m) <==> delivered)
      && (Fanout.QueueAnswer(t).Positive? <==> StaysUp(s.channel.Some?, steps))
      && ((Fanout.QueueAnswer(t).Positive? <==> Published(t.log, m))
          <==> (StaysUp(s.channel.Some?, steps) <==> delivered))
  {
    RabbitTheorems.ReachableInv(s);
    var m := s.submitted;
    Submitted(s, p);
    var s1, rest := Apply(s, steps[0]), steps[1..];
    assert steps == [steps[0]] + rest;
    assert ByProducer(p, Submit) !in rest by {
      forall i | 0 <= i < |rest| ensures rest[i] != ByProducer(p, Submit) {
        assert rest[i] == steps[i + 1];
      }
    }
    assert s1.log == s.log;
    DirectExactly(s1, p, m, rest);
    DrainedExactly(s, m, steps);
    ChannelAt(s, steps);
  }
}
