/**
 The manager together with the clients it makes: a close goes on for as long as the client's own
 goroutines need, under the manager's write lock, and may never end.
 */
module ManagerWithClients {
  import opened Wrappers
  import Manager = ClientManager
  import Client = RabbitProtocol
  import RabbitTheorems

  /** The manager asks for a queue without limit, which is one of this capacity. */
  const UNLIMITED := 100000

  /** clients[c] is the state of the c-th client made. */
  datatype State = State(manager: Manager.State, clients: seq<Client.State>)

  datatype Step = OfManager(step: Manager.Step) | OfClient(c: nat, own: Client.Step)

  /** The lock holder has called Close of this client. */
  predicate BeingClosed(m: Manager.State, c: nat) {
    m.lock.Some? && m.lock.value < |m.phases|
    && m.phases[m.lock.value].Closing? && m.phases[m.lock.value].client == c
  }

  /** A client is told to close only by its Close, and a Close returns only when the client is done. */
  predicate Enabled(s: State, step: Step) {
    match step
    case OfManager(step) =>
      && Manager.Enabled(s.manager, step)
      && (step.op.Delete? ==> var c := s.manager.phases[step.p].client;
                              c < |s.clients| && RabbitTheorems.Finished(s.clients[c]))
    case OfClient(c, own) =>
      c < |s.clients| && Client.Enabled(s.clients[c], own) && (own.Close? ==> BeingClosed(s.manager, c))
  }

  /** producers: how many goroutines publish through each client. */
  function Apply(s: State, step: Step, producers: nat): State
    requires Enabled(s, step)
  {
    match step
    case OfManager(step) =>
      var m := Manager.Apply(s.manager, step);
      State(m, if |m.keys| > |s.manager.keys| then s.clients + [Client.Initial(UNLIMITED, producers)] else s.clients)
    case OfClient(c, own) => s.(clients := s.clients[c := Client.Apply(s.clients[c], own)])
  }

  ghost predicate Schedule(s: State, steps: seq<Step>, producers: nat)
    decreases |steps|
  {
    steps == [] || (Enabled(s, steps[0]) && Schedule(Apply(s, steps[0], producers), steps[1..], producers))
  }

  ghost function Run(s: State, steps: seq<Step>, producers: nat): State
    requires Schedule(s, steps, producers)
    decreases |steps|
  {
    if steps == [] then s else Run(Apply(s, steps[0], producers), steps[1..], producers)
  }

  function Initial(goroutines: nat): State {
    State(Manager.Initial(goroutines), [])
  }

  ghost predicate Reachable(s: State, goroutines: nat, producers: nat) {
    exists steps: seq<Step> ::
      Schedule(Initial(goroutines), steps, producers) && s == Run(Initial(goroutines), steps, producers)
  }

  // ------------------------------------------------------------------ what every run keeps

  /** The manager's own invariant, and every client in a state that client can reach. */
  ghost predicate Inv(s: State) {
    && Manager.Inv(s.manager) && |s.clients| == |s.manager.keys|
    && forall c :: 0 <= c < |s.clients| ==> RabbitTheorems.Reachable(s.clients[c])
  }

  lemma FreshClient(producers: nat)
    ensures RabbitTheorems.Reachable(Client.Initial(UNLIMITED, producers))
  {
    var s := Client.Initial(UNLIMITED, producers);
    assert Client.Schedule(s, []) && Client.Run(s, []) == s;
  }

  lemma StepInv(s: State, step: Step, producers: nat)
    requires Inv(s) && Enabled(s, step)
    ensures Inv(Apply(s, step, producers))
  {
    match step
    case OfManager(step) =>
      Manager.StepInv(s.manager, step);
      FreshClient(producers);
    case OfClient(c, own) => RabbitTheorems.ReachableStep(s.clients[c], own);
  }

  lemma {:induction false} RunInv(s: State, steps: seq<Step>, producers: nat)
    requires Inv(s) && Schedule(s, steps, producers)
    ensures Inv(Run(s, steps, producers))
    decreases |steps|
  {
    if steps != [] {
      StepInv(s, steps[0], producers);
      RunInv(Apply(s, steps[0], producers), steps[1..], producers);
    }
  }

  lemma ReachableInv(s: State, goroutines: nat, producers: nat)
    requires Reachable(s, goroutines, producers)
    ensures Inv(s)
  {
    var steps: seq<Step> :|
      Schedule(Initial(goroutines), steps, producers) && s == Run(Initial(goroutines), steps, producers);
    Manager.InitialInv(goroutines);
    RunInv(Initial(goroutines), steps, producers);
  }

  // ------------------------------------------------------------------ a close in progress

  /** The only get that needs no lock. */
  predicate IsEmptyGet(step: Step) {
    step.OfManager? && step.step.op == Manager.Lookup("")
  }

  /** While a Close runs, the manager can do nothing else but answer gets of the empty string. */
  lemma CloseHoldsTheLock(s: State, c: nat, step: Manager.Step)
    requires Inv(s) && BeingClosed(s.manager, c) && Enabled(s, OfManager(step))
    ensures step.op == Manager.Lookup("") || (step.op.Delete? && step.p == s.manager.lock.value)
    ensures step.op.Delete? ==> c < |s.clients| && RabbitTheorems.Finished(s.clients[c])
  {
    if Manager.HasLock(s.manager.phases[step.p]) {
      assert s.manager.lock == Some(step.p);
    }
  }

  /** Every manager step of every schedule from here is a get of the empty string. */
  ghost predicate Blocked(s: State, producers: nat) {
    forall steps: seq<Step>, i: nat ::
      Schedule(s, steps, producers) && i < |steps| && steps[i].OfManager? ==> IsEmptyGet(steps[i])
  }

  lemma StuckStep(s: State, c: nat, step: Step, producers: nat)
    requires Inv(s) && BeingClosed(s.manager, c) && c < |s.clients| && RabbitTheorems.Stuck(s.clients[c])
    requires Enabled(s, step)
    ensures step.OfManager? ==> IsEmptyGet(step)
    ensures var t := Apply(s, step, producers);
      Inv(t) && BeingClosed(t.manager, c) && c < |t.clients| && RabbitTheorems.Stuck(t.clients[c])
  {
    StepInv(s, step, producers);
    match step
    case OfManager(step) => CloseHoldsTheLock(s, c, step);
    case OfClient(d, own) =>
      if d == c {
        StuckOne(s.clients[c], own);
      }
  }

  lemma StuckOne(s: Client.State, own: Client.Step)
    requires RabbitTheorems.Stuck(s) && Client.Enabled(s, own)
    ensures RabbitTheorems.Stuck(Client.Apply(s, own))
  {
    RabbitTheorems.OneStep(s, own);
    RabbitTheorems.StuckForever(s, [own]);
  }

  lemma {:induction false} StuckBlocks(s: State, c: nat, steps: seq<Step>, i: nat, producers: nat)
    requires Inv(s) && BeingClosed(s.manager, c) && c < |s.clients| && RabbitTheorems.Stuck(s.clients[c])
    requires Schedule(s, steps, producers) && i < |steps| && steps[i].OfManager?
    ensures IsEmptyGet(steps[i])
    decreases |steps|
  {
    StuckStep(s, c, steps[0], producers);
    if i > 0 {
      StuckBlocks(Apply(s, steps[0], producers), c, steps[1..], i - 1, producers);
    }
  }

  // ------------------------------------------------------------------ a client running by itself

  /** Steps of one client as steps of the whole. */
  function Lifted(c: nat, own: seq<Client.Step>): (steps: seq<Step>)
    ensures |steps| == |own| && forall i :: 0 <= i < |own| ==> steps[i] == OfClient(c, own[i])
  {
    seq(|own|, i requires 0 <= i < |own| => OfClient(c, own[i]))
  }

  lemma {:induction false} LiftRun(s: State, c: nat, own: seq<Client.Step>, producers: nat)
    requires c < |s.clients| && Client.Schedule(s.clients[c], own)
    requires BeingClosed(s.manager, c) || forall i :: 0 <= i < |own| ==> !own[i].Close?
    ensures Schedule(s, Lifted(c, own), producers)
    ensures Run(s, Lifted(c, own), producers) == s.(clients := s.clients[c := Client.Run(s.clients[c], own)])
    decreases |own|
  {
    if own == [] {
      assert s.clients[c := s.clients[c]] == s.clients;
    } else {
      var t := s.(clients := s.clients[c := Client.Apply(s.clients[c], own[0])]);
      LiftRun(t, c, own[1..], producers);
      assert Lifted(c, own)[1..] == Lifted(c, own[1..]);
    }
  }

  /** A client that is not stuck can be run until its Close returns. */
  lemma NotStuckFinishes(s: State, c: nat, producers: nat) returns (own: seq<Client.Step>)
    requires Inv(s) && BeingClosed(s.manager, c) && c < |s.clients| && !RabbitTheorems.Stuck(s.clients[c])
    ensures Client.Schedule(s.clients[c], own) && RabbitTheorems.Finished(Client.Run(s.clients[c], own))
  {
    var client := s.clients[c];
    if client.closed {
      RabbitTheorems.CloseReturns(client);
      own :| Client.Schedule(client, own) && RabbitTheorems.Finished(Client.Run(client, own));
    } else {
      var closed := Client.Apply(client, Client.Close);
      RabbitTheorems.ReachableStep(client, Client.Close);
      RabbitTheorems.NotStuckBeforeClose(client);
      RabbitTheorems.CloseReturns(closed);
      var rest: seq<Client.Step> :| Client.Schedule(closed, rest) && RabbitTheorems.Finished(Client.Run(closed, rest));
      own := [Client.Close] + rest;
      assert own[0] == Client.Close && own[1..] == rest;
    }
  }

  lemma LastStep(s: State, steps: seq<Step>, last: Step, producers: nat)
    requires Schedule(s, steps, producers) && Enabled(Run(s, steps, producers), last)
    ensures Schedule(s, steps + [last], producers)
    ensures Run(s, steps + [last], producers) == Apply(Run(s, steps, producers), last, producers)
    decreases |steps|
  {
    if steps == [] {
      assert steps + [last] == [last] && [last][1..] == [];
      assert Schedule(Apply(s, last, producers), [], producers);
    } else {
      assert (steps + [last])[1..] == steps[1..] + [last];
      LastStep(Apply(s, steps[0], producers), steps[1..], last, producers);
    }
  }

  /** A close in progress, of one client or of all: nothing but gets of the empty string is ever
      answered again exactly when the client being closed is stuck. Until then it can still finish. */
  lemma StuckCloseBlocksAll(s: State, c: nat, goroutines: nat, producers: nat)
    requires Reachable(s, goroutines, producers) && BeingClosed(s.manager, c)
    ensures c < |s.clients|
    ensures Blocked(s, producers) <==> RabbitTheorems.Stuck(s.clients[c])
  {
    ReachableInv(s, goroutines, producers);
    assert c in s.manager.closes;
    if RabbitTheorems.Stuck(s.clients[c]) {
      forall steps: seq<Step>, i: nat | Schedule(s, steps, producers) && i < |steps| && steps[i].OfManager?
        ensures IsEmptyGet(steps[i])
      {
        StuckBlocks(s, c, steps, i, producers);
      }
    } else {
      var own := NotStuckFinishes(s, c, producers);
      LiftRun(s, c, own, producers);
      var last := OfManager(Manager.Step(s.manager.lock.value, Manager.Delete));
      LastStep(s, Lifted(c, own), last, producers);
      var steps := Lifted(c, own) + [last];
      assert steps[|own|] == last && !IsEmptyGet(last);
    }
  }

  // ------------------------------------------------------------------ and it happens

  lemma ReachableStep(s: State, step: Step, goroutines: nat, producers: nat)
    requires Reachable(s, goroutines, producers) && Enabled(s, step)
    ensures Reachable(Apply(s, step, producers), goroutines, producers)
  {
    var steps: seq<Step> :|
      Schedule(Initial(goroutines), steps, producers) && s == Run(Initial(goroutines), steps, producers);
    LastStep(Initial(goroutines), steps, step, producers);
  }

  lemma {:induction false} ReachableOwn(s: State, c: nat, own: seq<Client.Step>, goroutines: nat, producers: nat)
    requires Reachable(s, goroutines, producers) && c < |s.clients| && Client.Schedule(s.clients[c], own)
    requires BeingClosed(s.manager, c) || forall i :: 0 <= i < |own| ==> !own[i].Close?
    ensures Reachable(s.(clients := s.clients[c := Client.Run(s.clients[c], own)]), goroutines, producers)
    decreases |own|
  {
    if own == [] {
      assert s.clients[c := s.clients[c]] == s.clients;
    } else {
      ReachableStep(s, OfClient(c, own[0]), goroutines, producers);
      var t := s.(clients := s.clients[c := Client.Apply(s.clients[c], own[0])]);
      ReachableOwn(t, c, own[1..], goroutines, producers);
    }
  }

  /** The manager of one goroutine after a get has made the first client and returned it. */
  function OneClient(client: Client.State): State {
    State(Manager.State(map["amqp" := 0], None, [Manager.Idle], ["amqp"], [], [("amqp", Some(0))]), [client])
  }

  /** One goroutine takes one step of the manager. */
  lemma Moves(m: Manager.State, clients: seq<Client.State>, op: Manager.Op, n: Manager.State)
    requires Reachable(State(m, clients), 1, 1) && Manager.Enabled(m, Manager.Step(0, op)) && !op.Delete?
    requires n == Manager.Apply(m, Manager.Step(0, op)) && |n.keys| == |m.keys|
    ensures Reachable(State(n, clients), 1, 1)
  {
    ReachableStep(State(m, clients), OfManager(Manager.Step(0, op)), 1, 1);
  }

  function Alone(phase: Manager.Phase): Manager.State {
    Manager.State(map[], if Manager.HasLock(phase) then Some(0) else None, [phase], [], [], [])
  }

  /** A get of one goroutine up to the point where it has the lock and misses again. */
  lemma GetMisses()
    ensures Reachable(State(Alone(Manager.Rechecking("amqp")), []), 1, 1)
  {
    var s := Initial(1);
    assert Schedule(s, [], 1) && Run(s, [], 1) == s;
    assert s.manager == Alone(Manager.Idle);
    assert [Manager.Idle][0 := Manager.Missed("amqp")] == [Manager.Missed("amqp")];
    Moves(Alone(Manager.Idle), [], Manager.Lookup("amqp"), Alone(Manager.Missed("amqp")));
    assert [Manager.Missed("amqp")][0 := Manager.Rechecking("amqp")] == [Manager.Rechecking("amqp")];
    Moves(Alone(Manager.Missed("amqp")), [], Manager.LockForGet, Alone(Manager.Rechecking("amqp")));
  }

  lemma GetMakes(client: Client.State)
    requires client == Client.Initial(UNLIMITED, 1)
    ensures Reachable(State(Alone(Manager.Created("amqp", 0)).(keys := ["amqp"]), [client]), 1, 1)
  {
    GetMisses();
    var m := Alone(Manager.Rechecking("amqp"));
    ReachableStep(State(m, []), OfManager(Manager.Step(0, Manager.Recheck)), 1, 1);
    assert m.keys + ["amqp"] == ["amqp"];
    assert Manager.Apply(m, Manager.Step(0, Manager.Recheck)) == Alone(Manager.Created("amqp", 0)).(keys := ["amqp"]);
    assert [] + [client] == [client];
  }

  lemma OneClientReachable(client: Client.State)
    requires client == Client.Initial(UNLIMITED, 1)
    ensures Reachable(OneClient(client), 1, 1)
  {
    GetMakes(client);
    var m3 := Alone(Manager.Created("amqp", 0)).(keys := ["amqp"]);
    var m4 := Alone(Manager.Preparing("amqp", 0)).(keys := ["amqp"], manager := map["amqp" := 0]);
    assert Manager.Apply(m3, Manager.Step(0, Manager.Install)) == m4;
    Moves(m3, [client], Manager.Install, m4);
    assert Manager.Apply(m4, Manager.Step(0, Manager.Return)) == OneClient(client).manager;
    Moves(m4, [client], Manager.Return, OneClient(client).manager);
  }

  /** The same manager once its goroutine has called Close of that client. */
  function BeingClosedBy(client: Client.State): State {
    State(OneClient(client).manager.(lock := Some(0), phases := [Manager.Closing("amqp", 0, false)], closes := [0]),
          [client])
  }

  lemma CloseCalled(client: Client.State)
    requires Reachable(OneClient(client), 1, 1)
    ensures Reachable(BeingClosedBy(client), 1, 1)
  {
    var m1 := OneClient(client).manager;
    var m2 := m1.(lock := Some(0), phases := [Manager.Looking("amqp")]);
    assert Manager.Apply(m1, Manager.Step(0, Manager.LockForClose("amqp"))) == m2;
    Moves(m1, [client], Manager.LockForClose("amqp"), m2);
    assert m2.closes + [0] == [0];
    assert Manager.Apply(m2, Manager.Step(0, Manager.CloseFound)) == BeingClosedBy(client).manager;
    Moves(m2, [client], Manager.CloseFound, BeingClosedBy(client).manager);
  }

  lemma OwnRun(s: State, client: Client.State, own: seq<Client.Step>)
    requires Reachable(s, 1, 1) && s.clients == [client] && Client.Schedule(client, own)
    requires BeingClosed(s.manager, 0) || forall i :: 0 <= i < |own| ==> !own[i].Close?
    ensures Reachable(s.(clients := [Client.Run(client, own)]), 1, 1)
  {
    ReachableOwn(s, 0, own, 1, 1);
    assert s.clients[0 := Client.Run(client, own)] == [Client.Run(client, own)];
  }

  /** Its only goroutine closes that client, whose drainer is waiting for a channel after a lost
      connection; the monitor fails to dial and leaves. */
  lemma StuckCloseReachable()
    ensures exists s: State :: Reachable(s, 1, 1) && BeingClosed(s.manager, 0) && |s.clients| == 1
                               && RabbitTheorems.Stuck(s.clients[0])
  {
    var client := Client.Initial(UNLIMITED, 1);
    OneClientReachable(client);
    var own, waiting := RabbitTheorems.WaitsForChannel(UNLIMITED);
    OwnRun(OneClient(client), client, own);
    CloseCalled(waiting);
    var rest := RabbitTheorems.ThenStuck(waiting);
    OwnRun(BeingClosedBy(waiting), waiting, rest);
  }
}
