/**
 The manager of RabbitMQ clients: one map from connection string to client behind a
 read-write lock, looked up first under the read lock and again under the write lock.
 Any number of goroutines call get, close and close-all; a step is what one of them does
 between two points at which another may run.
 */
module ClientManager {
  import opened Wrappers

  type Key = string
  type Client = nat       // clients in the order NewRabbitMQClient made them

  /** Where a goroutine is; every phase but the first two owns the write lock. */
  datatype Phase =
    | Idle
    | Missed(key: Key)                       // not found under the read lock
    | Rechecking(key: Key)                   // has the write lock
    | Created(key: Key, client: Client)      // client made, not in the map yet
    | Preparing(key: Key, client: Client)    // in the map, waiting for its connection
    | Looking(key: Key)                      // close: has the write lock
    | Closing(key: Key, client: Client, all: bool)  // Close called, still in the map
    | Sweeping                               // close-all: has the write lock

  datatype State = State(
    manager: map<Key, Client>,
    lock: Option<nat>,
    phases: seq<Phase>,
    // history
    keys: seq<Key>,                          // connection string each client was made for
    closes: seq<Client>,                     // Close calls, in order
    returned: seq<(Key, Option<Client>)>     // what get returned, in order
  )

  datatype Op =
    | Lookup(key: Key)       // GetRabbitMQClient up to the first unlock
    | LockForGet
    | Recheck
    | Install
    | Return
    | LockForClose(key: Key)
    | CloseFound
    | Delete                 // Close has returned
    | LockForSweep
    | SweepNext(key: Key)
    | SweepEnd

  datatype Step = Step(p: nat, op: Op)

  function Initial(goroutines: nat): State {
    State(map[], None, seq(goroutines, i => Idle), [], [], [])
  }

  predicate Enabled(s: State, step: Step) {
    step.p < |s.phases| &&
    var phase := s.phases[step.p];
    match step.op
    case Lookup(key) => phase.Idle? && (key == "" || s.lock.None?)
    case LockForGet => phase.Missed? && s.lock.None?
    case Recheck => phase.Rechecking?
    case Install => phase.Created?
    case Return => phase.Preparing?
    case LockForClose(_) => phase.Idle? && s.lock.None?
    case CloseFound => phase.Looking?
    case Delete => phase.Closing?
    case LockForSweep => phase.Idle? && s.lock.None?
    case SweepNext(k) => phase.Sweeping? && k in s.manager
    case SweepEnd => phase.Sweeping? && s.manager == map[]
  }

  function Apply(s: State, step: Step): State
    requires Enabled(s, step)
  {
    var p := step.p;
    var phase := s.phases[p];
    match step.op
    case Lookup(key) =>
      if key == "" then s.(returned := s.returned + [(key, None)])
      else if key in s.manager then s.(returned := s.returned + [(key, Some(s.manager[key]))])
      else s.(phases := s.phases[p := Missed(key)])
    case LockForGet => s.(lock := Some(p), phases := s.phases[p := Rechecking(phase.key)])
    case Recheck =>
      if phase.key in s.manager then
        s.(lock := None, phases := s.phases[p := Idle],
           returned := s.returned + [(phase.key, Some(s.manager[phase.key]))])
      else s.(phases := s.phases[p := Created(phase.key, |s.keys|)], keys := s.keys + [phase.key])
    case Install =>
      s.(manager := s.manager[phase.key := phase.client], phases := s.phases[p := Preparing(phase.key, phase.client)])
    case Return =>
      s.(lock := None, phases := s.phases[p := Idle], returned := s.returned + [(phase.key, Some(phase.client))])
    case LockForClose(key) => s.(lock := Some(p), phases := s.phases[p := Looking(key)])
    case CloseFound =>
      if phase.key in s.manager then
        s.(closes := s.closes + [s.manager[phase.key]],
           phases := s.phases[p := Closing(phase.key, s.manager[phase.key], false)])
      else s.(lock := None, phases := s.phases[p := Idle])
    case Delete =>
      s.(manager := s.manager - {phase.key},
         lock := if phase.all then s.lock else None,
         phases := s.phases[p := if phase.all then Sweeping else Idle])
    case LockForSweep => s.(lock := Some(p), phases := s.phases[p := Sweeping])
    case SweepNext(key) =>
      s.(closes := s.closes + [s.manager[key]], phases := s.phases[p := Closing(key, s.manager[key], true)])
    case SweepEnd => s.(lock := None, phases := s.phases[p := Idle])
  }

  // ------------------------------------------------------------------ invariant

  predicate HasLock(phase: Phase) {
    !phase.Idle? && !phase.Missed?
  }

  /** Clients made and not being closed or closed. */
  ghost predicate Open(s: State, c: Client) {
    c < |s.keys| && c !in s.closes
  }

  /** The client that is open but not in the map, or in the map but closed, if any. */
  function InBetween(phase: Phase): Option<Client> {
    match phase
    case Created(_, c) => Some(c)
    case Closing(_, c, _) => Some(c)
    case _ => None
  }

  ghost predicate Managed(s: State, c: Client) {
    exists k :: k in s.manager && s.manager[k] == c
  }

  ghost predicate Exclusive(s: State) {
    && (forall i :: 0 <= i < |s.phases| && HasLock(s.phases[i]) ==> s.lock == Some(i))
    && (s.lock.Some? ==> s.lock.value < |s.phases| && HasLock(s.phases[s.lock.value]))
  }

  /** What the lock holder is doing to one client. */
  ghost predicate HolderConsistent(s: State) {
    s.lock.Some? && s.lock.value < |s.phases| ==>
      match s.phases[s.lock.value]
      case Created(k, c) => k !in s.manager && c < |s.keys| && s.keys[c] == k && c !in s.closes && k != ""
      case Preparing(k, c) => k in s.manager && s.manager[k] == c
      case Closing(k, c, _) => k in s.manager && s.manager[k] == c && c in s.closes
      case Rechecking(k) => k != ""
      case _ => true
  }

  /** The lock holder's client, the one exception to what the map says. */
  function Exception(s: State): Option<Client> {
    if s.lock.Some? && s.lock.value < |s.phases| then InBetween(s.phases[s.lock.value]) else None
  }

  ghost predicate Inv(s: State) {
    && Exclusive(s)
    && HolderConsistent(s)
    && (forall i :: 0 <= i < |s.phases| && s.phases[i].Missed? ==> s.phases[i].key != "")
    && (forall k :: k in s.manager ==> k != "" && s.manager[k] < |s.keys| && s.keys[s.manager[k]] == k)
    && (forall k :: k in s.manager && Some(s.manager[k]) != Exception(s) ==> s.manager[k] !in s.closes)
    && (forall c: Client :: Open(s, c) && Some(c) != Exception(s) ==>
          s.keys[c] in s.manager && s.manager[s.keys[c]] == c)
    && (forall i, j :: 0 <= i < j < |s.closes| ==> s.closes[i] != s.closes[j])
    && (forall c :: c in s.closes ==> c < |s.keys|)
  }

  lemma InitialInv(goroutines: nat)
    ensures Inv(Initial(goroutines))
  {
  }

  lemma LookupKeeps(s: State, p: nat, key: Key)
    requires Inv(s) && Enabled(s, Step(p, Lookup(key)))
    ensures Inv(Apply(s, Step(p, Lookup(key))))
  {
  }

  lemma LockForGetKeeps(s: State, p: nat)
    requires Inv(s) && Enabled(s, Step(p, LockForGet))
    ensures Inv(Apply(s, Step(p, LockForGet)))
  {
  }

  lemma RecheckKeeps(s: State, p: nat)
    requires Inv(s) && Enabled(s, Step(p, Recheck))
    ensures Inv(Apply(s, Step(p, Recheck)))
  {
  }

  lemma InstallKeeps(s: State, p: nat)
    requires Inv(s) && Enabled(s, Step(p, Install))
    ensures Inv(Apply(s, Step(p, Install)))
  {
  }

  lemma ReturnKeeps(s: State, p: nat)
    requires Inv(s) && Enabled(s, Step(p, Return))
    ensures Inv(Apply(s, Step(p, Return)))
  {
  }

  lemma LockForCloseKeeps(s: State, p: nat, key: Key)
    requires Inv(s) && Enabled(s, Step(p, LockForClose(key)))
    ensures Inv(Apply(s, Step(p, LockForClose(key))))
  {
  }

  lemma CloseFoundKeeps(s: State, p: nat)
    requires Inv(s) && Enabled(s, Step(p, CloseFound))
    ensures Inv(Apply(s, Step(p, CloseFound)))
  {
  }

  lemma DeleteKeeps(s: State, p: nat)
    requires Inv(s) && Enabled(s, Step(p, Delete))
    ensures Inv(Apply(s, Step(p, Delete)))
  {
  }

  lemma LockForSweepKeeps(s: State, p: nat)
    requires Inv(s) && Enabled(s, Step(p, LockForSweep))
    ensures Inv(Apply(s, Step(p, LockForSweep)))
  {
  }

  lemma SweepNextKeeps(s: State, p: nat, key: Key)
    requires Inv(s) && Enabled(s, Step(p, SweepNext(key)))
    ensures Inv(Apply(s, Step(p, SweepNext(key))))
  {
  }

  lemma SweepEndKeeps(s: State, p: nat)
    requires Inv(s) && Enabled(s, Step(p, SweepEnd))
    ensures Inv(Apply(s, Step(p, SweepEnd)))
  {
  }

  lemma StepInv(s: State, step: Step)
    requires Inv(s) && Enabled(s, step)
    ensures Inv(Apply(s, step))
  {
    match step.op
    case Lookup(key) => LookupKeeps(s, step.p, key);
    case LockForGet => LockForGetKeeps(s, step.p);
    case Recheck => RecheckKeeps(s, step.p);
    case Install => InstallKeeps(s, step.p);
    case Return => ReturnKeeps(s, step.p);
    case LockForClose(key) => LockForCloseKeeps(s, step.p, key);
    case CloseFound => CloseFoundKeeps(s, step.p);
    case Delete => DeleteKeeps(s, step.p);
    case LockForSweep => LockForSweepKeeps(s, step.p);
    case SweepNext(key) => SweepNextKeeps(s, step.p, key);
    case SweepEnd => SweepEndKeeps(s, step.p);
  }

  // ------------------------------------------------------------------ every run

  ghost predicate Reachable(s: State, goroutines: nat, steps: seq<Step>)
    decreases |steps|
  {
    if steps == [] then s == Initial(goroutines)
    else
      var last := steps[|steps| - 1];
      exists before: State ::
        Reachable(before, goroutines, steps[..|steps| - 1]) && Enabled(before, last) && s == Apply(before, last)
  }

  /** What get has returned: the key's own client, once it is in the map. */
  ghost predicate ReturnedWell(s: State) {
    forall r :: r in s.returned ==>
      match r.1
      case None => r.0 == ""
      case Some(c) =>
        && c < |s.keys| && s.keys[c] == r.0
        && (s.lock.Some? && s.lock.value < |s.phases| ==>
              !(s.phases[s.lock.value].Created? && s.phases[s.lock.value].client == c))
  }

  lemma LookupReturns(s: State, p: nat, key: Key)
    requires Inv(s) && ReturnedWell(s) && Enabled(s, Step(p, Lookup(key)))
    ensures ReturnedWell(Apply(s, Step(p, Lookup(key))))
  {
    var t := Apply(s, Step(p, Lookup(key)));
    forall r | r in t.returned && r !in s.returned
      ensures r == (key, if key == "" then None else Some(s.manager[key]))
    {
    }
  }

  lemma RecheckReturns(s: State, p: nat)
    requires Inv(s) && ReturnedWell(s) && Enabled(s, Step(p, Recheck))
    ensures ReturnedWell(Apply(s, Step(p, Recheck)))
  {
  }

  lemma OtherReturns(s: State, step: Step)
    requires Inv(s) && ReturnedWell(s) && Enabled(s, step) && !step.op.Lookup? && !step.op.Recheck?
    ensures ReturnedWell(Apply(s, step))
  {
  }

  lemma {:induction false} RunInv(s: State, goroutines: nat, steps: seq<Step>)
    requires Reachable(s, goroutines, steps)
    ensures Inv(s) && ReturnedWell(s)
    decreases |steps|
  {
    if steps == [] {
      InitialInv(goroutines);
    } else {
      var last := steps[|steps| - 1];
      var before :|
        Reachable(before, goroutines, steps[..|steps| - 1]) && Enabled(before, last) && s == Apply(before, last);
      RunInv(before, goroutines, steps[..|steps| - 1]);
      StepInv(before, last);
      match last.op
      case Lookup(key) => LookupReturns(before, last.p, key);
      case Recheck => RecheckReturns(before, last.p);
      case _ => OtherReturns(before, last);
    }
  }

  /** Whenever nobody owns the lock the map holds exactly the clients made and not closed;
      at all times a connection string has at most one such client, and no client is closed twice. */
  lemma MapHoldsTheOpenClients(s: State, goroutines: nat, steps: seq<Step>)
    requires Reachable(s, goroutines, steps)
    ensures s.lock.None? ==> forall c: Client :: Open(s, c) <==> Managed(s, c)
    ensures forall c: Client, d: Client :: Open(s, c) && Open(s, d) && s.keys[c] == s.keys[d] ==> c == d
    ensures forall i, j :: 0 <= i < j < |s.closes| ==> s.closes[i] != s.closes[j]
    ensures forall c :: c in s.closes ==> c < |s.keys|
  {
    RunInv(s, goroutines, steps);
  }

  /** Two gets of one connection string agree unless a client was closed between or after them. */
  lemma GetsAgree(s: State, goroutines: nat, steps: seq<Step>, key: Key, c: Client, d: Client)
    requires Reachable(s, goroutines, steps)
    requires (key, Some(c)) in s.returned && (key, Some(d)) in s.returned
    requires c !in s.closes && d !in s.closes
    ensures c == d && key in s.manager && s.manager[key] == c
  {
    RunInv(s, goroutines, steps);
    assert Open(s, c) && Open(s, d);
  }

  /** Inside close-all. */
  predicate InSweep(phase: Phase) {
    phase.Sweeping? || (phase.Closing? && phase.all)
  }

  /** Whichever step takes a goroutine out of close-all: by then every client made so far has been
      closed, and the map is empty. */
  lemma CloseAllClosesAll(s: State, goroutines: nat, steps: seq<Step>, p: nat, step: Step)
    requires Reachable(s, goroutines, steps) && p < |s.phases| && InSweep(s.phases[p]) && Enabled(s, step)
    requires !InSweep(Apply(s, step).phases[p])
    ensures step == Step(p, SweepEnd) && Apply(s, step).manager == map[]
    ensures forall c :: 0 <= c < |s.keys| ==> c in s.closes
  {
    LeavesSweepBy(s, p, step);
    RunInv(s, goroutines, steps);
    assert HasLock(s.phases[p]) && s.lock == Some(p);
    AllClosed(s);
  }

  lemma LeavesSweepBy(s: State, p: nat, step: Step)
    requires p < |s.phases| && InSweep(s.phases[p]) && Enabled(s, step) && !InSweep(Apply(s, step).phases[p])
    ensures step == Step(p, SweepEnd) && s.manager == map[] && Apply(s, step).manager == map[]
    ensures s.phases[p].Sweeping?
  {
    assert step.p == p;
  }

  lemma AllClosed(s: State)
    requires Inv(s) && s.manager == map[] && Exception(s).None?
    ensures forall c :: 0 <= c < |s.keys| ==> c in s.closes
  {
    forall c | 0 <= c < |s.keys| ensures c in s.closes {
      assert !Open(s, c);
    }
  }

  /** What a get returns is open and in the map at that moment. */
  lemma ReturnsOpen(s: State, goroutines: nat, steps: seq<Step>, step: Step)
    requires Reachable(s, goroutines, steps) && Enabled(s, step)
    requires |Apply(s, step).returned| > |s.returned|
    ensures var r := Apply(s, step).returned[|s.returned|];
      if r.0 == "" then r.1.None?
      else r.1.Some? && r.0 in s.manager && s.manager[r.0] == r.1.value && Open(Apply(s, step), r.1.value)
  {
    RunInv(s, goroutines, steps);
  }
}
