/**
 The cache under interleaving. A set is a map swap and then, if the key was new, an
 increment of the counter; a delete is a removal and then, if something was removed, the
 addition of 2^64 - 1. GetAny reads an item and, finding it expired, deletes its key later.
 CleanUp reads the counter, then lists the items, then deletes them one by one. Listing is no
 snapshot: it visits keys one by one, and finds every entry that stays throughout.
 Any number of goroutines do these in any order.
 */
module CacheInterleaving {
  import opened Cache

  /** An entry: who wrote it (so that two writes differ) and when it expires. */
  datatype Entry = Entry(write: nat, expiration: Time)

  datatype Phase =
    | Idle
    | OwesIncrement
    | OwesDecrement
    | FoundExpired(key: string, seen: Entry)   // GetAny, between its read and its delete
    | Counted(amount: int)                     // CleanUp, between counter and listing
    | Listing(amount: int, first: map<string, Entry>, found: map<string, Entry>)
    | Deleting(keys: seq<string>)              // CleanUp, keys still to be deleted
    | DeletingOwes(keys: seq<string>)          // CleanUp, owing a decrement before it goes on

  datatype State = State(
    entries: map<string, Entry>,
    counter: uint64,
    now: Time,
    writes: nat,
    phases: seq<Phase>
  )

  datatype Step =
    | Swap(p: nat, key: string, expiration: Time)
    | Increment(p: nat)
    | Remove(p: nat, key: string)
    | Decrement(p: nat)
    | Read(p: nat, key: string)
    | RemoveExpired(p: nat)
    | ReadCounter(p: nat, max: uint64)
    | BeginListing(p: nat)
    | Visit(p: nat, key: string)
    | EndListing(p: nat, keys: seq<string>)
    | DeleteNext(p: nat)
    | Tick(to: Time)

  function Initial(goroutines: nat, now: Time): State {
    State(map[], 0, now, 0, seq(goroutines, i => Idle))
  }

  /** How many of so many items a clean-up deletes. */
  function Count(amount: int, size: nat): nat {
    if amount <= 0 then 0 else if amount < size then amount else size
  }

  /** The keys that come first in a listing by expiration; the order among equal ones is open. */
  predicate Earliest(entries: map<string, Entry>, keys: seq<string>)
    decreases |keys|
  {
    keys == [] ||
    (&& keys[0] in entries
     && (forall k :: k in entries ==> entries[keys[0]].expiration <= entries[k].expiration)
     && Earliest(entries - {keys[0]}, keys[1..]))
  }

  /** The listing has found what has been there all along, and these come first in it. */
  predicate ListingDone(listing: Phase, entries: map<string, Entry>, keys: seq<string>)
    requires listing.Listing?
  {
    && (forall k :: k in listing.first && k in entries && entries[k] == listing.first[k] ==> k in listing.found)
    && |keys| == Count(listing.amount, |listing.found|) && Earliest(listing.found, keys)
  }

  /** What a clean-up does with the keys it still has. */
  function GoOn(keys: seq<string>): Phase {
    if keys == [] then Idle else Deleting(keys)
  }

  predicate Enabled(s: State, step: Step) {
    match step
    case Swap(p, _, _) => p < |s.phases| && s.phases[p].Idle?
    case Increment(p) => p < |s.phases| && s.phases[p].OwesIncrement?
    case Remove(p, _) => p < |s.phases| && s.phases[p].Idle?
    case Decrement(p) => p < |s.phases| && (s.phases[p].OwesDecrement? || s.phases[p].DeletingOwes?)
    case Read(p, _) => p < |s.phases| && s.phases[p].Idle?
    case RemoveExpired(p) => p < |s.phases| && s.phases[p].FoundExpired?
    case ReadCounter(p, _) => p < |s.phases| && s.phases[p].Idle?
    case BeginListing(p) => p < |s.phases| && s.phases[p].Counted?
    case Visit(p, key) => p < |s.phases| && s.phases[p].Listing? && key in s.entries && key !in s.phases[p].found
    case EndListing(p, keys) => p < |s.phases| && s.phases[p].Listing? && ListingDone(s.phases[p], s.entries, keys)
    case DeleteNext(p) => p < |s.phases| && s.phases[p].Deleting? && s.phases[p].keys != []
    case Tick(to) => s.now <= to
  }

  function RemoveKey(s: State, p: nat, key: string): State
    requires p < |s.phases|
  {
    s.(entries := s.entries - {key},
       phases := s.phases[p := if key in s.entries then OwesDecrement else Idle])
  }

  function Apply(s: State, step: Step): State
    requires Enabled(s, step)
  {
    match step
    case Swap(p, key, expiration) =>
      s.(entries := s.entries[key := Entry(s.writes, expiration)],
         writes := s.writes + 1,
         phases := s.phases[p := if key in s.entries then Idle else OwesIncrement])
    case Increment(p) => s.(counter := Wrap(s.counter + 1), phases := s.phases[p := Idle])
    case Remove(p, key) => RemoveKey(s, p, key)
    case Decrement(p) =>
      s.(counter := Wrap(s.counter + (TWO_64 - 1)),
         phases := s.phases[p := if s.phases[p].OwesDecrement? then Idle else GoOn(s.phases[p].keys)])
    case Read(p, key) =>
      if key in s.entries && s.now >= s.entries[key].expiration
      then s.(phases := s.phases[p := FoundExpired(key, s.entries[key])]) else s
    case RemoveExpired(p) => RemoveKey(s, p, s.phases[p].key)
    case ReadCounter(p, max) =>
      var amount := Wrap(s.counter - max);
      s.(phases := s.phases[p := if max == 0 || amount == 0 then Idle else Counted(ToInt(amount))])
    case BeginListing(p) => s.(phases := s.phases[p := Listing(s.phases[p].amount, s.entries, map[])])
    case Visit(p, key) =>
      s.(phases := s.phases[p := s.phases[p].(found := s.phases[p].found[key := s.entries[key]])])
    case EndListing(p, keys) => s.(phases := s.phases[p := GoOn(keys)])
    case DeleteNext(p) =>
      var keys := s.phases[p].keys;
      s.(entries := s.entries - {keys[0]},
         phases := s.phases[p := if keys[0] in s.entries then DeletingOwes(keys[1..]) else GoOn(keys[1..])])
    case Tick(to) => s.(now := to)
  }

  // ------------------------------------------------------------------ counter and map

  /** Increments still to come, less decrements still to come. */
  function Owed(phases: seq<Phase>): int {
    if phases == [] then 0 else Owes(phases[0]) + Owed(phases[1..])
  }

  function Owes(phase: Phase): int {
    match phase
    case OwesIncrement => 1
    case OwesDecrement => -1
    case DeletingOwes(_) => -1
    case _ => 0
  }

  lemma {:induction false} OwedUpdate(phases: seq<Phase>, p: nat, phase: Phase)
    requires p < |phases|
    ensures Owed(phases[p := phase]) == Owed(phases) - Owes(phases[p]) + Owes(phase)
  {
    if p == 0 {
      assert phases[p := phase][1..] == phases[1..];
    } else {
      assert phases[p := phase][1..] == phases[1..][p - 1 := phase];
      OwedUpdate(phases[1..], p - 1, phase);
    }
  }

  lemma {:induction false} NothingOwed(phases: seq<Phase>)
    requires forall p :: 0 <= p < |phases| ==> Owes(phases[p]) == 0
    ensures Owed(phases) == 0
  {
    if phases != [] {
      NothingOwed(phases[1..]);
    }
  }

  predicate Exact(s: State) {
    s.counter == Wrap(|s.entries| - Owed(s.phases))
  }

  /** What GetAny has found expired stays expired. */
  predicate Timely(s: State) {
    forall p :: 0 <= p < |s.phases| && s.phases[p].FoundExpired? ==> s.phases[p].seen.expiration <= s.now
  }

  lemma InitialExact(goroutines: nat, now: Time)
    ensures Exact(Initial(goroutines, now)) && Timely(Initial(goroutines, now))
  {
    NothingOwed(Initial(goroutines, now).phases);
  }

  lemma RemoveExact(s: State, p: nat, key: string)
    requires Exact(s) && p < |s.phases| && Owes(s.phases[p]) == 0
    ensures Exact(RemoveKey(s, p, key))
  {
    SizeAfterDelete(s.entries, key);
    OwedUpdate(s.phases, p, if key in s.entries then OwesDecrement else Idle);
  }

  lemma SwapExact(s: State, p: nat, key: string, expiration: Time)
    requires Exact(s) && Enabled(s, Swap(p, key, expiration))
    ensures Exact(Apply(s, Swap(p, key, expiration)))
  {
    SizeAfterSet(s.entries, key, Entry(s.writes, expiration));
    OwedUpdate(s.phases, p, if key in s.entries then Idle else OwesIncrement);
  }

  lemma IncrementExact(s: State, p: nat)
    requires Exact(s) && Enabled(s, Increment(p))
    ensures Exact(Apply(s, Increment(p)))
  {
    OwedUpdate(s.phases, p, Idle);
    WrapAdd(|s.entries| - Owed(s.phases), 1);
  }

  lemma DecrementExact(s: State, p: nat)
    requires Exact(s) && Enabled(s, Decrement(p))
    ensures Exact(Apply(s, Decrement(p)))
  {
    OwedUpdate(s.phases, p, if s.phases[p].OwesDecrement? then Idle else GoOn(s.phases[p].keys));
    WrapLess(|s.entries| - Owed(s.phases));
  }

  lemma ReadExact(s: State, p: nat, key: string)
    requires Exact(s) && Enabled(s, Read(p, key))
    ensures Exact(Apply(s, Read(p, key)))
  {
    if key in s.entries {
      OwedUpdate(s.phases, p, FoundExpired(key, s.entries[key]));
    }
  }

  lemma DeleteNextExact(s: State, p: nat)
    requires Exact(s) && Enabled(s, DeleteNext(p))
    ensures Exact(Apply(s, DeleteNext(p)))
  {
    var keys := s.phases[p].keys;
    SizeAfterDelete(s.entries, keys[0]);
    OwedUpdate(s.phases, p, if keys[0] in s.entries then DeletingOwes(keys[1..]) else GoOn(keys[1..]));
  }

  lemma PlanExact(s: State, step: Step)
    requires Exact(s) && Enabled(s, step)
    requires step.ReadCounter? || step.BeginListing? || step.Visit? || step.EndListing?
    ensures Exact(Apply(s, step))
  {
    OwedUpdate(s.phases, step.p, Apply(s, step).phases[step.p]);
  }

  lemma StepExact(s: State, step: Step)
    requires Exact(s) && Enabled(s, step)
    ensures Exact(Apply(s, step))
  {
    match step
    case Swap(p, key, expiration) => SwapExact(s, p, key, expiration);
    case Increment(p) => IncrementExact(s, p);
    case Decrement(p) => DecrementExact(s, p);
    case Remove(p, key) => RemoveExact(s, p, key);
    case RemoveExpired(p) => RemoveExact(s, p, s.phases[p].key);
    case Read(p, key) => ReadExact(s, p, key);
    case DeleteNext(p) => DeleteNextExact(s, p);
    case Tick(_) =>
    case _ => PlanExact(s, step);
  }

  lemma StepTimely(s: State, step: Step)
    requires Timely(s) && Enabled(s, step)
    ensures Timely(Apply(s, step))
  {
  }

  ghost predicate Schedule(s: State, steps: seq<Step>)
    decreases |steps|
  {
    steps == [] || (Enabled(s, steps[0]) && Schedule(Apply(s, steps[0]), steps[1..]))
  }

  ghost function Run(s: State, steps: seq<Step>): State
    requires Schedule(s, steps)
    decreases |steps|
  {
    if steps == [] then s else Run(Apply(s, steps[0]), steps[1..])
  }

  lemma {:induction false} RunInv(s: State, steps: seq<Step>)
    requires Exact(s) && Timely(s) && Schedule(s, steps)
    ensures Exact(Run(s, steps)) && Timely(Run(s, steps))
    decreases |steps|
  {
    if steps != [] {
      StepExact(s, steps[0]);
      StepTimely(s, steps[0]);
      RunInv(Apply(s, steps[0]), steps[1..]);
    }
  }

  /** In every interleaving the counter is off by exactly the updates in flight, modulo 2^64;
      with none in flight Count() is the number of entries. */
  lemma CounterCounts(goroutines: nat, now: Time, steps: seq<Step>)
    requires Schedule(Initial(goroutines, now), steps)
    ensures Exact(Run(Initial(goroutines, now), steps))
    ensures var s := Run(Initial(goroutines, now), steps);
      (forall p :: 0 <= p < |s.phases| ==> Owes(s.phases[p]) == 0) ==> s.counter == Wrap(|s.entries|)
  {
    InitialExact(goroutines, now);
    RunInv(Initial(goroutines, now), steps);
    var s := Run(Initial(goroutines, now), steps);
    if forall p :: 0 <= p < |s.phases| ==> Owes(s.phases[p]) == 0 {
      NothingOwed(s.phases);
    }
  }

  // ------------------------------------------------------------------ the delayed delete of GetAny

  /** In every run GetAny's delete takes a live entry only if the expired one it read was replaced. */
  lemma LiveEntryLostOnlyIfReplaced(goroutines: nat, now: Time, steps: seq<Step>, p: nat)
    requires Schedule(Initial(goroutines, now), steps)
    requires var s := Run(Initial(goroutines, now), steps);
      && Enabled(s, RemoveExpired(p))
      && s.phases[p].key in s.entries && s.now < s.entries[s.phases[p].key].expiration
    ensures var s := Run(Initial(goroutines, now), steps); s.phases[p].seen != s.entries[s.phases[p].key]
  {
    InitialExact(goroutines, now);
    RunInv(Initial(goroutines, now), steps);
  }

  /** GetAny is about to delete an entry that is alive. */
  predicate Loses(s: State, p: nat) {
    && Enabled(s, RemoveExpired(p))
    && s.phases[p].key in s.entries && s.now < s.entries[s.phases[p].key].expiration
  }

  /** Some schedule of so many goroutines ends there for one key. */
  ghost predicate CanLose(goroutines: nat, now: Time, key: string) {
    exists steps: seq<Step>, p: nat ::
      Schedule(Initial(goroutines, now), steps)
      && var s := Run(Initial(goroutines, now), steps); Loses(s, p) && s.phases[p].key == key
  }

  /** With nobody else about, the expired entry read is still the one stored. */
  predicate Alone(s: State) {
    && |s.phases| <= 1
    && (|s.phases| == 1 && s.phases[0].FoundExpired? ==>
          s.phases[0].key in s.entries && s.entries[s.phases[0].key] == s.phases[0].seen)
  }

  lemma {:induction false} RunAlone(s: State, steps: seq<Step>)
    requires Alone(s) && Schedule(s, steps)
    ensures Alone(Run(s, steps))
    decreases |steps|
  {
    if steps != [] {
      assert Alone(Apply(s, steps[0]));
      RunAlone(Apply(s, steps[0]), steps[1..]);
    }
  }

  /** Prefixing one step to a schedule that ends in a loss. */
  ghost predicate Leads(s: State, key: string) {
    exists steps: seq<Step>, p: nat ::
      Schedule(s, steps) && Loses(Run(s, steps), p) && Run(s, steps).phases[p].key == key
  }

  lemma LeadsBefore(s: State, step: Step, key: string)
    requires Enabled(s, step) && Leads(Apply(s, step), key)
    ensures Leads(s, key)
  {
    var rest: seq<Step>, p: nat :| Schedule(Apply(s, step), rest) && Loses(Run(Apply(s, step), rest), p)
                                  && Run(Apply(s, step), rest).phases[p].key == key;
    var steps := [step] + rest;
    assert steps[0] == step && steps[1..] == rest;
    assert Schedule(s, steps) && Run(s, steps) == Run(Apply(s, step), rest);
  }

  /** An entry expires, a lookup reads it, another goroutine sets the key anew, and the lookup's
      delete takes the new entry. */
  lemma LiveEntryCanBeLost(goroutines: nat, now: Time, key: string)
    requires goroutines >= 2
    ensures CanLose(goroutines, now, key)
  {
    var s0 := Initial(goroutines, now);
    var s1 := Apply(s0, Swap(0, key, now));
    var s2 := Apply(s1, Increment(0));
    var s3 := Apply(s2, Read(0, key));
    var s4 := Apply(s3, Swap(1, key, now + 1));
    assert Schedule(s4, []) && Run(s4, []) == s4 && Loses(s4, 0) && s4.phases[0].key == key;
    assert Leads(s4, key);
    LeadsBefore(s3, Swap(1, key, now + 1), key);
    LeadsBefore(s2, Read(0, key), key);
    LeadsBefore(s1, Increment(0), key);
    LeadsBefore(s0, Swap(0, key, now), key);
  }

  /** A lookup can delete a live entry exactly where two goroutines or more use the cache. */
  lemma LossExactly(goroutines: nat, now: Time, key: string)
    ensures CanLose(goroutines, now, key) <==> goroutines >= 2
  {
    if goroutines >= 2 {
      LiveEntryCanBeLost(goroutines, now, key);
    } else {
      forall steps: seq<Step>, p: nat | Schedule(Initial(goroutines, now), steps)
        ensures !Loses(Run(Initial(goroutines, now), steps), p)
      {
        RunAlone(Initial(goroutines, now), steps);
        InitialExact(goroutines, now);
        RunInv(Initial(goroutines, now), steps);
      }
    }
  }

  // ------------------------------------------------------------------ overlapping clean-ups

  /** n clean-ups that have all read the counter before the first of them deletes, deleting in turn. */
  predicate CleanUpsInTurn<V(==)>(states: seq<map<string, Item<V>>>, amount: nat) {
    && states != []
    && forall k :: 0 <= k < |states| - 1 ==>
         Evicted(states[k], states[k + 1], if amount < |states[k]| then amount else |states[k]|)
  }

  lemma LastCleanUp<V>(states: seq<map<string, Item<V>>>, amount: nat)
    requires CleanUpsInTurn(states, amount) && |states| > 1
    ensures var n := |states| - 1;
      && CleanUpsInTurn(states[..n], amount)
      && |states[n]| == if amount < |states[n - 1]| then |states[n - 1]| - amount else 0
  {
    var n := |states| - 1;
    assert Evicted(states[n - 1], states[n - 1 + 1], if amount < |states[n - 1]| then amount else |states[n - 1]|);
  }

  /** Each takes the whole excess once more. */
  lemma {:induction false} SizeInTurn<V>(states: seq<map<string, Item<V>>>, amount: nat)
    requires CleanUpsInTurn(states, amount)
    ensures var n := |states| - 1;
      |states[n]| == if n * amount < |states[0]| then |states[0]| - n * amount else 0
  {
    if |states| > 1 {
      var n := |states| - 1;
      LastCleanUp(states, amount);
      SizeInTurn(states[..n], amount);
      OneMore(n, amount);
    }
  }

  lemma OneMore(n: nat, amount: nat)
    requires n > 0
    ensures n * amount == (n - 1) * amount + amount
  {
  }

  /** Each takes the whole excess, so min(size, max) entries remain exactly when there was none or
      only one clean-up. */
  lemma OverlappingCleanUps<V>(states: seq<map<string, Item<V>>>, max: uint64)
    requires |states| >= 2 && 0 < max && |states[0]| < TWO_63
    requires CleanUpsInTurn(states, Evictions(|states[0]|, max, |states[0]|)) && max - |states[0]| <= TWO_63
    ensures var n := |states| - 1;
      |states[n]| == Min(|states[0]|, max) <==> |states[0]| <= max || n == 1
  {
    var size, n := |states[0]|, |states| - 1;
    var amount := Evictions(size, max, size);
    EvictionsExact(size, max);
    assert amount == size - Min(size, max);
    SizeInTurn(states, amount);
    if size > max && n > 1 {
      MoreThanOnce(n, amount);
    }
  }

  lemma MoreThanOnce(n: nat, amount: nat)
    requires n > 1 && amount > 0
    ensures n * amount > amount
  {
  }
}
