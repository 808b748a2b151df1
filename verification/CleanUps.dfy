/**
 Clean-ups of one cache that run at the same time. Each reads the counter, lists the items it will
 delete by expiration and deletes them one by one; the steps of all of them come in any order.
 As long as no two items expire together, what has been deleted is at every moment a prefix of
 one order, so the farthest listing decides how many items are left.
 */
module CleanUps {
  import opened Cache
  import opened CacheInterleaving

  predicate CleansUp(step: Step) {
    || step.ReadCounter? || step.BeginListing? || step.Visit? || step.EndListing?
    || step.DeleteNext? || step.Decrement? || step.Tick?
  }

  predicate OnlyCleanUps(steps: seq<Step>) {
    forall i :: 0 <= i < |steps| ==> CleansUp(steps[i])
  }

  predicate DistinctExpirations(entries: map<string, Entry>) {
    forall k, l :: k in entries && l in entries && k != l ==> entries[k].expiration != entries[l].expiration
  }

  /** The keys a clean-up still has to delete. */
  function Keys(phase: Phase): seq<string> {
    match phase
    case Deleting(keys) => keys
    case DeletingOwes(keys) => keys
    case _ => []
  }

  predicate NoKeysLeft(s: State) {
    forall p :: 0 <= p < |s.phases| ==> Keys(s.phases[p]) == []
  }

  predicate AllIdle(s: State) {
    forall p :: 0 <= p < |s.phases| ==> s.phases[p].Idle?
  }

  function Max(a: int, b: int): int {
    if a < b then b else a
  }

  function KeySetOf(keys: seq<string>): set<string> {
    set k | k in keys
  }

  /** How many of the items there were at first are gone once what is listed here has been deleted. */
  function End(s: State, step: Step, size: nat): int {
    if step.EndListing? then size - |s.entries - KeySetOf(step.keys)| else 0
  }

  ghost function Farthest(s: State, steps: seq<Step>, size: nat): (n: int)
    requires Schedule(s, steps)
    ensures n >= 0
    decreases |steps|
  {
    if steps == [] then 0 else Max(End(s, steps[0], size), Farthest(Apply(s, steps[0]), steps[1..], size))
  }

  // ------------------------------------------------------------------ the order by expiration

  predicate Ordered(entries: map<string, Entry>, order: seq<string>) {
    && (forall i :: 0 <= i < |order| ==> order[i] in entries)
    && (forall k :: k in entries ==> k in order)
    && (forall i, j :: 0 <= i < j < |order| ==> entries[order[i]].expiration < entries[order[j]].expiration)
  }

  /** The entry that expires last. */
  lemma {:induction false} LastToExpire(entries: map<string, Entry>) returns (last: string)
    requires entries != map[]
    ensures last in entries && forall k :: k in entries ==> entries[k].expiration <= entries[last].expiration
    decreases |entries|
  {
    var k :| k in entries;
    var rest := entries - {k};
    SizeAfterDelete(entries, k);
    if rest == map[] {
      last := k;
      assert forall l :: l in entries && l != k ==> l in rest;
    } else {
      var l := LastToExpire(rest);
      last := if entries[k].expiration < entries[l].expiration then l else k;
      assert forall j :: j in entries && j != k ==> j in rest && rest[j] == entries[j];
    }
  }

  lemma LastComesLast(entries: map<string, Entry>, before: seq<string>, last: string)
    requires DistinctExpirations(entries) && last in entries && Ordered(entries - {last}, before)
    requires forall k :: k in entries ==> entries[k].expiration <= entries[last].expiration
    ensures Ordered(entries, before + [last])
  {
    var rest, order := entries - {last}, before + [last];
    assert order[|before|] == last;
    forall k | k in entries ensures k in order {
      if k != last {
        assert k in rest;
        var i := InOrder(rest, before, k);
        assert order[i] == k;
      }
    }
    forall i | 0 <= i < |before| ensures entries[order[i]].expiration < entries[last].expiration {
      assert order[i] in rest;
    }
  }

  lemma {:induction false} OrderExists(entries: map<string, Entry>) returns (order: seq<string>)
    requires DistinctExpirations(entries)
    ensures Ordered(entries, order)
    decreases |entries|
  {
    if entries == map[] {
      order := [];
    } else {
      var last := LastToExpire(entries);
      SizeAfterDelete(entries, last);
      var rest := entries - {last};
      var before := OrderExists(rest);
      order := before + [last];
      LastComesLast(entries, before, last);
    }
  }

  lemma {:induction false} KeySetOfSize(keys: seq<string>)
    requires forall i, j :: 0 <= i < j < |keys| ==> keys[i] != keys[j]
    ensures |KeySetOf(keys)| == |keys|
  {
    if keys != [] {
      var front, last := keys[..|keys| - 1], keys[|keys| - 1];
      KeySetOfSize(front);
      assert keys == front + [last];
      assert KeySetOf(keys) == KeySetOf(front) + {last};
    }
  }

  /** What is left when the first d of the order are gone. */
  function After(entries: map<string, Entry>, order: seq<string>, d: nat): map<string, Entry>
    requires d <= |order|
  {
    entries - KeySetOf(order[..d])
  }

  lemma AfterSize(entries: map<string, Entry>, order: seq<string>, d: nat)
    requires Ordered(entries, order) && d <= |order|
    ensures |After(entries, order, d)| == |order| - d && |order| == |entries|
  {
    KeySetOfSize(order);
    assert KeySetOf(order) == entries.Keys;
    KeySetOfSize(order[..d]);
    assert KeySetOf(order[..d]) <= entries.Keys;
    assert After(entries, order, d).Keys == entries.Keys - KeySetOf(order[..d]);
    assert |entries.Keys| == |entries| && |After(entries, order, d).Keys| == |After(entries, order, d)|;
  }

  lemma StillThere(entries: map<string, Entry>, order: seq<string>, d: nat, i: nat)
    requires Ordered(entries, order) && d <= |order| && i < |order|
    ensures order[i] in After(entries, order, d) <==> d <= i
  {
    if i < d {
      assert order[..d][i] == order[i];
    }
  }

  lemma OneMoreGone(entries: map<string, Entry>, order: seq<string>, d: nat)
    requires d < |order|
    ensures After(entries, order, d) - {order[d]} == After(entries, order, d + 1)
  {
    assert order[..d + 1] == order[..d] + [order[d]];
  }

  lemma OrderDistinct(entries: map<string, Entry>, order: seq<string>, i: nat, j: nat)
    requires Ordered(entries, order) && i < |order| && j < |order|
    ensures order[i] == order[j] ==> i == j
    ensures entries[order[i]].expiration <= entries[order[j]].expiration ==> i <= j
  {
  }

  lemma InOrder(entries: map<string, Entry>, order: seq<string>, k: string) returns (x: nat)
    requires Ordered(entries, order) && k in entries
    ensures x < |order| && order[x] == k
  {
    x :| 0 <= x < |order| && order[x] == k;
  }

  /** What is left of a map is part of it. */
  predicate PartOf(part: map<string, Entry>, whole: map<string, Entry>) {
    forall k :: k in part ==> k in whole && part[k] == whole[k]
  }

  /** Where a key stands in the order. */
  function At(order: seq<string>, key: string): (i: nat)
    requires key in order
    ensures i < |order| && order[i] == key
  {
    if order[0] == key then 0 else 1 + At(order[1..], key)
  }

  // ------------------------------------------------------------------ going on along the order

  /** Deleting the keys one by one, when d are gone, leaves a prefix of the order deleted at every moment. */
  predicate GoesOn(keys: seq<string>, order: seq<string>, d: nat)
    decreases |keys|
  {
    keys == [] ||
    (keys[0] in order && At(order, keys[0]) <= d && GoesOn(keys[1..], order, Max(d, At(order, keys[0]) + 1)))
  }

  /** And ends with so many gone. */
  function Upto(keys: seq<string>, order: seq<string>, d: nat): (u: nat)
    requires GoesOn(keys, order, d)
    ensures d <= u && (d <= |order| ==> u <= |order|)
    decreases |keys|
  {
    if keys == [] then d else Upto(keys[1..], order, Max(d, At(order, keys[0]) + 1))
  }

  lemma {:induction false} GoesOnLater(keys: seq<string>, order: seq<string>, d: nat, d': nat)
    requires GoesOn(keys, order, d) && d <= d'
    ensures GoesOn(keys, order, d') && Upto(keys, order, d') == Max(d', Upto(keys, order, d))
    decreases |keys|
  {
    if keys != [] {
      var next := At(order, keys[0]) + 1;
      GoesOnLater(keys[1..], order, Max(d, next), Max(d', next));
    }
  }

  /** Deleting the key when d are gone leaves d' gone. */
  predicate Deletes(entries: map<string, Entry>, order: seq<string>, d: nat, key: string, d': nat) {
    d <= d' <= |order| && After(entries, order, d) - {key} == After(entries, order, d')
  }

  lemma NextGone(entries: map<string, Entry>, order: seq<string>, d: nat, key: string)
    requires d < |order| && key == order[d]
    ensures Deletes(entries, order, d, key, d + 1)
  {
    OneMoreGone(entries, order, d);
  }

  lemma GoneAlready(entries: map<string, Entry>, order: seq<string>, d: nat, key: string)
    requires Ordered(entries, order) && d <= |order| && key in order && At(order, key) < d
    ensures Deletes(entries, order, d, key, d)
  {
    StillThere(entries, order, d, At(order, key));
    NothingDropped(After(entries, order, d), key);
  }

  /** One key deleted: the next of the order, or one already gone. */
  lemma OneDeleted(entries: map<string, Entry>, order: seq<string>, d: nat, key: string, d': nat)
    requires Ordered(entries, order) && d <= |order| && key in order && At(order, key) <= d
    requires d' == Max(d, At(order, key) + 1)
    ensures Deletes(entries, order, d, key, d')
  {
    if At(order, key) == d {
      NextGone(entries, order, d, key);
    } else {
      GoneAlready(entries, order, d, key);
    }
  }

  lemma NothingDropped(entries: map<string, Entry>, key: string)
    requires key !in entries
    ensures entries - {key} == entries
  {
  }

  lemma PartLess(part: map<string, Entry>, whole: map<string, Entry>, key: string)
    requires PartOf(part, whole)
    ensures PartOf(part - {key}, whole - {key})
  {
  }

  lemma {:induction false} AllDeleted(entries: map<string, Entry>, order: seq<string>, d: nat, keys: seq<string>)
    requires Ordered(entries, order) && d <= |order| && GoesOn(keys, order, d)
    ensures After(entries, order, d) - KeySetOf(keys) == After(entries, order, Upto(keys, order, d))
    decreases |keys|
  {
    var left := After(entries, order, d);
    if keys == [] {
      assert left - KeySetOf(keys) == left;
    } else {
      var d' := Max(d, At(order, keys[0]) + 1);
      OneDeleted(entries, order, d, keys[0], d');
      AllDeleted(entries, order, d', keys[1..]);
      FirstAndRest(left, keys);
    }
  }

  lemma FirstAndRest(entries: map<string, Entry>, keys: seq<string>)
    requires keys != []
    ensures entries - KeySetOf(keys) == entries - {keys[0]} - KeySetOf(keys[1..])
  {
    assert keys == [keys[0]] + keys[1..];
    assert KeySetOf(keys) == {keys[0]} + KeySetOf(keys[1..]);
  }

  /** Of a listing that has missed nothing still there, the first key is the next of the order or gone. */
  lemma FirstGoesOn(start: map<string, Entry>, order: seq<string>, d: nat, found: map<string, Entry>, key: string)
    requires Ordered(start, order) && d <= |order| && PartOf(found, start) && PartOf(After(start, order, d), found)
    requires key in found && forall k :: k in found ==> found[key].expiration <= found[k].expiration
    ensures key in order && At(order, key) <= d
  {
    var x := At(order, key);
    if d < |order| {
      StillThere(start, order, d, d);
      assert order[d] in found && found[key] == start[key] && found[order[d]] == start[order[d]];
      OrderDistinct(start, order, x, d);
    }
  }

  lemma {:induction false} EarliestGoesOn(start: map<string, Entry>, order: seq<string>, d: nat,
                                          found: map<string, Entry>, keys: seq<string>)
    requires Ordered(start, order) && d <= |order| && PartOf(found, start) && PartOf(After(start, order, d), found)
    requires Earliest(found, keys)
    ensures GoesOn(keys, order, d)
    decreases |keys|
  {
    if keys != [] {
      FirstGoesOn(start, order, d, found, keys[0]);
      var d' := Max(d, At(order, keys[0]) + 1);
      OneDeleted(start, order, d, keys[0], d');
      PartLess(After(start, order, d), found, keys[0]);
      EarliestGoesOn(start, order, d', found - {keys[0]}, keys[1..]);
    }
  }

  // ------------------------------------------------------------------ what every step keeps

  /** Every clean-up goes on along the order, none beyond m, and as long as fewer than m are gone w is
      still on its way there. */
  ghost predicate OnTheirWay(phases: seq<Phase>, order: seq<string>, d: nat, m: nat, w: nat) {
    && d <= m <= |order|
    && (forall p :: 0 <= p < |phases| ==> GoesOn(Keys(phases[p]), order, d) && Upto(Keys(phases[p]), order, d) <= m)
    && (d < m ==> w < |phases| && Upto(Keys(phases[w]), order, d) == m)
  }

  /** What listings in progress have found was there at the start, and what was there when they
      began includes all that is there now. */
  predicate Honest(phases: seq<Phase>, entries: map<string, Entry>, start: map<string, Entry>) {
    forall p :: 0 <= p < |phases| && phases[p].Listing? ==>
      PartOf(phases[p].found, phases[p].first) && PartOf(phases[p].first, start) && PartOf(entries, phases[p].first)
  }

  /** The first d of the order are gone, and the clean-ups are on their way to the m-th. */
  ghost predicate Inv(s: State, start: map<string, Entry>, order: seq<string>, d: nat, m: nat, w: nat) {
    && Ordered(start, order) && d <= |order|
    && s.entries == After(start, order, d)
    && OnTheirWay(s.phases, order, d, m, w)
    && Honest(s.phases, s.entries, start)
  }

  lemma StartInv(s: State, order: seq<string>)
    requires AllIdle(s) && Ordered(s.entries, order)
    ensures Inv(s, s.entries, order, 0, 0, 0)
  {
    assert KeySetOf(order[..0]) == {};
  }

  /** One clean-up goes on: p's keys become those of phase, and d' are gone. */
  lemma StepOnTheWay(phases: seq<Phase>, p: nat, phase: Phase, order: seq<string>, d: nat, d': nat, m: nat, w: nat)
    requires OnTheirWay(phases, order, d, m, w) && p < |phases| && d <= d' <= m
    requires GoesOn(Keys(phase), order, d') && Upto(Keys(phase), order, d') == Max(d', Upto(Keys(phases[p]), order, d))
    ensures OnTheirWay(phases[p := phase], order, d', m, w)
  {
    var after := phases[p := phase];
    forall q | 0 <= q < |after|
      ensures GoesOn(Keys(after[q]), order, d') && Upto(Keys(after[q]), order, d') <= m
      ensures d' < m && q == w ==> Upto(Keys(after[q]), order, d') == m
    {
      GoesOnLater(Keys(phases[q]), order, d, d');
    }
  }

  /** A step that leaves everybody's keys alone. */
  lemma SameKeys(phases: seq<Phase>, p: nat, phase: Phase, order: seq<string>, d: nat, m: nat, w: nat)
    requires OnTheirWay(phases, order, d, m, w) && p < |phases| && Keys(phase) == Keys(phases[p])
    ensures OnTheirWay(phases[p := phase], order, d, m, w)
  {
    GoesOnLater(Keys(phase), order, d, d);
    StepOnTheWay(phases, p, phase, order, d, d, m, w);
  }

  lemma Listed(phases: seq<Phase>, p: nat, phase: Phase, order: seq<string>, d: nat, m: nat, w: nat)
      returns (m': nat, w': nat)
    requires OnTheirWay(phases, order, d, m, w) && p < |phases| && Keys(phases[p]) == []
    requires GoesOn(Keys(phase), order, d)
    ensures m' == Max(m, Upto(Keys(phase), order, d)) && OnTheirWay(phases[p := phase], order, d, m', w')
  {
    var u := Upto(Keys(phase), order, d);
    m' := Max(m, u);
    w' := if m' == u then p else w;
  }

  lemma StaysHonest(phases: seq<Phase>, p: nat, phase: Phase, entries: map<string, Entry>, less: map<string, Entry>,
                    start: map<string, Entry>)
    requires Honest(phases, entries, start) && p < |phases| && PartOf(less, entries)
    requires phase.Listing? ==>
      PartOf(phase.found, phase.first) && PartOf(phase.first, start) && PartOf(less, phase.first)
    ensures Honest(phases[p := phase], less, start)
  {
  }

  /** The steps that neither end a listing nor delete. */
  lemma Preparing(s: State, step: Step, start: map<string, Entry>)
    requires Honest(s.phases, s.entries, start) && PartOf(s.entries, start) && Enabled(s, step) && CleansUp(step)
    requires !step.EndListing? && !step.DeleteNext? && !step.Tick?
    ensures var t := Apply(s, step);
      && t.entries == s.entries && step.p < |s.phases| && t.phases == s.phases[step.p := t.phases[step.p]]
      && Keys(t.phases[step.p]) == Keys(s.phases[step.p])
      && Honest(t.phases, t.entries, start)
  {
    var t := Apply(s, step);
    StaysHonest(s.phases, step.p, t.phases[step.p], s.entries, s.entries, start);
  }

  lemma AfterPartOf(start: map<string, Entry>, order: seq<string>, d: nat)
    requires d <= |order|
    ensures PartOf(After(start, order, d), start)
  {
  }

  lemma KeepsKeys(s: State, step: Step, start: map<string, Entry>, order: seq<string>, d: nat, m: nat, w: nat)
    requires Inv(s, start, order, d, m, w) && Enabled(s, step) && CleansUp(step)
    requires !step.EndListing? && !step.DeleteNext?
    ensures Inv(Apply(s, step), start, order, d, m, w)
  {
    if !step.Tick? {
      AfterPartOf(start, order, d);
      Preparing(s, step, start);
      SameKeys(s.phases, step.p, Apply(s, step).phases[step.p], order, d, m, w);
    }
  }

  /** Where a listing ends, it has found all that is still there, and goes on with that. */
  lemma ListingGoesOn(s: State, step: Step, start: map<string, Entry>, order: seq<string>, d: nat, m: nat, w: nat)
    requires Inv(s, start, order, d, m, w) && Enabled(s, step) && step.EndListing?
    ensures PartOf(s.phases[step.p].found, start) && PartOf(s.entries, s.phases[step.p].found)
    ensures GoesOn(step.keys, order, d)
  {
    EarliestGoesOn(start, order, d, s.phases[step.p].found, step.keys);
  }

  lemma AfterListing(s: State, step: Step)
    requires Enabled(s, step) && step.EndListing?
    ensures step.p < |s.phases| && Keys(s.phases[step.p]) == [] && Keys(GoOn(step.keys)) == step.keys
    ensures Apply(s, step).entries == s.entries && Apply(s, step).phases == s.phases[step.p := GoOn(step.keys)]
  {
  }

  lemma EndListingInv(s: State, step: Step, start: map<string, Entry>, order: seq<string>, d: nat, m: nat, w: nat)
      returns (m': nat, w': nat)
    requires Inv(s, start, order, d, m, w) && Enabled(s, step) && step.EndListing?
    ensures GoesOn(step.keys, order, d) && m' == Max(m, Upto(step.keys, order, d))
    ensures Inv(Apply(s, step), start, order, d, m', w')
  {
    ListingGoesOn(s, step, start, order, d, m, w);
    AfterListing(s, step);
    m', w' := Listed(s.phases, step.p, GoOn(step.keys), order, d, m, w);
    StaysHonest(s.phases, step.p, GoOn(step.keys), s.entries, s.entries, start);
  }

  lemma AfterDeletion(s: State, step: Step)
    requires Enabled(s, step) && step.DeleteNext?
    ensures var t, keys := Apply(s, step), Keys(s.phases[step.p]);
      && keys != [] && t.entries == s.entries - {keys[0]} && Keys(t.phases[step.p]) == keys[1..]
      && t.phases == s.phases[step.p := t.phases[step.p]] && !t.phases[step.p].Listing?
  {
  }

  lemma DeleteNextInv(s: State, step: Step, start: map<string, Entry>, order: seq<string>, d: nat, m: nat, w: nat)
      returns (d': nat)
    requires Inv(s, start, order, d, m, w) && Enabled(s, step) && step.DeleteNext?
    ensures 0 < d' && Inv(Apply(s, step), start, order, d', m, w)
  {
    AfterDeletion(s, step);
    var t, keys := Apply(s, step), Keys(s.phases[step.p]);
    d' := DeletesNext(keys, start, order, d, m);
    StepOnTheWay(s.phases, step.p, t.phases[step.p], order, d, d', m, w);
    StaysHonest(s.phases, step.p, t.phases[step.p], s.entries, t.entries, start);
  }

  lemma DeletesNext(keys: seq<string>, start: map<string, Entry>, order: seq<string>, d: nat, m: nat)
      returns (d': nat)
    requires Ordered(start, order) && d <= m <= |order|
    requires keys != [] && GoesOn(keys, order, d) && Upto(keys, order, d) <= m
    ensures d <= d' && 0 < d' <= m && After(start, order, d) - {keys[0]} == After(start, order, d')
    ensures GoesOn(keys[1..], order, d') && Upto(keys[1..], order, d') == Max(d', Upto(keys, order, d))
    ensures PartOf(After(start, order, d'), After(start, order, d))
  {
    d' := Max(d, At(order, keys[0]) + 1);
    OneDeleted(start, order, d, keys[0], d');
  }

  lemma EndIs(s: State, step: Step, start: map<string, Entry>, order: seq<string>, d: nat, m: nat, w: nat)
    requires Inv(s, start, order, d, m, w) && (step.EndListing? ==> GoesOn(step.keys, order, d))
    ensures |s.entries| == |start| - d && |start| == |order|
    ensures End(s, step, |start|) == if step.EndListing? then Upto(step.keys, order, d) else 0
  {
    AfterSize(start, order, d);
    if step.EndListing? {
      AllDeleted(start, order, d, step.keys);
      AfterSize(start, order, Upto(step.keys, order, d));
    }
  }

  lemma StepInv(s: State, step: Step, start: map<string, Entry>, order: seq<string>, d: nat, m: nat, w: nat)
      returns (d': nat, m': nat, w': nat)
    requires Inv(s, start, order, d, m, w) && Enabled(s, step) && CleansUp(step)
    ensures m' == Max(m, End(s, step, |start|)) && Inv(Apply(s, step), start, order, d', m', w')
  {
    d', m', w' := d, m, w;
    if step.EndListing? {
      m', w' := EndListingInv(s, step, start, order, d, m, w);
    } else if step.DeleteNext? {
      d' := DeleteNextInv(s, step, start, order, d, m, w);
    } else {
      KeepsKeys(s, step, start, order, d, m, w);
    }
    EndIs(s, step, start, order, d, m, w);
  }

  lemma {:induction false} RunInv(s: State, steps: seq<Step>, start: map<string, Entry>, order: seq<string>,
                                  d: nat, m: nat, w: nat) returns (d': nat, m': nat, w': nat)
    requires Inv(s, start, order, d, m, w) && Schedule(s, steps) && OnlyCleanUps(steps)
    ensures m' == Max(m, Farthest(s, steps, |start|)) && Inv(Run(s, steps), start, order, d', m', w')
    decreases |steps|
  {
    if steps == [] {
      d', m', w' := d, m, w;
    } else {
      var d1, m1, w1 := StepInv(s, steps[0], start, order, d, m, w);
      d', m', w' := RunInv(Apply(s, steps[0]), steps[1..], start, order, d1, m1, w1);
    }
  }

  // ------------------------------------------------------------------ how many are left

  /** after is before without n entries, each of which would have expired before any that stays. */
  predicate OldestGone(before: map<string, Entry>, after: map<string, Entry>, n: int) {
    && after.Keys <= before.Keys
    && (forall k :: k in after ==> after[k] == before[k])
    && |after| + n == |before|
    && (forall k, l :: k in before && k !in after && l in after ==> before[k].expiration < after[l].expiration)
  }

  lemma PrefixIsOldest(entries: map<string, Entry>, order: seq<string>, d: nat)
    requires Ordered(entries, order) && d <= |order|
    ensures OldestGone(entries, After(entries, order, d), d)
  {
    var after := After(entries, order, d);
    AfterSize(entries, order, d);
    forall k, l | k in entries && k !in after && l in after
      ensures entries[k].expiration < after[l].expiration
    {
      var i :| 0 <= i < |order| && order[i] == k;
      var j :| 0 <= j < |order| && order[j] == l;
      StillThere(entries, order, d, i);
      StillThere(entries, order, d, j);
    }
  }

  /** However clean-ups overlap, and whatever their limits: once they are through, the entries that
      expire first are gone, and as many of them as the farthest listing reached. */
  lemma LeftOver(s: State, steps: seq<Step>)
    requires AllIdle(s) && DistinctExpirations(s.entries)
    requires Schedule(s, steps) && OnlyCleanUps(steps) && NoKeysLeft(Run(s, steps))
    ensures OldestGone(s.entries, Run(s, steps).entries, Farthest(s, steps, |s.entries|))
  {
    var order := OrderExists(s.entries);
    StartInv(s, order);
    var d, m, w := RunInv(s, steps, s.entries, order, 0, 0, 0);
    PrefixIsOldest(s.entries, order, d);
  }

  // ------------------------------------------------------------------ when the limit is what is left

  predicate OneLimit(steps: seq<Step>, max: uint64) {
    forall i :: 0 <= i < |steps| && steps[i].ReadCounter? ==> steps[i].max == max
  }

  lemma Tail(steps: seq<Step>, max: uint64)
    requires steps != [] && OnlyCleanUps(steps) && OneLimit(steps, max)
    ensures CleansUp(steps[0]) && (steps[0].ReadCounter? ==> steps[0].max == max)
    ensures OnlyCleanUps(steps[1..]) && OneLimit(steps[1..], max)
  {
  }

  predicate SomebodyLists(steps: seq<Step>) {
    exists i :: 0 <= i < |steps| && steps[i].EndListing?
  }

  /** A clean-up that is going to delete has found as many items as the counter it read has counted. */
  predicate FindsWhatItCounted(s: State, step: Step, max: uint64)
    requires Enabled(s, step)
  {
    step.EndListing? && s.phases[step.p].amount > 0 ==> |s.phases[step.p].found| == s.phases[step.p].amount + max
  }

  ghost predicate AllFindWhatTheyCounted(s: State, steps: seq<Step>, max: uint64)
    requires Schedule(s, steps)
    decreases |steps|
  {
    steps == [] || (FindsWhatItCounted(s, steps[0], max) && AllFindWhatTheyCounted(Apply(s, steps[0]), steps[1..], max))
  }

  /** The counter runs ahead of the map, never beyond the size at the start, and so do the clean-ups
      that have read it. */
  predicate RunsAhead(s: State, start: map<string, Entry>, max: uint64) {
    && Exact(s) && PartOf(s.entries, start) && Honest(s.phases, s.entries, start)
    && (forall p :: 0 <= p < |s.phases| ==> Owes(s.phases[p]) <= 0)
    && |s.entries| - Owed(s.phases) <= |start|
    && (forall p :: 0 <= p < |s.phases| ==> CountedAhead(s.phases[p], |s.entries|, |start|, max))
  }

  predicate CountedAhead(phase: Phase, left: nat, size: nat, max: uint64) {
    match phase
    case Counted(amount) => left <= amount + max <= size
    case Listing(amount, first, _) => |first| <= amount + max <= size
    case _ => true
  }

  lemma {:induction false} OwedAtMostZero(phases: seq<Phase>)
    requires forall p :: 0 <= p < |phases| ==> Owes(phases[p]) <= 0
    ensures Owed(phases) <= 0
  {
    if phases != [] {
      OwedAtMostZero(phases[1..]);
    }
  }

  lemma Plan(count: nat, max: uint64)
    requires count < TWO_63 && max - count <= TWO_63
    ensures Wrap(count) == count && ToInt(Wrap(count - max)) == count - max
  {
    assert count < max ==> Wrap(count - max) == count - max + TWO_64;
  }

  /** The phase of p changes, and so may the entries, which only become fewer. */
  lemma AheadNext(s: State, t: State, p: nat, start: map<string, Entry>, max: uint64)
    requires RunsAhead(s, start, max) && p < |s.phases| == |t.phases|
    requires t.phases == s.phases[p := t.phases[p]] && PartOf(t.entries, s.entries) && |t.entries| <= |s.entries|
    requires Exact(t) && Owes(t.phases[p]) <= 0 && Honest(t.phases, t.entries, start)
    requires |t.entries| + Owes(s.phases[p]) - Owes(t.phases[p]) <= |s.entries|
    requires CountedAhead(t.phases[p], |t.entries|, |start|, max)
    ensures RunsAhead(t, start, max)
  {
    OwedUpdate(s.phases, p, t.phases[p]);
    forall q | 0 <= q < |t.phases| ensures CountedAhead(t.phases[q], |t.entries|, |start|, max) {
      if q != p {
        assert t.phases[q] == s.phases[q];
      }
    }
  }

  lemma ReadsAhead(s: State, step: Step, size: nat, max: uint64)
    requires Exact(s) && Owed(s.phases) <= 0 && |s.entries| - Owed(s.phases) <= size && 0 < max < size < TWO_63
    requires Enabled(s, step) && step.ReadCounter? && step.max == max
    ensures var phase := Apply(s, step).phases[step.p];
      phase.Idle? || (phase.Counted? && |s.entries| <= phase.amount + max <= size)
  {
    var count := |s.entries| - Owed(s.phases);
    Plan(count, max);
    assert s.counter == count;
  }

  lemma PreparesAhead(s: State, step: Step, start: map<string, Entry>, max: uint64)
    requires RunsAhead(s, start, max) && 0 < max < |start| < TWO_63
    requires Enabled(s, step) && CleansUp(step) && (step.ReadCounter? ==> step.max == max)
    requires !step.EndListing? && !step.DeleteNext? && !step.Tick?
    ensures RunsAhead(Apply(s, step), start, max)
  {
    if step.ReadCounter? {
      OwedAtMostZero(s.phases);
      ReadsAhead(s, step, |start|, max);
    }
    Preparing(s, step, start);
    StepExact(s, step);
    AheadNext(s, Apply(s, step), step.p, start, max);
  }

  lemma DeletesAhead(s: State, step: Step, start: map<string, Entry>, max: uint64)
    requires RunsAhead(s, start, max) && Enabled(s, step) && (step.DeleteNext? || step.EndListing?)
    ensures RunsAhead(Apply(s, step), start, max)
  {
    var t := Apply(s, step);
    if step.DeleteNext? {
      AfterDeletion(s, step);
      SizeAfterDelete(s.entries, s.phases[step.p].keys[0]);
    } else {
      AfterListing(s, step);
    }
    StaysHonest(s.phases, step.p, t.phases[step.p], s.entries, t.entries, start);
    StepExact(s, step);
    AheadNext(s, t, step.p, start, max);
  }

  lemma StepAhead(s: State, step: Step, start: map<string, Entry>, max: uint64)
    requires RunsAhead(s, start, max) && 0 < max < |start| < TWO_63
    requires Enabled(s, step) && CleansUp(step) && (step.ReadCounter? ==> step.max == max)
    ensures RunsAhead(Apply(s, step), start, max)
  {
    if step.DeleteNext? || step.EndListing? {
      DeletesAhead(s, step, start, max);
    } else if !step.Tick? {
      PreparesAhead(s, step, start, max);
    }
  }

  // ------------------------------------------------------------------ where a listing reaches

  lemma PartSize(part: map<string, Entry>, whole: map<string, Entry>)
    requires PartOf(part, whole)
    ensures |part| <= |whole| && (|part| == |whole| ==> part == whole)
  {
    assert part.Keys <= whole.Keys && |part.Keys| == |part| && |whole.Keys| == |whole|;
    SubsetSize(part.Keys, whole.Keys);
  }

  lemma SubsetSize(part: set<string>, whole: set<string>)
    requires part <= whole
    ensures |part| <= |whole| && (|part| == |whole| ==> part == whole)
  {
    assert whole == part + (whole - part) && |whole| == |part| + |whole - part|;
  }

  lemma {:induction false} EarliestLeaves(found: map<string, Entry>, keys: seq<string>)
    requires Earliest(found, keys)
    ensures |found - KeySetOf(keys)| == |found| - |keys|
    decreases |keys|
  {
    if keys == [] {
      NoKeysGone(found);
    } else {
      EarliestLeaves(found - {keys[0]}, keys[1..]);
      OneKeyMore(found, keys);
    }
  }

  lemma NoKeysGone(found: map<string, Entry>)
    ensures found - KeySetOf([]) == found
  {
  }

  lemma OneKeyMore(found: map<string, Entry>, keys: seq<string>)
    requires keys != [] && keys[0] in found
    requires |found - {keys[0]} - KeySetOf(keys[1..])| == |found - {keys[0]}| - |keys[1..]|
    ensures |found - KeySetOf(keys)| == |found| - |keys|
  {
    SizeAfterDelete(found, keys[0]);
    FirstAndRest(found, keys);
  }

  lemma {:induction false} EarliestBefore(found: map<string, Entry>, keys: seq<string>, k: string, l: string)
    requires Earliest(found, keys) && k in keys && l in found && l !in keys
    ensures k in found && found[k].expiration <= found[l].expiration
    decreases |keys|
  {
    if k != keys[0] {
      var rest := keys[1..];
      assert keys == [keys[0]] + rest;
      EarliestBefore(found - {keys[0]}, rest, k, l);
    }
  }

  /** What is known where a listing ends: it has found all that is there now, no more than was
      counted, and deleting its keys leaves no more of what is there now than of what it found. */
  lemma Ended(s: State, step: Step, start: map<string, Entry>, max: uint64)
    requires RunsAhead(s, start, max) && Enabled(s, step) && step.EndListing?
    ensures var listing := s.phases[step.p];
      && |listing.found| <= listing.amount + max <= |start|
      && |step.keys| == Count(listing.amount, |listing.found|)
      && |s.entries - KeySetOf(step.keys)| <= |listing.found| - |step.keys|
      && PartOf(s.entries - KeySetOf(step.keys), listing.found - KeySetOf(step.keys))
  {
    var listing := s.phases[step.p];
    assert CountedAhead(listing, |s.entries|, |start|, max);
    PartSize(listing.found, listing.first);
    assert PartOf(s.entries, listing.found);
    EarliestLeaves(listing.found, step.keys);
    PartSize(s.entries - KeySetOf(step.keys), listing.found - KeySetOf(step.keys));
  }

  /** A listing reaches the excess at least, and beyond it if it has missed something counted. */
  lemma EndAtLeast(s: State, step: Step, start: map<string, Entry>, max: uint64)
    requires RunsAhead(s, start, max) && 0 < max < |start|
    requires Enabled(s, step) && step.EndListing?
    ensures End(s, step, |start|) >= |start| - max
    ensures !FindsWhatItCounted(s, step, max) ==> End(s, step, |start|) > |start| - max
  {
    Ended(s, step, start, max);
  }

  lemma {:induction false} LastDeleted(keys: seq<string>, order: seq<string>, d: nat)
    requires GoesOn(keys, order, d) && d <= |order| && Upto(keys, order, d) > d
    ensures order[Upto(keys, order, d) - 1] in keys
    decreases |keys|
  {
    var d' := Max(d, At(order, keys[0]) + 1);
    if Upto(keys[1..], order, d') > d' {
      LastDeleted(keys[1..], order, d');
    }
  }

  /** What is found and not going to be deleted comes behind the last key that is. */
  lemma IsBehind(start: map<string, Entry>, order: seq<string>, found: map<string, Entry>, keys: seq<string>, u: nat,
                 l: string)
    requires Ordered(start, order) && 0 < u <= |order| && PartOf(found, start) && Earliest(found, keys)
    requires order[u - 1] in keys && l in found && l !in keys
    ensures l in After(start, order, u)
  {
    EarliestBefore(found, keys, order[u - 1], l);
    var x := InOrder(start, order, l);
    OrderDistinct(start, order, u - 1, x);
    StillThere(start, order, u, x);
  }

  lemma RestIsBehind(start: map<string, Entry>, order: seq<string>, d: nat, found: map<string, Entry>,
                     keys: seq<string>)
    requires Ordered(start, order) && d <= |order| && PartOf(found, start) && Earliest(found, keys)
    requires GoesOn(keys, order, d) && Upto(keys, order, d) > d
    ensures PartOf(found - KeySetOf(keys), After(start, order, Upto(keys, order, d)))
  {
    var u := Upto(keys, order, d);
    LastDeleted(keys, order, d);
    forall l | l in found - KeySetOf(keys) ensures l in After(start, order, u) {
      IsBehind(start, order, found, keys, u, l);
    }
  }

  lemma NoMoreThanFound(start: map<string, Entry>, order: seq<string>, d: nat, found: map<string, Entry>,
                        keys: seq<string>)
    requires Ordered(start, order) && d <= |order| && PartOf(found, start) && Earliest(found, keys)
    requires GoesOn(keys, order, d) && Upto(keys, order, d) > d
    ensures |found| - |keys| <= |After(start, order, Upto(keys, order, d))|
  {
    EarliestLeaves(found, keys);
    RestIsBehind(start, order, d, found, keys);
    PartSize(found - KeySetOf(keys), After(start, order, Upto(keys, order, d)));
  }

  /** A listing of all that was counted reaches the excess, or nothing that is not gone. */
  lemma EndAtMost(s: State, step: Step, start: map<string, Entry>, order: seq<string>, d: nat, m: nat, w: nat,
                  max: uint64)
    requires Inv(s, start, order, d, m, w) && RunsAhead(s, start, max) && 0 < max < |start|
    requires Enabled(s, step) && step.EndListing? && FindsWhatItCounted(s, step, max)
    ensures End(s, step, |start|) == |start| - max || End(s, step, |start|) == d
  {
    var found, keys := s.phases[step.p].found, step.keys;
    ListingGoesOn(s, step, start, order, d, m, w);
    EndIs(s, step, start, order, d, m, w);
    Ended(s, step, start, max);
    if Upto(keys, order, d) > d {
      NoMoreThanFound(start, order, d, found, keys);
      AllDeleted(start, order, d, keys);
      AfterSize(start, order, Upto(keys, order, d));
    }
  }

  // ------------------------------------------------------------------ the exact condition

  lemma {:induction false} FarthestIfListed(s: State, steps: seq<Step>, start: map<string, Entry>, max: uint64)
    requires RunsAhead(s, start, max) && 0 < max < |start| < TWO_63
    requires Schedule(s, steps) && OnlyCleanUps(steps) && OneLimit(steps, max)
    ensures SomebodyLists(steps) ==> Farthest(s, steps, |start|) >= |start| - max
    ensures !SomebodyLists(steps) ==> Farthest(s, steps, |start|) == 0
    ensures !AllFindWhatTheyCounted(s, steps, max) ==> Farthest(s, steps, |start|) > |start| - max
    decreases |steps|
  {
    if steps != [] {
      Tail(steps, max);
      FirstStep(s, steps, |start|, max);
      ListsInRest(steps);
      StepAhead(s, steps[0], start, max);
      FarthestIfListed(Apply(s, steps[0]), steps[1..], start, max);
      if steps[0].EndListing? {
        EndAtLeast(s, steps[0], start, max);
      }
    }
  }

  lemma ListsInRest(steps: seq<Step>)
    requires steps != []
    ensures SomebodyLists(steps) <==> steps[0].EndListing? || SomebodyLists(steps[1..])
  {
    assert forall i :: 0 < i < |steps| ==> steps[i] == steps[1..][i - 1];
  }

  lemma FirstStep(s: State, steps: seq<Step>, size: nat, max: uint64)
    requires steps != [] && Schedule(s, steps)
    ensures Enabled(s, steps[0]) && Schedule(Apply(s, steps[0]), steps[1..])
    ensures Farthest(s, steps, size) == Max(End(s, steps[0], size), Farthest(Apply(s, steps[0]), steps[1..], size))
    ensures AllFindWhatTheyCounted(s, steps, max) <==>
            FindsWhatItCounted(s, steps[0], max) && AllFindWhatTheyCounted(Apply(s, steps[0]), steps[1..], max)
  {
  }

  /** Nobody has listed farther than the excess. */
  ghost predicate WithinExcess(s: State, start: map<string, Entry>, order: seq<string>, d: nat, m: nat, w: nat,
                               max: uint64) {
    Inv(s, start, order, d, m, w) && RunsAhead(s, start, max) && m <= |start| - max
  }

  lemma StepWithin(s: State, step: Step, start: map<string, Entry>, order: seq<string>, d: nat, m: nat, w: nat,
                   max: uint64) returns (d': nat, m': nat, w': nat)
    requires WithinExcess(s, start, order, d, m, w, max) && 0 < max < |start| < TWO_63
    requires Enabled(s, step) && CleansUp(step) && (step.ReadCounter? ==> step.max == max)
    requires FindsWhatItCounted(s, step, max)
    ensures End(s, step, |start|) <= |start| - max
    ensures WithinExcess(Apply(s, step), start, order, d', m', w', max)
  {
    if step.EndListing? {
      EndAtMost(s, step, start, order, d, m, w, max);
    }
    StepAhead(s, step, start, max);
    d', m', w' := StepInv(s, step, start, order, d, m, w);
  }

  lemma {:induction false} FarthestAtMost(s: State, steps: seq<Step>, start: map<string, Entry>, order: seq<string>,
                                          d: nat, m: nat, w: nat, max: uint64)
    requires WithinExcess(s, start, order, d, m, w, max) && 0 < max < |start| < TWO_63
    requires Schedule(s, steps) && OnlyCleanUps(steps) && OneLimit(steps, max)
    requires AllFindWhatTheyCounted(s, steps, max)
    ensures Farthest(s, steps, |start|) <= |start| - max
    decreases |steps|
  {
    if steps != [] {
      Tail(steps, max);
      FirstStep(s, steps, |start|, max);
      var step, rest, next := steps[0], steps[1..], Apply(s, steps[0]);
      var d', m', w' := StepWithin(s, step, start, order, d, m, w, max);
      FarthestAtMost(next, rest, start, order, d', m', w', max);
    }
  }

  lemma IdleRunsAhead(s: State, max: uint64)
    requires Exact(s) && AllIdle(s)
    ensures RunsAhead(s, s.entries, max) && s.counter == Wrap(|s.entries|) && NoKeysLeft(s)
  {
    NothingOwed(s.phases);
  }

  lemma Excess(s: State, steps: seq<Step>, max: uint64)
    requires Exact(s) && AllIdle(s) && DistinctExpirations(s.entries) && 0 < max < |s.entries| < TWO_63
    requires Schedule(s, steps) && OnlyCleanUps(steps) && OneLimit(steps, max) && NoKeysLeft(Run(s, steps))
    ensures |Run(s, steps).entries| == max <==> SomebodyLists(steps) && AllFindWhatTheyCounted(s, steps, max)
  {
    IdleRunsAhead(s, max);
    LeftOver(s, steps);
    FarthestIfListed(s, steps, s.entries, max);
    if AllFindWhatTheyCounted(s, steps, max) {
      var order := OrderExists(s.entries);
      StartInv(s, order);
      FarthestAtMost(s, steps, s.entries, order, 0, 0, 0, max);
    }
  }

  /** Below the limit nobody has anything to delete. */
  predicate Untouched(s: State, start: map<string, Entry>) {
    && s.entries == start && s.counter == Wrap(|start|)
    && forall p :: 0 <= p < |s.phases| ==> NothingPlanned(s.phases[p])
  }

  predicate NothingPlanned(phase: Phase) {
    phase.Idle? || ((phase.Counted? || phase.Listing?) && phase.amount <= 0)
  }

  lemma StepUntouched(s: State, step: Step, start: map<string, Entry>, max: uint64)
    requires Untouched(s, start) && |start| <= max && |start| < TWO_63 && max - |start| <= TWO_63
    requires Enabled(s, step) && CleansUp(step) && (step.ReadCounter? ==> step.max == max)
    ensures Untouched(Apply(s, step), start)
  {
    Plan(|start|, max);
    if !step.Tick? {
      var t := Apply(s, step);
      NothingToDelete(s, step, start, max);
      assert t.phases == s.phases[step.p := t.phases[step.p]];
    }
  }

  lemma NothingToDelete(s: State, step: Step, start: map<string, Entry>, max: uint64)
    requires Untouched(s, start) && |start| <= max && ToInt(Wrap(|start| - max)) == |start| - max
    requires Enabled(s, step) && CleansUp(step) && !step.Tick? && (step.ReadCounter? ==> step.max == max)
    ensures var t := Apply(s, step); t.entries == start && t.counter == s.counter
    ensures NothingPlanned(Apply(s, step).phases[step.p])
    ensures Apply(s, step).phases == s.phases[step.p := Apply(s, step).phases[step.p]]
  {
    assert step.EndListing? ==> step.keys == [];
  }

  lemma {:induction false} RunUntouched(s: State, steps: seq<Step>, start: map<string, Entry>, max: uint64)
    requires Untouched(s, start) && |start| <= max && |start| < TWO_63 && max - |start| <= TWO_63
    requires Schedule(s, steps) && OnlyCleanUps(steps) && OneLimit(steps, max)
    ensures Run(s, steps).entries == start
    decreases |steps|
  {
    if steps != [] {
      StepUntouched(s, steps[0], start, max);
      RunUntouched(Apply(s, steps[0]), steps[1..], start, max);
    }
  }

  /** Clean-ups without a limit never delete anything, whatever they overlap with. */
  lemma {:induction false} NoLimitNothingDeleted(s: State, steps: seq<Step>)
    requires AllIdle(s) && Schedule(s, steps) && OnlyCleanUps(steps) && OneLimit(steps, 0)
    ensures AllIdle(Run(s, steps)) && Run(s, steps).entries == s.entries
    decreases |steps|
  {
    if steps != [] {
      Tail(steps, 0);
      NoLimitNothingDeleted(Apply(s, steps[0]), steps[1..]);
    }
  }

  /** Any number of clean-ups of one limit, in any interleaving: min(size, max) entries are left if and
      only if there is no excess, or somebody lists and every listing finds as many items as the
      counter had said. */
  lemma CleanUpsExactly(s: State, steps: seq<Step>, max: uint64)
    requires Exact(s) && AllIdle(s) && DistinctExpirations(s.entries)
    requires 0 < max && |s.entries| < TWO_63 && max - |s.entries| <= TWO_63
    requires Schedule(s, steps) && OnlyCleanUps(steps) && OneLimit(steps, max) && NoKeysLeft(Run(s, steps))
    ensures |Run(s, steps).entries| == Min(|s.entries|, max) <==>
            |s.entries| <= max || (SomebodyLists(steps) && AllFindWhatTheyCounted(s, steps, max))
  {
    IdleRunsAhead(s, max);
    if |s.entries| <= max {
      RunUntouched(s, steps, s.entries, max);
    } else {
      Excess(s, steps, max);
    }
  }

  // ------------------------------------------------------------------ counters read before anything is deleted

  predicate ReadsComeFirst(steps: seq<Step>) {
    forall i, j :: 0 <= i < j < |steps| && steps[i].DeleteNext? ==> !steps[j].ReadCounter?
  }

  /** A listing ends after something has been deleted. */
  predicate SomebodyListsLate(steps: seq<Step>) {
    exists i, j :: 0 <= i < j < |steps| && steps[i].DeleteNext? && steps[j].EndListing?
  }

  predicate FindsEverything(s: State, step: Step, size: nat)
    requires Enabled(s, step)
  {
    step.EndListing? ==> |s.phases[step.p].found| == size
  }

  ghost predicate AllFindEverything(s: State, steps: seq<Step>, size: nat)
    requires Schedule(s, steps)
    decreases |steps|
  {
    steps == [] || (FindsEverything(s, steps[0], size) && AllFindEverything(Apply(s, steps[0]), steps[1..], size))
  }

  lemma LateInRest(steps: seq<Step>)
    requires steps != []
    ensures SomebodyListsLate(steps)
            <==> SomebodyListsLate(steps[1..]) || (steps[0].DeleteNext? && SomebodyLists(steps[1..]))
  {
    assert forall i :: 0 < i < |steps| ==> steps[i] == steps[1..][i - 1];
  }

  /** Everybody has read the full size; the counter shows it as long as no deletion has begun. */
  predicate AllReadTheSize(s: State, size: nat, max: uint64, begun: bool) {
    && (forall p :: 0 <= p < |s.phases| && (s.phases[p].Counted? || s.phases[p].Listing?) ==>
          s.phases[p].amount == size - max)
    && (!begun ==> s.counter == Wrap(size) && forall p :: 0 <= p < |s.phases| ==> Owes(s.phases[p]) == 0)
  }

  lemma StepReads(s: State, step: Step, size: nat, max: uint64, begun: bool)
    requires AllReadTheSize(s, size, max, begun) && 0 < max < size < TWO_63
    requires Enabled(s, step) && CleansUp(step) && (step.ReadCounter? ==> step.max == max && !begun)
    ensures AllReadTheSize(Apply(s, step), size, max, begun || step.DeleteNext?)
  {
    Plan(size, max);
    if !step.Tick? {
      ReadsOne(s, step, size, max, begun);
    }
  }

  lemma ReadsOne(s: State, step: Step, size: nat, max: uint64, begun: bool)
    requires AllReadTheSize(s, size, max, begun) && ToInt(Wrap(size - max)) == size - max
    requires Enabled(s, step) && CleansUp(step) && !step.Tick? && (step.ReadCounter? ==> step.max == max && !begun)
    ensures var t := Apply(s, step);
      && t.phases == s.phases[step.p := t.phases[step.p]]
      && (t.phases[step.p].Counted? || t.phases[step.p].Listing? ==> t.phases[step.p].amount == size - max)
      && (!begun && !step.DeleteNext? ==> t.counter == s.counter && Owes(t.phases[step.p]) == 0)
  {
  }

  lemma ReadsTail(steps: seq<Step>, begun: bool)
    requires steps != [] && ReadsComeFirst(steps)
    requires begun ==> forall i :: 0 <= i < |steps| ==> !steps[i].ReadCounter?
    ensures ReadsComeFirst(steps[1..])
    ensures begun || steps[0].DeleteNext? ==> forall i :: 0 <= i < |steps[1..]| ==> !steps[1..][i].ReadCounter?
  {
  }

  lemma {:induction false} EverythingCounted(s: State, steps: seq<Step>, size: nat, max: uint64, begun: bool)
    requires AllReadTheSize(s, size, max, begun) && 0 < max < size < TWO_63
    requires Schedule(s, steps) && OnlyCleanUps(steps) && OneLimit(steps, max) && ReadsComeFirst(steps)
    requires begun ==> forall i :: 0 <= i < |steps| ==> !steps[i].ReadCounter?
    ensures AllFindWhatTheyCounted(s, steps, max) <==> AllFindEverything(s, steps, size)
    decreases |steps|
  {
    if steps != [] {
      Tail(steps, max);
      ReadsTail(steps, begun);
      StepReads(s, steps[0], size, max, begun);
      EverythingCounted(Apply(s, steps[0]), steps[1..], size, max, begun || steps[0].DeleteNext?);
      assert FindsWhatItCounted(s, steps[0], max) <==> FindsEverything(s, steps[0], size);
    }
  }

  /** Before anything is deleted a listing finds everything. */
  lemma EarlyFindsEverything(s: State, step: Step, start: map<string, Entry>, max: uint64)
    requires RunsAhead(s, start, max) && s.entries == start && Enabled(s, step)
    ensures FindsEverything(s, step, |start|)
  {
    if step.EndListing? {
      Ended(s, step, start, max);
      PartSize(s.entries, s.phases[step.p].found);
    }
  }

  lemma {:induction false} NobodyLate(s: State, steps: seq<Step>, start: map<string, Entry>, max: uint64, begun: bool)
    requires RunsAhead(s, start, max) && 0 < max < |start| < TWO_63 && (!begun ==> s.entries == start)
    requires Schedule(s, steps) && OnlyCleanUps(steps) && OneLimit(steps, max)
    requires if begun then !SomebodyLists(steps) else !SomebodyListsLate(steps)
    ensures AllFindEverything(s, steps, |start|)
    decreases |steps|
  {
    if steps != [] {
      Tail(steps, max);
      LateInRest(steps);
      ListsInRest(steps);
      if !begun {
        EarlyFindsEverything(s, steps[0], start, max);
      }
      StepAhead(s, steps[0], start, max);
      NobodyLate(Apply(s, steps[0]), steps[1..], start, max, begun || steps[0].DeleteNext?);
    }
  }

  /** Where everybody reads the counter before anything is deleted: exactly if every listing finds
      everything there was, as it does when all end before the first deletion. */
  lemma ReadFirstExactly(s: State, steps: seq<Step>, max: uint64)
    requires Exact(s) && AllIdle(s) && DistinctExpirations(s.entries)
    requires 0 < max && |s.entries| < TWO_63 && max - |s.entries| <= TWO_63
    requires Schedule(s, steps) && OnlyCleanUps(steps) && OneLimit(steps, max) && NoKeysLeft(Run(s, steps))
    requires ReadsComeFirst(steps)
    ensures |Run(s, steps).entries| == Min(|s.entries|, max) <==>
            |s.entries| <= max || (SomebodyLists(steps) && AllFindEverything(s, steps, |s.entries|))
    ensures |s.entries| > max && !SomebodyListsLate(steps) ==> AllFindEverything(s, steps, |s.entries|)
  {
    CleanUpsExactly(s, steps, max);
    if |s.entries| > max {
      IdleRunsAhead(s, max);
      EverythingCounted(s, steps, |s.entries|, max, false);
      if !SomebodyListsLate(steps) {
        NobodyLate(s, steps, s.entries, max, false);
      }
    }
  }

  // ------------------------------------------------------------------ runs that delete too much

  ghost predicate Reached(goroutines: nat, now: Time, s: State) {
    exists steps: seq<Step> :: Schedule(Initial(goroutines, now), steps) && Run(Initial(goroutines, now), steps) == s
  }

  /** Clean-ups of this limit can empty the cache; listed: each listing the number it counted. */
  ghost predicate CanEmpty(s: State, max: uint64, listed: bool) {
    exists steps: seq<Step> :: Empties(s, steps, max, listed)
  }

  ghost predicate Empties(s: State, steps: seq<Step>, max: uint64, listed: bool) {
    && Schedule(s, steps) && OnlyCleanUps(steps) && OneLimit(steps, max)
    && AllIdle(Run(s, steps)) && Run(s, steps).entries == map[]
    && (listed ==> AllFindWhatTheyCounted(s, steps, max))
  }

  lemma EmptyAlready(s: State, max: uint64, listed: bool)
    requires AllIdle(s) && s.entries == map[]
    ensures CanEmpty(s, max, listed)
  {
    assert Empties(s, [], max, listed);
  }

  lemma EmptiesBefore(s: State, step: Step, max: uint64, listed: bool)
    requires Enabled(s, step) && CleansUp(step) && (step.ReadCounter? ==> step.max == max)
    requires listed ==> FindsWhatItCounted(s, step, max)
    requires CanEmpty(Apply(s, step), max, listed)
    ensures CanEmpty(s, max, listed)
  {
    var rest: seq<Step> :| Empties(Apply(s, step), rest, max, listed);
    var steps := [step] + rest;
    assert steps[0] == step && steps[1..] == rest;
    assert Schedule(s, steps) && Run(s, steps) == Run(Apply(s, step), rest);
    assert Empties(s, steps, max, listed);
  }

  lemma {:induction false} RunAppend(s: State, steps: seq<Step>, step: Step)
    requires Schedule(s, steps) && Enabled(Run(s, steps), step)
    ensures Schedule(s, steps + [step]) && Run(s, steps + [step]) == Apply(Run(s, steps), step)
    decreases |steps|
  {
    var longer := steps + [step];
    if steps == [] {
      assert longer[0] == step && longer[1..] == [];
    } else {
      assert longer[0] == steps[0] && longer[1..] == steps[1..] + [step];
      RunAppend(Apply(s, steps[0]), steps[1..], step);
    }
  }

  lemma ReachedNext(goroutines: nat, now: Time, s: State, step: Step)
    requires Reached(goroutines, now, s) && Enabled(s, step)
    ensures Reached(goroutines, now, Apply(s, step))
  {
    var s0 := Initial(goroutines, now);
    var steps: seq<Step> :| Schedule(s0, steps) && Run(s0, steps) == s;
    RunAppend(s0, steps, step);
    assert Schedule(s0, steps + [step]);
  }

  /** Two entries in a cache that nobody is busy with. */
  predicate HoldsTwo(s: State, k: string, l: string, e: Time, f: Time) {
    && |s.phases| >= 2 && AllIdle(s) && Exact(s) && s.counter == 2
    && s.entries.Keys == {k, l} && s.entries[k].expiration == e && s.entries[l].expiration == f
  }

  lemma SetReached(goroutines: nat, now: Time, s: State, key: string, expiration: Time) returns (t: State)
    requires Reached(goroutines, now, s) && |s.phases| >= 2 && AllIdle(s) && Exact(s) && key !in s.entries
    requires s.counter < 2
    ensures Reached(goroutines, now, t) && |t.phases| >= 2 && AllIdle(t) && Exact(t)
    ensures t.entries == s.entries[key := Entry(s.writes, expiration)] && t.counter == s.counter + 1
  {
    var u := Apply(s, Swap(0, key, expiration));
    ReachedNext(goroutines, now, s, Swap(0, key, expiration));
    StepExact(s, Swap(0, key, expiration));
    t := Apply(u, Increment(0));
    ReachedNext(goroutines, now, u, Increment(0));
    StepExact(u, Increment(0));
  }

  lemma TwoReached(goroutines: nat, now: Time, k: string, l: string, e: Time, f: Time) returns (s: State)
    requires goroutines >= 2 && k != l
    ensures Reached(goroutines, now, s) && HoldsTwo(s, k, l, e, f)
  {
    var s0 := Initial(goroutines, now);
    InitialExact(goroutines, now);
    assert Schedule(s0, []) && Run(s0, []) == s0;
    var s1 := SetReached(goroutines, now, s0, k, e);
    s := SetReached(goroutines, now, s1, l, f);
  }

  /** The states a clean-up of one item goes through. */
  function WithPhase(s: State, p: nat, phase: Phase): State
    requires p < |s.phases|
  {
    s.(phases := s.phases[p := phase])
  }

  function Without(s: State, p: nat, key: string): State
    requires p < |s.phases|
  {
    s.(entries := s.entries - {key}, counter := Wrap(s.counter + (TWO_64 - 1)), phases := s.phases[p := Idle])
  }

  lemma ReadBefore(s: State, p: nat, listed: bool)
    requires p < |s.phases| && s.phases[p].Idle? && s.counter == 2
    requires CanEmpty(WithPhase(s, p, Counted(1)), 1, listed)
    ensures CanEmpty(s, 1, listed)
  {
    Plan(2, 1);
    EmptiesBefore(s, ReadCounter(p, 1), 1, listed);
  }

  /** A listing of one entry, from its beginning to its end. */
  lemma ListOneBefore(s: State, p: nat, key: string)
    requires p < |s.phases| && s.phases[p] == Counted(1) && s.entries.Keys == {key}
    requires CanEmpty(WithPhase(s, p, Deleting([key])), 1, false)
    ensures CanEmpty(s, 1, false)
  {
    var none: map<string, Entry> := map[];
    var found := none[key := s.entries[key]];
    assert found == s.entries;
    EndBefore(s, p, found, key, false);
    VisitBefore(s, p, none, key, false);
    BeginBefore(s, p, false);
  }

  /** And of two, of which key is put first. */
  lemma ListTwoBefore(s: State, p: nat, k: string, l: string, key: string, listed: bool)
    requires p < |s.phases| && s.phases[p] == Counted(1) && k != l && s.entries.Keys == {k, l}
    requires key in s.entries && forall j :: j in s.entries ==> s.entries[key].expiration <= s.entries[j].expiration
    requires CanEmpty(WithPhase(s, p, Deleting([key])), 1, listed)
    ensures CanEmpty(s, 1, listed)
  {
    var none: map<string, Entry> := map[];
    var one := none[k := s.entries[k]];
    var both := one[l := s.entries[l]];
    assert both == s.entries;
    SizeAfterSet(none, k, s.entries[k]);
    SizeAfterSet(one, l, s.entries[l]);
    EndBefore(s, p, both, key, listed);
    VisitBefore(s, p, one, l, listed);
    VisitBefore(s, p, none, k, listed);
    BeginBefore(s, p, listed);
  }

  lemma BeginBefore(s: State, p: nat, listed: bool)
    requires p < |s.phases| && s.phases[p] == Counted(1)
    requires CanEmpty(WithPhase(s, p, Listing(1, s.entries, map[])), 1, listed)
    ensures CanEmpty(s, 1, listed)
  {
    assert WithPhase(s, p, Listing(1, s.entries, map[])) == Apply(s, BeginListing(p));
    EmptiesBefore(s, BeginListing(p), 1, listed);
  }

  lemma VisitBefore(s: State, p: nat, found: map<string, Entry>, key: string, listed: bool)
    requires p < |s.phases| && key in s.entries && key !in found
    requires CanEmpty(WithPhase(s, p, Listing(1, s.entries, found[key := s.entries[key]])), 1, listed)
    ensures CanEmpty(WithPhase(s, p, Listing(1, s.entries, found)), 1, listed)
  {
    var t := WithPhase(s, p, Listing(1, s.entries, found));
    var next := found[key := s.entries[key]];
    assert t.phases[p := Listing(1, s.entries, next)] == s.phases[p := Listing(1, s.entries, next)];
    EmptiesBefore(t, Visit(p, key), 1, listed);
  }

  lemma EndBefore(s: State, p: nat, found: map<string, Entry>, key: string, listed: bool)
    requires p < |s.phases| && found == s.entries && key in s.entries && (listed ==> |found| == 2)
    requires forall k :: k in s.entries ==> s.entries[key].expiration <= s.entries[k].expiration
    requires CanEmpty(WithPhase(s, p, Deleting([key])), 1, listed)
    ensures CanEmpty(WithPhase(s, p, Listing(1, s.entries, found)), 1, listed)
  {
    var t := WithPhase(s, p, Listing(1, s.entries, found));
    assert |found| == |found.Keys| && found.Keys == {key} + (found.Keys - {key});
    assert [key][1..] == [];
    assert t.phases[p := Deleting([key])] == s.phases[p := Deleting([key])];
    EmptiesBefore(t, EndListing(p, [key]), 1, listed);
  }

  lemma TakeBefore(s: State, p: nat, key: string, listed: bool)
    requires p < |s.phases| && s.phases[p] == Deleting([key]) && key in s.entries
    requires CanEmpty(Without(s, p, key), 1, listed)
    ensures CanEmpty(s, 1, listed)
  {
    var t := Apply(s, DeleteNext(p));
    assert [key][1..] == [];
    assert t == s.(entries := s.entries - {key}, phases := s.phases[p := DeletingOwes([])]);
    assert t.phases[p := Idle] == s.phases[p := Idle];
    assert Apply(t, Decrement(p)) == Without(s, p, key);
    EmptiesBefore(t, Decrement(p), 1, listed);
    EmptiesBefore(s, DeleteNext(p), 1, listed);
  }

  lemma BothTaken(s: State, k: string, l: string, listed: bool)
    requires |s.phases| >= 2 && AllIdle(s.(phases := s.phases[0 := Idle][1 := Idle]))
    requires k != l && s.entries.Keys == {k, l} && s.phases[0] == Deleting([k]) && s.phases[1] == Deleting([l])
    ensures CanEmpty(s, 1, listed)
  {
    var t := Without(s, 0, k);
    var u := Without(t, 1, l);
    assert u.entries == map[] && u.phases == s.phases[0 := Idle][1 := Idle];
    EmptyAlready(u, 1, listed);
    TakeBefore(t, 1, l, listed);
    TakeBefore(s, 0, k, listed);
  }

  /** Of two clean-ups that have both read an excess of one, the second lists when the first is
      through and takes the other item too. */
  lemma LateListing(s: State, k: string, l: string, e: Time, f: Time)
    requires HoldsTwo(s, k, l, e, f) && k != l && e < f
    ensures CanEmpty(s, 1, false)
  {
    var s1 := WithPhase(s, 0, Counted(1));
    var s2 := WithPhase(s1, 1, Counted(1));
    var s3 := WithPhase(s2, 0, Deleting([k]));
    var s4 := Without(s3, 0, k);
    assert s4.entries.Keys == {l};
    var s5 := WithPhase(s4, 1, Deleting([l]));
    var s6 := Without(s5, 1, l);
    assert s6.entries == map[] && AllIdle(s6);
    EmptyAlready(s6, 1, false);
    TakeBefore(s5, 1, l, false);
    ListOneBefore(s4, 1, l);
    TakeBefore(s3, 0, k, false);
    ListTwoBefore(s2, 0, k, l, k, false);
    ReadBefore(s1, 1, false);
    ReadBefore(s, 0, false);
  }

  /** Where two items expire together, two clean-ups can list one each, and each what it counted. */
  lemma EqualExpirations(s: State, k: string, l: string, e: Time)
    requires HoldsTwo(s, k, l, e, e) && k != l
    ensures CanEmpty(s, 1, true)
  {
    var s1 := WithPhase(s, 0, Counted(1));
    var s2 := WithPhase(s1, 1, Counted(1));
    var s3 := WithPhase(s2, 0, Deleting([k]));
    var s4 := WithPhase(s3, 1, Deleting([l]));
    assert |s.entries| == |s.entries.Keys| == |{k, l}|;
    BothTaken(s4, k, l, true);
    ListTwoBefore(s3, 1, k, l, l, true);
    ListTwoBefore(s2, 0, k, l, k, true);
    ReadBefore(s1, 1, true);
    ReadBefore(s, 0, true);
  }

  /** A cache of two entries and a limit of one is emptied in some run of two goroutines. */
  lemma TooManyDeleted(goroutines: nat, now: Time, k: string, l: string, e: Time, f: Time) returns (s: State)
    requires goroutines >= 2 && k != l && e <= f
    ensures Reached(goroutines, now, s) && HoldsTwo(s, k, l, e, f) && |s.entries| == 2
    ensures CanEmpty(s, 1, e == f)
  {
    s := TwoReached(goroutines, now, k, l, e, f);
    assert |s.entries| == |s.entries.Keys| == |{k, l}|;
    if e < f {
      LateListing(s, k, l, e, f);
    } else {
      EqualExpirations(s, k, l, e);
    }
  }
}
