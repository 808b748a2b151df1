/**
 The handler a WhatsApp connection reports to: it filters, caches and evicts messages, and
 triggers the registered dispatchers once for every message that is not a repetition.
 */
module Handler {
  import opened Wrappers
  import opened Duplicates
  import opened Cache
  import opened Messages
  import opened Text
  import ChatId

  type Registered = nat         // a registered dispatching handler, by identity

  // ------------------------------------------------------------------ chats

  predicate FromGroup(chatId: string) {
    HasSuffix(chatId, "@g.us")
  }

  predicate FromBroadcast(chatId: string) {
    chatId == "status" || chatId == "status@broadcast" || HasSuffix(chatId, "@newsletter")
  }

  predicate Skips(handleGroups: bool, handleBroadcasts: bool, chatId: string) {
    (!handleGroups && FromGroup(chatId)) || (!handleBroadcasts && FromBroadcast(chatId))
  }

  /** Unhandled and blank messages go no further, unless configured to or the removal of a reaction. */
  predicate ValidForDispatch(kind: MessageType, text: string, inReaction: bool, dispatchUnhandled: bool) {
    dispatchUnhandled ||
    (!kind.Unhandled? && (kind.Text? && (forall i :: 0 <= i < |text| ==> IsSpace(text[i])) ==> inReaction))
  }

  /** Skipping by the kind of chat an id belongs to. */
  lemma SkipsByChat(handleGroups: bool, handleBroadcasts: bool, local: string)
    ensures Skips(handleGroups, handleBroadcasts, local + ChatId.GROUP_SUFFIX) <==> !handleGroups
    ensures Skips(handleGroups, handleBroadcasts, local + "@newsletter") <==> !handleBroadcasts
    ensures Skips(handleGroups, handleBroadcasts, "status@broadcast") <==> !handleBroadcasts
    ensures !Skips(handleGroups, handleBroadcasts, local + ChatId.USER_SUFFIX)
  {
    KindOfUser(local);
    KindOfGroup(local);
    KindOfNewsletter(local);
    assert !FromGroup("status@broadcast");
  }

  lemma KindOfUser(local: string)
    ensures !FromGroup(local + ChatId.USER_SUFFIX) && !FromBroadcast(local + ChatId.USER_SUFFIX)
  {
    var id := local + ChatId.USER_SUFFIX;
    assert id[|id| - 1] == 't' && id[|id| - 2] == 'e';
    assert "status@broadcast"[14] == 's';
  }

  lemma KindOfGroup(local: string)
    ensures FromGroup(local + ChatId.GROUP_SUFFIX) && !FromBroadcast(local + ChatId.GROUP_SUFFIX)
  {
    var id := local + ChatId.GROUP_SUFFIX;
    EndsIn(local, ChatId.GROUP_SUFFIX);
    assert id[|id| - 1] == 's' && id[|id| - 3] == '.';
    assert "status"[3] == 't';
  }

  lemma KindOfNewsletter(local: string)
    ensures !FromGroup(local + "@newsletter") && FromBroadcast(local + "@newsletter")
  {
    var id := local + "@newsletter";
    EndsIn(local, "@newsletter");
    assert id[|id| - 1] == 'r';
  }

  lemma EndsIn(local: string, suffix: string)
    ensures HasSuffix(local + suffix, suffix)
  {
  }

  /** A text message goes on exactly if something is left of it when it is trimmed, or it is the removal
      of a reaction; an unhandled message never does, unless everything is to be dispatched. */
  lemma DispatchedExactly(kind: MessageType, text: string, inReaction: bool, dispatchUnhandled: bool)
    ensures ValidForDispatch(kind, text, inReaction, dispatchUnhandled) <==>
      dispatchUnhandled || (!kind.Unhandled? && (kind.Text? && !inReaction ==> ChatId.TrimSpace(text) != ""))
  {
    ChatId.TrimmedToNothing(text);
  }

  /** A text of line breaks, tabs and blanks is blank. */
  lemma BlankText(text: string, inReaction: bool)
    requires forall i :: 0 <= i < |text| ==>
      text[i] == ' ' || text[i] == '\t' || text[i] == '\n' || text[i] == '\r'
    ensures ValidForDispatch(Text, text, inReaction, false) <==> inReaction
  {
  }

  // ------------------------------------------------------------------ one message, on values

  /** The cache after an accepted item has been stored and the cache cleaned, or a denied one stored. */
  predicate Handled<V(==)>(before: map<string, Item<V>>, after: map<string, Item<V>>, item: Item<V>, accepted: bool,
                           limit: uint64) {
    var stored := before[item.key := item];
    if accepted then Evicted(stored, after, Evictions(Wrap(|stored|), limit, |stored|)) else after == stored
  }

  /** What a run of messages keeps: at most limit items, none expiring later than the last one stored. */
  predicate Bounded<V>(items: map<string, Item<V>>, last: Time, ttl: Time, limit: uint64) {
    |items| <= limit && forall k :: k in items ==> items[k].expiration <= last + ttl
  }

  /** An accepted message survives its own clean-up, and the bound holds, exactly when the limit
      is not so far above the size that the unsigned subtraction is taken for an excess. */
  lemma AcceptedSurvives<V>(before: map<string, Item<V>>, after: map<string, Item<V>>, item: Item<V>,
                            last: Time, now: Time, ttl: Time, limit: uint64)
    requires Bounded(before, last, ttl, limit) && last < now && item.expiration == now + ttl
    requires 1 <= limit && |before| + 1 < TWO_64
    requires Handled(before, after, item, true, limit)
    ensures item.key in after <==> limit - |before[item.key := item]| <= TWO_63
    ensures item.key in after ==> after[item.key] == item && Bounded(after, now, ttl, limit)
    ensures item.key !in after ==> after == map[]
  {
    var stored := before[item.key := item];
    SizeAfterSet(before, item.key, item);
    WholeSize(|stored|);
    SizeAfterEviction(|stored|, limit);
    NewestStays(stored, after, Evictions(|stored|, limit, |stored|), item.key);
    EmptyHasSize0(after);
  }

  lemma WholeSize(size: nat)
    requires size < TWO_64
    ensures Wrap(size) == size
  {
  }

  lemma EmptyHasSize0<V>(items: map<string, Item<V>>)
    ensures |items| == 0 <==> items == map[]
  {
  }

  lemma SizeAfterEviction(size: nat, limit: uint64)
    requires 1 <= size < TWO_64 && 1 <= limit && size <= limit + 1
    ensures Evictions(size, limit, size) <= size
    ensures size - Evictions(size, limit, size) == if limit - size <= TWO_63 then Min(size, limit) else 0
  {
    EvictionsExact(size, limit);
  }

  /** Of the items kept, the one that expires last is among them. */
  lemma NewestStays<V>(before: map<string, Item<V>>, after: map<string, Item<V>>, n: nat, key: string)
    requires Evicted(before, after, n) && key in before
    requires forall l :: l in before && l != key ==> before[l].expiration < before[key].expiration
    ensures key in after || after == map[]
  {
    forall l | l in after ensures key in after {
      assert after[l] == before[l];
    }
  }

  lemma DeniedKeepsBound<V>(before: map<string, Item<V>>, after: map<string, Item<V>>, item: Item<V>,
                            last: Time, now: Time, ttl: Time, limit: uint64)
    requires Bounded(before, last, ttl, limit) && last < now && item.expiration == now + ttl
    requires item.key in before && Handled(before, after, item, false, limit)
    ensures Bounded(after, now, ttl, limit) && item.key in after && after[item.key] == item
  {
    SizeAfterSet(before, item.key, item);
  }

  /** A message as it reaches the cache. */
  datatype Arrival<V> = Arrival(item: Item<V>, from: string, now: Time, reply: Option<string>)

  /** The looked-up reply may have been expired and is then removed first. */
  function AfterReply<V>(items: map<string, Item<V>>, reply: Option<string>, now: Time): map<string, Item<V>> {
    if reply.None? then items else AfterGet(items, reply.value, now)
  }

  predicate Arrives<V(==)>(before: map<string, Item<V>>, after: map<string, Item<V>>, a: Arrival<V>, limit: uint64,
                           printer: Printer) {
    var looked := AfterReply(before, a.reply, a.now);
    Handled(looked, after, a.item, Accepts(looked, a.item, a.from, printer), limit)
  }

  /** states are what the cache goes through while the arrivals come in, on a strictly increasing clock. */
  ghost predicate MessageRun<V>(states: seq<map<string, Item<V>>>, arrivals: seq<Arrival<V>>, ttl: Time, limit: uint64,
                                printer: Printer) {
    && |states| == |arrivals| + 1 && states[0] == map[]
    && (forall i :: 0 <= i < |arrivals| ==> arrivals[i].item.expiration == arrivals[i].now + ttl)
    && (forall i, j :: 0 <= i < j < |arrivals| ==> arrivals[i].now < arrivals[j].now)
    && (forall i :: 0 <= i < |arrivals| ==> Arrives(states[i], states[i + 1], arrivals[i], limit, printer))
  }

  lemma ReplyKeepsBound<V>(items: map<string, Item<V>>, reply: Option<string>, now: Time, last: Time, ttl: Time,
                           limit: uint64)
    requires Bounded(items, last, ttl, limit)
    ensures Bounded(AfterReply(items, reply, now), last, ttl, limit)
  {
    if reply.Some? {
      SizeAfterDelete(items, reply.value);
    }
  }

  /** Along every run the cache holds at most limit messages, and a message that has just arrived
      is in it, accepted or denied. */
  lemma {:induction false} RunIsBounded<V>(states: seq<map<string, Item<V>>>, arrivals: seq<Arrival<V>>, ttl: Time,
                                           limit: uint64, printer: Printer, n: nat)
    requires MessageRun(states, arrivals, ttl, limit, printer) && n <= |arrivals|
    requires 1 <= limit <= TWO_63 + 1
    ensures |states[n]| <= limit
    ensures n > 0 ==> Bounded(states[n], arrivals[n - 1].now, ttl, limit)
    ensures n > 0 ==> Live(states[n], arrivals[n - 1].item.key, arrivals[n - 1].now)
                      == (if ttl > 0 then Some(arrivals[n - 1].item.value) else None)
  {
    if n > 0 {
      var before, after, a := states[n - 1], states[n], arrivals[n - 1];
      RunIsBounded(states, arrivals, ttl, limit, printer, n - 1);
      assert Arrives(states[n - 1], states[n - 1 + 1], arrivals[n - 1], limit, printer);
      var last := if n == 1 then a.now - 1 else arrivals[n - 2].now;
      assert Bounded(before, last, ttl, limit);
      ReplyKeepsBound(before, a.reply, a.now, last, ttl, limit);
      var looked := AfterReply(before, a.reply, a.now);
      if Accepts(looked, a.item, a.from, printer) {
        SizeAfterSet(looked, a.item.key, a.item);
        AcceptedSurvives(looked, after, a.item, last, a.now, ttl, limit);
      } else {
        DeniedKeepsBound(looked, after, a.item, last, a.now, ttl, limit);
      }
    }
  }

  /** The bound on the limit is needed: above it not even the first message stays. */
  lemma HugeLimitLosesTheFirst<V>(states: seq<map<string, Item<V>>>, arrivals: seq<Arrival<V>>, ttl: Time,
                                  limit: uint64, printer: Printer)
    requires MessageRun(states, arrivals, ttl, limit, printer) && |arrivals| > 0
    requires limit > TWO_63 + 1
    ensures states[1] == map[]
  {
    var a := arrivals[0];
    assert Arrives(states[0], states[0 + 1], a, limit, printer);
    var none: map<string, Item<V>> := map[];
    assert AfterReply(none, a.reply, a.now) == none;
    SizeAfterSet(none, a.item.key, a.item);
    AcceptedSurvives(none, states[1], a.item, a.now - 1, a.now, ttl, limit);
  }

  // ------------------------------------------------------------------ without a limit

  /** The arrival is stored, the message it replies to removed if expired, and nothing else happens. */
  predicate Joins<V(==)>(before: map<string, Item<V>>, after: map<string, Item<V>>, a: Arrival<V>) {
    after == AfterReply(before, a.reply, a.now)[a.item.key := a.item]
  }

  /** Without a limit, which is the default, an arrival leaves everything else where it is. */
  lemma ArrivesWithoutLimit<V>(before: map<string, Item<V>>, after: map<string, Item<V>>, a: Arrival<V>,
                               printer: Printer)
    requires Arrives(before, after, a, 0, printer)
    ensures Joins(before, after, a)
  {
    var stored := AfterReply(before, a.reply, a.now)[a.item.key := a.item];
    NothingEvicted(stored, after);
  }

  /** The message replied to by arrival j is arrival i, expired by then. */
  predicate FindsExpired<V>(arrivals: seq<Arrival<V>>, i: nat, j: nat)
    requires i < |arrivals| && j < |arrivals|
  {
    arrivals[j].reply == Some(arrivals[i].item.key) && arrivals[j].now >= arrivals[i].item.expiration
  }

  predicate NeverFoundExpired<V>(arrivals: seq<Arrival<V>>, i: nat, n: nat)
    requires i < n <= |arrivals|
  {
    forall j :: i < j < n ==> !FindsExpired(arrivals, i, j)
  }

  lemma OneMoreArrival<V>(arrivals: seq<Arrival<V>>, i: nat, n: nat)
    requires i < n - 1 && n <= |arrivals|
    ensures NeverFoundExpired(arrivals, i, n) <==>
            NeverFoundExpired(arrivals, i, n - 1) && !FindsExpired(arrivals, i, n - 1)
  {
  }

  /** Nothing is stored under this key any more from arrival i on, up to arrival n. */
  predicate LastOfKey<V>(arrivals: seq<Arrival<V>>, i: nat, n: nat)
    requires i < n <= |arrivals|
  {
    forall j :: i < j < n ==> arrivals[j].item.key != arrivals[i].item.key
  }

  /** Another key after an arrival. */
  lemma OtherKeyAfter<V>(before: map<string, Item<V>>, after: map<string, Item<V>>, a: Arrival<V>, item: Item<V>)
    requires Joins(before, after, a) && a.item.key != item.key
    requires item.key in before ==> before[item.key] == item
    ensures item.key in after <==> item.key in before && !(a.reply == Some(item.key) && a.now >= item.expiration)
    ensures item.key in after ==> after[item.key] == item
  {
  }

  /** Arrival i is what is stored under its key, unless it has been found expired. */
  predicate StoredUnlessExpired<V(==)>(items: map<string, Item<V>>, arrivals: seq<Arrival<V>>, i: nat, n: nat)
    requires i < n <= |arrivals|
  {
    && (arrivals[i].item.key in items ==> items[arrivals[i].item.key] == arrivals[i].item)
    && (arrivals[i].item.key in items <==> NeverFoundExpired(arrivals, i, n))
  }

  lemma JustStored<V>(before: map<string, Item<V>>, after: map<string, Item<V>>, arrivals: seq<Arrival<V>>, i: nat)
    requires i < |arrivals| && Joins(before, after, arrivals[i])
    ensures StoredUnlessExpired(after, arrivals, i, i + 1)
  {
  }

  lemma StoredStill<V>(before: map<string, Item<V>>, after: map<string, Item<V>>, arrivals: seq<Arrival<V>>, i: nat,
                       n: nat)
    requires i < n - 1 && n <= |arrivals| && arrivals[n - 1].item.key != arrivals[i].item.key
    requires StoredUnlessExpired(before, arrivals, i, n - 1) && Joins(before, after, arrivals[n - 1])
    ensures StoredUnlessExpired(after, arrivals, i, n)
  {
    OtherKeyAfter(before, after, arrivals[n - 1], arrivals[i].item);
    OneMoreArrival(arrivals, i, n);
  }

  lemma NextJoins<V>(states: seq<map<string, Item<V>>>, arrivals: seq<Arrival<V>>, ttl: Time, printer: Printer, n: nat)
    requires MessageRun(states, arrivals, ttl, 0, printer) && 0 < n <= |arrivals|
    ensures Joins(states[n - 1], states[n], arrivals[n - 1])
  {
    assert Arrives(states[n - 1], states[n - 1 + 1], arrivals[n - 1], 0, printer);
    ArrivesWithoutLimit(states[n - 1], states[n], arrivals[n - 1], printer);
  }

  /** Along every run without a limit nothing is evicted: the last arrival of each key is stored,
      unless one after it replied to it once it had expired. */
  lemma {:induction false} NothingEvictedInRun<V>(states: seq<map<string, Item<V>>>, arrivals: seq<Arrival<V>>,
                                                  ttl: Time, printer: Printer, i: nat, n: nat)
    requires MessageRun(states, arrivals, ttl, 0, printer) && i < n <= |arrivals| && LastOfKey(arrivals, i, n)
    ensures StoredUnlessExpired(states[n], arrivals, i, n)
  {
    NextJoins(states, arrivals, ttl, printer, n);
    if i < n - 1 {
      NothingEvictedInRun(states, arrivals, ttl, printer, i, n - 1);
      StoredStill(states[n - 1], states[n], arrivals, i, n);
    } else {
      JustStored(states[n - 1], states[n], arrivals, i);
    }
  }

  /** So it is found as long as it lives. */
  lemma FoundWhileItLives<V>(states: seq<map<string, Item<V>>>, arrivals: seq<Arrival<V>>, ttl: Time,
                             printer: Printer, i: nat, n: nat, now: Time)
    requires MessageRun(states, arrivals, ttl, 0, printer) && i < n <= |arrivals| && LastOfKey(arrivals, i, n)
    requires arrivals[n - 1].now <= now < arrivals[i].item.expiration
    ensures Live(states[n], arrivals[i].item.key, now) == Some(arrivals[i].item.value)
  {
    NothingEvictedInRun(states, arrivals, ttl, printer, i, n);
    NotExpiredYet(states, arrivals, ttl, printer, i, n);
  }

  lemma NotExpiredYet<V>(states: seq<map<string, Item<V>>>, arrivals: seq<Arrival<V>>, ttl: Time, printer: Printer,
                         i: nat, n: nat)
    requires MessageRun(states, arrivals, ttl, 0, printer) && i < n <= |arrivals|
    requires arrivals[n - 1].now < arrivals[i].item.expiration
    ensures NeverFoundExpired(arrivals, i, n)
  {
    forall j | i < j < n ensures !FindsExpired(arrivals, i, j) {
      assert arrivals[j].now <= arrivals[n - 1].now;
    }
  }

  /** And nothing but arrivals is ever stored, whatever the limit. */
  lemma {:induction false} OnlyArrivals<V>(states: seq<map<string, Item<V>>>, arrivals: seq<Arrival<V>>,
                                           ttl: Time, limit: uint64, printer: Printer, n: nat, key: string)
    requires MessageRun(states, arrivals, ttl, limit, printer) && n <= |arrivals| && key in states[n]
    ensures exists i :: 0 <= i < n && LastOfKey(arrivals, i, n)
                        && arrivals[i].item == states[n][key] && arrivals[i].item.key == key
  {
    assert n > 0;
    var a := arrivals[n - 1];
    assert Arrives(states[n - 1], states[n - 1 + 1], arrivals[n - 1], limit, printer);
    KeptFrom(states[n - 1], states[n], a, limit, printer, key);
    if a.item.key == key {
      assert LastOfKey(arrivals, n - 1, n);
    } else {
      OnlyArrivals(states, arrivals, ttl, limit, printer, n - 1, key);
      var i :| 0 <= i < n - 1 && LastOfKey(arrivals, i, n - 1)
               && arrivals[i].item == states[n - 1][key] && arrivals[i].item.key == key;
      assert LastOfKey(arrivals, i, n);
    }
  }

  lemma KeptFrom<V>(before: map<string, Item<V>>, after: map<string, Item<V>>, a: Arrival<V>, limit: uint64,
                    printer: Printer, key: string)
    requires Arrives(before, after, a, limit, printer) && key in after
    ensures if key == a.item.key then after[key] == a.item else key in before && after[key] == before[key]
  {
  }

  // ------------------------------------------------------------------ the handler object

  function Without(handlers: seq<Registered>, evt: Registered): seq<Registered> {
    if handlers == [] then []
    else Without(handlers[..|handlers| - 1], evt)
         + if handlers[|handlers| - 1] == evt then [] else [handlers[|handlers| - 1]]
  }

  lemma {:induction false} WithoutIsFilter(handlers: seq<Registered>, evt: Registered, h: Registered)
    ensures h in Without(handlers, evt) <==> h in handlers && h != evt
    ensures |Without(handlers, evt)| <= |handlers|
  {
    if handlers != [] {
      var front, last := handlers[..|handlers| - 1], handlers[|handlers| - 1];
      WithoutIsFilter(front, evt, h);
      assert handlers == front + [last];
    }
  }

  lemma WithoutAppend(handlers: seq<Registered>, h: Registered, evt: Registered)
    ensures Without(handlers + [h], evt) == Without(handlers, evt) + if h == evt then [] else [h]
  {
    assert (handlers + [h])[..|handlers|] == handlers;
  }

  lemma {:induction false} WithoutAbsent(handlers: seq<Registered>, evt: Registered)
    requires evt !in handlers
    ensures Without(handlers, evt) == handlers
  {
    if handlers != [] {
      var front := handlers[..|handlers| - 1];
      WithoutAbsent(front, evt);
      assert handlers == front + [handlers[|handlers| - 1]];
    }
  }

  /** A handler is registered once at most, and the others stay in order around its place. */
  lemma {:induction false} WithoutInOrder(a: seq<Registered>, evt: Registered, b: seq<Registered>)
    requires evt !in a && evt !in b
    ensures Without(a + [evt] + b, evt) == a + b
    decreases |b|
  {
    if b == [] {
      WithoutAbsent(a, evt);
      WithoutAppend(a, evt, evt);
      assert a + [evt] + b == a + [evt];
    } else {
      var front, last := b[..|b| - 1], b[|b| - 1];
      assert b == front + [last];
      WithoutInOrder(a, evt, front);
      WithoutAppend(a + [evt] + front, last, evt);
      assert a + [evt] + b == (a + [evt] + front) + [last];
    }
  }

  /** Goroutines started by a trigger: one per registered handler, in order. */
  function Dispatches(handlers: seq<Registered>, payload: WhatsappMessage): seq<(Registered, WhatsappMessage)> {
    seq(|handlers|, i requires 0 <= i < |handlers| => (handlers[i], payload))
  }

  /** The preview of the message replied to. */
  function Synopsis(text: string, synopsisLength: uint64): string {
    var maxLength := Wrap(synopsisLength - 4);
    if |text| > maxLength then text[..maxLength] + " ..." else text
  }

  function FinalId(id: string, kind: MessageType, uuid: string): string {
    if kind.Unhandled? then id + "-unhandled-" + uuid else id
  }

  function FinalText(text: string, kind: MessageType, diagnosis: Option<string>): string {
    if kind.Unhandled? && text == "" && diagnosis.Some? then diagnosis.value else text
  }

  /** The key of the message replied to. */
  function ReplyTo(msg: WhatsappMessage): Option<string> {
    if msg.inReply == "" then None else Some(Upper(msg.inReply))
  }

  /** The message replied to, while it is cached and alive. */
  function Replied(items: map<string, Item<WhatsappMessage>>, msg: WhatsappMessage, now: Time)
    : Option<WhatsappMessage>
  {
    match ReplyTo(msg)
    case None => None
    case Some(id) => Live(items, id, now)
  }

  function Previewed(synopsis: string, replied: Option<WhatsappMessage>, synopsisLength: uint64): string
    reads if replied.Some? then {replied.value} else {}
  {
    match replied
    case None => synopsis
    case Some(m) => Synopsis(m.text, synopsisLength)
  }

  /** A cut preview has exactly the configured length; below a length of 4 nothing is ever cut, for
      the subtraction wraps. */
  lemma SynopsisFits(text: string, synopsisLength: uint64)
    requires |text| < TWO_63
    ensures 4 <= synopsisLength && |text| > synopsisLength - 4 ==>
      var s := Synopsis(text, synopsisLength);
      |s| == synopsisLength && s[..synopsisLength - 4] <= text && HasSuffix(s, " ...")
    ensures synopsisLength < 4 || |text| <= synopsisLength - 4 ==> Synopsis(text, synopsisLength) == text
  {
    if 4 <= synopsisLength {
      assert Wrap(synopsisLength - 4) == synopsisLength - 4;
    } else {
      assert Wrap(synopsisLength - 4) == synopsisLength - 4 + TWO_64;
    }
  }

  /** A message that replies to none that is alive keeps its preview. */
  lemma PreviewOfReply(msg: WhatsappMessage, items: map<string, Item<WhatsappMessage>>, synopsisLength: uint64,
                       now: Time)
    ensures var preview := Previewed(msg.synopsis, Replied(items, msg, now), synopsisLength);
      if msg.inReply != "" && Upper(msg.inReply) in items && now < items[Upper(msg.inReply)].expiration
      then preview == Synopsis(items[Upper(msg.inReply)].value.text, synopsisLength)
      else preview == msg.synopsis
  {
  }

  function ItemOf(msg: WhatsappMessage, id: string, expiration: Time): Item<WhatsappMessage> {
    Item(Upper(id), msg, msg.content, expiration)
  }

  /** What one message sends to the dispatchers. */
  function Triggered(accepted: bool, msg: WhatsappMessage, dispatchUnhandled: bool, handlers: seq<Registered>)
    : seq<(Registered, WhatsappMessage)>
    reads msg`text
  {
    if accepted && ValidForDispatch(msg.kind, msg.text, msg.inReaction, dispatchUnhandled)
    then Dispatches(handlers, msg) else []
  }

  /** Every registered handler gets the message once, in order, if it was accepted; none, if not. */
  lemma TriggersEverybody(msg: WhatsappMessage, dispatchUnhandled: bool, handlers: seq<Registered>, i: nat)
    requires i < |handlers|
    ensures Triggered(false, msg, dispatchUnhandled, handlers) == []
    ensures ValidForDispatch(msg.kind, msg.text, msg.inReaction, dispatchUnhandled) ==>
      var sent := Triggered(true, msg, dispatchUnhandled, handlers);
      |sent| == |handlers| && sent[i] == (handlers[i], msg)
  {
  }

  /** Suffixes of one length make ids of their own: two unhandled messages share a cache key only if
      ids and suffixes are the same up to letter case. */
  lemma UnhandledIdsDiffer(id: string, id': string, uuid: string, uuid': string)
    requires |uuid| == |uuid'|
    ensures Upper(FinalId(id, Unhandled, uuid)) == Upper(FinalId(id', Unhandled, uuid'))
            <==> Upper(id) == Upper(id') && Upper(uuid) == Upper(uuid')
  {
    UpperOfUnhandled(id, uuid);
    UpperOfUnhandled(id', uuid');
    var middle := Upper("-unhandled-");
    var a, b := Upper(id) + middle + Upper(uuid), Upper(id') + middle + Upper(uuid');
    if a == b {
      assert Upper(id) == a[..|id|] && Upper(id') == b[..|id|];
      assert Upper(uuid) == a[|a| - |uuid|..] && Upper(uuid') == b[|a| - |uuid|..];
    }
  }

  lemma UpperOfUnhandled(id: string, uuid: string)
    ensures Upper(FinalId(id, Unhandled, uuid)) == Upper(id) + Upper("-unhandled-") + Upper(uuid)
  {
  }

  /** An unhandled message whose key is not cached yet is accepted, replaces nothing, and goes to
      the dispatchers exactly if unhandled messages are dispatched. */
  lemma UnhandledStandsAlone(items: map<string, Item<WhatsappMessage>>, msg: WhatsappMessage, id: string, uuid: string,
                             expiration: Time, from: string, dispatchUnhandled: bool, handlers: seq<Registered>,
                             printer: Printer)
    requires msg.kind.Unhandled? && Upper(FinalId(id, msg.kind, uuid)) !in items
    ensures var item := ItemOf(msg, FinalId(id, msg.kind, uuid), expiration);
      && Accepts(items, item, from, printer)
      && items[item.key := item] - {item.key} == items
      && Triggered(Accepts(items, item, from, printer), msg, dispatchUnhandled, handlers)
         == if dispatchUnhandled then Dispatches(handlers, msg) else []
  {
    var item := ItemOf(msg, FinalId(id, msg.kind, uuid), expiration);
    assert items[item.key := item] - {item.key} == items;
  }

  class DispatchingHandler {
    const store: QpWhatsappMessages
    var aeh: seq<Registered>
    var dispatched: seq<(Registered, WhatsappMessage)>

    predicate Valid()
      reads store.cache, store.statuses
    {
      store.Valid()
    }

    constructor ()
      ensures Valid() && fresh(store) && fresh(store.cache) && fresh(store.statuses)
      ensures store.cache.cacheMap == map[] && aeh == [] && dispatched == []
    {
      store := new QpWhatsappMessages();
      aeh, dispatched := [], [];
    }

    predicate IsAttached()
      reads this`aeh
    {
      |aeh| > 0
    }

    method IsRegistered(evt: Registered) returns (found: bool)
      ensures found <==> evt in aeh
    {
      for i := 0 to |aeh|
        invariant evt !in aeh[..i]
      {
        if aeh[i] == evt {
          return true;
        }
      }
      found := false;
    }

    method Register(evt: Registered)
      modifies this`aeh
      ensures aeh == if evt in old(aeh) then old(aeh) else old(aeh) + [evt]
    {
      var registered := IsRegistered(evt);
      if !registered {
        aeh := aeh + [evt];
      }
    }

    method UnRegister(evt: Registered)
      modifies this`aeh
      ensures aeh == Without(old(aeh), evt)
    {
      var newHandlers := [];
      for i := 0 to |aeh|
        invariant newHandlers == Without(aeh[..i], evt)
      {
        assert aeh[..i + 1][..i] == aeh[..i];
        if aeh[i] != evt {
          newHandlers := newHandlers + [aeh[i]];
        }
      }
      assert aeh[..|aeh|] == aeh;
      aeh := newHandlers;
    }

    method Clear()
      modifies this`aeh
      ensures aeh == []
    {
      aeh := [];
    }

    method Trigger(payload: WhatsappMessage, dispatchUnhandled: bool)
      modifies this`dispatched
      ensures dispatched == old(dispatched)
        + if ValidForDispatch(payload.kind, payload.text, payload.inReaction, dispatchUnhandled)
          then Dispatches(aeh, payload) else []
    {
      if ValidForDispatch(payload.kind, payload.text, payload.inReaction, dispatchUnhandled) {
        for i := 0 to |aeh|
          invariant dispatched == old(dispatched) + Dispatches(aeh, payload)[..i]
        {
          dispatched := dispatched + [(aeh[i], payload)];
        }
      }
    }

    method AppendMsgToCache(msg: WhatsappMessage, from: string, now: Time, ttl: Time, limit: uint64,
                            dispatchUnhandled: bool, printer: Printer) returns (accepted: bool)
      requires Valid()
      modifies store.cache, this`dispatched
      ensures Valid()
      ensures var item := ItemOf(msg, msg.id, now + ttl);
        && (accepted <==> Accepts(old(store.cache.cacheMap), item, "message-" + from, printer))
        && Handled(old(store.cache.cacheMap), store.cache.cacheMap, item, accepted, limit)
      ensures dispatched == old(dispatched) + Triggered(accepted, msg, dispatchUnhandled, aeh)
    {
      ghost var before, item := store.cache.cacheMap, ItemOf(msg, msg.id, now + ttl);
      accepted := store.Append(msg, from, now + ttl, printer);
      assert accepted <==> Accepts(before, item, "message-" + from, printer);
      if accepted {
        store.CleanUp(limit);
        Trigger(msg, dispatchUnhandled);
      }
    }

    /** Titles the chat and previews the message replied to. */
    method Preview(msg: WhatsappMessage, chatTitle: string, synopsisLength: uint64, now: Time)
      requires Valid()
      modifies store.cache, msg`synopsis, msg`chatTitle
      ensures Valid()
      ensures msg.chatTitle == if old(msg.chatTitle) == "" then chatTitle else old(msg.chatTitle)
      ensures store.cache.cacheMap == AfterReply(old(store.cache.cacheMap), ReplyTo(msg), now)
      ensures msg.synopsis == old(Previewed(msg.synopsis, Replied(store.cache.cacheMap, msg, now), synopsisLength))
    {
      if |msg.chatTitle| == 0 {
        msg.chatTitle := chatTitle;
      }
      if |msg.inReply| > 0 {
        var cached := store.GetById(msg.inReply, now);
        if cached.Some? {
          msg.synopsis := Synopsis(cached.value.text, synopsisLength);
        }
      }
    }

    /** Gives an unhandled message an id of its own and, where it has none, a text about its content. */
    method ProcessUnhandledMessage(msg: WhatsappMessage, uuid: string, diagnosis: Option<string>)
      modifies msg`id, msg`text
      ensures msg.id == old(msg.id) + "-unhandled-" + uuid
      ensures msg.text == if old(msg.text) == "" && diagnosis.Some? then diagnosis.value else old(msg.text)
    {
      msg.id := msg.id + "-unhandled-" + uuid;
      if |msg.text| == 0 && diagnosis.Some? {
        msg.text := diagnosis.value;
      }
    }

    /** chatTitle is what the connection knows of the chat, uuid the fresh suffix given to the id of
        an unhandled message, diagnosis what is said of its content, if it has any. */
    method Message(msg: WhatsappMessage, from: string, handleGroups: bool, handleBroadcasts: bool,
                   chatTitle: string, uuid: string, diagnosis: Option<string>, synopsisLength: uint64, now: Time,
                   ttl: Time, limit: uint64, dispatchUnhandled: bool, printer: Printer)
      returns (accepted: bool)
      requires Valid()
      modifies store.cache, this`dispatched, msg`id, msg`synopsis, msg`chatTitle, msg`text
      ensures Valid()
      ensures Skips(handleGroups, handleBroadcasts, msg.chatId) ==>
        !accepted && store.cache.cacheMap == old(store.cache.cacheMap) && dispatched == old(dispatched)
        && msg.id == old(msg.id) && msg.synopsis == old(msg.synopsis)
        && msg.chatTitle == old(msg.chatTitle) && msg.text == old(msg.text)
      ensures !Skips(handleGroups, handleBroadcasts, msg.chatId) ==>
        && msg.id == FinalId(old(msg.id), msg.kind, uuid)
        && msg.text == FinalText(old(msg.text), msg.kind, diagnosis)
        && msg.synopsis == old(Previewed(msg.synopsis, Replied(store.cache.cacheMap, msg, now), synopsisLength))
        && msg.chatTitle == (if old(msg.chatTitle) == "" then chatTitle else old(msg.chatTitle))
        && var a := Arrival(ItemOf(msg, msg.id, now + ttl), "message-" + from, now, ReplyTo(msg));
           && Arrives(old(store.cache.cacheMap), store.cache.cacheMap, a, limit, printer)
           && (accepted <==> Accepts(AfterReply(old(store.cache.cacheMap), a.reply, now), a.item, a.from, printer))
      ensures dispatched == old(dispatched) + Triggered(accepted, msg, dispatchUnhandled, aeh)
    {
      if Skips(handleGroups, handleBroadcasts, msg.chatId) {
        return false;
      }
      Preview(msg, chatTitle, synopsisLength, now);
      if msg.kind.Unhandled? {
        ProcessUnhandledMessage(msg, uuid, diagnosis);
      }
      accepted := AppendMsgToCache(msg, from, now, ttl, limit, dispatchUnhandled, printer);
    }
  }
}
