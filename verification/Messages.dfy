/**
 The message cache of one server: messages by upper-case id, and beside them the delivery
 status of each id, which only ever rises while it is remembered.
 */
module Messages {
  import opened Wrappers
  import opened Duplicates
  import opened Cache

  // ------------------------------------------------------------------ ids

  function UpperChar(c: char): char {
    if 'a' <= c <= 'z' then c - 'a' + 'A' else c
  }

  /** strings.ToUpper on ASCII letters. */
  function Upper(id: string): string {
    seq(|id|, i requires 0 <= i < |id| => UpperChar(id[i]))
  }

  predicate SmallAndCapital(small: char, capital: char) {
    'a' <= small <= 'z' && small as int - capital as int == 'a' as int - 'A' as int
  }

  predicate SameLetter(a: char, b: char) {
    a == b || SmallAndCapital(a, b) || SmallAndCapital(b, a)
  }

  /** Two ids that differ at most in the case of their letters. */
  predicate SameUpToCase(a: string, b: string) {
    |a| == |b| && forall i :: 0 <= i < |a| ==> SameLetter(a[i], b[i])
  }

  lemma UpperFolds(a: string, b: string)
    ensures Upper(a) == Upper(b) <==> SameUpToCase(a, b)
    ensures Upper(Upper(a)) == Upper(a)
  {
    if Upper(a) == Upper(b) {
      assert |Upper(a)| == |a| && |Upper(b)| == |b|;
      forall i | 0 <= i < |a| ensures SameLetter(a[i], b[i]) {
        assert Upper(a)[i] == UpperChar(a[i]) && Upper(b)[i] == UpperChar(b[i]);
      }
    }
  }

  // ------------------------------------------------------------------ statuses

  type Status = string

  const UNKNOWN: Status := ""

  function Rank(status: Status): (r: nat)
    ensures r <= 4
  {
    if status == "error" then 1
    else if status == "imported" then 2
    else if status == "delivered" then 3
    else if status == "read" then 4
    else 0
  }

  type Statuses = map<string, Item<Status>>

  function StatusOf(statuses: Statuses, id: string, now: Time): Status {
    match Live(statuses, Upper(id), now)
    case Some(status) => status
    case None => UNKNOWN
  }

  predicate Rises(statuses: Statuses, id: string, status: Status, now: Time) {
    Rank(StatusOf(statuses, id, now)) < Rank(status)
  }

  function StatusItem(id: string, status: Status, expiration: Time): Item<Status> {
    Item(Upper(id), status, None, expiration)
  }

  /** The status cache after one MessageStatusUpdate. */
  function AfterUpdate(statuses: Statuses, id: string, status: Status, now: Time, ttl: Time): Statuses {
    var looked := AfterGet(statuses, Upper(id), now);
    if Rises(statuses, id, status, now) then looked[Upper(id) := StatusItem(id, status, now + ttl)] else looked
  }

  datatype StatusCall = StatusCall(id: string, status: Status, now: Time)

  function StatusRun(calls: seq<StatusCall>, ttl: Time): Statuses {
    if calls == [] then map[]
    else
      var last := calls[|calls| - 1];
      AfterUpdate(StatusRun(calls[..|calls| - 1], ttl), last.id, last.status, last.now, ttl)
  }

  /** The highest rank submitted for an id, in any letter case. */
  function HighestRank(calls: seq<StatusCall>, id: string): nat {
    if calls == [] then 0
    else
      var last := calls[|calls| - 1];
      var before := HighestRank(calls[..|calls| - 1], id);
      if Upper(last.id) == Upper(id) && Rank(last.status) > before then Rank(last.status) else before
  }

  /** The answers true that MessageStatusUpdate gave for an id. */
  function Increases(calls: seq<StatusCall>, id: string, ttl: Time): nat {
    if calls == [] then 0
    else
      var last := calls[|calls| - 1];
      Increases(calls[..|calls| - 1], id, ttl)
      + if Upper(last.id) == Upper(id)
           && Rises(StatusRun(calls[..|calls| - 1], ttl), last.id, last.status, last.now) then 1 else 0
  }

  /** The status on a message that is cached under an id throughout the calls. */
  function Carried(calls: seq<StatusCall>, id: string, ttl: Time, initial: Status): Status {
    if calls == [] then initial
    else
      var last := calls[|calls| - 1];
      if Upper(last.id) == Upper(id)
         && Rises(StatusRun(calls[..|calls| - 1], ttl), last.id, last.status, last.now)
      then last.status else Carried(calls[..|calls| - 1], id, ttl, initial)
  }

  /** All calls fall within one expiration period. */
  predicate Within(calls: seq<StatusCall>, start: Time, ttl: Time) {
    forall c :: c in calls ==> start <= c.now < start + ttl
  }

  lemma WithinFront(calls: seq<StatusCall>, start: Time, ttl: Time)
    requires Within(calls, start, ttl) && calls != []
    ensures Within(calls[..|calls| - 1], start, ttl)
    ensures start <= calls[|calls| - 1].now < start + ttl
  {
    assert calls[|calls| - 1] in calls;
    forall c | c in calls[..|calls| - 1] ensures c in calls {
    }
  }

  /** Nothing in the status cache expires before the period ends. */
  lemma {:induction false} NothingExpires(calls: seq<StatusCall>, start: Time, ttl: Time)
    requires Within(calls, start, ttl)
    ensures forall k :: k in StatusRun(calls, ttl) ==> StatusRun(calls, ttl)[k].expiration >= start + ttl
  {
    if calls != [] {
      WithinFront(calls, start, ttl);
      NothingExpires(calls[..|calls| - 1], start, ttl);
    }
  }

  /** The remembered status of an id is the highest submitted, whatever the order of the calls. */
  lemma {:induction false} StatusIsHighest(calls: seq<StatusCall>, id: string, start: Time, ttl: Time, now: Time)
    requires Within(calls, start, ttl) && start <= now < start + ttl
    ensures Rank(StatusOf(StatusRun(calls, ttl), id, now)) == HighestRank(calls, id)
  {
    if calls != [] {
      var front, last := calls[..|calls| - 1], calls[|calls| - 1];
      WithinFront(calls, start, ttl);
      NothingExpires(front, start, ttl);
      StatusIsHighest(front, id, start, ttl, now);
      StatusIsHighest(front, id, start, ttl, last.now);
      if Upper(last.id) == Upper(id) {
        assert StatusOf(StatusRun(front, ttl), last.id, last.now) == StatusOf(StatusRun(front, ttl), id, last.now);
      }
    }
  }

  predicate Submitted(calls: seq<StatusCall>, id: string, status: Status) {
    exists c :: c in calls && Upper(c.id) == Upper(id) && c.status == status
  }

  lemma {:induction false} HighestSubmitted(calls: seq<StatusCall>, id: string, status: Status)
    ensures Submitted(calls, id, status) ==> HighestRank(calls, id) >= Rank(status)
    ensures HighestRank(calls, id) > 0 ==>
      exists c :: c in calls && Upper(c.id) == Upper(id) && Rank(c.status) == HighestRank(calls, id)
  {
    if calls != [] {
      var front, last := calls[..|calls| - 1], calls[|calls| - 1];
      HighestSubmitted(front, id, status);
      assert calls == front + [last] && last in calls;
    }
  }

  /** Whatever the order of the calls: read once submitted stays, delivered gives way to read alone,
      imported to these two, and an error to any of them. */
  lemma StatusDecided(calls: seq<StatusCall>, id: string, start: Time, ttl: Time, now: Time)
    requires Within(calls, start, ttl) && start <= now < start + ttl
    ensures StatusOf(StatusRun(calls, ttl), id, now) ==
      if Submitted(calls, id, "read") then "read"
      else if Submitted(calls, id, "delivered") then "delivered"
      else if Submitted(calls, id, "imported") then "imported"
      else if Submitted(calls, id, "error") then "error"
      else UNKNOWN
  {
    StatusIsHighest(calls, id, start, ttl, now);
    HighestSubmitted(calls, id, "read");
    HighestSubmitted(calls, id, "delivered");
    HighestSubmitted(calls, id, "imported");
    HighestSubmitted(calls, id, "error");
    OnlyKnown(calls, ttl);
  }

  /** Only the four known statuses are ever remembered. */
  lemma {:induction false} OnlyKnown(calls: seq<StatusCall>, ttl: Time)
    ensures forall k :: k in StatusRun(calls, ttl) ==>
      StatusRun(calls, ttl)[k].value in ["error", "imported", "delivered", "read"]
  {
    if calls != [] {
      OnlyKnown(calls[..|calls| - 1], ttl);
    }
  }

  /** A call answers true exactly when it raises the highest rank. */
  lemma AnswersTrueOnIncrease(calls: seq<StatusCall>, call: StatusCall, start: Time, ttl: Time)
    requires Within(calls, start, ttl) && start <= call.now < start + ttl
    ensures Rises(StatusRun(calls, ttl), call.id, call.status, call.now)
            <==> HighestRank(calls + [call], call.id) > HighestRank(calls, call.id)
  {
    StatusIsHighest(calls, call.id, start, ttl, call.now);
    assert (calls + [call])[..|calls|] == calls;
  }

  /** At most four times per id. */
  lemma {:induction false} FewIncreases(calls: seq<StatusCall>, id: string, start: Time, ttl: Time)
    requires Within(calls, start, ttl)
    ensures Increases(calls, id, ttl) <= HighestRank(calls, id) <= 4
  {
    if calls != [] {
      var front, last := calls[..|calls| - 1], calls[|calls| - 1];
      WithinFront(calls, start, ttl);
      FewIncreases(front, id, start, ttl);
      StatusIsHighest(front, id, start, ttl, last.now);
      if Upper(last.id) == Upper(id) {
        assert StatusOf(StatusRun(front, ttl), last.id, last.now) == StatusOf(StatusRun(front, ttl), id, last.now);
      }
    }
  }

  /** A message cached throughout carries the remembered status as soon as one call has raised it. */
  lemma {:induction false} MessageCarriesStatus(calls: seq<StatusCall>, id: string, start: Time, ttl: Time, now: Time,
                                                initial: Status)
    requires Within(calls, start, ttl) && start <= now < start + ttl
    requires HighestRank(calls, id) > 0
    ensures Carried(calls, id, ttl, initial) == StatusOf(StatusRun(calls, ttl), id, now)
  {
    var front, last := calls[..|calls| - 1], calls[|calls| - 1];
    WithinFront(calls, start, ttl);
    NothingExpires(front, start, ttl);
    StatusIsHighest(front, id, start, ttl, last.now);
    if Upper(last.id) == Upper(id) {
      assert StatusOf(StatusRun(front, ttl), last.id, last.now) == StatusOf(StatusRun(front, ttl), id, last.now);
    }
    if HighestRank(front, id) > 0 {
      MessageCarriesStatus(front, id, start, ttl, now, initial);
    }
  }

  // ------------------------------------------------------------------ the cache object

  datatype MessageType = Unhandled | Text | Call | SystemMessage | OtherType

  class WhatsappMessage {
    var id: string
    var status: Status
    var synopsis: string
    var exceptions: seq<string>
    var text: string
    var chatTitle: string
    const kind: MessageType
    const chatId: string
    const inReply: string
    const inReaction: bool
    const content: Option<Content>
    const fromInternal: bool                 // sent through the api
    const trackId: string                    // of the system that sent it

    constructor (id: string, kind: MessageType, chatId: string, chatTitle: string, text: string, inReply: string,
                 inReaction: bool, content: Option<Content>, fromInternal: bool, trackId: string)
    {
      this.id, this.status, this.synopsis, this.exceptions := id, UNKNOWN, "", [];
      this.fromInternal, this.trackId := fromInternal, trackId;
      this.kind, this.chatId, this.chatTitle, this.text, this.inReply := kind, chatId, chatTitle, text, inReply;
      this.inReaction, this.content := inReaction, content;
    }
  }

  /** The status of message m after a call; found: the message that is live under the id of the call. */
  function StatusAfter(before: Status, raised: bool, found: Option<WhatsappMessage>, m: WhatsappMessage, status: Status)
    : Status
  {
    if raised && found == Some(m) then status else before
  }

  /** What a message and the status cache go through while the calls come in: every step is what
      MessageStatusUpdate promises, on whatever the message cache holds by then. */
  predicate UpdateRun(calls: seq<StatusCall>, ttl: Time, m: WhatsappMessage,
                      caches: seq<map<string, Item<WhatsappMessage>>>, statuses: seq<Statuses>, marks: seq<Status>)
  {
    && |caches| == |calls| && |statuses| == |marks| == |calls| + 1 && statuses[0] == map[]
    && (forall k :: 0 <= k < |calls| ==>
          && statuses[k + 1] == AfterUpdate(statuses[k], calls[k].id, calls[k].status, calls[k].now, ttl)
          && marks[k + 1] == StatusAfter(marks[k], Rises(statuses[k], calls[k].id, calls[k].status, calls[k].now),
                                         Live(caches[k], Upper(calls[k].id), calls[k].now), m, calls[k].status))
  }

  /** Message m is the live one under its id, and under no other, at every call. */
  predicate CachedThroughout(calls: seq<StatusCall>, id: string, m: WhatsappMessage,
                             caches: seq<map<string, Item<WhatsappMessage>>>)
    requires |caches| == |calls|
  {
    forall k :: 0 <= k < |calls| ==>
      (Live(caches[k], Upper(calls[k].id), calls[k].now) == Some(m) <==> Upper(calls[k].id) == Upper(id))
  }

  lemma UpdateRunFront(calls: seq<StatusCall>, id: string, ttl: Time, m: WhatsappMessage,
                       caches: seq<map<string, Item<WhatsappMessage>>>, statuses: seq<Statuses>, marks: seq<Status>)
    requires UpdateRun(calls, ttl, m, caches, statuses, marks) && CachedThroughout(calls, id, m, caches) && calls != []
    ensures var n := |calls| - 1;
      && UpdateRun(calls[..n], ttl, m, caches[..n], statuses[..n + 1], marks[..n + 1])
      && CachedThroughout(calls[..n], id, m, caches[..n])
      && statuses[n + 1] == AfterUpdate(statuses[n], calls[n].id, calls[n].status, calls[n].now, ttl)
      && marks[n + 1] == if Upper(calls[n].id) == Upper(id)
                            && Rises(statuses[n], calls[n].id, calls[n].status, calls[n].now)
                         then calls[n].status else marks[n]
  {
  }

  /** The message object carries exactly what the calls alone determine. */
  lemma {:induction false} UpdateRunCarries(calls: seq<StatusCall>, id: string, ttl: Time, m: WhatsappMessage,
                                            caches: seq<map<string, Item<WhatsappMessage>>>,
                                            statuses: seq<Statuses>, marks: seq<Status>)
    requires UpdateRun(calls, ttl, m, caches, statuses, marks) && CachedThroughout(calls, id, m, caches)
    ensures statuses[|calls|] == StatusRun(calls, ttl)
    ensures marks[|calls|] == Carried(calls, id, ttl, marks[0])
  {
    if calls != [] {
      var n := |calls| - 1;
      UpdateRunFront(calls, id, ttl, m, caches, statuses, marks);
      UpdateRunCarries(calls[..n], id, ttl, m, caches[..n], statuses[..n + 1], marks[..n + 1]);
    }
  }

  /** So once a call has raised the status of its id, a message cached throughout carries the
      highest status submitted. */
  lemma MessageFollows(calls: seq<StatusCall>, id: string, start: Time, ttl: Time, m: WhatsappMessage,
                       caches: seq<map<string, Item<WhatsappMessage>>>, statuses: seq<Statuses>, marks: seq<Status>)
    requires UpdateRun(calls, ttl, m, caches, statuses, marks) && CachedThroughout(calls, id, m, caches)
    requires Within(calls, start, ttl) && ttl > 0 && HighestRank(calls, id) > 0
    ensures Rank(marks[|calls|]) == HighestRank(calls, id)
    ensures marks[|calls|] == StatusOf(statuses[|calls|], id, start)
  {
    UpdateRunCarries(calls, id, ttl, m, caches, statuses, marks);
    MessageCarriesStatus(calls, id, start, ttl, start, marks[0]);
    StatusIsHighest(calls, id, start, ttl, start);
  }

  /** Whoever a message comes from: it is denied exactly if its id is cached, in any letter case, with
      content that it repeats. */
  lemma DeniedExactly(items: map<string, Item<WhatsappMessage>>, value: WhatsappMessage, from: string,
                      expiration: Time, printer: Printer)
    ensures Accepts(items, Item(Upper(value.id), value, value.content, expiration), "message-" + from, printer) <==>
      !(&& Upper(value.id) in items
        && items[Upper(value.id)].content.Some? && value.content.Some?
        && Duplicate(items[Upper(value.id)].content.value, value.content.value, printer))
  {
    assert ("message-" + from)[..7] == "message";
  }

  class QpWhatsappMessages {
    const cache: QpCache<WhatsappMessage>
    const statuses: QpCache<Status>

    predicate Valid()
      reads cache, statuses
    {
      cache.Valid() && statuses.Valid()
    }

    constructor ()
      ensures Valid() && fresh(cache) && fresh(statuses) && cache.cacheMap == map[] && statuses.cacheMap == map[]
    {
      cache := new QpCache<WhatsappMessage>();
      statuses := new QpCache<Status>();
    }

    method Append(value: WhatsappMessage, from: string, expiration: Time, printer: Printer) returns (accepted: bool)
      requires Valid()
      modifies cache
      ensures Valid()
      ensures var item := Item(Upper(value.id), value, value.content, expiration);
        && cache.cacheMap == old(cache.cacheMap)[item.key := item]
        && (accepted <==> Accepts(old(cache.cacheMap), item, "message-" + from, printer))
    {
      var item := Item(Upper(value.id), value, value.content, expiration);
      accepted := cache.SetCacheItem(item, "message-" + from, printer);
    }

    method CleanUp(max: uint64)
      requires Valid()
      modifies cache
      ensures Valid()
      ensures var size := |old(cache.cacheMap)|;
        Evicted(old(cache.cacheMap), cache.cacheMap, Evictions(Wrap(size), max, size))
    {
      cache.CleanUp(max);
    }

    method GetById(id: string, now: Time) returns (msg: Option<WhatsappMessage>)
      requires Valid()
      modifies cache
      ensures Valid()
      ensures msg == Live(old(cache.cacheMap), Upper(id), now)
      ensures cache.cacheMap == AfterGet(old(cache.cacheMap), Upper(id), now)
    {
      msg := cache.GetAny(Upper(id), now);
    }

    method SetStatusById(id: string, status: Status, expiration: Time, printer: Printer)
      requires Valid()
      modifies statuses
      ensures Valid() && statuses.cacheMap == old(statuses.cacheMap)[Upper(id) := StatusItem(id, status, expiration)]
    {
      var accepted := statuses.SetCacheItem(StatusItem(id, status, expiration), "status", printer);
    }

    method GetStatusById(id: string, now: Time) returns (status: Status)
      requires Valid()
      modifies statuses
      ensures Valid()
      ensures status == StatusOf(old(statuses.cacheMap), id, now)
      ensures statuses.cacheMap == AfterGet(old(statuses.cacheMap), Upper(id), now)
    {
      var cached := statuses.GetAny(Upper(id), now);
      status := if cached.Some? then cached.value else UNKNOWN;
    }

    method MessageStatusUpdate(id: string, status: Status, now: Time, ttl: Time, printer: Printer)
      returns (raised: bool)
      requires Valid()
      modifies cache, statuses, (set k | k in cache.cacheMap :: cache.cacheMap[k].value)`status
      ensures Valid()
      ensures raised <==> Rises(old(statuses.cacheMap), id, status, now)
      ensures statuses.cacheMap == AfterUpdate(old(statuses.cacheMap), id, status, now, ttl)
      ensures cache.cacheMap == if raised then AfterGet(old(cache.cacheMap), Upper(id), now) else old(cache.cacheMap)
      ensures forall m: WhatsappMessage | old(allocated(m)) ::
        m.status == StatusAfter(old(m.status), raised, old(Live(cache.cacheMap, Upper(id), now)), m, status)
    {
      var cached := GetStatusById(id, now);
      if Rank(cached) < Rank(status) {
        SetStatusById(id, status, now + ttl, printer);
        var msg := GetById(id, now);
        if msg.Some? {
          msg.value.status := status;
        }
        return true;
      }
      raised := false;
    }
  }
}
