/**
 One message going out to every configured dispatching: which entries are tried, what each
 entry remembers, and which failures the message carries afterwards.
 */
module Fanout {
  import opened Wrappers
  import opened DispatchingTable
  import opened DispatchingObjects
  import opened Messages
  import opened Handler
  import opened Text
  import RabbitProtocol
  import RabbitTheorems

  // ------------------------------------------------------------------ filters

  /** Pass: this filter has no objection. Panic: a set option that is neither true nor false. */
  datatype Verdict = Pass | Admit | Skip | Panic

  const READ_RECEIPT := "readreceipt"

  /** One filter: the option is read only where it applies and is set. */
  function Consult(applies: bool, option: int): Verdict {
    if !applies || option == 0 || option == 1 then Pass else if option == -1 then Skip else Panic
  }

  /** What the filters need to know of a message. */
  datatype Traits = Traits(receipt: bool, group: bool, broadcast: bool, call: bool, internal: bool, trackId: string)

  /** What the filters need to know of an entry. */
  datatype Options = Options(readReceipts: int, groups: int, broadcasts: int, calls: int,
                             forwardInternal: bool, trackId: string)

  /** The filters of an entry, asked in order until one objects. */
  function Gate(o: Options, m: Traits): Verdict {
    var a := Consult(m.receipt, o.readReceipts);
    if !a.Pass? then a else
    var b := Consult(m.group, o.groups);
    if !b.Pass? then b else
    var c := Consult(m.broadcast, o.broadcasts);
    if !c.Pass? then c else
    var d := Consult(m.call, o.calls);
    if !d.Pass? then d
    else if !m.internal || (o.forwardInternal && (o.trackId == "" || o.trackId != m.trackId)) then Admit
    else Skip
  }

  predicate TriState(option: int) {
    -1 <= option <= 1
  }

  /** Options as the interface offers them never panic; an internal message never goes back to
      the system that sent it. */
  lemma GateIsSafe(o: Options, m: Traits)
    ensures !Gate(o, m).Pass?
    ensures TriState(o.readReceipts) && TriState(o.groups) && TriState(o.broadcasts) && TriState(o.calls)
            ==> !Gate(o, m).Panic?
    ensures Gate(o, m).Admit? && m.internal ==> o.forwardInternal && (m.trackId != "" ==> o.trackId != m.trackId)
  {
  }

  /** Exactly which entries are tried: every option that applies is unset or true, and the message is
      from outside, or forwarding is on and it was not sent by the system of the entry. */
  lemma AdmittedExactly(o: Options, m: Traits)
    ensures Gate(o, m).Admit? <==>
      && (forall i :: 0 <= i < 4 ==> !Objects(o, m, i))
      && (m.internal ==> o.forwardInternal && (o.trackId != "" ==> o.trackId != m.trackId))
  {
    if Gate(o, m).Admit? {
      forall i | 0 <= i < 4 ensures !Objects(o, m, i) {
      }
    } else {
      assert Objects(o, m, 0) || Objects(o, m, 1) || Objects(o, m, 2) || Objects(o, m, 3)
             || !(m.internal ==> o.forwardInternal && (o.trackId != "" ==> o.trackId != m.trackId));
    }
  }

  /** A panic needs an applicable option out of range that no earlier filter has forestalled. */
  lemma PanicsExactlyWhen(o: Options, m: Traits)
    ensures Gate(o, m).Panic? <==>
            exists i :: 0 <= i < 4 && OutOfRange(o, m, i) && forall j :: 0 <= j < i ==> !Objects(o, m, j)
  {
    if Gate(o, m).Panic? {
      var i := if OutOfRange(o, m, 0) then 0 else if OutOfRange(o, m, 1) then 1
               else if OutOfRange(o, m, 2) then 2 else 3;
      assert OutOfRange(o, m, i) && forall j :: 0 <= j < i ==> !Objects(o, m, j);
    }
    if i :| 0 <= i < 4 && OutOfRange(o, m, i) && forall j :: 0 <= j < i ==> !Objects(o, m, j) {
      assert i > 0 ==> !Objects(o, m, 0);
      assert i > 1 ==> !Objects(o, m, 1);
      assert i > 2 ==> !Objects(o, m, 2);
    }
  }

  predicate Applies(m: Traits, i: nat) {
    if i == 0 then m.receipt else if i == 1 then m.group else if i == 2 then m.broadcast else m.call
  }

  function OptionAt(o: Options, i: nat): int {
    if i == 0 then o.readReceipts else if i == 1 then o.groups else if i == 2 then o.broadcasts else o.calls
  }

  predicate OutOfRange(o: Options, m: Traits, i: nat) {
    Applies(m, i) && !TriState(OptionAt(o, i))
  }

  predicate Objects(o: Options, m: Traits, i: nat) {
    Applies(m, i) && OptionAt(o, i) != 0 && OptionAt(o, i) != 1
  }

  // ------------------------------------------------------------------ which entries

  /** Where the loop ends: at the first panic, or behind the last entry. */
  function End(gates: seq<Verdict>): (n: nat)
    ensures n <= |gates| && (n < |gates| ==> gates[n].Panic?)
    ensures forall i :: 0 <= i < n ==> !gates[i].Panic?
  {
    if gates == [] || gates[0].Panic? then 0 else 1 + End(gates[1..])
  }

  function Admitted(gates: seq<Verdict>): seq<nat> {
    if gates == [] then []
    else Admitted(gates[..|gates| - 1]) + if gates[|gates| - 1].Admit? then [|gates| - 1] else []
  }

  /** Exactly the admitted entries, each once, in list order. */
  lemma {:induction false} AdmittedInOrder(gates: seq<Verdict>)
    ensures forall i :: i in Admitted(gates) <==> 0 <= i < |gates| && gates[i].Admit?
    ensures forall k, l :: 0 <= k < l < |Admitted(gates)| ==> Admitted(gates)[k] < Admitted(gates)[l]
  {
    if gates != [] {
      var front := gates[..|gates| - 1];
      AdmittedInOrder(front);
      forall k | 0 <= k < |Admitted(front)| ensures Admitted(front)[k] < |front| {
        assert Admitted(front)[k] in Admitted(front);
      }
      forall i: nat ensures i in Admitted(gates) <==> i < |gates| && gates[i].Admit? {
        assert i in Admitted(gates) <==> i in Admitted(front) || (i == |front| && gates[i].Admit?);
      }
    }
  }

  // ------------------------------------------------------------------ what is recorded

  /** How one attempt ends. Positive: a webhook has answered so, or the channel of a queue is up after
      the attempt, whatever has become of the message. Unsent: it failed before anything was posted. */
  datatype Answer = Positive | Failed(note: string) | Unsent

  /** What an attempt does to the message's exceptions. */
  datatype Mark = Cleared | Marked(note: string) | Unmarked

  const CACHED_NOTE := "RabbitMQ connection lost - message cached"

  function MarkOf(kind: string, connectionString: string, answer: Answer): Mark {
    if kind == "webhook" then
      match answer
      case Positive => Cleared
      case Failed(note) => Marked(note)
      case Unsent => Unmarked
    else if kind == RABBITMQ then
      if connectionString == "" then Marked("RabbitMQ client unavailable for connection ")
      else if answer.Positive? then Cleared else Marked(CACHED_NOTE)
    else Unmarked
  }

  function Exceptions(before: seq<string>, marks: seq<Mark>): seq<string> {
    if marks == [] then before
    else
      var sofar := Exceptions(before, marks[..|marks| - 1]);
      match marks[|marks| - 1]
      case Cleared => []
      case Marked(note) => sofar + [note]
      case Unmarked => sofar
  }

  function Notes(marks: seq<Mark>): seq<string> {
    if marks == [] then []
    else Notes(marks[..|marks| - 1]) + if marks[|marks| - 1].Marked? then [marks[|marks| - 1].note] else []
  }

  /** Just behind the last success; 0 when there is none. */
  function SinceSuccess(marks: seq<Mark>): (n: nat)
    ensures n <= |marks| && (n > 0 ==> marks[n - 1].Cleared?)
    ensures forall i :: n <= i < |marks| ==> !marks[i].Cleared?
  {
    if marks == [] then 0
    else if marks[|marks| - 1].Cleared? then |marks|
    else SinceSuccess(marks[..|marks| - 1])
  }

  lemma NextMark(before: seq<string>, marks: seq<Mark>, mark: Mark)
    ensures Exceptions(before, marks + [mark]) ==
      if mark.Cleared? then [] else Exceptions(before, marks) + if mark.Marked? then [mark.note] else []
    ensures SinceSuccess(marks + [mark]) == if mark.Cleared? then |marks| + 1 else SinceSuccess(marks)
  {
    assert (marks + [mark])[..|marks|] == marks;
  }

  /** What is noted behind the n-th mark grows with the marks. */
  lemma NotesFrom(marks: seq<Mark>, n: nat, mark: Mark)
    requires n <= |marks|
    ensures Notes((marks + [mark])[n..]) == Notes(marks[n..]) + if mark.Marked? then [mark.note] else []
  {
    assert (marks + [mark])[n..] == marks[n..] + [mark];
    NotesAppend(marks[n..], mark);
  }

  /** The message ends up with the failures recorded after the last success, behind its old
      exceptions when nothing succeeded. */
  lemma {:induction false} ExceptionsSinceSuccess(before: seq<string>, marks: seq<Mark>)
    ensures var n := SinceSuccess(marks);
      Exceptions(before, marks) == (if n == 0 then before else []) + Notes(marks[n..])
  {
    if marks != [] {
      var front, last := marks[..|marks| - 1], marks[|marks| - 1];
      assert marks == front + [last];
      ExceptionsSinceSuccess(before, front);
      NextMark(before, front, last);
      if last.Cleared? {
        assert marks[|marks|..] == [];
      } else {
        NotesFrom(front, SinceSuccess(front), last);
      }
    }
  }

  lemma NotesAppend(marks: seq<Mark>, mark: Mark)
    ensures Notes(marks + [mark]) == Notes(marks) + if mark.Marked? then [mark.note] else []
  {
    assert (marks + [mark])[..|marks|] == marks;
  }

  /** The failure and success times of an entry after an attempt. */
  function Record(kind: string, connectionString: string, answer: Answer, now: int,
                  failure: Option<int>, success: Option<int>): (Option<int>, Option<int>)
  {
    if kind == "webhook" then
      match answer
      case Positive => (None, Some(now))
      case Failed(_) => (if failure.None? then Some(now) else failure, success)
      case Unsent => (failure, success)
    else if kind == RABBITMQ then
      if connectionString == "" then (if failure.None? then Some(now) else failure, success)
      else if answer.Positive? then (None, Some(now)) else (Some(now), None)
    else (failure, success)
  }

  /** What one attempt leaves on the message: a success clears it, a failure is noted behind the others,
      and a queue without a connection string, like one cut off, is a failure; other kinds leave no trace. */
  lemma OneAttempt(before: seq<string>, kind: string, connectionString: string, answer: Answer)
    ensures var after := Exceptions(before, [MarkOf(kind, connectionString, answer)]);
      && (kind == "webhook" && answer.Positive? ==> after == [])
      && (kind == "webhook" && answer.Failed? ==> after == before + [answer.note])
      && (kind == "webhook" && answer.Unsent? ==> after == before)
      && (kind == "rabbitmq" && connectionString != "" && answer.Positive? ==> after == [])
      && (kind == "rabbitmq" && !(connectionString != "" && answer.Positive?) ==>
            |after| == |before| + 1 && after[..|before|] == before)
      && (kind != "webhook" && kind != "rabbitmq" ==> after == before)
  {
    assert [MarkOf(kind, connectionString, answer)][..0] == [];
  }

  datatype Tried = Tried(answer: Answer, now: int)

  /** The times of an entry after several attempts. */
  function Recorded(kind: string, connectionString: string, tries: seq<Tried>, start: (Option<int>, Option<int>))
    : (Option<int>, Option<int>)
  {
    if tries == [] then start
    else
      var before, last := Recorded(kind, connectionString, tries[..|tries| - 1], start), tries[|tries| - 1];
      Record(kind, connectionString, last.answer, last.now, before.0, before.1)
  }

  /** Just behind the last positive answer; 0 when there is none. */
  function SincePositive(tries: seq<Tried>): (n: nat)
    ensures n <= |tries| && (n > 0 ==> tries[n - 1].answer.Positive?)
    ensures forall i :: n <= i < |tries| ==> !tries[i].answer.Positive?
  {
    if tries == [] then 0
    else if tries[|tries| - 1].answer.Positive? then |tries|
    else SincePositive(tries[..|tries| - 1])
  }

  function FirstFailure(tries: seq<Tried>): Option<int> {
    if tries == [] then None
    else if FirstFailure(tries[..|tries| - 1]).Some? then FirstFailure(tries[..|tries| - 1])
    else if tries[|tries| - 1].answer.Failed? then Some(tries[|tries| - 1].now)
    else None
  }

  /** A webhook shows its last positive answer and the first failure since; attempts that got nowhere
      leave no trace. */
  lemma {:induction false} WebhookTimes(connectionString: string, tries: seq<Tried>, start: (Option<int>, Option<int>))
    ensures var n, times := SincePositive(tries), Recorded("webhook", connectionString, tries, start);
      && times.1 == (if n == 0 then start.1 else Some(tries[n - 1].now))
      && times.0 == (if n == 0 && start.0.Some? then start.0 else FirstFailure(tries[n..]))
  {
    if tries != [] {
      var front, last := tries[..|tries| - 1], tries[|tries| - 1];
      WebhookTimes(connectionString, front, start);
      if !last.answer.Positive? {
        var n := SincePositive(front);
        assert tries[n..][..|tries[n..]| - 1] == front[n..];
      } else {
        assert tries[|tries|..] == [];
      }
    }
  }

  /** A queue shows how its last attempt ended and nothing else. */
  lemma QueueTimes(connectionString: string, tries: seq<Tried>, start: (Option<int>, Option<int>))
    requires connectionString != "" && tries != []
    ensures var last := tries[|tries| - 1];
      Recorded(RABBITMQ, connectionString, tries, start)
      == if last.answer.Positive? then (None, Some(last.now)) else (Some(last.now), None)
  {
  }

  /** A queue without a connection string shows its first failure whatever is tried later, and entries of
      an unknown kind show nothing of any attempt. */
  lemma {:induction false} NowhereToSend(kind: string, connectionString: string, tries: seq<Tried>,
                                         start: (Option<int>, Option<int>))
    ensures kind == "rabbitmq" && connectionString == "" && tries != [] ==>
      Recorded(kind, connectionString, tries, start)
      == (Some(if start.0.Some? then start.0.value else tries[0].now), start.1)
    ensures kind != "webhook" && kind != "rabbitmq" ==> Recorded(kind, connectionString, tries, start) == start
  {
    if |tries| > 1 {
      NowhereToSend(kind, connectionString, tries[..|tries| - 1], start);
    } else if tries != [] {
      assert tries[..0] == [];
    }
  }

  /** What an attempt to publish to a queue is taken to have ended with: nothing but whether the
      channel of its client is there afterwards. */
  function QueueAnswer(client: RabbitProtocol.State): Answer {
    if client.channel.Some? then Positive else Failed(CACHED_NOTE)
  }

  /** So for a queue the record says nothing of the message: one dropped because the queue was full
      and one dropped because it could not be encoded are recorded as successes, and one published
      is recorded as a failure when the channel goes down right afterwards. */
  lemma QueueRecordIsNoProof(capacity: nat, fate: RabbitProtocol.Fate)
    requires fate.Refused? || fate.Unencodable? || fate.Direct?
    ensures exists client: RabbitProtocol.State, m: RabbitProtocol.Msg ::
      && RabbitTheorems.Reachable(client) && client.capacity == capacity
      && RabbitProtocol.Event(m, fate) in client.log
      && (QueueAnswer(client).Positive? <==> !fate.Direct?)
  {
    match fate
    case Refused => RabbitTheorems.RefusedThenUp(capacity);
    case Unencodable => RabbitTheorems.UnencodableWhileUp(capacity);
    case Direct => RabbitTheorems.PublishedThenDown(capacity);
  }

  // ------------------------------------------------------------------ the loop

  function OptionsOf(d: QpDispatching): Options
    reads d`readReceipts, d`groups, d`broadcasts, d`calls, d`forwardInternal, d`trackId
  {
    Options(d.readReceipts, d.groups, d.broadcasts, d.calls, d.forwardInternal, d.trackId)
  }

  function TraitsOf(m: WhatsappMessage): Traits
    reads m`id
  {
    Traits(m.id == READ_RECEIPT, FromGroup(m.chatId), FromBroadcast(m.chatId), m.kind.Call?, m.fromInternal, m.trackId)
  }

  function Gates(list: seq<QpDispatching>, m: Traits): (gates: seq<Verdict>)
    reads (set d | d in list)`readReceipts, (set d | d in list)`groups, (set d | d in list)`broadcasts
    reads (set d | d in list)`calls, (set d | d in list)`forwardInternal, (set d | d in list)`trackId
    ensures |gates| == |list|
  {
    if list == [] then [] else Gates(list[..|list| - 1], m) + [Gate(OptionsOf(list[|list| - 1]), m)]
  }

  lemma {:induction false} GateAt(list: seq<QpDispatching>, m: Traits, i: nat)
    requires i < |list|
    ensures Gates(list, m)[i] == Gate(OptionsOf(list[i]), m)
  {
    if i < |list| - 1 {
      GateAt(list[..|list| - 1], m, i);
    }
  }

  /** Type and connection string of an entry. */
  datatype Target = Target(kind: string, connectionString: string)

  function Targets(list: seq<QpDispatching>): (targets: seq<Target>)
    reads (set d | d in list)`kind
    ensures |targets| == |list|
    ensures forall i :: 0 <= i < |list| ==> targets[i] == Target(list[i].kind, list[i].connectionString)
  {
    if list == [] then []
    else Targets(list[..|list| - 1]) + [Target(list[|list| - 1].kind, list[|list| - 1].connectionString)]
  }

  predicate Allows(option: int) {
    option == 0 || option == 1
  }

  /** The entry is to get the message, in terms of their own fields. */
  predicate Wants(d: QpDispatching, m: WhatsappMessage)
    reads d`readReceipts, d`groups, d`broadcasts, d`calls, d`forwardInternal, d`trackId, m`id
  {
    && (m.id == "readreceipt" ==> Allows(d.readReceipts))
    && (HasSuffix(m.chatId, "@g.us") ==> Allows(d.groups))
    && (m.chatId == "status" || m.chatId == "status@broadcast" || HasSuffix(m.chatId, "@newsletter")
        ==> Allows(d.broadcasts))
    && (m.kind.Call? ==> Allows(d.calls))
    && (m.fromInternal ==> d.forwardInternal && (d.trackId != "" ==> d.trackId != m.trackId))
  }

  /** The filters panic over the entry. */
  predicate Breaks(d: QpDispatching, m: WhatsappMessage)
    reads d`readReceipts, d`groups, d`broadcasts, d`calls, m`id
  {
    var broadcast := m.chatId == "status" || m.chatId == "status@broadcast" || HasSuffix(m.chatId, "@newsletter");
    if m.id == "readreceipt" && !Allows(d.readReceipts) then d.readReceipts != -1
    else if HasSuffix(m.chatId, "@g.us") && !Allows(d.groups) then d.groups != -1
    else if broadcast && !Allows(d.broadcasts) then d.broadcasts != -1
    else m.kind.Call? && !Allows(d.calls) && d.calls != -1
  }

  lemma GateOfEntry(d: QpDispatching, m: WhatsappMessage)
    ensures Gate(OptionsOf(d), TraitsOf(m)).Admit? <==> Wants(d, m)
    ensures Gate(OptionsOf(d), TraitsOf(m)).Panic? <==> Breaks(d, m)
  {
  }

  /** The entries tried are those in front of the first that breaks and that want the message. */
  lemma TriedExactly(list: seq<QpDispatching>, m: WhatsappMessage)
    ensures var gates := Gates(list, TraitsOf(m));
      var tried := Admitted(gates[..End(gates)]);
      && (forall i :: 0 <= i < End(gates) ==> !Breaks(list[i], m))
      && (End(gates) < |list| ==> Breaks(list[End(gates)], m))
      && (forall i :: i in tried <==> 0 <= i < End(gates) && Wants(list[i], m))
  {
    var gates := Gates(list, TraitsOf(m));
    forall i | 0 <= i < |list|
      ensures (gates[i].Admit? <==> Wants(list[i], m)) && (gates[i].Panic? <==> Breaks(list[i], m))
    {
      GateAt(list, TraitsOf(m), i);
      GateOfEntry(list[i], m);
    }
    AdmittedInOrder(gates[..End(gates)]);
  }

  /** The marks left by the admitted ones among the first entries, in order. */
  function Marks(gates: seq<Verdict>, targets: seq<Target>, answers: nat -> Answer): seq<Mark>
    requires |gates| <= |targets|
  {
    if gates == [] then []
    else
      var n := |gates| - 1;
      Marks(gates[..n], targets, answers)
      + if gates[n].Admit? then [MarkOf(targets[n].kind, targets[n].connectionString, answers(n))] else []
  }

  lemma {:induction false} OneMark(before: seq<string>, marks: seq<Mark>, mark: Mark)
    ensures Exceptions(before, marks + [mark]) == Exceptions(Exceptions(before, marks), [mark])
  {
    assert (marks + [mark])[..|marks|] == marks && [mark][..0] == [];
  }

  method Dispatch(d: QpDispatching, m: WhatsappMessage, answer: Answer, now: int)
    modifies d`failure, d`success, m`exceptions
    ensures (d.failure, d.success)
         == Record(d.kind, d.connectionString, answer, now, old(d.failure), old(d.success))
    ensures m.exceptions == Exceptions(old(m.exceptions), [MarkOf(d.kind, d.connectionString, answer)])
  {
    assert Exceptions(m.exceptions, []) == m.exceptions;
    assert [MarkOf(d.kind, d.connectionString, answer)][..0] == [];
    if d.kind == "webhook" {
      match answer
      case Unsent => return;
      case Failed(note) =>
        if d.failure.None? {
          d.failure := Some(now);
        }
        m.exceptions := m.exceptions + [note];
      case Positive =>
        d.failure, d.success := None, Some(now);
        m.exceptions := [];
    } else if d.kind == RABBITMQ {
      if d.connectionString == "" {
        if d.failure.None? {
          d.failure := Some(now);
        }
        m.exceptions := m.exceptions + ["RabbitMQ client unavailable for connection " + d.connectionString];
        assert "RabbitMQ client unavailable for connection " + "" == "RabbitMQ client unavailable for connection ";
      } else if answer.Positive? {
        d.failure, d.success := None, Some(now);
        m.exceptions := [];
      } else {
        d.failure, d.success := Some(now), None;
        m.exceptions := m.exceptions + [CACHED_NOTE];
      }
    }
  }

  predicate Unique(list: seq<QpDispatching>) {
    forall i, j :: 0 <= i < j < |list| ==> list[i] != list[j]
  }

  /** One round of the loop. */
  method TryEntry(d: QpDispatching, m: WhatsappMessage, answer: Answer, now: int) returns (gate: Verdict)
    modifies d`failure, d`success, m`exceptions
    ensures gate == old(Gate(OptionsOf(d), TraitsOf(m)))
    ensures (d.failure, d.success)
         == if gate.Admit? then Record(d.kind, d.connectionString, answer, now, old(d.failure), old(d.success))
            else (old(d.failure), old(d.success))
    ensures m.exceptions ==
      if gate.Admit? then Exceptions(old(m.exceptions), [MarkOf(d.kind, d.connectionString, answer)])
      else old(m.exceptions)
  {
    gate := Gate(OptionsOf(d), TraitsOf(m));
    if gate.Admit? {
      Dispatch(d, m, answer, now);
    }
  }

  lemma MarksNext(before: seq<string>, gates: seq<Verdict>, targets: seq<Target>, answers: nat -> Answer, i: nat)
    requires i < |gates| <= |targets|
    ensures Exceptions(before, Marks(gates[..i + 1], targets, answers))
         == if gates[i].Admit?
            then Exceptions(Exceptions(before, Marks(gates[..i], targets, answers)),
                            [MarkOf(targets[i].kind, targets[i].connectionString, answers(i))])
            else Exceptions(before, Marks(gates[..i], targets, answers))
    ensures Admitted(gates[..i + 1]) == Admitted(gates[..i]) + if gates[i].Admit? then [i] else []
  {
    assert gates[..i + 1][..i] == gates[..i];
    assert Marks(gates[..i], targets, answers) + [] == Marks(gates[..i], targets, answers);
    OneMark(before, Marks(gates[..i], targets, answers),
            MarkOf(targets[i].kind, targets[i].connectionString, answers(i)));
  }

  /** What entry i remembers of a fan-out in which it was or was not attempted. */
  predicate Remembers(before: (Option<int>, Option<int>), after: (Option<int>, Option<int>), target: Target,
                      attempted: bool, answer: Answer, now: int) {
    after == if attempted then Record(target.kind, target.connectionString, answer, now, before.0, before.1) else before
  }

  function Times(list: seq<QpDispatching>): (times: seq<(Option<int>, Option<int>)>)
    reads list
    ensures |times| == |list| && forall i :: 0 <= i < |list| ==> times[i] == (list[i].failure, list[i].success)
  {
    if list == [] then [] else Times(list[..|list| - 1]) + [(list[|list| - 1].failure, list[|list| - 1].success)]
  }

  /** What the entries remember after the first n rounds. */
  predicate RememberAll(before: seq<(Option<int>, Option<int>)>, after: seq<(Option<int>, Option<int>)>,
                        targets: seq<Target>, gates: seq<Verdict>, n: nat, answers: nat -> Answer, now: int)
    requires |before| == |targets| == |gates|
  {
    && |after| == |before|
    && forall i :: 0 <= i < |before| ==>
         Remembers(before[i], after[i], targets[i], i < n && gates[i].Admit?, answers(i), now)
  }

  lemma RememberNext(before: seq<(Option<int>, Option<int>)>, sofar: seq<(Option<int>, Option<int>)>,
                     after: seq<(Option<int>, Option<int>)>,
                     targets: seq<Target>, gates: seq<Verdict>, i: nat, answers: nat -> Answer, now: int)
    requires i < |before| == |targets| == |gates|
    requires RememberAll(before, sofar, targets, gates, i, answers, now)
    requires |after| == |sofar| && after == sofar[i := after[i]]
    requires after[i] == if gates[i].Admit?
                         then Record(targets[i].kind, targets[i].connectionString, answers(i), now,
                                     sofar[i].0, sofar[i].1)
                         else sofar[i]
    ensures RememberAll(before, after, targets, gates, i + 1, answers, now)
    ensures !gates[i].Admit? ==> RememberAll(before, after, targets, gates, i, answers, now)
  {
    assert Remembers(before[i], sofar[i], targets[i], false, answers(i), now);
    if !gates[i].Admit? {
      assert after == sofar;
    }
    forall j | 0 <= j < |before|
      ensures Remembers(before[j], after[j], targets[j], j < i + 1 && gates[j].Admit?, answers(j), now)
    {
      assert Remembers(before[j], sofar[j], targets[j], j < i && gates[j].Admit?, answers(j), now);
    }
  }

  /** One round of the loop on the list. */
  method Round(list: seq<QpDispatching>, i: nat, d: QpDispatching, m: WhatsappMessage, answer: Answer, now: int)
    returns (gate: Verdict)
    requires i < |list| && list[i] == d
    modifies d`failure, d`success, m`exceptions
    ensures gate == old(Gates(list, TraitsOf(m)))[i]
    ensures Gates(list, TraitsOf(m)) == old(Gates(list, TraitsOf(m))) && Targets(list) == old(Targets(list))
    ensures m.exceptions ==
      if gate.Admit? then Exceptions(old(m.exceptions), [MarkOf(d.kind, d.connectionString, answer)])
      else old(m.exceptions)
    ensures Unique(list) ==>
      Times(list) == old(Times(list))[i :=
        if gate.Admit? then Record(d.kind, d.connectionString, answer, now, old(d.failure), old(d.success))
        else old(Times(list))[i]]
  {
    ghost var times := Times(list);
    GateAt(list, TraitsOf(m), i);
    gate := TryEntry(d, m, answer, now);
    if Unique(list) {
      assert Times(list) == times[i := (d.failure, d.success)];
    }
  }

  predicate NoPanic(gates: seq<Verdict>, n: nat)
    requires n <= |gates|
  {
    forall i :: 0 <= i < n ==> !gates[i].Panic?
  }

  lemma {:induction false} EndAt(gates: seq<Verdict>, n: nat)
    requires n <= |gates| && (n < |gates| ==> gates[n].Panic?)
    requires NoPanic(gates, n)
    ensures End(gates) == n
  {
    if n > 0 {
      EndAt(gates[1..], n - 1);
    }
  }

  /** What is to be known of the entries before the loop: verdicts, targets, times, and whether no
      object is listed twice. */
  datatype Before = Before(gates: seq<Verdict>, targets: seq<Target>, times: seq<(Option<int>, Option<int>)>,
                           exceptions: seq<string>, unique: bool)

  predicate WellSized(b: Before) {
    |b.gates| == |b.targets| == |b.times|
  }

  /** How far the loop has got after n entries. */
  predicate Progress(b: Before, n: nat, answers: nat -> Answer, now: int, attempts: seq<nat>, exceptions: seq<string>,
                     times: seq<(Option<int>, Option<int>)>)
    requires WellSized(b) && n <= |b.gates|
  {
    && NoPanic(b.gates, n)
    && attempts == Admitted(b.gates[..n])
    && exceptions == Exceptions(b.exceptions, Marks(b.gates[..n], b.targets, answers))
    && (b.unique ==> RememberAll(b.times, times, b.targets, b.gates, n, answers, now))
  }

  lemma ProgressNext(b: Before, i: nat, answers: nat -> Answer, now: int, attempts: seq<nat>, exceptions: seq<string>,
                     times: seq<(Option<int>, Option<int>)>, exceptions': seq<string>,
                     times': seq<(Option<int>, Option<int>)>)
    requires WellSized(b) && i < |b.gates| && Progress(b, i, answers, now, attempts, exceptions, times)
    requires exceptions' ==
      if b.gates[i].Admit?
      then Exceptions(exceptions, [MarkOf(b.targets[i].kind, b.targets[i].connectionString, answers(i))])
      else exceptions
    requires b.unique ==>
      && |times| == |b.times|
      && times' == times[i :=
           if b.gates[i].Admit? then Record(b.targets[i].kind, b.targets[i].connectionString, answers(i), now,
                                            times[i].0, times[i].1)
           else times[i]]
    ensures b.gates[i].Panic? ==>
      End(b.gates) == i && Progress(b, i, answers, now, attempts, exceptions', times')
    ensures !b.gates[i].Panic? ==>
      Progress(b, i + 1, answers, now, if b.gates[i].Admit? then attempts + [i] else attempts, exceptions', times')
  {
    MarksNext(b.exceptions, b.gates, b.targets, answers, i);
    if b.unique {
      RememberNext(b.times, times, times', b.targets, b.gates, i, answers, now);
    }
    if b.gates[i].Panic? {
      EndAt(b.gates, i);
    }
    assert attempts + [] == attempts;
  }

  /** How far the loop has got, read off the objects. */
  predicate Underway(list: seq<QpDispatching>, m: WhatsappMessage, i: nat, answers: nat -> Answer, now: int,
                     attempts: seq<nat>, b: Before)
    reads list, m
  {
    && WellSized(b) && |b.gates| == |list| && b.unique == Unique(list) && i <= |list|
    && Gates(list, TraitsOf(m)) == b.gates && Targets(list) == b.targets
    && Progress(b, i, answers, now, attempts, m.exceptions, Times(list))
  }

  lemma NotBegun(list: seq<QpDispatching>, m: WhatsappMessage, answers: nat -> Answer, now: int)
    ensures var b := Before(Gates(list, TraitsOf(m)), Targets(list), Times(list), m.exceptions, Unique(list));
      Underway(list, m, 0, answers, now, [], b)
  {
  }

  /** One entry after the other: the next round of the loop, as progress on values. */
  method TryNext(list: seq<QpDispatching>, i: nat, d: QpDispatching, m: WhatsappMessage, answers: nat -> Answer,
                 now: int, attempts: seq<nat>, ghost b: Before) returns (longer: seq<nat>, panicked: bool)
    requires i < |list| && list[i] == d && Underway(list, m, i, answers, now, attempts, b)
    modifies d`failure, d`success, m`exceptions
    ensures if panicked then End(b.gates) == i && i < |b.gates| && Underway(list, m, i, answers, now, longer, b)
            else Underway(list, m, i + 1, answers, now, longer, b)
  {
    ghost var exceptions, times := m.exceptions, Times(list);
    var gate := Round(list, i, d, m, answers(i), now);
    ProgressNext(b, i, answers, now, attempts, exceptions, times, m.exceptions, Times(list));
    longer := if gate.Admit? then attempts + [i] else attempts;
    panicked := gate.Panic?;
  }

  method Loop(list: seq<QpDispatching>, m: WhatsappMessage, answers: nat -> Answer, now: int, ghost b: Before)
    returns (attempts: seq<nat>, panicked: bool)
    requires Underway(list, m, 0, answers, now, [], b)
    modifies (set d | d in list)`failure, (set d | d in list)`success, m`exceptions
    ensures panicked == (End(b.gates) < |b.gates|)
    ensures End(b.gates) <= |list| && Underway(list, m, End(b.gates), answers, now, attempts, b)
  {
    attempts := [];
    for i := 0 to |list|
      invariant Underway(list, m, i, answers, now, attempts, b)
    {
      attempts, panicked := TryNext(list, i, list[i], m, answers, now, attempts, b);
      if panicked {
        return;
      }
    }
    EndAt(b.gates, |list|);
    panicked := false;
  }

  /** The times of an entry changed exactly if it was tried. */
  lemma RememberedBy(b: Before, attempts: seq<nat>, times: seq<(Option<int>, Option<int>)>, answers: nat -> Answer,
                     now: int)
    requires WellSized(b) && attempts == Admitted(b.gates[..End(b.gates)])
    requires b.unique ==> RememberAll(b.times, times, b.targets, b.gates, End(b.gates), answers, now)
    ensures b.unique ==> |times| == |b.times| && forall i :: 0 <= i < |times| ==>
      times[i] ==
        if i in attempts then Record(b.targets[i].kind, b.targets[i].connectionString, answers(i), now,
                                     b.times[i].0, b.times[i].1)
        else b.times[i]
  {
    AdmittedInOrder(b.gates[..End(b.gates)]);
    if b.unique {
      forall i | 0 <= i < |times| ensures i in attempts <==> i < End(b.gates) && b.gates[i].Admit? {
      }
      assert forall i :: 0 <= i < |times| ==>
        Remembers(b.times[i], times[i], b.targets[i], i < End(b.gates) && b.gates[i].Admit?, answers(i), now);
    }
  }

  /** answers(i) is how an attempt of entry i ends. Errors do not stop the loop, a panic does. */
  method PostToDispatching(list: seq<QpDispatching>, m: WhatsappMessage, answers: nat -> Answer, now: int)
    returns (attempts: seq<nat>, panicked: bool)
    modifies (set d | d in list)`failure, (set d | d in list)`success, m`exceptions
    ensures var gates := old(Gates(list, TraitsOf(m)));
      && panicked == (End(gates) < |gates|)
      && attempts == Admitted(gates[..End(gates)])
      && m.exceptions == Exceptions(old(m.exceptions), Marks(gates[..End(gates)], old(Targets(list)), answers))
      && (Unique(list) ==>
            RememberAll(old(Times(list)), Times(list), old(Targets(list)), gates, End(gates), answers, now))
    ensures panicked <==> exists i :: 0 <= i < |list| && old(Breaks(list[i], m))
    ensures forall k, l :: 0 <= k < l < |attempts| ==> attempts[k] < attempts[l]
    ensures forall i :: i in attempts ==> i < |list| && old(Wants(list[i], m))
    ensures !panicked ==> forall i :: 0 <= i < |list| && old(Wants(list[i], m)) ==> i in attempts
    ensures Unique(list) ==> forall i :: 0 <= i < |list| ==>
      (list[i].failure, list[i].success) ==
        if i in attempts
        then Record(list[i].kind, list[i].connectionString, answers(i), now, old(list[i].failure), old(list[i].success))
        else (old(list[i].failure), old(list[i].success))
  {
    TriedExactly(list, m);
    AdmittedInOrder(Gates(list, TraitsOf(m))[..End(Gates(list, TraitsOf(m)))]);
    ghost var b := Before(Gates(list, TraitsOf(m)), Targets(list), Times(list), m.exceptions, Unique(list));
    NotBegun(list, m, answers, now);
    attempts, panicked := Loop(list, m, answers, now, b);
    RememberedBy(b, attempts, Times(list), answers, now);
  }
}
