/**
 The allocator of media ports: two UDP ports for every call, searched first-fit over the even
 ports of a fixed range. Which ports the operating system grants comes in as parameters.
 */
module RtpProxy {
  import opened Wrappers

  const RTP_MEDIA_PORT_MIN := 10000
  const RTP_MEDIA_PORT_MAX := 20000

  /** One open UDP socket; the descriptor tells two sockets of one port apart. */
  datatype Socket = Socket(descriptor: nat, port: int)

  datatype Ports = Ports(whatsApp: Socket, sip: Socket)

  type Streams = map<string, Ports>

  predicate Uses(p: Ports, port: int) {
    p.whatsApp.port == port || p.sip.port == port
  }

  predicate InUse(m: Streams, port: int) {
    exists id :: id in m && Uses(m[id], port)
  }

  // ------------------------------------------------------------------ the search

  predicate Candidate(m: Streams, probe: int -> bool, exclude: Option<int>, port: int) {
    exclude != Some(port) && !InUse(m, port) && probe(port)
  }

  /** The first candidate at or behind a port, two ports a step. */
  function Search(m: Streams, probe: int -> bool, exclude: Option<int>, port: int): Option<int>
    decreases RTP_MEDIA_PORT_MAX + 2 - port
  {
    if port > RTP_MEDIA_PORT_MAX then None
    else if Candidate(m, probe, exclude, port) then Some(port)
    else Search(m, probe, exclude, port + 2)
  }

  function Least(m: Streams, probe: int -> bool, exclude: Option<int>): Option<int> {
    Search(m, probe, exclude, RTP_MEDIA_PORT_MIN)
  }

  predicate EvenInRange(port: int) {
    RTP_MEDIA_PORT_MIN <= port <= RTP_MEDIA_PORT_MAX && port % 2 == 0
  }

  lemma {:induction false} SearchFinds(m: Streams, probe: int -> bool, exclude: Option<int>, port: int)
    requires RTP_MEDIA_PORT_MIN <= port && port % 2 == 0
    ensures match Search(m, probe, exclude, port)
      case Some(p) => port <= p && EvenInRange(p) && Candidate(m, probe, exclude, p)
                      && forall q :: port <= q < p && EvenInRange(q) ==> !Candidate(m, probe, exclude, q)
      case None => forall q :: port <= q && EvenInRange(q) ==> !Candidate(m, probe, exclude, q)
    decreases RTP_MEDIA_PORT_MAX + 2 - port
  {
    if port <= RTP_MEDIA_PORT_MAX && !Candidate(m, probe, exclude, port) {
      SearchFinds(m, probe, exclude, port + 2);
    }
  }

  /** The least even candidate of the range; a failure means there is none. */
  lemma LeastIsLeast(m: Streams, probe: int -> bool, exclude: Option<int>)
    ensures match Least(m, probe, exclude)
      case Some(p) => EvenInRange(p) && Candidate(m, probe, exclude, p)
                      && forall q :: q < p && EvenInRange(q) ==> !Candidate(m, probe, exclude, q)
      case None => forall q :: EvenInRange(q) ==> !Candidate(m, probe, exclude, q)
  {
    SearchFinds(m, probe, exclude, RTP_MEDIA_PORT_MIN);
  }

  // ------------------------------------------------------------------ the operations

  /** open: the sockets open on behalf of the proxy; next: the next descriptor. */
  datatype Proxy = Proxy(streams: Streams, open: set<Socket>, next: nat)

  /** A socket of the proxy holds the port. */
  predicate Bound(open: set<Socket>, port: int) {
    exists k :: k in open && k.port == port
  }

  /** What the operating system answers: which ports a probe finds bindable during the first and
      the second search, and whether it lets the two listeners be opened afterwards. */
  datatype Env = Env(first: int -> bool, second: int -> bool, listensWhatsApp: bool, listensSip: bool)

  /** A port that one socket holds is refused to a second, whatever else the system would allow; port
      0 asks for any port and is never held. */
  predicate Listens(open: set<Socket>, port: int, granted: bool) {
    granted && (port == 0 || !Bound(open, port))
  }

  /** Opens both listeners; when the second fails the first is closed again. */
  function AfterListen(s: Proxy, id: string, whatsApp: int, sip: int, env: Env): (Proxy, Option<Ports>) {
    var p := Ports(Socket(s.next, whatsApp), Socket(s.next + 1, sip));
    if !Listens(s.open, whatsApp, env.listensWhatsApp) then (s, None)
    else if !Listens(s.open + {p.whatsApp}, sip, env.listensSip) then (s.(next := s.next + 1), None)
    else (Proxy(s.streams[id := p], s.open + {p.whatsApp, p.sip}, s.next + 2), Some(p))
  }

  function AfterCreate(s: Proxy, id: string, env: Env): (Proxy, Option<Ports>) {
    if id in s.streams then (s, Some(s.streams[id])) else
    var whatsApp := Least(s.streams, env.first, None);
    if whatsApp.None? then (s, None) else
    var sip := Least(s.streams, env.second, whatsApp);
    if sip.None? then (s, None) else AfterListen(s, id, whatsApp.value, sip.value, env)
  }

  /** The caller names the first port, which is not compared with the ports in use. */
  function AfterCreateLocal(s: Proxy, id: string, port: int, env: Env): (Proxy, Option<Ports>) {
    if id in s.streams then (s, Some(s.streams[id])) else
    var sip := Least(s.streams, env.second, Some(port));
    if sip.None? then (s, None) else AfterListen(s, id, port, sip.value, env)
  }

  function AfterStop(s: Proxy, id: string): Proxy {
    if id !in s.streams then s
    else s.(streams := s.streams - {id}, open := s.open - {s.streams[id].whatsApp, s.streams[id].sip})
  }

  /** The forwarding of a call ends by itself: its sockets are closed, its ports stay taken. */
  function AfterHangUp(s: Proxy, id: string): Proxy {
    if id !in s.streams then s else s.(open := s.open - {s.streams[id].whatsApp, s.streams[id].sip})
  }

  // ------------------------------------------------------------------ what every run keeps

  predicate Apart(p: Ports, q: Ports) {
    !Uses(p, q.whatsApp.port) && !Uses(p, q.sip.port)
  }

  /** No port is taken twice. */
  predicate Distinct(m: Streams) {
    && (forall i :: i in m ==> m[i].whatsApp.port != m[i].sip.port)
    && (forall i, j :: i in m && j in m && i != j ==> Apart(m[i], m[j]))
  }

  predicate AllEven(m: Streams) {
    forall i :: i in m ==> EvenInRange(m[i].whatsApp.port) && EvenInRange(m[i].sip.port)
  }

  predicate Owned(m: Streams, k: Socket) {
    exists i :: i in m && (k == m[i].whatsApp || k == m[i].sip)
  }

  /** Every open socket belongs to an active stream, and descriptors are never given out twice. */
  predicate NoLeak(s: Proxy) {
    && (forall k :: k in s.open ==> Owned(s.streams, k))
    && (forall i :: i in s.streams ==>
          s.streams[i].whatsApp.descriptor < s.next && s.streams[i].sip.descriptor < s.next)
  }

  predicate Inv(s: Proxy) {
    Distinct(s.streams) && AllEven(s.streams) && NoLeak(s)
  }

  datatype Op =
    | Create(id: string, env: Env)
    | CreateLocal(id: string, port: int, env: Env)
    | Stop(id: string)
    | HangUp(id: string)

  function Apply(s: Proxy, op: Op): Proxy {
    match op
    case Create(id, env) => AfterCreate(s, id, env).0
    case CreateLocal(id, port, env) => AfterCreateLocal(s, id, port, env).0
    case Stop(id) => AfterStop(s, id)
    case HangUp(id) => AfterHangUp(s, id)
  }

  function Run(s: Proxy, ops: seq<Op>): Proxy {
    if ops == [] then s else Apply(Run(s, ops[..|ops| - 1]), ops[|ops| - 1])
  }

  const IDLE := Proxy(map[], {}, 0)

  lemma ListenDistinct(s: Proxy, id: string, whatsApp: int, sip: int, env: Env)
    requires id !in s.streams && Distinct(s.streams) && whatsApp != sip && !InUse(s.streams, sip)
    ensures var (t, p) := AfterListen(s, id, whatsApp, sip, env);
      Distinct(t.streams) <==> (p.Some? ==> !InUse(s.streams, whatsApp))
  {
    var (t, p) := AfterListen(s, id, whatsApp, sip, env);
    if p.Some? {
      forall i | i in s.streams ensures !Uses(s.streams[i], sip) {
      }
      if InUse(s.streams, whatsApp) {
        var i :| i in s.streams && Uses(s.streams[i], whatsApp);
        assert !Apart(t.streams[i], t.streams[id]);
      } else {
        forall i, j | i in t.streams && j in t.streams && i != j ensures Apart(t.streams[i], t.streams[j]) {
          if i in s.streams && j in s.streams {
            assert Apart(s.streams[i], s.streams[j]);
          }
        }
      }
    }
  }

  /** Nothing is bound on a port that no active stream uses. */
  lemma UnusedIsUnbound(s: Proxy, port: int)
    requires NoLeak(s)
    ensures Bound(s.open, port) ==> InUse(s.streams, port)
  {
    if k :| k in s.open && k.port == port {
      var i :| i in s.streams && (k == s.streams[i].whatsApp || k == s.streams[i].sip);
      assert Uses(s.streams[i], port);
    }
  }

  lemma OtherSocket(open: set<Socket>, k: Socket, port: int)
    requires k.port != port
    ensures Bound(open + {k}, port) <==> Bound(open, port)
  {
  }

  lemma ListenNoLeak(s: Proxy, id: string, whatsApp: int, sip: int, env: Env)
    requires id !in s.streams && NoLeak(s)
    ensures NoLeak(AfterListen(s, id, whatsApp, sip, env).0)
  {
    var (t, p) := AfterListen(s, id, whatsApp, sip, env);
    if p.Some? {
      forall k | k in t.open ensures Owned(t.streams, k) {
        if k in s.open {
          var i :| i in s.streams && (k == s.streams[i].whatsApp || k == s.streams[i].sip);
          assert t.streams[i] == s.streams[i];
        } else {
          assert id in t.streams;
        }
      }
    }
  }

  lemma NewDescriptor(s: Proxy, socket: Socket)
    requires NoLeak(s) && socket.descriptor >= s.next
    ensures socket !in s.open
  {
    forall k | k in s.open ensures k.descriptor < s.next {
      assert Owned(s.streams, k);
    }
  }

  lemma CreateInv(s: Proxy, id: string, env: Env)
    requires Inv(s)
    ensures Inv(AfterCreate(s, id, env).0)
  {
    LeastIsLeast(s.streams, env.first, None);
    var whatsApp := Least(s.streams, env.first, None);
    LeastIsLeast(s.streams, env.second, whatsApp);
    var sip := Least(s.streams, env.second, whatsApp);
    if id !in s.streams && whatsApp.Some? && sip.Some? {
      ListenDistinct(s, id, whatsApp.value, sip.value, env);
      ListenNoLeak(s, id, whatsApp.value, sip.value, env);
    }
  }

  lemma StopInv(s: Proxy, id: string)
    requires NoLeak(s)
    ensures NoLeak(AfterStop(s, id)) && NoLeak(AfterHangUp(s, id))
    ensures Distinct(s.streams) ==> Distinct(AfterStop(s, id).streams)
  {
    forall k | k in AfterStop(s, id).open ensures Owned(AfterStop(s, id).streams, k) {
      var i :| i in s.streams && (k == s.streams[i].whatsApp || k == s.streams[i].sip);
      assert id in s.streams ==> i != id;
      assert i in AfterStop(s, id).streams && AfterStop(s, id).streams[i] == s.streams[i];
    }
  }

  /** All that stands before the two listeners of a stream with the caller's port: a new call, a
      second port found, both listeners allowed, and the caller's port 0 or not bound. */
  predicate LocalOpens(s: Proxy, id: string, port: int, env: Env) {
    && id !in s.streams && Least(s.streams, env.second, Some(port)).Some?
    && Listens(s.open, port, env.listensWhatsApp) && env.listensSip
  }

  lemma LocalOutcome(s: Proxy, id: string, port: int, env: Env)
    requires NoLeak(s) && id !in s.streams
    ensures AfterCreateLocal(s, id, port, env).1.Some? <==> LocalOpens(s, id, port, env)
  {
    LeastIsLeast(s.streams, env.second, Some(port));
    var sip := Least(s.streams, env.second, Some(port));
    if sip.Some? {
      UnusedIsUnbound(s, sip.value);
      OtherSocket(s.open, Socket(s.next, port), sip.value);
    }
  }

  /** With a port named by the caller, a port is taken twice exactly when the stream can be opened
      although an active stream uses that port: port 0, or one whose sockets are closed already. */
  lemma LocalDistinctExactly(s: Proxy, id: string, port: int, env: Env)
    requires Distinct(s.streams) && NoLeak(s)
    ensures Distinct(AfterCreateLocal(s, id, port, env).0.streams)
            <==> !(LocalOpens(s, id, port, env) && InUse(s.streams, port))
  {
    LeastIsLeast(s.streams, env.second, Some(port));
    var sip := Least(s.streams, env.second, Some(port));
    if id !in s.streams {
      LocalOutcome(s, id, port, env);
      if sip.Some? {
        ListenDistinct(s, id, port, sip.value, env);
      }
    }
  }

  /** A caller's port must be unused, even and in range. */
  predicate Admissible(s: Proxy, op: Op) {
    op.CreateLocal? ==> !InUse(s.streams, op.port) && EvenInRange(op.port)
  }

  lemma StepInv(s: Proxy, op: Op)
    requires Inv(s) && Admissible(s, op)
    ensures Inv(Apply(s, op))
  {
    match op
    case Create(id, env) => CreateInv(s, id, env);
    case CreateLocal(id, port, env) =>
      LeastIsLeast(s.streams, env.second, Some(port));
      LocalDistinctExactly(s, id, port, env);
      var sip := Least(s.streams, env.second, Some(port));
      if id !in s.streams && sip.Some? {
        ListenNoLeak(s, id, port, sip.value, env);
      }
    case Stop(id) => StopInv(s, id);
    case HangUp(id) => StopInv(s, id);
  }

  /** In every run: ports even, in range and pairwise distinct, and no socket leaked, error paths
      and streams that ended by themselves included. */
  lemma {:induction false} RunInv(ops: seq<Op>)
    requires forall i :: 0 <= i < |ops| ==> Admissible(Run(IDLE, ops[..i]), ops[i])
    ensures Inv(Run(IDLE, ops))
  {
    if ops != [] {
      var front := ops[..|ops| - 1];
      forall i | 0 <= i < |front| ensures Admissible(Run(IDLE, front[..i]), front[i]) {
        assert front[..i] == ops[..i] && front[i] == ops[i];
      }
      RunInv(front);
      StepInv(Run(IDLE, front), ops[|ops| - 1]);
    }
  }

  /** Every active stream holds its two sockets. */
  predicate AllOpen(s: Proxy) {
    forall i :: i in s.streams ==> s.streams[i].whatsApp in s.open && s.streams[i].sip in s.open
  }

  lemma UsedIsBound(s: Proxy, port: int)
    requires AllOpen(s) && InUse(s.streams, port)
    ensures Bound(s.open, port)
  {
    var i :| i in s.streams && Uses(s.streams[i], port);
    assert s.streams[i].whatsApp in s.open && s.streams[i].sip in s.open;
  }

  lemma ListenAllOpen(s: Proxy, id: string, whatsApp: int, sip: int, env: Env)
    requires AllOpen(s)
    ensures AllOpen(AfterListen(s, id, whatsApp, sip, env).0)
  {
  }

  lemma StopAllOpen(s: Proxy, id: string)
    requires AllOpen(s) && Distinct(s.streams)
    ensures AllOpen(AfterStop(s, id))
  {
    if id in s.streams {
      forall i | i in s.streams && i != id
        ensures s.streams[i].whatsApp in AfterStop(s, id).open && s.streams[i].sip in AfterStop(s, id).open
      {
        assert Apart(s.streams[id], s.streams[i]);
      }
    }
  }

  lemma CreateAllOpen(s: Proxy, id: string, env: Env)
    requires AllOpen(s) && Distinct(s.streams) && NoLeak(s)
    ensures var t := AfterCreate(s, id, env).0; AllOpen(t) && Distinct(t.streams) && NoLeak(t)
  {
    LeastIsLeast(s.streams, env.first, None);
    var whatsApp := Least(s.streams, env.first, None);
    LeastIsLeast(s.streams, env.second, whatsApp);
    var sip := Least(s.streams, env.second, whatsApp);
    if id !in s.streams && whatsApp.Some? && sip.Some? {
      ListenDistinct(s, id, whatsApp.value, sip.value, env);
      ListenNoLeak(s, id, whatsApp.value, sip.value, env);
      ListenAllOpen(s, id, whatsApp.value, sip.value, env);
    }
  }

  lemma LocalAllOpen(s: Proxy, id: string, port: int, env: Env)
    requires AllOpen(s) && Distinct(s.streams) && NoLeak(s) && port != 0
    ensures var t := AfterCreateLocal(s, id, port, env).0; AllOpen(t) && Distinct(t.streams) && NoLeak(t)
  {
    LocalDistinctExactly(s, id, port, env);
    if InUse(s.streams, port) {
      UsedIsBound(s, port);
    }
    var sip := Least(s.streams, env.second, Some(port));
    if id !in s.streams && sip.Some? {
      ListenNoLeak(s, id, port, sip.value, env);
      ListenAllOpen(s, id, port, sip.value, env);
    }
  }

  /** While no stream ends by itself and no caller names port 0, no port is ever taken twice, whatever
      other ports callers name: the one guard is the system's refusal of a bound port. */
  lemma {:induction false} DistinctWithoutHangUps(ops: seq<Op>)
    requires forall i :: 0 <= i < |ops| ==> !ops[i].HangUp? && (ops[i].CreateLocal? ==> ops[i].port != 0)
    ensures var s := Run(IDLE, ops); AllOpen(s) && Distinct(s.streams) && NoLeak(s)
  {
    if ops != [] {
      DistinctWithoutHangUps(ops[..|ops| - 1]);
      var s := Run(IDLE, ops[..|ops| - 1]);
      match ops[|ops| - 1]
      case Create(id, env) => CreateAllOpen(s, id, env);
      case CreateLocal(id, port, env) => LocalAllOpen(s, id, port, env);
      case Stop(id) =>
        StopAllOpen(s, id);
        StopInv(s, id);
    }
  }

  lemma RunOfThree(a: Op, b: Op, c: Op)
    ensures Run(IDLE, [a, b]) == Apply(Apply(IDLE, a), b)
    ensures Run(IDLE, [a, b, c]) == Apply(Run(IDLE, [a, b]), c)
  {
    assert [a, b, c][..2] == [a, b] && [a, b][..1] == [a] && [a][..0] == [];
    assert Run(IDLE, [a]) == Apply(IDLE, a);
  }

  lemma LocalShape(s: Proxy, id: string, port: int, env: Env)
    requires NoLeak(s) && LocalOpens(s, id, port, env)
    ensures var t := AfterCreateLocal(s, id, port, env).0;
      id in t.streams && t.streams[id].whatsApp.port == port && t.streams == s.streams[id := t.streams[id]]
  {
    LocalOutcome(s, id, port, env);
  }

  lemma LocalKeeps(s: Proxy, id: string, port: int, env: Env)
    requires NoLeak(s) && AllOpen(s) && LocalOpens(s, id, port, env)
    ensures var t := AfterCreateLocal(s, id, port, env).0; NoLeak(t) && AllOpen(t)
  {
    var sip := Least(s.streams, env.second, Some(port));
    ListenNoLeak(s, id, port, sip.value, env);
    ListenAllOpen(s, id, port, sip.value, env);
  }

  lemma ZeroOpens(s: Proxy, id: string, env: Env)
    requires Grants(env) && id !in s.streams && |s.streams| <= 1
    ensures LocalOpens(s, id, 0, env)
  {
    FewTaken(s.streams);
    LeastGranted(s.streams, env.second, Some(0));
  }

  /** Port 0 can be named again and again: both streams are opened, and both go by port 0. */
  lemma PortZeroTakenTwice(env: Env)
    requires Grants(env)
    ensures var s := Run(IDLE, [CreateLocal("a", 0, env), CreateLocal("b", 0, env)]);
      "a" in s.streams && "b" in s.streams && AllOpen(s)
      && s.streams["a"].whatsApp.port == s.streams["b"].whatsApp.port == 0 && !Distinct(s.streams)
  {
    RunOfThree(CreateLocal("a", 0, env), CreateLocal("b", 0, env), Stop("a"));
    ZeroOpens(IDLE, "a", env);
    LocalShape(IDLE, "a", 0, env);
    LocalKeeps(IDLE, "a", 0, env);
    var s := AfterCreateLocal(IDLE, "a", 0, env).0;
    assert s.streams.Keys == {"a"} && |s.streams| == |s.streams.Keys|;
    ZeroOpens(s, "b", env);
    LocalShape(s, "b", 0, env);
    LocalKeeps(s, "b", 0, env);
    var t := AfterCreateLocal(s, "b", 0, env).0;
    assert t.streams["a"] == s.streams["a"] && !Apart(t.streams["a"], t.streams["b"]);
  }

  /** With one stream at most, one of the first three even ports is free. */
  lemma FewTaken(m: Streams)
    requires |m| <= 1
    ensures HasOther(m, Some(0))
  {
    var a, b, c := RTP_MEDIA_PORT_MIN, RTP_MEDIA_PORT_MIN + 2, RTP_MEDIA_PORT_MIN + 4;
    if InUse(m, a) && InUse(m, b) {
      var i :| i in m && Uses(m[i], a);
      var j :| j in m && Uses(m[j], b);
      OnlyKey(m, i);
      assert !InUse(m, c) && EvenInRange(c);
    } else {
      assert EvenInRange(a) && EvenInRange(b);
    }
  }

  lemma OnlyKey(m: Streams, i: string)
    requires i in m && |m| <= 1
    ensures m.Keys == {i}
  {
    var rest := m.Keys - {i};
    assert m.Keys == rest + {i} && |m| == |m.Keys|;
  }

  lemma FirstCall(env: Env)
    requires Grants(env)
    ensures var (s, p) := AfterCreate(IDLE, "a", env);
      p.Some? && p.value.whatsApp.port == RTP_MEDIA_PORT_MIN && s.streams == map["a" := p.value]
      && s.open == {p.value.whatsApp, p.value.sip} && Inv(s)
  {
    CapacityExact(IDLE, "a", env);
    CreateInv(IDLE, "a", env);
    LeastIsLeast(IDLE.streams, env.first, None);
    assert Candidate(IDLE.streams, env.first, None, RTP_MEDIA_PORT_MIN) && EvenInRange(RTP_MEDIA_PORT_MIN);
  }

  lemma FirstHangUp(env: Env)
    requires Grants(env)
    ensures var s := AfterHangUp(AfterCreate(IDLE, "a", env).0, "a");
      Inv(s) && s.open == {} && s.streams.Keys == {"a"} && InUse(s.streams, RTP_MEDIA_PORT_MIN)
  {
    FirstCall(env);
    var s := AfterCreate(IDLE, "a", env).0;
    StopInv(s, "a");
    assert Uses(s.streams["a"], RTP_MEDIA_PORT_MIN);
  }

  /** With one it fails: a stream ends by itself, and its first port is handed to the next call. */
  lemma HungUpPortTakenTwice(env: Env)
    requires Grants(env)
    ensures var a, b, c := Create("a", env), HangUp("a"), CreateLocal("b", RTP_MEDIA_PORT_MIN, env);
      Run(IDLE, [a, b]).open == {} && !Distinct(Run(IDLE, [a, b, c]).streams)
  {
    RunOfThree(Create("a", env), HangUp("a"), CreateLocal("b", RTP_MEDIA_PORT_MIN, env));
    FirstHangUp(env);
    var s := AfterHangUp(AfterCreate(IDLE, "a", env).0, "a");
    assert |s.streams| == |s.streams.Keys|;
    LocalReuses(s, "b", RTP_MEDIA_PORT_MIN, env);
  }

  lemma OtherThanUsed(m: Streams, port: int)
    requires InUse(m, port) && |Free(m)| > 0
    ensures HasOther(m, Some(port))
  {
    var q :| q in Free(m);
    FreeAre(m, q);
  }

  lemma LocalReuses(s: Proxy, id: string, port: int, env: Env)
    requires Inv(s) && |s.streams| == 1 && s.open == {} && Grants(env) && id !in s.streams && InUse(s.streams, port)
    ensures !Distinct(AfterCreateLocal(s, id, port, env).0.streams)
  {
    FreeSize(s.streams);
    OtherThanUsed(s.streams, port);
    LeastGranted(s.streams, env.second, Some(port));
    LocalDistinctExactly(s, id, port, env);
  }

  /** A call that has its stream gets that one back, whatever the system would grant; a failed
      creation leaves streams and open sockets as they were. */
  lemma CreateOutcome(s: Proxy, id: string, env: Env)
    ensures var (t, p) := AfterCreate(s, id, env);
      && (id in s.streams ==> t == s && p == Some(s.streams[id]))
      && (p.None? ==> t.streams == s.streams && t.open == s.open)
      && (p.Some? ==> id in t.streams && t.streams[id] == p.value && t.streams - {id} == s.streams - {id})
  {
  }

  /** The ports of a new call: the least even port of the range that no stream uses and the first probe
      finds bindable, and the least other one that the second does; sockets are open on both. */
  lemma CreatedPorts(s: Proxy, id: string, env: Env)
    requires id !in s.streams && AfterCreate(s, id, env).1.Some?
    ensures var (t, p) := AfterCreate(s, id, env);
      var a, b := p.value.whatsApp.port, p.value.sip.port;
      && EvenInRange(a) && !InUse(s.streams, a) && env.first(a)
      && EvenInRange(b) && !InUse(s.streams, b) && env.second(b) && a != b
      && (forall q :: EvenInRange(q) && q < a ==> InUse(s.streams, q) || !env.first(q))
      && (forall q :: EvenInRange(q) && q < b && q != a ==> InUse(s.streams, q) || !env.second(q))
      && t.open == s.open + {p.value.whatsApp, p.value.sip}
  {
    LeastIsLeast(s.streams, env.first, None);
    var a := Least(s.streams, env.first, None);
    LeastIsLeast(s.streams, env.second, a);
  }

  /** With a port of the caller's: that port, and the least even one beside it. */
  lemma LocalPorts(s: Proxy, id: string, port: int, env: Env)
    requires id !in s.streams && AfterCreateLocal(s, id, port, env).1.Some?
    ensures var (t, p) := AfterCreateLocal(s, id, port, env);
      var b := p.value.sip.port;
      && p.value.whatsApp.port == port
      && EvenInRange(b) && !InUse(s.streams, b) && env.second(b) && b != port
      && (forall q :: EvenInRange(q) && q < b && q != port ==> InUse(s.streams, q) || !env.second(q))
      && t.streams == s.streams[id := p.value] && t.open == s.open + {p.value.whatsApp, p.value.sip}
  {
    LeastIsLeast(s.streams, env.second, Some(port));
  }

  /** Where the system grants every port, the first call gets 10000 and 10002. */
  lemma FirstPorts(id: string, env: Env)
    requires Grants(env)
    ensures AfterCreate(IDLE, id, env).1 == Some(Ports(Socket(0, 10000), Socket(1, 10002)))
  {
  }

  /** Creating and stopping a call is undone completely. */
  lemma StopUndoesCreate(s: Proxy, id: string, env: Env)
    requires NoLeak(s) && id !in s.streams
    ensures var t := AfterStop(AfterCreate(s, id, env).0, id);
      t.streams == s.streams && t.open == s.open
  {
    var t := AfterCreate(s, id, env).0;
    if id in t.streams {
      var p := t.streams[id];
      NewDescriptor(s, p.whatsApp);
      NewDescriptor(s, p.sip);
      assert t.open - {p.whatsApp, p.sip} == s.open;
      assert t.streams - {id} == s.streams;
    }
  }

  // ------------------------------------------------------------------ capacity

  function Evens(hi: int): set<int> {
    set p | RTP_MEDIA_PORT_MIN <= p <= hi && p % 2 == 0
  }

  lemma {:induction false} EvensSize(hi: int)
    requires RTP_MEDIA_PORT_MIN <= hi && hi % 2 == 0
    ensures |Evens(hi)| == (hi - RTP_MEDIA_PORT_MIN) / 2 + 1
    decreases hi
  {
    if hi == RTP_MEDIA_PORT_MIN {
      assert Evens(hi) == {hi};
    } else {
      EvensSize(hi - 2);
      assert Evens(hi) == Evens(hi - 2) + {hi};
    }
  }

  function Taken(m: Streams): set<int> {
    set id | id in m :: m[id].whatsApp.port
  }

  function TakenSip(m: Streams): set<int> {
    set id | id in m :: m[id].sip.port
  }

  function Used(m: Streams): set<int> {
    Taken(m) + TakenSip(m)
  }

  lemma UsedAre(m: Streams, port: int)
    ensures port in Used(m) <==> InUse(m, port)
  {
  }

  lemma UsedWithout(m: Streams, id: string)
    requires Distinct(m) && id in m
    ensures Distinct(m - {id})
    ensures Used(m) == Used(m - {id}) + {m[id].whatsApp.port} + {m[id].sip.port}
    ensures m[id].whatsApp.port !in Used(m - {id}) && m[id].sip.port !in Used(m - {id})
  {
    var rest := m - {id};
    forall p | InUse(rest, p) ensures !Uses(m[id], p) {
      var i :| i in rest && Uses(rest[i], p);
      assert Apart(m[id], m[i]);
    }
    UsedAre(rest, m[id].whatsApp.port);
    UsedAre(rest, m[id].sip.port);
    forall p ensures p in Used(m) <==> p in Used(rest) + {m[id].whatsApp.port} + {m[id].sip.port} {
      UsedAre(m, p);
      UsedAre(rest, p);
      assert InUse(m, p) <==> InUse(rest, p) || Uses(m[id], p) by {
        if InUse(m, p) {
          var i :| i in m && Uses(m[i], p);
          assert i != id ==> i in rest && Uses(rest[i], p);
        }
      }
    }
  }

  lemma {:induction false} UsedSize(m: Streams)
    requires Distinct(m)
    ensures |Used(m)| == 2 * |m|
    decreases |m|
  {
    if m == map[] {
      assert Used(m) == {};
    } else {
      var id :| id in m;
      UsedWithout(m, id);
      assert m.Keys == (m - {id}).Keys + {id};
      UsedSize(m - {id});
    }
  }

  lemma SubsetSize(a: set<int>, b: set<int>)
    requires a <= b
    ensures |b - a| == |b| - |a|
  {
    assert b == a + (b - a);
  }

  lemma UsedWithin(m: Streams)
    requires AllEven(m)
    ensures Used(m) <= Evens(RTP_MEDIA_PORT_MAX)
  {
  }

  function Free(m: Streams): set<int> {
    Evens(RTP_MEDIA_PORT_MAX) - Used(m)
  }

  lemma FreeAre(m: Streams, port: int)
    ensures port in Free(m) <==> EvenInRange(port) && !InUse(m, port)
  {
    UsedAre(m, port);
  }

  lemma FreeSize(m: Streams)
    requires Distinct(m) && AllEven(m)
    ensures |Free(m)| == 5001 - 2 * |m|
  {
    UsedSize(m);
    EvensSize(RTP_MEDIA_PORT_MAX);
    UsedWithin(m);
    SubsetSize(Used(m), Evens(RTP_MEDIA_PORT_MAX));
  }

  /** At most 2500 streams: 5001 even ports, two a stream. */
  lemma AtMost2500(s: Proxy)
    requires Inv(s)
    ensures |s.streams| <= 2500
  {
    FreeSize(s.streams);
  }

  ghost predicate Grants(env: Env) {
    (forall p: int :: env.first(p) && env.second(p)) && env.listensWhatsApp && env.listensSip
  }

  predicate HasOther(m: Streams, exclude: Option<int>) {
    exists q :: RTP_MEDIA_PORT_MIN <= q <= RTP_MEDIA_PORT_MAX && EvenInRange(q) && exclude != Some(q) && !InUse(m, q)
  }

  lemma LeastGranted(m: Streams, probe: int -> bool, exclude: Option<int>)
    requires forall p :: probe(p)
    ensures Least(m, probe, exclude).Some? <==> HasOther(m, exclude)
    ensures Least(m, probe, exclude).Some? ==>
      EvenInRange(Least(m, probe, exclude).value) && !InUse(m, Least(m, probe, exclude).value)
  {
    LeastIsLeast(m, probe, exclude);
    if HasOther(m, exclude) {
      var q :| RTP_MEDIA_PORT_MIN <= q <= RTP_MEDIA_PORT_MAX && EvenInRange(q) && exclude != Some(q) && !InUse(m, q);
      assert Candidate(m, probe, exclude, q);
    }
  }

  lemma TwoFree(m: Streams, port: int, other: int)
    requires port in Free(m) && other in Free(m) && port != other
    ensures |Free(m)| >= 2
  {
    SubsetSize({port, other}, Free(m));
  }

  lemma OneFree(m: Streams, port: int)
    requires port in Free(m) && !HasOther(m, Some(port))
    ensures |Free(m)| == 1
  {
    forall p | p in Free(m) ensures p == port {
      FreeAre(m, p);
    }
    assert Free(m) == {port};
  }

  /** Besides a free port there is another one exactly when two are free. */
  lemma FreeBut(m: Streams, port: int)
    requires EvenInRange(port) && !InUse(m, port)
    ensures |Free(m)| >= 2 <==> HasOther(m, Some(port))
  {
    FreeAre(m, port);
    if HasOther(m, Some(port)) {
      var q :| RTP_MEDIA_PORT_MIN <= q <= RTP_MEDIA_PORT_MAX && EvenInRange(q) && Some(port) != Some(q) && !InUse(m, q);
      FreeAre(m, q);
      TwoFree(m, port, q);
    } else {
      OneFree(m, port);
    }
  }

  lemma NoneFree(m: Streams)
    requires !HasOther(m, None)
    ensures |Free(m)| == 0
  {
    forall p ensures p !in Free(m) {
      FreeAre(m, p);
    }
    assert Free(m) == {};
  }

  lemma SearchesSucceed(m: Streams, first: int -> bool, second: int -> bool)
    requires forall p :: first(p)
    requires forall p :: second(p)
    ensures var whatsApp := Least(m, first, None);
      whatsApp.Some? && Least(m, second, whatsApp).Some? <==> |Free(m)| >= 2
  {
    LeastGranted(m, first, None);
    var whatsApp := Least(m, first, None);
    if whatsApp.None? {
      NoneFree(m);
    } else {
      FreeBut(m, whatsApp.value);
      LeastGranted(m, second, whatsApp);
    }
  }

  /** The ports found are never bound, so only the system's own refusal makes listening fail. */
  lemma CreateOpens(s: Proxy, id: string, env: Env)
    requires NoLeak(s) && id !in s.streams
    ensures AfterCreate(s, id, env).1.Some? <==>
      var whatsApp := Least(s.streams, env.first, None);
      whatsApp.Some? && Least(s.streams, env.second, whatsApp).Some? && env.listensWhatsApp && env.listensSip
  {
    LeastIsLeast(s.streams, env.first, None);
    var whatsApp := Least(s.streams, env.first, None);
    LeastIsLeast(s.streams, env.second, whatsApp);
    if whatsApp.Some? {
      UnusedIsUnbound(s, whatsApp.value);
      LocalOutcome(s, id, whatsApp.value, env);
    }
  }

  /** When the system grants every port, a new call gets its stream exactly while fewer than 2500
      are active: the range is used up but for the one port left over. */
  lemma CapacityExact(s: Proxy, id: string, env: Env)
    requires Inv(s) && id !in s.streams && Grants(env)
    ensures AfterCreate(s, id, env).1.Some? <==> |s.streams| < 2500
  {
    CreateOpens(s, id, env);
    FreeSize(s.streams);
    SearchesSucceed(s.streams, env.first, env.second);
  }

  // ------------------------------------------------------------------ the objects

  class RTPStream {
    const callId: string
    const ports: Ports
    var isActive: bool

    constructor (callId: string, ports: Ports)
      ensures this.callId == callId && this.ports == ports && isActive
    {
      this.callId, this.ports, isActive := callId, ports, true;
    }
  }

  class RTPProxy {
    var activeStreams: map<string, RTPStream>
    var open: set<Socket>
    var next: nat

    constructor ()
      ensures Valid() && Snapshot() == IDLE && activeStreams == map[]
    {
      activeStreams, open, next := map[], {}, 0;
    }

    function Snapshot(): Proxy
      reads this
    {
      Proxy(PortsOf(activeStreams), open, next)
    }

    predicate Valid()
      reads this
    {
      NoLeak(Snapshot())
    }

    /** Whether a stream holds the port. */
    method Holds(port: int) returns (inUse: bool)
      ensures inUse == InUse(PortsOf(activeStreams), port)
    {
      var rest := activeStreams.Keys;
      while rest != {}
        invariant rest <= activeStreams.Keys
        invariant forall id :: id in activeStreams && id !in rest ==> !Uses(activeStreams[id].ports, port)
        decreases |rest|
      {
        var id :| id in rest;
        if Uses(activeStreams[id].ports, port) {
          assert Uses(PortsOf(activeStreams)[id], port);
          return true;
        }
        rest := rest - {id};
      }
      inUse := false;
    }

    /** Both searches; the plain one excludes nothing. */
    method FindAvailablePort(exclude: Option<int>, probe: int -> bool) returns (found: Option<int>)
      ensures found == Least(PortsOf(activeStreams), probe, exclude)
    {
      var port := RTP_MEDIA_PORT_MIN;
      while port <= RTP_MEDIA_PORT_MAX
        invariant Search(PortsOf(activeStreams), probe, exclude, port) == Least(PortsOf(activeStreams), probe, exclude)
      {
        if exclude != Some(port) {
          var inUse := Holds(port);
          if !inUse && probe(port) {
            return Some(port);
          }
        }
        port := port + 2;
      }
      found := None;
    }

    method ListenUDP(port: int, granted: bool) returns (socket: Option<Socket>)
      modifies this`open, this`next
      ensures socket == if Listens(old(open), port, granted) then Some(Socket(old(next), port)) else None
      ensures open == old(open) + (if socket.Some? then {socket.value} else {})
      ensures next == old(next) + if socket.Some? then 1 else 0
    {
      if !Listens(open, port, granted) {
        return None;
      }
      socket := Some(Socket(next, port));
      open, next := open + {socket.value}, next + 1;
    }

    method Store(callId: string, ports: Ports) returns (stream: RTPStream)
      modifies this`activeStreams
      ensures fresh(stream) && stream.ports == ports && stream.isActive
      ensures activeStreams == old(activeStreams)[callId := stream]
      ensures PortsOf(activeStreams) == PortsOf(old(activeStreams))[callId := ports]
    {
      stream := new RTPStream(callId, ports);
      activeStreams := activeStreams[callId := stream];
      assert PortsOf(activeStreams) == PortsOf(old(activeStreams))[callId := ports];
    }

    /** The common end of both creations. */
    method Listen(callId: string, whatsApp: int, sip: int, env: Env) returns (stream: RTPStream?)
      requires Valid() && callId !in activeStreams
      modifies this
      ensures Valid()
      ensures var (t, p) := AfterListen(old(Snapshot()), callId, whatsApp, sip, env);
        && Snapshot() == t
        && (stream == null <==> p.None?)
        && (stream != null ==> fresh(stream) && stream.ports == p.value && stream.isActive
                               && activeStreams == old(activeStreams)[callId := stream])
        && (stream == null ==> activeStreams == old(activeStreams))
    {
      ghost var before, after := Snapshot(), AfterListen(Snapshot(), callId, whatsApp, sip, env).0;
      ListenNoLeak(before, callId, whatsApp, sip, env);
      NewDescriptor(before, Socket(next, whatsApp));
      var first := ListenUDP(whatsApp, env.listensWhatsApp);
      if first.None? {
        return null;
      }
      var second := ListenUDP(sip, env.listensSip);
      if second.None? {
        open := open - {first.value};
        assert Snapshot() == after by {
          assert open == before.open;
        }
        return null;
      }
      stream := Store(callId, Ports(first.value, second.value));
      assert Snapshot() == after by {
        assert open == before.open + {first.value, second.value};
      }
    }

    method CreateRTPStream(callId: string, env: Env) returns (stream: RTPStream?)
      requires Valid()
      modifies this
      ensures Valid()
      ensures var (t, p) := AfterCreate(old(Snapshot()), callId, env);
        && Snapshot() == t
        && (stream == null <==> p.None?)
        && (stream != null ==> stream.ports == p.value && activeStreams == old(activeStreams)[callId := stream])
        && (stream == null ==> activeStreams == old(activeStreams))
      ensures callId in old(activeStreams) ==> stream == old(activeStreams)[callId]
    {
      if callId in activeStreams {
        assert activeStreams == activeStreams[callId := activeStreams[callId]];
        return activeStreams[callId];
      }
      var whatsApp := FindAvailablePort(None, env.first);
      if whatsApp.None? {
        return null;
      }
      var sip := FindAvailablePort(whatsApp, env.second);
      if sip.None? {
        return null;
      }
      stream := Listen(callId, whatsApp.value, sip.value, env);
    }

    method CreateRTPStreamWithLocalPort(callId: string, port: int, env: Env) returns (stream: RTPStream?)
      requires Valid()
      modifies this
      ensures Valid()
      ensures var (t, p) := AfterCreateLocal(old(Snapshot()), callId, port, env);
        && Snapshot() == t
        && (stream == null <==> p.None?)
        && (stream != null ==> stream.ports == p.value && activeStreams == old(activeStreams)[callId := stream])
        && (stream == null ==> activeStreams == old(activeStreams))
      ensures callId in old(activeStreams) ==> stream == old(activeStreams)[callId]
    {
      if callId in activeStreams {
        assert activeStreams == activeStreams[callId := activeStreams[callId]];
        return activeStreams[callId];
      }
      var sip := FindAvailablePort(Some(port), env.second);
      if sip.None? {
        return null;
      }
      stream := Listen(callId, port, sip.value, env);
    }

    method StopRTPStream(callId: string)
      requires Valid()
      modifies this, activeStreams.Values
      ensures Valid()
      ensures Snapshot() == AfterStop(old(Snapshot()), callId)
      ensures activeStreams == old(activeStreams) - {callId}
      ensures callId in old(activeStreams) ==> !old(activeStreams)[callId].isActive
      ensures forall stream :: stream in old(activeStreams.Values)
                && (callId in old(activeStreams) ==> stream != old(activeStreams)[callId])
                ==> stream.isActive == old(stream.isActive)
    {
      if callId !in activeStreams {
        assert activeStreams == activeStreams - {callId};
        return;
      }
      StopInv(Snapshot(), callId);
      var stream := activeStreams[callId];
      stream.isActive := false;
      open := open - {stream.ports.whatsApp, stream.ports.sip};
      activeStreams := activeStreams - {callId};
      assert PortsOf(activeStreams) == PortsOf(old(activeStreams)) - {callId};
    }
  }

  function PortsOf(streams: map<string, RTPStream>): Streams {
    map id | id in streams :: streams[id].ports
  }
}
