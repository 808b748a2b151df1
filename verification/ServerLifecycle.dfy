/**
 The lifecycle of one server: its connection, whether it is verified, whether it was asked to
 stop, and the dispatching handlers attached to it. The state shown is computed from these.
 What the outside decides (opening a connection, dialling, saving) comes in as parameters.
 */
module ServerLifecycle {
  import opened Wrappers
  import Handler
  import Messages

  type Registered = Handler.Registered

  datatype State = Unknown | UnPrepared | UnVerified | Starting | Connecting | Stopping | Stopped | Restarting
                 | Reconnecting | Connected | Fetching | Ready | Halting | Disconnected | Failed

  // ------------------------------------------------------------------ the connection

  datatype Link = Link(connected: bool, loggedIn: bool)

  /** A disposed connection has no client. */
  datatype Connection = Connection(client: Option<Link>, connecting: bool, failedToken: bool)

  /** A connection as it comes from opening a stored device. */
  const FRESH := Connection(Some(Link(false, false)), false, false)

  predicate Linked(c: Connection) {
    c.client.Some? && c.client.value.connected
  }

  predicate IsConnected(c: Connection) {
    !c.connecting && Linked(c)
  }

  predicate IsValid(c: Connection) {
    Linked(c) && c.client.value.loggedIn
  }

  function GetStatus(c: Connection): State {
    if c.client.None? then UnVerified
    else if c.connecting then Connecting
    else if c.client.value.connected then (if c.client.value.loggedIn then Ready else Connected)
    else if c.failedToken then Failed
    else Disconnected
  }

  /** What the outside may report. UnAuthorized is the error type a failed start looks for;
      StoreNotFound is the one that counts as unauthorized when a connection is opened. */
  datatype Fault = StoreNotFound | UnAuthorized | Other

  /** How dialling ends: the link afterwards, and the fault if there is one. */
  datatype Dial = Dial(link: Link, fault: Option<Fault>)

  /** A connection that is already connecting is left alone. */
  function Connect(c: Connection, d: Dial): (Connection, Option<Fault>) {
    if c.connecting then (c, None)
    else (c.(client := if c.client.None? then None else Some(d.link), failedToken := d.fault.Some?), d.fault)
  }

  // ------------------------------------------------------------------ the server

  datatype Server = Server(connection: Option<Connection>, verified: bool, stopRequested: bool,
                           handlers: seq<Registered>, hasWid: bool)

  datatype Opening = Opened(connection: Connection) | Refused(fault: Fault)

  datatype Error = NotVerified | InvalidState(state: State) | NotSaved | Reported(fault: Fault)

  /** What the outside answers during one operation. */
  datatype Env = Env(opening: Opening, first: Dial, second: Dial, saved: bool)

  /** The answers of the status manager; without a connection it falls back to defaults. */
  function ManagerState(connection: Option<Connection>): State {
    if connection.None? then Unknown else GetStatus(connection.value)
  }

  predicate ManagerConnected(connection: Option<Connection>) {
    connection.Some? && IsConnected(connection.value)
  }

  predicate ManagerValid(connection: Option<Connection>) {
    connection.Some? && IsValid(connection.value)
  }

  function GetState(s: Server): State {
    if s.connection.None? then
      if !s.verified then UnVerified else if s.stopRequested then Stopped else UnPrepared
    else if s.stopRequested then
      if ManagerConnected(s.connection) then Stopping else Stopped
    else if ManagerState(s.connection) == Disconnected && !s.verified then UnVerified
    else ManagerState(s.connection)
  }

  predicate IsValidToStart(state: State) {
    state == Stopped || state == Stopping || state == Disconnected || state == Failed
  }

  function AfterUnderlying(s: Server, opening: Opening): (r: (Server, Option<Error>))
    ensures r.1.None? ==> r.0.connection.Some?
  {
    if s.hasWid && !s.verified then (s, Some(NotVerified))
    else if s.connection.Some? then (s, None)
    else
      match opening
      case Opened(c) => (s.(connection := Some(c)), None)
      case Refused(f) => (if f.StoreNotFound? then s.(verified := false) else s, Some(Reported(f)))
  }

  /** A handler is registered only where none is attached. */
  function Attach(s: Server, own: Registered): Server {
    if s.handlers == [] then s.(handlers := [own]) else s
  }

  function AfterDisconnect(s: Server): Server {
    if ManagerConnected(s.connection) then s.(connection := None) else s
  }

  function AfterConnectionError(s: Server, f: Fault, saved: bool): (Server, Option<Error>) {
    var t := AfterDisconnect(s).(handlers := []);
    if !f.UnAuthorized? then (t, Some(Reported(f)))
    else (t.(verified := false), if t.verified && !saved then Some(NotSaved) else None)
  }

  /** A start dials a second time when the first time left it unconnected. */
  function Dials(c: Connection, env: Env): (Connection, Option<Fault>) {
    var one := Connect(c, env.first);
    if one.1.Some? || IsConnected(one.0) then one else Connect(one.0, env.second)
  }

  /** The end of a start, once it has dialled. */
  function Settle(s: Server, dialled: (Connection, Option<Fault>), saved: bool): (Server, Option<Error>) {
    var t := s.(connection := Some(dialled.0));
    if dialled.1.Some? then AfterConnectionError(t, dialled.1.value, saved)
    else (if ManagerValid(t.connection) then t.(verified := true) else t, None)
  }

  function AfterStart(s: Server, env: Env, own: Registered): (Server, Option<Error>) {
    var (t, e) := AfterUnderlying(s, env.opening);
    if e.Some? then (t, e)
    else if !IsValidToStart(GetState(t)) then (t, Some(InvalidState(GetState(t))))
    else Settle(Attach(t.(stopRequested := false), own), Dials(t.connection.value, env), env.saved)
  }

  /** Has no gate, and takes the server to be verified once connecting raised no error. */
  function AfterReady(s: Server, env: Env, own: Registered): (Server, Option<Error>) {
    var (t, e) := AfterUnderlying(s, env.opening);
    if e.Some? then (t, e)
    else
      var u := Attach(t.(stopRequested := false), own);
      var c := t.connection.value;
      var one := if IsConnected(c) then (c, None) else Connect(c, env.first);
      if one.1.Some? then AfterConnectionError(u.(connection := Some(one.0)), one.1.value, env.saved)
      else (u.(connection := Some(one.0), verified := true), None)
  }

  function AfterStop(s: Server): Server {
    if s.stopRequested then s else AfterDisconnect(s.(stopRequested := true)).(handlers := [])
  }

  /** What the outside does by itself: the library reports a login or a logout, or the link drifts.
      It reconnects on its own, and asking for a pairing code dials without the server. */
  datatype Move = OnConnected | LoggedOut | Drift(link: Link, connecting: bool)

  function Moved(s: Server, move: Move): Server {
    match move
    case OnConnected => s.(verified := true)
    case LoggedOut => s.(verified := false)
    case Drift(link, connecting) =>
      if s.connection.None? || s.connection.value.client.None? then s
      else s.(connection := Some(s.connection.value.(client := Some(link), connecting := connecting)))
  }

  function AfterMoves(s: Server, moves: seq<Move>): Server {
    if moves == [] then s else Moved(AfterMoves(s, moves[..|moves| - 1]), moves[|moves| - 1])
  }

  /** Between the stop and the start of a restart there is a second in which the outside moves. */
  function AfterRestart(s: Server, moves: seq<Move>, env: Env, own: Registered): (Server, Option<Error>) {
    AfterStart(AfterMoves(AfterStop(s), moves), env, own)
  }

  function AfterToggle(s: Server, env: Env, own: Registered): (Server, Option<Error>) {
    if IsValidToStart(GetState(s)) then AfterStart(s, env, own) else (AfterStop(s), None)
  }

  /** same: the connection handed in is the one held already, which has just been disposed. */
  function AfterUpdate(s: Server, c: Connection, same: bool, newcomer: Registered): Server {
    Attach(s.(connection := Some(if same then c.(client := None) else c)), newcomer)
  }

  /** The states of a server with a connection that nobody has asked to stop. */
  lemma StateExactly(s: Server)
    requires s.connection.Some? && !s.stopRequested
    ensures var c, state := s.connection.value, GetState(s);
      && (state == Ready <==> c.client.Some? && !c.connecting && c.client.value.connected && c.client.value.loggedIn)
      && (state == Connected <==>
            c.client.Some? && !c.connecting && c.client.value.connected && !c.client.value.loggedIn)
      && (state == Connecting <==> c.client.Some? && c.connecting)
      && (state == Failed <==> c.client.Some? && !c.connecting && !c.client.value.connected && c.failedToken)
      && (state == Disconnected <==>
            c.client.Some? && !c.connecting && !c.client.value.connected && !c.failedToken && s.verified)
      && state in {Ready, Connected, Connecting, Failed, Disconnected, UnVerified}
  {
  }

  /** After a logout a server with a wid is neither started nor made ready, until it has been reported
      connected again. */
  lemma LoggedOutCannotStart(s: Server, env: Env, own: Registered)
    requires s.hasWid
    ensures var t := Moved(s, LoggedOut);
      && AfterStart(t, env, own) == (t, Some(NotVerified)) == AfterReady(t, env, own)
      && AfterUnderlying(Moved(t, OnConnected), env.opening).1 != Some(NotVerified)
  {
  }

  /** A start or EnsureReady that cannot open a connection changes nothing but the verified mark, and that
      only when the stored device is gone. */
  lemma NothingToOpen(s: Server, env: Env, own: Registered)
    requires s.connection.None? && env.opening.Refused?
    ensures var fault := env.opening.fault;
      var expected := if s.hasWid && !s.verified then (s, Some(NotVerified))
                      else (s.(verified := s.verified && !fault.StoreNotFound?), Some(Reported(fault)));
      AfterStart(s, env, own) == expected == AfterReady(s, env, own)
  {
  }

  /** A server that is handed its own connection again has disposed of it: it is left without a client. */
  lemma HandedItsOwn(s: Server, c: Connection, same: bool, newcomer: Registered)
    ensures var t := AfterUpdate(s, c, same, newcomer);
      && t.handlers == (if s.handlers == [] then [newcomer] else s.handlers)
      && t.connection.Some? && (t.connection.value.client.None? <==> same || c.client.None?)
      && (!same ==> t.connection == Some(c))
      && (same && !s.stopRequested ==> GetState(t) == UnVerified)
  {
  }

  // ------------------------------------------------------------------ runs

  /** Own operations, and what happens in between: pairing hands over a connection, a stored record
      is read again, the outside moves. */
  datatype Op =
    | Start(env: Env)
    | EnsureReady(env: Env)
    | Stop
    | Restart(moves: seq<Move>, env: Env)
    | Toggle(env: Env)
    | UpdateConnection(connection: Connection, same: bool, newcomer: Registered)
    | Pair(connection: Connection, wid: bool)
    | Reload(verified: bool, wid: bool)
    | Outside(move: Move)

  function Apply(s: Server, op: Op, own: Registered): Server {
    match op
    case Start(env) => AfterStart(s, env, own).0
    case EnsureReady(env) => AfterReady(s, env, own).0
    case Stop => AfterStop(s)
    case Restart(moves, env) => AfterRestart(s, moves, env, own).0
    case Toggle(env) => AfterToggle(s, env, own).0
    case UpdateConnection(c, same, f) => AfterUpdate(s, c, same, f)
    case Pair(c, wid) => s.(connection := Some(c), verified := true, hasWid := wid)
    case Reload(v, wid) => s.(verified := v, hasWid := wid)
    case Outside(move) => Moved(s, move)
  }

  function Run(s: Server, ops: seq<Op>, own: Registered): Server {
    if ops == [] then s else Apply(Run(s, ops[..|ops| - 1], own), ops[|ops| - 1], own)
  }

  function Constructed(verified: bool, hasWid: bool): Server {
    Server(None, verified, false, [], hasWid)
  }

  /** A server just constructed shows UnPrepared if it is verified, and Stopped once it is asked to stop. */
  lemma ConstructedShows(verified: bool, hasWid: bool)
    ensures var s := Constructed(verified, hasWid);
      && GetState(s) == (if verified then UnPrepared else UnVerified)
      && GetState(AfterStop(s)) == (if verified then Stopped else UnVerified)
  {
  }

  /** A server paired with a connection that is logged in is verified and, unless asked to stop, ready. */
  lemma PairedShows(s: Server, c: Connection, wid: bool, own: Registered)
    requires IsConnected(c) && IsValid(c)
    ensures var t := Apply(s, Pair(c, wid), own);
      && t.verified && t.hasWid == wid && t.handlers == s.handlers
      && GetState(t) == (if s.stopRequested then Stopping else Ready)
  {
  }

  /** At most one handler, and none without a connection. */
  predicate Inv(s: Server) {
    |s.handlers| <= 1 && (s.handlers != [] ==> s.connection.Some?)
  }

  lemma {:induction false} MovesKeepHandlers(s: Server, moves: seq<Move>)
    ensures AfterMoves(s, moves).handlers == s.handlers
  {
    if moves != [] {
      MovesKeepHandlers(s, moves[..|moves| - 1]);
    }
  }

  lemma {:induction false} MovesInv(s: Server, moves: seq<Move>)
    requires Inv(s)
    ensures Inv(AfterMoves(s, moves))
  {
    if moves != [] {
      MovesInv(s, moves[..|moves| - 1]);
    }
  }

  lemma StartInv(s: Server, env: Env, own: Registered)
    requires Inv(s)
    ensures Inv(AfterStart(s, env, own).0) && Inv(AfterReady(s, env, own).0)
  {
  }

  lemma StepInv(s: Server, op: Op, own: Registered)
    requires Inv(s)
    ensures Inv(Apply(s, op, own))
  {
    if op.Start? || op.EnsureReady? || op.Toggle? {
      StartInv(s, op.env, own);
    } else if op.Restart? {
      MovesInv(AfterStop(s), op.moves);
      StartInv(AfterMoves(AfterStop(s), op.moves), op.env, own);
    }
  }

  lemma {:induction false} RunInv(s: Server, ops: seq<Op>, own: Registered)
    requires Inv(s)
    ensures Inv(Run(s, ops, own))
  {
    if ops != [] {
      RunInv(s, ops[..|ops| - 1], own);
      StepInv(Run(s, ops[..|ops| - 1], own), ops[|ops| - 1], own);
    }
  }

  /** From construction on, one trigger reaches dispatching at most once, and never on a server
      without a connection. */
  lemma OneDispatchPerTrigger(verified: bool, hasWid: bool, ops: seq<Op>, own: Registered,
                              payload: Messages.WhatsappMessage)
    ensures var s := Run(Constructed(verified, hasWid), ops, own);
      |Handler.Dispatches(s.handlers, payload)| <= (if s.connection.Some? then 1 else 0)
  {
    RunInv(Constructed(verified, hasWid), ops, own);
  }

  // ------------------------------------------------------------------ the gate of Start

  /** Underlying connection in place and a state that may be started. */
  predicate Admits(s: Server, env: Env) {
    var (t, e) := AfterUnderlying(s, env.opening);
    e.None? && IsValidToStart(GetState(t))
  }

  /** In terms of what the caller can see: a pending stop opens the gate whatever the connection
      does; otherwise the link must be down, with a client, and either marked failed or verified. */
  lemma GateExact(s: Server, env: Env)
    ensures Admits(s, env) <==>
      && (s.hasWid ==> s.verified)
      && (s.connection.None? ==> env.opening.Opened?)
      && var c := if s.connection.Some? then s.connection.value else env.opening.connection;
         (s.stopRequested || (c.client.Some? && !c.connecting && !Linked(c) && (c.failedToken || s.verified)))
  {
  }

  /** The gate refuses before anything but the connection and the verified mark has changed. */
  lemma RefusedStart(s: Server, env: Env, own: Registered)
    requires !Admits(s, env)
    ensures AfterStart(s, env, own).1.Some?
    ensures AfterStart(s, env, own).0.handlers == s.handlers
    ensures AfterStart(s, env, own).0.stopRequested == s.stopRequested
    ensures s.connection.Some? ==> AfterStart(s, env, own).0 == s
  {
  }

  /** A server never started before gets through only when it is verified; the refused one keeps
      the connection that was opened for it. */
  lemma FirstStart(s: Server, env: Env, own: Registered)
    requires s.connection.None? && !s.stopRequested && env.opening == Opened(FRESH)
    ensures Admits(s, env) <==> s.verified
    ensures !s.verified && !s.hasWid ==>
      AfterStart(s, env, own) == (s.(connection := Some(FRESH)), Some(InvalidState(UnVerified)))
  {
  }

  /** Once through the gate: one handler exactly when dialling raised no error, none otherwise. */
  lemma AdmittedStart(s: Server, env: Env, own: Registered)
    requires Inv(s) && Admits(s, env)
    ensures var (t, e) := AfterStart(s, env, own);
      var dialled := Dials(AfterUnderlying(s, env.opening).0.connection.value, env);
      && !t.stopRequested
      && |t.handlers| == (if dialled.1.None? then 1 else 0)
      && t.connection == (if dialled.1.Some? && IsConnected(dialled.0) then None else Some(dialled.0))
      && t.verified == (match dialled.1
                        case None => s.verified || IsValid(dialled.0)
                        case Some(fault) => s.verified && !fault.UnAuthorized?)
      && (e.None? <==> dialled.1.None? || (dialled.1.value.UnAuthorized? && (env.saved || !s.verified)))
  {
  }

  /** The connection a start or EnsureReady works on. */
  function Underlying(s: Server, env: Env): Connection
    requires s.connection.None? ==> env.opening.Opened?
  {
    if s.connection.Some? then s.connection.value else env.opening.connection
  }

  /** The dial a start ends with: a second one only where the first raised no error and no link. */
  function LastDial(env: Env): Dial {
    if env.first.fault.Some? || env.first.link.connected then env.first else env.second
  }

  /** What a server with this link shows while no stop is pending. */
  function Shown(link: Link, verified: bool): State {
    if link.connected then (if link.loggedIn then Ready else Connected)
    else if verified then Disconnected else UnVerified
  }

  lemma DialsTo(c: Connection, env: Env)
    requires c.client.Some? && !c.connecting
    ensures var dial := LastDial(env);
      Dials(c, env) == (Connection(Some(dial.link), false, dial.fault.Some?), dial.fault)
  {
  }

  lemma StartSettles(s: Server, env: Env, own: Registered)
    requires Inv(s) && Admits(s, env)
    ensures var c := Underlying(s, env);
      var ready := Server(Some(c), s.verified, false, if s.handlers == [] then [own] else s.handlers, s.hasWid);
      AfterStart(s, env, own) == Settle(ready, Dials(c, env), env.saved)
  {
  }

  /** An admitted start whose last dial raises no error takes over the link of that dial: the server
      is ready exactly if it is connected and logged in, and a login makes it verified. */
  lemma StartedByDial(s: Server, env: Env, own: Registered)
    requires Inv(s) && Admits(s, env) && Underlying(s, env).client.Some? && !Underlying(s, env).connecting
    requires LastDial(env).fault.None?
    ensures var (t, e) := AfterStart(s, env, own);
      var link := LastDial(env).link;
      && e.None? && !t.stopRequested && |t.handlers| == 1
      && t.connection == Some(Connection(Some(link), false, false))
      && t.verified == (s.verified || (link.connected && link.loggedIn))
      && GetState(t) == Shown(link, t.verified)
      && t.hasWid == s.hasWid
  {
    DialsTo(Underlying(s, env), env);
    StartSettles(s, env, own);
  }

  /** And one whose last dial fails: a link that came up all the same is given up, any other is
      marked as failed; only an unauthorized failure costs the verified mark. */
  lemma StartFailedByDial(s: Server, env: Env, own: Registered)
    requires Inv(s) && Admits(s, env) && Underlying(s, env).client.Some? && !Underlying(s, env).connecting
    requires LastDial(env).fault.Some?
    ensures var (t, e) := AfterStart(s, env, own);
      var dial := LastDial(env);
      && !t.stopRequested && t.handlers == []
      && t.connection == (if dial.link.connected then None else Some(Connection(Some(dial.link), false, true)))
      && t.verified == (s.verified && !dial.fault.value.UnAuthorized?)
      && (t.connection.Some? ==> GetState(t) == Failed)
      && (!dial.fault.value.UnAuthorized? ==> e == Some(Reported(dial.fault.value)))
  {
    DialsTo(Underlying(s, env), env);
    StartSettles(s, env, own);
  }

  /** EnsureReady dials once, and only where the link is down; without an error the server counts as
      verified and shows the link. */
  lemma ReadyByDial(s: Server, env: Env, own: Registered)
    requires Inv(s) && AfterUnderlying(s, env.opening).1.None?
    requires Underlying(s, env).client.Some? && !Underlying(s, env).connecting
    ensures var (t, e) := AfterReady(s, env, own);
      var c := Underlying(s, env);
      var link := if Linked(c) then c.client.value else env.first.link;
      && (Linked(c) || env.first.fault.None? ==>
            && e.None? && t.verified && !t.stopRequested && |t.handlers| == 1
            && t.connection == Some(Connection(Some(link), false, Linked(c) && c.failedToken))
            && GetState(t) == Shown(link, true))
      && (!Linked(c) && env.first.fault.Some? ==>
            && t.handlers == []
            && t.connection == (if link.connected then None else Some(Connection(Some(link), false, true))))
  {
  }

  /** No error does not mean attached: an unauthorized start reports success once the loss of the
      verified mark is saved, with no handler left. */
  lemma SilentSuccess()
    ensures exists s: Server, env: Env, own: Registered ::
      Inv(s) && AfterStart(s, env, own).1.None? && AfterStart(s, env, own).0.handlers == []
  {
    var s := Constructed(true, true);
    var env := Env(Opened(FRESH), Dial(Link(false, false), Some(UnAuthorized)), Dial(Link(false, false), None), true);
    assert AfterStart(s, env, 0).1.None? && AfterStart(s, env, 0).0.handlers == [];
  }

  /** EnsureReady has no gate: it attaches on any state unless opening or connecting fails. */
  lemma ReadyOutcome(s: Server, env: Env, own: Registered)
    requires Inv(s) && AfterUnderlying(s, env.opening).1.None?
    ensures var (t, e) := AfterReady(s, env, own);
      var c := AfterUnderlying(s, env.opening).0.connection.value;
      var failed := !IsConnected(c) && Connect(c, env.first).1.Some?;
      && !t.stopRequested
      && |t.handlers| == (if failed then 0 else 1)
      && (!failed ==> e.None? && t.verified && t.connection.Some?)
  {
  }

  /** A failed start leaves the server startable again: the connection that was kept is marked
      failed, and one that was given up is opened anew. */
  lemma FailedStartCanBeRetried(s: Server, env: Env, again: Env, own: Registered)
    requires Admits(s, env) && again.opening == Opened(FRESH)
    requires var dialled := Dials(AfterUnderlying(s, env.opening).0.connection.value, env);
      dialled.1.Some? && !dialled.1.value.UnAuthorized? && dialled.0.client.Some?
    ensures var t := AfterStart(s, env, own).0;
      && (t.connection.Some? ==> GetState(t) == Failed)
      && t.verified == s.verified
      && (Admits(t, again) <==> t.connection.Some? || t.verified)
  {
    var dialled := Dials(AfterUnderlying(s, env.opening).0.connection.value, env);
    assert dialled.0.failedToken && !dialled.0.connecting;
  }

  // ------------------------------------------------------------------ stopping

  /** A stop that was not asked for before leaves the server stopped, or unverified when nothing
      is left of the connection and the mark is missing. */
  lemma StopLeavesStopped(s: Server)
    requires !s.stopRequested
    ensures AfterStop(s).stopRequested && AfterStop(s).handlers == []
    ensures GetState(AfterStop(s)) ==
      if !s.verified && (s.connection.None? || IsConnected(s.connection.value)) then UnVerified else Stopped
    ensures AfterStop(s).connection ==
      if s.connection.Some? && IsConnected(s.connection.value) then None else s.connection
  {
  }

  /** A second stop does nothing at all, whatever has happened since. */
  lemma StopTwice(s: Server)
    ensures AfterStop(s) == s <==> s.stopRequested
    ensures AfterStop(AfterStop(s)) == AfterStop(s)
  {
  }

  /** After a stop, while only the outside moves: no handler, and the server shows as stopping
      exactly while a connection the stop did not dispose is up. One that was just connecting at
      the time is not disposed. */
  lemma {:induction false} AfterStopping(s: Server, moves: seq<Move>)
    requires !s.stopRequested
    ensures var t := AfterMoves(AfterStop(s), moves);
      && t.stopRequested && t.handlers == []
      && (t.connection.Some? <==> s.connection.Some? && !IsConnected(s.connection.value))
      && (GetState(t) == Stopping <==> t.connection.Some? && IsConnected(t.connection.value))
      && (GetState(t) == Stopping || GetState(t) == Stopped || (GetState(t) == UnVerified && t.connection.None?))
  {
    if moves != [] {
      AfterStopping(s, moves[..|moves| - 1]);
    }
  }

  /** Something the outside alone can do to the server after a stop. */
  ghost predicate ComesUp(s: Server) {
    exists moves: seq<Move> :: GetState(AfterMoves(AfterStop(s), moves)) == Stopping
  }

  /** A stop keeps the link down exactly when it disposed of the connection or there was nothing
      to come up: a client that is connecting, or just disconnected and reconnecting, is kept. */
  lemma StopHoldsExactly(s: Server)
    requires !s.stopRequested
    ensures ComesUp(s) <==>
      s.connection.Some? && s.connection.value.client.Some? && !IsConnected(s.connection.value)
  {
    var kept := s.connection.Some? && s.connection.value.client.Some? && !IsConnected(s.connection.value);
    if kept {
      var moves := [Drift(Link(true, true), false)];
      assert moves[..0] == [] && AfterMoves(AfterStop(s), moves[..0]) == AfterStop(s);
      assert GetState(AfterMoves(AfterStop(s), moves)) == Stopping;
    } else {
      forall moves: seq<Move> ensures GetState(AfterMoves(AfterStop(s), moves)) != Stopping {
        NothingComesUp(s, moves);
      }
    }
  }

  lemma {:induction false} NothingComesUp(s: Server, moves: seq<Move>)
    requires !s.stopRequested
    requires s.connection.Some? && s.connection.value.client.Some? ==> IsConnected(s.connection.value)
    ensures var t := AfterMoves(AfterStop(s), moves);
      t.stopRequested && (t.connection.None? || t.connection.value.client.None?) && GetState(t) != Stopping
  {
    if moves != [] {
      NothingComesUp(s, moves[..|moves| - 1]);
    }
  }

  /** So a stop that comes while dialling does not keep the link from coming up. */
  lemma StopWhileConnecting(s: Server, own: Registered)
    requires s.connection.Some? && s.connection.value.client.Some? && s.connection.value.connecting && !s.stopRequested
    ensures var t := Run(s, [Stop, Outside(Drift(Link(true, true), false))], own);
      GetState(t) == Stopping && IsConnected(t.connection.value) && t.handlers == []
  {
    var ops := [Stop, Outside(Drift(Link(true, true), false))];
    assert ops[..1][..0] == [] && ops[..1] == [Stop];
    assert Run(s, ops[..1][..0], own) == s;
    assert Run(s, ops[..1], own) == AfterStop(s);
  }

  lemma {:induction false} StopStaysPending(s: Server, moves: seq<Move>)
    ensures AfterMoves(AfterStop(s), moves).stopRequested
  {
    if moves != [] {
      StopStaysPending(s, moves[..|moves| - 1]);
    }
  }

  /** Whatever the outside does between stop and start, a restart passes the gate whenever there is
      an underlying connection to start. */
  lemma RestartIsAdmitted(s: Server, moves: seq<Move>, env: Env, own: Registered)
    ensures var t := AfterMoves(AfterStop(s), moves);
      && (Admits(t, env) <==> AfterUnderlying(t, env.opening).1.None?)
      && (Admits(t, env) ==> var state := GetState(AfterUnderlying(t, env.opening).0);
                             state == Stopped || state == Stopping)
    ensures var e := AfterRestart(s, moves, env, own).1; e.None? || !e.value.InvalidState?
  {
    StopStaysPending(s, moves);
  }

  /** Toggling a server that may be started is never refused by the gate either. */
  lemma ToggleIsAdmitted(s: Server, env: Env, own: Registered)
    ensures IsValidToStart(GetState(s)) ==> (Admits(s, env) <==> AfterUnderlying(s, env.opening).1.None?)
    ensures var e := AfterToggle(s, env, own).1; e.None? || !e.value.InvalidState?
  {
  }

  /** A stopped server is silent: no handler while a stop is pending. */
  predicate Silent(s: Server) {
    s.stopRequested ==> s.handlers == []
  }

  lemma StartSilent(s: Server, env: Env, own: Registered)
    requires Silent(s)
    ensures Silent(AfterStart(s, env, own).0) && Silent(AfterReady(s, env, own).0)
  {
  }

  lemma RestartSilent(s: Server, moves: seq<Move>, env: Env, own: Registered)
    requires Silent(s)
    ensures Silent(AfterRestart(s, moves, env, own).0)
  {
    MovesKeepHandlers(AfterStop(s), moves);
    StartSilent(AfterMoves(AfterStop(s), moves), env, own);
  }

  /** Handing a connection to a stopped server is the one step that breaks the silence. */
  lemma StepSilent(s: Server, op: Op, own: Registered)
    requires Silent(s)
    ensures Silent(Apply(s, op, own)) <==> !(op.UpdateConnection? && s.stopRequested)
  {
    if op.Start? || op.EnsureReady? || op.Toggle? {
      StartSilent(s, op.env, own);
    } else if op.Restart? {
      RestartSilent(s, op.moves, op.env, own);
    }
  }

  /** No step of the run hands a connection to a stopped server. */
  predicate Orderly(s: Server, ops: seq<Op>, own: Registered) {
    forall i :: 0 <= i < |ops| && ops[i].UpdateConnection? ==> !Run(s, ops[..i], own).stopRequested
  }

  lemma {:induction false} StoppedMeansSilent(s: Server, ops: seq<Op>, own: Registered)
    requires Silent(s) && Orderly(s, ops, own)
    ensures Silent(Run(s, ops, own))
  {
    if ops != [] {
      var front := ops[..|ops| - 1];
      forall i | 0 <= i < |front| && front[i].UpdateConnection? ensures !Run(s, front[..i], own).stopRequested {
        assert front[..i] == ops[..i] && front[i] == ops[i];
      }
      StoppedMeansSilent(s, front, own);
      StepSilent(Run(s, front, own), ops[|ops| - 1], own);
    }
  }

  /** And then it cannot be stopped: with a stop still pending, the attached handler and the live
      connection outlast every further stop. */
  lemma UnstoppableServer(s: Server, c: Connection, f: Registered, own: Registered)
    requires Inv(s) && IsConnected(c)
    ensures var t := Apply(Apply(s, Stop, own), UpdateConnection(c, false, f), own);
      && t.handlers != [] && t.connection == Some(c)
      && GetState(t) == Stopping
      && Apply(t, Stop, own) == t
  {
  }

  // ------------------------------------------------------------------ who is attached

  datatype Change = Attaches | Detaches | Keeps

  /** What a step does to the handlers, read off the answers it gets. */
  function ChangeOf(s: Server, op: Op): Change {
    match op
    case Start(env) => StartChange(s, env)
    case EnsureReady(env) =>
      var (t, e) := AfterUnderlying(s, env.opening);
      if e.Some? then Keeps
      else if !IsConnected(t.connection.value) && Connect(t.connection.value, env.first).1.Some? then Detaches
      else Attaches
    case Stop => if s.stopRequested then Keeps else Detaches
    case Restart(moves, env) =>
      var change := StartChange(AfterMoves(AfterStop(s), moves), env);
      if change.Keeps? && !s.stopRequested then Detaches else change
    case Toggle(env) =>
      if IsValidToStart(GetState(s)) then StartChange(s, env) else if s.stopRequested then Keeps else Detaches
    case UpdateConnection(_, _, _) => Attaches
    case _ => Keeps
  }

  function StartChange(s: Server, env: Env): Change {
    var (t, e) := AfterUnderlying(s, env.opening);
    if e.Some? || !IsValidToStart(GetState(t)) then Keeps
    else if Dials(t.connection.value, env).1.Some? then Detaches
    else Attaches
  }

  predicate Changed(s: Server, t: Server, change: Change) {
    match change
    case Attaches => t.handlers != []
    case Detaches => t.handlers == []
    case Keeps => t.handlers == s.handlers
  }

  lemma StartChanges(s: Server, env: Env, own: Registered)
    ensures Changed(s, AfterStart(s, env, own).0, StartChange(s, env))
  {
  }

  lemma RestartChanges(s: Server, moves: seq<Move>, env: Env, own: Registered)
    ensures Changed(s, AfterRestart(s, moves, env, own).0, ChangeOf(s, Restart(moves, env)))
  {
    MovesKeepHandlers(AfterStop(s), moves);
    StartChanges(AfterMoves(AfterStop(s), moves), env, own);
  }

  lemma StepChange(s: Server, op: Op, own: Registered)
    ensures Changed(s, Apply(s, op, own), ChangeOf(s, op))
  {
    if op.Start? || op.Toggle? {
      StartChanges(s, op.env, own);
    } else if op.Restart? {
      RestartChanges(s, op.moves, op.env, own);
    }
  }

  /** Just behind the last step that was not neutral; 0 when there is none. */
  function LastChange(s: Server, ops: seq<Op>, own: Registered): (n: nat)
    ensures n <= |ops|
  {
    if ops == [] then 0
    else if ChangeOf(Run(s, ops[..|ops| - 1], own), ops[|ops| - 1]).Keeps? then LastChange(s, ops[..|ops| - 1], own)
    else |ops|
  }

  /** Dispatching is reached at the end of a run exactly when the last step with a say attached. */
  lemma {:induction false} AttachedTells(s: Server, ops: seq<Op>, own: Registered)
    ensures var n := LastChange(s, ops, own);
      Run(s, ops, own).handlers != [] <==>
        if n == 0 then s.handlers != [] else ChangeOf(Run(s, ops[..n - 1], own), ops[n - 1]).Attaches?
  {
    if ops != [] {
      var front := ops[..|ops| - 1];
      StepChange(Run(s, front, own), ops[|ops| - 1], own);
      if ChangeOf(Run(s, front, own), ops[|ops| - 1]).Keeps? {
        AttachedTells(s, front, own);
        var n := LastChange(s, front, own);
        if n > 0 {
          assert front[..n - 1] == ops[..n - 1];
        }
      }
    }
  }

  // ------------------------------------------------------------------ the objects

  class WhatsmeowConnection {
    var client: Option<Link>
    var connecting: bool
    var failedToken: bool

    constructor (c: Connection)
      ensures Value() == c
    {
      client, connecting, failedToken := c.client, c.connecting, c.failedToken;
    }

    function Value(): Connection
      reads this
    {
      Connection(client, connecting, failedToken)
    }

    /** Dials through the client; d is how that ends. */
    method Dial(d: Dial) returns (fault: Option<Fault>)
      modifies this
      ensures (Value(), fault) == Connect(old(Value()), d)
    {
      if connecting {
        return None;
      }
      connecting := true;
      if client.Some? {
        client := Some(d.link);
      }
      connecting := false;
      failedToken := d.fault.Some?;
      fault := d.fault;
    }

    method Dispose()
      modifies this
      ensures Value() == old(Value()).(client := None)
    {
      client := None;
    }
  }

  class QpWhatsappServer {
    const handler: Handler.DispatchingHandler
    const own: Registered            // the dispatching handler made for this server
    var connection: WhatsmeowConnection?
    var verified: bool
    var stopRequested: bool
    var hasWid: bool

    constructor (own: Registered, verified: bool, hasWid: bool)
      ensures Snapshot() == Constructed(verified, hasWid) && this.own == own && fresh(handler)
    {
      handler := new Handler.DispatchingHandler();
      this.own, this.verified, this.hasWid := own, verified, hasWid;
      connection, stopRequested := null, false;
    }

    function Snapshot(): Server
      reads this, handler`aeh, connection
    {
      Server(if connection == null then None else Some(connection.Value()),
             verified, stopRequested, handler.aeh, hasWid)
    }

    /** The result says whether the mark, where it changed, could be saved. */
    method MarkVerified(value: bool, saved: bool) returns (error: Option<Error>)
      modifies this`verified
      ensures verified == value
      ensures error == if old(verified) != value && !saved then Some(NotSaved) else None
    {
      if verified != value {
        verified := value;
        return if saved then None else Some(NotSaved);
      }
      error := None;
    }

    method EnsureUnderlying(env: Env) returns (error: Option<Error>)
      modifies this`connection, this`verified
      ensures (Snapshot(), error) == AfterUnderlying(old(Snapshot()), env.opening)
      ensures connection == old(connection) || (fresh(connection) && old(connection) == null)
    {
      if hasWid && !verified {
        return Some(NotVerified);
      }
      if connection == null {
        match env.opening
        case Refused(fault) =>
          if fault.StoreNotFound? {
            var _ := MarkVerified(false, env.saved);
          }
          return Some(Reported(fault));
        case Opened(c) =>
          connection := new WhatsmeowConnection(c);
      }
      error := None;
    }

    method Disconnect()
      modifies this`connection, connection
      ensures Snapshot() == AfterDisconnect(old(Snapshot()))
      ensures connection == old(connection) || connection == null
    {
      if connection != null && IsConnected(connection.Value()) {
        connection.Dispose();
        connection := null;
      }
    }

    method AttachOwn(evt: Registered)
      modifies handler`aeh
      ensures Snapshot() == Attach(old(Snapshot()), evt)
    {
      if !handler.IsAttached() {
        handler.Register(evt);
      }
    }

    method StartConnectionError(fault: Fault, env: Env) returns (error: Option<Error>)
      modifies this`connection, this`verified, connection, handler`aeh
      ensures (Snapshot(), error) == AfterConnectionError(old(Snapshot()), fault, env.saved)
    {
      Disconnect();
      handler.Clear();
      if fault.UnAuthorized? {
        error := MarkVerified(false, env.saved);
      } else {
        error := Some(Reported(fault));
      }
    }

    method Start(env: Env) returns (error: Option<Error>)
      modifies this, connection, handler`aeh
      ensures (Snapshot(), error) == AfterStart(old(Snapshot()), env, own)
    {
      error := EnsureUnderlying(env);
      if error.Some? {
        return;
      }
      var state := GetState(Snapshot());
      if !IsValidToStart(state) {
        return Some(InvalidState(state));
      }
      stopRequested := false;
      AttachOwn(own);
      var fault := connection.Dial(env.first);
      if fault.None? && !IsConnected(connection.Value()) {
        fault := connection.Dial(env.second);
      }
      if fault.Some? {
        error := StartConnectionError(fault.value, env);
      } else if IsValid(connection.Value()) {
        var _ := MarkVerified(true, env.saved);
      }
    }

    method EnsureReady(env: Env) returns (error: Option<Error>)
      modifies this, connection, handler`aeh
      ensures (Snapshot(), error) == AfterReady(old(Snapshot()), env, own)
    {
      error := EnsureUnderlying(env);
      if error.Some? {
        return;
      }
      stopRequested := false;
      AttachOwn(own);
      if !IsConnected(connection.Value()) {
        var fault := connection.Dial(env.first);
        if fault.Some? {
          error := StartConnectionError(fault.value, env);
          return;
        }
      }
      var _ := MarkVerified(true, env.saved);
    }

    method Stop()
      modifies this, connection, handler`aeh
      ensures Snapshot() == AfterStop(old(Snapshot()))
      ensures connection == old(connection) || connection == null
    {
      if !stopRequested {
        stopRequested := true;
        Disconnect();
        handler.Clear();
      }
    }

    /** One move of the outside. */
    method Move(move: Move)
      modifies this`verified, connection
      ensures Snapshot() == Moved(old(Snapshot()), move)
    {
      match move
      case OnConnected => verified := true;
      case LoggedOut => verified := false;
      case Drift(link, connecting) =>
        if connection != null && connection.client.Some? {
          connection.client, connection.connecting := Some(link), connecting;
        }
    }

    /** The second between stop and start. */
    method Wait(moves: seq<Move>)
      modifies this`verified, connection
      ensures Snapshot() == AfterMoves(old(Snapshot()), moves)
    {
      for i := 0 to |moves|
        invariant Snapshot() == AfterMoves(old(Snapshot()), moves[..i])
      {
        assert moves[..i + 1][..i] == moves[..i];
        Move(moves[i]);
      }
      assert moves[..|moves|] == moves;
    }

    method Restart(moves: seq<Move>, env: Env) returns (error: Option<Error>)
      modifies this, connection, handler`aeh
      ensures (Snapshot(), error) == AfterRestart(old(Snapshot()), moves, env, own)
    {
      Stop();
      Wait(moves);
      error := Start(env);
    }

    method Toggle(env: Env) returns (error: Option<Error>)
      modifies this, connection, handler`aeh
      ensures (Snapshot(), error) == AfterToggle(old(Snapshot()), env, own)
    {
      error := None;
      if IsValidToStart(GetState(Snapshot())) {
        error := Start(env);
      } else {
        Stop();
      }
    }

    /** newcomer is the dispatching handler made for this call. */
    method UpdateConnection(c: WhatsmeowConnection, newcomer: Registered)
      modifies this`connection, connection, handler`aeh
      ensures connection == c
      ensures Snapshot() == AfterUpdate(old(Snapshot()), old(c.Value()), c == old(connection), newcomer)
    {
      if connection != null {
        connection.Dispose();
      }
      connection := c;
      AttachOwn(newcomer);
    }
  }
}
