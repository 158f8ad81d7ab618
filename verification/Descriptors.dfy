// Connections to the control socket, over every interleaving: their descriptor numbers, what is written to them,
// and their clients' hanging up. An observer keeps the number of its connection, not the connection: once that is
// closed the number may be another's, and notify may still be calling the observer from its private copy
// (src/control.cpp, src/multiplexer.cpp).
module Descriptors {
  import opened Common
  import opened EventPipeline
  import opened PipelineObservers
  import opened Framing

  /** A connection: its number, whether the daemon has it open, whether its client has hung up, all bytes written to
      it, and those of them that its own session and its own observer wrote. */
  datatype Conn = Conn(fd: int, open: bool, hungUp: bool, bytes: string, own: string)

  /** An observer's connection, what that had written before, and how many frames went out whole since. */
  datatype Home = Home(conn: nat, base: string, whole: nat)

  /** The daemon; its connections; each observer's own; the observers whose `disconnected` is set. */
  datatype Wires = Wires(codec: Codec, s: State, conns: seq<Conn>, homes: seq<Home>, latched: set<int>)

  datatype Wired =
    | Step(a: Action)
    // under a number that no open connection has
    | Accept(fd: int)
    // so much of a reply got through
    | Reply(conn: nat, text: string)
    | Subscribe(conn: nat)
    // the next observer of the private copy is called; a write that fails does so after so many bytes
    | CallNext(cut: Option<nat>)
    | HangUp(conn: nat)
    | Unsubscribe(id: int)
    | Close(conn: nat)

  // ---- the call to come ----

  predicate Calls(s: State) {
    s.mux.Calling? && s.mux.left != []
  }

  function What(s: State): Dispatch
    requires Calls(s)
  {
    Dispatch(s.mux.ev, s.mux.cmd)
  }

  predicate IsOpen(w: Wires, c: nat) {
    c < |w.conns| && w.conns[c].open
  }

  /** Observer `id` and its connection. */
  predicate HasHome(w: Wires, id: int, c: nat) {
    0 <= id < |w.homes| && w.homes[id].conn == c && c < |w.conns|
  }

  predicate Subscribed(w: Wires, c: nat) {
    exists id | 0 <= id < |w.homes| :: HasHome(w, id, c)
  }

  /** The callback gets as far as writing. */
  predicate Writes(w: Wires) {
    && Calls(w.s) && IsPress(w.s.mux.ev)
    && var id := w.s.mux.left[0];
       0 <= id < |w.homes| && id !in w.latched && w.homes[id].conn < |w.conns|
  }

  predicate Holds(w: Wires, fd: int, c: nat) {
    IsOpen(w, c) && w.conns[c].fd == fd
  }

  ghost function Holder(w: Wires, fd: int): (h: Option<nat>)
    ensures h.Some? ==> Holds(w, fd, h.value)
    ensures h.None? ==> forall c :: !Holds(w, fd, c)
  {
    if exists c :: Holds(w, fd, c) then
      var c :| Holds(w, fd, c);
      Some(c)
    else None
  }

  /** The connection that has the number which the callback writes to. */
  ghost function Target(w: Wires): Option<nat>
    requires Writes(w)
  {
    Holder(w, w.conns[w.homes[w.s.mux.left[0]].conn].fd)
  }

  function NextFrame(w: Wires): string
    requires Calls(w.s)
  {
    Frame(w.codec, MessageOf(w.s.names, What(w.s)))
  }

  function Piece(w: Wires, cut: Option<nat>): string
    requires Calls(w.s) && (cut.Some? ==> cut.value < |NextFrame(w)|)
  {
    if cut.Some? then NextFrame(w)[..cut.value] else NextFrame(w)
  }

  // ---- steps ----

  /** Steps of the daemon that go by one of the other cases. */
  predicate ByConnection(s: State, a: Action) {
    || (a.Outside? && (a.o.AddObserver? || a.o.RemoveObserver? || a.o.BrokenPipe?))
    || (a == Mux(CallObserver) && Calls(s))
  }

  predicate WireEnabled(w: Wires, x: Wired) {
    !w.s.aborted &&
    match x
    case Step(a) => Enabled(w.s, a) && !ByConnection(w.s, a)
    case Accept(fd) => forall c | 0 <= c < |w.conns| :: !Holds(w, fd, c)
    case Reply(c, _) => IsOpen(w, c) && !Subscribed(w, c)
    case Subscribe(c) => IsOpen(w, c) && !Subscribed(w, c)
    case CallNext(cut) => Calls(w.s) && (cut.Some? ==> cut.value < |NextFrame(w)|)
    case HangUp(c) => IsOpen(w, c)
    // the session's loop ends: latched, stopping, or the peek finds the client gone
    case Unsubscribe(id) =>
      id in w.s.observers && 0 <= id < |w.homes| && w.homes[id].conn < |w.conns|
      && (id in w.latched || !w.s.running || w.conns[w.homes[id].conn].hungUp)
    // handle_client has removed its observer before it returns
    case Close(c) => IsOpen(w, c) && forall id :: id in w.s.observers ==> !HasHome(w, id, c)
  }

  /** A write to a client who has hung up: the signal it raises ends the process. */
  ghost predicate Kills(w: Wires, x: Wired) {
    match x
    case Reply(c, _) => c < |w.conns| && w.conns[c].hungUp
    case CallNext(_) => Writes(w) && Target(w).Some? && w.conns[Target(w).value].hungUp
    case _ => false
  }

  /** The daemon's own steps in it. */
  ghost function StepsOf(w: Wires, x: Wired): seq<Action> {
    if Kills(w, x) then [Outside(BrokenPipe)]
    else match x
      case Step(a) => [a]
      case Subscribe(_) => [ADD]
      case Unsubscribe(id) => [Outside(RemoveObserver(id))]
      case CallNext(_) => [Mux(CallObserver)]
      case _ => []
  }

  ghost function Moved(w: Wires, x: Wired): State
    requires WireEnabled(w, x)
  {
    if StepsOf(w, x) == [] then w.s else Next(w.s, StepsOf(w, x)[0])
  }

  function Written(conn: Conn, text: string, own: bool): Conn {
    conn.(bytes := conn.bytes + text, own := if own then conn.own + text else conn.own)
  }

  ghost function WireNext(w: Wires, x: Wired): Wires
    requires WireEnabled(w, x)
  {
    var t := w.(s := Moved(w, x));
    if Kills(w, x) then t
    else match x
      case Accept(fd) => t.(conns := w.conns + [Conn(fd, true, false, "", "")])
      case Reply(c, text) => t.(conns := w.conns[c := Written(w.conns[c], text, true)])
      case Subscribe(c) => t.(homes := w.homes + [Home(c, w.conns[c].own, 0)])
      case CallNext(cut) => if Writes(w) then AfterWrite(w, t, cut) else t
      case HangUp(c) => t.(conns := w.conns[c := w.conns[c].(hungUp := true)])
      case Close(c) => t.(conns := w.conns[c := w.conns[c].(open := false)])
      case _ => t
  }

  /** A write to a number that nobody has fails like any other. */
  ghost function AfterWrite(w: Wires, t: Wires, cut: Option<nat>): Wires
    requires Writes(w) && (cut.Some? ==> cut.value < |NextFrame(w)|)
  {
    var id := w.s.mux.left[0];
    var h := w.homes[id];
    match Target(w)
    case None => t.(latched := w.latched + {id})
    case Some(c) =>
      t.(conns := w.conns[c := Written(w.conns[c], Piece(w, cut), c == h.conn)],
         homes := if cut.None? && c == h.conn then w.homes[id := h.(whole := h.whole + 1)] else w.homes,
         latched := if cut.Some? then w.latched + {id} else w.latched)
  }

  // ---- runs ----

  ghost predicate WireFeasible(w: Wires, xs: seq<Wired>)
    decreases |xs|, 0
  {
    xs == [] ||
    (WireFeasible(w, xs[..|xs| - 1]) && WireEnabled(WireExec(w, xs[..|xs| - 1]), xs[|xs| - 1]))
  }

  ghost function WireExec(w: Wires, xs: seq<Wired>): Wires
    requires WireFeasible(w, xs)
    decreases |xs|, 1
  {
    if xs == [] then w else WireNext(WireExec(w, xs[..|xs| - 1]), xs[|xs| - 1])
  }

  lemma WireSnoc(w: Wires, xs: seq<Wired>, x: Wired)
    requires WireFeasible(w, xs) && WireEnabled(WireExec(w, xs), x)
    ensures WireFeasible(w, xs + [x]) && WireExec(w, xs + [x]) == WireNext(WireExec(w, xs), x)
  {
    assert (xs + [x])[..|xs|] == xs;
  }

  ghost function ActionsOf(w: Wires, xs: seq<Wired>): seq<Action>
    requires WireFeasible(w, xs)
  {
    if xs == [] then []
    else
      var front := xs[..|xs| - 1];
      ActionsOf(w, front) + StepsOf(WireExec(w, front), xs[|xs| - 1])
  }

  function Unwired(codec: Codec, s: State): Wires {
    Wires(codec, s, [], [], {})
  }

  lemma StepsEnabled(w: Wires, x: Wired)
    requires WireEnabled(w, x)
    ensures |StepsOf(w, x)| <= 1
    ensures StepsOf(w, x) != [] ==> Enabled(w.s, StepsOf(w, x)[0])
    ensures WireNext(w, x).s == Moved(w, x) && WireNext(w, x).codec == w.codec
  {
  }

  /** Connections come and go beside a run of the daemon. */
  lemma {:induction false} WiresAreARun(w: Wires, xs: seq<Wired>)
    requires WireFeasible(w, xs)
    ensures Feasible(w.s, ActionsOf(w, xs)) && WireExec(w, xs).s == Exec(w.s, ActionsOf(w, xs))
    ensures WireExec(w, xs).codec == w.codec
  {
    if xs != [] {
      var front, x := xs[..|xs| - 1], xs[|xs| - 1];
      WiresAreARun(w, front);
      var steps := StepsOf(WireExec(w, front), x);
      StepsEnabled(WireExec(w, front), x);
      if steps == [] {
        assert ActionsOf(w, front) + steps == ActionsOf(w, front);
      } else {
        assert steps == [steps[0]];
        ExecSnoc(w.s, ActionsOf(w, front), steps[0]);
      }
    }
  }
}
