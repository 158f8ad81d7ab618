// Whose bytes a connection gets, what its client can make of them, and what ends the process, over every run.
module DescriptorProperties {
  import opened Common
  import opened EventPipeline
  import opened PipelineObservers
  import opened PipelineFaults
  import opened Framing
  import opened Descriptors

  // ---- what every run keeps ----

  function Pending(mux: MuxPc): seq<int> {
    if mux.Calling? then mux.left else []
  }

  ghost predicate KnownIds(w: Wires) {
    && |w.homes| == w.s.nextId
    && (forall id :: id in w.s.observers ==> 0 <= id < |w.homes| && IsOpen(w, w.homes[id].conn))
    && (forall id :: id in Pending(w.s.mux) ==> 0 <= id < |w.homes|)
    && (forall call :: call in w.s.log.calls ==> 0 <= call.id < |w.homes|)
  }

  ghost predicate KnownConnections(w: Wires) {
    && (forall id :: 0 <= id < |w.homes| ==> w.homes[id].conn < |w.conns|)
    && (forall i, j :: 0 <= i < j < |w.homes| ==> w.homes[i].conn != w.homes[j].conn)
    && (forall c, d :: 0 <= c < d < |w.conns| && w.conns[c].open && w.conns[d].open ==> w.conns[c].fd != w.conns[d].fd)
  }

  ghost predicate Sane(w: Wires) {
    KnownIds(w) && KnownConnections(w)
  }

  lemma HolderIs(w: Wires, fd: int, c: nat)
    requires KnownConnections(w)
    ensures Holder(w, fd) == Some(c) <==> Holds(w, fd, c)
  {
  }

  /** What a step of the daemon that has nothing to do with a connection leaves alone. */
  lemma OtherSteps(s: State, a: Action)
    requires Enabled(s, a) && !ByConnection(s, a)
    ensures var t := Next(s, a);
      && t.names == s.names && t.log.calls == s.log.calls && t.observers == s.observers && t.nextId == s.nextId
      && (forall id :: id in Pending(t.mux) ==> id in Pending(s.mux) || id in s.observers)
  {
    match a
    case Mux(m) => MuxFrame(s, m);
    case Device(r, d) => ReaderFrame(s, r, d);
    case Outside(o) => OutsideFrame(s, o);
  }

  lemma CallStep(s: State)
    requires Calls(s) && !s.aborted
    ensures var t := Next(s, Mux(CallObserver));
      && t.names == s.names && t.observers == s.observers && t.nextId == s.nextId
      && t.log.calls == s.log.calls + [Call(s.mux.left[0], What(s))]
      && Pending(t.mux) == s.mux.left[1..]
  {
    MuxFrame(s, CallObserver);
  }

  /** The daemon's part of any step. */
  lemma MovedIs(w: Wires, x: Wired)
    requires WireEnabled(w, x)
    ensures var t := Moved(w, x);
      && t.names == w.s.names
      && t.nextId == w.s.nextId + (if x.Subscribe? then 1 else 0)
      && t.log.calls == w.s.log.calls + (if x.CallNext? && !Kills(w, x) then [Call(w.s.mux.left[0], What(w.s))] else [])
      && (forall id :: id in t.observers ==>
            (x.Subscribe? && id == w.s.nextId) || (id in w.s.observers && x != Unsubscribe(id)))
      && (forall id :: id in Pending(t.mux) ==> id in Pending(w.s.mux) || id in w.s.observers)
  {
    match x
    case Step(a) => OtherSteps(w.s, a);
    case Unsubscribe(id) => WithoutIs(w.s.observers, id);
    case CallNext(_) => CallStep(w.s);
    case _ =>
  }

  /** Homes and connections stay what they are, and nothing closes but by Close. */
  lemma WiresGrow(w: Wires, x: Wired)
    requires WireEnabled(w, x)
    ensures var t := WireNext(w, x);
      && |t.homes| == |w.homes| + (if x.Subscribe? then 1 else 0)
      && |t.conns| == |w.conns| + (if x.Accept? then 1 else 0)
      && (forall id :: 0 <= id < |w.homes| ==>
            t.homes[id].conn == w.homes[id].conn && t.homes[id].base == w.homes[id].base)
      && (forall c :: 0 <= c < |w.conns| ==>
            t.conns[c].fd == w.conns[c].fd && t.conns[c].open == (w.conns[c].open && x != Close(c)))
      && (x.Subscribe? ==> t.homes[|w.homes|] == Home(x.conn, w.conns[x.conn].own, 0))
      && (x.Accept? ==> t.conns[|w.conns|] == Conn(x.fd, true, false, "", ""))
  {
  }

  lemma IdsStayKnown(w: Wires, x: Wired)
    requires Sane(w) && WireEnabled(w, x)
    ensures KnownIds(WireNext(w, x))
  {
    MovedIs(w, x);
    WiresGrow(w, x);
    StepsEnabled(w, x);
    var t := WireNext(w, x);
    forall id | id in t.s.observers ensures 0 <= id < |t.homes| && IsOpen(t, t.homes[id].conn) {
      if id in w.s.observers && x.Close? { assert !HasHome(w, id, x.conn); }
    }
    forall call | call in t.s.log.calls ensures 0 <= call.id < |t.homes| {
      if call !in w.s.log.calls { assert w.s.mux.left[0] in Pending(w.s.mux); }
    }
  }

  lemma ConnectionsStayKnown(w: Wires, x: Wired)
    requires Sane(w) && WireEnabled(w, x)
    ensures KnownConnections(WireNext(w, x))
  {
    WiresGrow(w, x);
    if x.Subscribe? {
      forall id | 0 <= id < |w.homes| ensures w.homes[id].conn != x.conn { assert !HasHome(w, id, x.conn); }
    }
    if x.Accept? {
      forall c | 0 <= c < |w.conns| && w.conns[c].open ensures w.conns[c].fd != x.fd { assert !Holds(w, x.fd, c); }
    }
  }

  lemma {:induction false} WiresStaySane(codec: Codec, s: State, xs: seq<Wired>)
    requires Initial(s) && WireFeasible(Unwired(codec, s), xs)
    ensures Sane(WireExec(Unwired(codec, s), xs))
  {
    if xs != [] {
      var front, x := xs[..|xs| - 1], xs[|xs| - 1];
      WiresStaySane(codec, s, front);
      IdsStayKnown(WireExec(Unwired(codec, s), front), x);
      ConnectionsStayKnown(WireExec(Unwired(codec, s), front), x);
    }
  }

  // ---- whose bytes a connection gets ----

  /** The guard of a write that goes astray to c: the observer called for a press has not given up, its own
      connection is closed, and c, which is open and has its client, was given the number of that one. */
  predicate StraysNow(w: Wires, c: nat) {
    && Writes(w) && IsOpen(w, c) && !w.conns[c].hungUp
    && var home := w.homes[w.s.mux.left[0]].conn;
       !w.conns[home].open && w.conns[c].fd == w.conns[home].fd
  }

  predicate Strays(w: Wires, x: Wired, c: nat) {
    x.CallNext? && x.cut != Some(0) && StraysNow(w, c)
  }

  /** Some call of the run meets that guard. */
  ghost predicate Strayed(w: Wires, xs: seq<Wired>, c: nat)
    requires WireFeasible(w, xs)
  {
    xs != [] &&
    (Strayed(w, xs[..|xs| - 1], c) || Strays(WireExec(w, xs[..|xs| - 1]), xs[|xs| - 1], c))
  }

  /** What one step writes to connection c. */
  ghost function WrittenBy(w: Wires, x: Wired, c: nat): string
    requires WireEnabled(w, x)
  {
    if Kills(w, x) then ""
    else if x.Reply? && x.conn == c then x.text
    else if x.CallNext? && Writes(w) && Target(w) == Some(c) then Piece(w, x.cut)
    else ""
  }

  lemma BytesStep(w: Wires, x: Wired, c: nat)
    requires Sane(w) && WireEnabled(w, x) && c < |w.conns|
    ensures var t := WireNext(w, x);
      && c < |t.conns| && t.conns[c].bytes == w.conns[c].bytes + WrittenBy(w, x, c)
      && t.conns[c].own == if Strays(w, x, c) then w.conns[c].own else w.conns[c].own + WrittenBy(w, x, c)
    ensures Strays(w, x, c) ==> WrittenBy(w, x, c) != ""
  {
    if x.CallNext? && Writes(w) {
      var home := w.homes[w.s.mux.left[0]].conn;
      HolderIs(w, w.conns[home].fd, c);
      HolderIs(w, w.conns[home].fd, home);
    }
  }

  lemma {:induction false} StrayedNeedsConnection(w: Wires, xs: seq<Wired>, c: nat)
    requires WireFeasible(w, xs) && c >= |WireExec(w, xs).conns|
    ensures !Strayed(w, xs, c)
  {
    if xs != [] {
      WiresGrow(WireExec(w, xs[..|xs| - 1]), xs[|xs| - 1]);
      StrayedNeedsConnection(w, xs[..|xs| - 1], c);
    }
  }

  /** The bytes that connection c was sent are exactly those that its own session and its own observer wrote, if and
      only if no call of the run met the guard. */
  lemma {:induction false} BytesAreOwnIff(codec: Codec, s: State, xs: seq<Wired>, c: nat)
    requires Initial(s) && WireFeasible(Unwired(codec, s), xs) && c < |WireExec(Unwired(codec, s), xs).conns|
    ensures var conn := WireExec(Unwired(codec, s), xs).conns[c];
      && |conn.own| <= |conn.bytes|
      && (|conn.own| == |conn.bytes| <==> !Strayed(Unwired(codec, s), xs, c))
      && (conn.own == conn.bytes <==> !Strayed(Unwired(codec, s), xs, c))
  {
    var front, x := xs[..|xs| - 1], xs[|xs| - 1];
    var w := WireExec(Unwired(codec, s), front);
    WiresStaySane(codec, s, front);
    WiresGrow(w, x);
    if c < |w.conns| {
      BytesAreOwnIff(codec, s, front, c);
      BytesStep(w, x, c);
    } else {
      StrayedNeedsConnection(Unwired(codec, s), front, c);
    }
  }

  // ---- what its own observer writes ----

  /** The presses that observer `id` has been told of, as messages. */
  function ToldPresses(w: Wires, id: int): seq<EventMsg> {
    PressMessages(w.s.names, Told(w.s.log.calls, id))
  }

  function GaveUp(w: Wires, id: int): bool
    requires 0 <= id < |w.homes| && w.homes[id].conn < |w.conns|
  {
    id in w.latched || !w.conns[w.homes[id].conn].open
  }

  /** After what was written before, the connection's own bytes are whole frames of the first presses that its
      observer was told of: of all of them, unless the observer has given up or the connection is closed, and
      only then part of the next. */
  ghost predicate Streams(w: Wires, id: int) {
    && 0 <= id < |w.homes| && w.homes[id].conn < |w.conns|
    && var h := w.homes[id];
    var own := w.conns[h.conn].own;
    h.base <= own && WellFramed(w.codec, own[|h.base|..], ToldPresses(w, id), h.whole, GaveUp(w, id))
  }

  /** Does x call observer `id` for a press? */
  predicate CallsFor(w: Wires, x: Wired, id: int) {
    x.CallNext? && Calls(w.s) && w.s.mux.left[0] == id && IsPress(w.s.mux.ev)
  }

  lemma DueStep(w: Wires, x: Wired, id: int)
    requires WireEnabled(w, x)
    ensures ToldPresses(WireNext(w, x), id) == ToldPresses(w, id) +
      if CallsFor(w, x, id) && !Kills(w, x) then [MessageOf(w.s.names, What(w.s))] else []
  {
    MovedIs(w, x);
    StepsEnabled(w, x);
    assert ToldPresses(w, id) + [] == ToldPresses(w, id) && w.s.log.calls + [] == w.s.log.calls;
    if x.CallNext? && !Kills(w, x) {
      var told := Told(w.s.log.calls, id);
      ToldSnoc(w.s.log.calls, Call(w.s.mux.left[0], What(w.s)), id);
      if w.s.mux.left[0] == id { PressMessagesSnoc(w.s.names, told, What(w.s)); } else { assert told + [] == told; }
    }
  }

  /** The state of an observer that is not being called for a press: at most its connection closes. */
  lemma OthersLeaveStream(w: Wires, x: Wired, id: int)
    requires Sane(w) && WireEnabled(w, x) && 0 <= id < |w.homes|
    requires !CallsFor(w, x, id) || Kills(w, x)
    ensures var t := WireNext(w, x);
      var c := w.homes[id].conn;
      && t.homes[id] == w.homes[id] && t.conns[c].own == w.conns[c].own
      && (id in t.latched <==> id in w.latched) && (t.conns[c].open ==> w.conns[c].open)
  {
    var c := w.homes[id].conn;
    assert HasHome(w, id, c);
  }

  /** A press for which the observer writes nothing: it has given up, and stays so. */
  lemma NothingWritten(w: Wires, x: Wired, id: int)
    requires Sane(w) && WireEnabled(w, x) && 0 <= id < |w.homes| && CallsFor(w, x, id) && !Kills(w, x)
    requires !Writes(w) || Target(w) != Some(w.homes[id].conn)
    ensures var t := WireNext(w, x);
      var c := w.homes[id].conn;
      && t.homes[id] == w.homes[id] && t.conns[c].own == w.conns[c].own
      && GaveUp(w, id) && GaveUp(t, id)
  {
    var c := w.homes[id].conn;
    if Writes(w) { HolderIs(w, w.conns[c].fd, c); }
  }

  lemma FrameWritten(w: Wires, x: Wired, id: int)
    requires Sane(w) && WireEnabled(w, x) && 0 <= id < |w.homes| && CallsFor(w, x, id) && !Kills(w, x)
    requires Writes(w) && Target(w) == Some(w.homes[id].conn)
    ensures var t := WireNext(w, x);
      var h := w.homes[id];
      && !GaveUp(w, id) && GaveUp(t, id) == x.cut.Some?
      && t.homes[id] == h.(whole := if x.cut.None? then h.whole + 1 else h.whole)
      && t.conns[h.conn].own == w.conns[h.conn].own + Piece(w, x.cut)
  {
  }

  /** The parts of Streams, one by one. */
  lemma StreamsIs(w: Wires, id: int, own: string, due: seq<EventMsg>, whole: nat, gaveUp: bool)
    requires 0 <= id < |w.homes| && w.homes[id].conn < |w.conns|
    requires own == w.conns[w.homes[id].conn].own && w.homes[id].base <= own
    requires due == ToldPresses(w, id) && whole == w.homes[id].whole && (gaveUp ==> GaveUp(w, id))
    requires WellFramed(w.codec, own[|w.homes[id].base|..], due, whole, gaveUp)
    ensures Streams(w, id)
  {
  }

  lemma StreamsOn(w: Wires, x: Wired, id: int)
    requires Sane(w) && WireEnabled(w, x) && 0 <= id < |w.homes| && Streams(w, id)
    requires !CallsFor(w, x, id) || Kills(w, x)
    ensures Streams(WireNext(w, x), id)
  {
    var t, h := WireNext(w, x), w.homes[id];
    ConnectionsStayKnown(w, x);
    WiresGrow(w, x);
    StepsEnabled(w, x);
    DueStep(w, x, id);
    OthersLeaveStream(w, x, id);
    assert ToldPresses(w, id) + [] == ToldPresses(w, id);
    StreamsIs(t, id, w.conns[h.conn].own, ToldPresses(w, id), h.whole, GaveUp(w, id));
  }

  lemma StreamsStep(w: Wires, x: Wired, id: int)
    requires Sane(w) && WireEnabled(w, x) && 0 <= id < |w.homes| && Streams(w, id)
    ensures Streams(WireNext(w, x), id)
  {
    var t, h := WireNext(w, x), w.homes[id];
    ConnectionsStayKnown(w, x);
    WiresGrow(w, x);
    StepsEnabled(w, x);
    if !CallsFor(w, x, id) || Kills(w, x) {
      StreamsOn(w, x, id);
    } else {
      DueStep(w, x, id);
      var m := MessageOf(w.s.names, What(w.s));
      if !Writes(w) || Target(w) != Some(h.conn) {
        NothingWritten(w, x, id);
        WellFramedLatched(w.codec, w.conns[h.conn].own[|h.base|..], ToldPresses(w, id), h.whole, m);
        StreamsIs(t, id, w.conns[h.conn].own, ToldPresses(w, id) + [m], h.whole, true);
      } else {
        FrameWritten(w, x, id);
        OneMore(w.codec, h.base, w.conns[h.conn].own, t.conns[h.conn].own, ToldPresses(w, id), m, x.cut.None?);
        StreamsIs(t, id, t.conns[h.conn].own, ToldPresses(w, id) + [m], t.homes[id].whole, x.cut.Some?);
      }
    }
  }

  lemma {:induction false} NobodyTold(calls: seq<Call>, id: int)
    requires forall call :: call in calls ==> call.id != id
    ensures Told(calls, id) == []
  {
    if calls != [] {
      assert calls[|calls| - 1] in calls && forall call :: call in calls[..|calls| - 1] ==> call in calls;
      NobodyTold(calls[..|calls| - 1], id);
    }
  }

  lemma StreamBegins(w: Wires, c: nat)
    requires Sane(w) && WireEnabled(w, Subscribe(c))
    ensures Streams(WireNext(w, Subscribe(c)), |w.homes|)
  {
    var t := WireNext(w, Subscribe(c));
    ConnectionsStayKnown(w, Subscribe(c));
    WiresGrow(w, Subscribe(c));
    DueStep(w, Subscribe(c), |w.homes|);
    NobodyTold(w.s.log.calls, |w.homes|);
    assert t.homes[|w.homes|] == Home(c, w.conns[c].own, 0);
    assert w.conns[c].own[|w.conns[c].own|..] == "";
  }

  lemma StreamsAfter(w: Wires, x: Wired, id: int)
    requires Sane(w) && WireEnabled(w, x) && 0 <= id < |WireNext(w, x).homes|
    requires id < |w.homes| ==> Streams(w, id)
    ensures Streams(WireNext(w, x), id)
  {
    WiresGrow(w, x);
    if id < |w.homes| { StreamsStep(w, x, id); } else { StreamBegins(w, x.conn); }
  }

  ghost predicate AllStream(w: Wires) {
    forall id :: 0 <= id < |w.homes| ==> Streams(w, id)
  }

  /** In every reachable state every observer's own stream is as it should be. */
  lemma {:induction false} OwnStreamIsFramed(codec: Codec, s: State, xs: seq<Wired>)
    requires Initial(s) && WireFeasible(Unwired(codec, s), xs)
    ensures AllStream(WireExec(Unwired(codec, s), xs))
  {
    if xs != [] {
      var front, x := xs[..|xs| - 1], xs[|xs| - 1];
      WiresStaySane(codec, s, front);
      OwnStreamIsFramed(codec, s, front);
      var w := WireExec(Unwired(codec, s), front);
      forall id | 0 <= id < |WireNext(w, x).homes| ensures Streams(WireNext(w, x), id) {
        StreamsAfter(w, x, id);
      }
    }
  }

  // ---- closing in time ----

  /** Does x close a connection whose observer is still to be called? */
  ghost predicate ClosesTooSoon(w: Wires, x: Wired) {
    x.Close? && exists id :: id in Pending(w.s.mux) && HasHome(w, id, x.conn)
  }

  ghost predicate Patient(w: Wires, xs: seq<Wired>)
    requires WireFeasible(w, xs)
  {
    xs == [] ||
    (Patient(w, xs[..|xs| - 1]) && !ClosesTooSoon(WireExec(w, xs[..|xs| - 1]), xs[|xs| - 1]))
  }

  /** Every observer still to be called has its connection open. */
  ghost predicate NothingStale(w: Wires) {
    forall id, c: nat :: id in Pending(w.s.mux) && HasHome(w, id, c) ==> w.conns[c].open
  }

  lemma StaleStep(w: Wires, x: Wired)
    requires Sane(w) && NothingStale(w) && WireEnabled(w, x)
    ensures NothingStale(WireNext(w, x)) <==> !ClosesTooSoon(w, x)
  {
    var t := WireNext(w, x);
    MovedIs(w, x);
    WiresGrow(w, x);
    StepsEnabled(w, x);
    if ClosesTooSoon(w, x) {
      var id :| id in Pending(w.s.mux) && HasHome(w, id, x.conn);
      assert id in Pending(t.s.mux) && HasHome(t, id, x.conn) && !t.conns[x.conn].open;
    } else {
      forall id, c: nat | id in Pending(t.s.mux) && HasHome(t, id, c) ensures t.conns[c].open {
        assert id in Pending(w.s.mux) || id in w.s.observers;
        assert HasHome(w, id, c);
      }
    }
  }

  /** If no connection is closed while its observer is still to be called, every connection gets just the bytes
      that its own session and its own observer write. */
  lemma {:induction false} PatientClosingIsExact(codec: Codec, s: State, xs: seq<Wired>, c: nat)
    requires Initial(s) && WireFeasible(Unwired(codec, s), xs) && Patient(Unwired(codec, s), xs)
    ensures NothingStale(WireExec(Unwired(codec, s), xs)) && !Strayed(Unwired(codec, s), xs, c)
  {
    if xs != [] {
      var front, x := xs[..|xs| - 1], xs[|xs| - 1];
      var w := WireExec(Unwired(codec, s), front);
      WiresStaySane(codec, s, front);
      PatientClosingIsExact(codec, s, front, c);
      StaleStep(w, x);
      if StraysNow(w, c) {
        var id := w.s.mux.left[0];
        assert id in Pending(w.s.mux) && HasHome(w, id, w.homes[id].conn);
      }
    }
  }

  // ---- what ends the process ----

  /** The guard of a write that raises the signal: of a reply to a client who has hung up, or of a press, by an
      observer that has not given up, to an open connection with its number whose client has hung up. */
  ghost predicate HangUpKills(w: Wires, x: Wired) {
    match x
    case Reply(c, _) => c < |w.conns| && w.conns[c].hungUp
    case CallNext(_) =>
      Writes(w) && exists c: nat :: Holds(w, w.conns[w.homes[w.s.mux.left[0]].conn].fd, c) && w.conns[c].hungUp
    case _ => false
  }

  ghost predicate Ends(w: Wires, x: Wired) {
    || HangUpKills(w, x)
    || x == Step(Outside(IllTypedLine))
    || (x.Step? && Loads(x.a) && !Harmless(w.s.names, w.s.disk))
  }

  lemma KillsIff(w: Wires, x: Wired)
    requires Sane(w)
    ensures Kills(w, x) <==> HangUpKills(w, x)
  {
    if x.CallNext? && Writes(w) {
      var fd := w.conns[w.homes[w.s.mux.left[0]].conn].fd;
      if c: nat :| Holds(w, fd, c) && w.conns[c].hungUp { HolderIs(w, fd, c); }
    }
  }

  lemma EndStep(w: Wires, x: Wired)
    requires Sane(w) && WireEnabled(w, x)
    ensures WireNext(w, x).s.aborted <==> Ends(w, x)
  {
    KillsIff(w, x);
    StepsEnabled(w, x);
    if StepsOf(w, x) != [] { AbortStep(w.s, StepsOf(w, x)[0]); }
  }

  ghost predicate Ended(w: Wires, xs: seq<Wired>)
    requires WireFeasible(w, xs)
  {
    xs != [] && (Ended(w, xs[..|xs| - 1]) || Ends(WireExec(w, xs[..|xs| - 1]), xs[|xs| - 1]))
  }

  /** A run ends the process if and only if, somewhere in it, a reply or a press is written to a client who has
      hung up, a client sends an ill-typed line, or a reload meets a file that is not harmless. */
  lemma {:induction false} ProcessEndsIff(codec: Codec, s: State, xs: seq<Wired>)
    requires Initial(s) && WireFeasible(Unwired(codec, s), xs)
    ensures WireExec(Unwired(codec, s), xs).s.aborted <==> Ended(Unwired(codec, s), xs)
  {
    if xs != [] {
      var front, x := xs[..|xs| - 1], xs[|xs| - 1];
      WiresStaySane(codec, s, front);
      ProcessEndsIff(codec, s, front);
      EndStep(WireExec(Unwired(codec, s), front), x);
    }
  }
}
