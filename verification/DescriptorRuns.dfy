// Runs on which the writes to a connection go wrong, from any state in which the daemon may begin.
module DescriptorRuns {
  import opened Common
  import opened EventPipeline
  import opened Framing
  import opened Descriptors
  import opened DescriptorProperties

  const PRESS := GotKey(1, EV_KEY_PRESS, 0)

  /** A client subscribes, a press is read, and notify is about to call the client's observer. */
  const PRESS_RUN: seq<Wired> := [
    Accept(7), Subscribe(0),
    Step(Device(0, Test)), Step(Device(0, Read(PRESS))), Step(Device(0, Push)),
    Step(Mux(Check)), Step(Mux(ExchangeReload)), Step(Mux(Pop)), Step(Mux(LookUp)), Step(Mux(CopyObservers))]

  predicate MayBegin(s: State) {
    s.running && !s.reload && |s.readers| > 0
  }

  /** One client is subscribed, under the number 7, and nothing was written to it yet. */
  predicate OneClient(w: Wires) {
    && !w.s.aborted && MayBegin(w.s) && w.s.observers == [0]
    && w.conns == [Conn(7, true, false, "", "")] && w.homes == [Home(0, "", 0)] && w.latched == {}
  }

  ghost predicate AboutToCall(w: Wires) {
    OneClient(w) && Calls(w.s) && w.s.mux.left == [0] && IsPress(w.s.mux.ev) && w.s.log.calls == []
  }

  // ---- to the call ----

  lemma ClientSubscribes(codec: Codec, s: State)
    requires Initial(s) && MayBegin(s)
    ensures var w0 := Unwired(codec, s);
      && WireEnabled(w0, Accept(7)) && WireEnabled(WireNext(w0, Accept(7)), Subscribe(0))
      && var w := WireNext(WireNext(w0, Accept(7)), Subscribe(0));
         && OneClient(w) && w.s.mux == AtCheck && w.s.queue == [] && w.s.log.calls == []
         && w.s.readers == s.readers
  {
  }

  lemma ReaderReads(s: State)
    requires MayBegin(s) && !s.aborted && s.readers[0].active && s.readers[0].pc == Checking
    ensures Enabled(s, Device(0, Test))
    ensures var t := ReaderNext(s, 0, Test);
      && MayBegin(t) && t.readers[0].pc == Reading && t.queue == s.queue && t.mux == s.mux
  {
  }

  lemma ReaderGets(s: State)
    requires MayBegin(s) && !s.aborted && s.readers[0].pc == Reading
    ensures Enabled(s, Device(0, Read(PRESS)))
    ensures var t := ReaderNext(s, 0, Read(PRESS));
      && MayBegin(t) && t.readers[0].pc.Pushing? && IsPress(t.readers[0].pc.ev) && t.queue == s.queue && t.mux == s.mux
  {
  }

  lemma ReaderPushes(s: State)
    requires MayBegin(s) && !s.aborted && s.readers[0].pc.Pushing? && s.queue == []
    ensures Enabled(s, Device(0, Push))
    ensures var t := ReaderNext(s, 0, Push);
      MayBegin(t) && t.queue == [s.readers[0].pc.ev] && t.mux == s.mux
  {
  }

  lemma DaemonStep(w: Wires, a: Action)
    requires OneClient(w) && Enabled(w.s, a) && !ByConnection(w.s, a) && MayBegin(Next(w.s, a))
    requires a.Device? || (a.Mux? && a.m != LoadConfig)
    ensures WireEnabled(w, Step(a)) && WireNext(w, Step(a)) == w.(s := Next(w.s, a))
    ensures OneClient(WireNext(w, Step(a))) && Next(w.s, a).log.calls == w.s.log.calls
  {
    OtherSteps(w.s, a);
    match a
    case Mux(m) => MuxFrame(w.s, m);
    case Device(r, d) => ReaderFrame(w.s, r, d);
  }

  /** From state to state, as PRESS_RUN has it. */
  ghost predicate Leads(w: Wires, xs: seq<Wired>, t: Wires) {
    WireFeasible(w, xs) && WireExec(w, xs) == t
  }

  lemma LeadsOn(w: Wires, xs: seq<Wired>, t: Wires, x: Wired)
    requires Leads(w, xs, t) && WireEnabled(t, x)
    ensures Leads(w, xs + [x], WireNext(t, x))
  {
    WireSnoc(w, xs, x);
  }

  /** One more step of PRESS_RUN. */
  lemma NextOfRun(w: Wires, k: nat, t: Wires)
    requires k < |PRESS_RUN| && Leads(w, PRESS_RUN[..k], t) && WireEnabled(t, PRESS_RUN[k])
    ensures Leads(w, PRESS_RUN[..k + 1], WireNext(t, PRESS_RUN[k]))
  {
    LeadsOn(w, PRESS_RUN[..k], t, PRESS_RUN[k]);
    assert PRESS_RUN[..k + 1] == PRESS_RUN[..k] + [PRESS_RUN[k]];
  }

  lemma DaemonsNext(w: Wires, k: nat, t: Wires, a: Action)
    requires k < |PRESS_RUN| && Leads(w, PRESS_RUN[..k], t) && PRESS_RUN[k] == Step(a)
    requires OneClient(t) && Enabled(t.s, a) && !ByConnection(t.s, a) && MayBegin(Next(t.s, a))
    requires a.Device? || (a.Mux? && a.m != LoadConfig)
    ensures var u := t.(s := Next(t.s, a));
      Leads(w, PRESS_RUN[..k + 1], u) && OneClient(u) && u.s.log.calls == t.s.log.calls
  {
    DaemonStep(t, a);
    NextOfRun(w, k, t);
  }

  lemma ToTheSubscription(codec: Codec, s: State) returns (w: Wires)
    requires Initial(s) && MayBegin(s)
    ensures Leads(Unwired(codec, s), PRESS_RUN[..2], w) && OneClient(w) && w.s.mux == AtCheck && w.s.log.calls == []
    ensures w.s.queue == [] && w.s.readers[0].active && w.s.readers[0].pc == Checking
  {
    var w0 := Unwired(codec, s);
    ClientSubscribes(codec, s);
    assert Leads(w0, PRESS_RUN[..0], w0);
    NextOfRun(w0, 0, w0);
    NextOfRun(w0, 1, WireNext(w0, Accept(7)));
    w := WireNext(WireNext(w0, Accept(7)), Subscribe(0));
  }

  lemma ToTheTest(codec: Codec, s: State) returns (w: Wires)
    requires Initial(s) && MayBegin(s)
    ensures Leads(Unwired(codec, s), PRESS_RUN[..3], w) && OneClient(w) && w.s.mux == AtCheck && w.s.log.calls == []
    ensures w.s.queue == [] && w.s.readers[0].pc == Reading
  {
    w := ToTheSubscription(codec, s);
    ReaderReads(w.s);
    DaemonsNext(Unwired(codec, s), 2, w, Device(0, Test));
    w := w.(s := ReaderNext(w.s, 0, Test));
  }

  lemma ToTheRead(codec: Codec, s: State) returns (w: Wires)
    requires Initial(s) && MayBegin(s)
    ensures Leads(Unwired(codec, s), PRESS_RUN[..4], w) && OneClient(w) && w.s.mux == AtCheck && w.s.log.calls == []
    ensures w.s.queue == [] && w.s.readers[0].pc.Pushing? && IsPress(w.s.readers[0].pc.ev)
  {
    w := ToTheTest(codec, s);
    ReaderGets(w.s);
    DaemonsNext(Unwired(codec, s), 3, w, Device(0, Read(PRESS)));
    w := w.(s := ReaderNext(w.s, 0, Read(PRESS)));
  }

  lemma ToThePush(codec: Codec, s: State) returns (w: Wires)
    requires Initial(s) && MayBegin(s)
    ensures Leads(Unwired(codec, s), PRESS_RUN[..5], w) && OneClient(w) && w.s.mux == AtCheck && w.s.log.calls == []
    ensures |w.s.queue| == 1 && IsPress(w.s.queue[0])
  {
    w := ToTheRead(codec, s);
    ReaderPushes(w.s);
    DaemonsNext(Unwired(codec, s), 4, w, Device(0, Push));
    w := w.(s := ReaderNext(w.s, 0, Push));
  }

  /** What the multiplexer goes through from its test to the call of one observer. */
  lemma MuxTests(s: State)
    requires MayBegin(s) && s.mux == AtCheck
    ensures var t := MuxNext(s, Check);
      t.mux == AtExchange && MayBegin(t) && t.queue == s.queue
  {
  }

  lemma MuxExchanges(s: State)
    requires MayBegin(s) && s.mux == AtExchange
    ensures var t := MuxNext(s, ExchangeReload);
      t.mux == AtPop && MayBegin(t) && t.queue == s.queue
  {
  }

  lemma MuxPops(s: State)
    requires MayBegin(s) && s.mux == AtPop && s.queue != []
    ensures var t := MuxNext(s, Pop);
      t.mux == InHand(s.queue[0]) && MayBegin(t)
  {
  }

  lemma MuxLooksUp(s: State)
    requires MayBegin(s) && s.mux.InHand?
    ensures var t := MuxNext(s, LookUp);
      t.mux.AtNotify? && t.mux.ev == s.mux.ev && MayBegin(t)
  {
  }

  lemma MuxCopies(s: State)
    requires MayBegin(s) && s.mux.AtNotify?
    ensures var t := MuxNext(s, CopyObservers);
      t.mux == Calling(s.mux.ev, s.mux.cmd, s.observers) && MayBegin(t)
  {
  }

  lemma ToTheExchange(codec: Codec, s: State) returns (w: Wires)
    requires Initial(s) && MayBegin(s)
    ensures Leads(Unwired(codec, s), PRESS_RUN[..6], w) && OneClient(w) && w.s.mux == AtExchange && w.s.log.calls == []
    ensures |w.s.queue| == 1 && IsPress(w.s.queue[0])
  {
    w := ToThePush(codec, s);
    MuxTests(w.s);
    DaemonsNext(Unwired(codec, s), 5, w, Mux(Check));
    w := w.(s := MuxNext(w.s, Check));
  }

  lemma ToThePop(codec: Codec, s: State) returns (w: Wires)
    requires Initial(s) && MayBegin(s)
    ensures Leads(Unwired(codec, s), PRESS_RUN[..7], w) && OneClient(w) && w.s.mux == AtPop && w.s.log.calls == []
    ensures |w.s.queue| == 1 && IsPress(w.s.queue[0])
  {
    w := ToTheExchange(codec, s);
    MuxExchanges(w.s);
    DaemonsNext(Unwired(codec, s), 6, w, Mux(ExchangeReload));
    w := w.(s := MuxNext(w.s, ExchangeReload));
  }

  lemma ToTheEvent(codec: Codec, s: State) returns (w: Wires)
    requires Initial(s) && MayBegin(s)
    ensures Leads(Unwired(codec, s), PRESS_RUN[..8], w) && OneClient(w) && w.s.log.calls == []
    ensures w.s.mux.InHand? && IsPress(w.s.mux.ev)
  {
    w := ToThePop(codec, s);
    MuxPops(w.s);
    DaemonsNext(Unwired(codec, s), 7, w, Mux(Pop));
    w := w.(s := MuxNext(w.s, Pop));
  }

  lemma ToTheNotify(codec: Codec, s: State) returns (w: Wires)
    requires Initial(s) && MayBegin(s)
    ensures Leads(Unwired(codec, s), PRESS_RUN[..9], w) && OneClient(w) && w.s.log.calls == []
    ensures w.s.mux.AtNotify? && IsPress(w.s.mux.ev)
  {
    w := ToTheEvent(codec, s);
    MuxLooksUp(w.s);
    DaemonsNext(Unwired(codec, s), 8, w, Mux(LookUp));
    w := w.(s := MuxNext(w.s, LookUp));
  }

  lemma ToTheCall(codec: Codec, s: State) returns (w: Wires)
    requires Initial(s) && MayBegin(s)
    ensures Leads(Unwired(codec, s), PRESS_RUN, w) && AboutToCall(w)
  {
    w := ToTheNotify(codec, s);
    MuxCopies(w.s);
    DaemonsNext(Unwired(codec, s), 9, w, Mux(CopyObservers));
    w := w.(s := MuxNext(w.s, CopyObservers));
    assert PRESS_RUN[..10] == PRESS_RUN;
  }

  // ---- what can come then ----

  /** The client hangs up and its session ends before the call. */
  lemma TheSessionEnds(w: Wires)
    requires AboutToCall(w)
    ensures var w1 := WireNext(w, HangUp(0));
      && WireEnabled(w, HangUp(0)) && WireEnabled(w1, Unsubscribe(0))
      && var w2 := WireNext(w1, Unsubscribe(0));
         && WireEnabled(w2, Close(0))
         && var w3 := WireNext(w2, Close(0));
            && !w3.s.aborted && Calls(w3.s) && w3.s.mux == w.s.mux && w3.latched == {}
            && w3.conns == [Conn(7, false, true, "", "")] && w3.homes == [Home(0, "", 0)]
  {
    assert Without([0], 0) == [];
    assert HasHome(w, 0, 0);
  }

  /** The next client is given its number. */
  lemma TheStranger(w: Wires)
    requires !w.s.aborted && Calls(w.s) && w.s.mux.left == [0] && IsPress(w.s.mux.ev) && w.latched == {}
    requires w.conns == [Conn(7, false, true, "", "")] && w.homes == [Home(0, "", 0)]
    ensures var t := WireNext(w, Accept(7));
      && WireEnabled(w, Accept(7)) && WireEnabled(t, CallNext(None)) && StraysNow(t, 1)
      && |t.conns| == 2 && |t.homes| == 1 && t.homes[0].conn == 0
  {
  }

  const STRAY_RUN: seq<Wired> := PRESS_RUN + [HangUp(0), Unsubscribe(0), Close(0), Accept(7), CallNext(None)]

  /** A connection whose client asked for nothing is sent another's press. */
  lemma ACallGoesAstray(codec: Codec, s: State)
    requires Initial(s) && MayBegin(s)
    ensures var w0 := Unwired(codec, s);
      && WireFeasible(w0, STRAY_RUN) && Strayed(w0, STRAY_RUN, 1)
      && var w := WireExec(w0, STRAY_RUN);
         |w.conns| == 2 && !Subscribed(w, 1) && w.conns[1].bytes != w.conns[1].own
  {
    var w0 := Unwired(codec, s);
    var w := ToTheCall(codec, s);
    TheSessionEnds(w);
    LeadsOn(w0, PRESS_RUN, w, HangUp(0));
    var w1 := WireNext(w, HangUp(0));
    LeadsOn(w0, PRESS_RUN + [HangUp(0)], w1, Unsubscribe(0));
    var w2 := WireNext(w1, Unsubscribe(0));
    LeadsOn(w0, PRESS_RUN + [HangUp(0)] + [Unsubscribe(0)], w2, Close(0));
    ItIsSentToTheStranger(codec, s, WireNext(w2, Close(0)));
  }

  lemma StrayRunIs()
    ensures STRAY_RUN ==
      PRESS_RUN + [HangUp(0)] + [Unsubscribe(0)] + [Close(0)] + [Accept(7)] + [CallNext(None)]
  {
  }

  lemma ItIsSentToTheStranger(codec: Codec, s: State, w: Wires)
    requires Initial(s)
    requires Leads(Unwired(codec, s), PRESS_RUN + [HangUp(0)] + [Unsubscribe(0)] + [Close(0)], w)
    requires !w.s.aborted && Calls(w.s) && w.s.mux.left == [0] && IsPress(w.s.mux.ev) && w.latched == {}
    requires w.conns == [Conn(7, false, true, "", "")] && w.homes == [Home(0, "", 0)]
    ensures var w0 := Unwired(codec, s);
      && WireFeasible(w0, STRAY_RUN) && Strayed(w0, STRAY_RUN, 1)
      && var t := WireExec(w0, STRAY_RUN);
         |t.conns| == 2 && !Subscribed(t, 1) && t.conns[1].bytes != t.conns[1].own
  {
    TheStranger(w);
    var before := PRESS_RUN + [HangUp(0)] + [Unsubscribe(0)] + [Close(0)];
    LeadsOn(Unwired(codec, s), before, w, Accept(7));
    StrayEnds(Unwired(codec, s), before + [Accept(7)], WireNext(w, Accept(7)));
    StrayRunIs();
    BytesAreOwnIff(codec, s, STRAY_RUN, 1);
  }

  lemma StrayEnds(w0: Wires, front: seq<Wired>, w: Wires)
    requires Leads(w0, front, w) && WireEnabled(w, CallNext(None)) && StraysNow(w, 1)
    requires |w.conns| == 2 && |w.homes| == 1 && w.homes[0].conn == 0
    ensures var xs := front + [CallNext(None)];
      && WireFeasible(w0, xs) && Strayed(w0, xs, 1)
      && |WireExec(w0, xs).conns| == 2 && !Subscribed(WireExec(w0, xs), 1)
  {
    LeadsOn(w0, front, w, CallNext(None));
    assert (front + [CallNext(None)])[..|front|] == front;
    WiresGrow(w, CallNext(None));
  }

  const HANG_UP_RUN: seq<Wired> := PRESS_RUN + [HangUp(0), CallNext(None)]

  /** A client of the event stream hangs up just before a press: the process ends. */
  lemma AHangUpEndsIt(codec: Codec, s: State)
    requires Initial(s) && MayBegin(s)
    ensures WireFeasible(Unwired(codec, s), HANG_UP_RUN) && WireExec(Unwired(codec, s), HANG_UP_RUN).s.aborted
  {
    var w0 := Unwired(codec, s);
    var w := ToTheCall(codec, s);
    LeadsOn(w0, PRESS_RUN, w, HangUp(0));
    var w1 := WireNext(w, HangUp(0));
    TheEnd(w);
    LeadsOn(w0, PRESS_RUN + [HangUp(0)], w1, CallNext(None));
    HangUpRunIs();
  }

  lemma HangUpRunIs()
    ensures HANG_UP_RUN == PRESS_RUN + [HangUp(0)] + [CallNext(None)]
  {
  }

  lemma TheEnd(w: Wires)
    requires AboutToCall(w)
    ensures var w1 := WireNext(w, HangUp(0));
      WireEnabled(w, HangUp(0)) && WireEnabled(w1, CallNext(None)) && WireNext(w1, CallNext(None)).s.aborted
  {
    var w1 := WireNext(w, HangUp(0));
    assert Holds(w1, 7, 0);
    assert Kills(w1, CallNext(None));
  }

  const CUT_RUN: seq<Wired> := PRESS_RUN + [CallNext(Some(0))]

  /** A write that a signal interrupts: the connection stays open, and the press is lost to its client. */
  lemma AFailedWriteLoses(codec: Codec, s: State)
    requires Initial(s) && MayBegin(s)
    ensures WireFeasible(Unwired(codec, s), CUT_RUN)
    ensures var w := WireExec(Unwired(codec, s), CUT_RUN);
      |w.conns| == 1 && w.conns[0].open && w.conns[0].bytes == "" && |ToldPresses(w, 0)| == 1
  {
    var w := ToTheCall(codec, s);
    assert Holds(w, 7, 0);
    assert WireEnabled(w, CallNext(Some(0)));
    LeadsOn(Unwired(codec, s), PRESS_RUN, w, CallNext(Some(0)));
    DueStep(w, CallNext(Some(0)), 0);
    assert ToldPresses(w, 0) == [];
  }
}
