// Reload requests and shutdown, over every interleaving.
module PipelineControl {
  import opened EventPipeline

  // ---- reload requests ----

  /** The dispatch that can still happen before the next exchange of the reload flag. */
  function BeforeExchange(mux: MuxPc): nat {
    if mux.AtPop? || mux.InHand? then 1 else 0
  }

  /** Since a hangup with no load begun: the request is still pending, or taken and about to be loaded. */
  ghost predicate RequestKept(s: State, dispatches: nat) {
    || (s.reload && dispatches + BeforeExchange(s.mux) <= 1)
    || (s.mux.AtLoad? && dispatches <= 1)
  }

  lemma RequestKeptStep(s: State, a: Action, dispatches: nat)
    requires RequestKept(s, dispatches) && Enabled(s, a) && a != Mux(LoadConfig)
    ensures RequestKept(Next(s, a), dispatches + (if a == Mux(LookUp) then 1 else 0))
  {
    match a
    case Mux(m) =>
    case Device(r, d) => ReaderFrame(s, r, d);
    case Outside(o) => OutsideFrame(s, o);
  }

  lemma {:induction false} RequestKeptRun(s: State, acts: seq<Action>)
    requires Enabled(s, Outside(Sighup)) && Feasible(Next(s, Outside(Sighup)), acts)
    requires Mux(LoadConfig) !in acts
    ensures RequestKept(Exec(Next(s, Outside(Sighup)), acts), Count(acts, Mux(LookUp)))
  {
    if acts != [] {
      var front, a := acts[..|acts| - 1], acts[|acts| - 1];
      assert a in acts;
      RequestKeptRun(s, front);
      RequestKeptStep(Exec(Next(s, Outside(Sighup)), front), a, Count(front, Mux(LookUp)));
    }
  }

  /** Wherever in the loop a hangup lands, the flag stays set until it is exchanged, and at most one
      event is looked up before that. */
  lemma {:induction false} HangupPending(s: State, acts: seq<Action>)
    requires Enabled(s, Outside(Sighup)) && Feasible(Next(s, Outside(Sighup)), acts)
    requires Mux(ExchangeReload) !in acts
    ensures Exec(Next(s, Outside(Sighup)), acts).reload
    ensures Count(acts, Mux(LookUp)) + BeforeLookUp(Exec(Next(s, Outside(Sighup)), acts).mux) <= 1
  {
    if acts != [] {
      var front, a := acts[..|acts| - 1], acts[|acts| - 1];
      assert a in acts;
      HangupPending(s, front);
      PendingStep(Exec(Next(s, Outside(Sighup)), front), a);
    }
  }

  lemma PendingStep(s: State, a: Action)
    requires Enabled(s, a) && s.reload && a != Mux(ExchangeReload)
    ensures Next(s, a).reload
    ensures (if a == Mux(LookUp) then 1 else 0) + BeforeLookUp(Next(s, a).mux) <= BeforeLookUp(s.mux)
  {
    match a
    case Mux(m) =>
    case Device(r, d) => ReaderFrame(s, r, d);
    case Outside(o) => OutsideFrame(s, o);
  }

  function BeforeLookUp(mux: MuxPc): nat {
    if mux.AtLoad? || mux.AtPop? || mux.InHand? then 1 else 0
  }

  /** No request is lost: by the second lookup after a hangup, a load has begun after it. */
  lemma HangupIsServed(s: State, acts: seq<Action>)
    requires Enabled(s, Outside(Sighup)) && Feasible(Next(s, Outside(Sighup)), acts)
    requires Count(acts, Mux(LookUp)) >= 2
    ensures Mux(LoadConfig) in acts
  {
    if Mux(LoadConfig) !in acts { RequestKeptRun(s, acts); }
  }

  function MuxSteps(acts: seq<Action>): nat {
    if acts == [] then 0 else MuxSteps(acts[..|acts| - 1]) + (if acts[|acts| - 1].Mux? then 1 else 0)
  }

  /** At most so many steps before the load of a pending request begins, if nobody registers. */
  function StepsToLoad(mux: MuxPc, observers: nat): nat {
    match mux
    case AtPop => 7 + observers
    case InHand(_) => 6 + observers
    case AtNotify(_, _) => 5 + observers
    case Calling(_, _, left) => 4 + |left|
    case AtExecute(_) => 3
    case AtCheck => 2
    case AtExchange => 1
    case AtLoad => 0
    case Stopped => 0
  }

  lemma StepTowardsLoad(s: State, a: Action)
    requires Enabled(s, a) && a != Mux(LoadConfig) && (s.reload || s.mux.AtLoad?)
    ensures Next(s, a).reload || Next(s, a).mux.AtLoad?
    ensures StepsToLoad(Next(s, a).mux, |Next(s, a).observers|) + (if a.Mux? then 1 else 0)
      <= StepsToLoad(s.mux, |s.observers|) + (if a == Outside(AddObserver) then 1 else 0)
  {
    match a
    case Mux(m) => MuxFrame(s, m);
    case Device(r, d) => ReaderFrame(s, r, d);
    case Outside(o) =>
      OutsideFrame(s, o);
      if o.RemoveObserver? { WithoutIs(s.observers, o.id); }
  }

  /** And it is served soon: after a hangup the multiplexer takes at most seven steps, one for each observer still
      to be called or registered, and one for each registered since, before a load begins; and until then it has
      a step to take, unless it has returned or the process is gone. */
  lemma {:induction false} HangupIsServedSoon(s: State, acts: seq<Action>)
    requires Enabled(s, Outside(Sighup)) && Feasible(Next(s, Outside(Sighup)), acts)
    requires Mux(LoadConfig) !in acts
    ensures var t := Exec(Next(s, Outside(Sighup)), acts);
      && (t.reload || t.mux.AtLoad?)
      && MuxSteps(acts) + StepsToLoad(t.mux, |t.observers|)
         <= StepsToLoad(s.mux, |s.observers|) + Count(acts, Outside(AddObserver))
      && (!t.aborted && !t.mux.Stopped? ==> Enabled(t, Mux(NextMuxStep(t.mux))))
  {
    if acts != [] {
      var front, a := acts[..|acts| - 1], acts[|acts| - 1];
      assert a in acts;
      HangupIsServedSoon(s, front);
      StepTowardsLoad(Exec(Next(s, Outside(Sighup)), front), a);
    }
  }

  // ---- shutdown ----

  function DispatchesLeft(mux: MuxPc): nat {
    if mux.AtExchange? || mux.AtLoad? || mux.AtPop? || mux.InHand? then 1 else 0
  }

  function ExecutionsLeft(mux: MuxPc): nat {
    if mux.AtCheck? || mux.Stopped? then 0 else 1
  }

  function PushesLeft(reader: Reader): nat {
    if reader.pc.Reading? || reader.pc.Pushing? then 1 else 0
  }

  lemma NotRunningStep(s: State, a: Action)
    requires Enabled(s, a) && !s.running
    ensures !Next(s, a).running
  {
    match a
    case Mux(m) => MuxFrame(s, m);
    case Device(r, d) => ReaderFrame(s, r, d);
    case Outside(o) =>
  }

  lemma {:induction false} NotRunningAgain(s: State, acts: seq<Action>)
    requires Feasible(s, acts) && !s.running
    ensures !Exec(s, acts).running
  {
    if acts != [] {
      NotRunningAgain(s, acts[..|acts| - 1]);
      NotRunningStep(Exec(s, acts[..|acts| - 1]), acts[|acts| - 1]);
    }
  }

  /** Once the daemon is told to stop, at most one more event is looked up and at most one more command runs. */
  lemma {:induction false} ShutdownBoundsMux(s: State, acts: seq<Action>)
    requires Feasible(s, acts) && !s.running
    ensures Count(acts, Mux(LookUp)) + DispatchesLeft(Exec(s, acts).mux) <= DispatchesLeft(s.mux) <= 1
    ensures Count(acts, Mux(Execute)) + ExecutionsLeft(Exec(s, acts).mux) <= ExecutionsLeft(s.mux) <= 1
  {
    if acts != [] {
      var front, a := acts[..|acts| - 1], acts[|acts| - 1];
      ShutdownBoundsMux(s, front);
      NotRunningAgain(s, front);
      MuxBudgets(Exec(s, front), a);
    }
  }

  lemma MuxBudgets(s: State, a: Action)
    requires Enabled(s, a) && !s.running
    ensures (if a == Mux(LookUp) then 1 else 0) + DispatchesLeft(Next(s, a).mux) <= DispatchesLeft(s.mux)
    ensures (if a == Mux(Execute) then 1 else 0) + ExecutionsLeft(Next(s, a).mux) <= ExecutionsLeft(s.mux)
  {
    match a
    case Mux(m) =>
    case Device(r, d) => ReaderFrame(s, r, d);
    case Outside(o) => OutsideFrame(s, o);
  }

  /** ... and each reader pushes at most one more event. */
  lemma {:induction false} ShutdownBoundsReader(s: State, acts: seq<Action>, r: nat)
    requires Feasible(s, acts) && !s.running && r < |s.readers|
    ensures |Exec(s, acts).readers| == |s.readers|
    ensures Count(acts, Device(r, Push)) + PushesLeft(Exec(s, acts).readers[r]) <= PushesLeft(s.readers[r]) <= 1
  {
    if acts != [] {
      var front, a := acts[..|acts| - 1], acts[|acts| - 1];
      ShutdownBoundsReader(s, front, r);
      NotRunningAgain(s, front);
      var p := Exec(s, front);
      match a
      case Mux(m) => MuxFrame(p, m);
      case Device(q, d) =>
      case Outside(o) => OutsideFrame(p, o);
    }
  }

  /** At most so many steps are left for a multiplexer on its way out, if nobody registers. */
  function StepsLeft(mux: MuxPc, observers: nat): nat {
    match mux
    case AtExchange => 8 + observers
    case AtLoad => 7 + observers
    case AtPop => 6 + observers
    case InHand(_) => 5 + observers
    case AtNotify(_, _) => 4 + observers
    case Calling(_, _, left) => 3 + |left|
    case AtExecute(_) => 2
    case AtCheck => 1
    case Stopped => 0
  }

  function NextMuxStep(mux: MuxPc): MuxStep
    requires !mux.Stopped?
  {
    match mux
    case AtCheck => Check
    case AtExchange => ExchangeReload
    case AtLoad => LoadConfig
    case AtPop => Pop
    case InHand(_) => LookUp
    case AtNotify(_, _) => CopyObservers
    case Calling(_, _, _) => CallObserver
    case AtExecute(_) => Execute
  }

  lemma StoppingMuxStep(s: State, a: Action)
    requires Enabled(s, a) && !s.running
    ensures StepsLeft(Next(s, a).mux, |Next(s, a).observers|) + (if a.Mux? then 1 else 0)
      <= StepsLeft(s.mux, |s.observers|) + (if a == Outside(AddObserver) then 1 else 0)
  {
    match a
    case Mux(m) => MuxFrame(s, m);
    case Device(r, d) => ReaderFrame(s, r, d);
    case Outside(o) =>
      OutsideFrame(s, o);
      if o.RemoveObserver? { WithoutIs(s.observers, o.id); }
  }

  /** Once told to stop, the multiplexer returns: over any run it takes at most eight steps, one for each observer
      still to be called or registered at that time, and one for each registered since; and until it has
      returned, or the process is gone, it always has a step to take. */
  lemma {:induction false} StoppingMuxReturns(s: State, acts: seq<Action>)
    requires Feasible(s, acts) && !s.running
    ensures MuxSteps(acts) + StepsLeft(Exec(s, acts).mux, |Exec(s, acts).observers|)
      <= StepsLeft(s.mux, |s.observers|) + Count(acts, Outside(AddObserver))
    ensures var t := Exec(s, acts);
      !t.aborted && !t.mux.Stopped? ==> Enabled(t, Mux(NextMuxStep(t.mux)))
  {
    if acts != [] {
      var front, a := acts[..|acts| - 1], acts[|acts| - 1];
      StoppingMuxReturns(s, front);
      NotRunningAgain(s, front);
      StoppingMuxStep(Exec(s, front), a);
    }
  }

  function ReaderRank(reader: Reader): nat {
    match reader.pc
    case Reading => 3
    case Pushing(_) => 2
    case Checking => 1
    case Exited => 0
  }

  predicate Stopping(s: State, r: nat)
    requires r < |s.readers|
  {
    !s.running || !s.readers[r].active
  }

  /** An own step of reader r, other than being stopped. */
  predicate IsLoopStep(a: Action, r: nat) {
    a.Device? && a.r == r && !a.d.Stop?
  }

  function LoopSteps(acts: seq<Action>, r: nat): nat {
    if acts == [] then 0 else LoopSteps(acts[..|acts| - 1], r) + (if IsLoopStep(acts[|acts| - 1], r) then 1 else 0)
  }

  lemma StoppingReaderStep(s: State, a: Action, r: nat)
    requires Enabled(s, a) && r < |s.readers| && Stopping(s, r)
    ensures r < |Next(s, a).readers| && Stopping(Next(s, a), r)
    ensures ReaderRank(Next(s, a).readers[r]) + (if IsLoopStep(a, r) then 1 else 0) <= ReaderRank(s.readers[r])
  {
    match a
    case Mux(m) => MuxFrame(s, m);
    case Device(q, d) =>
    case Outside(o) => OutsideFrame(s, o);
  }

  /** The step a reader can take next. Devices are opened non-blocking, so a read always gives something. */
  function NextReaderStep(reader: Reader): ReaderStep
    requires !reader.pc.Exited?
  {
    match reader.pc
    case Checking => Test
    case Reading => Read(WouldBlock)
    case Pushing(_) => Push
  }

  /** Likewise a reader once the daemon stops or the reader is inactive: over any run it takes at most three
      steps of its own loop, and until it has returned, or the process is gone, it always has one to take. */
  lemma {:induction false} StoppingReaderReturns(s: State, acts: seq<Action>, r: nat)
    requires Feasible(s, acts) && r < |s.readers| && Stopping(s, r)
    ensures r < |Exec(s, acts).readers| && Stopping(Exec(s, acts), r)
    ensures LoopSteps(acts, r) + ReaderRank(Exec(s, acts).readers[r]) <= ReaderRank(s.readers[r]) <= 3
    ensures var t := Exec(s, acts);
      !t.aborted && !t.readers[r].pc.Exited? ==> Enabled(t, Device(r, NextReaderStep(t.readers[r])))
  {
    if acts != [] {
      var front, a := acts[..|acts| - 1], acts[|acts| - 1];
      StoppingReaderReturns(s, front, r);
      StoppingReaderStep(Exec(s, front), a, r);
    }
  }

  /** A reader that has gone inactive, by disconnecting or being stopped, never becomes active again,
      and one that has returned stays so. */
  lemma {:induction false} InactiveForever(s: State, acts: seq<Action>, r: nat)
    requires Feasible(s, acts) && r < |s.readers|
    ensures |Exec(s, acts).readers| == |s.readers|
    ensures !s.readers[r].active ==> !Exec(s, acts).readers[r].active
    ensures s.readers[r].pc.Exited? ==> Exec(s, acts).readers[r].pc.Exited?
  {
    if acts != [] {
      InactiveForever(s, acts[..|acts| - 1], r);
      var p, a := Exec(s, acts[..|acts| - 1]), acts[|acts| - 1];
      match a
      case Mux(m) => MuxFrame(p, m);
      case Device(q, d) =>
      case Outside(o) => OutsideFrame(p, o);
    }
  }
}
