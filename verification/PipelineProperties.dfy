// What every interleaving of the daemon's threads keeps.
module PipelineProperties {
  import opened Common
  import opened Json
  import opened KeyMapper
  import opened ConfigLoading
  import opened EventPipeline

  // ---- conservation and per-device order ----

  /** The events of one node, in order. */
  function Project(es: seq<InputEvent>, path: string): seq<InputEvent> {
    if es == [] then []
    else Project(es[..|es| - 1], path) + (if es[|es| - 1].devicePath == path then [es[|es| - 1]] else [])
  }

  function Events(ds: seq<Dispatch>): (es: seq<InputEvent>)
    ensures |es| == |ds|
    ensures forall k :: 0 <= k < |ds| ==> es[k] == ds[k].ev
  {
    seq(|ds|, k requires 0 <= k < |ds| => ds[k].ev)
  }

  function Hand(mux: MuxPc): seq<InputEvent> {
    if mux.InHand? then [mux.ev] else []
  }

  lemma {:induction false} ProjectAppend(xs: seq<InputEvent>, ys: seq<InputEvent>, path: string)
    ensures Project(xs + ys, path) == Project(xs, path) + Project(ys, path)
  {
    if ys == [] {
      assert xs + ys == xs;
    } else {
      ProjectAppend(xs, ys[..|ys| - 1], path);
      assert (xs + ys)[..|xs + ys| - 1] == xs + ys[..|ys| - 1];
    }
  }

  ghost predicate QueueInv(s: State) {
    s.log.pushed == Events(s.log.dispatched) + Hand(s.mux) + s.queue
  }

  lemma QueueMux(s: State, m: MuxStep)
    requires QueueInv(s) && MuxEnabled(s, m)
    ensures QueueInv(MuxNext(s, m))
  {
    if m == Pop && s.queue != [] {
      assert s.queue == [s.queue[0]] + s.queue[1..];
    } else if m == LookUp {
      assert Events(MuxNext(s, m).log.dispatched) == Events(s.log.dispatched) + [s.mux.ev];
    }
  }

  lemma QueueStep(s: State, a: Action)
    requires QueueInv(s) && Enabled(s, a)
    ensures QueueInv(Next(s, a))
  {
    match a
    case Mux(m) => QueueMux(s, m);
    case Device(r, d) => ReaderFrame(s, r, d);
    case Outside(o) => OutsideFrame(s, o);
  }

  /** What a reader got is what was pushed from its node, then what it is about to push. */
  ghost predicate Balanced(read: seq<InputEvent>, pushed: seq<InputEvent>, reader: Reader) {
    && Project(read, reader.path) == Project(pushed, reader.path) + ToPush(reader)
    && (reader.pc.Pushing? ==> reader.pc.ev.devicePath == reader.path && reader.pc.ev.deviceId == reader.id)
  }

  ghost predicate ReaderInv(s: State, r: nat)
    requires r < |s.readers|
  {
    Balanced(s.log.read, s.log.pushed, s.readers[r])
  }

  ghost predicate ReadersInv(s: State) {
    && (forall r :: 0 <= r < |s.readers| ==> ReaderInv(s, r))
    && (forall r, q :: 0 <= r < q < |s.readers| ==> s.readers[r].path != s.readers[q].path)
  }

  /** Readers keep their node and their id. */
  ghost predicate SameReaders(s: State, t: State) {
    |t.readers| == |s.readers| &&
    forall r :: 0 <= r < |s.readers| ==> t.readers[r].path == s.readers[r].path && t.readers[r].id == s.readers[r].id
  }

  /** One step of a reader: what it held and got is what it pushed and holds. */
  lemma ReaderBalance(reader: Reader, running: bool, d: ReaderStep, path: string)
    requires d.Read? ==> reader.pc.Reading?
    requires d.Test? ==> reader.pc.Checking?
    requires reader.pc.Pushing? ==> reader.pc.ev.devicePath == reader.path
    ensures ToPush(reader) + KeyRead(reader, d) == PushedBy(reader, d) + ToPush(ReaderAfter(reader, running, d))
    ensures Project(KeyRead(reader, d), path) == if path == reader.path then KeyRead(reader, d) else []
    ensures Project(PushedBy(reader, d), path) == if path == reader.path then PushedBy(reader, d) else []
  {
  }

  lemma Regroup<T>(ps: seq<T>, held: seq<T>, got: seq<T>, out: seq<T>, holds: seq<T>)
    requires held + got == out + holds
    ensures (ps + held) + got == (ps + out) + holds
  {
    assert (ps + held) + got == ps + (held + got);
    assert (ps + out) + holds == ps + (out + holds);
  }

  lemma OwnStepBalanced(read: seq<InputEvent>, pushed: seq<InputEvent>, reader: Reader, running: bool, d: ReaderStep)
    requires Balanced(read, pushed, reader)
    requires d.Read? ==> reader.pc.Reading?
    requires d.Test? ==> reader.pc.Checking?
    ensures Balanced(read + KeyRead(reader, d), pushed + PushedBy(reader, d), ReaderAfter(reader, running, d))
  {
    ReaderBalance(reader, running, d, reader.path);
    ProjectAppend(read, KeyRead(reader, d), reader.path);
    ProjectAppend(pushed, PushedBy(reader, d), reader.path);
    Regroup(Project(pushed, reader.path), ToPush(reader), KeyRead(reader, d),
            PushedBy(reader, d), ToPush(ReaderAfter(reader, running, d)));
  }

  lemma OtherStepBalanced(read: seq<InputEvent>, pushed: seq<InputEvent>, reader: Reader, other: Reader, d: ReaderStep)
    requires Balanced(read, pushed, reader) && Balanced(read, pushed, other) && reader.path != other.path
    requires d.Read? ==> reader.pc.Reading?
    ensures Balanced(read + KeyRead(reader, d), pushed + PushedBy(reader, d), other)
  {
    ProjectAppend(read, KeyRead(reader, d), other.path);
    ProjectAppend(pushed, PushedBy(reader, d), other.path);
  }

  lemma ReaderKeepsInv(s: State, r: nat, d: ReaderStep, q: nat)
    requires r < |s.readers| && ReaderEnabled(s, r, d) && q < |s.readers|
    requires ReaderInv(s, q) && ReaderInv(s, r) && (r != q ==> s.readers[r].path != s.readers[q].path)
    ensures ReaderInv(ReaderNext(s, r, d), q)
  {
    if q == r {
      OwnStepBalanced(s.log.read, s.log.pushed, s.readers[r], s.running, d);
    } else {
      OtherStepBalanced(s.log.read, s.log.pushed, s.readers[r], s.readers[q], d);
    }
  }

  lemma ReadersStep(s: State, a: Action)
    requires ReadersInv(s) && Enabled(s, a)
    ensures ReadersInv(Next(s, a)) && SameReaders(s, Next(s, a))
  {
    var t := Next(s, a);
    match a
    case Mux(m) =>
      MuxFrame(s, m);
      forall q | 0 <= q < |t.readers| ensures ReaderInv(t, q) { assert ReaderInv(s, q); }
    case Outside(o) =>
      OutsideFrame(s, o);
      forall q | 0 <= q < |t.readers| ensures ReaderInv(t, q) { assert ReaderInv(s, q); }
    case Device(r, d) =>
      assert SameReaders(s, t);
      forall q | 0 <= q < |s.readers| ensures ReaderInv(t, q) {
        assert ReaderInv(s, q) && ReaderInv(s, r);
        ReaderKeepsInv(s, r, d, q);
      }
  }

  lemma {:induction false} ReachableInv(s: State, acts: seq<Action>)
    requires Initial(s) && Feasible(s, acts)
    ensures QueueInv(Exec(s, acts)) && ReadersInv(Exec(s, acts))
    ensures SameReaders(s, Exec(s, acts))
  {
    if acts != [] {
      var front := acts[..|acts| - 1];
      ReachableInv(s, front);
      QueueStep(Exec(s, front), acts[|acts| - 1]);
      ReadersStep(Exec(s, front), acts[|acts| - 1]);
    }
  }

  /** In every reachable state the key events a reader got are, in order, those of its node already
      dispatched, then the one the multiplexer holds, then those queued, then the one it is about to
      push: nothing is lost, duplicated or reordered, across reloads too. Across devices, events are
      dispatched in the order they were pushed. */
  lemma Conservation(s: State, acts: seq<Action>, r: nat)
    requires Initial(s) && Feasible(s, acts) && r < |s.readers|
    ensures var t := Exec(s, acts);
      t.log.pushed == Events(t.log.dispatched) + Hand(t.mux) + t.queue
    ensures var t := Exec(s, acts);
      r < |t.readers| &&
      var path := t.readers[r].path;
      Project(t.log.read, path)
        == Project(Events(t.log.dispatched), path) + Project(Hand(t.mux), path)
           + Project(t.queue, path) + ToPush(t.readers[r])
  {
    ReachableInv(s, acts);
    var t := Exec(s, acts);
    var path := t.readers[r].path;
    assert ReaderInv(t, r);
    ProjectAppend(Events(t.log.dispatched) + Hand(t.mux), t.queue, path);
    ProjectAppend(Events(t.log.dispatched), Hand(t.mux), path);
  }

  // ---- the table as a flat map, folded over the run ----

  /** The flat map that a list of loaded blocks stands for. */
  ghost function Merge(devices: seq<DeviceConfig>): (f: Flat)
    ensures LastBlockWins(devices, f)
  {
    InitIsLastBlockWins(devices);
    var f :| LastBlockWins(devices, f);
    f
  }

  function DiskStep(disk: FileContent, a: Action): FileContent {
    if a.Outside? && a.o.WriteDisk? then a.o.file else disk
  }

  function DiskAfter(disk: FileContent, acts: seq<Action>): FileContent {
    if acts == [] then disk else DiskStep(DiskAfter(disk, acts[..|acts| - 1]), acts[|acts| - 1])
  }

  /** What an action does to the bindings: a successful load replaces everything, a failed one nothing,
      and runtime binds and unbinds change one pair. */
  ghost function FlatStep(names: NameTable, f: Flat, disk: FileContent, a: Action): Flat {
    match a
    case Mux(LoadConfig) => Reloaded(names, f, disk)
    case Outside(SocketReload) => Reloaded(names, f, disk)
    case Outside(SocketBind(d, k, cmd)) => Bound(f, names, d, k, cmd)
    case Outside(SocketUnbind(d, k)) => Unbound(f, names, d, k)
    case _ => f
  }

  /** The bindings in force after a run, told from its actions alone. */
  ghost function FlatAfter(names: NameTable, f: Flat, disk: FileContent, acts: seq<Action>): Flat {
    if acts == [] then f
    else
      var front := acts[..|acts| - 1];
      FlatStep(names, FlatAfter(names, f, disk, front), DiskAfter(disk, front), acts[|acts| - 1])
  }

  ghost function Reloaded(names: NameTable, f: Flat, disk: FileContent): Flat {
    if LoadOutcome(names, disk) == Loaded then Merge(LoadedBlocks(names, disk)) else f
  }

  lemma LoadIsFlat(names: NameTable, table: Table, disk: FileContent)
    requires CodesKnown(table, names)
    ensures Flatten(TableAfterLoad(names, table, disk)) == Reloaded(names, Flatten(table), disk)
    ensures CodesKnown(TableAfterLoad(names, table, disk), names)
  {
    if LoadOutcome(names, disk) == Loaded {
      var devices := LoadedBlocks(names, disk);
      InitIsLastBlockWins(devices);
      LastBlockWinsUnique(devices, Flatten(InitTable(devices)), Merge(devices));
      forall k | InTable(InitTable(devices), k) ensures k.code in names.Values {
        assert k in Flatten(InitTable(devices));
        var i :| LastBinder(devices, i, k);
        assert devices[i] in devices;
      }
    }
  }

  /** The nested table after an action. */
  function NestedStep(names: NameTable, t: Table, disk: FileContent, a: Action): Table {
    match a
    case Mux(LoadConfig) => TableAfterLoad(names, t, disk)
    case Outside(SocketReload) => TableAfterLoad(names, t, disk)
    case Outside(SocketBind(d, k, cmd)) => TableBound(t, names, d, k, cmd)
    case Outside(SocketUnbind(d, k)) => TableUnbound(t, names, d, k)
    case _ => t
  }

  lemma NestedStepIsFlat(names: NameTable, t: Table, disk: FileContent, a: Action)
    requires CodesKnown(t, names)
    ensures CodesKnown(NestedStep(names, t, disk, a), names)
    ensures Flatten(NestedStep(names, t, disk, a)) == FlatStep(names, Flatten(t), disk, a)
  {
    match a
    case Mux(LoadConfig) => LoadIsFlat(names, t, disk);
    case Outside(SocketReload) => LoadIsFlat(names, t, disk);
    case Outside(SocketBind(d, k, cmd)) => BindIsFlat(t, names, d, k, cmd);
    case Outside(SocketUnbind(d, k)) => UnbindIsFlat(t, names, d, k);
    case _ =>
  }

  lemma NextTable(s: State, a: Action)
    requires Enabled(s, a)
    ensures Next(s, a).names == s.names && Next(s, a).disk == DiskStep(s.disk, a)
    ensures Next(s, a).table == NestedStep(s.names, s.table, s.disk, a)
  {
    match a
    case Mux(m) => MuxFrame(s, m);
    case Device(r, d) => ReaderFrame(s, r, d);
    case Outside(o) => NextTableOutside(s, o);
  }

  lemma NextTableOutside(s: State, o: OutsideStep)
    ensures var t := OutsideNext(s, o);
      && t.names == s.names && t.disk == DiskStep(s.disk, Outside(o))
      && t.table == NestedStep(s.names, s.table, s.disk, Outside(o))
  {
  }

  lemma TableStep(s: State, a: Action)
    requires CodesKnown(s.table, s.names) && Enabled(s, a)
    ensures CodesKnown(Next(s, a).table, s.names) && Next(s, a).names == s.names
    ensures Next(s, a).disk == DiskStep(s.disk, a)
    ensures Flatten(Next(s, a).table) == FlatStep(s.names, Flatten(s.table), s.disk, a)
  {
    NextTable(s, a);
    NestedStepIsFlat(s.names, s.table, s.disk, a);
  }

  /** Whatever the interleaving of loads, binds and unbinds, the nested table stands for the flat map. */
  lemma {:induction false} TableRefinesFlatMap(s: State, acts: seq<Action>)
    requires Initial(s) && Feasible(s, acts)
    ensures var t := Exec(s, acts);
      && t.names == s.names
      && t.disk == DiskAfter(s.disk, acts)
      && CodesKnown(t.table, t.names)
      && Flatten(t.table) == FlatAfter(s.names, Flatten(s.table), s.disk, acts)
  {
    if acts != [] {
      var front := acts[..|acts| - 1];
      TableRefinesFlatMap(s, front);
      TableStep(Exec(s, front), acts[|acts| - 1]);
    }
  }

  // ---- the trace of executed commands ----

  function NonEmpty(cmd: string): seq<string> {
    if cmd == "" then [] else [cmd]
  }

  /** The command the multiplexer still has to run for the event it is working on. */
  function ToExecute(mux: MuxPc): seq<string> {
    match mux
    case AtNotify(_, cmd) => NonEmpty(cmd)
    case Calling(_, cmd, _) => NonEmpty(cmd)
    case AtExecute(cmd) => [cmd]
    case _ => []
  }

  /** What ought to run: for each dispatch of the run, in order, the command that the bindings in
      force at that moment give for a press, exact device first, then wildcard. */
  ghost function Due(s: State, acts: seq<Action>): seq<string>
    requires Feasible(s, acts)
  {
    if acts == [] then []
    else
      var front := acts[..|acts| - 1];
      Due(s, front) +
      (if acts[|acts| - 1] != Mux(LookUp) then []
       else
         var ev := Exec(s, front).mux.ev;
         var f := FlatAfter(s.names, Flatten(s.table), s.disk, front);
         if IsPress(ev) then NonEmpty(FlatLookup(f, ev.deviceId, ev.code).GetOr("")) else [])
  }

  /** Executed commands are exactly those due, in order, less the one not run yet. */
  lemma {:induction false} CommandTrace(s: State, acts: seq<Action>)
    requires Initial(s) && Feasible(s, acts)
    ensures Exec(s, acts).log.executed + ToExecute(Exec(s, acts).mux) == Due(s, acts)
  {
    if acts != [] {
      var front, a := acts[..|acts| - 1], acts[|acts| - 1];
      CommandTrace(s, front);
      TableRefinesFlatMap(s, front);
      ExecutionStep(Exec(s, front), a);
      if a == Mux(LookUp) { CommandIsFlat(Exec(s, front)); }
    }
  }

  /** The command found for an event, by the flat map. */
  lemma CommandIsFlat(s: State)
    requires s.mux.InHand?
    ensures var ev := s.mux.ev;
      NonEmpty(CommandFor(s.table, ev)) ==
        if IsPress(ev) then NonEmpty(FlatLookup(Flatten(s.table), ev.deviceId, ev.code).GetOr("")) else []
  {
    NestedLookupIsFlat(s.table, s.mux.ev.deviceId, s.mux.ev.code);
  }

  /** The command of a dispatch, by the table and the event's value. */
  lemma CommandForIs(t: Table, ev: InputEvent)
    ensures ev.value != 1 ==> CommandFor(t, ev) == ""
    ensures ev.value == 1 && ev.deviceId in t && ev.code in t[ev.deviceId] ==>
      CommandFor(t, ev) == t[ev.deviceId][ev.code]
    ensures ev.value == 1 && !(ev.deviceId in t && ev.code in t[ev.deviceId]) && "*" in t && ev.code in t["*"] ==>
      CommandFor(t, ev) == t["*"][ev.code]
    ensures ev.value == 1 && !(ev.deviceId in t && ev.code in t[ev.deviceId]) && !("*" in t && ev.code in t["*"]) ==>
      CommandFor(t, ev) == ""
  {
  }

  /** The commands of the dispatches that have one. */
  function CommandsOf(ds: seq<Dispatch>): seq<string> {
    if ds == [] then [] else CommandsOf(ds[..|ds| - 1]) + NonEmpty(ds[|ds| - 1].cmd)
  }

  /** Each of them is some dispatch's. */
  lemma {:induction false} CommandIsDispatched(ds: seq<Dispatch>, i: nat)
    requires i < |CommandsOf(ds)|
    ensures exists d :: d in ds && d.cmd == CommandsOf(ds)[i] && d.cmd != ""
  {
    var front, last := ds[..|ds| - 1], ds[|ds| - 1];
    assert last in ds;
    if i < |CommandsOf(front)| {
      CommandIsDispatched(front, i);
      var d :| d in front && d.cmd == CommandsOf(front)[i] && d.cmd != "";
      assert d in ds;
    }
  }

  lemma CommandsSnoc(ds: seq<Dispatch>, d: Dispatch)
    ensures CommandsOf(ds + [d]) == CommandsOf(ds) + NonEmpty(d.cmd)
  {
    assert (ds + [d])[..|ds|] == ds;
  }

  ghost predicate OnlyPressesHaveCommands(ds: seq<Dispatch>) {
    forall d :: d in ds ==> d.ev.value == 1 || d.cmd == ""
  }

  lemma DispatchedStep(s: State, a: Action)
    requires Enabled(s, a) && OnlyPressesHaveCommands(s.log.dispatched)
    ensures OnlyPressesHaveCommands(Next(s, a).log.dispatched)
    ensures CommandsOf(Next(s, a).log.dispatched) == CommandsOf(s.log.dispatched)
      + (if a == Mux(LookUp) then NonEmpty(CommandFor(s.table, s.mux.ev)) else [])
  {
    match a
    case Mux(m) =>
      if m == LookUp {
        CommandForIs(s.table, s.mux.ev);
        CommandsSnoc(s.log.dispatched, Dispatch(s.mux.ev, CommandFor(s.table, s.mux.ev)));
      } else {
        assert MuxNext(s, m).log.dispatched == s.log.dispatched;
      }
    case Device(r, d) => ReaderFrame(s, r, d);
    case Outside(o) => OutsideFrame(s, o);
  }

  /** Over every run the commands executed, and the one still to be, are those of the dispatched events that have
      one, in order; and none but events of value 1 has one. */
  lemma {:induction false} ExecutedBelongToPresses(s: State, acts: seq<Action>)
    requires Initial(s) && Feasible(s, acts)
    ensures var t := Exec(s, acts);
      && t.log.executed + ToExecute(t.mux) == CommandsOf(t.log.dispatched)
      && forall d :: d in t.log.dispatched && d.ev.value != 1 ==> d.cmd == ""
  {
    if acts != [] {
      var front, a := acts[..|acts| - 1], acts[|acts| - 1];
      ExecutedBelongToPresses(s, front);
      assert OnlyPressesHaveCommands(Exec(s, front).log.dispatched);
      ExecutionStep(Exec(s, front), a);
      DispatchedStep(Exec(s, front), a);
    }
  }

  /** Each executed command is that of a dispatched event of value 1. */
  lemma EachExecutedHasAPress(s: State, acts: seq<Action>, i: nat)
    requires Initial(s) && Feasible(s, acts) && i < |Exec(s, acts).log.executed|
    ensures var log := Exec(s, acts).log;
      exists d :: d in log.dispatched && d.ev.value == 1 && d.cmd == log.executed[i] && d.cmd != ""
  {
    ExecutedBelongToPresses(s, acts);
    var t := Exec(s, acts);
    assert (t.log.executed + ToExecute(t.mux))[i] == t.log.executed[i];
    CommandIsDispatched(t.log.dispatched, i);
    var d :| d in t.log.dispatched && d.cmd == t.log.executed[i] && d.cmd != "";
    assert d.ev.value == 1;
  }

  lemma ExecutionStep(s: State, a: Action)
    requires Enabled(s, a)
    ensures Next(s, a).log.executed + ToExecute(Next(s, a).mux)
      == s.log.executed + ToExecute(s.mux) + (if a == Mux(LookUp) then NonEmpty(CommandFor(s.table, s.mux.ev)) else [])
  {
    match a
    case Mux(m) =>
    case Device(r, d) =>
    case Outside(o) =>
  }
}
