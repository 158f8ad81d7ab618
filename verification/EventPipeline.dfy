// The daemon's threads as one transition system: per-device readers, the event queue, the
// multiplexer loop with its program counter, signals, control-socket commands and observers.
// Every critical section is one step, so a sequence of actions is one interleaving.
module EventPipeline {
  import opened Common
  import opened Json
  import opened KeyMapper
  import opened ConfigLoading

  // ---- states ----

  /** reader_fn: at the loop test, in the blocking read, holding an event to push, or gone. */
  datatype ReaderPc = Checking | Reading | Pushing(ev: InputEvent) | Exited

  datatype Reader = Reader(id: string, path: string, hwName: string, active: bool, pc: ReaderPc)

  /** What one read of the device gives. Dropped stands for a whole resynchronisation. */
  datatype ReadResult = GotKey(code: int, value: int, timestamp: nat) | GotOther | Dropped | WouldBlock | Disconnected

  /** EventMultiplexer::run, between its atomic steps. */
  datatype MuxPc =
    | AtCheck
    | AtExchange
    | AtLoad
    | AtPop
    | InHand(ev: InputEvent)
    | AtNotify(ev: InputEvent, cmd: string)
    | Calling(ev: InputEvent, cmd: string, left: seq<int>)
    | AtExecute(cmd: string)
    | Stopped

  /** An event with the command found for it, "" if none. */
  datatype Dispatch = Dispatch(ev: InputEvent, cmd: string)

  /** notify's private copy of the registered observers, in id order. */
  datatype Copy = Copy(ids: seq<int>, what: Dispatch)

  datatype Call = Call(id: int, what: Dispatch)

  /** History: what has happened so far, never consulted by the steps. */
  datatype Log = Log(
    read: seq<InputEvent>,
    pushed: seq<InputEvent>,
    dispatched: seq<Dispatch>,
    copies: seq<Copy>,
    calls: seq<Call>,
    executed: seq<string>)

  datatype State = State(
    names: NameTable,
    running: bool,
    reload: bool,
    aborted: bool,
    readers: seq<Reader>,
    queue: seq<InputEvent>,
    disk: FileContent,
    table: Table,
    mux: MuxPc,
    observers: seq<int>,
    nextId: int,
    log: Log)

  // ---- steps ----

  datatype MuxStep = Check | ExchangeReload | LoadConfig | Pop | LookUp | CopyObservers | CallObserver | Execute

  datatype ReaderStep = Test | Read(result: ReadResult) | Push | Stop

  /** Signals, edits of the configuration file, control-socket commands, observers. The last two end the
      process: nothing catches what an ill-typed command line throws, and nothing ignores the signal that a
      write to a client who has hung up raises. */
  datatype OutsideStep =
    | Sighup
    | Sigterm
    | WriteDisk(file: FileContent)
    | SocketReload
    | SocketBind(device: string, key: string, cmd: string)
    | SocketUnbind(device: string, key: string)
    | AddObserver
    | RemoveObserver(id: int)
    | IllTypedLine
    | BrokenPipe

  datatype Action = Mux(m: MuxStep) | Device(r: nat, d: ReaderStep) | Outside(o: OutsideStep)

  predicate Enabled(s: State, a: Action) {
    !s.aborted &&
    match a
    case Mux(m) => MuxEnabled(s, m)
    case Device(r, d) => r < |s.readers| && ReaderEnabled(s, r, d)
    case Outside(_) => true
  }

  function Next(s: State, a: Action): State
    requires Enabled(s, a)
  {
    match a
    case Mux(m) => MuxNext(s, m)
    case Device(r, d) => ReaderNext(s, r, d)
    case Outside(o) => OutsideNext(s, o)
  }

  predicate MuxEnabled(s: State, m: MuxStep) {
    match m
    case Check => s.mux.AtCheck?
    case ExchangeReload => s.mux.AtExchange?
    case LoadConfig => s.mux.AtLoad?
    case Pop => s.mux.AtPop?
    case LookUp => s.mux.InHand?
    case CopyObservers => s.mux.AtNotify?
    case CallObserver => s.mux.Calling?
    case Execute => s.mux.AtExecute?
  }

  function MuxNext(s: State, m: MuxStep): State
    requires MuxEnabled(s, m)
  {
    s.(mux := PcAfter(s, m),
       reload := s.reload && m != ExchangeReload,
       queue := if m == Pop && s.queue != [] then s.queue[1..] else s.queue,
       table := if m == LoadConfig then TableAfterLoad(s.names, s.table, s.disk) else s.table,
       aborted := m == LoadConfig && LoadThrows(s),
       log := s.log.(
         dispatched := s.log.dispatched
           + (if m == LookUp then [Dispatch(s.mux.ev, CommandFor(s.table, s.mux.ev))] else []),
         copies := s.log.copies
           + (if m == CopyObservers then [Copy(s.observers, Dispatch(s.mux.ev, s.mux.cmd))] else []),
         calls := s.log.calls + (if m == CallObserver then FirstCall(s.mux) else []),
         executed := s.log.executed + (if m == Execute then [s.mux.cmd] else [])))
  }

  function PcAfter(s: State, m: MuxStep): MuxPc
    requires MuxEnabled(s, m)
  {
    match m
    case Check => if s.running then AtExchange else Stopped
    case ExchangeReload => if s.reload then AtLoad else AtPop
    case LoadConfig => AtPop
    // an empty queue is a timeout
    case Pop => if s.queue == [] then AtCheck else InHand(s.queue[0])
    case LookUp => AtNotify(s.mux.ev, CommandFor(s.table, s.mux.ev))
    case CopyObservers => Calling(s.mux.ev, s.mux.cmd, s.observers)
    // with nobody left to call, notify returns
    case CallObserver =>
      if s.mux.left != [] then s.mux.(left := s.mux.left[1..])
      else if s.mux.cmd != "" then AtExecute(s.mux.cmd)
      else AtCheck
    case Execute => AtCheck
  }

  function FirstCall(mux: MuxPc): seq<Call>
    requires mux.Calling?
  {
    if mux.left == [] then [] else [Call(mux.left[0], Dispatch(mux.ev, mux.cmd))]
  }

  predicate ReaderEnabled(s: State, r: nat, d: ReaderStep)
    requires r < |s.readers|
  {
    match d
    case Test => s.readers[r].pc.Checking?
    case Read(_) => s.readers[r].pc.Reading?
    case Push => s.readers[r].pc.Pushing?
    case Stop => s.mux.Stopped? // DeviceManager::stop, after run returns
  }

  function ReaderNext(s: State, r: nat, d: ReaderStep): State
    requires r < |s.readers| && ReaderEnabled(s, r, d)
  {
    s.(readers := s.readers[r := ReaderAfter(s.readers[r], s.running, d)],
       queue := s.queue + PushedBy(s.readers[r], d),
       log := s.log.(read := s.log.read + KeyRead(s.readers[r], d),
                     pushed := s.log.pushed + PushedBy(s.readers[r], d)))
  }

  function ToPush(reader: Reader): seq<InputEvent> {
    if reader.pc.Pushing? then [reader.pc.ev] else []
  }

  function PushedBy(reader: Reader, d: ReaderStep): seq<InputEvent> {
    if d.Push? then ToPush(reader) else []
  }

  function KeyRead(reader: Reader, d: ReaderStep): seq<InputEvent> {
    if d.Read? then KeyEvent(reader.id, reader.path, d.result) else []
  }

  function KeyEvent(id: string, path: string, read: ReadResult): seq<InputEvent> {
    if read.GotKey? then [InputEvent(id, path, read.code, read.value, read.timestamp)] else []
  }

  function ReaderAfter(reader: Reader, running: bool, d: ReaderStep): Reader {
    match d
    case Test => reader.(pc := if reader.active && running then Reading else Exited)
    case Read(GotKey(_, _, _)) => reader.(pc := Pushing(KeyRead(reader, d)[0]))
    case Read(Disconnected) => reader.(pc := Exited, active := false)
    case Read(_) => reader.(pc := Checking)
    case Push => reader.(pc := Checking)
    case Stop => reader.(active := false)
  }

  function OutsideNext(s: State, o: OutsideStep): State {
    match o
    case Sighup => s.(reload := true)
    case Sigterm => s.(running := false)
    case WriteDisk(file) => s.(disk := file)
    case SocketReload => s.(table := TableAfterLoad(s.names, s.table, s.disk), aborted := LoadThrows(s))
    case SocketBind(d, k, cmd) => s.(table := TableBound(s.table, s.names, d, k, cmd))
    case SocketUnbind(d, k) => s.(table := TableUnbound(s.table, s.names, d, k))
    case AddObserver => s.(observers := s.observers + [s.nextId], nextId := s.nextId + 1)
    case RemoveObserver(id) => s.(observers := Without(s.observers, id))
    case IllTypedLine => s.(aborted := true)
    case BrokenPipe => s.(aborted := true)
  }

  /** Loading and, if that succeeds, rebuilding the table. */
  function TableAfterLoad(names: NameTable, table: Table, disk: FileContent): Table {
    if LoadOutcome(names, disk) == Loaded then InitTable(LoadedBlocks(names, disk)) else table
  }

  predicate LoadThrows(s: State) {
    LoadOutcome(s.names, s.disk) == Threw
  }

  /** Only presses are looked up; anything else is dispatched with an empty command. */
  function CommandFor(t: Table, ev: InputEvent): string {
    if IsPress(ev) then NestedLookup(t, ev.deviceId, ev.code).GetOr("") else ""
  }

  function Without(ids: seq<int>, id: int): seq<int> {
    if ids == [] then []
    else Without(ids[..|ids| - 1], id) + (if ids[|ids| - 1] == id then [] else [ids[|ids| - 1]])
  }

  ghost predicate Ascending(ids: seq<int>) {
    forall i, j :: 0 <= i < j < |ids| ==> ids[i] < ids[j]
  }

  lemma {:induction false} WithoutIs(ids: seq<int>, id: int)
    ensures |Without(ids, id)| <= |ids|
    ensures forall x :: x in Without(ids, id) <==> x in ids && x != id
    ensures Ascending(ids) ==> Ascending(Without(ids, id))
  {
    if ids != [] {
      var n := |ids| - 1;
      WithoutIs(ids[..n], id);
      assert ids == ids[..n] + [ids[n]];
      var w := Without(ids[..n], id);
      assert forall x :: x in w ==> x in ids[..n];
      forall i | 0 <= i < |w| ensures w[i] in ids[..n] { var x := w[i]; assert x in w; }
      assert Ascending(ids) ==> forall x :: x in ids[..n] ==> x < ids[n];
    }
  }

  // ---- the steps, state by state ----

  /** A reader's steps. */
  lemma ReaderStepsAre(reader: Reader, running: bool, c: int, v: int, t: nat)
    ensures ReaderAfter(reader, running, Test) == reader.(pc := if reader.active && running then Reading else Exited)
    ensures ReaderAfter(reader, running, Read(GotKey(c, v, t)))
      == reader.(pc := Pushing(InputEvent(reader.id, reader.path, c, v, t)))
    ensures forall r: ReadResult :: r.GotOther? || r.Dropped? || r.WouldBlock? ==>
      ReaderAfter(reader, running, Read(r)) == reader.(pc := Checking)
    ensures ReaderAfter(reader, running, Read(Disconnected)) == reader.(pc := Exited, active := false)
    ensures ReaderAfter(reader, running, Push) == reader.(pc := Checking)
    ensures ReaderAfter(reader, running, Stop) == reader.(active := false)
  {
  }

  /** What a read and a push leave behind. */
  lemma ReaderEffectsAre(reader: Reader, ev: InputEvent, c: int, v: int, t: nat)
    ensures KeyRead(reader, Read(GotKey(c, v, t))) == [InputEvent(reader.id, reader.path, c, v, t)]
    ensures PushedBy(reader.(pc := Pushing(ev)), Push) == [ev]
  {
  }

  /** The multiplexer's steps. */
  lemma MuxStepsAre(s: State)
    ensures s.mux == AtCheck ==> PcAfter(s, Check) == if s.running then AtExchange else Stopped
    ensures s.mux == AtExchange ==> PcAfter(s, ExchangeReload) == if s.reload then AtLoad else AtPop
    ensures s.mux == AtLoad ==> PcAfter(s, LoadConfig) == AtPop
    ensures s.mux == AtPop ==> PcAfter(s, Pop) == if s.queue == [] then AtCheck else InHand(s.queue[0])
    ensures s.mux.InHand? ==> PcAfter(s, LookUp) == AtNotify(s.mux.ev, CommandFor(s.table, s.mux.ev))
    ensures s.mux.AtNotify? ==> PcAfter(s, CopyObservers) == Calling(s.mux.ev, s.mux.cmd, s.observers)
    ensures s.mux.Calling? && s.mux.left != [] ==>
      PcAfter(s, CallObserver) == Calling(s.mux.ev, s.mux.cmd, s.mux.left[1..])
    ensures s.mux.Calling? && s.mux.left == [] ==>
      PcAfter(s, CallObserver) == if s.mux.cmd != "" then AtExecute(s.mux.cmd) else AtCheck
    ensures s.mux.AtExecute? ==> PcAfter(s, Execute) == AtCheck
  {
  }

  // ---- what each kind of step leaves alone ----

  lemma MuxFrame(s: State, m: MuxStep)
    requires MuxEnabled(s, m)
    ensures var t := MuxNext(s, m);
      && t.names == s.names && t.running == s.running && t.readers == s.readers && t.disk == s.disk
      && t.observers == s.observers && t.nextId == s.nextId
      && t.log.read == s.log.read && t.log.pushed == s.log.pushed
      && t.table == (if m == LoadConfig then TableAfterLoad(s.names, s.table, s.disk) else s.table)
      && t.aborted == (m == LoadConfig && LoadThrows(s))
  {
  }

  lemma ReaderFrame(s: State, r: nat, d: ReaderStep)
    requires r < |s.readers| && ReaderEnabled(s, r, d)
    ensures var t := ReaderNext(s, r, d);
      t == s.(readers := t.readers, queue := t.queue, log := s.log.(read := t.log.read, pushed := t.log.pushed))
  {
  }

  lemma OutsideFrame(s: State, o: OutsideStep)
    ensures var t := OutsideNext(s, o);
      && t.names == s.names && t.readers == s.readers && t.mux == s.mux && t.queue == s.queue && t.log == s.log
  {
  }

  // ---- runs ----

  /** Each action of the run is possible when its turn comes. */
  predicate Feasible(s: State, acts: seq<Action>)
    decreases |acts|, 0
  {
    acts == [] ||
    (Feasible(s, acts[..|acts| - 1]) && Enabled(Exec(s, acts[..|acts| - 1]), acts[|acts| - 1]))
  }

  function Exec(s: State, acts: seq<Action>): State
    requires Feasible(s, acts)
    decreases |acts|, 1
  {
    if acts == [] then s else Next(Exec(s, acts[..|acts| - 1]), acts[|acts| - 1])
  }

  function Count(acts: seq<Action>, a: Action): nat {
    if acts == [] then 0
    else Count(acts[..|acts| - 1], a) + (if acts[|acts| - 1] == a then 1 else 0)
  }

  /** The daemon once its readers are started: nothing in flight, one node per reader. */
  ghost predicate Initial(s: State) {
    && s.mux == AtCheck && s.queue == [] && !s.aborted
    && s.observers == [] && s.nextId == 0
    && s.log == Log([], [], [], [], [], [])
    && CodesKnown(s.table, s.names)
    && (forall r :: 0 <= r < |s.readers| ==> s.readers[r].active && s.readers[r].pc == Checking)
    && (forall r, q :: 0 <= r < q < |s.readers| ==> s.readers[r].path != s.readers[q].path)
  }

  lemma ExecSnoc(s: State, acts: seq<Action>, a: Action)
    requires Feasible(s, acts) && Enabled(Exec(s, acts), a)
    ensures Feasible(s, acts + [a]) && Exec(s, acts + [a]) == Next(Exec(s, acts), a)
  {
    assert (acts + [a])[..|acts + [a]| - 1] == acts;
  }

  lemma ExecTwo(s: State, a: Action, b: Action)
    requires Enabled(s, a) && Enabled(Next(s, a), b)
    ensures Feasible(s, [a, b]) && Exec(s, [a, b]) == Next(Next(s, a), b)
  {
    assert [] + [a] == [a] && [a] + [b] == [a, b];
    ExecSnoc(s, [], a);
    ExecSnoc(s, [a], b);
  }

  /** The state transformer of a run is compositional. */
  lemma {:induction false} ExecAppend(s: State, xs: seq<Action>, ys: seq<Action>)
    requires Feasible(s, xs) && Feasible(Exec(s, xs), ys)
    ensures Feasible(s, xs + ys) && Exec(s, xs + ys) == Exec(Exec(s, xs), ys)
  {
    if ys == [] {
      assert xs + ys == xs;
    } else {
      var front := ys[..|ys| - 1];
      ExecAppend(s, xs, front);
      assert (xs + ys)[..|xs + ys| - 1] == xs + front;
    }
  }
}
