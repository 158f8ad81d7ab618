// The objects behind the pipeline and the multiplexer's own loop, each atomic step of which is one
// step of the transition system (src/eventqueue.cpp, src/multiplexer.cpp).
module Dispatching {
  import opened Common
  import opened Json
  import opened KeyMapper
  import opened ConfigLoading
  import opened EventPipeline
  import opened PipelineReaders

  class EventQueue {
    var q: seq<InputEvent>
    var closed: bool
    ghost var pushed: seq<InputEvent>
    ghost var popped: seq<InputEvent>

    /** First in, first out, and nothing else comes or goes. */
    ghost predicate Valid()
      reads this
    {
      pushed == popped + q
    }

    constructor ()
      ensures Valid() && q == [] && pushed == [] && !closed
    {
      q, closed := [], false;
      pushed, popped := [], [];
    }

    method Push(ev: InputEvent)
      requires Valid()
      modifies this
      ensures Valid() && q == old(q) + [ev] && closed == old(closed)
      ensures pushed == old(pushed) + [ev] && popped == old(popped)
    {
      q := q + [ev];
      pushed := pushed + [ev];
    }

    /** Blocking is the scheduler's affair: a wait that ends with an empty queue is a timeout or
        a shutdown, and a shutdown still hands out what is queued. */
    method Pop() returns (r: Option<InputEvent>)
      requires Valid()
      modifies this
      ensures Valid() && pushed == old(pushed) && closed == old(closed)
      ensures old(q) == [] ==> r == None && q == [] && popped == old(popped)
      ensures old(q) != [] ==> r == Some(old(q)[0]) && q == old(q)[1..] && popped == old(popped) + [old(q)[0]]
    {
      if q == [] { return None; }
      r := Some(q[0]);
      popped := popped + [q[0]];
      q := q[1..];
    }

    method Shutdown()
      requires Valid()
      modifies this
      ensures Valid() && closed && q == old(q) && pushed == old(pushed) && popped == old(popped)
    {
      closed := true;
    }
  }

  // ---- one reader's loop ----

  class DeviceEntry {
    const id: string
    const path: string
    var active: bool

    constructor (id: string, path: string)
      ensures this.id == id && this.path == path && !active
    {
      this.id, this.path, active := id, path, false;
    }

    /** DeviceManager::reader_fn. goes[k] is what its k-th loop test finds of the flags that other threads
        change (the daemon runs, nobody has stopped this entry), results[k] what the read then gives. It
        pushes exactly the key events it reads, in order, and goes inactive exactly when the device is lost. */
    method ReaderFn(q: EventQueue, goes: seq<bool>, results: seq<ReadResult>)
      requires q.Valid() && |goes| == |results|
      modifies q, this
      ensures q.Valid() && q.popped == old(q.popped)
      ensures var n := if old(active) then ReadsMade(goes, results) else 0;
        && q.q == old(q.q) + KeyEvents(id, path, results[..n])
        && active == (old(active) && forall k :: 0 <= k < n ==> !results[k].Disconnected?)
      ensures var n := if old(active) then ReadsMade(goes, results) else 0;
        old(q.q) <= q.q && AreTheKeys(q.q[|old(q.q)|..], id, path, results[..n])
      ensures !old(active) ==> q.q == old(q.q)
      ensures forall c, v, t :: old(active) && goes == [true] && results == [GotKey(c, v, t)] ==>
        q.q == old(q.q) + [InputEvent(id, path, c, v, t)]
    {
      ghost var before, was := q.q, active;
      ghost var n := if was then ReadsMade(goes, results) else 0;
      Loop(q, goes, results, n);
      PushedAre(before, q.q, results[..n]);
      OnePushed(before, q.q, was, goes, results, n);
    }

    lemma PushedAre(before: seq<InputEvent>, after: seq<InputEvent>, results: seq<ReadResult>)
      requires after == before + KeyEvents(id, path, results)
      ensures before <= after && AreTheKeys(after[|before|..], id, path, results)
    {
      KeyEventsAreTheKeys(id, path, results);
      assert after[|before|..] == KeyEvents(id, path, results);
    }

    lemma OnePushed(before: seq<InputEvent>, after: seq<InputEvent>, was: bool, goes: seq<bool>,
                    results: seq<ReadResult>, n: nat)
      requires |goes| == |results| && n == (if was then ReadsMade(goes, results) else 0)
      requires after == before + KeyEvents(id, path, results[..n])
      ensures !was ==> after == before
      ensures forall c, v, t :: was && goes == [true] && results == [GotKey(c, v, t)] ==>
        after == before + [InputEvent(id, path, c, v, t)]
    {
      forall c, v, t | was && goes == [true] && results == [GotKey(c, v, t)]
        ensures after == before + [InputEvent(id, path, c, v, t)]
      {
        OneKey(id, path, c, v, t);
        assert results[..1] == results;
      }
    }

    /** The loop; n is where it ends, which is ReadsMade if the entry is active. */
    method Loop(q: EventQueue, goes: seq<bool>, results: seq<ReadResult>, ghost n: nat)
      requires q.Valid() && |goes| == |results| && n <= |results| && (!active ==> n == 0)
      requires forall k :: 0 <= k < n ==> goes[k]
      requires forall k :: 0 <= k < n - 1 ==> !results[k].Disconnected?
      requires active && n < |results| ==> !goes[n] || (n > 0 && results[n - 1].Disconnected?)
      modifies q, this
      ensures q.Valid() && q.popped == old(q.popped)
      ensures q.q == old(q.q) + KeyEvents(id, path, results[..n])
      ensures active == (old(active) && forall k :: 0 <= k < n ==> !results[k].Disconnected?)
    {
      var k := 0;
      while k < |results| && active && goes[k]
        invariant k <= n && (k > 0 ==> old(active))
        invariant q.Valid() && q.popped == old(q.popped) && active == old(active)
        invariant q.q == old(q.q) + KeyEvents(id, path, results[..k])
        invariant forall j :: 0 <= j < k ==> !results[j].Disconnected?
      {
        TakenUpTo(old(q.q), results, k);
        TakeRead(q, results[k]);
        k := k + 1;
        if !active { return; }
      }
    }

    /** One turn of the loop: what is read is pushed, passed over, or the end. */
    method TakeRead(q: EventQueue, read: ReadResult)
      requires q.Valid()
      modifies q, this
      ensures q.Valid() && q.popped == old(q.popped)
      ensures q.q == old(q.q) + KeyEvent(id, path, read)
      ensures active == (old(active) && !read.Disconnected?)
    {
      match read {
        case GotKey(code, value, timestamp) => q.Push(InputEvent(id, path, code, value, timestamp));
        case Disconnected => active := false;
        case _ =>
      }
    }

    lemma TakenUpTo(before: seq<InputEvent>, results: seq<ReadResult>, k: nat)
      requires k < |results|
      ensures before + KeyEvents(id, path, results[..k]) + KeyEvent(id, path, results[k])
        == before + KeyEvents(id, path, results[..k + 1])
    {
      KeyEventsSnoc(id, path, results[..k], results[k]);
      assert results[..k + 1] == results[..k] + [results[k]];
    }
  }

  /** The map of observers, as its keys in order. */
  class ObserverRegistry {
    var ids: seq<int>
    var nextId: int

    constructor ()
      ensures ids == [] && nextId == 0
    {
      ids, nextId := [], 0;
    }

    method Add() returns (id: int)
      modifies this
      ensures id == old(nextId) && nextId == old(nextId) + 1 && ids == old(ids) + [id]
    {
      id := nextId;
      nextId := nextId + 1;
      ids := ids + [id];
    }

    method Remove(id: int)
      modifies this
      ensures ids == Without(old(ids), id) && nextId == old(nextId)
      ensures forall x :: x in ids <==> x in old(ids) && x != id
      ensures Ascending(old(ids)) ==> Ascending(ids)
    {
      WithoutIs(ids, id);
      ids := Without(ids, id);
    }
  }

  class EventMultiplexer {
    const queue: EventQueue
    const mapper: Mapper
    const config: Config
    const registry: ObserverRegistry
    var running: bool
    var reload: bool
    var aborted: bool
    var disk: FileContent
    var readers: seq<Reader>
    /** What the other threads do while this one is between two of its steps. */
    var others: seq<seq<Action>>
    ghost var pc: MuxPc
    ghost var log: Log
    ghost var start: State
    ghost var acts: seq<Action>
    /** How often the loop test was made. */
    ghost var turns: nat

    ghost function Now(): State
      reads this, queue, mapper, registry
    {
      State(mapper.names, running, reload, aborted, readers, queue.q, disk, mapper.table, pc,
            registry.ids, registry.nextId, log)
    }

    /** The objects are where a run of the transition system has led. */
    ghost predicate Valid()
      reads this, queue, mapper, registry
    {
      && mapper.Valid() && queue.Valid() && config.names == mapper.names
      && Feasible(start, acts) && Exec(start, acts) == Now()
      && turns == Count(acts, Mux(Check))
    }

    constructor (names: NameTable, readers: seq<Reader>, table: Table, disk: FileContent, others: seq<seq<Action>>)
      requires CodesKnown(table, names)
      requires forall r :: 0 <= r < |readers| ==> readers[r].active && readers[r].pc == Checking
      requires forall r, q :: 0 <= r < q < |readers| ==> readers[r].path != readers[q].path
      ensures Valid() && Initial(start) && acts == [] && pc == AtCheck && !aborted
      ensures fresh(queue) && fresh(mapper) && fresh(config) && fresh(registry)
    {
      var m := new Mapper(names);
      m.table := table;
      queue := new EventQueue();
      mapper := m;
      config := new Config(names);
      registry := new ObserverRegistry();
      running, reload, aborted := true, false, false;
      this.disk, this.readers, this.others := disk, readers, others;
      pc, log, acts, turns := AtCheck, Log([], [], [], [], [], []), [], 0;
      new;
      start := Now();
    }

    ghost method Record(before: State, a: Action)
      requires mapper.Valid() && queue.Valid() && config.names == mapper.names
      requires Feasible(start, acts) && Exec(start, acts) == before
      requires Enabled(before, a) && Next(before, a) == Now()
      requires turns == Count(acts, Mux(Check)) + (if a == Mux(Check) then 1 else 0)
      modifies this`acts
      ensures Valid() && acts == old(acts) + [a]
    {
      ExecSnoc(start, acts, a);
      assert (acts + [a])[..|acts|] == acts;
      acts := acts + [a];
    }

    // ---- the loop's atomic steps ----

    method TestRunning() returns (go: bool)
      requires Valid() && !aborted && pc == AtCheck
      modifies this`pc, this`acts, this`turns
      ensures Valid() && acts == old(acts) + [Mux(Check)] && turns == old(turns) + 1
      ensures go == running && pc == if go then AtExchange else Stopped
    {
      ghost var before := Now();
      go := running;
      pc, turns := if go then AtExchange else Stopped, turns + 1;
      AfterPlain(before, Check);
      Record(before, Mux(Check));
    }

    method TakeReload() returns (taken: bool)
      requires Valid() && !aborted && pc == AtExchange
      modifies this`pc, this`acts, this`reload
      ensures Valid() && acts == old(acts) + [Mux(ExchangeReload)]
      ensures taken == old(reload) && pc == if taken then AtLoad else AtPop
    {
      ghost var before := Now();
      taken, reload := reload, false;
      pc := if taken then AtLoad else AtPop;
      AfterPlain(before, ExchangeReload);
      Record(before, Mux(ExchangeReload));
    }

    method Reload()
      requires Valid() && !aborted && pc == AtLoad
      modifies this`pc, this`acts, this`aborted, config, mapper`table
      ensures Valid() && acts == old(acts) + [Mux(LoadConfig)] && pc == AtPop
    {
      ghost var before := Now();
      var o := LoadAndInit(config, mapper, disk);
      aborted := o == Threw;
      pc := AtPop;
      AfterPlain(before, LoadConfig);
      Record(before, Mux(LoadConfig));
    }

    method PopEvent() returns (maybe: Option<InputEvent>)
      requires Valid() && !aborted && pc == AtPop
      modifies this`pc, this`acts, queue
      ensures Valid() && acts == old(acts) + [Mux(Pop)]
      ensures pc == if maybe.None? then AtCheck else InHand(maybe.value)
    {
      ghost var before := Now();
      maybe := queue.Pop();
      pc := if maybe.None? then AtCheck else InHand(maybe.value);
      AfterPlain(before, Pop);
      Record(before, Mux(Pop));
    }

    ghost predicate Bound(device: string, code: int)
      reads mapper
    {
      device in mapper.table && code in mapper.table[device]
    }

    /** Anything but a press goes on without a command. */
    method CommandOf(ev: InputEvent) returns (cmd: string)
      ensures cmd == CommandFor(mapper.table, ev)
      ensures ev.value != 1 ==> cmd == ""
      ensures ev.value == 1 && Bound(ev.deviceId, ev.code) ==> cmd == mapper.table[ev.deviceId][ev.code]
      ensures ev.value == 1 && !Bound(ev.deviceId, ev.code) && Bound("*", ev.code) ==> cmd == mapper.table["*"][ev.code]
      ensures ev.value == 1 && !Bound(ev.deviceId, ev.code) && !Bound("*", ev.code) ==> cmd == ""
    {
      if ev.value != EV_KEY_PRESS { return ""; }
      var found := mapper.Lookup(ev.deviceId, ev.code);
      return found.GetOr("");
    }

    method FindCommand(ev: InputEvent) returns (cmd: string)
      requires Valid() && !aborted && pc == InHand(ev)
      modifies this`pc, this`acts, this`log
      ensures Valid() && acts == old(acts) + [Mux(LookUp)] && pc == AtNotify(ev, cmd)
    {
      ghost var before := Now();
      cmd := CommandOf(ev);
      pc, log := AtNotify(ev, cmd), log.(dispatched := log.dispatched + [Dispatch(ev, cmd)]);
      AfterLookUp(before);
      Record(before, Mux(LookUp));
    }

    method CopyIds(ev: InputEvent, cmd: string) returns (local: seq<int>)
      requires Valid() && !aborted && pc == AtNotify(ev, cmd)
      modifies this`pc, this`acts, this`log
      ensures Valid() && acts == old(acts) + [Mux(CopyObservers)] && pc == Calling(ev, cmd, local)
    {
      ghost var before := Now();
      local := registry.ids;
      pc, log := Calling(ev, cmd, local), log.(copies := log.copies + [Copy(local, Dispatch(ev, cmd))]);
      AfterCopy(before);
      Record(before, Mux(CopyObservers));
    }

    method CallFirst(ev: InputEvent, cmd: string, left: seq<int>)
      requires Valid() && !aborted && pc == Calling(ev, cmd, left)
      modifies this`pc, this`acts, this`log
      ensures Valid() && acts == old(acts) + [Mux(CallObserver)]
      ensures pc == if left != [] then Calling(ev, cmd, left[1..]) else if cmd != "" then AtExecute(cmd) else AtCheck
    {
      ghost var before := Now();
      if left != [] {
        pc, log := Calling(ev, cmd, left[1..]), log.(calls := log.calls + [Call(left[0], Dispatch(ev, cmd))]);
      } else {
        pc := if cmd != "" then AtExecute(cmd) else AtCheck;
      }
      AfterCall(before);
      Record(before, Mux(CallObserver));
    }

    method RunCommand(cmd: string)
      requires Valid() && !aborted && pc == AtExecute(cmd)
      modifies this`pc, this`acts, this`log
      ensures Valid() && acts == old(acts) + [Mux(Execute)] && pc == AtCheck
    {
      ghost var before := Now();
      pc, log := AtCheck, log.(executed := log.executed + [cmd]);
      AfterExecute(before);
      Record(before, Mux(Execute));
    }

    // ---- the other threads ----

    method ReaderActs(r: nat, d: ReaderStep)
      requires Valid() && Enabled(Now(), Device(r, d))
      modifies this`readers, this`log, this`acts, queue
      ensures Valid() && acts == old(acts) + [Device(r, d)]
    {
      ghost var before := Now();
      var reader := readers[r];
      if d.Push? { queue.Push(reader.pc.ev); }
      readers := readers[r := ReaderAfter(reader, running, d)];
      log := log.(read := log.read + KeyRead(reader, d), pushed := log.pushed + PushedBy(reader, d));
      assert d.Push? || before.queue + PushedBy(reader, d) == before.queue;
      Record(before, Device(r, d));
    }

    method OutsideActs(o: OutsideStep)
      requires Valid() && !aborted
      modifies this`running, this`reload, this`aborted, this`disk, this`acts, mapper`table, config, registry
      ensures Valid() && acts == old(acts) + [Outside(o)]
    {
      ghost var before := Now();
      Perform(o);
      Record(before, Outside(o));
    }

    /** What it does to the objects. */
    method Perform(o: OutsideStep)
      requires mapper.Valid() && config.names == mapper.names && !aborted
      modifies this`running, this`reload, this`aborted, this`disk, mapper`table, config, registry
      ensures mapper.Valid() && Now() == OutsideNext(old(Now()), o)
    {
      match o {
        case Sighup => reload := true;
        case Sigterm => running := false;
        case WriteDisk(file) => disk := file;
        case SocketReload =>
          var outcome := LoadAndInit(config, mapper, disk);
          aborted := outcome == Threw;
        case SocketBind(d, k, cmd) => var _ := mapper.AddBinding(d, k, cmd);
        case SocketUnbind(d, k) => var _ := mapper.RemoveBinding(d, k);
        case AddObserver => var _ := registry.Add();
        case RemoveObserver(id) => registry.Remove(id);
        case IllTypedLine => aborted := true;
        case BrokenPipe => aborted := true;
      }
    }

    /** An action of another thread, if it is possible now. */
    method OtherActs(a: Action)
      requires Valid()
      modifies this`readers, this`running, this`reload, this`aborted, this`disk, this`log, this`acts
      modifies queue, mapper`table, config, registry
      ensures Valid() && old(acts) <= acts
    {
      if aborted { return; }
      match a {
        case Mux(_) =>
        case Device(r, d) => if r < |readers| && CanStep(readers[r], d) { ReaderActs(r, d); }
        case Outside(o) => OutsideActs(o);
      }
    }

    /** Anything the other threads may do before the multiplexer's next step. */
    method Interfere()
      requires Valid()
      modifies this`others, this`readers, this`running, this`reload, this`aborted, this`disk, this`log, this`acts
      modifies queue, mapper`table, config, registry
      ensures Valid() && old(acts) <= acts
    {
      if others == [] { return; }
      var now := others[0];
      others := others[1..];
      for k := 0 to |now|
        invariant Valid() && old(acts) <= acts
      {
        OtherActs(now[k]);
      }
    }

    /** While run has not returned, nobody stops the readers. */
    static predicate CanStep(reader: Reader, d: ReaderStep) {
      match d
      case Test => reader.pc.Checking?
      case Read(_) => reader.pc.Reading?
      case Push => reader.pc.Pushing?
      case Stop => false
    }

    // ---- the loop ----

    /** EventMultiplexer::run, watched for so many rounds of its loop: whatever the other threads do
        between its steps, it performs a run of the transition system, makes all those rounds unless it
        returns, and returns only from the loop test (or when the process is gone). */
    method Run(rounds: nat) returns (returned: bool)
      requires Valid() && pc == AtCheck
      modifies this`others, this`readers, this`running, this`reload, this`aborted, this`disk
      modifies this`log, this`acts, this`pc
      modifies this`turns, queue, mapper`table, config, registry
      ensures Valid() && old(acts) <= acts
      ensures returned ==> pc == Stopped || aborted
      ensures !returned ==> pc == AtCheck && turns == old(turns) + rounds
    {
      for round := 0 to rounds
        invariant Valid() && pc == AtCheck && old(acts) <= acts && turns == old(turns) + round
      {
        var over := Turn();
        if over { return true; }
      }
      return false;
    }

    /** The loop test and, if it holds, the body. */
    method Turn() returns (over: bool)
      requires Valid() && pc == AtCheck
      modifies this`others, this`readers, this`running, this`reload, this`aborted, this`disk
      modifies this`log, this`acts, this`pc
      modifies this`turns, queue, mapper`table, config, registry
      ensures Valid() && old(acts) <= acts
      ensures if over then pc == Stopped || aborted else pc == AtCheck && turns == old(turns) + 1
    {
      Interfere();
      if aborted { return true; }
      var go := TestRunning();
      if !go { return true; }
      Round();
      return aborted;
    }

    /** The body of the loop. */
    method Round()
      requires Valid() && !aborted && pc == AtExchange
      modifies this`others, this`readers, this`running, this`reload, this`aborted, this`disk
      modifies this`log, this`acts, this`pc
      modifies queue, mapper`table, config, registry
      ensures Valid() && old(acts) <= acts && (aborted || pc == AtCheck)
    {
      TakeAndLoad();
      if aborted { return; }
      var maybe := PopEvent();
      if maybe.Some? { HandleEvent(maybe.value); }
    }

    method HandleEvent(ev: InputEvent)
      requires Valid() && !aborted && pc == InHand(ev)
      modifies this`others, this`readers, this`running, this`reload, this`aborted, this`disk
      modifies this`log, this`acts, this`pc
      modifies queue, mapper`table, config, registry
      ensures Valid() && old(acts) <= acts && (aborted || pc == AtCheck)
    {
      var cmd := FindAmidOthers(ev);
      if aborted { return; }
      Notify(ev, cmd);
      if !aborted && cmd != "" { RunCommand(cmd); }
    }

    method FindAmidOthers(ev: InputEvent) returns (cmd: string)
      requires Valid() && !aborted && pc == InHand(ev)
      modifies this`others, this`readers, this`running, this`reload, this`aborted, this`disk
      modifies this`log, this`acts, this`pc
      modifies queue, mapper`table, config, registry
      ensures Valid() && old(acts) <= acts && (aborted || pc == AtNotify(ev, cmd))
    {
      Interfere();
      cmd := "";
      if !aborted { cmd := FindCommand(ev); }
    }

    method TakeAndLoad()
      requires Valid() && !aborted && pc == AtExchange
      modifies this`others, this`readers, this`running, this`reload, this`aborted, this`disk
      modifies this`log, this`acts, this`pc
      modifies queue, mapper`table, config, registry
      ensures Valid() && old(acts) <= acts && (aborted || pc == AtPop)
    {
      Interfere();
      if aborted { return; }
      var taken := TakeReload();
      if taken { ReloadAmidOthers(); } else { Interfere(); }
    }

    method ReloadAmidOthers()
      requires Valid() && !aborted && pc == AtLoad
      modifies this`others, this`readers, this`running, this`reload, this`aborted, this`disk
      modifies this`log, this`acts, this`pc
      modifies queue, mapper`table, config, registry
      ensures Valid() && old(acts) <= acts && (aborted || pc == AtPop)
    {
      Interfere();
      if aborted { return; }
      Reload();
      Interfere();
    }

    method Notify(ev: InputEvent, cmd: string)
      requires Valid() && !aborted && pc == AtNotify(ev, cmd)
      modifies this`others, this`readers, this`running, this`reload, this`aborted, this`disk
      modifies this`log, this`acts, this`pc
      modifies queue, mapper`table, config, registry
      ensures Valid() && old(acts) <= acts
      ensures aborted || pc == if cmd != "" then AtExecute(cmd) else AtCheck
    {
      var local := CopyAmidOthers(ev, cmd);
      if aborted { return; }
      CallAll(ev, cmd, local);
      if aborted { return; }
      Leave(ev, cmd);
    }

    method CopyAmidOthers(ev: InputEvent, cmd: string) returns (local: seq<int>)
      requires Valid() && !aborted && pc == AtNotify(ev, cmd)
      modifies this`others, this`readers, this`running, this`reload, this`aborted, this`disk
      modifies this`log, this`acts, this`pc
      modifies queue, mapper`table, config, registry
      ensures Valid() && old(acts) <= acts && (aborted || pc == Calling(ev, cmd, local))
    {
      Interfere();
      local := [];
      if !aborted { local := CopyIds(ev, cmd); }
    }

    /** Nobody is left to call. */
    method Leave(ev: InputEvent, cmd: string)
      requires Valid() && !aborted && pc == Calling(ev, cmd, [])
      modifies this`others, this`readers, this`running, this`reload, this`aborted, this`disk
      modifies this`log, this`acts, this`pc
      modifies queue, mapper`table, config, registry
      ensures Valid() && old(acts) <= acts && pc == if cmd != "" then AtExecute(cmd) else AtCheck
    {
      CallFirst(ev, cmd, []);
      Interfere();
    }

    method CallAll(ev: InputEvent, cmd: string, local: seq<int>)
      requires Valid() && !aborted && pc == Calling(ev, cmd, local)
      modifies this`others, this`readers, this`running, this`reload, this`aborted, this`disk
      modifies this`log, this`acts, this`pc
      modifies queue, mapper`table, config, registry
      ensures Valid() && old(acts) <= acts && (aborted || pc == Calling(ev, cmd, []))
    {
      var left := local;
      while left != []
        invariant Valid() && !aborted && old(acts) <= acts && pc == Calling(ev, cmd, left)
        decreases |left|
      {
        CallNext(ev, cmd, left);
        if aborted { return; }
        left := left[1..];
      }
      Interfere();
    }

    method CallNext(ev: InputEvent, cmd: string, left: seq<int>)
      requires Valid() && !aborted && left != [] && pc == Calling(ev, cmd, left)
      modifies this`others, this`readers, this`running, this`reload, this`aborted, this`disk
      modifies this`log, this`acts, this`pc
      modifies queue, mapper`table, config, registry
      ensures Valid() && old(acts) <= acts && (aborted || pc == Calling(ev, cmd, left[1..]))
    {
      Interfere();
      if !aborted { CallFirst(ev, cmd, left); }
    }
  }

  // ---- the state after each of the multiplexer's steps ----

  /** Steps without an entry in the history. */
  lemma AfterPlain(s: State, m: MuxStep)
    requires MuxEnabled(s, m) && m in {Check, ExchangeReload, LoadConfig, Pop}
    ensures MuxNext(s, m) == s.(
      mux := PcAfter(s, m),
      reload := s.reload && m != ExchangeReload,
      queue := if m == Pop && s.queue != [] then s.queue[1..] else s.queue,
      table := if m == LoadConfig then TableAfterLoad(s.names, s.table, s.disk) else s.table,
      aborted := m == LoadConfig && LoadThrows(s))
  {
    MuxFields(s, m);
  }

  lemma AfterLookUp(s: State)
    requires s.mux.InHand? && !s.aborted
    ensures var cmd := CommandFor(s.table, s.mux.ev);
      MuxNext(s, LookUp) == s.(mux := AtNotify(s.mux.ev, cmd),
                               log := s.log.(dispatched := s.log.dispatched + [Dispatch(s.mux.ev, cmd)]))
  {
    MuxFields(s, LookUp);
  }

  lemma AfterCopy(s: State)
    requires s.mux.AtNotify? && !s.aborted
    ensures var copy := Copy(s.observers, Dispatch(s.mux.ev, s.mux.cmd));
      MuxNext(s, CopyObservers) == s.(mux := Calling(s.mux.ev, s.mux.cmd, s.observers),
                                      log := s.log.(copies := s.log.copies + [copy]))
  {
    MuxFields(s, CopyObservers);
  }

  lemma AfterCall(s: State)
    requires s.mux.Calling? && !s.aborted
    ensures MuxNext(s, CallObserver) ==
      if s.mux.left == [] then s.(mux := if s.mux.cmd != "" then AtExecute(s.mux.cmd) else AtCheck)
      else s.(mux := s.mux.(left := s.mux.left[1..]),
              log := s.log.(calls := s.log.calls + [Call(s.mux.left[0], Dispatch(s.mux.ev, s.mux.cmd))]))
  {
    MuxFields(s, CallObserver);
  }

  lemma AfterExecute(s: State)
    requires s.mux.AtExecute? && !s.aborted
    ensures MuxNext(s, Execute) == s.(mux := AtCheck, log := s.log.(executed := s.log.executed + [s.mux.cmd]))
  {
    MuxFields(s, Execute);
  }

  /** The fields of the state after a multiplexer step, one by one. */
  lemma MuxFields(s: State, m: MuxStep)
    requires MuxEnabled(s, m)
    ensures var t := MuxNext(s, m);
      && (m != LookUp ==> t.log.dispatched == s.log.dispatched)
      && (m != CopyObservers ==> t.log.copies == s.log.copies)
      && (m != CallObserver || s.mux.left == [] ==> t.log.calls == s.log.calls)
      && (m != Execute ==> t.log.executed == s.log.executed)
      && t.reload == (s.reload && m != ExchangeReload)
  {
  }
}
