// One control-socket connection: lines in, at most one reply per line out
// (ControlServer::handle_client in src/control.cpp).
module ControlSession {
  import opened Common
  import opened Json
  import opened KeyMapper
  import opened ConfigLoading
  import opened EventPipeline
  import opened PipelineProperties
  import opened PipelineFaults
  import opened Framing

  /** A command. Unparsable: no JSON, or no "cmd". IllTyped: looking at it throws, and nothing catches that.
      Incomplete: a bind or unbind that lacks a member. */
  datatype Request =
    | Unparsable
    | IllTyped
    | Incomplete
    | Status
    | Devices
    | Bindings(filter: string)
    | Bind(device: string, key: string, command: string)
    | Unbind(device: string, key: string)
    | Events
    | Reload
    | Unknown(cmd: string)

  datatype Error = InvalidJson | MissingFields | UnknownKey | NoSuchBinding | ReloadFailed | UnknownCommand(cmd: string)

  datatype Reply =
    | Ok
    | StatusIs(version: string, running: bool, deviceCount: nat, bindingCount: nat, config: string)
    | DeviceList(devices: seq<DeviceInfo>)
    | BindingList(entries: seq<BindingEntry>)
    | Err(error: Error)

  // ---- from the document on a line to the command ----

  function RequestOf(line: Option<Json>): Request {
    if line.None? then Unparsable
    else if !CanAskMembers(line.value) then IllTyped
    else if !Has(line.value, "cmd") then Unparsable
    else match AsString(line.value.fields["cmd"])
      case None => IllTyped
      case Some(cmd) => CommandOf(cmd, line.value.fields)
  }

  function CommandOf(cmd: string, fields: map<string, Json>): Request {
    if cmd == "status" then Status
    else if cmd == "devices" then Devices
    else if cmd == "bindings" then
      if "device" !in fields then Bindings("")
      else if AsString(fields["device"]).None? then IllTyped
      else Bindings(AsString(fields["device"]).value)
    else if cmd == "bind" then
      if !({"device", "key", "command"} <= fields.Keys) then Incomplete
      else (match (AsString(fields["device"]), AsString(fields["key"]), AsString(fields["command"]))
        case (Some(d), Some(k), Some(c)) => Bind(d, k, c)
        case _ => IllTyped)
    else if cmd == "unbind" then
      if !({"device", "key"} <= fields.Keys) then Incomplete
      else (match (AsString(fields["device"]), AsString(fields["key"]))
        case (Some(d), Some(k)) => Unbind(d, k)
        case _ => IllTyped)
    else if cmd == "events" then Events
    else if cmd == "reload" then Reload
    else Unknown(cmd)
  }

  /** The document in which pfctl and the bridge send a command. */
  function Document(req: Request): Json
    requires !req.Unparsable? && !req.IllTyped? && !req.Incomplete?
  {
    match req
    case Status => Obj(map["cmd" := Str("status")])
    case Devices => Obj(map["cmd" := Str("devices")])
    case Bindings(filter) =>
      if filter == "" then Obj(map["cmd" := Str("bindings")])
      else Obj(map["cmd" := Str("bindings"), "device" := Str(filter)])
    case Bind(d, k, c) =>
      Obj(map["cmd" := Str("bind"), "device" := Str(d), "key" := Str(k), "command" := Str(c)])
    case Unbind(d, k) => Obj(map["cmd" := Str("unbind"), "device" := Str(d), "key" := Str(k)])
    case Events => Obj(map["cmd" := Str("events")])
    case Reload => Obj(map["cmd" := Str("reload")])
    case Unknown(cmd) => Obj(map["cmd" := Str(cmd)])
  }

  /** The daemon understands what its clients send: each command is read back as it was meant. */
  lemma CommandsAreUnderstood(req: Request)
    requires !req.Unparsable? && !req.IllTyped? && !req.Incomplete?
    requires req.Unknown? ==>
      req.cmd !in {"status", "devices", "bindings", "bind", "unbind", "events", "reload"}
    ensures RequestOf(Some(Document(req))) == req
  {
    assert "key"[0] != "cmd"[0];
  }

  /** The commands, as they stand in the JSON. */
  lemma CommandsAre(d: string, k: string, c: string)
    ensures RequestOf(Some(Obj(map["cmd" := Str("status")]))) == Status
    ensures RequestOf(Some(Obj(map["cmd" := Str("devices")]))) == Devices
    ensures RequestOf(Some(Obj(map["cmd" := Str("bindings")]))) == Bindings("")
    ensures RequestOf(Some(Obj(map["cmd" := Str("bindings"), "device" := Str(d)]))) == Bindings(d)
    ensures RequestOf(Some(Obj(map["cmd" := Str("events")]))) == Events
    ensures RequestOf(Some(Obj(map["cmd" := Str("reload")]))) == Reload
    ensures c !in {"status", "devices", "bindings", "bind", "unbind", "events", "reload"} ==>
      RequestOf(Some(Obj(map["cmd" := Str(c)]))) == Unknown(c)
    ensures RequestOf(None) == Unparsable == RequestOf(Some(Obj(map[])))
  {
  }

  lemma BindCommandsAre(d: string, k: string, c: string)
    ensures RequestOf(Some(Obj(map["cmd" := Str("bind"), "device" := Str(d), "key" := Str(k), "command" := Str(c)])))
      == Bind(d, k, c)
    ensures RequestOf(Some(Obj(map["cmd" := Str("bind"), "device" := Str(d), "key" := Str(k)]))) == Incomplete
    ensures RequestOf(Some(Obj(map["cmd" := Str("unbind"), "device" := Str(d), "key" := Str(k)]))) == Unbind(d, k)
    ensures RequestOf(Some(Obj(map["cmd" := Str("unbind"), "device" := Str(d)]))) == Incomplete
  {
    assert "key"[0] != "cmd"[0];
  }

  /** The command lines that end the process: no object, a "cmd" that is an array or object, or a known command
      all of whose members are there and one of them is. */
  lemma IllTypedIff(line: Option<Json>)
    ensures RequestOf(line) == IllTyped <==>
      && line.Some?
      && (!CanAskMembers(line.value)
          || (Has(line.value, "cmd")
              && (Unreadable(line.value, "cmd")
                  || exists need :: need in Needs(AsString(line.value.fields["cmd"]).value)
                       && need <= line.value.fields.Keys && exists n :: n in need && Unreadable(line.value, n))))
  {
    if line.Some? && Has(line.value, "cmd") && !Unreadable(line.value, "cmd") {
      var fields, cmd := line.value.fields, AsString(line.value.fields["cmd"]).value;
      if cmd == "bindings" { assert {"device"} in Needs(cmd); }
      if cmd == "bind" { assert {"device", "key", "command"} in Needs(cmd); }
      if cmd == "unbind" { assert {"device", "key"} in Needs(cmd); }
    }
  }

  ghost predicate Unreadable(j: Json, name: string) {
    Has(j, name) && AsString(j.fields[name]).None?
  }

  /** The members that a command reads, if it reads any. */
  function Needs(cmd: string): set<set<string>> {
    if cmd == "bindings" then {{"device"}}
    else if cmd == "bind" then {{"device", "key", "command"}}
    else if cmd == "unbind" then {{"device", "key"}}
    else {}
  }

  lemma AnArrayIsIllTyped()
    ensures RequestOf(Some(Arr([]))) == IllTyped
  {
  }

  /** The client hung up, became an event stream, or the process is gone. */
  datatype End = Closed | Streaming | Aborted

  function OfDevice(entries: seq<BindingEntry>, filter: string): seq<BindingEntry> {
    if entries == [] then []
    else
      var last := entries[|entries| - 1];
      OfDevice(entries[..|entries| - 1], filter)
        + (if filter != "" && last.deviceId != filter then [] else [last])
  }

  // ---- what a request does, and what it is told ----

  /** The step of the daemon that a request is, if it changes anything. */
  function StepOf(req: Request): Option<OutsideStep> {
    match req
    case Bind(d, k, c) => Some(SocketBind(d, k, c))
    case Unbind(d, k) => Some(SocketUnbind(d, k))
    case Reload => Some(SocketReload)
    case Events => Some(AddObserver)
    case IllTyped => Some(IllTypedLine)
    case _ => None
  }

  function ActsOf(req: Request): seq<Action> {
    if StepOf(req).Some? then [Outside(StepOf(req).value)] else []
  }

  ghost function Effect(names: NameTable, w: World, req: Request): World {
    AffectedAll(names, w, ActsOf(req))
  }

  lemma EffectIs(names: NameTable, w: World, req: Request)
    ensures Effect(names, w, req) == if StepOf(req).Some? then Affected(names, w, Outside(StepOf(req).value)) else w
  {
    AffectedOne(names, w, Outside(StepOf(req).GetOr(AddObserver)));
  }

  lemma AffectedOne(names: NameTable, w: World, a: Action)
    ensures AffectedAll(names, w, [a]) == Affected(names, w, a)
  {
    assert [a][..0] == [] && AffectedAll(names, w, []) == w;
  }

  lemma AffectedByBinding(names: NameTable, w: World, d: string, k: string, c: string)
    requires !w.gone
    ensures Affected(names, w, Outside(SocketBind(d, k, c))) == w.(flat := Bound(w.flat, names, d, k, c))
    ensures Affected(names, w, Outside(SocketUnbind(d, k))) == w.(flat := Unbound(w.flat, names, d, k))
  {
  }

  /** The right reply to a request that meets the daemon like this. Listings may come in any order. */
  ghost predicate Answers(names: NameTable, w: World, req: Request, reply: Reply) {
    match req
    case Unparsable => reply == Err(InvalidJson)
    case Incomplete => reply == Err(MissingFields)
    case Status => reply == StatusIs(VERSION, w.running, |w.devices|, |w.flat|, w.path)
    case Devices => reply == DeviceList(w.devices)
    case Bindings(filter) =>
      reply.BindingList? && exists es :: IsListing(es, w.flat, names) && reply.entries == OfDevice(es, filter)
    case Bind(d, k, c) => reply == if k in names then Ok else Err(UnknownKey)
    case Unbind(d, k) => reply == if k in names && Key(d, names[k]) in w.flat then Ok else Err(NoSuchBinding)
    case Reload => reply == if LoadOutcome(names, w.disk) == Loaded then Ok else Err(ReloadFailed)
    case Unknown(cmd) => reply == Err(UnknownCommand(cmd))
    case _ => false
  }

  /** The replies, request by request. */
  lemma RepliesAre(names: NameTable, w: World, req: Request, reply: Reply)
    requires Answers(names, w, req, reply)
    ensures req == Unparsable ==> reply == Err(InvalidJson)
    ensures req == Incomplete ==> reply == Err(MissingFields)
    ensures req.Unknown? ==> reply == Err(UnknownCommand(req.cmd))
    ensures req == Status ==> reply == StatusIs("0.2.0", w.running, |w.devices|, |w.flat|, w.path)
    ensures req == Devices ==> reply == DeviceList(w.devices)
    ensures req.Bind? ==> reply == if req.key in names then Ok else Err(UnknownKey)
    ensures req.Unbind? ==>
      reply == if req.key in names && Key(req.device, names[req.key]) in w.flat then Ok else Err(NoSuchBinding)
    ensures req == Reload ==> reply == if LoadOutcome(names, w.disk) == Loaded then Ok else Err(ReloadFailed)
  {
  }

  /** What the requests change: a bind and an unbind one pair, a reload all bindings or none, an ill-typed line ends
      the process, and the others change nothing. */
  lemma EffectsAre(names: NameTable, w: World, req: Request)
    requires !w.gone
    ensures var after := Effect(names, w, req);
      && after.disk == w.disk && after.devices == w.devices && after.running == w.running && after.path == w.path
      && (req.Bind? && req.key in names ==> after.flat == w.flat[Key(req.device, names[req.key]) := req.command])
      && (req.Unbind? && req.key in names ==> after.flat == w.flat - {Key(req.device, names[req.key])})
      && (req == Reload && LoadOutcome(names, w.disk) == Loaded ==>
            LastBlockWins(LoadedBlocks(names, w.disk), after.flat))
      && ((req.Bind? || req.Unbind?) && req.key !in names ==> after.flat == w.flat)
      && (req == Reload && LoadOutcome(names, w.disk) != Loaded ==> after.flat == w.flat)
      && (!req.Bind? && !req.Unbind? && req != Reload ==> after.flat == w.flat)
      && (after.gone <==> req == IllTyped || (req == Reload && !Harmless(names, w.disk)))
  {
    EffectIs(names, w, req);
  }

  function Requests(parse: string -> Option<Json>, lines: seq<string>): seq<Request> {
    if lines == [] then []
    else (if lines[0] == "" then [] else [RequestOf(parse(lines[0]))]) + Requests(parse, lines[1..])
  }

  // ---- the course of a conversation ----

  /** A request, and the daemon as it met it. */
  datatype Met = Met(req: Request, world: World)

  datatype Course = Course(served: seq<Met>, world: World, end: End)

  /** What the other threads do before the next request, and before those after it. */
  function Batch(others: seq<seq<Action>>): seq<Action> {
    if others == [] then [] else others[0]
  }

  function Later(others: seq<seq<Action>>): seq<seq<Action>> {
    if others == [] then [] else others[1..]
  }

  /** Which requests are served, what each of them meets, and how it ends, when others[i] is what everybody else
      does between the requests i - 1 and i. */
  ghost function CourseOf(names: NameTable, w: World, others: seq<seq<Action>>, reqs: seq<Request>): (c: Course)
    ensures |c.served| <= |reqs|
    decreases |reqs|
  {
    if reqs == [] then Course([], w, Closed)
    else
      var met := AffectedAll(names, w, Batch(others));
      var after := Effect(names, met, reqs[0]);
      if met.gone then Course([], met, Aborted)
      else if reqs[0] == Events then Course([], after, Streaming)
      else if after.gone then Course([], after, Aborted)
      else Extend([Met(reqs[0], met)], CourseOf(names, after, Later(others), reqs[1..]))
  }

  ghost function Extend(served: seq<Met>, c: Course): Course {
    c.(served := served + c.served)
  }

  lemma ExtendTwice(xs: seq<Met>, ys: seq<Met>, c: Course)
    ensures Extend(xs + ys, c) == Extend(xs, Extend(ys, c))
  {
    Associates(xs, ys, c.served);
  }

  ghost predicate Fit(names: NameTable, served: seq<Met>, replies: seq<Reply>) {
    |replies| == |served| &&
    forall i :: 0 <= i < |served| ==> Answers(names, served[i].world, served[i].req, replies[i])
  }

  /** The whole conversation, told from the lines that the client's bytes spell and from what the others do. */
  ghost predicate Conversation(parse: string -> Option<Json>, names: NameTable, before: World, others: seq<seq<Action>>,
                               split: Split, after: World, replies: seq<Reply>, buf: string, end: End) {
    var c := CourseOf(names, before, others, Requests(parse, split.lines));
    end == c.end && after == c.world && Fit(names, c.served, replies) && (end == Closed ==> buf == split.tail)
  }

  class Session {
    const mapper: Mapper
    const config: Config
    const parse: string -> Option<Json>
    var disk: FileContent
    var devices: seq<DeviceInfo>
    var running: bool
    var gone: bool
    /** What the other threads do before each of the requests. */
    var others: seq<seq<Action>>
    var buf: string
    var replies: seq<Reply>
    ghost var served: seq<Met>

    ghost predicate Valid()
      reads this, mapper
    {
      mapper.Valid() && config.names == mapper.names
    }

    ghost function Now(): World
      reads this, mapper, config
    {
      World(Flatten(mapper.table), disk, config.configPath, devices, running, gone)
    }

    constructor (mapper: Mapper, config: Config, parse: string -> Option<Json>, disk: FileContent,
                 devices: seq<DeviceInfo>, running: bool, others: seq<seq<Action>>)
      requires mapper.Valid() && config.names == mapper.names
      ensures Valid() && this.mapper == mapper && this.config == config && this.parse == parse
      ensures Now() == World(Flatten(mapper.table), disk, config.configPath, devices, running, false)
      ensures this.others == others
      ensures buf == "" && replies == [] && served == []
    {
      this.mapper, this.config, this.parse := mapper, config, parse;
      this.disk, this.devices, this.running, this.others := disk, devices, running, others;
      gone, buf, replies, served := false, "", [], [];
    }

    // ---- steps on the shared objects ----

    method BindKey(d: string, k: string, c: string) returns (ok: bool)
      requires Valid() && !gone
      modifies mapper`table
      ensures Valid() && (ok <==> k in mapper.names)
      ensures Now() == Affected(mapper.names, old(Now()), Outside(SocketBind(d, k, c)))
    {
      AffectedByBinding(mapper.names, Now(), d, k, c);
      ok := mapper.AddBinding(d, k, c);
    }

    method UnbindKey(d: string, k: string) returns (ok: bool)
      requires Valid() && !gone
      modifies mapper`table
      ensures Valid() && (ok <==> k in mapper.names && Key(d, mapper.names[k]) in old(Flatten(mapper.table)))
      ensures Now() == Affected(mapper.names, old(Now()), Outside(SocketUnbind(d, k)))
    {
      AffectedByBinding(mapper.names, Now(), d, k, "");
      ok := mapper.RemoveBinding(d, k);
    }

    method Reload() returns (o: Outcome)
      requires Valid() && !gone
      modifies this`gone, mapper`table, config
      ensures Valid() && o == LoadOutcome(mapper.names, disk)
      ensures Now() == Affected(mapper.names, old(Now()), Outside(SocketReload))
    {
      LoadIsFlat(mapper.names, mapper.table, disk);
      ThrowsUnlessHarmless(mapper.names, disk);
      o := LoadAndInit(config, mapper, disk);
      gone := o == Threw;
    }

    // ---- the other threads ----

    /** Another thread's step on what the session sees. */
    method OtherActs(a: Action)
      requires Valid()
      modifies this`disk, this`devices, this`running, this`gone, mapper`table, config
      ensures Valid() && Now() == Affected(mapper.names, old(Now()), a)
    {
      if gone { return; }
      match a {
        case Mux(m) => if m == LoadConfig { var _ := Reload(); }
        case Device(r, d) =>
          if r < |devices| && Deactivates(d) { devices := devices[r := devices[r].(active := false)]; }
        case Outside(o) => OtherClient(o);
      }
    }

    method OtherClient(o: OutsideStep)
      requires Valid() && !gone
      modifies this`disk, this`running, this`gone, mapper`table, config
      ensures Valid() && Now() == Affected(mapper.names, old(Now()), Outside(o))
    {
      match o {
        case Sigterm => running := false;
        case WriteDisk(file) => disk := file;
        case SocketReload => var _ := Reload();
        case SocketBind(d, k, c) => var _ := BindKey(d, k, c);
        case SocketUnbind(d, k) => var _ := UnbindKey(d, k);
        case IllTypedLine => gone := true;
        case BrokenPipe => gone := true;
        case _ =>
      }
    }

    method Interfere()
      requires Valid()
      modifies this`others, this`disk, this`devices, this`running, this`gone, mapper`table, config
      ensures Valid() && others == Later(old(others))
      ensures Now() == AffectedAll(mapper.names, old(Now()), Batch(old(others)))
    {
      if others == [] { return; }
      var now := others[0];
      others := others[1..];
      for k := 0 to |now|
        invariant Valid() && others == Later(old(others))
        invariant Now() == AffectedAll(mapper.names, old(Now()), now[..k])
      {
        assert now[..k + 1][..k] == now[..k];
        OtherActs(now[k]);
      }
      assert now[..|now|] == now;
    }

    // ---- the commands ----

    /** One command: its effect and, unless it ends the process, its reply. */
    method Handle(req: Request) returns (reply: Reply)
      requires Valid() && !gone && req != Events
      modifies this`gone, mapper`table, config
      ensures Valid() && Now() == Effect(mapper.names, old(Now()), req)
      ensures !gone ==> Answers(mapper.names, old(Now()), req, reply)
    {
      EffectIs(mapper.names, Now(), req);
      reply := Ok;
      match req {
        case Unparsable => reply := Err(InvalidJson);
        case Incomplete => reply := Err(MissingFields);
        case Status => reply := HandleStatus();
        case Devices => reply := DeviceList(devices);
        case Bindings(filter) => reply := HandleBindings(filter);
        case Bind(d, k, c) =>
          var ok := BindKey(d, k, c);
          reply := if ok then Ok else Err(UnknownKey);
        case Unbind(d, k) =>
          var ok := UnbindKey(d, k);
          reply := if ok then Ok else Err(NoSuchBinding);
        case Reload =>
          var o := Reload();
          reply := if o == Loaded then Ok else Err(ReloadFailed);
        case IllTyped => gone := true;
        case Unknown(cmd) => reply := Err(UnknownCommand(cmd));
      }
    }

    method HandleStatus() returns (reply: Reply)
      requires Valid()
      ensures Answers(mapper.names, Now(), Status, reply)
    {
      var es := mapper.AllBindings();
      ListingCount(es, Flatten(mapper.table), mapper.names);
      return StatusIs(VERSION, running, |devices|, |es|, config.configPath);
    }

    method HandleBindings(filter: string) returns (reply: Reply)
      requires Valid()
      ensures Answers(mapper.names, Now(), Bindings(filter), reply)
      ensures reply.BindingList? && forall i :: 0 <= i < |reply.entries| ==>
        var e := reply.entries[i];
        && (filter == "" || e.deviceId == filter)
        && e.deviceId in mapper.table && e.keycode in mapper.table[e.deviceId]
        && e.command == mapper.table[e.deviceId][e.keycode] && e.keyName == CodeToName(mapper.names, e.keycode)
      ensures forall i, j :: 0 <= i < j < |reply.entries| ==>
        reply.entries[i].deviceId != reply.entries[j].deviceId || reply.entries[i].keycode != reply.entries[j].keycode
      ensures forall d, c :: d in mapper.table && c in mapper.table[d] && (filter == "" || d == filter) ==>
        exists e :: e in reply.entries && e.deviceId == d && e.keycode == c
    {
      var es := mapper.AllBindings();
      var shown := Filter(es, filter);
      ShownIsOf(es, mapper.table, mapper.names, filter);
      return BindingList(shown);
    }

    method Filter(es: seq<BindingEntry>, filter: string) returns (shown: seq<BindingEntry>)
      ensures shown == OfDevice(es, filter)
    {
      shown := [];
      for i := 0 to |es|
        invariant shown == OfDevice(es[..i], filter)
      {
        assert es[..i + 1][..i] == es[..i];
        if filter != "" && es[i].deviceId != filter { continue; }
        shown := shown + [es[i]];
      }
      assert es[..|es|] == es;
    }

    // ---- the loop ----

    /** What is still to come of the conversation, after what has been. */
    ghost predicate Underway(course: Course, tail: string, rest: string)
      reads this, mapper, config
    {
      var ahead := SplitLines(buf + rest);
      && Fit(mapper.names, served, replies) && tail == ahead.tail
      && course == Extend(served, CourseOf(mapper.names, Now(), others, Requests(parse, ahead.lines)))
    }

    /** However the client's bytes are cut into reads, and whatever the other threads do between its requests,
        the conversation is that of the lines which the bytes spell: one reply per non-empty line, in order, each
        fitting the daemon as the request met it, up to the one that ends it; otherwise it runs until the client
        hangs up, and the unfinished line is left in the buffer. */
    method HandleClient(chunks: seq<string>) returns (end: End)
      requires Valid() && buf == "" && replies == [] && served == []
      modifies this, mapper`table, config
      ensures Valid()
      ensures Conversation(parse, mapper.names, old(Now()), old(others), SplitLines(Concat(chunks)),
                           Now(), replies, buf, end)
    {
      var next, over := 0, None;
      ghost var split := SplitLines(Concat(chunks));
      ghost var course := CourseOf(mapper.names, Now(), others, Requests(parse, split.lines));
      assert "" + Concat(chunks) == Concat(chunks) && [] + course.served == course.served;
      while over.None?
        invariant Valid() && next <= |chunks|
        invariant over.None? ==> Underway(course, split.tail, Concat(chunks[next..]))
        invariant over.Some? ==> Over(course, split.tail, over.value)
        decreases over.None?, |chunks| - next, |buf|
      {
        next, over := Turn(chunks, next, course, split.tail);
      }
      return over.value;
    }

    ghost predicate Over(course: Course, tail: string, end: End)
      reads this, mapper, config
    {
      && end == course.end && Now() == course.world && Fit(mapper.names, course.served, replies)
      && (end == Closed ==> buf == tail)
    }

    /** One turn of the loop: read a line, answer it. */
    method Turn(chunks: seq<string>, from: nat, ghost course: Course, ghost tail: string)
      returns (next: nat, over: Option<End>)
      requires Valid() && from <= |chunks| && Underway(course, tail, Concat(chunks[from..]))
      modifies this, mapper`table, config
      ensures Valid() && from <= next <= |chunks|
      ensures over.None? ==> (next == from ==> |buf| < |old(buf)|)
      ensures over.None? ==> Underway(course, tail, Concat(chunks[next..]))
      ensures over.Some? ==> Over(course, tail, over.value)
    {
      var line;
      next, line := NextLine(chunks, from);
      if line.None? {
        assert served + [] == served;
        return next, Some(Closed);
      }
      over := HandleLine(line.value, SplitLines(buf + Concat(chunks[next..])).lines, course);
    }

    method HandleLine(line: string, ghost more: seq<string>, ghost course: Course) returns (over: Option<End>)
      requires Valid() && Fit(mapper.names, served, replies)
      requires course == Extend(served, CourseOf(mapper.names, Now(), others, Requests(parse, [line] + more)))
      modifies this, mapper`table, config
      ensures Valid() && buf == old(buf)
      ensures over.None? ==> Fit(mapper.names, served, replies)
      ensures over.None? ==>
        course == Extend(served, CourseOf(mapper.names, Now(), others, Requests(parse, more)))
      ensures over.Some? ==> over != Some(Closed) && Over(course, "", over.value)
    {
      FirstRequest(parse, line, more);
      if line == "" { return None; }
      var req := RequestOf(parse(line));
      over := HandleRequest(req, Requests(parse, more), course);
    }

    method HandleRequest(req: Request, ghost more: seq<Request>, ghost course: Course) returns (over: Option<End>)
      requires Valid() && Fit(mapper.names, served, replies)
      requires course == Extend(served, CourseOf(mapper.names, Now(), others, [req] + more))
      modifies this, mapper`table, config
      ensures Valid() && buf == old(buf)
      ensures over.None? ==> Fit(mapper.names, served, replies)
      ensures over.None? ==> course == Extend(served, CourseOf(mapper.names, Now(), others, more))
      ensures over.Some? ==> over != Some(Closed) && Over(course, "", over.value)
    {
      FirstMet(mapper.names, Now(), others, req, more, served);
      Interfere();
      if gone { return Some(Aborted); }
      over := Answer(req);
    }

    /** The request is served, or ends the conversation. */
    method Answer(req: Request) returns (over: Option<End>)
      requires Valid() && !gone && Fit(mapper.names, served, replies)
      modifies this`gone, this`replies, this`served, mapper`table, config
      ensures Valid() && Fit(mapper.names, served, replies)
      ensures Now() == Effect(mapper.names, old(Now()), req)
      ensures over == if req == Events then Some(Streaming) else if gone then Some(Aborted) else None
      ensures served == old(served) + if over.None? then [Met(req, old(Now()))] else []
    {
      EffectIs(mapper.names, Now(), req);
      ghost var met := Now();
      if req == Events { return Some(Streaming); }
      var reply := Handle(req);
      if gone { return Some(Aborted); }
      FitSnoc(mapper.names, served, replies, Met(req, met), reply);
      replies, served := replies + [reply], served + [Met(req, met)];
      return None;
    }

    /** Read until the buffer holds a newline, then take the line; None when the client hangs up. */
    method NextLine(chunks: seq<string>, from: nat) returns (next: nat, line: Option<string>)
      requires from <= |chunks|
      modifies this`buf
      ensures from <= next <= |chunks|
      ensures var split := SplitLines(old(buf) + Concat(chunks[from..]));
        if line.None? then split == Split([], buf)
        else
          var ahead := SplitLines(buf + Concat(chunks[next..]));
          split == Split([line.value] + ahead.lines, ahead.tail)
      ensures line.Some? && next == from ==> |buf| < |old(buf)|
    {
      next := from;
      ghost var all := buf + Concat(chunks[from..]);
      var nl := FindNewline(buf);
      while nl == |buf|
        invariant from <= next <= |chunks| && 0 <= nl <= |buf| && (next == from ==> buf == old(buf))
        invariant NL !in buf[..nl] && (nl < |buf| ==> buf[nl] == NL)
        invariant all == buf + Concat(chunks[next..])
        decreases |chunks| - next
      {
        if next == |chunks| {
          assert buf[..nl] == buf && buf + "" == buf;
          SplitPlain(buf);
          return next, None;
        }
        ConcatStep(buf, chunks, next);
        buf, next := buf + chunks[next], next + 1;
        nl := FindNewline(buf);
      }
      LineTaken(buf, Concat(chunks[next..]), nl);
      line := Some(buf[..nl]);
      buf := buf[nl + 1..];
    }
  }

  lemma LineTaken(buf: string, rest: string, nl: nat)
    requires nl < |buf| && buf[nl] == NL && NL !in buf[..nl]
    ensures var ahead := SplitLines(buf[nl + 1..] + rest);
      SplitLines(buf + rest) == Split([buf[..nl]] + ahead.lines, ahead.tail)
  {
    assert (buf + rest)[..nl] == buf[..nl] && (buf + rest)[nl + 1..] == buf[nl + 1..] + rest;
    SplitFirst(buf + rest, nl);
  }

  lemma FitSnoc(names: NameTable, served: seq<Met>, replies: seq<Reply>, m: Met, reply: Reply)
    requires Fit(names, served, replies) && Answers(names, m.world, m.req, reply)
    ensures Fit(names, served + [m], replies + [reply])
  {
  }

  lemma FirstRequest(parse: string -> Option<Json>, line: string, more: seq<string>)
    ensures Requests(parse, [line] + more)
      == if line == "" then Requests(parse, more) else [RequestOf(parse(line))] + Requests(parse, more)
  {
    assert ([line] + more)[1..] == more;
  }

  /** The course from its first request on. */
  lemma FirstMet(names: NameTable, w: World, others: seq<seq<Action>>, req: Request, more: seq<Request>,
                 served: seq<Met>)
    ensures var met := AffectedAll(names, w, Batch(others));
      var after := Effect(names, met, req);
      Extend(served, CourseOf(names, w, others, [req] + more)) ==
        if met.gone then Course(served, met, Aborted)
        else if req == Events then Course(served, after, Streaming)
        else if after.gone then Course(served, after, Aborted)
        else Extend(served + [Met(req, met)], CourseOf(names, after, Later(others), more))
  {
    assert ([req] + more)[1..] == more && served + [] == served;
    var met := AffectedAll(names, w, Batch(others));
    ExtendTwice(served, [Met(req, met)], CourseOf(names, Effect(names, met, req), Later(others), more));
  }

  // ---- what a course is ----

  /** The requests served are the first ones, in order; all of them unless one is the event stream or the process
      is gone by then; and none of them is one that ends the conversation. */
  lemma {:induction false} ServedInOrder(names: NameTable, w: World, others: seq<seq<Action>>, reqs: seq<Request>)
    ensures InOrder(CourseOf(names, w, others, reqs), reqs)
    decreases |reqs|
  {
    if reqs != [] {
      var met := AffectedAll(names, w, Batch(others));
      var after := Effect(names, met, reqs[0]);
      EffectIs(names, met, reqs[0]);
      ServedInOrder(names, after, Later(others), reqs[1..]);
      InOrderExtends(Met(reqs[0], met), CourseOf(names, after, Later(others), reqs[1..]), reqs);
    }
  }

  ghost predicate InOrder(c: Course, reqs: seq<Request>) {
    && |c.served| <= |reqs|
    && (forall i :: 0 <= i < |c.served| ==> ServedAs(c.served[i], reqs[i]))
    && (match c.end
        case Closed => |c.served| == |reqs|
        case Streaming => |c.served| < |reqs| && reqs[|c.served|] == Events && !c.world.gone
        case Aborted => |c.served| < |reqs| && c.world.gone)
  }

  ghost predicate ServedAs(m: Met, req: Request) {
    m.req == req && req != Events && req != IllTyped && !m.world.gone
  }

  lemma InOrderExtends(m: Met, c: Course, reqs: seq<Request>)
    requires reqs != [] && InOrder(c, reqs[1..])
    ensures ServedAs(m, reqs[0]) ==> InOrder(Extend([m], c), reqs)
  {
  }

  /** The steps of the daemon during a conversation: what the others do, and the requests' own. */
  ghost function StepsDuring(names: NameTable, w: World, others: seq<seq<Action>>, reqs: seq<Request>): seq<Action>
    decreases |reqs|
  {
    if reqs == [] then []
    else
      var met := AffectedAll(names, w, Batch(others));
      var after := Effect(names, met, reqs[0]);
      if met.gone then Batch(others)
      else if reqs[0] == Events || after.gone then Batch(others) + ActsOf(reqs[0])
      else (Batch(others) + ActsOf(reqs[0])) + StepsDuring(names, after, Later(others), reqs[1..])
  }

  lemma {:induction false} CourseIsSteps(names: NameTable, w: World, others: seq<seq<Action>>, reqs: seq<Request>)
    ensures CourseOf(names, w, others, reqs).world
      == AffectedAll(names, w, StepsDuring(names, w, others, reqs))
    decreases |reqs|
  {
    if reqs != [] {
      var met := AffectedAll(names, w, Batch(others));
      var after := Effect(names, met, reqs[0]);
      AffectedAppend(names, w, Batch(others), ActsOf(reqs[0]));
      CourseIsSteps(names, after, Later(others), reqs[1..]);
      AffectedAppend(names, w, Batch(others) + ActsOf(reqs[0]), StepsDuring(names, after, Later(others), reqs[1..]));
    }
  }

  /** A conversation is part of a run of the daemon: where its steps and the others' make up a run, the run
      leads to what the conversation leaves. */
  lemma ConversationIsPartOfARun(s: State, path: string, others: seq<seq<Action>>, reqs: seq<Request>)
    requires CodesKnown(s.table, s.names)
    requires Feasible(s, StepsDuring(s.names, WorldOf(s, path), others, reqs))
    ensures WorldOf(Exec(s, StepsDuring(s.names, WorldOf(s, path), others, reqs)), path)
      == CourseOf(s.names, WorldOf(s, path), others, reqs).world
  {
    CourseIsSteps(s.names, WorldOf(s, path), others, reqs);
    WorldAfterRun(s, path, StepsDuring(s.names, WorldOf(s, path), others, reqs));
  }

  // ---- chunking does not matter ----

  /** Replies that say the same: the same one, or listings of the same entries. */
  ghost predicate Alike(r: Reply, r': Reply) {
    r == r' || (r.BindingList? && r'.BindingList? && forall e :: e in r.entries <==> e in r'.entries)
  }

  /** Two conversations over the same lines and amid the same doings of the others, however the bytes of each were
      cut into reads: the same end, the same daemon after it, and replies that say the same, one by one. */
  lemma OutcomeIsDetermined(parse: string -> Option<Json>, names: NameTable, before: World, others: seq<seq<Action>>,
                            split: Split, after: World, replies: seq<Reply>, buf: string, end: End,
                            after': World, replies': seq<Reply>, buf': string, end': End)
    requires Conversation(parse, names, before, others, split, after, replies, buf, end)
    requires Conversation(parse, names, before, others, split, after', replies', buf', end')
    ensures end == end' && after == after' && |replies| == |replies'|
    ensures forall i :: 0 <= i < |replies| ==> Alike(replies[i], replies'[i])
    ensures end == Closed ==> buf == buf'
  {
    var served := CourseOf(names, before, others, Requests(parse, split.lines)).served;
    forall i | 0 <= i < |replies| ensures Alike(replies[i], replies'[i]) {
      AnswersAreAlike(names, served[i].world, served[i].req, replies[i], replies'[i]);
    }
  }

  lemma AnswersAreAlike(names: NameTable, w: World, req: Request, r: Reply, r': Reply)
    requires Answers(names, w, req, r) && Answers(names, w, req, r')
    ensures Alike(r, r')
  {
    if req.Bindings? {
      var es :| IsListing(es, w.flat, names) && r.entries == OfDevice(es, req.filter);
      var es' :| IsListing(es', w.flat, names) && r'.entries == OfDevice(es', req.filter);
      forall e ensures e in r.entries <==> e in r'.entries {
        OfDeviceIs(es, req.filter, e);
        OfDeviceIs(es', req.filter, e);
        ListedIff(es, w.flat, names, e);
        ListedIff(es', w.flat, names, e);
      }
    }
  }

  lemma {:induction false} OfDeviceIs(es: seq<BindingEntry>, filter: string, e: BindingEntry)
    ensures e in OfDevice(es, filter) <==> e in es && (filter == "" || e.deviceId == filter)
  {
    if es != [] {
      OfDeviceIs(es[..|es| - 1], filter, e);
      assert es == es[..|es| - 1] + [es[|es| - 1]];
    }
  }

  ghost predicate Distinct(es: seq<BindingEntry>) {
    forall i, j :: 0 <= i < j < |es| ==> KeyOf(es[i]) != KeyOf(es[j])
  }

  lemma DistinctSnoc(es: seq<BindingEntry>, e: BindingEntry)
    requires Distinct(es) && forall x :: x in es ==> KeyOf(x) != KeyOf(e)
    ensures Distinct(es + [e])
  {
  }

  lemma {:induction false} OfDeviceDistinct(es: seq<BindingEntry>, filter: string)
    requires Distinct(es)
    ensures Distinct(OfDevice(es, filter))
  {
    if es != [] {
      var front, last := es[..|es| - 1], es[|es| - 1];
      OfDeviceDistinct(front, filter);
      forall e | e in OfDevice(front, filter) ensures KeyOf(e) != KeyOf(last) {
        OfDeviceIs(front, filter, e);
        var i :| 0 <= i < |front| && front[i] == e;
        assert es[i] == e;
      }
      DistinctSnoc(OfDevice(front, filter), last);
      assert OfDevice(front, filter) + [] == OfDevice(front, filter);
    }
  }

  /** What is shown of a listing: each binding of the device asked for, or of all, exactly once. */
  lemma ShownIsOf(es: seq<BindingEntry>, t: Table, names: NameTable, filter: string)
    requires IsListing(es, Flatten(t), names)
    ensures var shown := OfDevice(es, filter);
      && (forall i :: 0 <= i < |shown| ==>
            var e := shown[i];
            && (filter == "" || e.deviceId == filter)
            && e.deviceId in t && e.keycode in t[e.deviceId] && e.command == t[e.deviceId][e.keycode]
            && e.keyName == CodeToName(names, e.keycode))
      && (forall i, j :: 0 <= i < j < |shown| ==>
            shown[i].deviceId != shown[j].deviceId || shown[i].keycode != shown[j].keycode)
      && (forall d, c :: d in t && c in t[d] && (filter == "" || d == filter) ==>
            exists e :: e in shown && e.deviceId == d && e.keycode == c)
  {
    var shown := OfDevice(es, filter);
    ListingIsOf(es, t, names);
    OfDeviceDistinct(es, filter);
    forall i | 0 <= i < |shown| ensures shown[i] in es && (filter == "" || shown[i].deviceId == filter) {
      OfDeviceIs(es, filter, shown[i]);
    }
    forall i, j | 0 <= i < j < |shown|
      ensures shown[i].deviceId != shown[j].deviceId || shown[i].keycode != shown[j].keycode
    {
      assert KeyOf(shown[i]) != KeyOf(shown[j]);
    }
    forall d, c | d in t && c in t[d] && (filter == "" || d == filter)
      ensures exists e :: e in shown && e.deviceId == d && e.keycode == c
    {
      var i :| 0 <= i < |es| && es[i].deviceId == d && es[i].keycode == c;
      OfDeviceIs(es, filter, es[i]);
    }
  }

  lemma ListedIff(es: seq<BindingEntry>, f: Flat, names: NameTable, e: BindingEntry)
    requires IsListing(es, f, names)
    ensures e in es <==> EntryOf(e, f, names)
  {
    if EntryOf(e, f, names) {
      assert Listed(es, KeyOf(e));
      var i :| 0 <= i < |es| && KeyOf(es[i]) == KeyOf(e);
      assert EntryOf(es[i], f, names);
    }
  }

  /** A listing has as many entries as there are bindings. */
  lemma {:induction false} ListingCount(es: seq<BindingEntry>, f: Flat, names: NameTable)
    requires IsListing(es, f, names)
    ensures |es| == |f|
  {
    if es == [] {
      assert f.Keys == {} by { assert forall k :: k in f ==> Listed(es, k); }
    } else {
      ListingFront(es, f, names);
      var k := KeyOf(es[|es| - 1]);
      var g := f - {k};
      ListingCount(es[..|es| - 1], g, names);
      assert k in f && f.Keys == g.Keys + {k};
      assert |f| == |f.Keys| && |g| == |g.Keys|;
    }
  }
}
