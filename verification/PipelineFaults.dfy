// What a client of the daemon can see of it, over every interleaving, and exactly which runs end the process.
module PipelineFaults {
  import opened Json
  import opened KeyMapper
  import opened ConfigLoading
  import opened EventPipeline
  import opened PipelineProperties

  // ---- what ends the process ----

  /** A file that a load gets through, whether or not it succeeds. */
  ghost predicate Harmless(names: NameTable, file: FileContent) {
    file.Doc? ==>
      && CanAskMembers(file.root)
      && (HasDeviceArray(file.root) ==> DevicesReadable(names, file.root.fields["devices"].elems))
  }

  lemma ThrowsUnlessHarmless(names: NameTable, file: FileContent)
    ensures LoadOutcome(names, file) == Threw <==> !Harmless(names, file)
  {
  }

  predicate Loads(a: Action) {
    a == Mux(LoadConfig) || a == Outside(SocketReload)
  }

  ghost predicate Fatal(names: NameTable, disk: FileContent, a: Action) {
    a == Outside(IllTypedLine) || a == Outside(BrokenPipe) || (Loads(a) && !Harmless(names, disk))
  }

  lemma AbortStep(s: State, a: Action)
    requires Enabled(s, a)
    ensures Next(s, a).aborted <==> Fatal(s.names, s.disk, a)
  {
    match a
    case Mux(m) => MuxFrame(s, m);
    case Device(r, d) => ReaderFrame(s, r, d);
    case Outside(o) => AbortOutside(s, o);
  }

  lemma AbortOutside(s: State, o: OutsideStep)
    requires !s.aborted
    ensures OutsideNext(s, o).aborted <==> Fatal(s.names, s.disk, Outside(o))
  {
  }

  ghost predicate FatalAt(names: NameTable, disk: FileContent, acts: seq<Action>, k: nat) {
    k < |acts| && Fatal(names, DiskAfter(disk, acts[..k]), acts[k])
  }

  ghost predicate FatalSomewhere(names: NameTable, disk: FileContent, acts: seq<Action>) {
    exists k :: FatalAt(names, disk, acts, k)
  }

  lemma FatalSnoc(names: NameTable, disk: FileContent, acts: seq<Action>)
    requires acts != []
    ensures var n := |acts| - 1;
      FatalSomewhere(names, disk, acts) ==
        (FatalSomewhere(names, disk, acts[..n]) || Fatal(names, DiskAfter(disk, acts[..n]), acts[n]))
  {
    var n := |acts| - 1;
    var front := acts[..n];
    forall k: nat | k < n ensures FatalAt(names, disk, acts, k) <==> FatalAt(names, disk, front, k) {
      assert front[..k] == acts[..k];
    }
    assert FatalAt(names, disk, acts, n) <==> Fatal(names, DiskAfter(disk, front), acts[n]);
  }

  /** A run ends the process if and only if, somewhere in it, a reload meets a file that is not harmless, a
      client sends an ill-typed line, or something is written to a client who has hung up. */
  lemma {:induction false} AbortedIff(s: State, acts: seq<Action>)
    requires Initial(s) && Feasible(s, acts)
    ensures Exec(s, acts).aborted <==> FatalSomewhere(s.names, s.disk, acts)
  {
    if acts != [] {
      var front, a := acts[..|acts| - 1], acts[|acts| - 1];
      AbortedIff(s, front);
      TableRefinesFlatMap(s, front);
      AbortStep(Exec(s, front), a);
      FatalSnoc(s.names, s.disk, acts);
    }
  }

  /** A document without a single binding that no load gets through, nor does one that is not an object. */
  lemma FatalDocuments(names: NameTable)
    ensures !Harmless(names, Doc(Obj(map["devices" := Arr([Arr([])])])))
    ensures !Harmless(names, Doc(Arr([])))
  {
    var elems := [Arr([])];
    assert elems[0] in elems && !BlockReadable(names, elems[0]);
  }

  /** Whatever the daemon is doing, such a document and a reload bring it down. */
  lemma AReloadCanEndIt(s: State)
    requires !s.aborted
    ensures var file := Doc(Obj(map["devices" := Arr([Arr([])])]));
      var acts := [Outside(WriteDisk(file)), Outside(SocketReload)];
      Feasible(s, acts) && Exec(s, acts).aborted
  {
    var file := Doc(Obj(map["devices" := Arr([Arr([])])]));
    FatalDocuments(s.names);
    AbortOutside(OutsideNext(s, WriteDisk(file)), SocketReload);
    ExecTwo(s, Outside(WriteDisk(file)), Outside(SocketReload));
  }

  // ---- what clients see ----

  datatype DeviceInfo = DeviceInfo(id: string, path: string, hwName: string, active: bool)

  /** The bindings in force, the file on disk and its path, the readers, the running flag, and whether the
      process is gone. */
  datatype World = World(
    flat: Flat,
    disk: FileContent,
    path: string,
    devices: seq<DeviceInfo>,
    running: bool,
    gone: bool)

  /** A reload reads the path that the daemon was started with, so the path stays. */
  ghost function WorldOf(s: State, path: string): World {
    World(Flatten(s.table), s.disk, path, InfoOf(s.readers), s.running, s.aborted)
  }

  function InfoOf(readers: seq<Reader>): (infos: seq<DeviceInfo>)
    ensures |infos| == |readers|
    ensures forall r :: 0 <= r < |readers| ==>
      && infos[r].id == readers[r].id && infos[r].path == readers[r].path
      && infos[r].hwName == readers[r].hwName && infos[r].active == readers[r].active
  {
    seq(|readers|, r requires 0 <= r < |readers| =>
      DeviceInfo(readers[r].id, readers[r].path, readers[r].hwName, readers[r].active))
  }

  /** Steps after which a reader is inactive. */
  predicate Deactivates(d: ReaderStep) {
    d.Stop? || (d.Read? && d.result.Disconnected?)
  }

  function DevicesStep(devices: seq<DeviceInfo>, a: Action): seq<DeviceInfo> {
    if a.Device? && a.r < |devices| && Deactivates(a.d) then devices[a.r := devices[a.r].(active := false)] else devices
  }

  /** What an action changes of it. */
  ghost function Affected(names: NameTable, w: World, a: Action): World {
    if w.gone then w
    else World(FlatStep(names, w.flat, w.disk, a), DiskStep(w.disk, a), w.path, DevicesStep(w.devices, a),
               w.running && a != Outside(Sigterm), Fatal(names, w.disk, a))
  }

  ghost function AffectedAll(names: NameTable, w: World, acts: seq<Action>): World {
    if acts == [] then w else Affected(names, AffectedAll(names, w, acts[..|acts| - 1]), acts[|acts| - 1])
  }

  lemma {:induction false} AffectedAppend(names: NameTable, w: World, xs: seq<Action>, ys: seq<Action>)
    ensures AffectedAll(names, w, xs + ys) == AffectedAll(names, AffectedAll(names, w, xs), ys)
  {
    if ys == [] {
      assert xs + ys == xs;
    } else {
      AffectedAppend(names, w, xs, ys[..|ys| - 1]);
      assert (xs + ys)[..|xs + ys| - 1] == xs + ys[..|ys| - 1];
    }
  }

  lemma DevicesFollow(s: State, a: Action)
    requires Enabled(s, a)
    ensures InfoOf(Next(s, a).readers) == DevicesStep(InfoOf(s.readers), a)
  {
    match a
    case Mux(m) => MuxFrame(s, m);
    case Device(r, d) => ReaderInfo(s.readers, s.running, r, d);
    case Outside(o) => OutsideFrame(s, o);
  }

  lemma ReaderInfo(readers: seq<Reader>, running: bool, r: nat, d: ReaderStep)
    requires r < |readers|
    ensures InfoOf(readers[r := ReaderAfter(readers[r], running, d)]) == DevicesStep(InfoOf(readers), Device(r, d))
  {
  }

  lemma RunningFollows(s: State, a: Action)
    requires Enabled(s, a)
    ensures Next(s, a).running == (s.running && a != Outside(Sigterm))
  {
    match a
    case Mux(m) => MuxFrame(s, m);
    case Device(r, d) => ReaderFrame(s, r, d);
    case Outside(o) =>
  }

  lemma WorldStep(s: State, path: string, a: Action)
    requires CodesKnown(s.table, s.names) && Enabled(s, a)
    ensures WorldOf(Next(s, a), path) == Affected(s.names, WorldOf(s, path), a)
  {
    TableStep(s, a);
    DevicesFollow(s, a);
    RunningFollows(s, a);
    AbortStep(s, a);
  }

  /** Over every run, what clients see is told from the actions alone. */
  lemma {:induction false} WorldAfterRun(s: State, path: string, acts: seq<Action>)
    requires CodesKnown(s.table, s.names) && Feasible(s, acts)
    ensures WorldOf(Exec(s, acts), path) == AffectedAll(s.names, WorldOf(s, path), acts)
    ensures Exec(s, acts).names == s.names && CodesKnown(Exec(s, acts).table, s.names)
  {
    if acts != [] {
      var front, a := acts[..|acts| - 1], acts[|acts| - 1];
      WorldAfterRun(s, path, front);
      TableStep(Exec(s, front), a);
      WorldStep(Exec(s, front), path, a);
    }
  }
}
