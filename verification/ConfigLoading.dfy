// From a JSON document to the daemon's configuration (ConfigLoader::load in src/config.cpp).
module ConfigLoading {
  import opened Common
  import opened Json
  import opened KeyMapper

  /** Threw: a JsonCpp accessor met an ill-typed value. Nothing catches that, so the process ends. */
  datatype Outcome = Loaded | Failed | Threw

  // ---- one device block ----

  function MatchOf(dev: Json): DeviceMatch {
    if Has(dev, "match") && dev.fields["match"].Obj? then
      var m := dev.fields["match"];
      DeviceMatch(
        if HasStr(m, "name") then m.fields["name"].s else "",
        if HasStr(m, "vendor_product") then m.fields["vendor_product"].s else "",
        if HasStr(m, "path") then m.fields["path"].s else "")
    else DeviceMatch("", "", if HasStr(dev, "path") then dev.fields["path"].s else "")
  }

  /** A block takes part if it has an id and either some criterion or the wildcard id. */
  predicate Usable(dev: Json) {
    HasStr(dev, "id") && (MatchOf(dev) != DeviceMatch("", "", "") || dev.fields["id"].s == WILDCARD)
  }

  function BindingFields(dev: Json): map<string, Json> {
    if Has(dev, "bindings") && dev.fields["bindings"].Obj? then dev.fields["bindings"].fields else map[]
  }

  /** Reading a known key's command throws exactly on arrays and objects. */
  predicate CommandsReadable(names: NameTable, fields: map<string, Json>) {
    forall n :: n in fields && n in names ==> AsString(fields[n]).Some?
  }

  function Commands(names: NameTable, fields: map<string, Json>): (m: map<int, string>)
    requires CommandsReadable(names, fields)
    ensures forall n :: n in fields && n in names ==> names[n] in m && m[names[n]] == AsString(fields[n]).value
    ensures forall c :: c in m ==> exists n :: n in fields && n in names && names[n] == c
  {
    map n | n in fields && n in names :: names[n] := AsString(fields[n]).value
  }

  function BlockOf(names: NameTable, dev: Json): DeviceConfig
    requires Usable(dev) && CommandsReadable(names, BindingFields(dev))
  {
    DeviceConfig(dev.fields["id"].s, MatchOf(dev),
                 Has(dev, "grab") && dev.fields["grab"].Bool? && dev.fields["grab"].b,
                 Commands(names, BindingFields(dev)))
  }

  predicate BlockReadable(names: NameTable, dev: Json) {
    CanAskMembers(dev) && (Usable(dev) ==> CommandsReadable(names, BindingFields(dev)))
  }

  // ---- the document ----

  predicate DevicesReadable(names: NameTable, elems: seq<Json>) {
    forall e :: e in elems ==> BlockReadable(names, e)
  }

  /** The usable blocks, in document order. */
  function Blocks(names: NameTable, elems: seq<Json>): (devices: seq<DeviceConfig>)
    requires DevicesReadable(names, elems)
    ensures forall dc, c :: dc in devices && c in dc.bindings ==> c in names.Values
  {
    if elems == [] then []
    else
      var last := elems[|elems| - 1];
      assert last in elems && forall e :: e in elems[..|elems| - 1] ==> e in elems;
      var front := Blocks(names, elems[..|elems| - 1]);
      if Usable(last) then front + [BlockOf(names, last)] else front
  }

  predicate HasDeviceArray(root: Json) {
    Has(root, "devices") && root.fields["devices"].Arr?
  }

  function LoadOutcome(names: NameTable, file: FileContent): Outcome {
    if !file.Doc? then Failed
    else if !CanAskMembers(file.root) then Threw
    else if !HasDeviceArray(file.root) then Failed
    else if !DevicesReadable(names, file.root.fields["devices"].elems) then Threw
    else Loaded
  }

  function LoadedBlocks(names: NameTable, file: FileContent): (devices: seq<DeviceConfig>)
    requires LoadOutcome(names, file) == Loaded
    ensures forall dc, c :: dc in devices && c in dc.bindings ==> c in names.Values
  {
    Blocks(names, file.root.fields["devices"].elems)
  }

  // ---- what a load does to the settings ----

  datatype Settings = Settings(
    devices: seq<DeviceConfig>,
    daemonMode: bool,
    debug: bool,
    controlSocket: string,
    configPath: string)

  predicate GivesBool(root: Json, name: string) {
    Has(root, name) && root.fields[name].Bool?
  }

  /** The settings after a load that did not throw. */
  function SettingsAfter(names: NameTable, s: Settings, path: string, file: FileContent): Settings
    requires LoadOutcome(names, file) != Threw
  {
    if !file.Doc? then s
    else
      var root := file.root;
      Settings(
        if LoadOutcome(names, file) == Loaded then LoadedBlocks(names, file) else [],
        if GivesBool(root, "daemon") then root.fields["daemon"].b else s.daemonMode,
        if GivesBool(root, "debug") then root.fields["debug"].b else s.debug,
        if HasStr(root, "control_socket") then root.fields["control_socket"].s else s.controlSocket,
        path)
  }

  /** The options that a document gives are those already in force. */
  predicate SameOptions(root: Json, s: Settings) {
    && (GivesBool(root, "daemon") ==> root.fields["daemon"].b == s.daemonMode)
    && (GivesBool(root, "debug") ==> root.fields["debug"].b == s.debug)
    && (HasStr(root, "control_socket") ==> root.fields["control_socket"].s == s.controlSocket)
  }

  /** A failed load keeps the current configuration, as its message has it, if and only if the file could not
      be parsed, or there were no devices to lose and the path and all options given are the current ones. */
  lemma FailedLoadKeepsIff(names: NameTable, s: Settings, path: string, file: FileContent)
    requires LoadOutcome(names, file) == Failed
    ensures SettingsAfter(names, s, path, file) == s <==>
      (file.Doc? ==> s.devices == [] && path == s.configPath && SameOptions(file.root, s))
  {
  }

  /** Two failed reloads that do not: an empty document drops the devices, and one that gives nothing but an
      option sets the option. */
  lemma FailedLoadsThatChange(names: NameTable, s: Settings)
    ensures var file := Doc(Obj(map[]));
      && LoadOutcome(names, file) == Failed
      && (s.devices != [] ==> SettingsAfter(names, s, s.configPath, file) == s.(devices := []) != s)
    ensures var file := Doc(Obj(map["debug" := Bool(!s.debug)]));
      && LoadOutcome(names, file) == Failed
      && (s.devices == [] ==> SettingsAfter(names, s, s.configPath, file) == s.(debug := !s.debug) != s)
  {
  }

  // ---- the loader, step by step ----

  /** g_config. */
  class Config {
    const names: NameTable
    var devices: seq<DeviceConfig>
    var daemonMode: bool
    var debug: bool
    var controlSocket: string
    var configPath: string

    constructor (names: NameTable)
      ensures this.names == names && devices == []
    {
      this.names := names;
      devices, daemonMode, debug := [], false, false;
      controlSocket, configPath := "/tmp/pointerforce.sock", "config/pointerforce.json";
    }

    function Now(): Settings
      reads this
    {
      Settings(devices, daemonMode, debug, controlSocket, configPath)
    }

    method Load(path: string, file: FileContent) returns (o: Outcome)
      modifies this
      ensures o == LoadOutcome(names, file)
      ensures o != Threw ==> Now() == SettingsAfter(names, old(Now()), path, file)
      ensures configPath == if file.Doc? then path else old(configPath)
      ensures o == Loaded ==> devices == LoadedBlocks(names, file)
      ensures o == Failed ==> devices == if file.Doc? then [] else old(devices)
      // member by member
      ensures o == Loaded <==>
        file.Doc? && file.root.Obj? && "devices" in file.root.fields && file.root.fields["devices"].Arr?
        && forall dev :: dev in file.root.fields["devices"].elems ==> BlockReadable(names, dev)
      ensures o != Threw && file.Doc? && file.root.Obj? ==>
        var f := file.root.fields;
        && daemonMode == (if "daemon" in f && f["daemon"].Bool? then f["daemon"].b else old(daemonMode))
        && debug == (if "debug" in f && f["debug"].Bool? then f["debug"].b else old(debug))
        && controlSocket == (if "control_socket" in f && f["control_socket"].Str? then f["control_socket"].s
                             else old(controlSocket))
      ensures o == Failed ==>
        (Now() == old(Now()) <==>
         (file.Doc? ==> old(devices) == [] && path == old(configPath) && SameOptions(file.root, old(Now()))))
    {
      ghost var before := Now();
      o := ReadDocument(path, file);
      LoadedIff(names, file);
      if o != Threw && file.Doc? && file.root.Obj? { OptionsAre(names, before, path, file); }
    }

    /** The load itself. */
    method ReadDocument(path: string, file: FileContent) returns (o: Outcome)
      modifies this
      ensures o == LoadOutcome(names, file)
      ensures o != Threw ==> Now() == SettingsAfter(names, old(Now()), path, file)
      ensures configPath == if file.Doc? then path else old(configPath)
    {
      if !file.Doc? { return Failed; }
      var root := file.root;
      devices, configPath := [], path;
      if !CanAskMembers(root) { return Threw; }
      if Has(root, "daemon") && root.fields["daemon"].Bool? { daemonMode := root.fields["daemon"].b; }
      if Has(root, "debug") && root.fields["debug"].Bool? { debug := root.fields["debug"].b; }
      if HasStr(root, "control_socket") { controlSocket := root.fields["control_socket"].s; }
      if !HasDeviceArray(root) { return Failed; }
      o := ReadDevices(root.fields["devices"].elems);
    }

    method ReadDevices(elems: seq<Json>) returns (o: Outcome)
      requires devices == []
      modifies this`devices
      ensures o == if DevicesReadable(names, elems) then Loaded else Threw
      ensures o == Loaded ==> devices == Blocks(names, elems)
    {
      for i := 0 to |elems|
        invariant DevicesReadable(names, elems[..i]) && devices == Blocks(names, elems[..i])
      {
        var dev := elems[i];
        assert dev in elems && elems[..i + 1][..i] == elems[..i];
        assert elems[..i + 1] == elems[..i] + [dev];
        var ok, keep, dc := ReadDevice(dev);
        if !ok { return Threw; }
        if keep { devices := devices + [dc]; }
      }
      assert elems[..|elems|] == elems;
      return Loaded;
    }

    /** One round of the device loop; keep is false where the source skips the entry. */
    method ReadDevice(dev: Json) returns (ok: bool, keep: bool, dc: DeviceConfig)
      ensures ok <==> BlockReadable(names, dev)
      ensures ok ==> keep == Usable(dev)
      ensures ok && keep ==> dc == BlockOf(names, dev)
      // member by member
      ensures ok ==> dev.Obj? || dev.Null?
      ensures ok && keep ==> dev.Obj? && "id" in dev.fields && dev.fields["id"] == Str(dc.id)
      ensures ok && keep ==>
        dc.id == "*" || dc.match_.nameContains != "" || dc.match_.vendorProduct != "" || dc.match_.path != ""
      ensures ok && keep && "match" in dev.fields && dev.fields["match"].Obj? ==>
        var m := dev.fields["match"].fields;
        && dc.match_.nameContains == (if "name" in m && m["name"].Str? then m["name"].s else "")
        && dc.match_.vendorProduct ==
           (if "vendor_product" in m && m["vendor_product"].Str? then m["vendor_product"].s else "")
        && dc.match_.path == (if "path" in m && m["path"].Str? then m["path"].s else "")
      ensures ok && keep && !("match" in dev.fields && dev.fields["match"].Obj?) ==>
        && dc.match_.nameContains == "" && dc.match_.vendorProduct == ""
        && dc.match_.path == (if "path" in dev.fields && dev.fields["path"].Str? then dev.fields["path"].s else "")
      ensures ok && keep ==> (dc.grab <==> "grab" in dev.fields && dev.fields["grab"] == Bool(true))
      ensures ok && keep && !("bindings" in dev.fields && dev.fields["bindings"].Obj?) ==> dc.bindings == map[]
      ensures ok && keep && "bindings" in dev.fields && dev.fields["bindings"].Obj? ==>
        IsRead(names, dev.fields["bindings"].fields, dc.bindings)
    {
      ok, keep, dc := ReadEntry(dev);
      if ok && keep { BlockIs(names, dev); }
    }

    method ReadEntry(dev: Json) returns (ok: bool, keep: bool, dc: DeviceConfig)
      ensures ok <==> BlockReadable(names, dev)
      ensures ok ==> keep == Usable(dev)
      ensures ok && keep ==> dc == BlockOf(names, dev)
    {
      dc := DeviceConfig("", DeviceMatch("", "", ""), false, map[]);
      if !CanAskMembers(dev) { return false, false, dc; }
      if !HasStr(dev, "id") { return true, false, dc; }
      var id, m := dev.fields["id"].s, MatchOf(dev);
      if m.nameContains == "" && m.vendorProduct == "" && m.path == "" && id != WILDCARD {
        return true, false, dc;
      }
      var grab := Has(dev, "grab") && dev.fields["grab"].Bool? && dev.fields["grab"].b;
      var bindings;
      ok, bindings := ReadBindings(BindingFields(dev));
      return ok, true, DeviceConfig(id, m, grab, bindings);
    }

    /** Unknown key names are skipped before their command is looked at. */
    method ReadBindings(fields: map<string, Json>) returns (ok: bool, bindings: map<int, string>)
      ensures ok <==> CommandsReadable(names, fields)
      ensures ok ==> bindings == Commands(names, fields)
      ensures ok <==> forall n :: n in fields && n in names ==> !fields[n].Arr? && !fields[n].Obj?
      ensures ok ==> IsRead(names, fields, bindings)
    {
      ok, bindings := ReadFields(fields);
      ReadableIff(names, fields);
      if ok { CommandsAre(names, fields); }
    }

    method ReadFields(fields: map<string, Json>) returns (ok: bool, bindings: map<int, string>)
      ensures ok <==> CommandsReadable(names, fields)
      ensures ok ==> bindings == Commands(names, fields)
    {
      bindings := map[];
      var todo := fields.Keys;
      ghost var done: map<string, Json> := map[];
      while todo != {}
        invariant PartOf(done, fields) && todo == fields.Keys - done.Keys
        invariant CommandsReadable(names, done) && bindings == Commands(names, done)
        decreases |todo|
      {
        var n := AnyOf(todo);
        ok, bindings := ReadBinding(done, n, fields[n], bindings);
        OneMoreField(done, fields, n);
        done, todo := done[n := fields[n]], todo - {n};
        if !ok {
          MoreFields(names, done, fields);
          return false, map[];
        }
      }
      AllFields(done, fields);
      return true, bindings;
    }

    /** One turn of the loop, after the bindings of `before` were read. */
    method ReadBinding(ghost before: map<string, Json>, n: string, j: Json, bindings: map<int, string>)
      returns (ok: bool, more: map<int, string>)
      requires n !in before && CommandsReadable(names, before) && bindings == Commands(names, before)
      ensures ok <==> CommandsReadable(names, before[n := j])
      ensures ok ==> more == Commands(names, before[n := j])
    {
      CommandsSnoc(names, before, n, j);
      if n !in names { return true, bindings; }
      var cmd := AsString(j);
      if cmd.None? { return false, bindings; }
      return true, bindings[names[n] := cmd.value];
    }
  }

  ghost predicate PartOf(some: map<string, Json>, all: map<string, Json>) {
    forall n :: n in some ==> n in all && some[n] == all[n]
  }

  lemma OneMoreField(some: map<string, Json>, all: map<string, Json>, n: string)
    requires PartOf(some, all) && n in all && n !in some
    ensures var more := some[n := all[n]];
      PartOf(more, all) && all.Keys - more.Keys == (all.Keys - some.Keys) - {n}
  {
  }

  lemma AllFields(some: map<string, Json>, all: map<string, Json>)
    requires PartOf(some, all) && all.Keys - some.Keys == {}
    ensures some == all
  {
    forall n | n in all ensures n in some {
      assert n in all.Keys - some.Keys <==> n !in some;
    }
  }

  lemma MoreFields(names: NameTable, some: map<string, Json>, all: map<string, Json>)
    requires !CommandsReadable(names, some) && PartOf(some, all)
    ensures !CommandsReadable(names, all)
  {
  }

  /** The bindings are those of the known names, each with its value as text. */
  ghost predicate IsRead(names: NameTable, fields: map<string, Json>, bindings: map<int, string>) {
    && (forall c :: c in bindings ==> exists n :: n in fields && n in names && names[n] == c)
    && (forall n :: n in fields && n in names ==> names[n] in bindings && TextOf(fields[n], bindings[names[n]]))
  }

  ghost predicate TextOf(j: Json, text: string) {
    match j
    case Str(s) => text == s
    case Num(t) => text == t
    case Bool(b) => text == if b then "true" else "false"
    case Null => text == ""
    case _ => false
  }

  /** What IsRead asks of a name with a string under it. */
  lemma StringIsRead(names: NameTable, fields: map<string, Json>, bindings: map<int, string>, n: string, cmd: string)
    requires IsRead(names, fields, bindings) && n in fields && n in names && fields[n] == Str(cmd)
    ensures names[n] in bindings && bindings[names[n]] == cmd
  {
  }

  lemma ReadableIff(names: NameTable, fields: map<string, Json>)
    ensures CommandsReadable(names, fields) <==>
      forall n :: n in fields && n in names ==> !fields[n].Arr? && !fields[n].Obj?
  {
  }

  lemma CommandsAre(names: NameTable, fields: map<string, Json>)
    requires CommandsReadable(names, fields)
    ensures IsRead(names, fields, Commands(names, fields))
  {
  }

  lemma LoadedIff(names: NameTable, file: FileContent)
    ensures LoadOutcome(names, file) == Loaded <==>
      file.Doc? && file.root.Obj? && "devices" in file.root.fields && file.root.fields["devices"].Arr?
      && forall dev :: dev in file.root.fields["devices"].elems ==> BlockReadable(names, dev)
  {
  }

  lemma OptionsAre(names: NameTable, s: Settings, path: string, file: FileContent)
    requires LoadOutcome(names, file) != Threw && file.Doc? && file.root.Obj?
    ensures var f, t := file.root.fields, SettingsAfter(names, s, path, file);
      && t.daemonMode == (if "daemon" in f && f["daemon"].Bool? then f["daemon"].b else s.daemonMode)
      && t.debug == (if "debug" in f && f["debug"].Bool? then f["debug"].b else s.debug)
      && t.controlSocket == (if "control_socket" in f && f["control_socket"].Str? then f["control_socket"].s
                             else s.controlSocket)
  {
  }

  /** A block, member by member of its entry. */
  lemma BlockIs(names: NameTable, dev: Json)
    requires Usable(dev) && CommandsReadable(names, BindingFields(dev))
    ensures dev.Obj?
    ensures var dc := BlockOf(names, dev);
      && "id" in dev.fields && dev.fields["id"] == Str(dc.id)
      && (dc.id == "*" || dc.match_.nameContains != "" || dc.match_.vendorProduct != "" || dc.match_.path != "")
      && (dc.grab <==> "grab" in dev.fields && dev.fields["grab"] == Bool(true))
      && (if "match" in dev.fields && dev.fields["match"].Obj? then
            var m := dev.fields["match"].fields;
            && dc.match_.nameContains == (if "name" in m && m["name"].Str? then m["name"].s else "")
            && dc.match_.vendorProduct ==
               (if "vendor_product" in m && m["vendor_product"].Str? then m["vendor_product"].s else "")
            && dc.match_.path == (if "path" in m && m["path"].Str? then m["path"].s else "")
          else
            && dc.match_.nameContains == "" && dc.match_.vendorProduct == ""
            && dc.match_.path == (if "path" in dev.fields && dev.fields["path"].Str? then dev.fields["path"].s else ""))
      && (if "bindings" in dev.fields && dev.fields["bindings"].Obj?
          then IsRead(names, dev.fields["bindings"].fields, dc.bindings) else dc.bindings == map[])
  {
    CommandsAre(names, BindingFields(dev));
  }

  lemma BlockReadableIff(names: NameTable, dev: Json)
    ensures BlockReadable(names, dev) <==>
      && (dev.Obj? || dev.Null?)
      && (Usable(dev) && "bindings" in dev.fields && dev.fields["bindings"].Obj? ==>
            forall n :: n in dev.fields["bindings"].fields && n in names ==>
              !dev.fields["bindings"].fields[n].Arr? && !dev.fields["bindings"].fields[n].Obj?)
  {
    ReadableIff(names, BindingFields(dev));
  }

  /** Which entries take part: those with an id, and some criterion or the wildcard's id. */
  lemma UsableMeans(dev: Json)
    ensures Usable(dev) <==>
      && dev.Obj? && "id" in dev.fields && dev.fields["id"].Str?
      && (|| dev.fields["id"].s == "*"
          || (if "match" in dev.fields && dev.fields["match"].Obj? then
                exists n :: n in {"name", "vendor_product", "path"} && n in dev.fields["match"].fields
                            && dev.fields["match"].fields[n].Str? && dev.fields["match"].fields[n].s != ""
              else "path" in dev.fields && dev.fields["path"].Str? && dev.fields["path"].s != ""))
  {
    if Usable(dev) && "match" in dev.fields && dev.fields["match"].Obj? && dev.fields["id"].s != "*" {
      assert "name" in {"name", "vendor_product", "path"} && "vendor_product" in {"name", "vendor_product", "path"};
    }
  }

  /** Loading and, if that succeeds, rebuilding the table, as a reload by signal or by socket does. */
  method LoadAndInit(config: Config, mapper: Mapper, file: FileContent) returns (o: Outcome)
    requires mapper.Valid() && config.names == mapper.names
    modifies config, mapper`table
    ensures mapper.Valid() && o == LoadOutcome(mapper.names, file) && config.configPath == old(config.configPath)
    ensures mapper.table == if o == Loaded then InitTable(LoadedBlocks(mapper.names, file)) else old(mapper.table)
  {
    o := config.Load(config.configPath, file);
    if o == Loaded { mapper.Init(config.devices); }
  }

  lemma CommandsUnique(names: NameTable, fields: map<string, Json>, m: map<int, string>)
    requires CommandsReadable(names, fields)
    requires forall n :: n in fields && n in names ==> names[n] in m && m[names[n]] == AsString(fields[n]).value
    requires forall c :: c in m ==> exists n :: n in fields && n in names && names[n] == c
    ensures m == Commands(names, fields)
  {
    var k := Commands(names, fields);
    forall c: int ensures c in m <==> c in k {
      if c in m { var n :| n in fields && n in names && names[n] == c; }
      if c in k { var n :| n in fields && n in names && names[n] == c; }
    }
  }

  lemma CommandsSnoc(names: NameTable, fields: map<string, Json>, n: string, j: Json)
    requires CommandsReadable(names, fields) && n !in fields
    ensures CommandsReadable(names, fields[n := j]) <==> (n in names ==> AsString(j).Some?)
    ensures n in names && AsString(j).Some? ==>
      Commands(names, fields[n := j]) == Commands(names, fields)[names[n] := AsString(j).value]
    ensures n !in names ==> Commands(names, fields[n := j]) == Commands(names, fields)
  {
    var g := fields[n := j];
    assert n in g && g[n] == j;
    if n in names && AsString(j).Some? {
      CommandsUnique(names, g, Commands(names, fields)[names[n] := AsString(j).value]);
    } else if n !in names {
      CommandsUnique(names, g, Commands(names, fields));
    }
  }
}
