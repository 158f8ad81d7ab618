// The configuration editor of the web bridge: validation, atomic writing and the device handlers
// (frontend/services/ConfigStore.cc, frontend/main.cpp).
module ConfigEditing {
  import opened Common
  import opened Json

  // ---- validation ----

  datatype Problem =
    | NotAnObject | BadId | BadMatch | MissingMatch | BadGrab | BadBindings | BadCommand
    | BadDaemon | BadDebug | BadSocket | BadDevices | DuplicateId

  function IdOf(dev: Json): string {
    if HasStr(dev, "id") then dev.fields["id"].s else ""
  }

  ghost predicate AllStrings(fields: map<string, Json>) {
    forall n :: n in fields ==> fields[n].Str?
  }

  ghost predicate ValidDevice(dev: Json) {
    && IdOf(dev) != ""
    && (Has(dev, "match") ==> dev.fields["match"].Obj?)
    && (!Has(dev, "match") ==> IdOf(dev) == WILDCARD)
    && (Has(dev, "grab") ==> dev.fields["grab"].Bool?)
    && (Has(dev, "bindings") ==> dev.fields["bindings"].Obj? && AllStrings(dev.fields["bindings"].fields))
  }

  ghost predicate ValidDevices(elems: seq<Json>) {
    && (forall i :: 0 <= i < |elems| ==> ValidDevice(elems[i]))
    && (forall i, j :: 0 <= i < j < |elems| ==> IdOf(elems[i]) != IdOf(elems[j]))
  }

  ghost predicate ValidConfig(config: Json) {
    && config.Obj?
    && (Has(config, "daemon") ==> config.fields["daemon"].Bool?)
    && (Has(config, "debug") ==> config.fields["debug"].Bool?)
    && (Has(config, "control_socket") ==> config.fields["control_socket"].Str?)
    && (Has(config, "devices") ==> config.fields["devices"].Arr? && ValidDevices(config.fields["devices"].elems))
  }

  /** What a valid block is, member by member. */
  lemma ValidDeviceMeans(dev: Json)
    ensures ValidDevice(dev) <==>
      && dev.Obj? && "id" in dev.fields && dev.fields["id"].Str? && dev.fields["id"].s != ""
      && (if "match" in dev.fields then dev.fields["match"].Obj? else dev.fields["id"].s == "*")
      && ("grab" in dev.fields ==> dev.fields["grab"].Bool?)
      && ("bindings" in dev.fields ==>
            dev.fields["bindings"].Obj?
            && forall n :: n in dev.fields["bindings"].fields ==> dev.fields["bindings"].fields[n].Str?)
  {
  }

  lemma ValidConfigMeans(config: Json)
    ensures ValidConfig(config) <==>
      && config.Obj?
      && ("daemon" in config.fields ==> config.fields["daemon"].Bool?)
      && ("debug" in config.fields ==> config.fields["debug"].Bool?)
      && ("control_socket" in config.fields ==> config.fields["control_socket"].Str?)
      && ("devices" in config.fields ==>
            && config.fields["devices"].Arr?
            && var elems := config.fields["devices"].elems;
               && (forall i :: 0 <= i < |elems| ==> ValidDevice(elems[i]))
               && (forall i, j :: 0 <= i < j < |elems| ==> elems[i].fields["id"] != elems[j].fields["id"]))
  {
    if config.Obj? && "devices" in config.fields && config.fields["devices"].Arr? {
      var elems := config.fields["devices"].elems;
      if forall i :: 0 <= i < |elems| ==> ValidDevice(elems[i]) {
        forall i, j | 0 <= i < j < |elems|
          ensures IdOf(elems[i]) != IdOf(elems[j]) <==> elems[i].fields["id"] != elems[j].fields["id"]
        {
          assert ValidDevice(elems[i]) && ValidDevice(elems[j]);
        }
      }
    }
  }

  method ValidateDevice(dev: Json) returns (problem: Option<Problem>)
    ensures problem.None? <==> ValidDevice(dev)
  {
    if !dev.Obj? { return Some(NotAnObject); }
    if !HasStr(dev, "id") || dev.fields["id"].s == "" { return Some(BadId); }
    if Has(dev, "match") {
      if !dev.fields["match"].Obj? { return Some(BadMatch); }
    } else if dev.fields["id"].s != WILDCARD {
      return Some(MissingMatch);
    }
    if Has(dev, "grab") && !dev.fields["grab"].Bool? { return Some(BadGrab); }
    if Has(dev, "bindings") {
      if !dev.fields["bindings"].Obj? { return Some(BadBindings); }
      var fields := dev.fields["bindings"].fields;
      var todo := fields.Keys;
      while todo != {}
        invariant todo <= fields.Keys
        invariant forall n :: n in fields && n !in todo ==> fields[n].Str?
        decreases |todo|
      {
        var n :| n in todo;
        if !fields[n].Str? { return Some(BadCommand); }
        todo := todo - {n};
      }
    }
    return None;
  }

  method Validate(config: Json) returns (problem: Option<Problem>)
    ensures problem.None? <==> ValidConfig(config)
  {
    if !config.Obj? { return Some(NotAnObject); }
    if Has(config, "daemon") && !config.fields["daemon"].Bool? { return Some(BadDaemon); }
    if Has(config, "debug") && !config.fields["debug"].Bool? { return Some(BadDebug); }
    if Has(config, "control_socket") && !config.fields["control_socket"].Str? { return Some(BadSocket); }
    if Has(config, "devices") {
      if !config.fields["devices"].Arr? { return Some(BadDevices); }
      var elems := config.fields["devices"].elems;
      var seenIds := {};
      for i := 0 to |elems|
        invariant forall j :: 0 <= j < i ==> ValidDevice(elems[j]) && IdOf(elems[j]) in seenIds
        invariant forall id :: id in seenIds ==> exists j :: 0 <= j < i && IdOf(elems[j]) == id
        invariant forall j, k :: 0 <= j < k < i ==> IdOf(elems[j]) != IdOf(elems[k])
      {
        var p := ValidateDevice(elems[i]);
        if p.Some? { return p; }
        var id := elems[i].fields["id"].s;
        if id in seenIds { return Some(DuplicateId); }
        seenIds := seenIds + {id};
      }
    }
    return None;
  }

  // ---- the handlers, as functions of the file they read ----

  datatype Reply = Done | BadRequest | NotFound | ServerError

  /** What a handler decides: refuse, or hand a new document to the writer. An exception thrown
      while looking at ids is answered as a server error, before anything is written. */
  datatype Plan = Refuse(reply: Reply) | Store(root: Json)

  /** A member of the request, or what stands in for it. */
  function Opt(body: Json, name: string, default: Json): Json {
    if Has(body, name) then body.fields[name] else default
  }

  function DevicesOf(root: Json): seq<Json> {
    if Has(root, "devices") && root.fields["devices"].Arr? then root.fields["devices"].elems else []
  }

  function WithDevices(root: Json, elems: seq<Json>): Json
    requires root.Obj?
  {
    Obj(root.fields["devices" := Arr(elems)])
  }

  /** Does the block carry this id? None: its id is an array or object, and asString throws. */
  function Carries(dev: Json, id: string): Option<bool> {
    if !Has(dev, "id") then Some(false)
    else match AsString(dev.fields["id"])
      case None => None
      case Some(s) => Some(s == id)
  }

  lemma CarriesIs(dev: Json, id: string)
    ensures !(dev.Obj? && "id" in dev.fields) ==> Carries(dev, id) == Some(false)
    ensures dev.Obj? && "id" in dev.fields ==>
      match dev.fields["id"]
      case Str(s) => Carries(dev, id) == Some(s == id)
      case Num(text) => Carries(dev, id) == Some(text == id)
      case Bool(b) => Carries(dev, id) == Some(id == if b then "true" else "false")
      case Null => Carries(dev, id) == Some(id == "")
      case _ => Carries(dev, id) == None
  {
  }

  /** The first block carrying the id, or |elems|; None if the search throws first. */
  function Find(elems: seq<Json>, id: string): (r: Option<nat>)
    ensures r.Some? ==> r.value <= |elems|
    ensures r.Some? && r.value < |elems| ==> Carries(elems[r.value], id) == Some(true)
    ensures r.Some? ==> forall i :: 0 <= i < r.value ==> Carries(elems[i], id) == Some(false)
    ensures r.None? ==> exists i :: 0 <= i < |elems| && Carries(elems[i], id) == None
  {
    if elems == [] then Some(0)
    else match Carries(elems[0], id)
      case None => None
      case Some(true) => Some(0)
      case Some(false) =>
        var rest := Find(elems[1..], id);
        if rest.Some? then Some(rest.value + 1) else
          var i :| 0 <= i < |elems[1..]| && Carries(elems[1..][i], id) == None;
          assert Carries(elems[i + 1], id) == None;
          None
  }

  function NewDevice(body: Json): Json
    requires Has(body, "id")
  {
    var base := map["id" := body.fields["id"],
                    "match" := Opt(body, "match", Obj(map[])),
                    "bindings" := Opt(body, "bindings", Obj(map[]))];
    Obj(if Has(body, "grab") then base["grab" := body.fields["grab"]] else base)
  }

  /** A new block has the id given, and the match, grab and bindings given; without them an empty match, no grab and
      empty bindings. */
  lemma NewDeviceIs(body: Json)
    requires body.Obj? && "id" in body.fields
    ensures var f, given := NewDevice(body).fields, body.fields;
      && f.Keys == {"id", "match", "bindings"} + (if "grab" in given then {"grab"} else {})
      && f["id"] == given["id"]
      && f["match"] == (if "match" in given then given["match"] else Obj(map[]))
      && f["bindings"] == (if "bindings" in given then given["bindings"] else Obj(map[]))
      && ("grab" in given ==> f["grab"] == given["grab"])
  {
    assert "match"[0] != "grab"[0] && "id"[0] != "match"[0] && "bindings"[0] != "match"[0];
  }

  /** A handler gets the parsed body, or None if there was none or it did not parse. */
  ghost function PostPlan(file: FileContent, request: Option<Json>): Plan {
    if request.None? then Refuse(BadRequest) else
    var body := request.value;
    if !CanAskMembers(body) then Refuse(ServerError)
    else if !Has(body, "id") then Refuse(BadRequest)
    else if !ValidDevice(NewDevice(body)) then Refuse(BadRequest)
    else if !file.Doc? || !file.root.Obj? then Refuse(ServerError)
    else
      var elems := DevicesOf(file.root);
      match Find(elems, IdOf(NewDevice(body)))
      case None => Refuse(ServerError)
      case Some(i) =>
        if i < |elems| then Refuse(BadRequest)
        else Store(WithDevices(file.root, elems + [NewDevice(body)]))
  }

  function Edited(dev: Json, body: Json): Json
    requires dev.Obj?
  {
    var f1 := if Has(body, "match") then dev.fields["match" := body.fields["match"]] else dev.fields;
    Obj(if Has(body, "grab") then f1["grab" := body.fields["grab"]] else f1)
  }

  /** An edited block has the match and grab given; everything else, and those if not given, as it was. */
  lemma EditedIs(dev: Json, body: Json)
    requires dev.Obj?
    ensures var f, given := Edited(dev, body).fields, if body.Obj? then body.fields else map[];
      && (forall n :: n in f <==> n in dev.fields || (n in {"match", "grab"} && n in given))
      && (forall n :: n in f ==> f[n] == if n in {"match", "grab"} && n in given then given[n] else dev.fields[n])
  {
  }

  ghost function PutPlan(file: FileContent, id: string, request: Option<Json>): Plan {
    if request.None? then Refuse(BadRequest)
    else if !file.Doc? || !file.root.Obj? then Refuse(ServerError)
    else
      var elems := DevicesOf(file.root);
      match Find(elems, id)
      case None => Refuse(ServerError)
      case Some(i) =>
        if i == |elems| then Refuse(NotFound)
        else if !CanAskMembers(request.value) then Refuse(ServerError)
        else if !ValidDevice(Edited(elems[i], request.value)) then Refuse(BadRequest)
        else Store(WithDevices(file.root, elems[i := Edited(elems[i], request.value)]))
  }

  /** The blocks not carrying the id; None if looking at some id throws. */
  function Others(elems: seq<Json>, id: string): Option<seq<Json>> {
    if elems == [] then Some([])
    else
      var last := elems[|elems| - 1];
      match (Others(elems[..|elems| - 1], id), Carries(last, id))
      case (Some(front), Some(carries)) => Some(if carries then front else front + [last])
      case _ => None
  }

  ghost predicate LeftAt(ks: seq<nat>, left: seq<Json>, elems: seq<Json>, id: string) {
    && |ks| == |left|
    && (forall j :: 0 <= j < |ks| ==>
          ks[j] < |elems| && left[j] == elems[ks[j]] && Carries(elems[ks[j]], id) == Some(false))
    && (forall i :: 0 <= i < |elems| && Carries(elems[i], id) != Some(true) ==> i in ks)
  }

  /** Exactly the blocks with other ids are left, in their order. */
  ghost predicate AreTheOthers(left: seq<Json>, elems: seq<Json>, id: string) {
    exists ks: seq<nat> :: Increasing(ks) && LeftAt(ks, left, elems, id)
  }

  lemma LeftWitnessed(ks: seq<nat>, left: seq<Json>, elems: seq<Json>, id: string)
    requires Increasing(ks) && LeftAt(ks, left, elems, id)
    ensures AreTheOthers(left, elems, id)
  {
  }

  lemma LeftAtSnoc(ks: seq<nat>, left: seq<Json>, elems: seq<Json>, id: string, dev: Json)
    requires Increasing(ks) && LeftAt(ks, left, elems, id)
    ensures Carries(dev, id) == Some(true) ==> LeftAt(ks, left, elems + [dev], id)
    ensures Carries(dev, id) == Some(false) ==>
      Increasing(ks + [|elems|]) && LeftAt(ks + [|elems|], left + [dev], elems + [dev], id)
  {
    var all, more := elems + [dev], ks + [|elems|];
    forall i | 0 <= i < |all| && Carries(all[i], id) != Some(true) ensures i in more && (i < |elems| ==> i in ks) {
      assert more[|ks|] == |elems|;
      if i < |elems| { assert Carries(elems[i], id) != Some(true) && i in ks; }
    }
  }

  lemma {:induction false} OthersAre(elems: seq<Json>, id: string)
    ensures Others(elems, id).Some? ==> AreTheOthers(Others(elems, id).value, elems, id)
  {
    if elems == [] {
      LeftWitnessed([], [], [], id);
    } else {
      var front, dev := elems[..|elems| - 1], elems[|elems| - 1];
      OthersAre(front, id);
      if Others(elems, id).Some? { OthersSnoc(Others(front, id).value, front, id, dev); }
      assert elems == front + [dev];
    }
  }

  lemma OthersSnoc(left: seq<Json>, elems: seq<Json>, id: string, dev: Json)
    requires AreTheOthers(left, elems, id) && Carries(dev, id).Some?
    ensures AreTheOthers(if Carries(dev, id).value then left else left + [dev], elems + [dev], id)
  {
    var ks: seq<nat> :| Increasing(ks) && LeftAt(ks, left, elems, id);
    LeftAtSnoc(ks, left, elems, id, dev);
    if Carries(dev, id).value {
      LeftWitnessed(ks, left, elems + [dev], id);
    } else {
      LeftWitnessed(ks + [|elems|], left + [dev], elems + [dev], id);
    }
  }

  ghost function DeletePlan(file: FileContent, id: string): Plan {
    if !file.Doc? || !file.root.Obj? then Refuse(ServerError)
    else
      var elems := DevicesOf(file.root);
      match Others(elems, id)
      case None => Refuse(ServerError)
      case Some(left) =>
        if left == elems then Refuse(NotFound) else Store(WithDevices(file.root, left))
  }

  /** Which of the writer's system calls succeed. */
  datatype Disk = Disk(opens: bool, writes: bool, renames: bool)

  predicate Works(io: Disk) {
    io.opens && io.writes && io.renames
  }

  ghost function ReplyOf(plan: Plan, io: Disk): Reply {
    match plan
    case Refuse(reply) => reply
    case Store(root) => if ValidConfig(root) && Works(io) then Done else ServerError
  }

  ghost function FileAfter(file: FileContent, plan: Plan, io: Disk): FileContent {
    if plan.Store? && ReplyOf(plan, io) == Done then Doc(plan.root) else file
  }

  // ---- the file and the handlers ----

  class ConfigFile {
    var content: FileContent
    /** A temporary file lies beside it. */
    var tmp: bool

    constructor (content: FileContent)
      ensures this.content == content && !tmp
    {
      this.content, tmp := content, false;
    }

    /** ConfigStore::write: validate, write a temporary file, rename it over the real one. */
    method Write(config: Json, io: Disk) returns (ok: bool)
      modifies this
      ensures ok <==> ValidConfig(config) && Works(io)
      ensures content == if ok then Doc(config) else old(content)
      ensures tmp == if ValidConfig(config) && io.opens then !io.writes else old(tmp)
    {
      var problem := Validate(config);
      if problem.Some? { return false; }
      if !io.opens { return false; }
      tmp := true;
      if !io.writes { return false; }
      if !io.renames {
        tmp := false;
        return false;
      }
      content, tmp := Doc(config), false;
      return true;
    }

    method Post(request: Option<Json>, io: Disk) returns (reply: Reply)
      modifies this
      ensures reply == ReplyOf(PostPlan(old(content), request), io)
      ensures content == FileAfter(old(content), PostPlan(old(content), request), io)
    {
      if request.None? { return BadRequest; }
      var body := request.value;
      if !CanAskMembers(body) { return ServerError; }
      if !Has(body, "id") { return BadRequest; }
      var device := NewDevice(body);
      var problem := ValidateDevice(device);
      if problem.Some? { return BadRequest; }
      if !content.Doc? || !content.root.Obj? { return ServerError; }
      var root := content.root;
      if !Has(root, "devices") || !root.fields["devices"].Arr? { root := WithDevices(root, []); }
      var elems := root.fields["devices"].elems;
      var at := Search(elems, IdOf(device));
      if at.None? { return ServerError; }
      if at.value < |elems| { return BadRequest; }
      assert WithDevices(content.root, elems + [device]) == WithDevices(root, elems + [device]);
      root := WithDevices(root, elems + [device]);
      var ok := Write(root, io);
      return if ok then Done else ServerError;
    }

    method Put(id: string, request: Option<Json>, io: Disk) returns (reply: Reply)
      modifies this
      ensures reply == ReplyOf(PutPlan(old(content), id, request), io)
      ensures content == FileAfter(old(content), PutPlan(old(content), id, request), io)
    {
      if request.None? { return BadRequest; }
      if !content.Doc? || !content.root.Obj? { return ServerError; }
      var root := content.root;
      var elems := DevicesOf(root);
      var at := Search(elems, id);
      if at.None? { return ServerError; }
      if at.value == |elems| { return NotFound; }
      if !CanAskMembers(request.value) { return ServerError; }
      var updated := Edited(elems[at.value], request.value);
      var problem := ValidateDevice(updated);
      if problem.Some? { return BadRequest; }
      var ok := Write(WithDevices(root, elems[at.value := updated]), io);
      return if ok then Done else ServerError;
    }

    method Delete(id: string, io: Disk) returns (reply: Reply)
      modifies this
      ensures reply == ReplyOf(DeletePlan(old(content), id), io)
      ensures content == FileAfter(old(content), DeletePlan(old(content), id), io)
    {
      if !content.Doc? || !content.root.Obj? { return ServerError; }
      var root := content.root;
      var elems := DevicesOf(root);
      var ok, found, remaining := Leave(elems, id);
      if !ok { return ServerError; }
      if !found { return NotFound; }
      ok := Write(WithDevices(root, remaining), io);
      return if ok then Done else ServerError;
    }
  }

  /** The loop of DELETE; not ok if looking at some id throws. */
  method Leave(elems: seq<Json>, id: string) returns (ok: bool, found: bool, remaining: seq<Json>)
    ensures ok <==> Others(elems, id).Some?
    ensures ok ==> Others(elems, id) == Some(remaining) && (found <==> remaining != elems)
  {
    ok, found, remaining := true, false, [];
    for i := 0 to |elems|
      invariant Others(elems[..i], id) == Some(remaining)
      invariant |remaining| <= i && (found <==> |remaining| < i)
      invariant !found ==> remaining == elems[..i]
    {
      assert elems[..i + 1][..i] == elems[..i];
      var carries := Carries(elems[i], id);
      if carries.None? {
        OthersThrows(elems, id, i);
        return false, found, remaining;
      }
      if carries.value { found := true; continue; }
      remaining := remaining + [elems[i]];
    }
    assert elems[..|elems|] == elems;
  }

  method Search(elems: seq<Json>, id: string) returns (at: Option<nat>)
    ensures at == Find(elems, id)
  {
    for i := 0 to |elems|
      invariant forall j :: 0 <= j < i ==> Carries(elems[j], id) == Some(false)
    {
      FindSkips(elems, id, i);
      var carries := Carries(elems[i], id);
      if carries.None? { return None; }
      if carries.value { return Some(i); }
    }
    FindSkips(elems, id, |elems|);
    return Some(|elems|);
  }

  lemma {:induction false} FindSkips(elems: seq<Json>, id: string, n: nat)
    requires n <= |elems| && forall j :: 0 <= j < n ==> Carries(elems[j], id) == Some(false)
    ensures n == |elems| ==> Find(elems, id) == Some(n)
    ensures n < |elems| && Carries(elems[n], id) == Some(true) ==> Find(elems, id) == Some(n)
    ensures n < |elems| && Carries(elems[n], id) == None ==> Find(elems, id) == None
  {
    if n > 0 { FindSkips(elems[1..], id, n - 1); }
  }

  lemma {:induction false} OthersThrows(elems: seq<Json>, id: string, i: nat)
    requires i < |elems| && Carries(elems[i], id) == None
    ensures Others(elems, id) == None
  {
    if i < |elems| - 1 { OthersThrows(elems[..|elems| - 1], id, i); }
  }

  lemma NoneCarriesIff(elems: seq<Json>, id: string)
    ensures Find(elems, id) == Some(|elems|) <==> forall i :: 0 <= i < |elems| ==> Carries(elems[i], id) == Some(false)
  {
    if forall i :: 0 <= i < |elems| ==> Carries(elems[i], id) == Some(false) { FindSkips(elems, id, |elems|); }
  }

  lemma {:induction false} AllLeftIff(elems: seq<Json>, id: string)
    ensures Others(elems, id).Some? ==> |Others(elems, id).value| <= |elems|
    ensures Others(elems, id).Some? && |Others(elems, id).value| == |elems| <==>
      forall i :: 0 <= i < |elems| ==> Carries(elems[i], id) == Some(false)
  {
    if elems != [] {
      var front, dev := elems[..|elems| - 1], elems[|elems| - 1];
      AllLeftIff(front, id);
      assert elems == front + [dev];
    }
  }

  /** Which requests find nothing: those whose id no block carries, in a file that can be read. */
  lemma PutFindsNothingIff(file: FileContent, id: string, request: Option<Json>)
    ensures PutPlan(file, id, request) == Refuse(NotFound) <==>
      request.Some? && file.Doc? && file.root.Obj?
      && forall i :: 0 <= i < |DevicesOf(file.root)| ==> Carries(DevicesOf(file.root)[i], id) == Some(false)
  {
    if file.Doc? && file.root.Obj? { NoneCarriesIff(DevicesOf(file.root), id); }
  }

  lemma DeleteFindsNothingIff(file: FileContent, id: string)
    ensures DeletePlan(file, id) == Refuse(NotFound) <==>
      file.Doc? && file.root.Obj?
      && forall i :: 0 <= i < |DevicesOf(file.root)| ==> Carries(DevicesOf(file.root)[i], id) == Some(false)
  {
    if file.Doc? && file.root.Obj? {
      AllLeftIff(DevicesOf(file.root), id);
      if forall i :: 0 <= i < |DevicesOf(file.root)| ==> Carries(DevicesOf(file.root)[i], id) == Some(false) {
        OthersKeep(DevicesOf(file.root), id);
      }
    }
  }

  /** A POST of an id that a block carries is refused. */
  lemma PostRefusesDuplicates(file: FileContent, request: Option<Json>, i: nat)
    requires file.Doc? && file.root.Obj? && i < |DevicesOf(file.root)|
    requires request.Some? && Has(request.value, "id") && ValidDevice(NewDevice(request.value))
    requires request.value.fields["id"].Str?
    requires Carries(DevicesOf(file.root)[i], request.value.fields["id"].s) == Some(true)
    requires forall j :: 0 <= j < i ==>
      Carries(DevicesOf(file.root)[j], request.value.fields["id"].s) == Some(false)
    ensures PostPlan(file, request) == Refuse(BadRequest)
  {
    FindSkips(DevicesOf(file.root), request.value.fields["id"].s, i);
  }

  /** A successful DELETE leaves exactly the blocks with other ids, in their order, and they were fewer. */
  lemma DeleteKeepsTheOthers(file: FileContent, id: string, io: Disk)
    requires ReplyOf(DeletePlan(file, id), io) == Done
    ensures file.Doc? && file.root.Obj?
    ensures var before, after := DevicesOf(file.root), DevicesOf(FileAfter(file, DeletePlan(file, id), io).root);
      AreTheOthers(after, before, id) && after != before
  {
    OthersAre(DevicesOf(file.root), id);
  }

  /** A refusal, an invalid document or a failing disk leaves the file; success needs all of the disk. */
  lemma RepliesMean(file: FileContent, plan: Plan, io: Disk)
    requires plan.Refuse? ==> plan.reply != Done
    ensures ReplyOf(plan, io) != Done ==> FileAfter(file, plan, io) == file
    ensures ReplyOf(plan, io) == Done <==>
      plan.Store? && ValidConfig(plan.root) && io.opens && io.writes && io.renames
    ensures ReplyOf(plan, io) == Done ==> FileAfter(file, plan, io) == Doc(plan.root)
    ensures plan.Refuse? ==> ReplyOf(plan, io) == plan.reply
    ensures plan.Store? && ReplyOf(plan, io) != Done ==> ReplyOf(plan, io) == ServerError
  {
  }

  /** Refusals before the devices are looked at. */
  lemma RefusalsAre(file: FileContent, id: string, request: Option<Json>)
    ensures request == None ==> PostPlan(file, request) == PutPlan(file, id, request) == Refuse(BadRequest)
    ensures request.Some? && !request.value.Obj? && !request.value.Null? ==>
      PostPlan(file, request) == Refuse(ServerError)
    ensures request.Some? && (request.value.Null? || (request.value.Obj? && "id" !in request.value.fields)) ==>
      PostPlan(file, request) == Refuse(BadRequest)
    ensures request.Some? && Has(request.value, "id") && !ValidDevice(NewDevice(request.value)) ==>
      PostPlan(file, request) == Refuse(BadRequest)
    ensures !(file.Doc? && file.root.Obj?) ==>
      && DeletePlan(file, id) == Refuse(ServerError)
      && (request.Some? ==> PutPlan(file, id, request) == Refuse(ServerError))
      && (request.Some? && Has(request.value, "id") && ValidDevice(NewDevice(request.value)) ==>
            PostPlan(file, request) == Refuse(ServerError))
  {
  }

  // ---- what the handlers keep ----

  datatype Request =
    | PostDevice(body: Option<Json>)
    | PutDevice(id: string, body: Option<Json>)
    | DeleteDevice(id: string)

  ghost function PlanOf(file: FileContent, r: Request): Plan {
    match r
    case PostDevice(body) => PostPlan(file, body)
    case PutDevice(id, body) => PutPlan(file, id, body)
    case DeleteDevice(id) => DeletePlan(file, id)
  }

  ghost function Served(file: FileContent, rs: seq<Request>, ios: seq<Disk>): FileContent
    requires |rs| == |ios|
  {
    if rs == [] then file
    else
      var n := |rs| - 1;
      var before := Served(file, rs[..n], ios[..n]);
      FileAfter(before, PlanOf(before, rs[n]), ios[n])
  }

  /** After any sequence of requests, on any disk, the file is the one it began with or a valid
      document with unique ids, and its members other than the devices are as they were. */
  lemma {:induction false} FileStaysValid(file: FileContent, rs: seq<Request>, ios: seq<Disk>)
    requires |rs| == |ios|
    ensures var after := Served(file, rs, ios);
      after == file ||
      (after.Doc? && ValidConfig(after.root) && file.Doc? && file.root.Obj?
       && after.root.fields - {"devices"} == file.root.fields - {"devices"})
  {
    if rs != [] {
      var n := |rs| - 1;
      FileStaysValid(file, rs[..n], ios[..n]);
      var before := Served(file, rs[..n], ios[..n]);
      if before.Doc? && before.root.Obj? {
        forall elems: seq<Json>
          ensures WithDevices(before.root, elems).fields - {"devices"} == before.root.fields - {"devices"} {}
      }
    }
  }

  ghost predicate SameMember(a: Json, b: Json, name: string) {
    (Has(a, name) <==> Has(b, name)) && (Has(a, name) ==> a.fields[name] == b.fields[name])
  }

  /** A successful edit changes one block, the first carrying the id, and of it only match and grab. */
  lemma PutChangesOneBlock(file: FileContent, id: string, request: Option<Json>, io: Disk)
    requires ReplyOf(PutPlan(file, id, request), io) == Done
    ensures request.Some? && file.Doc? && file.root.Obj?
    ensures var body, before := request.value, DevicesOf(file.root);
      var after := DevicesOf(FileAfter(file, PutPlan(file, id, request), io).root);
      exists i :: 0 <= i < |before| && Carries(before[i], id) == Some(true)
        && (forall j :: 0 <= j < i ==> Carries(before[j], id) == Some(false))
        && after == before[i := after[i]] && |after| == |before|
        && after[i].Obj? && before[i].Obj?
        && after[i].fields - {"match", "grab"} == before[i].fields - {"match", "grab"}
        && (!Has(body, "match") ==> SameMember(after[i], before[i], "match"))
        && (!Has(body, "grab") ==> SameMember(after[i], before[i], "grab"))
        && (Has(body, "match") ==> Has(after[i], "match") && after[i].fields["match"] == body.fields["match"])
        && (Has(body, "grab") ==> Has(after[i], "grab") && after[i].fields["grab"] == body.fields["grab"])
  {
    var before := DevicesOf(file.root);
    var i := Find(before, id).value;
    var dev := Edited(before[i], request.value);
    assert DevicesOf(WithDevices(file.root, before[i := dev])) == before[i := dev];
    assert dev.fields - {"match", "grab"} == before[i].fields - {"match", "grab"};
  }

  lemma {:induction false} OthersKeep(elems: seq<Json>, id: string)
    requires forall i :: 0 <= i < |elems| ==> Carries(elems[i], id) == Some(false)
    ensures Others(elems, id) == Some(elems)
  {
    if elems != [] {
      OthersKeep(elems[..|elems| - 1], id);
      assert elems == elems[..|elems| - 1] + [elems[|elems| - 1]];
    }
  }

  lemma DeleteLast(root: Json, elems: seq<Json>, dev: Json, id: string)
    requires ValidConfig(root) && DevicesOf(root) == elems + [dev] && Carries(dev, id) == Some(true)
    requires forall i :: 0 <= i < |elems| ==> Carries(elems[i], id) == Some(false)
    ensures DeletePlan(Doc(root), id) == Store(WithDevices(root, elems))
    ensures ValidConfig(WithDevices(root, elems))
  {
    OthersKeep(elems, id);
    assert (elems + [dev])[..|elems|] == elems;
    ValidWithout(root, elems, dev);
  }

  /** Adding a block and deleting it again restores the devices, and the whole document if it had
      a device array to begin with. */
  lemma PostThenDelete(file: FileContent, request: Option<Json>, io: Disk, io': Disk)
    requires ReplyOf(PostPlan(file, request), io) == Done && Works(io')
    ensures var mid := FileAfter(file, PostPlan(file, request), io);
      var plan := DeletePlan(mid, IdOf(NewDevice(request.value)));
      && ReplyOf(plan, io') == Done
      && FileAfter(mid, plan, io') == Doc(WithDevices(file.root, DevicesOf(file.root)))
      && (FileAfter(mid, plan, io') == file <==> Has(file.root, "devices") && file.root.fields["devices"].Arr?)
  {
    var dev, elems := NewDevice(request.value), DevicesOf(file.root);
    PostAppends(file, request, io);
    var mid := PostPlan(file, request).root;
    DeleteLast(mid, elems, dev, IdOf(dev));
    RestoredIff(file.root, elems);
  }

  /** A successful POST puts the new block, whose id no other carries, after the others. */
  lemma PostAppends(file: FileContent, request: Option<Json>, io: Disk)
    requires ReplyOf(PostPlan(file, request), io) == Done
    ensures request.Some? && Has(request.value, "id") && file.Doc? && file.root.Obj? && Works(io)
    ensures var dev, elems := NewDevice(request.value), DevicesOf(file.root);
      var mid := WithDevices(file.root, elems + [dev]);
      && PostPlan(file, request) == Store(mid) && ValidConfig(mid)
      && DevicesOf(mid) == elems + [dev] && WithDevices(mid, elems) == WithDevices(file.root, elems)
      && Carries(dev, IdOf(dev)) == Some(true)
      && forall i :: 0 <= i < |elems| ==> Carries(elems[i], IdOf(dev)) == Some(false)
  {
    var dev, elems := NewDevice(request.value), DevicesOf(file.root);
    DevicesReplaced(file.root, elems + [dev], elems);
  }

  lemma DevicesReplaced(root: Json, xs: seq<Json>, ys: seq<Json>)
    requires root.Obj?
    ensures DevicesOf(WithDevices(root, xs)) == xs
    ensures WithDevices(WithDevices(root, xs), ys) == WithDevices(root, ys)
  {
  }

  /** A document without devices is left with an empty array. */
  lemma NotRestored(io: Disk)
    requires Works(io)
    ensures var file := Doc(Obj(map[]));
      var body := Obj(map["id" := Str("mouse")]);
      var mid := FileAfter(file, PostPlan(file, Some(body)), io);
      && ReplyOf(PostPlan(file, Some(body)), io) == Done
      && FileAfter(mid, DeletePlan(mid, "mouse"), io) == Doc(Obj(map["devices" := Arr([])])) != file
  {
    var file, body := Doc(Obj(map[])), Obj(map["id" := Str("mouse")]);
    var dev := NewDevice(body);
    assert ValidDevice(dev) && IdOf(dev) == "mouse";
    assert [] + [dev] == [dev];
    assert ValidDevices([dev]);
    PostThenDelete(file, Some(body), io, io);
    assert "devices" !in file.root.fields;
  }

  lemma RestoredIff(root: Json, elems: seq<Json>)
    requires root.Obj? && elems == DevicesOf(root)
    ensures WithDevices(root, elems) == root <==> Has(root, "devices") && root.fields["devices"].Arr?
  {
    if Has(root, "devices") && root.fields["devices"].Arr? {
      assert root.fields["devices" := Arr(elems)] == root.fields;
    } else {
      assert Has(WithDevices(root, elems), "devices");
    }
  }

  lemma ValidWithout(root: Json, elems: seq<Json>, dev: Json)
    requires ValidConfig(root) && Has(root, "devices") && root.fields["devices"] == Arr(elems + [dev])
    ensures ValidConfig(WithDevices(root, elems))
  {
    var all := elems + [dev];
    assert forall i :: 0 <= i < |elems| ==> elems[i] == all[i];
  }
}
