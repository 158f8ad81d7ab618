// What the daemon makes of the documents that the editor accepts, and exactly when it is what they say.
module ConfigAgreement {
  import opened Common
  import opened Json
  import opened KeyMapper
  import opened ConfigLoading
  import opened ConfigEditing
  import opened EventPipeline
  import opened PipelineProperties
  import opened PipelineFaults

  /** Block i of the document says that the pair k is bound to the command: it has the id, and a string entry
      under a known name with that code. */
  ghost predicate DocBinds(names: NameTable, elems: seq<Json>, i: int, k: Key, cmd: string) {
    && 0 <= i < |elems| && IdOf(elems[i]) == k.device
    && exists n :: n in BindingFields(elems[i]) && n in names && names[n] == k.code
         && BindingFields(elems[i])[n] == Str(cmd)
  }

  ghost predicate DocBindsSome(names: NameTable, elems: seq<Json>, k: Key, cmd: string) {
    exists i :: DocBinds(names, elems, i, k, cmd)
  }

  ghost predicate UsableBinds(names: NameTable, elems: seq<Json>, k: Key, cmd: string) {
    exists i :: DocBinds(names, elems, i, k, cmd) && Usable(elems[i])
  }

  ghost predicate FlatBinds(f: Flat, k: Key, cmd: string) {
    k in f && f[k] == cmd
  }

  lemma {:induction false} PositionOf(mask: seq<bool>, i: nat) returns (p: nat)
    requires i < |mask| && mask[i]
    ensures p < |Positions(mask)| && Positions(mask)[p] == i
  {
    var n := |mask| - 1;
    if i < n {
      p := PositionOf(mask[..n], i);
    } else {
      p := |Positions(mask[..n])|;
    }
  }

  ghost function Mask(elems: seq<Json>): (mask: seq<bool>)
    ensures |mask| == |elems|
    ensures forall i :: 0 <= i < |elems| ==> mask[i] == Usable(elems[i])
  {
    seq(|elems|, i requires 0 <= i < |elems| => Usable(elems[i]))
  }

  /** The blocks that take part, in document order. */
  ghost function Kept(elems: seq<Json>): seq<nat> {
    Positions(Mask(elems))
  }

  lemma {:induction false} BlocksAreKept(names: NameTable, elems: seq<Json>)
    requires DevicesReadable(names, elems)
    ensures |Blocks(names, elems)| == |Kept(elems)|
    ensures forall p :: 0 <= p < |Kept(elems)| ==> IsBlockAt(names, elems, Kept(elems)[p], Blocks(names, elems)[p])
  {
    if elems != [] {
      var n := |elems| - 1;
      var front := elems[..n];
      assert forall e :: e in front ==> e in elems;
      BlocksAreKept(names, front);
      assert Mask(elems)[..n] == Mask(front);
      forall p | 0 <= p < |Kept(elems)|
        ensures IsBlockAt(names, elems, Kept(elems)[p], Blocks(names, elems)[p])
      {
        if p < |Kept(front)| {
          assert IsBlockAt(names, front, Kept(front)[p], Blocks(names, front)[p]);
        } else {
          assert elems[n] in elems;
        }
      }
    }
  }

  ghost predicate IsBlockAt(names: NameTable, elems: seq<Json>, i: nat, dc: DeviceConfig) {
    && i < |elems| && Usable(elems[i]) && CommandsReadable(names, BindingFields(elems[i]))
    && dc == BlockOf(names, elems[i])
  }

  lemma ValidDeviceIsReadable(names: NameTable, dev: Json)
    requires ValidDevice(dev)
    ensures BlockReadable(names, dev)
  {
    if Has(dev, "bindings") { assert AllStrings(dev.fields["bindings"].fields); }
  }

  lemma ValidDevicesAreReadable(names: NameTable, elems: seq<Json>)
    requires ValidDevices(elems)
    ensures DevicesReadable(names, elems)
  {
    forall e | e in elems ensures BlockReadable(names, e) {
      ValidDeviceIsReadable(names, e);
    }
  }

  /** With unique ids no two blocks merge: whatever binds is the last to bind. */
  lemma OnlyBinder(names: NameTable, elems: seq<Json>, p: int, k: Key)
    requires ValidDevices(elems) && DevicesReadable(names, elems)
    requires BlockBinds(Blocks(names, elems), p, k)
    ensures LastBinder(Blocks(names, elems), p, k)
  {
    var devices, kept := Blocks(names, elems), Kept(elems);
    BlocksAreKept(names, elems);
    assert IsBlockAt(names, elems, kept[p], devices[p]);
    forall q | p < q ensures !BlockBinds(devices, q, k) {
      if q < |devices| {
        assert IsBlockAt(names, elems, kept[q], devices[q]);
        assert IdOf(elems[kept[p]]) != IdOf(elems[kept[q]]);
      }
    }
  }

  lemma BinderInDocument(names: NameTable, elems: seq<Json>, p: int, k: Key)
    requires ValidDevices(elems) && DevicesReadable(names, elems)
    requires BlockBinds(Blocks(names, elems), p, k)
    ensures UsableBinds(names, elems, k, Blocks(names, elems)[p].bindings[k.code])
  {
    BlocksAreKept(names, elems);
    var devices, i := Blocks(names, elems), Kept(elems)[p];
    assert IsBlockAt(names, elems, i, devices[p]);
    var fields := BindingFields(elems[i]);
    var n :| n in fields && n in names && names[n] == k.code;
    assert ValidDevice(elems[i]);
    assert fields[n].Str?;
    assert DocBinds(names, elems, i, k, devices[p].bindings[k.code]);
  }

  lemma DocumentBinder(names: NameTable, elems: seq<Json>, i: int, k: Key, cmd: string) returns (p: int)
    requires DevicesReadable(names, elems) && DocBinds(names, elems, i, k, cmd) && Usable(elems[i])
    ensures BlockBinds(Blocks(names, elems), p, k) && Blocks(names, elems)[p].bindings[k.code] == cmd
  {
    p := PositionOf(Mask(elems), i);
    BlocksAreKept(names, elems);
    assert IsBlockAt(names, elems, i, Blocks(names, elems)[p]);
    var fields := BindingFields(elems[i]);
    var n :| n in fields && n in names && names[n] == k.code && fields[n] == Str(cmd);
    assert AsString(fields[n]) == Some(cmd);
  }

  /** A document the editor accepts never makes the loader throw. It loads exactly when it has devices,
      and then the table binds a pair to a command exactly when some usable block of the document says so. */
  lemma TableFollowsUsableBlocks(names: NameTable, root: Json)
    requires ValidConfig(root)
    ensures LoadOutcome(names, Doc(root)) == if Has(root, "devices") then Loaded else Failed
    ensures Has(root, "devices") ==>
      forall k, cmd :: FlatBinds(Flatten(InitTable(LoadedBlocks(names, Doc(root)))), k, cmd)
        <==> UsableBinds(names, DevicesOf(root), k, cmd)
  {
    if Has(root, "devices") {
      var elems := root.fields["devices"].elems;
      ValidDevicesAreReadable(names, elems);
      var devices := Blocks(names, elems);
      var f := Flatten(InitTable(devices));
      InitIsLastBlockWins(devices);
      forall k, cmd ensures FlatBinds(f, k, cmd) <==> UsableBinds(names, elems, k, cmd) {
        if FlatBinds(f, k, cmd) {
          var p :| LastBinder(devices, p, k);
          BinderInDocument(names, elems, p, k);
        }
        if UsableBinds(names, elems, k, cmd) {
          var i :| DocBinds(names, elems, i, k, cmd) && Usable(elems[i]);
          var p := DocumentBinder(names, elems, i, k, cmd);
          OnlyBinder(names, elems, p, k);
        }
      }
    }
  }

  // ---- accepted, but not loaded ----

  ghost predicate GivesCriterion(dev: Json, name: string) {
    Has(dev, "match") && HasStr(dev.fields["match"], name) && dev.fields["match"].fields[name].s != ""
  }

  /** Which of the blocks that the editor accepts take part: the wildcard's, and those with a criterion. */
  lemma UsableIff(dev: Json)
    requires ValidDevice(dev)
    ensures Usable(dev) <==>
      IdOf(dev) == WILDCARD || GivesCriterion(dev, "name") || GivesCriterion(dev, "vendor_product")
      || GivesCriterion(dev, "path")
  {
  }

  /** Of an accepted list of blocks the daemon loads all if and only if all take part. */
  lemma AllLoadedIff(names: NameTable, elems: seq<Json>)
    requires ValidDevices(elems) && DevicesReadable(names, elems)
    ensures |Blocks(names, elems)| == |elems| <==> forall i :: 0 <= i < |elems| ==> Usable(elems[i])
  {
    BlocksAreKept(names, elems);
    PositionsCount(Mask(elems));
  }

  lemma {:induction false} PositionsCount(mask: seq<bool>)
    ensures |Positions(mask)| <= |mask|
    ensures |Positions(mask)| == |mask| <==> forall i :: 0 <= i < |mask| ==> mask[i]
  {
    if mask != [] { PositionsCount(mask[..|mask| - 1]); }
  }

  /** The block binds no key that the daemon knows. */
  ghost predicate BindsNothing(names: NameTable, dev: Json) {
    forall n :: n in BindingFields(dev) ==> n !in names
  }

  ghost predicate SameMeaning(names: NameTable, root: Json)
    requires LoadOutcome(names, Doc(root)) == Loaded
  {
    var f := Flatten(InitTable(LoadedBlocks(names, Doc(root))));
    forall k, cmd :: FlatBinds(f, k, cmd) <==> DocBindsSome(names, DevicesOf(root), k, cmd)
  }

  /** The table binds what the accepted document says if and only if every block that binds a known key takes
      part; see UsableIff for what that asks of it. */
  lemma SameMeaningIff(names: NameTable, root: Json)
    requires ValidConfig(root) && Has(root, "devices")
    ensures LoadOutcome(names, Doc(root)) == Loaded
    ensures SameMeaning(names, root) <==>
      forall i :: 0 <= i < |DevicesOf(root)| ==> Usable(DevicesOf(root)[i]) || BindsNothing(names, DevicesOf(root)[i])
  {
    TableFollowsUsableBlocks(names, root);
    var elems := DevicesOf(root);
    if SameMeaning(names, root) {
      forall i | 0 <= i < |elems| ensures Usable(elems[i]) || BindsNothing(names, elems[i]) {
        SaidIsUsable(names, root, i);
      }
    }
    if forall i :: 0 <= i < |elems| ==> Usable(elems[i]) || BindsNothing(names, elems[i]) {
      forall k, cmd ensures DocBindsSome(names, elems, k, cmd) <==> UsableBinds(names, elems, k, cmd) {
        if i :| DocBinds(names, elems, i, k, cmd) { assert Usable(elems[i]); }
      }
    }
  }

  /** A block that is meant as it says takes part, or says nothing. */
  lemma SaidIsUsable(names: NameTable, root: Json, i: int)
    requires ValidConfig(root) && Has(root, "devices") && LoadOutcome(names, Doc(root)) == Loaded
    requires SameMeaning(names, root) && 0 <= i < |DevicesOf(root)|
    ensures Usable(DevicesOf(root)[i]) || BindsNothing(names, DevicesOf(root)[i])
  {
    var elems := DevicesOf(root);
    if !BindsNothing(names, elems[i]) {
      TableFollowsUsableBlocks(names, root);
      var k, cmd := SomethingSaid(names, elems, i);
      assert DocBindsSome(names, elems, k, cmd);
      var j :| DocBinds(names, elems, j, k, cmd) && Usable(elems[j]);
      assert IdOf(elems[i]) == IdOf(elems[j]);
    }
  }

  lemma SomethingSaid(names: NameTable, elems: seq<Json>, i: int) returns (k: Key, cmd: string)
    requires ValidDevices(elems) && 0 <= i < |elems| && !BindsNothing(names, elems[i])
    ensures DocBinds(names, elems, i, k, cmd)
  {
    var n :| n in BindingFields(elems[i]) && n in names;
    assert ValidDevice(elems[i]);
    k, cmd := Key(IdOf(elems[i]), names[n]), BindingFields(elems[i])[n].s;
  }

  /** The request to add a block with one binding and nothing to match a device by. */
  const UNMATCHED: Json :=
    Obj(map["id" := Str("mouse"), "bindings" := Obj(map["BTN_SIDE" := Str("notify-send side")])])

  /** The document it leaves, if there were no devices before. */
  function Stored(): Json {
    Obj(map["devices" := Arr([NewDevice(UNMATCHED)])])
  }

  /** Such a request is accepted and stored, and the daemon then drops the block with its binding. */
  lemma AcceptedButDropped(names: NameTable, io: Disk)
    requires Works(io) && "BTN_SIDE" in names
    ensures PostPlan(Doc(Obj(map["devices" := Arr([])])), Some(UNMATCHED)) == Store(Stored())
    ensures ReplyOf(Store(Stored()), io) == Done
    ensures LoadOutcome(names, Doc(Stored())) == Loaded && !SameMeaning(names, Stored())
  {
    UnmatchedIsValid(names);
    StoredIsValid();
    UnmatchedIsStored();
    SameMeaningIff(names, Stored());
    assert DevicesOf(Stored())[0] == NewDevice(UNMATCHED);
  }

  lemma StoredIsValid()
    ensures ValidConfig(Stored()) && Has(Stored(), "devices") && DevicesOf(Stored()) == [NewDevice(UNMATCHED)]
  {
    UnmatchedIsValid(map[]);
  }

  lemma UnmatchedIsStored()
    ensures PostPlan(Doc(Obj(map["devices" := Arr([])])), Some(UNMATCHED)) == Store(Stored())
  {
    UnmatchedIsValid(map[]);
    var root := Obj(map["devices" := Arr([])]);
    assert root.fields["devices" := Arr([NewDevice(UNMATCHED)])] == map["devices" := Arr([NewDevice(UNMATCHED)])];
    assert [] + [NewDevice(UNMATCHED)] == [NewDevice(UNMATCHED)];
  }

  lemma UnmatchedIsValid(names: NameTable)
    ensures var dev := NewDevice(UNMATCHED);
      && ValidDevice(dev) && IdOf(dev) == "mouse" && !Usable(dev)
      && ("BTN_SIDE" in names ==> !BindsNothing(names, dev))
  {
    var dev := NewDevice(UNMATCHED);
    assert "mouse"[0] != WILDCARD[0];
    assert "BTN_SIDE" in BindingFields(dev);
  }

  // ---- safe files ----

  /** Nothing to read, or a document the editor would have written. */
  ghost predicate SafeFile(file: FileContent) {
    file.Doc? ==> ValidConfig(file.root)
  }

  lemma SafeIsHarmless(names: NameTable, file: FileContent)
    requires SafeFile(file)
    ensures Harmless(names, file)
  {
    if file.Doc? { TableFollowsUsableBlocks(names, file.root); }
    ThrowsUnlessHarmless(names, file);
  }

  /** The editor only ever leaves such contents. */
  lemma EditorLeavesSafeFiles(file: FileContent, rs: seq<ConfigEditing.Request>, ios: seq<Disk>)
    requires SafeFile(file) && |rs| == |ios|
    ensures SafeFile(Served(file, rs, ios))
  {
    FileStaysValid(file, rs, ios);
  }

  ghost predicate WritesSafely(a: Action) {
    a.Outside? && a.o.WriteDisk? ==> SafeFile(a.o.file)
  }

  lemma {:induction false} DiskStaysSafe(disk: FileContent, acts: seq<Action>)
    requires SafeFile(disk) && forall k :: 0 <= k < |acts| ==> WritesSafely(acts[k])
    ensures SafeFile(DiskAfter(disk, acts))
  {
    if acts != [] {
      DiskStaysSafe(disk, acts[..|acts| - 1]);
      assert WritesSafely(acts[|acts| - 1]);
    }
  }

  /** While the configuration file only ever holds such contents, no reload, by signal or by socket, in any
      interleaving, brings the daemon down: what can is a client, by an ill-typed line or by hanging up. */
  lemma SafeFilesNeverAbort(s: State, acts: seq<Action>)
    requires Initial(s) && Feasible(s, acts) && SafeFile(s.disk)
    requires forall k :: 0 <= k < |acts| ==> WritesSafely(acts[k])
    ensures Exec(s, acts).aborted <==> Outside(IllTypedLine) in acts || Outside(BrokenPipe) in acts
  {
    AbortedIff(s, acts);
    forall k: nat | k < |acts|
      ensures FatalAt(s.names, s.disk, acts, k) <==> acts[k] in {Outside(IllTypedLine), Outside(BrokenPipe)}
    {
      DiskStaysSafe(s.disk, acts[..k]);
      SafeIsHarmless(s.names, DiskAfter(s.disk, acts[..k]));
    }
  }
}
