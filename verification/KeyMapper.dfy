// The device-aware keycode-to-command table (src/mapper.cpp).
module KeyMapper {
  import opened Common

  // ---- key names ----

  ghost predicate IsNameTable(m: map<string, int>) {
    && (forall n :: n in m ==> 0 <= m[n])
    && (forall n, n' :: n in m && n' in m && m[n] == m[n'] ==> n == n')
  }

  /** The static name table. Its codes come from <linux/input-event-codes.h>;
      all the model needs of them is that they are distinct and not negative. */
  type NameTable = m: map<string, int> | IsNameTable(m) witness map[]

  function NameToCode(names: NameTable, name: string): int {
    if name in names then names[name] else -1
  }

  function CodeTable(names: NameTable): map<int, string> {
    map n | n in names :: names[n] := n
  }

  function Decimal(n: int): string
    decreases if n < 0 then 1 - n else n
  {
    if n < 0 then "-" + Decimal(-n)
    else if n < 10 then [(n + 48) as char]
    else Decimal(n / 10) + [(n % 10 + 48) as char]
  }

  function CodeToName(names: NameTable, code: int): string {
    var t := CodeTable(names);
    if code in t then t[code] else "KEY_UNKNOWN(" + Decimal(code) + ")"
  }

  /** The number that a text of decimal digits stands for. */
  function Number(digits: string): int {
    if digits == "" then 0 else 10 * Number(digits[..|digits| - 1]) + (digits[|digits| - 1] as int - '0' as int)
  }

  lemma {:induction false} DecimalIs(n: int)
    ensures n < 0 ==> Decimal(n) == "-" + Decimal(-n)
    ensures n >= 0 ==> Number(Decimal(n)) == n && forall i :: 0 <= i < |Decimal(n)| ==> '0' <= Decimal(n)[i] <= '9'
    decreases if n < 0 then 1 - n else n
  {
    if n >= 10 { DecimalIs(n / 10); } else if n >= 0 { assert Decimal(n)[..0] == ""; }
  }

  /** A code with a name goes by it, any other by its number. */
  lemma CodeToNameIs(names: NameTable, code: int)
    ensures (exists n :: n in names && names[n] == code) ==>
      CodeToName(names, code) in names && names[CodeToName(names, code)] == code
    ensures !(exists n :: n in names && names[n] == code) ==>
      CodeToName(names, code) == "KEY_UNKNOWN(" + Decimal(code) + ")"
  {
    NameTablesInverse(names);
    if n :| n in names && names[n] == code { assert code in names.Values; }
  }

  /** The two static tables are inverse to each other. */
  lemma NameTablesInverse(names: NameTable)
    ensures forall n :: n in names ==> CodeToName(names, NameToCode(names, n)) == n
    ensures forall c :: c in names.Values ==>
      CodeToName(names, c) in names && NameToCode(names, CodeToName(names, c)) == c
  {
    forall c | c in names.Values
      ensures CodeToName(names, c) in names && NameToCode(names, CodeToName(names, c)) == c
    {
      var n :| n in names && names[n] == c;
      assert CodeTable(names)[names[n]] == n;
    }
    forall n | n in names ensures CodeToName(names, NameToCode(names, n)) == n {
      assert CodeTable(names)[names[n]] == n;
    }
  }

  // ---- the nested table, and the flat map it stands for ----

  type Table = map<string, map<int, string>>

  datatype Key = Key(device: string, code: int)

  type Flat = map<Key, string>

  function Sub(t: Table, device: string): map<int, string> {
    if device in t then t[device] else map[]
  }

  predicate InTable(t: Table, k: Key) {
    k.device in t && k.code in t[k.device]
  }

  function Flatten(t: Table): (f: Flat)
    ensures forall k :: k in f <==> InTable(t, k)
    ensures forall k :: k in f ==> InTable(t, k) && f[k] == t[k.device][k.code]
  {
    var keys := set d, c | d in t.Keys && c in t[d].Keys :: Key(d, c);
    assert forall k :: InTable(t, k) ==> Key(k.device, k.code) in keys;
    map k | k in keys :: t[k.device][k.code]
  }

  function FlatLookup(f: Flat, device: string, code: int): Option<string> {
    if Key(device, code) in f then Some(f[Key(device, code)])
    else if Key(WILDCARD, code) in f then Some(f[Key(WILDCARD, code)])
    else None
  }

  function Bound(f: Flat, names: NameTable, device: string, key: string, cmd: string): Flat {
    if key in names then f[Key(device, names[key]) := cmd] else f
  }

  function Unbound(f: Flat, names: NameTable, device: string, key: string): Flat {
    if key in names then f - {Key(device, names[key])} else f
  }

  ghost predicate BlockBinds(devices: seq<DeviceConfig>, i: int, k: Key) {
    0 <= i < |devices| && devices[i].id == k.device && k.code in devices[i].bindings
  }

  ghost predicate LastBinder(devices: seq<DeviceConfig>, i: int, k: Key) {
    BlockBinds(devices, i, k) && forall j :: i < j ==> !BlockBinds(devices, j, k)
  }

  /** Declarative reading of a loaded configuration: a pair is bound when some block binds it,
      and the last block binding it decides. */
  ghost predicate LastBlockWins(devices: seq<DeviceConfig>, f: Flat) {
    && (forall k :: k in f ==> exists i :: LastBinder(devices, i, k))
    && (forall i, k :: LastBinder(devices, i, k) ==> k in f && f[k] == devices[i].bindings[k.code])
  }

  function InitTable(devices: seq<DeviceConfig>): Table {
    if devices == [] then map[]
    else
      var dc := devices[|devices| - 1];
      var t := InitTable(devices[..|devices| - 1]);
      t[dc.id := Sub(t, dc.id) + dc.bindings]
  }

  lemma FlattenPut(t: Table, d: string, c: int, cmd: string)
    ensures Flatten(t[d := Sub(t, d)[c := cmd]]) == Flatten(t)[Key(d, c) := cmd]
  {
    var t' := t[d := Sub(t, d)[c := cmd]];
    assert forall k :: InTable(t', k) <==> k == Key(d, c) || InTable(t, k);
  }

  lemma FlattenErase(t: Table, d: string, c: int)
    requires d in t
    ensures Flatten(t[d := t[d] - {c}]) == Flatten(t) - {Key(d, c)}
  {
    var t' := t[d := t[d] - {c}];
    assert forall k :: InTable(t', k) <==> k != Key(d, c) && InTable(t, k);
  }

  /** Loading block after block yields the last-block-wins merge. */
  lemma {:induction false} InitIsLastBlockWins(devices: seq<DeviceConfig>)
    ensures LastBlockWins(devices, Flatten(InitTable(devices)))
  {
    if devices != [] {
      var n := |devices| - 1;
      InitIsLastBlockWins(devices[..n]);
      LastBlockWinsSnoc(devices, Flatten(InitTable(devices[..n])), Flatten(InitTable(devices)));
    }
  }

  lemma LastBlockWinsSnoc(devices: seq<DeviceConfig>, f: Flat, g: Flat)
    requires devices != []
    requires LastBlockWins(devices[..|devices| - 1], f)
    requires forall k :: k in g <==> k in f || BlockBinds(devices, |devices| - 1, k)
    requires forall k :: k in g ==>
      g[k] == if BlockBinds(devices, |devices| - 1, k) then devices[|devices| - 1].bindings[k.code] else f[k]
    ensures LastBlockWins(devices, g)
  {
    var n := |devices| - 1;
    forall k | k in g ensures exists i :: LastBinder(devices, i, k) {
      if BlockBinds(devices, n, k) {
        assert LastBinder(devices, n, k);
      } else {
        var i :| LastBinder(devices[..n], i, k);
        LastBinderOfFront(devices, i, k);
      }
    }
    forall i, k | LastBinder(devices, i, k) ensures k in g && g[k] == devices[i].bindings[k.code] {
      if i < n {
        assert !BlockBinds(devices, n, k);
        LastBinderOfFront(devices, i, k);
      }
    }
  }

  lemma LastBinderOfFront(devices: seq<DeviceConfig>, i: int, k: Key)
    requires devices != [] && !BlockBinds(devices, |devices| - 1, k)
    ensures LastBinder(devices, i, k) <==> LastBinder(devices[..|devices| - 1], i, k)
  {
    var front := devices[..|devices| - 1];
    assert forall j :: BlockBinds(devices, j, k) <==> BlockBinds(front, j, k);
  }

  /** The last-block-wins reading determines the flat map. */
  lemma LastBlockWinsUnique(devices: seq<DeviceConfig>, f: Flat, g: Flat)
    requires LastBlockWins(devices, f) && LastBlockWins(devices, g)
    ensures f == g
  {
    assert forall k :: k in f || k in g ==> exists i :: LastBinder(devices, i, k);
    assert f.Keys == g.Keys;
  }

  // ---- the table as the source's methods change it ----

  ghost predicate CodesKnown(t: Table, names: NameTable) {
    forall k :: InTable(t, k) ==> k.code in names.Values
  }

  function TableBound(t: Table, names: NameTable, device: string, key: string, cmd: string): Table {
    if key in names then t[device := Sub(t, device)[names[key] := cmd]] else t
  }

  function TableUnbound(t: Table, names: NameTable, device: string, key: string): Table {
    if key in names && device in t then t[device := t[device] - {names[key]}] else t
  }

  function NestedLookup(t: Table, device: string, code: int): Option<string> {
    if device in t && code in t[device] then Some(t[device][code])
    else if WILDCARD in t && code in t[WILDCARD] then Some(t[WILDCARD][code])
    else None
  }

  lemma NestedLookupIsFlat(t: Table, device: string, code: int)
    ensures NestedLookup(t, device, code) == FlatLookup(Flatten(t), device, code)
  {
    assert InTable(t, Key(device, code)) <==> device in t && code in t[device];
    assert InTable(t, Key(WILDCARD, code)) <==> WILDCARD in t && code in t[WILDCARD];
  }

  lemma BindIsFlat(t: Table, names: NameTable, d: string, k: string, cmd: string)
    requires CodesKnown(t, names)
    ensures CodesKnown(TableBound(t, names, d, k, cmd), names)
    ensures Flatten(TableBound(t, names, d, k, cmd)) == Bound(Flatten(t), names, d, k, cmd)
  {
    if k in names {
      FlattenPut(t, d, names[k], cmd);
      forall q | InTable(TableBound(t, names, d, k, cmd), q) ensures q.code in names.Values {
        if q != Key(d, names[k]) { assert InTable(t, q); }
      }
    }
  }

  lemma UnbindIsFlat(t: Table, names: NameTable, d: string, k: string)
    requires CodesKnown(t, names)
    ensures CodesKnown(TableUnbound(t, names, d, k), names)
    ensures Flatten(TableUnbound(t, names, d, k)) == Unbound(Flatten(t), names, d, k)
  {
    if k in names && d in t {
      FlattenErase(t, d, names[k]);
      forall q | InTable(TableUnbound(t, names, d, k), q) ensures q.code in names.Values {
        assert InTable(t, q);
      }
    }
  }

  datatype BindingEntry = BindingEntry(deviceId: string, keyName: string, keycode: int, command: string)

  function KeyOf(e: BindingEntry): Key {
    Key(e.deviceId, e.keycode)
  }

  ghost predicate EntryOf(e: BindingEntry, f: Flat, names: NameTable) {
    KeyOf(e) in f && e.command == f[KeyOf(e)] && e.keyName == CodeToName(names, e.keycode)
  }

  ghost predicate Listed(entries: seq<BindingEntry>, k: Key) {
    exists i :: 0 <= i < |entries| && KeyOf(entries[i]) == k
  }

  /** A listing names every binding once, in whatever order. */
  ghost predicate IsListing(entries: seq<BindingEntry>, f: Flat, names: NameTable) {
    && (forall i :: 0 <= i < |entries| ==> EntryOf(entries[i], f, names))
    && (forall i, j :: 0 <= i < j < |entries| ==> KeyOf(entries[i]) != KeyOf(entries[j]))
    && (forall k :: k in f ==> Listed(entries, k))
  }

  /** The next key an unordered container hands out: any of those left. */
  method AnyOf<T(==)>(keys: set<T>) returns (k: T)
    requires keys != {}
    ensures k in keys
  {
    k :| k in keys;
  }

  lemma VisitKey(m: map<int, string>, left: set<int>, c: int)
    requires c in left && left <= m.Keys
    ensures m - (left - {c}) == (m - left)[c := m[c]]
  {
  }

  /** The table while a block is being loaded and the keys in `left` are still to come. */
  ghost function PartlyInit(t: Table, dc: DeviceConfig, left: set<int>): Table {
    t[dc.id := Sub(t, dc.id) + (dc.bindings - left)]
  }

  lemma PartlyInitStart(t: Table, dc: DeviceConfig)
    ensures PartlyInit(t, dc, dc.bindings.Keys) == t[dc.id := Sub(t, dc.id)]
  {
    assert Sub(t, dc.id) + (dc.bindings - dc.bindings.Keys) == Sub(t, dc.id);
  }

  lemma PartlyInitStep(t: Table, dc: DeviceConfig, left: set<int>, c: int)
    requires c in left && left <= dc.bindings.Keys
    ensures var p := PartlyInit(t, dc, left);
      p[dc.id := p[dc.id][c := dc.bindings[c]]] == PartlyInit(t, dc, left - {c})
  {
    VisitKey(dc.bindings, left, c);
    var sub := Sub(t, dc.id);
    assert sub + (dc.bindings - left)[c := dc.bindings[c]] == (sub + (dc.bindings - left))[c := dc.bindings[c]];
  }

  lemma InitKeepsCodesKnown(t: Table, names: NameTable, dc: DeviceConfig)
    requires CodesKnown(t, names) && forall c :: c in dc.bindings ==> c in names.Values
    ensures PartlyInit(t, dc, {}) == t[dc.id := Sub(t, dc.id) + dc.bindings]
    ensures CodesKnown(PartlyInit(t, dc, {}), names)
  {
    assert dc.bindings - {} == dc.bindings;
    var t' := t[dc.id := Sub(t, dc.id) + dc.bindings];
    forall k | InTable(t', k) ensures k.code in names.Values {
      if k.device != dc.id || k.code !in dc.bindings { assert InTable(t, k); }
    }
  }

  class Mapper {
    const names: NameTable
    var table: Table

    ghost predicate Valid()
      reads this
    {
      CodesKnown(table, names)
    }

    constructor (names: NameTable)
      ensures Valid() && table == map[] && this.names == names
    {
      this.names := names;
      table := map[];
    }

    method Init(devices: seq<DeviceConfig>)
      requires forall dc, c :: dc in devices && c in dc.bindings ==> c in names.Values
      modifies this`table
      ensures Valid()
      ensures table == InitTable(devices)
      // the last block's bindings are in force
      ensures devices != [] ==>
        var last := devices[|devices| - 1];
        last.id in table
        && forall c :: c in last.bindings ==> c in table[last.id] && table[last.id][c] == last.bindings[c]
    {
      table := map[];
      for i := 0 to |devices|
        invariant table == InitTable(devices[..i])
        invariant Valid()
      {
        assert devices[i] in devices;
        InitDevice(devices[i]);
        assert devices[..i + 1][..i] == devices[..i];
      }
      assert devices[..|devices|] == devices;
    }

    /** One block: its entry is created if absent, then filled binding by binding. */
    method InitDevice(dc: DeviceConfig)
      requires Valid() && forall c :: c in dc.bindings ==> c in names.Values
      modifies this`table
      ensures Valid()
      ensures table == old(table)[dc.id := Sub(old(table), dc.id) + dc.bindings]
    {
      ghost var t0 := table;
      table := table[dc.id := Sub(table, dc.id)];
      var todo := dc.bindings.Keys;
      PartlyInitStart(t0, dc);
      while todo != {}
        invariant todo <= dc.bindings.Keys
        invariant table == PartlyInit(t0, dc, todo)
        decreases |todo|
      {
        var c := AnyOf(todo);
        PartlyInitStep(t0, dc, todo, c);
        table := table[dc.id := table[dc.id][c := dc.bindings[c]]];
        todo := todo - {c};
      }
      InitKeepsCodesKnown(t0, names, dc);
    }

    method Lookup(device: string, code: int) returns (r: Option<string>)
      ensures r == NestedLookup(table, device, code) == FlatLookup(Flatten(table), device, code)
      ensures device in table && code in table[device] ==> r == Some(table[device][code])
      ensures !(device in table && code in table[device]) && "*" in table && code in table["*"] ==>
        r == Some(table["*"][code])
      ensures !(device in table && code in table[device]) && !("*" in table && code in table["*"]) ==> r == None
    {
      NestedLookupIsFlat(table, device, code);
      if device in table {
        var sub := table[device];
        if code in sub { return Some(sub[code]); }
      }
      if WILDCARD in table {
        var sub := table[WILDCARD];
        if code in sub { return Some(sub[code]); }
      }
      return None;
    }

    method AddBinding(device: string, key: string, cmd: string) returns (ok: bool)
      requires Valid()
      modifies this`table
      ensures Valid()
      ensures ok <==> key in names
      ensures table == TableBound(old(table), names, device, key, cmd)
      ensures Flatten(table) == Bound(old(Flatten(table)), names, device, key, cmd)
      ensures ok ==> device in table && names[key] in table[device] && table[device][names[key]] == cmd
      ensures ok && device in old(table) ==> table[device] - {names[key]} == old(table)[device] - {names[key]}
      ensures ok && device !in old(table) ==> table[device].Keys == {names[key]}
      ensures table - {device} == old(table) - {device} && (!ok ==> table == old(table))
    {
      var code := NameToCode(names, key);
      if code < 0 { return false; }
      BindIsFlat(table, names, device, key, cmd);
      table := table[device := Sub(table, device)[code := cmd]];
      return true;
    }

    method RemoveBinding(device: string, key: string) returns (ok: bool)
      requires Valid()
      modifies this`table
      ensures Valid()
      ensures ok <==> key in names && Key(device, names[key]) in old(Flatten(table))
      ensures table == TableUnbound(old(table), names, device, key)
      ensures Flatten(table) == Unbound(old(Flatten(table)), names, device, key)
      ensures ok <==> key in names && device in old(table) && names[key] in old(table)[device]
      ensures ok ==> device in table && table[device] == old(table)[device] - {names[key]}
      ensures table - {device} == old(table) - {device} && (!ok ==> table == old(table))
    {
      var code := NameToCode(names, key);
      if code < 0 { return false; }
      UnbindIsFlat(table, names, device, key);
      TableUnboundIs(table, names, device, key);
      if device !in table { return false; }
      var sub := table[device];
      table := table[device := sub - {code}];
      return code in sub;
    }

    /** The source iterates two unordered maps, so any order of entries may come out. */
    method AllBindings() returns (result: seq<BindingEntry>)
      ensures IsListing(result, Flatten(table), names)
      ensures forall i :: 0 <= i < |result| ==>
        var e := result[i];
        && e.deviceId in table && e.keycode in table[e.deviceId] && e.command == table[e.deviceId][e.keycode]
        && e.keyName == CodeToName(names, e.keycode)
      ensures forall i, j :: 0 <= i < j < |result| ==>
        result[i].deviceId != result[j].deviceId || result[i].keycode != result[j].keycode
      ensures forall d, c :: d in table && c in table[d] ==>
        exists i :: 0 <= i < |result| && result[i].deviceId == d && result[i].keycode == c
    {
      result := ListAll();
      ListingIsOf(result, table, names);
    }

    method ListAll() returns (result: seq<BindingEntry>)
      ensures IsListing(result, Flatten(table), names)
    {
      result := [];
      var devs := table.Keys;
      assert table - devs == map[];
      while devs != {}
        invariant devs <= table.Keys
        invariant IsListing(result, Flatten(table - devs), names)
        decreases |devs|
      {
        var d := AnyOf(devs);
        result := ListDevice(result, d, table - devs);
        assert table - (devs - {d}) == (table - devs)[d := table[d]];
        devs := devs - {d};
      }
      assert table - devs == table;
    }

    method ListDevice(before: seq<BindingEntry>, d: string, ghost done: Table) returns (result: seq<BindingEntry>)
      requires d in table && d !in done && IsListing(before, Flatten(done), names)
      ensures IsListing(result, Flatten(done[d := table[d]]), names)
    {
      result := before;
      var sub := table[d];
      var codes := sub.Keys;
      FlattenEmptySub(done, d);
      assert sub - codes == map[];
      while codes != {}
        invariant codes <= sub.Keys
        invariant IsListing(result, Flatten(done[d := sub - codes]), names)
        decreases |codes|
      {
        var c := AnyOf(codes);
        ListingStep(result, done, names, d, sub, codes, c);
        result := result + [BindingEntry(d, CodeToName(names, c), c, sub[c])];
        codes := codes - {c};
      }
      assert sub - codes == sub;
    }
  }

  /** What a listing says of the nested table. */
  lemma ListingIsOf(es: seq<BindingEntry>, t: Table, names: NameTable)
    requires IsListing(es, Flatten(t), names)
    ensures forall i :: 0 <= i < |es| ==>
      var e := es[i];
      && e.deviceId in t && e.keycode in t[e.deviceId] && e.command == t[e.deviceId][e.keycode]
      && e.keyName == CodeToName(names, e.keycode)
    ensures forall i, j :: 0 <= i < j < |es| ==> es[i].deviceId != es[j].deviceId || es[i].keycode != es[j].keycode
    ensures forall d, c :: d in t && c in t[d] ==>
      exists i :: 0 <= i < |es| && es[i].deviceId == d && es[i].keycode == c
  {
    forall i | 0 <= i < |es|
      ensures es[i].deviceId in t && es[i].keycode in t[es[i].deviceId]
      ensures es[i].command == t[es[i].deviceId][es[i].keycode] && es[i].keyName == CodeToName(names, es[i].keycode)
    {
      assert EntryOf(es[i], Flatten(t), names);
    }
    forall i, j | 0 <= i < j < |es| ensures es[i].deviceId != es[j].deviceId || es[i].keycode != es[j].keycode {
      assert KeyOf(es[i]) != KeyOf(es[j]);
    }
    forall d, c | d in t && c in t[d] ensures exists i :: 0 <= i < |es| && es[i].deviceId == d && es[i].keycode == c {
      assert Key(d, c) in Flatten(t) && Listed(es, Key(d, c));
      var i :| 0 <= i < |es| && KeyOf(es[i]) == Key(d, c);
      assert es[i].deviceId == d;
    }
  }

  lemma TableUnboundIs(t: Table, names: NameTable, d: string, k: string)
    ensures var u := TableUnbound(t, names, d, k);
      && u - {d} == t - {d}
      && (k in names && d in t && names[k] in t[d] ==> d in u && u[d] == t[d] - {names[k]})
      && (!(k in names && d in t && names[k] in t[d]) ==> u == t)
  {
    if k in names && d in t && names[k] !in t[d] { assert t[d] - {names[k]} == t[d]; }
  }

  lemma FlattenEmptySub(t: Table, d: string)
    requires d !in t
    ensures Flatten(t[d := map[]]) == Flatten(t)
  {
    assert forall k :: InTable(t[d := map[]], k) <==> InTable(t, k);
  }

  lemma ListingStep(es: seq<BindingEntry>, done: Table, names: NameTable, d: string,
                    sub: map<int, string>, left: set<int>, c: int)
    requires d !in done && c in left && left <= sub.Keys
    requires IsListing(es, Flatten(done[d := sub - left]), names)
    ensures IsListing(es + [BindingEntry(d, CodeToName(names, c), c, sub[c])],
                      Flatten(done[d := sub - (left - {c})]), names)
  {
    var t := done[d := sub - left];
    VisitKey(sub, left, c);
    assert done[d := sub - (left - {c})] == t[d := Sub(t, d)[c := sub[c]]];
    FlattenPut(t, d, c, sub[c]);
    assert !InTable(t, Key(d, c));
    ListingSnoc(es, Flatten(t), names, Key(d, c), sub[c]);
  }

  lemma ListedSnoc(es: seq<BindingEntry>, e: BindingEntry, k: Key)
    ensures Listed(es + [e], k) <==> Listed(es, k) || KeyOf(e) == k
  {
    var es' := es + [e];
    if KeyOf(e) == k { assert KeyOf(es'[|es|]) == k; }
    if Listed(es, k) {
      var i :| 0 <= i < |es| && KeyOf(es[i]) == k;
      assert KeyOf(es'[i]) == k;
    }
  }

  /** The parts of IsListing, one by one. */
  lemma ListingIs(es: seq<BindingEntry>, f: Flat, names: NameTable)
    requires forall e :: e in es ==> EntryOf(e, f, names)
    requires forall i, j :: 0 <= i < j < |es| ==> KeyOf(es[i]) != KeyOf(es[j])
    requires forall k :: k in f ==> Listed(es, k)
    ensures IsListing(es, f, names)
  {
  }

  lemma ListingSnoc(es: seq<BindingEntry>, f: Flat, names: NameTable, k: Key, cmd: string)
    requires IsListing(es, f, names) && k !in f
    ensures IsListing(es + [BindingEntry(k.device, CodeToName(names, k.code), k.code, cmd)], f[k := cmd], names)
  {
    var e := BindingEntry(k.device, CodeToName(names, k.code), k.code, cmd);
    var es' := es + [e];
    forall x | x in es' ensures EntryOf(x, f[k := cmd], names) {
      if x in es { EntryKept(x, f, f[k := cmd], names, k); }
    }
    forall i, j | 0 <= i < j < |es'| ensures KeyOf(es'[i]) != KeyOf(es'[j]) {
      if j == |es| { assert EntryOf(es[i], f, names); }
    }
    forall q | q in f[k := cmd] ensures Listed(es', q) { ListedSnoc(es, e, q); }
    ListingIs(es', f[k := cmd], names);
  }

  /** An entry stays one when another key is bound or unbound. */
  lemma EntryKept(e: BindingEntry, f: Flat, g: Flat, names: NameTable, k: Key)
    requires EntryOf(e, f, names) && KeyOf(e) != k && g - {k} == f - {k}
    ensures EntryOf(e, g, names)
  {
    assert KeyOf(e) in f - {k} && KeyOf(e) in g - {k};
    assert (g - {k})[KeyOf(e)] == g[KeyOf(e)] && (f - {k})[KeyOf(e)] == f[KeyOf(e)];
  }

  // ---- listing and replaying ----

  /** Adding each listed entry, by name, into an empty mapper. */
  function Replay(entries: seq<BindingEntry>, names: NameTable): Flat {
    if entries == [] then map[]
    else
      var e := entries[|entries| - 1];
      Bound(Replay(entries[..|entries| - 1], names), names, e.deviceId, e.keyName, e.command)
  }

  lemma ListingFront(es: seq<BindingEntry>, f: Flat, names: NameTable)
    requires IsListing(es, f, names) && es != []
    ensures EntryOf(es[|es| - 1], f, names)
    ensures IsListing(es[..|es| - 1], f - {KeyOf(es[|es| - 1])}, names)
  {
    var front, last := es[..|es| - 1], es[|es| - 1];
    var k := KeyOf(last);
    var g := f - {k};
    assert es == front + [last];
    FrontEntries(es, front, last, f, names);
    forall q | q in g ensures Listed(front, q) { ListedSnoc(front, last, q); }
    ListingIs(front, g, names);
  }

  lemma FrontEntries(es: seq<BindingEntry>, front: seq<BindingEntry>, last: BindingEntry, f: Flat, names: NameTable)
    requires es == front + [last] && IsListing(es, f, names)
    ensures forall x :: x in front ==> EntryOf(x, f - {KeyOf(last)}, names)
  {
    forall x | x in front ensures EntryOf(x, f - {KeyOf(last)}, names) {
      var i :| 0 <= i < |front| && front[i] == x;
      assert es[i] == x && es[|front|] == last && EntryOf(es[i], f, names);
      EntryKept(x, f, f - {KeyOf(last)}, names, KeyOf(last));
    }
  }

  lemma BoundByName(f: Flat, names: NameTable, k: Key, cmd: string)
    requires k.code in names.Values
    ensures Bound(f, names, k.device, CodeToName(names, k.code), cmd) == f[k := cmd]
  {
    NameTablesInverse(names);
  }

  /** Listing bindings and replaying the listing is the identity, whatever the order, provided every
      code has a name, which all tables of a Mapper satisfy. */
  lemma {:induction false} ReplayOfListingIsIdentity(es: seq<BindingEntry>, f: Flat, names: NameTable)
    requires IsListing(es, f, names) && forall k :: k in f ==> k.code in names.Values
    ensures Replay(es, names) == f
  {
    if es == [] {
      assert forall k :: k in f ==> Listed(es, k);
    } else {
      var k := KeyOf(es[|es| - 1]);
      ListingFront(es, f, names);
      ReplayOfListingIsIdentity(es[..|es| - 1], f - {k}, names);
      ReplayLast(es, f, names);
    }
  }

  lemma ReplayLast(es: seq<BindingEntry>, f: Flat, names: NameTable)
    requires es != [] && EntryOf(es[|es| - 1], f, names) && es[|es| - 1].keycode in names.Values
    requires Replay(es[..|es| - 1], names) == f - {KeyOf(es[|es| - 1])}
    ensures Replay(es, names) == f
  {
    ReplayEntry(f, es[|es| - 1], names);
  }

  lemma ReplayEntry(f: Flat, e: BindingEntry, names: NameTable)
    requires EntryOf(e, f, names) && e.keycode in names.Values
    ensures Bound(f - {KeyOf(e)}, names, e.deviceId, e.keyName, e.command) == f
  {
    BoundByName(f - {KeyOf(e)}, names, KeyOf(e), e.command);
    PutBack(f, KeyOf(e));
  }

  lemma PutBack(f: Flat, k: Key)
    requires k in f
    ensures (f - {k})[k := f[k]] == f
  {
  }

  lemma ReplayNext(es: seq<BindingEntry>, i: nat, names: NameTable)
    requires i < |es|
    ensures Replay(es[..i + 1], names)
      == Bound(Replay(es[..i], names), names, es[i].deviceId, es[i].keyName, es[i].command)
  {
    assert es[..i + 1][..i] == es[..i];
  }

  /** Each entry of a listing is added by name. */
  method AddAll(mapper: Mapper, es: seq<BindingEntry>)
    requires mapper.Valid() && mapper.table == map[]
    modifies mapper`table
    ensures mapper.Valid() && Flatten(mapper.table) == Replay(es, mapper.names)
  {
    assert Flatten(mapper.table) == map[];
    for i := 0 to |es|
      invariant mapper.Valid() && Flatten(mapper.table) == Replay(es[..i], mapper.names)
    {
      ReplayNext(es, i, mapper.names);
      var _ := mapper.AddBinding(es[i].deviceId, es[i].keyName, es[i].command);
    }
    assert es[..|es|] == es;
  }

  /** A mapper's bindings, listed and added again by name to an empty one: the copy answers every lookup alike,
      whatever order the listing came in. */
  method Relist(original: Mapper) returns (copy: Mapper)
    requires original.Valid()
    ensures fresh(copy) && copy.Valid() && copy.names == original.names
    ensures Flatten(copy.table) == Flatten(original.table)
  {
    var es := original.AllBindings();
    copy := new Mapper(original.names);
    AddAll(copy, es);
    ReplayOfListingIsIdentity(es, Flatten(original.table), original.names);
  }

  /** An exact binding beats the wildcard's, which answers for every device without one. */
  lemma ExactBeatsWildcard(f: Flat, device: string, code: int)
    ensures Key(device, code) in f ==> FlatLookup(f, device, code) == Some(f[Key(device, code)])
    ensures Key(device, code) !in f && Key("*", code) in f ==> FlatLookup(f, device, code) == Some(f[Key("*", code)])
    ensures Key(device, code) !in f && Key("*", code) !in f ==> FlatLookup(f, device, code) == None
  {
  }

  /** What a bind and an unbind do to lookups: the pair answers the command, or as if it had never been bound, and
      no other pair changes. */
  lemma BindAndUnbindAre(f: Flat, names: NameTable, device: string, key: string, cmd: string)
    requires key in names
    ensures FlatLookup(Bound(f, names, device, key, cmd), device, names[key]) == Some(cmd)
    ensures Key(device, names[key]) !in Unbound(f, names, device, key)
    ensures forall k :: k != Key(device, names[key]) ==>
      && (k in Bound(f, names, device, key, cmd) <==> k in f) && (k in Unbound(f, names, device, key) <==> k in f)
      && (k in f ==> Bound(f, names, device, key, cmd)[k] == f[k] == Unbound(f, names, device, key)[k])
  {
  }

  /** Removing a device's own binding lets the wildcard answer again, and removing a binding
      that is not there changes nothing. */
  lemma UnbindExposesWildcard(f: Flat, names: NameTable, device: string, key: string)
    requires key in names
    ensures device != WILDCARD ==>
      FlatLookup(Unbound(f, names, device, key), device, names[key])
        == (if Key(WILDCARD, names[key]) in f then Some(f[Key(WILDCARD, names[key])]) else None)
    ensures Key(device, names[key]) !in f ==> Unbound(f, names, device, key) == f
  {
  }
}
