// Which configuration block each event node gets (DeviceManager::open_all in src/devicemanager.cpp).
module DeviceMatching {
  import opened Common

  datatype SysfsInfo = SysfsInfo(name: string, vendorProduct: string)

  /** An event node as the scan finds it: what sysfs says of it, and whether opening it succeeds. */
  datatype Candidate = Candidate(path: string, info: SysfsInfo, opens: bool)

  datatype Entry = Entry(cfg: DeviceConfig, path: string)

  predicate OccursAt(s: string, part: string, i: int) {
    0 <= i <= |s| - |part| && s[i..i + |part|] == part
  }

  predicate Contains(s: string, part: string) {
    exists i | 0 <= i <= |s| - |part| :: OccursAt(s, part, i)
  }

  predicate SysfsMatches(info: SysfsInfo, path: string, m: DeviceMatch) {
    if m.path != "" then path == m.path
    else if m.vendorProduct != "" && info.vendorProduct != "" && info.vendorProduct == m.vendorProduct then true
    else m.nameContains != "" && info.name != "" && Contains(info.name, m.nameContains)
  }

  lemma ContainsIff(s: string, part: string)
    ensures Contains(s, part) <==> exists a: string, b: string :: s == a + part + b
  {
    if Contains(s, part) {
      var i :| 0 <= i <= |s| - |part| && OccursAt(s, part, i);
      assert s == s[..i] + part + s[i + |part|..];
    }
    if a: string, b: string :| s == a + part + b {
      assert s[|a|..|a| + |part|] == part;
      assert OccursAt(s, part, |a|);
    }
  }

  /** A node matches by its path alone if one is given; otherwise by its vendor:product, or by a part of its name. */
  lemma SysfsMatchesIff(info: SysfsInfo, path: string, m: DeviceMatch)
    ensures m.path != "" ==> (SysfsMatches(info, path, m) <==> path == m.path)
    ensures m.path == "" ==> (SysfsMatches(info, path, m) <==>
      || (m.vendorProduct != "" && info.vendorProduct == m.vendorProduct)
      || (m.nameContains != "" && exists a: string, b: string :: info.name == a + m.nameContains + b))
  {
    ContainsIff(info.name, m.nameContains);
    if a: string, b: string :| info.name == a + m.nameContains + b {
      assert |info.name| >= |m.nameContains|;
    }
  }

  /** With a name criterion alone, exactly the nodes with that in their name fit. */
  lemma FitsByNameIff(c: Candidate, dc: DeviceConfig)
    requires dc.match_.path == "" && dc.match_.vendorProduct == "" && dc.match_.nameContains != ""
    ensures Fits(c, dc) <==> exists a: string, b: string :: c.info.name == a + dc.match_.nameContains + b
  {
    SysfsMatchesIff(c.info, c.path, dc.match_);
  }

  /** The documented rule: the first criterion that is given decides alone. */
  predicate FirstGivenDecides(info: SysfsInfo, path: string, m: DeviceMatch) {
    if m.path != "" then path == m.path
    else if m.vendorProduct != "" then info.vendorProduct == m.vendorProduct
    else m.nameContains != "" && Contains(info.name, m.nameContains)
  }

  /** The code follows the documented rule except where a vendor:product is given, differs, and the
      name then matches: there it falls back to the name. */
  lemma DocumentedRuleIff(info: SysfsInfo, path: string, m: DeviceMatch)
    ensures SysfsMatches(info, path, m) == FirstGivenDecides(info, path, m)
      <==> (m.path == "" && m.vendorProduct != "" && info.vendorProduct != m.vendorProduct
            ==> m.nameContains == "" || !Contains(info.name, m.nameContains))
  {
    if info.name == "" && m.nameContains != "" {
      assert forall i :: !OccursAt("", m.nameContains, i);
    }
  }

  lemma FallsBackToName()
    ensures var info, m := SysfsInfo("G502", "046d:c08b"), DeviceMatch("G502", "046d:c332", "");
      SysfsMatches(info, "/dev/input/event5", m) && !FirstGivenDecides(info, "/dev/input/event5", m)
  {
    assert OccursAt("G502", "G502", 0);
    assert "046d:c08b"[5..] != "046d:c332"[5..] by { assert "046d:c08b"[6] != "046d:c332"[6]; }
  }

  predicate Fits(c: Candidate, dc: DeviceConfig) {
    SysfsMatches(c.info, c.path, dc.match_)
  }

  // ---- what makes an assignment the right one ----

  /** For each candidate, the index of the block it holds. */
  type Assignment = seq<Option<nat>>

  ghost predicate Taken(a: Assignment, before: nat, i: nat) {
    exists k :: 0 <= k < before && k < |a| && a[k] == Some(i)
  }

  /** Pairs fit and opened, and no block is held twice. */
  ghost predicate IsMatching(cands: seq<Candidate>, cfgs: seq<DeviceConfig>, a: Assignment) {
    && |a| <= |cands|
    && (forall k :: 0 <= k < |a| && a[k].Some? ==>
          a[k].value < |cfgs| && cands[k].opens && Fits(cands[k], cfgs[a[k].value]))
    && (forall k, l :: 0 <= k < l < |a| && a[k].Some? ==> a[k] != a[l])
  }

  /** Candidate k and block i would both rather have each other: k fits i and opens, k holds
      nothing or a later block, and no earlier candidate holds i. */
  ghost predicate Blocks(cands: seq<Candidate>, cfgs: seq<DeviceConfig>, a: Assignment, k: nat, i: nat) {
    && k < |a| <= |cands| && i < |cfgs|
    && cands[k].opens && Fits(cands[k], cfgs[i])
    && (a[k].None? || i < a[k].value)
    && !Taken(a, k, i)
  }

  ghost predicate IsStable(cands: seq<Candidate>, cfgs: seq<DeviceConfig>, a: Assignment) {
    IsMatching(cands, cfgs, a) && forall k, i :: !Blocks(cands, cfgs, a, k, i)
  }

  function EntriesOf(cands: seq<Candidate>, cfgs: seq<DeviceConfig>, a: Assignment): seq<Entry>
    requires |a| <= |cands|
    requires forall k :: 0 <= k < |a| && a[k].Some? ==> a[k].value < |cfgs|
  {
    if a == [] then []
    else
      var k := |a| - 1;
      EntriesOf(cands, cfgs, a[..k])
        + (if a[k].Some? then [Entry(cfgs[a[k].value], cands[k].path)] else [])
  }

  class DeviceManager {
    var entries: seq<Entry>
    ghost var assignment: Assignment

    constructor ()
      ensures entries == []
    {
      entries, assignment := [], [];
    }

    /** Candidates come sorted by path; each takes the first fitting block nobody holds yet,
        unless opening it fails. */
    method OpenAll(cands: seq<Candidate>, cfgs: seq<DeviceConfig>) returns (n: nat)
      modifies this
      ensures |assignment| == |cands| && IsStable(cands, cfgs, assignment)
      ensures entries == EntriesOf(cands, cfgs, assignment)
      ensures n == |entries|
    {
      entries, assignment := [], [];
      var matched := new bool[|cfgs|](i => false);
      for k := 0 to |cands|
        invariant |assignment| == k && IsStable(cands, cfgs, assignment)
        invariant entries == EntriesOf(cands, cfgs, assignment)
        invariant forall i :: 0 <= i < |cfgs| ==> (matched[i] <==> Taken(assignment, k, i))
      {
        ScanOne(cands, cfgs, matched, k);
      }
      n := |entries|;
    }

    /** One round of the scan. */
    method ScanOne(cands: seq<Candidate>, cfgs: seq<DeviceConfig>, matched: array<bool>, k: nat)
      requires k < |cands| && |assignment| == k && IsStable(cands, cfgs, assignment)
      requires entries == EntriesOf(cands, cfgs, assignment)
      requires matched.Length == |cfgs| && forall i :: 0 <= i < |cfgs| ==> (matched[i] <==> Taken(assignment, k, i))
      modifies this, matched
      ensures |assignment| == k + 1 && IsStable(cands, cfgs, assignment)
      ensures entries == EntriesOf(cands, cfgs, assignment)
      ensures forall i :: 0 <= i < |cfgs| ==> (matched[i] <==> Taken(assignment, k + 1, i))
    {
      var idx := FirstFree(cands[k], cfgs, matched);
      ghost var a, x: Option<nat> := assignment, None;
      if idx >= 0 {
        entries := entries + [Entry(cfgs[idx], cands[k].path)];
        if cands[k].opens {
          matched[idx] := true;
          x := Some(idx);
        } else {
          entries := entries[..|entries| - 1];
        }
      }
      StableSnoc(cands, cfgs, a, x);
      assignment := a + [x];
      assert assignment[..k] == a;
    }

    method FirstFree(c: Candidate, cfgs: seq<DeviceConfig>, matched: array<bool>) returns (idx: int)
      requires matched.Length == |cfgs|
      ensures -1 <= idx < |cfgs|
      ensures idx >= 0 ==> !matched[idx] && Fits(c, cfgs[idx])
      ensures forall i :: 0 <= i < (if idx < 0 then |cfgs| else idx) ==> matched[i] || !Fits(c, cfgs[i])
    {
      for i := 0 to |cfgs|
        invariant forall j :: 0 <= j < i ==> matched[j] || !Fits(c, cfgs[j])
      {
        if matched[i] { continue; }
        if Fits(c, cfgs[i]) { return i; }
      }
      return -1;
    }
  }

  lemma TakenSnoc(a: Assignment, x: Option<nat>, before: nat, i: nat)
    ensures Taken(a + [x], before, i) <==> Taken(a, before, i) || (|a| < before && x == Some(i))
  {
    var b := a + [x];
    if Taken(a, before, i) {
      var k :| 0 <= k < before && k < |a| && a[k] == Some(i);
      assert b[k] == Some(i);
    }
    if |a| < before && x == Some(i) { assert b[|a|] == Some(i); }
  }

  /** One round of the scan keeps the assignment stable. */
  lemma StableSnoc(cands: seq<Candidate>, cfgs: seq<DeviceConfig>, a: Assignment, x: Option<nat>)
    requires |a| < |cands| && IsStable(cands, cfgs, a)
    requires x.Some? ==>
      x.value < |cfgs| && cands[|a|].opens && Fits(cands[|a|], cfgs[x.value]) && !Taken(a, |a|, x.value)
    requires cands[|a|].opens ==> forall i :: 0 <= i < (if x.Some? then x.value else |cfgs|) ==>
      Taken(a, |a|, i) || !Fits(cands[|a|], cfgs[i])
    ensures IsStable(cands, cfgs, a + [x])
    ensures forall i: nat :: Taken(a + [x], |a| + 1, i) <==> Taken(a, |a|, i) || x == Some(i)
  {
    var b := a + [x];
    forall k: nat, i: nat | k < |b| ensures !Blocks(cands, cfgs, b, k, i) {
      TakenSnoc(a, x, k, i);
      if k < |a| { assert !Blocks(cands, cfgs, a, k, i); }
    }
    forall k, l | 0 <= k < l < |b| && b[k].Some? ensures b[k] != b[l] {
      if l == |a| && x.Some? { assert !Taken(a, |a|, x.value); }
    }
    forall i: nat ensures Taken(b, |a| + 1, i) <==> Taken(a, |a|, i) || x == Some(i) {
      TakenSnoc(a, x, |a| + 1, i);
      if Taken(a, |a| + 1, i) { assert Taken(a, |a|, i); }
    }
  }

  // ---- consequences of stability ----

  /** There is only one stable assignment, so the result is fully determined. */
  lemma {:induction false} StableIsUnique(cands: seq<Candidate>, cfgs: seq<DeviceConfig>, a: Assignment, b: Assignment)
    requires IsStable(cands, cfgs, a) && IsStable(cands, cfgs, b) && |a| == |b|
    ensures a == b
  {
    if a != [] {
      var n := |a| - 1;
      StablePrefix(cands, cfgs, a);
      StablePrefix(cands, cfgs, b);
      StableIsUnique(cands, cfgs, a[..n], b[..n]);
      SameLastBothWays(cands, cfgs, a, b);
      SameFrontAndLast(a, b);
    }
  }

  lemma SameFrontAndLast<T>(a: seq<T>, b: seq<T>)
    requires |a| == |b| > 0 && a[..|a| - 1] == b[..|b| - 1] && a[|a| - 1] == b[|b| - 1]
    ensures a == b
  {
    assert a == a[..|a| - 1] + [a[|a| - 1]] && b == b[..|b| - 1] + [b[|b| - 1]];
  }

  lemma SameLastBothWays(cands: seq<Candidate>, cfgs: seq<DeviceConfig>, a: Assignment, b: Assignment)
    requires IsStable(cands, cfgs, a) && IsStable(cands, cfgs, b) && |a| == |b| > 0
    requires a[..|a| - 1] == b[..|a| - 1]
    ensures a[|a| - 1] == b[|a| - 1]
  {
    assert forall k :: 0 <= k < |a| - 1 ==> a[k] == a[..|a| - 1][k] == b[..|a| - 1][k] == b[k];
    SameLast(cands, cfgs, a, b);
    SameLast(cands, cfgs, b, a);
  }

  /** With the same candidates before it, the last candidate does no worse in b than in a. */
  lemma SameLast(cands: seq<Candidate>, cfgs: seq<DeviceConfig>, a: Assignment, b: Assignment)
    requires IsStable(cands, cfgs, a) && IsStable(cands, cfgs, b) && |a| == |b| > 0
    requires forall k :: 0 <= k < |a| - 1 ==> a[k] == b[k]
    ensures var n := |a| - 1; a[n].Some? ==> b[n].Some? && b[n].value <= a[n].value
  {
    var n := |a| - 1;
    if a[n].Some? {
      assert !Blocks(cands, cfgs, b, n, a[n].value);
      assert !Taken(b, n, a[n].value);
    }
  }

  lemma StablePrefix(cands: seq<Candidate>, cfgs: seq<DeviceConfig>, a: Assignment)
    requires a != [] && IsStable(cands, cfgs, a)
    ensures IsStable(cands, cfgs, a[..|a| - 1])
  {
    var p := a[..|a| - 1];
    forall k: nat, i: nat | k < |p| ensures !Blocks(cands, cfgs, p, k, i) {
      assert !Blocks(cands, cfgs, a, k, i);
      assert p[k] == a[k];
      if Taken(a, k, i) {
        var j :| 0 <= j < k && j < |a| && a[j] == Some(i);
        assert p[j] == Some(i);
      }
    }
  }

  /** A candidate that cannot be opened changes nothing for the others. */
  lemma UnopenableChangesNothing(cands: seq<Candidate>, cfgs: seq<DeviceConfig>, a: Assignment, p: nat, bad: Candidate)
    requires p <= |cands| == |a| && !bad.opens && IsStable(cands, cfgs, a)
    ensures IsStable(Insert(cands, p, bad), cfgs, Insert(a, p, None))
    ensures EntriesOf(Insert(cands, p, bad), cfgs, Insert(a, p, None)) == EntriesOf(cands, cfgs, a)
  {
    InsertKeepsMatching(cands, cfgs, a, p, bad);
    var cs, b := Insert(cands, p, bad), Insert(a, p, None);
    forall k: nat, i: nat | k < |b| ensures !Blocks(cs, cfgs, b, k, i) {
      if k != p {
        assert !Blocks(cands, cfgs, a, Source(k, p), i);
        if Taken(a, Source(k, p), i) {
          var j :| 0 <= j < Source(k, p) && j < |a| && a[j] == Some(i);
          assert b[if j < p then j else j + 1] == Some(i);
        }
      }
    }
    EntriesSkipNone(cands, cfgs, a, p, bad);
  }

  lemma InsertKeepsMatching(cands: seq<Candidate>, cfgs: seq<DeviceConfig>, a: Assignment, p: nat, bad: Candidate)
    requires p <= |cands| == |a| && IsMatching(cands, cfgs, a)
    ensures IsMatching(Insert(cands, p, bad), cfgs, Insert(a, p, None))
  {
    var b := Insert(a, p, None);
    forall k, l | 0 <= k < l < |b| && b[k].Some? ensures b[k] != b[l] {
      assert b[k] == a[Source(k, p)];
    }
  }

  lemma {:induction false} EntriesSkipNone(cands: seq<Candidate>, cfgs: seq<DeviceConfig>, a: Assignment,
                                           p: nat, bad: Candidate)
    requires p <= |a| <= |cands| && forall k :: 0 <= k < |a| && a[k].Some? ==> a[k].value < |cfgs|
    ensures EntriesOf(Insert(cands, p, bad), cfgs, Insert(a, p, None)) == EntriesOf(cands, cfgs, a)
  {
    var b, n := Insert(a, p, None), |a| - 1;
    if p == |a| {
      assert b[..|a|] == a;
      EntriesOfPrefix(Insert(cands, p, bad), cands, cfgs, a);
    } else {
      EntriesSkipNone(cands, cfgs, a[..n], p, bad);
      assert b[..|a|] == Insert(a[..n], p, None);
    }
  }

  /** Entries depend on the candidates assigned and on no later ones. */
  lemma {:induction false} EntriesOfPrefix(cs: seq<Candidate>, cands: seq<Candidate>, cfgs: seq<DeviceConfig>,
                                           a: Assignment)
    requires |a| <= |cs| && |a| <= |cands| && cs[..|a|] == cands[..|a|]
    requires forall k :: 0 <= k < |a| && a[k].Some? ==> a[k].value < |cfgs|
    ensures EntriesOf(cs, cfgs, a) == EntriesOf(cands, cfgs, a)
  {
    if a != [] {
      var n := |a| - 1;
      assert cs[..n] == cs[..|a|][..n] && cands[..n] == cands[..|a|][..n];
      EntriesOfPrefix(cs, cands, cfgs, a[..n]);
      assert cs[n] == cs[..|a|][n] == cands[..|a|][n];
    }
  }

  /** The position that k had before an insertion at p. */
  function Source(k: nat, p: nat): nat {
    if k <= p then k else k - 1
  }

  function Insert<T>(s: seq<T>, p: nat, x: T): (r: seq<T>)
    requires p <= |s|
    ensures |r| == |s| + 1 && r[p] == x
    ensures forall k :: 0 <= k < |r| && k != p ==> r[k] == s[Source(k, p)]
  {
    s[..p] + [x] + s[p..]
  }

  ghost function Assigned(a: Assignment): set<nat> {
    set k: nat | k < |a| && a[k].Some?
  }

  ghost function Held(a: Assignment, ks: set<nat>): set<nat>
    requires ks <= Assigned(a)
  {
    set k | k in ks :: a[k].value
  }

  lemma {:induction false} HeldCount(a: Assignment, ks: set<nat>)
    requires ks <= Assigned(a)
    ensures |Held(a, ks)| <= |ks|
    ensures (forall k, l :: k in ks && l in ks && k != l ==> a[k] != a[l]) ==> |Held(a, ks)| == |ks|
  {
    if ks != {} {
      var k :| k in ks;
      HeldCount(a, ks - {k});
      assert Held(a, ks) == Held(a, ks - {k}) + {a[k].value};
    }
  }

  /** Whatever a candidate without a block could get elsewhere is held by an earlier candidate. */
  lemma ExtraIsHeld(cands: seq<Candidate>, cfgs: seq<DeviceConfig>, a: Assignment, b: Assignment)
    requires IsStable(cands, cfgs, a) && |a| == |cands|
    requires IsMatching(cands, cfgs, b) && |b| == |cands|
    ensures Held(b, Assigned(b) - Assigned(a)) <= Held(a, Assigned(a))
  {
    var extra := Assigned(b) - Assigned(a);
    forall i | i in Held(b, extra) ensures i in Held(a, Assigned(a)) {
      var k :| k in extra && b[k].value == i;
      assert !Blocks(cands, cfgs, a, k, i);
      var j :| 0 <= j < k && j < |a| && a[j] == Some(i);
      assert j in Assigned(a);
    }
  }

  /** First come, first served is never worse than half of the best: no assignment of the
      same openable nodes to the same blocks holds more than twice as many. */
  lemma AtLeastHalfOfAny(cands: seq<Candidate>, cfgs: seq<DeviceConfig>, a: Assignment, b: Assignment)
    requires IsStable(cands, cfgs, a) && |a| == |cands|
    requires IsMatching(cands, cfgs, b) && |b| == |cands|
    ensures |Assigned(b)| <= 2 * |Assigned(a)|
  {
    var extra := Assigned(b) - Assigned(a);
    HeldCount(b, extra);
    HeldCount(a, Assigned(a));
    ExtraIsHeld(cands, cfgs, a, b);
    Subset(Held(b, extra), Held(a, Assigned(a)));
    Subset(Assigned(b) * Assigned(a), Assigned(a));
    assert Assigned(b) == Assigned(b) * Assigned(a) + extra;
  }

  lemma {:induction false} Subset(xs: set<nat>, ys: set<nat>)
    requires xs <= ys
    ensures |xs| <= |ys|
  {
    if xs != {} {
      var x :| x in xs;
      Subset(xs - {x}, ys - {x});
    }
  }

  /** The factor of two is reached: one node that fits two blocks, one that fits only the first. */
  lemma HalfIsReached(both: Candidate, first: Candidate, x: DeviceConfig, y: DeviceConfig)
    requires both.opens && first.opens
    requires Fits(both, x) && Fits(both, y) && Fits(first, x) && !Fits(first, y)
    ensures IsStable([both, first], [x, y], [Some(0), None])
    ensures IsMatching([both, first], [x, y], [Some(1), Some(0)])
    ensures |Assigned([Some(0), None])| == 1 && |Assigned([Some(1), Some(0)])| == 2
  {
    var a: Assignment := [Some(0), None];
    assert a[0] == Some(0);
    assert Taken(a, 1, 0);
    assert Assigned(a) == {0};
    assert Assigned([Some(1), Some(0)]) == {0, 1};
  }

  function NamedNode(path: string, name: string): Candidate {
    Candidate(path, SysfsInfo(name, ""), true)
  }

  function NamedBlock(id: string, name: string): DeviceConfig {
    DeviceConfig(id, DeviceMatch(name, "", ""), false, map[])
  }

  lemma NamesFit()
    ensures Contains("AB", "A") && Contains("AB", "B") && Contains("A", "A") && !Contains("A", "B")
  {
    assert OccursAt("AB", "A", 0) && OccursAt("AB", "B", 1) && OccursAt("A", "A", 0);
    assert forall i :: !OccursAt("A", "B", i);
  }

  /** There are such nodes and blocks: a node "AB" fits the criteria "A" and "B", a node "A" only the first. */
  lemma HalfIsReachedBySome()
    ensures exists cands: seq<Candidate>, cfgs: seq<DeviceConfig>, a: Assignment, b: Assignment ::
      IsStable(cands, cfgs, a) && IsMatching(cands, cfgs, b) && |Assigned(b)| == 2 * |Assigned(a)| == 2
  {
    NamesFit();
    HalfIsReached(NamedNode("/dev/input/event1", "AB"), NamedNode("/dev/input/event2", "A"),
                  NamedBlock("x", "A"), NamedBlock("y", "B"));
  }

  /** The assigned candidates, in path order. */
  ghost function Order(a: Assignment): (ks: seq<nat>)
    ensures forall j :: 0 <= j < |ks| ==> ks[j] < |a| && a[ks[j]].Some?
    ensures forall i, j :: 0 <= i < j < |ks| ==> ks[i] < ks[j]
  {
    if a == [] then []
    else
      var k := |a| - 1;
      Order(a[..k]) + (if a[k].Some? then [k] else [])
  }

  lemma {:induction false} OrderIsComplete(a: Assignment)
    ensures |Order(a)| == |Assigned(a)|
    ensures forall k :: k in Assigned(a) ==> k in Order(a)
  {
    if a == [] {
      assert Assigned(a) == {};
    } else {
      var n := |a| - 1;
      OrderIsComplete(a[..n]);
      AssignedSnoc(a);
      if a[n].Some? {
        var ks := Order(a[..n]);
        assert Order(a) == ks + [n];
        assert forall k :: k in ks ==> k in ks + [n];
        assert (ks + [n])[|ks|] == n;
      }
    }
  }

  lemma AssignedSnoc(a: Assignment)
    requires a != []
    ensures var n := |a| - 1;
      Assigned(a) == if a[n].Some? then Assigned(a[..n]) + {n} else Assigned(a[..n])
    ensures |a| - 1 !in Assigned(a[..|a| - 1])
  {
  }

  /** Entries are exactly the assigned candidates, in path order, each with its block. */
  lemma {:induction false} EntriesFollowOrder(cands: seq<Candidate>, cfgs: seq<DeviceConfig>, a: Assignment)
    requires IsMatching(cands, cfgs, a)
    ensures |EntriesOf(cands, cfgs, a)| == |Order(a)|
    ensures forall j :: 0 <= j < |Order(a)| ==>
      EntriesOf(cands, cfgs, a)[j] == Entry(cfgs[a[Order(a)[j]].value], cands[Order(a)[j]].path)
  {
    if a != [] {
      var n := |a| - 1;
      var p := a[..n];
      EntriesFollowOrder(cands, cfgs, p);
      forall j | 0 <= j < |Order(a)|
        ensures EntriesOf(cands, cfgs, a)[j] == Entry(cfgs[a[Order(a)[j]].value], cands[Order(a)[j]].path)
      {
        if j < |Order(p)| { assert Order(a)[j] == Order(p)[j]; }
      }
    }
  }

  /** Nodes have distinct paths, so entries do. */
  lemma EntryPathsDistinct(cands: seq<Candidate>, cfgs: seq<DeviceConfig>, a: Assignment)
    requires IsMatching(cands, cfgs, a)
    requires forall k, l :: 0 <= k < l < |cands| ==> cands[k].path != cands[l].path
    ensures var es := EntriesOf(cands, cfgs, a);
      forall i, j :: 0 <= i < j < |es| ==> es[i].path != es[j].path
  {
    EntriesFollowOrder(cands, cfgs, a);
  }
}
