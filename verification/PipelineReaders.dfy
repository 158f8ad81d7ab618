// A reader's own view of a run: the loop tests it makes, the reads it gets, and what follows from them.
module PipelineReaders {
  import opened Common
  import opened EventPipeline
  import opened PipelineProperties

  /** The key events among the results of a reader's reads. */
  function KeyEvents(id: string, path: string, results: seq<ReadResult>): seq<InputEvent> {
    if results == [] then []
    else KeyEvents(id, path, results[..|results| - 1]) + KeyEvent(id, path, results[|results| - 1])
  }

  lemma KeyEventsSnoc(id: string, path: string, results: seq<ReadResult>, x: ReadResult)
    ensures KeyEvents(id, path, results + [x]) == KeyEvents(id, path, results) + KeyEvent(id, path, x)
  {
    assert (results + [x])[..|results|] == results;
  }

  lemma KeyEventsStep(id: string, path: string, xs: seq<ReadResult>, ys: seq<ReadResult>)
    requires |ys| <= 1
    ensures KeyEvents(id, path, xs + ys) == KeyEvents(id, path, xs) + KeyEvents(id, path, ys)
  {
    if ys == [] {
      assert xs + ys == xs;
    } else {
      assert ys == [ys[0]] && [] + ys == ys;
      KeyEventsSnoc(id, path, xs, ys[0]);
      KeyEventsSnoc(id, path, [], ys[0]);
    }
  }

  /** The events are those of the key results, one for each, in order, with its code, value and time. */
  ghost predicate AreTheKeys(events: seq<InputEvent>, id: string, path: string, results: seq<ReadResult>) {
    exists ks: seq<nat> :: Increasing(ks) && KeyAt(ks, events, id, path, results)
  }

  ghost predicate KeyAt(ks: seq<nat>, events: seq<InputEvent>, id: string, path: string, results: seq<ReadResult>) {
    && |ks| == |events|
    && (forall j :: 0 <= j < |ks| ==>
          ks[j] < |results| && results[ks[j]].GotKey?
          && events[j] == InputEvent(id, path, results[ks[j]].code, results[ks[j]].value, results[ks[j]].timestamp))
    && (forall i :: 0 <= i < |results| && results[i].GotKey? ==> i in ks)
  }

  lemma KeyAtSnoc(ks: seq<nat>, events: seq<InputEvent>, id: string, path: string, results: seq<ReadResult>,
                  r: ReadResult)
    requires Increasing(ks) && KeyAt(ks, events, id, path, results)
    ensures !r.GotKey? ==> KeyAt(ks, events, id, path, results + [r])
    ensures r.GotKey? ==>
      var more := ks + [|results|];
      Increasing(more)
      && KeyAt(more, events + [InputEvent(id, path, r.code, r.value, r.timestamp)], id, path, results + [r])
  {
    var all, more := results + [r], ks + [|results|];
    forall i | 0 <= i < |all| && all[i].GotKey? ensures i in more && (i < |results| ==> i in ks) {
      assert more[|ks|] == |results|;
      if i < |results| { assert results[i].GotKey? && i in ks; }
    }
  }

  lemma TheKeysSnoc(events: seq<InputEvent>, id: string, path: string, results: seq<ReadResult>, r: ReadResult)
    requires AreTheKeys(events, id, path, results)
    ensures AreTheKeys(events + KeyEvent(id, path, r), id, path, results + [r])
  {
    var ks: seq<nat> :| Increasing(ks) && KeyAt(ks, events, id, path, results);
    KeyAtSnoc(ks, events, id, path, results, r);
    if r.GotKey? {
      Witnessed(ks + [|results|], events + KeyEvent(id, path, r), id, path, results + [r]);
    } else {
      assert events + [] == events;
      Witnessed(ks, events, id, path, results + [r]);
    }
  }

  lemma Witnessed(ks: seq<nat>, events: seq<InputEvent>, id: string, path: string, results: seq<ReadResult>)
    requires Increasing(ks) && KeyAt(ks, events, id, path, results)
    ensures AreTheKeys(events, id, path, results)
  {
  }

  lemma {:induction false} KeyEventsAreTheKeys(id: string, path: string, results: seq<ReadResult>)
    ensures AreTheKeys(KeyEvents(id, path, results), id, path, results)
  {
    if results == [] {
      assert Increasing([]) && KeyAt([], [], id, path, []);
    } else {
      var front, r := results[..|results| - 1], results[|results| - 1];
      KeyEventsAreTheKeys(id, path, front);
      TheKeysSnoc(KeyEvents(id, path, front), id, path, front, r);
      assert results == front + [r];
    }
  }

  /** One key read and nothing else. */
  lemma OneKey(id: string, path: string, code: int, value: int, timestamp: nat)
    ensures KeyEvents(id, path, [GotKey(code, value, timestamp)]) == [InputEvent(id, path, code, value, timestamp)]
    ensures ReadsMade([true], [GotKey(code, value, timestamp)]) == 1
  {
    assert [] + [GotKey(code, value, timestamp)] == [GotKey(code, value, timestamp)];
    KeyEventsSnoc(id, path, [], GotKey(code, value, timestamp));
  }

  /** How many reads the loop makes: up to the first disconnection, or the first failing test. */
  function ReadsMade(goes: seq<bool>, results: seq<ReadResult>): (n: nat)
    requires |goes| == |results|
    ensures n <= |results|
    ensures forall k :: 0 <= k < n ==> goes[k]
    ensures forall k :: 0 <= k < n - 1 ==> !results[k].Disconnected?
    ensures n < |results| ==> !goes[n] || (n > 0 && results[n - 1].Disconnected?)
  {
    if goes == [] || !goes[0] then 0
    else if results[0].Disconnected? then 1
    else 1 + ReadsMade(goes[1..], results[1..])
  }

  // ---- over a run ----

  /** What reader r's loop tests found. */
  ghost function TestsOf(s: State, acts: seq<Action>, r: nat): seq<bool>
    requires Feasible(s, acts)
  {
    if acts == [] then []
    else
      var front := acts[..|acts| - 1];
      TestsOf(s, front, r) + TestOf(Exec(s, front), acts[|acts| - 1], r)
  }

  predicate Goes(s: State, r: nat) {
    r < |s.readers| && s.readers[r].active && s.running
  }

  /** What reader r's reads gave. */
  function ResultsOf(acts: seq<Action>, r: nat): seq<ReadResult> {
    if acts == [] then []
    else ResultsOf(acts[..|acts| - 1], r) + ResultOf(acts[|acts| - 1], r)
  }

  function ResultOf(a: Action, r: nat): seq<ReadResult> {
    if a.Device? && a.r == r && a.d.Read? then [a.d.result] else []
  }

  ghost predicate Lost(results: seq<ReadResult>) {
    results != [] && results[|results| - 1].Disconnected?
  }

  /** Where the reader stands in its loop after these tests and reads. */
  ghost predicate InLoop(goes: seq<bool>, results: seq<ReadResult>, reader: Reader) {
    && |results| <= |goes| <= |results| + 1
    && (forall k :: 0 <= k < |results| ==> goes[k])
    && (forall k :: 0 <= k < |results| - 1 ==> !results[k].Disconnected?)
    && (match reader.pc
        case Checking => |goes| == |results| && !Lost(results)
        case Pushing(_) => |goes| == |results| && !Lost(results)
        case Reading => |goes| == |results| + 1 && goes[|results|] && !Lost(results)
        case Exited => if Lost(results) then |goes| == |results| else |goes| == |results| + 1 && !goes[|results|])
  }

  lemma OwnLoopStep(goes: seq<bool>, results: seq<ReadResult>, s: State, r: nat, d: ReaderStep)
    requires r < |s.readers| && ReaderEnabled(s, r, d) && InLoop(goes, results, s.readers[r])
    ensures InLoop(goes + TestOf(s, Device(r, d), r), results + ResultOf(Device(r, d), r),
                   ReaderAfter(s.readers[r], s.running, d))
  {
  }

  function TestOf(s: State, a: Action, r: nat): seq<bool> {
    if a == Device(r, Test) then [Goes(s, r)] else []
  }

  lemma LoopStep(goes: seq<bool>, results: seq<ReadResult>, s: State, a: Action, r: nat)
    requires Enabled(s, a) && r < |s.readers| && InLoop(goes, results, s.readers[r])
    ensures r < |Next(s, a).readers|
    ensures InLoop(goes + TestOf(s, a, r), results + ResultOf(a, r), Next(s, a).readers[r])
  {
    assert goes + [] == goes && results + [] == results;
    match a
    case Mux(m) => MuxFrame(s, m);
    case Outside(o) => OutsideFrame(s, o);
    case Device(q, d) => if q == r { OwnLoopStep(goes, results, s, r, d); }
  }

  lemma {:induction false} ReaderInLoop(s: State, acts: seq<Action>, r: nat)
    requires Initial(s) && Feasible(s, acts) && r < |s.readers|
    ensures r < |Exec(s, acts).readers|
    ensures InLoop(TestsOf(s, acts, r), ResultsOf(acts, r), Exec(s, acts).readers[r])
  {
    if acts != [] {
      var front, a := acts[..|acts| - 1], acts[|acts| - 1];
      ReaderInLoop(s, front, r);
      LoopStep(TestsOf(s, front, r), ResultsOf(front, r), Exec(s, front), a, r);
    }
  }

  /** A reader reads nothing but the results of its own reads. */
  lemma {:induction false} ReadsAreResults(s: State, acts: seq<Action>, r: nat)
    requires Initial(s) && Feasible(s, acts) && r < |s.readers|
    ensures Project(Exec(s, acts).log.read, s.readers[r].path)
      == KeyEvents(s.readers[r].id, s.readers[r].path, ResultsOf(acts, r))
  {
    if acts != [] {
      var front, a := acts[..|acts| - 1], acts[|acts| - 1];
      ReadsAreResults(s, front, r);
      ReachableInv(s, front);
      ReadStep(s, Exec(s, front), a, r);
      ProjectAppend(Exec(s, front).log.read, ReadBy(Exec(s, front), a), s.readers[r].path);
      KeyEventsStep(s.readers[r].id, s.readers[r].path, ResultsOf(front, r), ResultOf(a, r));
    }
  }

  function ReadBy(s: State, a: Action): seq<InputEvent> {
    if a.Device? && a.r < |s.readers| then KeyRead(s.readers[a.r], a.d) else []
  }

  lemma ReadStep(s0: State, s: State, a: Action, r: nat)
    requires Enabled(s, a) && r < |s.readers| && SameReaders(s0, s) && ReadersInv(s)
    ensures Next(s, a).log.read == s.log.read + ReadBy(s, a)
    ensures Project(ReadBy(s, a), s0.readers[r].path)
      == KeyEvents(s0.readers[r].id, s0.readers[r].path, ResultOf(a, r))
  {
    match a
    case Mux(m) => MuxFrame(s, m);
    case Outside(o) => OutsideFrame(s, o);
    case Device(q, d) =>
  }

  /** Over every interleaving each reader does what its loop does with the tests and the reads that it meets:
      it makes just the reads that the loop makes, gets their key events, and is gone exactly when the loop
      is over. */
  lemma ReadersFollowTheirLoop(s: State, acts: seq<Action>, r: nat)
    requires Initial(s) && Feasible(s, acts) && r < |s.readers|
    ensures var goes, results, t := TestsOf(s, acts, r), ResultsOf(acts, r), Exec(s, acts);
      && r < |t.readers| && |results| <= |goes| <= |results| + 1
      && ReadsMade(goes[..|results|], results) == |results|
      && Project(t.log.read, s.readers[r].path) == KeyEvents(s.readers[r].id, s.readers[r].path, results)
      && AreTheKeys(Project(t.log.read, s.readers[r].path), s.readers[r].id, s.readers[r].path, results)
      && (t.readers[r].pc.Exited? <==> Lost(results) || (|goes| > |results| && !goes[|results|]))
  {
    ReaderInLoop(s, acts, r);
    ReadsAreResults(s, acts, r);
    KeyEventsAreTheKeys(s.readers[r].id, s.readers[r].path, ResultsOf(acts, r));
  }
}
