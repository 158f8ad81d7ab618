// Who is told of which event, over every interleaving.
module PipelineObservers {
  import opened EventPipeline

  const ADD: Action := Outside(AddObserver)

  // ---- who is registered ----

  /** Observer `id` is the one the j-th action registered, and nothing has removed it since. */
  ghost predicate RegisteredAt(acts: seq<Action>, id: int, j: int) {
    0 <= j < |acts| && acts[j] == ADD && Count(acts[..j], ADD) == id && Outside(RemoveObserver(id)) !in acts[j..]
  }

  ghost predicate Registered(acts: seq<Action>, id: int) {
    exists j :: RegisteredAt(acts, id, j)
  }

  lemma RegisteredSnoc(acts: seq<Action>, a: Action, id: int)
    ensures Registered(acts + [a], id) <==>
      (a == ADD && Count(acts, ADD) == id) || (a != Outside(RemoveObserver(id)) && Registered(acts, id))
  {
    var all := acts + [a];
    if a == ADD && Count(acts, ADD) == id {
      assert all[..|acts|] == acts && all[|acts|..] == [a];
      assert RegisteredAt(all, id, |acts|);
    }
    if a != Outside(RemoveObserver(id)) && Registered(acts, id) {
      var j :| RegisteredAt(acts, id, j);
      assert all[..j] == acts[..j] && all[j..] == acts[j..] + [a];
      assert RegisteredAt(all, id, j);
    }
    if j :| RegisteredAt(all, id, j) {
      if j < |acts| {
        assert all[..j] == acts[..j] && all[j..] == acts[j..] + [a];
        assert RegisteredAt(acts, id, j);
      } else {
        assert all[..j] == acts;
      }
    }
  }

  /** Two registrations never get the same id. */
  lemma {:induction false} IdsNeverReused(acts: seq<Action>, j: nat, k: nat)
    requires j < k <= |acts| && acts[j] == ADD
    ensures Count(acts[..j], ADD) < Count(acts[..k], ADD)
  {
    if k == j + 1 {
      assert acts[..k][..j] == acts[..j];
    } else {
      IdsNeverReused(acts, j, k - 1);
      assert acts[..k][..k - 1] == acts[..k - 1];
    }
  }

  ghost predicate ObserversInv(s: State, acts: seq<Action>) {
    && s.nextId == Count(acts, ADD)
    && IdsInOrder(s.observers, s.nextId)
    && (forall id :: id in s.observers <==> Registered(acts, id))
  }

  lemma ObserversStep(s: State, acts: seq<Action>, a: Action)
    requires ObserversInv(s, acts) && Enabled(s, a)
    ensures ObserversInv(Next(s, a), acts + [a])
  {
    var t := Next(s, a);
    assert (acts + [a])[..|acts|] == acts;
    forall id ensures id in t.observers <==> Registered(acts + [a], id) {
      RegisteredSnoc(acts, a, id);
      ObserverSetStep(s, a, id);
    }
    ObserverOrderStep(s, a);
  }

  lemma ObserverSetStep(s: State, a: Action, id: int)
    requires Enabled(s, a)
    ensures id in Next(s, a).observers <==>
      (a == ADD && id == s.nextId) || (a != Outside(RemoveObserver(id)) && id in s.observers)
  {
    match a
    case Mux(m) => MuxFrame(s, m);
    case Device(r, d) => ReaderFrame(s, r, d);
    case Outside(o) => if o.RemoveObserver? { WithoutIs(s.observers, o.id); }
  }

  ghost predicate IdsInOrder(ids: seq<int>, nextId: int) {
    Ascending(ids) && forall id :: id in ids ==> id < nextId
  }

  lemma AddInOrder(ids: seq<int>, nextId: int)
    requires IdsInOrder(ids, nextId)
    ensures IdsInOrder(ids + [nextId], nextId + 1)
  {
    forall i | 0 <= i < |ids| ensures ids[i] < nextId { assert ids[i] in ids; }
  }

  lemma ObserverOrderStep(s: State, a: Action)
    requires IdsInOrder(s.observers, s.nextId) && Enabled(s, a)
    ensures IdsInOrder(Next(s, a).observers, Next(s, a).nextId)
    ensures Next(s, a).nextId == s.nextId + (if a == ADD then 1 else 0)
  {
    match a
    case Mux(m) => MuxFrame(s, m);
    case Device(r, d) => ReaderFrame(s, r, d);
    case Outside(o) =>
      if o.RemoveObserver? { WithoutIs(s.observers, o.id); }
      if o.AddObserver? { AddInOrder(s.observers, s.nextId); }
  }

  lemma {:induction false} ReachableObservers(s: State, acts: seq<Action>)
    requires Initial(s) && Feasible(s, acts)
    ensures ObserversInv(Exec(s, acts), acts)
  {
    if acts != [] {
      var front, a := acts[..|acts| - 1], acts[|acts| - 1];
      ReachableObservers(s, front);
      ObserversStep(Exec(s, front), front, a);
      assert front + [a] == acts;
    }
  }

  // ---- who is called ----

  function CallsFor(ids: seq<int>, what: Dispatch): seq<Call> {
    seq(|ids|, k requires 0 <= k < |ids| => Call(ids[k], what))
  }

  /** The calls that notify owes for the copies it took. */
  function CallsOf(copies: seq<Copy>): seq<Call> {
    if copies == [] then []
    else CallsOf(copies[..|copies| - 1]) + CallsFor(copies[|copies| - 1].ids, copies[|copies| - 1].what)
  }

  function Whats(copies: seq<Copy>): seq<Dispatch> {
    seq(|copies|, k requires 0 <= k < |copies| => copies[k].what)
  }

  function ToCall(mux: MuxPc): seq<Call> {
    if mux.Calling? then CallsFor(mux.left, Dispatch(mux.ev, mux.cmd)) else []
  }

  function ToCopy(mux: MuxPc): seq<Dispatch> {
    if mux.AtNotify? then [Dispatch(mux.ev, mux.cmd)] else []
  }

  /** Each dispatched event is copied for once, in order, and each copied observer called once, in order. */
  ghost predicate NotifyInv(s: State) {
    && Whats(s.log.copies) + ToCopy(s.mux) == s.log.dispatched
    && s.log.calls + ToCall(s.mux) == CallsOf(s.log.copies)
    && (s.mux.Calling? || s.mux.AtExecute? ==>
          s.log.dispatched != [] && s.log.dispatched[|s.log.dispatched| - 1].cmd == s.mux.cmd)
  }

  lemma NotifyMux(s: State, m: MuxStep)
    requires NotifyInv(s) && MuxEnabled(s, m)
    ensures NotifyInv(MuxNext(s, m))
  {
    var t := MuxNext(s, m);
    if m == CopyObservers {
      assert t.log.copies[..|s.log.copies|] == s.log.copies;
      assert Whats(t.log.copies) == Whats(s.log.copies) + ToCopy(s.mux);
      assert s.log.calls + [] == s.log.calls;
    } else {
      assert t.log.copies == s.log.copies;
      CallsBalance(s, m);
    }
  }

  lemma CallsBalance(s: State, m: MuxStep)
    requires MuxEnabled(s, m) && m != CopyObservers
    ensures MuxNext(s, m).log.calls + ToCall(MuxNext(s, m).mux) == s.log.calls + ToCall(s.mux)
  {
    var t := MuxNext(s, m);
    if m == CallObserver {
      assert t.log.calls == s.log.calls + FirstCall(s.mux);
      assert ToCall(s.mux) == FirstCall(s.mux) + ToCall(t.mux);
    } else {
      assert t.log.calls == s.log.calls;
    }
  }

  lemma {:induction false} ReachableNotify(s: State, acts: seq<Action>)
    requires Initial(s) && Feasible(s, acts)
    ensures NotifyInv(Exec(s, acts))
  {
    if acts != [] {
      var front, a := acts[..|acts| - 1], acts[|acts| - 1];
      ReachableNotify(s, front);
      var p := Exec(s, front);
      match a
      case Mux(m) => NotifyMux(p, m);
      case Device(r, d) => ReaderFrame(p, r, d);
      case Outside(o) => OutsideFrame(p, o);
    }
  }

  /** A command runs only after every observer copied for its event has been called. */
  lemma ExecutionFollowsNotification(s: State, acts: seq<Action>)
    requires Initial(s) && Feasible(s, acts) && Exec(s, acts).mux.AtExecute?
    ensures var log := Exec(s, acts).log;
      && log.calls == CallsOf(log.copies) && Whats(log.copies) == log.dispatched
      && log.dispatched != [] && log.dispatched[|log.dispatched| - 1].cmd == Exec(s, acts).mux.cmd
  {
    ReachableNotify(s, acts);
    var t := Exec(s, acts);
    assert t.log.calls + [] == t.log.calls && Whats(t.log.copies) + [] == Whats(t.log.copies);
  }

  // ---- one observer's view ----

  /** What observer `id` was told, in order. */
  function Told(calls: seq<Call>, id: int): seq<Dispatch> {
    if calls == [] then []
    else Told(calls[..|calls| - 1], id) + (if calls[|calls| - 1].id == id then [calls[|calls| - 1].what] else [])
  }

  lemma {:induction false} ToldAppend(xs: seq<Call>, ys: seq<Call>, id: int)
    ensures Told(xs + ys, id) == Told(xs, id) + Told(ys, id)
  {
    if ys == [] {
      assert xs + ys == xs;
    } else {
      ToldAppend(xs, ys[..|ys| - 1], id);
      assert (xs + ys)[..|xs + ys| - 1] == xs + ys[..|ys| - 1];
    }
  }

  lemma ToldSnoc(calls: seq<Call>, call: Call, id: int)
    ensures Told(calls + [call], id) == Told(calls, id) + (if call.id == id then [call.what] else [])
  {
    assert (calls + [call])[..|calls|] == calls;
  }

  lemma {:induction false} ToldOnce(calls: seq<Call>, ids: seq<int>, what: Dispatch, id: int)
    requires Ascending(ids) && calls == CallsFor(ids, what)
    ensures Told(calls, id) == if id in ids then [what] else []
  {
    if ids != [] {
      var front, last := ids[..|ids| - 1], ids[|ids| - 1];
      ToldOnce(calls[..|calls| - 1], front, what, id);
      assert id in ids <==> id in front || id == last;
    }
  }

  lemma CopySnoc(copies: seq<Copy>, copy: Copy, id: int)
    requires Ascending(copy.ids)
    ensures Told(CallsOf(copies + [copy]), id)
      == Told(CallsOf(copies), id) + (if id in copy.ids then [copy.what] else [])
  {
    assert (copies + [copy])[..|copies|] == copies;
    ToldAppend(CallsOf(copies), CallsFor(copy.ids, copy.what), id);
    ToldOnce(CallsFor(copy.ids, copy.what), copy.ids, copy.what, id);
  }

  /** What observer `id` is owed: the event of every notify whose copy was taken while it was registered. */
  ghost function Owed(s: State, acts: seq<Action>, id: int): seq<Dispatch>
    requires Feasible(s, acts)
  {
    if acts == [] then []
    else
      var front := acts[..|acts| - 1];
      Owed(s, front, id) +
      (if acts[|acts| - 1] == Mux(CopyObservers) && Registered(front, id)
       then [Dispatch(Exec(s, front).mux.ev, Exec(s, front).mux.cmd)] else [])
  }

  lemma {:induction false} OwedIsCopied(s: State, acts: seq<Action>, id: int)
    requires Initial(s) && Feasible(s, acts)
    ensures Told(CallsOf(Exec(s, acts).log.copies), id) == Owed(s, acts, id)
  {
    if acts != [] {
      var front, a := acts[..|acts| - 1], acts[|acts| - 1];
      OwedIsCopied(s, front, id);
      var p := Exec(s, front);
      if a == Mux(CopyObservers) {
        ReachableObservers(s, front);
        CopySnoc(p.log.copies, Copy(p.observers, Dispatch(p.mux.ev, p.mux.cmd)), id);
      } else {
        CopiesFrame(p, a);
      }
    }
  }

  lemma CopiesFrame(s: State, a: Action)
    requires Enabled(s, a) && a != Mux(CopyObservers)
    ensures Next(s, a).log.copies == s.log.copies
  {
    match a
    case Mux(m) =>
    case Device(r, d) => ReaderFrame(s, r, d);
    case Outside(o) => OutsideFrame(s, o);
  }

  /** Each observer is told exactly once, in dispatch order, of the events whose copy was taken between
      its registration and its removal. Nothing that happens while notify is calling changes that. */
  lemma EachObserverToldOnce(s: State, acts: seq<Action>, id: int)
    requires Initial(s) && Feasible(s, acts)
    ensures Told(Exec(s, acts).log.calls, id) + Told(ToCall(Exec(s, acts).mux), id) == Owed(s, acts, id)
  {
    ReachableNotify(s, acts);
    OwedIsCopied(s, acts, id);
    ToldAppend(Exec(s, acts).log.calls, ToCall(Exec(s, acts).mux), id);
  }
}
