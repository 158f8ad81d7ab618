// The wizard that maps a mouse's buttons one by one (the automap functions in frontend/webui/app.js).
module Automap {
  import opened Common

  const STEPS := 6
  /** The first slots are the fixed core buttons; the others have an entry among the extras. */
  const CORE := 3

  datatype Status = Pending | Captured | Mapped | Failed

  datatype Slot = Slot(status: Status, key: Option<string>)

  datatype State = State(open: bool, index: int, slots: seq<Slot>, extras: map<int, string>)

  datatype Action = OpenModal | CloseModal | Next | Prev | Reset | Event(key: string, up: bool)

  function Fresh(extras: map<int, string>): State {
    State(true, 0, seq(STEPS, _ => Slot(Pending, None)), extras)
  }

  predicate Decided(slot: Slot) {
    slot.status.Mapped? || slot.status.Failed?
  }

  /** The index is in range, every slot before it is decided, a key is there exactly when one was
      captured, and the extras hold the key of every mapped extra button. */
  ghost predicate Valid(s: State) {
    && |s.slots| == STEPS && 0 <= s.index < STEPS
    && (forall i :: 0 <= i < s.index ==> Decided(s.slots[i]))
    && (forall i :: 0 <= i < STEPS ==>
          (s.slots[i].key.Some? <==> s.slots[i].status.Captured? || s.slots[i].status.Mapped?))
    && (forall i :: CORE <= i < STEPS && s.slots[i].status.Mapped? ==>
          i in s.extras && s.slots[i].key == Some(s.extras[i]))
  }

  /** The wizard as the six handlers change it. */
  class Wizard {
    var open: bool
    var index: int
    var slots: seq<Slot>
    var extras: map<int, string>

    ghost function Now(): State
      reads this
    {
      State(open, index, slots, extras)
    }

    constructor (extras: map<int, string>)
      ensures Now() == Fresh(extras).(open := false)
    {
      open, index, slots, this.extras := false, 0, seq(STEPS, _ => Slot(Pending, None)), extras;
    }

    method ResetState()
      modifies this
      ensures Now() == Fresh(extras).(open := old(open)) && extras == old(extras)
    {
      slots, index := seq(STEPS, _ => Slot(Pending, None)), 0;
    }

    method OpenModal()
      modifies this
      ensures Now() == After(old(Now()), Action.OpenModal)
      ensures open && index == 0 && |slots| == 6 && extras == old(extras)
      ensures forall i :: 0 <= i < 6 ==> slots[i] == Slot(Pending, None)
    {
      ResetState();
      open := true;
    }

    method CloseModal()
      modifies this
      ensures Now() == After(old(Now()), Action.CloseModal)
      ensures !open && index == old(index) && slots == old(slots) && extras == old(extras)
    {
      open := false;
    }

    method GoNext()
      requires open && Valid(Now())
      modifies this
      ensures Now() == After(old(Now()), Next)
      ensures if old(index) < 5 then open && index == old(index) + 1 else !open && index == old(index)
      ensures var i, st := old(index), old(slots)[old(index)];
        && slots == old(slots)[i := slots[i]]
        && (st.status == Captured ==> slots[i] == Slot(Mapped, st.key))
        && (st.status == Mapped ==> slots[i] == st)
        && (st.status == Pending || st.status == Failed ==> slots[i] == Slot(Failed, None))
        && extras == if st.status == Captured && i >= 3 then old(extras)[i := st.key.value] else old(extras)
    {
      var st := slots[index];
      if st.status.Captured? {
        slots := slots[index := st.(status := Mapped)];
        if index >= CORE { extras := extras[index := st.key.value]; }
      } else if !st.status.Mapped? {
        slots := slots[index := Slot(Failed, None)];
      }
      if index < STEPS - 1 {
        index := index + 1;
      } else {
        CloseModal();
      }
    }

    method GoPrev()
      requires open
      modifies this
      ensures Now() == After(old(Now()), Prev)
      ensures index == if old(index) == 0 then 0 else old(index) - 1
      ensures open && slots == old(slots) && extras == old(extras)
    {
      if index == 0 { return; }
      index := index - 1;
    }

    method ResetAll()
      requires open
      modifies this
      ensures Now() == After(old(Now()), Reset)
      ensures open && index == 0 && |slots| == 6 && extras == old(extras)
      ensures forall i :: 0 <= i < 6 ==> slots[i] == Slot(Pending, None)
    {
      ResetState();
    }

    method HandleEvent(key: string, up: bool)
      requires Valid(Now())
      modifies this
      ensures Now() == After(old(Now()), Event(key, up))
      ensures open == old(open) && index == old(index) && extras == old(extras)
      ensures slots == if open && !up then old(slots)[index := Slot(Captured, Some(key))] else old(slots)
    {
      if !open || up { return; }
      slots := slots[index := Slot(Captured, Some(key))];
    }
  }

  /** One handler call; keys reach the wizard only while it is open. */
  function After(s: State, a: Action): State {
    match a
    case OpenModal => Fresh(s.extras)
    case CloseModal => s.(open := false)
    case Next =>
      if !s.open || !(0 <= s.index < |s.slots|) then s
      else
        var st := s.slots[s.index];
        var slot := if st.status.Captured? then st.(status := Mapped)
                    else if st.status.Mapped? then st else Slot(Failed, None);
        var t := s.(slots := s.slots[s.index := slot],
                    extras := if st.status.Captured? && s.index >= CORE && st.key.Some?
                              then s.extras[s.index := st.key.value] else s.extras);
        if s.index < STEPS - 1 then t.(index := s.index + 1) else t.(open := false)
    case Prev => if s.open && s.index != 0 then s.(index := s.index - 1) else s
    case Reset => if s.open then Fresh(s.extras) else s
    case Event(key, up) =>
      if !s.open || up || !(0 <= s.index < |s.slots|) then s
      else s.(slots := s.slots[s.index := Slot(Captured, Some(key))])
  }

  function AfterAll(s: State, acts: seq<Action>): State {
    if acts == [] then s else After(AfterAll(s, acts[..|acts| - 1]), acts[|acts| - 1])
  }

  lemma ValidStep(s: State, a: Action)
    requires Valid(s)
    ensures Valid(After(s, a))
  {
  }

  /** Along any run that neither resets nor reopens, a slot that was captured or mapped never becomes
      failed or pending again. */
  lemma {:induction false} CapturedStays(s: State, acts: seq<Action>, i: int)
    requires Valid(s) && 0 <= i < STEPS && s.slots[i].key.Some?
    requires Reset !in acts && OpenModal !in acts
    ensures Valid(AfterAll(s, acts)) && AfterAll(s, acts).slots[i].key.Some?
    ensures AfterAll(s, acts).slots[i].status == Captured || AfterAll(s, acts).slots[i].status == Mapped
  {
    if acts != [] {
      var front, a := acts[..|acts| - 1], acts[|acts| - 1];
      assert a in acts && forall x :: x in front ==> x in acts;
      CapturedStays(s, front, i);
      ValidStep(AfterAll(s, front), a);
    }
  }

  /** The last step, that of a wizard that was open and is no longer, was the button for the next slot. */
  ghost predicate Completes(s: State, a: Action) {
    a == Next && s.open && !After(s, a).open
  }

  lemma CompletionDecidesAll(s: State, a: Action)
    requires Valid(s) && Completes(s, a)
    ensures forall i :: 0 <= i < 6 ==> After(s, a).slots[i].status == Mapped || After(s, a).slots[i].status == Failed
  {
  }

  /** The wizard keeps its invariant over every run, and when it completes, all six slots are decided. */
  lemma {:induction false} WizardRuns(extras: map<int, string>, acts: seq<Action>)
    ensures var t := AfterAll(Fresh(extras), acts);
      && Valid(t) && 0 <= t.index < 6 == |t.slots|
      && (forall i :: 0 <= i < t.index ==> t.slots[i].status == Mapped || t.slots[i].status == Failed)
      && (forall i :: 0 <= i < 6 ==>
            (t.slots[i].key.Some? <==> t.slots[i].status == Captured || t.slots[i].status == Mapped))
      && forall a, i :: Completes(t, a) && 0 <= i < STEPS ==> Decided(After(t, a).slots[i])
  {
    if acts != [] {
      WizardRuns(extras, acts[..|acts| - 1]);
      ValidStep(AfterAll(Fresh(extras), acts[..|acts| - 1]), acts[|acts| - 1]);
    }
    var t := AfterAll(Fresh(extras), acts);
    forall a | Completes(t, a) ensures forall i :: 0 <= i < STEPS ==> Decided(After(t, a).slots[i]) {
      CompletionDecidesAll(t, a);
    }
  }
}
