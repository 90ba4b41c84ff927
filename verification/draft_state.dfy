/**
 Form state that is written to storage some time after it changes: a debounced writer driven
 by renders, timers and an explicit clear, for one storage key.
 */
module DraftState {
  import opened Wrappers

  /**
   value: the state as set; shown: the state the last effect run saw. pending: the timers the
   event loop holds, with the snapshot each would write; timer: the one the hook remembers.
   undo: the last effect run left a cleanup. stored: what storage has under the key.
   */
  datatype Model<V> = Model(value: V, shown: V, pending: map<nat, V>, timer: Option<nat>, undo: bool,
                            skip: bool, stored: Option<V>, next: nat)

  /** ok false: storage refused, which the hook ignores. */
  datatype Event<V> = SetValue(v: V) | Commit | Fire(id: nat, ok: bool) | ClearDraft(ok: bool)

  /** `clearTimeout` of the remembered timer. */
  function Cancel<V>(m: Model<V>): Model<V> {
    if m.timer.None? then m else m.(pending := m.pending - {m.timer.value}, timer := None)
  }

  /** One run of the write effect. */
  function Effect<V>(m: Model<V>): Model<V> {
    if m.skip then m.(skip := false, undo := false)
    else
      var n := Cancel(m);
      n.(pending := n.pending[n.next := n.value], timer := Some(n.next), undo := true, next := n.next + 1)
  }

  function Step<V(==)>(m: Model<V>, initial: V, e: Event<V>): Model<V> {
    match e
    case SetValue(v) => m.(value := v)
    case Commit =>
      if m.value == m.shown then m
      else Effect((if m.undo then Cancel(m) else m).(shown := m.value))
    case Fire(id, ok) =>
      if id !in m.pending then m
      else m.(stored := if ok then Some(m.pending[id]) else m.stored, pending := m.pending - {id}, timer := None)
    case ClearDraft(ok) =>
      Cancel(m).(stored := if ok then None else m.stored, skip := true, value := initial)
  }

  /** The first render takes the stored draft, if there is one, and runs the effect once. */
  function Mount<V>(stored: Option<V>, initial: V): Model<V> {
    var value := stored.GetOr(initial);
    Effect(Model(value, value, map[], None, false, false, stored, 0))
  }

  function After<V(==)>(m: Model<V>, initial: V, events: seq<Event<V>>): Model<V> {
    if events == [] then m else Step(After(m, initial, events[..|events| - 1]), initial, events[|events| - 1])
  }

  class Draft<V(==)> {
    const initial: V
    var value: V
    var shown: V
    var pending: map<nat, V>
    var timer: Option<nat>
    var undo: bool
    var skip: bool
    var stored: Option<V>
    var next: nat

    ghost function View(): Model<V>
      reads this
    {
      Model(value, shown, pending, timer, undo, skip, stored, next)
    }

    constructor (stored: Option<V>, initial: V)
      ensures this.initial == initial && View() == Mount(stored, initial)
    {
      this.initial := initial;
      this.stored := stored;
      value := stored.GetOr(initial);
      shown := stored.GetOr(initial);
      pending := map[0 := stored.GetOr(initial)];
      timer := Some(0);
      undo, skip, next := true, false, 1;
    }

    method SetValue(v: V)
      modifies this
      ensures View() == Step(old(View()), initial, Event.SetValue(v))
    {
      value := v;
    }

    method ClearTimer()
      modifies this`pending, this`timer
      ensures View() == Cancel(old(View()))
    {
      if timer.Some? {
        pending := pending - {timer.value};
        timer := None;
      }
    }

    method WriteEffect()
      modifies this
      ensures View() == Effect(old(View()))
    {
      if skip {
        skip := false;
        undo := false;
        return;
      }
      ClearTimer();
      pending := pending[next := value];
      timer := Some(next);
      next := next + 1;
      undo := true;
    }

    /** Render and effects, with the cleanup of the run before. */
    method Commit()
      modifies this
      ensures View() == Step(old(View()), initial, Event.Commit)
    {
      if value == shown {
        return;
      }
      if undo {
        ClearTimer();
      }
      shown := value;
      WriteEffect();
    }

    method Fire(id: nat, ok: bool)
      modifies this
      ensures View() == Step(old(View()), initial, Event.Fire(id, ok))
    {
      if id in pending {
        if ok {
          stored := Some(pending[id]);
        }
        pending := pending - {id};
        timer := None;
      }
    }

    method ClearDraft(ok: bool)
      modifies this
      ensures View() == Step(old(View()), initial, Event.ClearDraft(ok))
    {
      if ok {
        stored := None;
      }
      ClearTimer();
      skip := true;
      value := initial;
    }
  }

  // ---------------------------------------------------------------- every run

  /** The hook remembers every timer there is, so there is at most one, and it would write what is shown. */
  ghost predicate Inv<V>(m: Model<V>) {
    && m.pending.Keys == (if m.timer.Some? then {m.timer.value} else {})
    && (m.timer.Some? ==> m.pending[m.timer.value] == m.shown && m.undo && !m.skip)
    && (forall id :: id in m.pending ==> id < m.next)
  }

  lemma {:induction false} StepKeepsInv<V>(m: Model<V>, initial: V, e: Event<V>)
    requires Inv(m)
    ensures Inv(Step(m, initial, e))
  {
    if e.Commit? && m.value != m.shown {
      assert Cancel(m).pending == map[];
    }
  }

  /** In every run at most one timer is pending, and it holds the value last shown. */
  lemma {:induction false} OneTimerWithTheShownValue<V>(stored: Option<V>, initial: V, events: seq<Event<V>>)
    ensures var m := After(Mount(stored, initial), initial, events);
            |m.pending| <= 1 && forall id :: id in m.pending ==> m.pending[id] == m.shown
    ensures Inv(After(Mount(stored, initial), initial, events))
  {
    if events == [] {
    } else {
      OneTimerWithTheShownValue(stored, initial, events[..|events| - 1]);
      StepKeepsInv(After(Mount(stored, initial), initial, events[..|events| - 1]), initial, events[|events| - 1]);
    }
    var m := After(Mount(stored, initial), initial, events);
    assert |m.pending| == |m.pending.Keys|;
  }

  /** Nothing is waiting to be written, and the next effect run, if any, is the skipped one. */
  predicate Cleared<V(==)>(m: Model<V>, initial: V) {
    m.stored == None && m.pending == map[] && m.value == initial && (m.skip || m.shown == initial)
  }

  /** After a clear the key stays absent until a value other than the initial one is set. */
  lemma {:induction false} AbsentUntilEdit<V>(m: Model<V>, initial: V, events: seq<Event<V>>)
    requires Inv(m)
    requires forall i :: 0 <= i < |events| ==> (events[i].SetValue? ==> events[i].v == initial)
    ensures Cleared(After(Step(m, initial, ClearDraft(true)), initial, events), initial)
  {
    if events == [] {
      assert Cancel(m).pending == map[];
    } else {
      AbsentUntilEdit(m, initial, events[..|events| - 1]);
    }
  }

  /** Set, commit and let the timer run. */
  function Edit<V(==)>(m: Model<V>, initial: V, v: V): Model<V> {
    var shown := Step(Step(m, initial, SetValue(v)), initial, Commit);
    if shown.timer.Some? then Step(shown, initial, Fire(shown.timer.value, true)) else shown
  }

  /** Where the hook is after mounting over what was stored and then these events. */
  function Reached<V(==)>(stored: Option<V>, initial: V, events: seq<Event<V>>): Model<V> {
    After(Mount(stored, initial), initial, events)
  }

  /**
   Whatever happened before: an edit whose timer is left to run is in storage exactly if it
   changed what was shown and its effect was not the skipped one, or it set what was shown and
   was still waiting to be written, or it was in storage already.
   */
  lemma {:induction false} EditIsStoredIff<V>(stored: Option<V>, initial: V, events: seq<Event<V>>, v: V)
    ensures var m := Reached(stored, initial, events);
            Edit(m, initial, v).stored == Some(v)
            <==> (v != m.shown && !m.skip) || (v == m.shown && m.timer.Some?) || m.stored == Some(v)
  {
    OneTimerWithTheShownValue(stored, initial, events);
    var m := Reached(stored, initial, events);
    assert Cancel(m).pending == map[];
  }

  predicate RunsEffect<V(==)>(m: Model<V>, e: Event<V>) {
    e.Commit? && m.value != m.shown
  }

  /** The t-th event makes the write effect run. */
  predicate EffectAt<V(==)>(m: Model<V>, initial: V, events: seq<Event<V>>, t: nat)
    requires t < |events|
  {
    RunsEffect(After(m, initial, events[..t]), events[t])
  }

  /** A clear at c, with no effect run after it. */
  ghost predicate WaitsFrom<V>(m: Model<V>, initial: V, events: seq<Event<V>>, c: nat) {
    c < |events| && events[c].ClearDraft? && forall t :: c < t < |events| ==> !EffectAt(m, initial, events, t)
  }

  lemma {:induction false} SameEffect<V>(m: Model<V>, initial: V, events: seq<Event<V>>, t: nat)
    requires t < |events| - 1
    ensures EffectAt(m, initial, events[..|events| - 1], t) == EffectAt(m, initial, events, t)
  {
    assert events[..|events| - 1][..t] == events[..t];
  }

  lemma {:induction false} WaitsOneMore<V>(m: Model<V>, initial: V, events: seq<Event<V>>, c: nat)
    requires c < |events| - 1
    ensures WaitsFrom(m, initial, events, c) <==>
              WaitsFrom(m, initial, events[..|events| - 1], c) && !EffectAt(m, initial, events, |events| - 1)
  {
    var before := events[..|events| - 1];
    forall t | c < t < |before| ensures EffectAt(m, initial, before, t) == EffectAt(m, initial, events, t) {
      SameEffect(m, initial, events, t);
    }
  }

  /** The skip flag is up exactly if some clear has had no effect run since. */
  lemma {:induction false} SkipIffClearWaits<V>(stored: Option<V>, initial: V, events: seq<Event<V>>)
    ensures Reached(stored, initial, events).skip <==> exists c :: WaitsFrom(Mount(stored, initial), initial, events, c)
  {
    if events == [] {
    } else {
      var m, n := Mount(stored, initial), |events| - 1;
      SkipIffClearWaits(stored, initial, events[..n]);
      forall c | 0 <= c < n
        ensures WaitsFrom(m, initial, events, c) <==> WaitsFrom(m, initial, events[..n], c) && !EffectAt(m, initial, events, n)
      {
        WaitsOneMore(m, initial, events, c);
      }
      assert WaitsFrom(m, initial, events, n) <==> events[n].ClearDraft?;
      assert EffectAt(m, initial, events, n) == RunsEffect(Reached(stored, initial, events[..n]), events[n]);
    }
  }

  /** After a clear, without an edit: skipped until the first commit that changes what is shown. */
  lemma {:induction false} ClearedSkips<V>(m: Model<V>, initial: V, events: seq<Event<V>>)
    requires Inv(m)
    requires forall i :: 0 <= i < |events| ==> events[i].Commit? || events[i].Fire?
    ensures var after := After(Step(m, initial, ClearDraft(true)), initial, events);
            && after.stored == None && after.timer == None
            && (after.skip <==> m.shown == initial || !(exists i :: 0 <= i < |events| && events[i].Commit?))
            && after.shown == (if after.skip then m.shown else initial)
  {
    if events == [] {
      assert Cancel(m).pending == map[];
    } else {
      var n := |events| - 1;
      ClearedSkips(m, initial, events[..n]);
      AbsentUntilEdit(m, initial, events[..n]);
      if events[n].Commit? {
        assert exists i :: 0 <= i < |events| && events[i].Commit?;
      } else {
        assert (exists i :: 0 <= i < |events| && events[i].Commit?)
          <==> (exists i :: 0 <= i < n && events[..n][i].Commit?);
      }
    }
  }

  /**
   The first edit after a clear reaches storage exactly if the form was showing something else
   than the initial value at the clear and was rendered between the clear and the edit; otherwise
   the edit is taken for the clear's own.
   */
  lemma {:induction false} EditAfterClearIsStoredIff<V>(m: Model<V>, initial: V, events: seq<Event<V>>, v: V)
    requires Inv(m) && v != initial
    requires forall i :: 0 <= i < |events| ==> events[i].Commit? || events[i].Fire?
    ensures Edit(After(Step(m, initial, ClearDraft(true)), initial, events), initial, v).stored == Some(v)
       <==> m.shown != initial && exists i :: 0 <= i < |events| && events[i].Commit?
  {
    ClearedSkips(m, initial, events);
    AbsentUntilEdit(m, initial, events);
    var after := After(Step(m, initial, ClearDraft(true)), initial, events);
    assert after.pending == map[];
  }

  /** Once an effect has run, every edit that changes what is shown is stored, until the next clear. */
  lemma {:induction false} EveryEditIsStored<V>(m: Model<V>, initial: V, events: seq<Event<V>>, v: V)
    requires Inv(m) && !m.skip
    requires forall i :: 0 <= i < |events| ==> !events[i].ClearDraft?
    ensures var after := After(m, initial, events);
            !after.skip && (v != after.shown ==> Edit(after, initial, v).stored == Some(v))
  {
    if events == [] {
    } else {
      EveryEditIsStored(m, initial, events[..|events| - 1], v);
      var before := After(m, initial, events[..|events| - 1]);
      assert !Step(before, initial, events[|events| - 1]).skip;
    }
    AfterKeepsInv(m, initial, events);
  }

  lemma {:induction false} AfterKeepsInv<V>(m: Model<V>, initial: V, events: seq<Event<V>>)
    requires Inv(m)
    ensures Inv(After(m, initial, events))
  {
    if events == [] {
    } else {
      AfterKeepsInv(m, initial, events[..|events| - 1]);
      StepKeepsInv(After(m, initial, events[..|events| - 1]), initial, events[|events| - 1]);
    }
  }

  /** An edit that was lost to a clear ends the skipping: every edit after it is stored. */
  lemma {:induction false} LaterEditsAreStored<V>(m: Model<V>, initial: V, v: V, events: seq<Event<V>>, w: V)
    requires Inv(m) && v != m.shown
    requires forall i :: 0 <= i < |events| ==> !events[i].ClearDraft?
    ensures var after := After(Edit(m, initial, v), initial, events);
            w != after.shown ==> Edit(after, initial, w).stored == Some(w)
  {
    var changed := Step(m, initial, SetValue(v));
    StepKeepsInv(m, initial, SetValue(v));
    StepKeepsInv(changed, initial, Commit);
    var shown := Step(changed, initial, Commit);
    if shown.timer.Some? {
      StepKeepsInv(shown, initial, Fire(shown.timer.value, true));
    }
    EveryEditIsStored(Edit(m, initial, v), initial, events, w);
  }
}
