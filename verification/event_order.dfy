/**
 What the consumer of one queue gets to see of the event log, over whole runs of the bus.
 */
module EventOrder {
  import opened EventBus
  import opened EventProtocol
  import EventQueue
  import opened EventReplay
  import opened Sorting
  import opened Wrappers

  // ---------------------------------------------------------------- lists in log order

  ghost predicate Precedes<T(!new)>(log: seq<T>, a: T, b: T) {
    exists i, k :: 0 <= i < k < |log| && log[i] == a && log[k] == b
  }

  ghost predicate InLogOrder<T(!new)>(log: seq<T>, s: seq<T>) {
    forall i, k :: 0 <= i < k < |s| ==> Precedes(log, s[i], s[k])
  }

  function Among<T(==)>(s: seq<T>): T -> bool {
    x => x in s
  }

  lemma {:induction false} LongerLogKeepsOrder<T(!new)>(log: seq<T>, x: T, s: seq<T>)
    requires InLogOrder(log, s)
    ensures InLogOrder(log + [x], s)
  {
    forall i, k | 0 <= i < k < |s| ensures Precedes(log + [x], s[i], s[k]) {
      assert Precedes(log, s[i], s[k]);
      var a, b :| 0 <= a < b < |log| && log[a] == s[i] && log[b] == s[k];
      assert (log + [x])[a] == s[i] && (log + [x])[b] == s[k];
    }
  }

  lemma {:induction false} NewestFollows<T(!new)>(log: seq<T>, x: T, s: seq<T>)
    requires InLogOrder(log, s) && NoRepeats(s) && x !in log && forall y :: y in s ==> y in log
    ensures InLogOrder(log + [x], s + [x]) && NoRepeats(s + [x])
  {
    LongerLogKeepsOrder(log, x, s);
    forall i | 0 <= i < |s| ensures Precedes(log + [x], s[i], x) && s[i] != x {
      assert s[i] in log;
      var a :| 0 <= a < |log| && log[a] == s[i];
      assert (log + [x])[a] == s[i] && (log + [x])[|log|] == x;
    }
  }

  lemma {:induction false} FilterIsInOrder<T(!new)>(log: seq<T>, p: T -> bool)
    requires NoRepeats(log)
    ensures InLogOrder(log, Filter(log, p)) && NoRepeats(Filter(log, p))
  {
    if log == [] {
    } else {
      var init, last := log[..|log| - 1], log[|log| - 1];
      assert log == init + [last];
      FilterIsInOrder(init, p);
      FilterMembers(init, p);
      if p(last) {
        assert last !in init;
        NewestFollows(init, last, Filter(init, p));
      } else {
        LongerLogKeepsOrder(init, last, Filter(init, p));
        assert Filter(init, p) + [] == Filter(init, p);
      }
    }
  }

  lemma {:induction false} PartOfNothing<T(!new)>(s: seq<T>, t: seq<T>)
    requires forall x :: x in s ==> x in t
    ensures t == [] ==> s == []
  {
    if s != [] {
      assert s[0] in t;
    }
  }

  lemma {:induction false} NewestIsLast<T(!new)>(log: seq<T>, s: seq<T>)
    requires log != [] && NoRepeats(log) && InLogOrder(log, s) && log[|log| - 1] in s
    ensures s[|s| - 1] == log[|log| - 1] && log[|log| - 1] !in s[..|s| - 1]
  {
    var n := |log| - 1;
    forall i | 0 <= i < |s| - 1 ensures s[i] != log[n] {
      assert Precedes(log, s[i], s[|s| - 1]);
    }
    var i :| 0 <= i < |s| && s[i] == log[n];
    assert i == |s| - 1;
  }

  lemma {:induction false} WithNewest<T(!new)>(init: seq<T>, last: T, s: seq<T>)
    requires NoRepeats(init + [last]) && InLogOrder(init + [last], s) && last in s && forall x :: x in s ==> x in init + [last]
    ensures var rest := s[..|s| - 1];
            InLogOrder(init, rest) && (forall x :: x in rest ==> x in init) && s == rest + [last]
  {
    var log := init + [last];
    assert log[..|log| - 1] == init;
    NewestIsLast(log, s);
    var rest := s[..|s| - 1];
    forall x | x in rest ensures x in init {
      assert x in s && x != last;
    }
  }

  lemma {:induction false} AmongNewest<T(!new)>(init: seq<T>, last: T, s: seq<T>, rest: seq<T>)
    requires last !in init && rest == Filter(init, Among(rest)) && s == rest + (if last in s then [last] else [])
    ensures s == Filter(init + [last], Among(s))
  {
    FilterCongruent(init, Among(rest), Among(s));
  }

  /** A part of the log in log order is the log without the rest. */
  lemma {:induction false} InOrderIsFilter<T(!new)>(log: seq<T>, s: seq<T>)
    requires NoRepeats(log) && InLogOrder(log, s) && forall x :: x in s ==> x in log
    ensures s == Filter(log, Among(s))
  {
    if log == [] {
      PartOfNothing(s, log);
    } else {
      var init, last := log[..|log| - 1], log[|log| - 1];
      assert log == init + [last] && last !in init;
      if last in s {
        WithNewest(init, last, s);
        InOrderIsFilter(init, s[..|s| - 1]);
        AmongNewest(init, last, s, s[..|s| - 1]);
      } else {
        InOrderIsFilter(init, s);
        assert s + [] == s;
        AmongNewest(init, last, s, s);
      }
    }
  }

  // ---------------------------------------------------------------- one queue over a run

  /** The step puts its event into that queue. */
  predicate Gives(s: Sys, step: Step, m: Sharing, id: nat) {
    id in s.streams && s.streams[id].live && Reaches(step, m, s.streams[id].user)
  }

  /** A queue made at step j, still there at k. */
  ghost predicate Open(states: seq<Sys>, steps: seq<Step>, m: Sharing, id: nat, j: nat, k: nat) {
    && Run(states, steps, m) && j < k < |states| && steps[j] == Subscribe(id)
    && forall i :: j < i < k ==> steps[i] != Unsubscribe(id)
  }

  /** What the steps after j and before k do to the queue: deliveries to it and consumptions from it. */
  function Ops(states: seq<Sys>, steps: seq<Step>, m: Sharing, id: nat, j: nat, k: nat): seq<EventQueue.Op<Event>>
    requires j < k <= |steps| < |states|
    decreases k
  {
    if k == j + 1 then []
    else
      Ops(states, steps, m, id, j, k - 1) + StepOps(states[k - 1], steps[k - 1], m, id)
  }

  lemma {:induction false} OpenStays(states: seq<Sys>, steps: seq<Step>, m: Sharing, id: nat, j: nat, k: nat)
    requires Open(states, steps, m, id, j, k)
    ensures id in states[k].streams && states[k].streams[id].live
    ensures StreamInv(states[k], m, states[k].streams[id])
    ensures states[k].streams[id].already == AlreadyHanded(states[j], m, states[k].streams[id].user)
  {
    assert Next(states[j], steps[j], states[j + 1], m);
    StreamStays(states, steps, m, j + 1, k, id);
    RunKeepsInv(states, steps, m, k);
  }

  /** What one step does to an open queue. */
  lemma {:induction false} QueueStep(states: seq<Sys>, steps: seq<Step>, m: Sharing, id: nat, j: nat, k: nat)
    requires Open(states, steps, m, id, j, k + 1) && j < k
    ensures Applies(states[k], steps[k], states[k + 1], m, id)
  {
    OpenStays(states, steps, m, id, j, k);
    assert Next(states[k], steps[k], states[k + 1], m);
  }

  function StepOps(s: Sys, step: Step, m: Sharing, id: nat): seq<EventQueue.Op<Event>> {
    if Gives(s, step, m, id) then [EventQueue.Delivery(step.e)]
    else if step == Consume(id) then [EventQueue.Consumption]
    else []
  }

  /** The step did to the queue what StepOps says. */
  predicate Applies(s: Sys, step: Step, s': Sys, m: Sharing, id: nat) {
    && id in s.streams && id in s'.streams
    && s'.streams[id] == if Gives(s, step, m, id) then Push(s.streams[id], step.e)
                         else if step == Consume(id) then Taken(s.streams[id]) else s.streams[id]
  }

  lemma {:induction false} StepApplied(s: Sys, step: Step, s': Sys, m: Sharing, id: nat, ops: seq<EventQueue.Op<Event>>)
    requires Applies(s, step, s', m, id) && s.streams[id].queue == EventQueue.After(ops)
    ensures s'.streams[id].queue == EventQueue.After(ops + StepOps(s, step, m, id))
  {
    assert ops + [] == ops;
  }

  /** The queue's history is that of these operations. */
  ghost predicate HistoryOf(s: Sys, id: nat, ops: seq<EventQueue.Op<Event>>) {
    id in s.streams && s.streams[id].queue == EventQueue.After(ops)
  }

  lemma {:induction false} OneMoreStep(states: seq<Sys>, steps: seq<Step>, m: Sharing, id: nat, j: nat, k: nat)
    requires j < k < |steps| < |states| && HistoryOf(states[k], id, Ops(states, steps, m, id, j, k))
    requires Applies(states[k], steps[k], states[k + 1], m, id)
    ensures HistoryOf(states[k + 1], id, Ops(states, steps, m, id, j, k + 1))
  {
    StepApplied(states[k], steps[k], states[k + 1], m, id, Ops(states, steps, m, id, j, k));
  }

  lemma {:induction false} AppliedInTurn(states: seq<Sys>, steps: seq<Step>, m: Sharing, id: nat, j: nat, k: nat)
    requires j < k <= |steps| < |states| && HistoryOf(states[j + 1], id, [])
    requires forall i :: j < i < k ==> Applies(states[i], steps[i], states[i + 1], m, id)
    ensures HistoryOf(states[k], id, Ops(states, steps, m, id, j, k))
    decreases k
  {
    if k == j + 1 {
    } else {
      AppliedInTurn(states, steps, m, id, j, k - 1);
      OneMoreStep(states, steps, m, id, j, k - 1);
    }
  }

  /** The history of the queue is what these operations make of an empty one. */
  lemma {:induction false} QueueIsAfterOps(states: seq<Sys>, steps: seq<Step>, m: Sharing, id: nat, j: nat, k: nat)
    requires Open(states, steps, m, id, j, k)
    ensures id in states[k].streams && states[k].streams[id].queue == EventQueue.After(Ops(states, steps, m, id, j, k))
  {
    forall i | j < i < k ensures Applies(states[i], steps[i], states[i + 1], m, id) {
      QueueStep(states, steps, m, id, j, i);
    }
    AppliedInTurn(states, steps, m, id, j, k);
  }

  // ---------------------------------------------------------------- the queue and the log

  function HandedSince(s: Sys, m: Sharing, q: Stream): Event -> bool {
    e => Handed(s, m, e, q.user) && e !in q.already
  }

  lemma {:induction false} SameLength<T(!new)>(s: seq<T>, t: seq<T>)
    requires NoRepeats(s) && NoRepeats(t) && forall x :: x in s <==> x in t
    ensures |s| == |t|
  {
    forall x ensures multiset(s)[x] == multiset(t)[x] {
      CountNoRepeats(s, x);
      CountNoRepeats(t, x);
    }
    assert multiset(s) == multiset(t);
    assert |s| == |multiset(s)| && |t| == |multiset(t)|;
  }

  /** A queue whose deliveries are a part of the log: nothing missing and nothing out of order, or not. */
  lemma {:induction false} KeptIsPartIff<T(!new)>(h: EventQueue.History<T>, log: seq<T>, p: T -> bool)
    requires EventQueue.Refines(h) && NoRepeats(log) && NoRepeats(h.delivered)
    requires forall x :: x in h.delivered <==> x in log && p(x)
    ensures h.seen + h.items == Filter(log, p) <==> h.dropped == 0 && InLogOrder(log, h.delivered)
  {
    FilterIsInOrder(log, p);
    FilterMembers(log, p);
    SameLength(h.delivered, Filter(log, p));
    assert h.dropped == 0 ==> h.seen + h.items == h.delivered;
    if h.dropped == 0 && InLogOrder(log, h.delivered) {
      InOrderIsFilter(log, h.delivered);
      FilterCongruent(log, Among(h.delivered), p);
    }
    if h.seen + h.items == Filter(log, p) {
      assert |h.seen + h.items| == |h.delivered|;
      assert h.dropped == 0;
    }
  }

  lemma {:induction false} UniqueEvents(log: seq<Event>)
    requires UniqueIds(log)
    ensures NoRepeats(log)
  {
  }

  /**
   Over every run: what the consumer saw and what is queued are exactly the events its user was
   handed since the subscription, in log order, if and only if no delivery found the queue full
   and the fan-outs to the user came in the order the events were inserted.
   */
  lemma {:induction false} QueueShowsLogIff(states: seq<Sys>, steps: seq<Step>, m: Sharing, id: nat, j: nat, k: nat)
    requires Open(states, steps, m, id, j, k)
    ensures id in states[k].streams
    ensures var q := states[k].streams[id];
            q.queue.seen + q.queue.items == Filter(states[k].log, HandedSince(states[k], m, q))
            <==> var ops := Ops(states, steps, m, id, j, k);
                 EventQueue.NeverLags(ops) && InLogOrder(states[k].log, EventQueue.Deliveries(ops))
  {
    OpenStays(states, steps, m, id, j, k);
    RunKeepsInv(states, steps, m, k);
    UniqueEvents(states[k].log);
    var q := states[k].streams[id];
    KeptIsPartIff(q.queue, states[k].log, HandedSince(states[k], m, q));
    QueueIsAfterOps(states, steps, m, id, j, k);
    EventQueue.DropsCountLags(Ops(states, steps, m, id, j, k));
    EventQueue.DeliveredInTurn(Ops(states, steps, m, id, j, k));
  }

  ghost predicate Quiet(s: Sys) {
    forall e :: e in s.stage ==> s.stage[e].Done?
  }

  /** With every publish over, handed since the subscription is visible and inserted since. */
  lemma {:induction false} HandedIsVisible(states: seq<Sys>, steps: seq<Step>, m: Sharing, id: nat, j: nat, k: nat)
    requires Open(states, steps, m, id, j, k) && Quiet(states[j]) && Quiet(states[k])
    ensures id in states[k].streams && |states[j].log| <= |states[k].log|
    ensures var q := states[k].streams[id];
            Filter(states[k].log, HandedSince(states[k], m, q))
            == Visible(states[k].log[|states[j].log|..], q.user, AccessibleProjects(m, q.user))
  {
    OpenStays(states, steps, m, id, j, k);
    HandedStays(states, steps, m, j, k);
    RunKeepsInv(states, steps, m, j);
    RunKeepsInv(states, steps, m, k);
    var q, log, base := states[k].streams[id], states[k].log, |states[j].log|;
    var since, visible := HandedSince(states[k], m, q), (e: Event) => Matches(q.user, AccessibleProjects(m, q.user), e);
    forall i | 0 <= i < |log| ensures since(log[i]) == (i >= base && visible(log[i])) {
      AudienceIsReplayFilter(m, log[i], q.user);
    }
    FilterTail(log, base, since, visible);
  }

  lemma {:induction false} FilterTail<T>(s: seq<T>, n: nat, p: T -> bool, q: T -> bool)
    requires n <= |s| && forall i :: 0 <= i < |s| ==> p(s[i]) == (i >= n && q(s[i]))
    ensures Filter(s, p) == Filter(s[n..], q)
  {
    assert s == s[..n] + s[n..];
    FilterConcat(s[..n], s[n..], p);
    FilterNone(s[..n], p);
    FilterCongruent(s[n..], p, q);
  }

  /**
   A consumer sees the whole visible log from its subscription on, in order, exactly if it never
   lagged by 256 events and events were fanned out to its user as they were inserted.
   */
  lemma {:induction false} WholeVisibleLogIff(states: seq<Sys>, steps: seq<Step>, m: Sharing, id: nat, j: nat, k: nat)
    requires Open(states, steps, m, id, j, k) && Quiet(states[j]) && Quiet(states[k])
    ensures id in states[k].streams && |states[j].log| <= |states[k].log|
    ensures var q := states[k].streams[id];
            q.queue.seen + q.queue.items
            == Visible(states[k].log[|states[j].log|..], q.user, AccessibleProjects(m, q.user))
            <==> var ops := Ops(states, steps, m, id, j, k);
                 EventQueue.NeverLags(ops) && InLogOrder(states[k].log, EventQueue.Deliveries(ops))
  {
    HandedIsVisible(states, steps, m, id, j, k);
    QueueShowsLogIff(states, steps, m, id, j, k);
  }

  /**
   At every moment of every run each queue is the gap-free end of what was delivered to it, at
   most 256 events long; its consumer saw earlier ones, in turn, and the rest was dropped.
   */
  lemma {:induction false} EveryQueueRefines(states: seq<Sys>, steps: seq<Step>, m: Sharing, k: nat, id: nat)
    requires Run(states, steps, m) && k < |states| && id in states[k].streams
    ensures EventQueue.Refines(states[k].streams[id].queue)
  {
    RunKeepsInv(states, steps, m, k);
    assert StreamInv(states[k], m, states[k].streams[id]);
  }

  // ---------------------------------------------------------------- fan-outs that overtake

  /** Two publishes by one user whose fan-outs overtake each other: the queue has them the other way round. */
  lemma {:induction false} FanOutsOvertake(m: Sharing, a: Event, b: Event)
    returns (states: seq<Sys>, steps: seq<Step>)
    requires a.id != b.id && a.userId == b.userId
    ensures Open(states, steps, m, 0, 1, 6) && states[6].log == [a, b] && 0 in states[6].streams
    ensures states[6].streams[0].user == a.userId && states[6].streams[0].queue.delivered == [b, a]
  {
    var q := Stream(a.userId, [], 0, false, EventQueue.Fresh(), {});
    var q' := q.(live := true);
    var s0, s1, s2 := Init(), Init().(streams := map[0 := q]), Init().(streams := map[0 := q']);
    var s3 := Sys([a], map[a := Inserted], map[0 := q']);
    var s4 := Sys([a, b], map[a := Inserted, b := Inserted], map[0 := q']);
    var s5 := Sys([a, b], map[a := Inserted, b := OwnerReached], map[0 := Push(q', b)]);
    var s6 := Sys([a, b], map[a := OwnerReached, b := OwnerReached], map[0 := Push(Push(q', b), a)]);
    states := [s0, s1, s2, s3, s4, s5, s6];
    steps := [Replay(0, a.userId, None, []), Subscribe(0), Insert(a), Insert(b), FanToOwner(b), FanToOwner(a)];
    Opening(m, a.userId);
    assert s3.log == s2.log + [a] && Next(s2, steps[2], s3, m);
    assert s4.log == s3.log + [b] && Next(s3, steps[3], s4, m);
    OwnFanOut(m, s4, b, q', s5);
    OwnFanOut(m, s5, a, Push(q', b), s6);
  }

  lemma {:induction false} Opening(m: Sharing, user: string)
    ensures var q := Stream(user, [], 0, false, EventQueue.Fresh(), {});
            var s1 := Init().(streams := map[0 := q]);
            && Next(Init(), Replay(0, user, None, []), s1, m)
            && Next(s1, Subscribe(0), Init().(streams := map[0 := q.(live := true)]), m)
  {
    assert AlreadyHanded(Init().(streams := map[0 := Stream(user, [], 0, false, EventQueue.Fresh(), {})]), m, user) == {};
  }

  lemma {:induction false} OwnFanOut(m: Sharing, s: Sys, e: Event, q: Stream, s': Sys)
    requires e in s.stage && s.stage[e].Inserted? && s.streams == map[0 := q] && q.live && q.user == e.userId
    requires s' == Sys(s.log, s.stage[e := OwnerReached], map[0 := Push(q, e)])
    ensures Next(s, FanToOwner(e), s', m)
  {
    assert PushTo(s.streams, e, u => u == e.userId) == s'.streams;
  }
}
