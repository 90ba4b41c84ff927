/**
 Publishing and streaming interleaved. A publish is three steps: the row is inserted, then the
 event goes to the publisher's queues, then, after the member query, to everybody else in the
 audience. A reconnecting stream is two: it replays the log, and later subscribes. Steps of
 different publishes and streams may come in any order.
 */
module EventProtocol {
  import opened EventBus
  import EventQueue
  import opened EventReplay
  import opened Sorting
  import opened Wrappers

  datatype Stage = Inserted | OwnerReached | Done

  /**
   replayed: what the replay sent, from the first readTo rows of the log. queue: the bounded
   queue and its history since it was made; already: what had been handed to this user's
   queues before that.
   */
  datatype Stream = Stream(user: string, replayed: seq<Event>, readTo: nat, live: bool,
                           queue: EventQueue.History<Event>, already: set<Event>)

  datatype Sys = Sys(log: seq<Event>, stage: map<Event, Stage>, streams: map<nat, Stream>)

  datatype Step =
    | Insert(e: Event)
    | FanToOwner(e: Event)
    | FanToMembers(e: Event)
    | Replay(id: nat, user: string, since: Option<string>, rows: seq<Event>)
    | Subscribe(id: nat)
    | Consume(id: nat)
    | Unsubscribe(id: nat)

  function Init(): Sys {
    Sys([], map[], map[])
  }

  /** Whether the event has been handed to the queues this user had at the time. */
  predicate Handed(s: Sys, m: Sharing, e: Event, user: string) {
    e in s.stage && InAudience(m, e, user)
    && (s.stage[e].Done? || (s.stage[e].OwnerReached? && user == e.userId))
  }

  function Push(q: Stream, e: Event): Stream {
    q.(queue := EventQueue.Step(q.queue, EventQueue.Delivery(e)))
  }

  function Taken(q: Stream): Stream {
    q.(queue := EventQueue.Step(q.queue, EventQueue.Consumption))
  }

  /** The event into every open queue of the users `to` picks. */
  function PushTo(streams: map<nat, Stream>, e: Event, to: string -> bool): map<nat, Stream> {
    map id | id in streams :: if streams[id].live && to(streams[id].user) then Push(streams[id], e) else streams[id]
  }

  ghost predicate Next(s: Sys, step: Step, s': Sys, m: Sharing) {
    match step
    case Insert(e) =>
      // event ids are fresh
      && (forall d :: d in s.log ==> d.id != e.id)
      && s' == s.(log := s.log + [e], stage := s.stage[e := Inserted])
    case FanToOwner(e) =>
      && e in s.stage && s.stage[e].Inserted?
      && s' == s.(stage := s.stage[e := OwnerReached], streams := PushTo(s.streams, e, u => u == e.userId))
    case FanToMembers(e) =>
      && e in s.stage && s.stage[e].OwnerReached?
      && s' == s.(stage := s.stage[e := Done],
                  streams := PushTo(s.streams, e, u => InAudience(m, e, u) && u != e.userId))
    case Replay(id, user, since, rows) =>
      && id !in s.streams
      && (if since.Some? then Replays(rows, s.log, user, since.value, AccessibleProjects(m, user)) else rows == [])
      && s' == s.(streams := s.streams[id := Stream(user, rows, |s.log|, false, EventQueue.Fresh(), {})])
    case Subscribe(id) =>
      && id in s.streams && !s.streams[id].live && s.streams[id].queue == EventQueue.Fresh()
      && s' == s.(streams := s.streams[id := s.streams[id].(live := true, already := AlreadyHanded(s, m, s.streams[id].user))])
    case Consume(id) =>
      id in s.streams && s.streams[id].live && s' == s.(streams := s.streams[id := Taken(s.streams[id])])
    case Unsubscribe(id) =>
      && id in s.streams && s.streams[id].live
      && s' == s.(streams := s.streams - {id})
  }

  function AlreadyHanded(s: Sys, m: Sharing, user: string): set<Event> {
    set e | e in s.stage && Handed(s, m, e, user)
  }

  // ---------------------------------------------------------------- what every step keeps

  /**
   An open queue was delivered, once each, what its user was handed since it was made, and holds
   the last of these, at most 256 of them.
   */
  ghost predicate StreamInv(s: Sys, m: Sharing, q: Stream) {
    && q.readTo <= |s.log|
    && EventQueue.Refines(q.queue)
    && NoRepeats(q.queue.delivered)
    && (q.live ==> forall e :: e in q.queue.delivered <==> Handed(s, m, e, q.user) && e !in q.already)
    && (forall e :: e in q.already ==> Handed(s, m, e, q.user))
    && (!q.live ==> q.queue == EventQueue.Fresh() && q.already == {})
  }

  ghost predicate Inv(s: Sys, m: Sharing) {
    && UniqueIds(s.log)
    && (forall e :: e in s.log <==> e in s.stage)
    && (forall id :: id in s.streams ==> StreamInv(s, m, s.streams[id]))
  }

  lemma {:induction false} InitInv(m: Sharing)
    ensures Inv(Init(), m)
  {
  }

  lemma {:induction false} InsertKeepsInv(s: Sys, e: Event, s': Sys, m: Sharing)
    requires Inv(s, m) && Next(s, Insert(e), s', m)
    ensures Inv(s', m)
  {
    assert e !in s.log;
    forall id | id in s'.streams ensures StreamInv(s', m, s'.streams[id]) {
      var q := s.streams[id];
      assert StreamInv(s, m, q);
      forall d ensures Handed(s', m, d, q.user) <==> Handed(s, m, d, q.user) {
      }
    }
  }

  /** Handing e to the open queues of some more of its audience. */
  lemma {:induction false} PushKeepsStream(s: Sys, s': Sys, m: Sharing, q: Stream, e: Event, pushed: bool)
    requires StreamInv(s, m, q) && s'.log == s.log
    requires forall d :: d != e ==> (Handed(s', m, d, q.user) <==> Handed(s, m, d, q.user))
    requires pushed ==> !Handed(s, m, e, q.user) && Handed(s', m, e, q.user) && q.live
    requires !pushed ==> (Handed(s', m, e, q.user) <==> Handed(s, m, e, q.user)) || (!q.live && Handed(s', m, e, q.user))
    ensures StreamInv(s', m, if pushed then Push(q, e) else q)
  {
    if pushed {
      EventQueue.DeliveryRefines(q.queue, e);
      var given := q.queue.delivered;
      assert e !in given && e !in q.already;
      assert forall x :: x in given + [e] <==> x in given || x == e;
    }
  }

  /** The users whose open queues a fan-out step reaches. */
  predicate Reaches(step: Step, m: Sharing, user: string) {
    (step.FanToOwner? && user == step.e.userId)
    || (step.FanToMembers? && InAudience(m, step.e, user) && user != step.e.userId)
  }

  /** Exactly the users a step reaches are newly handed its event. */
  lemma {:induction false} FanHands(s: Sys, step: Step, s': Sys, m: Sharing, user: string)
    requires Next(s, step, s', m) && (step.FanToOwner? || step.FanToMembers?)
    ensures forall d :: d != step.e ==> (Handed(s', m, d, user) <==> Handed(s, m, d, user))
    ensures Reaches(step, m, user) ==> !Handed(s, m, step.e, user) && Handed(s', m, step.e, user)
    ensures !Reaches(step, m, user) ==> (Handed(s', m, step.e, user) <==> Handed(s, m, step.e, user))
  {
  }

  lemma {:induction false} FanKeepsInv(s: Sys, step: Step, s': Sys, m: Sharing)
    requires Inv(s, m) && Next(s, step, s', m) && (step.FanToOwner? || step.FanToMembers?)
    ensures Inv(s', m)
  {
    assert s'.log == s.log && s'.stage.Keys == s.stage.Keys;
    forall id | id in s'.streams ensures StreamInv(s', m, s'.streams[id]) {
      var q := s.streams[id];
      FanHands(s, step, s', m, q.user);
      PushKeepsStream(s, s', m, q, step.e, q.live && Reaches(step, m, q.user));
    }
  }

  lemma {:induction false} SameHandedKeepsStream(s: Sys, s': Sys, m: Sharing, q: Stream)
    requires StreamInv(s, m, q) && s'.log == s.log && s'.stage == s.stage
    ensures StreamInv(s', m, q)
  {
    forall e ensures Handed(s', m, e, q.user) <==> Handed(s, m, e, q.user) {
    }
  }

  lemma {:induction false} ConsumeKeepsStream(s: Sys, m: Sharing, q: Stream)
    requires StreamInv(s, m, q) && q.live
    ensures StreamInv(s, m, Taken(q))
  {
    EventQueue.ConsumptionRefines(q.queue);
    assert Taken(q).queue.delivered == q.queue.delivered;
  }

  lemma {:induction false} SubscribeKeepsStream(s: Sys, m: Sharing, q: Stream)
    requires StreamInv(s, m, q) && !q.live
    ensures StreamInv(s, m, q.(live := true, already := AlreadyHanded(s, m, q.user)))
  {
  }

  lemma {:induction false} StreamStepKeepsStream(s: Sys, step: Step, s': Sys, m: Sharing, id: nat)
    requires (id in s.streams ==> StreamInv(s, m, s.streams[id])) && Next(s, step, s', m) && id in s'.streams
    requires step.Replay? || step.Subscribe? || step.Consume? || step.Unsubscribe?
    ensures StreamInv(s, m, s'.streams[id])
  {
    if step == Consume(id) {
      ConsumeKeepsStream(s, m, s.streams[id]);
    } else if step == Subscribe(id) {
      SubscribeKeepsStream(s, m, s.streams[id]);
    } else if id in s.streams {
      assert s'.streams[id] == s.streams[id];
    }
  }

  lemma {:induction false} StreamStepKeepsInv(s: Sys, step: Step, s': Sys, m: Sharing)
    requires Inv(s, m) && Next(s, step, s', m)
    requires step.Replay? || step.Subscribe? || step.Consume? || step.Unsubscribe?
    ensures Inv(s', m)
  {
    assert s'.log == s.log && s'.stage == s.stage;
    forall id | id in s'.streams ensures StreamInv(s', m, s'.streams[id]) {
      StreamStepKeepsStream(s, step, s', m, id);
      SameHandedKeepsStream(s, s', m, s'.streams[id]);
    }
  }

  lemma {:induction false} NextKeepsInv(s: Sys, step: Step, s': Sys, m: Sharing)
    requires Inv(s, m) && Next(s, step, s', m)
    ensures Inv(s', m)
  {
    match step
    case Insert(e) => InsertKeepsInv(s, e, s', m);
    case FanToOwner(_) => FanKeepsInv(s, step, s', m);
    case FanToMembers(_) => FanKeepsInv(s, step, s', m);
    case Replay(_, _, _, _) => StreamStepKeepsInv(s, step, s', m);
    case Subscribe(_) => StreamStepKeepsInv(s, step, s', m);
    case Consume(_) => StreamStepKeepsInv(s, step, s', m);
    case Unsubscribe(_) => StreamStepKeepsInv(s, step, s', m);
  }

  /** A run: each state and the step that led to it, from the empty bus on. */
  ghost predicate Run(states: seq<Sys>, steps: seq<Step>, m: Sharing) {
    && |states| == |steps| + 1 && states[0] == Init()
    && forall i :: 0 <= i < |steps| ==> Next(states[i], steps[i], states[i + 1], m)
  }

  lemma {:induction false} RunKeepsInv(states: seq<Sys>, steps: seq<Step>, m: Sharing, i: nat)
    requires Run(states, steps, m) && i < |states|
    ensures Inv(states[i], m)
  {
    if i == 0 {
      InitInv(m);
    } else {
      RunKeepsInv(states, steps, m, i - 1);
      NextKeepsInv(states[i - 1], steps[i - 1], states[i], m);
    }
  }

  // ---------------------------------------------------------------- exactly once

  ghost predicate Grows(s: Sys, s': Sys, m: Sharing) {
    s.log <= s'.log && forall e, u :: Handed(s, m, e, u) ==> Handed(s', m, e, u)
  }

  lemma {:induction false} GrowsOn(a: Sys, b: Sys, c: Sys, m: Sharing)
    requires Grows(a, b, m) && Grows(b, c, m)
    ensures Grows(a, c, m)
  {
    assert forall e, u :: Handed(a, m, e, u) ==> Handed(b, m, e, u);
  }

  lemma {:induction false} StepKeepsHanded(s: Sys, step: Step, s': Sys, m: Sharing)
    requires Inv(s, m) && Next(s, step, s', m)
    ensures Grows(s, s', m)
  {
    match step
    case Insert(e) =>
      assert e !in s.log;
    case FanToOwner(_) =>
    case FanToMembers(_) =>
    case Replay(_, _, _, _) =>
    case Subscribe(_) =>
    case Consume(_) =>
    case Unsubscribe(_) =>
  }

  /** The log only grows and nobody's hand-out is taken back. */
  lemma {:induction false} HandedStays(states: seq<Sys>, steps: seq<Step>, m: Sharing, i: nat, k: nat)
    requires Run(states, steps, m) && i <= k < |states|
    ensures Grows(states[i], states[k], m)
    decreases k
  {
    if i == k {
    } else {
      HandedStays(states, steps, m, i, k - 1);
      RunKeepsInv(states, steps, m, k - 1);
      StepKeepsHanded(states[k - 1], steps[k - 1], states[k], m);
      GrowsOn(states[i], states[k - 1], states[k], m);
    }
  }

  /** While it is open, a queue stays its user's and what came before it stays the same. */
  lemma {:induction false} StreamStays(states: seq<Sys>, steps: seq<Step>, m: Sharing, i: nat, k: nat, id: nat)
    requires Run(states, steps, m) && i <= k < |states|
    requires id in states[i].streams && states[i].streams[id].live
    requires forall j :: i <= j < k ==> steps[j] != Unsubscribe(id)
    ensures id in states[k].streams
    ensures var q, q' := states[i].streams[id], states[k].streams[id];
            q'.live && q'.user == q.user && q'.already == q.already && q'.readTo == q.readTo
            && q'.replayed == q.replayed && q.queue.delivered <= q'.queue.delivered
    decreases k
  {
    if i == k {
    } else {
      StreamStays(states, steps, m, i, k - 1, id);
      assert Next(states[k - 1], steps[k - 1], states[k], m);
    }
  }

  /**
   Exactly once: an event inserted while a queue was open has, when its publish is over, been
   put into that queue once if the queue's user is in its audience and never otherwise.
   */
  lemma {:induction false} DeliveredExactlyOnce(states: seq<Sys>, steps: seq<Step>, m: Sharing, i: nat, k: nat,
                                                id: nat, e: Event)
    requires Run(states, steps, m) && i <= k < |states|
    requires id in states[i].streams && states[i].streams[id].live
    requires forall j :: i <= j < k ==> steps[j] != Unsubscribe(id)
    requires e !in states[i].log && e in states[k].stage && states[k].stage[e].Done?
    ensures id in states[k].streams
    ensures Count(states[k].streams[id].queue.delivered, e) == if InAudience(m, e, states[i].streams[id].user) then 1 else 0
  {
    RunKeepsInv(states, steps, m, i);
    RunKeepsInv(states, steps, m, k);
    StreamStays(states, steps, m, i, k, id);
    assert StreamInv(states[i], m, states[i].streams[id]);
    var q := states[k].streams[id];
    assert StreamInv(states[k], m, q);
    assert e !in q.already;
    CountNoRepeats(q.queue.delivered, e);
  }

  /** At every moment of every run: nobody outside the audience gets an event, nobody gets it twice. */
  lemma {:induction false} NeverTwiceNeverToOthers(states: seq<Sys>, steps: seq<Step>, m: Sharing, k: nat, id: nat,
                                                   e: Event)
    requires Run(states, steps, m) && k < |states| && id in states[k].streams
    ensures Count(states[k].streams[id].queue.delivered, e) <= 1
    ensures e in states[k].streams[id].queue.delivered ==> e in states[k].log && InAudience(m, e, states[k].streams[id].user)
  {
    RunKeepsInv(states, steps, m, k);
    var q := states[k].streams[id];
    assert StreamInv(states[k], m, q);
    CountNoRepeats(q.queue.delivered, e);
  }

  /** The three steps of a publish without interruption: once to every open queue of the audience. */
  lemma {:induction false} UninterruptedPublish(s0: Sys, s1: Sys, s2: Sys, s3: Sys, e: Event, m: Sharing)
    requires Next(s0, Insert(e), s1, m) && Next(s1, FanToOwner(e), s2, m) && Next(s2, FanToMembers(e), s3, m)
    ensures s3.log == s0.log + [e] && s3.streams.Keys == s0.streams.Keys
    ensures forall id :: id in s0.streams ==>
              s3.streams[id] == if s0.streams[id].live && InAudience(m, e, s0.streams[id].user)
                                then Push(s0.streams[id], e) else s0.streams[id]
  {
    assert s1.streams == s0.streams;
    assert s2.streams == PushTo(s1.streams, e, u => u == e.userId);
  }
}
