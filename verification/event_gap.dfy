/**
 Runs in which a client that comes back misses an event, or has one twice.
 */
module EventGap {
  import opened EventBus
  import opened EventOrder
  import opened EventProtocol
  import EventQueue
  import opened EventReconnect
  import opened EventReplay
  import opened Sorting
  import opened Text
  import opened Wrappers

  lemma {:induction false} ExtendRun(states: seq<Sys>, steps: seq<Step>, m: Sharing, step: Step, s: Sys)
    requires Run(states, steps, m) && Next(states[|steps|], step, s, m)
    ensures Run(states + [s], steps + [step], m)
  {
    var states', steps' := states + [s], steps + [step];
    forall i | 0 <= i < |steps'| ensures Next(states'[i], steps'[i], states'[i + 1], m) {
      if i < |steps| {
        assert Next(states[i], steps[i], states[i + 1], m);
      }
    }
  }

  /** A publish of an event that only its publisher has queues for. */
  lemma {:induction false} PublishToOwn(states: seq<Sys>, steps: seq<Step>, m: Sharing, e: Event, id: nat, q: Stream)
    returns (states': seq<Sys>, steps': seq<Step>)
    requires Run(states, steps, m)
    requires var s := states[|steps|]; (forall d :: d in s.log ==> d.id != e.id) && s.streams == map[id := q]
    requires q.user == e.userId
    ensures Run(states', steps', m) && |states'| == |states| + 3 && states <= states'
    ensures steps' == steps + [Insert(e), FanToOwner(e), FanToMembers(e)]
    ensures var s := states[|steps|];
            states'[|steps'|] == Sys(s.log + [e], s.stage[e := Done], map[id := if q.live then Push(q, e) else q])
  {
    var s := states[|steps|];
    var s1 := Sys(s.log + [e], s.stage[e := Inserted], s.streams);
    ExtendRun(states, steps, m, Insert(e), s1);
    states', steps' := FinishPublish(states + [s1], steps + [Insert(e)], m, e, id, q);
    assert s1.stage[e := Done] == s.stage[e := Done];
  }

  /** A fresh stream that has just been subscribed. */
  function Opened(user: string): Stream {
    Stream(user, [], 0, true, EventQueue.Fresh(), {})
  }

  function Unopened(user: string, readTo: nat): Stream {
    Stream(user, [], readTo, false, EventQueue.Fresh(), {})
  }

  /** A stream is opened, gets one event, and is closed. */
  lemma {:induction false} OneEventSeen(m: Sharing, a: Event) returns (states: seq<Sys>, steps: seq<Step>)
    ensures Run(states, steps, m) && |steps| == 7
    ensures steps == FirstSteps(a)
    ensures states[6] == Sys([a], map[a := Done], map[0 := Taken(Push(Opened(a.userId), a))])
    ensures states[7] == Sys([a], map[a := Done], map[])
  {
    var q, q' := Unopened(a.userId, 0), Opened(a.userId);
    var s1, s2 := Init().(streams := map[0 := q]), Init().(streams := map[0 := q']);
    Opening(m, a.userId);
    assert Run([Init()], [], m);
    ExtendRun([Init()], [], m, Replay(0, a.userId, None, []), s1);
    ExtendRun([Init(), s1], [Replay(0, a.userId, None, [])], m, Subscribe(0), s2);
    states, steps := PublishToOwn([Init(), s1, s2], [Replay(0, a.userId, None, []), Subscribe(0)], m, a, 0, q');
    assert states[5] == Sys([a], map[a := Done], map[0 := Push(q', a)]);
    var s6 := Sys([a], map[a := Done], map[0 := Taken(Push(q', a))]);
    var s7 := Sys([a], map[a := Done], map[]);
    ExtendRun(states, steps, m, Consume(0), s6);
    ExtendRun(states + [s6], steps + [Consume(0)], m, Unsubscribe(0), s7);
    states, steps := states + [s6] + [s7], steps + [Consume(0)] + [Unsubscribe(0)];
  }

  /** The steps of that stream. */
  function FirstSteps(a: Event): seq<Step> {
    [Replay(0, a.userId, None, []), Subscribe(0), Insert(a), FanToOwner(a), FanToMembers(a), Consume(0), Unsubscribe(0)]
  }

  /** The client of that stream is back: nothing later to replay, then one event more. */
  lemma {:induction false} ReplayThenPublish(m: Sharing, a: Event, b: Event) returns (states: seq<Sys>,
                                             steps: seq<Step>)
    requires a.id != b.id && a.userId == b.userId
    ensures Run(states, steps, m) && |steps| == 11
    ensures steps == FirstSteps(a)
                     + [Replay(1, a.userId, Some(a.id), []), Insert(b), FanToOwner(b), FanToMembers(b)]
    ensures states[6] == Sys([a], map[a := Done], map[0 := Taken(Push(Opened(a.userId), a))]) && states[7].log == [a]
    ensures states[11] == Sys([a, b], map[a := Done, b := Done], map[1 := Unopened(a.userId, 1)])
  {
    states, steps := OneEventSeen(m, a);
    var s8 := Sys([a], map[a := Done], map[1 := Unopened(a.userId, 1)]);
    NothingLater(m, a);
    ExtendRun(states, steps, m, Replay(1, a.userId, Some(a.id), []), s8);
    states, steps := PublishToOwn(states + [s8], steps + [Replay(1, a.userId, Some(a.id), [])], m, b, 1,
                                  Unopened(a.userId, 1));
    assert [a] + [b] == [a, b];
  }

  lemma {:induction false} NothingLater(m: Sharing, a: Event)
    ensures Replays([], [a], a.userId, a.id, AccessibleProjects(m, a.userId))
  {
    StrLessIrreflexive(a.createdAt);
    var log := [a];
    assert log[0].id == a.id && Matches(a.userId, AccessibleProjects(m, a.userId), log[0]);
    FilterNone(log, e => Matches(a.userId, AccessibleProjects(m, a.userId), e) && StrLess(log[0].createdAt, e.createdAt));
  }

  /**
   A client that had got every event up to its cursor comes back, and an event published between
   its replay and its subscription never comes, though nothing is dropped and all stamps differ.
   */
  lemma {:induction false} PublishedInGapIsMissed(m: Sharing, a: Event, b: Event)
    returns (states: seq<Sys>, steps: seq<Step>)
    requires a.id != b.id && a.userId == b.userId && StrLess(a.createdAt, b.createdAt)
    ensures ComesBack(states, steps, m, 0, 1, 6, 1, 7, 11, 12, 0)
    ensures 0 in states[6].streams && 1 in states[12].streams
    ensures var first, second := states[6].streams[0], states[12].streams[1];
            && states[12].log == [a, b] && InAudience(m, b, second.user)
            && Received(first) == [a] && second.queue.delivered == []
            && Got(first, second, a) == 1 && Got(first, second, b) == 0
  {
    states, steps := ReplayThenPublish(m, a, b);
    var s12 := states[11].(streams := map[1 := Opened(a.userId).(readTo := 1, already := {a, b})]);
    assert AlreadyHanded(states[11], m, a.userId) == {a, b};
    ExtendRun(states, steps, m, Subscribe(1), s12);
    states, steps := states + [s12], steps + [Subscribe(1)];
  }

  lemma {:induction false} SecondIsLater(user: string, projects: set<string>, a: Event, b: Event)
    requires Matches(user, projects, b) && StrLess(a.createdAt, b.createdAt)
    ensures Later([a, b], user, projects, a) == [b]
  {
    StrLessIrreflexive(a.createdAt);
    var later := (e: Event) => Matches(user, projects, e) && StrLess(a.createdAt, e.createdAt);
    FilterNone([a], later);
    assert [a] + [b] == [a, b];
  }

  lemma {:induction false} OneLater(m: Sharing, a: Event, b: Event)
    requires a.userId == b.userId && StrLess(a.createdAt, b.createdAt)
    ensures Replays([b], [a, b], a.userId, a.id, AccessibleProjects(m, a.userId))
  {
    var log, projects := [a, b], AccessibleProjects(m, a.userId);
    SecondIsLater(a.userId, projects, a, b);
    assert log[0].id == a.id && Matches(a.userId, projects, log[0]);
    assert multiset(Later(log, a.userId, projects, log[0])) == multiset([b]);
  }

  /** As the client comes back, one event more has been inserted, which it is sent again by the replay. */
  lemma {:induction false} InsertThenReplay(m: Sharing, a: Event, b: Event) returns (states: seq<Sys>, steps: seq<Step>)
    requires a.id != b.id && a.userId == b.userId && StrLess(a.createdAt, b.createdAt)
    ensures Run(states, steps, m) && |steps| == 9
    ensures steps == FirstSteps(a) + [Insert(b), Replay(1, a.userId, Some(a.id), [b])]
    ensures states[6] == Sys([a], map[a := Done], map[0 := Taken(Push(Opened(a.userId), a))])
    ensures states[8] == Sys([a, b], map[a := Done, b := Inserted], map[])
    ensures states[9] == states[8].(streams := map[1 := Unopened(a.userId, 2).(replayed := [b])])
  {
    states, steps := OneEventSeen(m, a);
    var s8 := Sys([a, b], map[a := Done, b := Inserted], map[]);
    var s9 := s8.(streams := map[1 := Unopened(a.userId, 2).(replayed := [b])]);
    assert s8.log == states[7].log + [b];
    ExtendRun(states, steps, m, Insert(b), s8);
    OneLater(m, a, b);
    ExtendRun(states + [s8], steps + [Insert(b)], m, Replay(1, a.userId, Some(a.id), [b]), s9);
    states, steps := states + [s8] + [s9], steps + [Insert(b)] + [Replay(1, a.userId, Some(a.id), [b])];
  }

  /** It subscribes, and only then the event is handed out. */
  lemma {:induction false} SubscribeThenFanOut(states: seq<Sys>, steps: seq<Step>, m: Sharing, a: Event, b: Event)
    returns (states': seq<Sys>, steps': seq<Step>)
    requires a.id != b.id && a.userId == b.userId && Run(states, steps, m)
    requires states[|steps|] == Sys([a, b], map[a := Done, b := Inserted],
                                    map[1 := Unopened(a.userId, 2).(replayed := [b])])
    ensures Run(states', steps', m) && states <= states' && |states'| == |states| + 3
    ensures steps' == steps + [Subscribe(1), FanToOwner(b), FanToMembers(b)]
    ensures var q := Opened(a.userId).(replayed := [b], readTo := 2, already := {a});
            states'[|steps'|] == Sys([a, b], map[a := Done, b := Done], map[1 := Push(q, b)])
  {
    var s := states[|steps|];
    var q := Opened(a.userId).(replayed := [b], readTo := 2, already := {a});
    var s' := s.(streams := map[1 := q]);
    assert AlreadyHanded(s, m, a.userId) == {a};
    ExtendRun(states, steps, m, Subscribe(1), s');
    states', steps' := FinishPublish(states + [s'], steps + [Subscribe(1)], m, b, 1, q);
  }

  lemma {:induction false} FinishPublish(states: seq<Sys>, steps: seq<Step>, m: Sharing, e: Event, id: nat, q: Stream)
    returns (states': seq<Sys>, steps': seq<Step>)
    requires Run(states, steps, m) && q.user == e.userId
    requires var s := states[|steps|]; e in s.stage && s.stage[e].Inserted? && s.streams == map[id := q]
    ensures Run(states', steps', m) && |states'| == |states| + 2 && states <= states'
    ensures steps' == steps + [FanToOwner(e), FanToMembers(e)]
    ensures var s := states[|steps|];
            states'[|steps'|] == Sys(s.log, s.stage[e := Done], map[id := if q.live then Push(q, e) else q])
  {
    var s := states[|steps|];
    var streams := map[id := if q.live then Push(q, e) else q];
    var s2, s3 := Sys(s.log, s.stage[e := OwnerReached], streams), Sys(s.log, s.stage[e := Done], streams);
    ExtendRun(states, steps, m, FanToOwner(e), s2);
    ExtendRun(states + [s2], steps + [FanToOwner(e)], m, FanToMembers(e), s3);
    states', steps' := states + [s2] + [s3], steps + [FanToOwner(e)] + [FanToMembers(e)];
  }

  /** An event inserted before the replay and handed out after the subscription comes twice. */
  lemma {:induction false} PublishedAroundReturnComesTwice(m: Sharing, a: Event, b: Event)
    returns (states: seq<Sys>, steps: seq<Step>)
    requires a.id != b.id && a.userId == b.userId && StrLess(a.createdAt, b.createdAt)
    ensures ComesBack(states, steps, m, 0, 1, 6, 1, 8, 9, 12, 0)
    ensures 0 in states[6].streams && 1 in states[12].streams
    ensures var first, second := states[6].streams[0], states[12].streams[1];
            states[12].log == [a, b] && Received(first) == [a] && Got(first, second, a) == 1 && Got(first, second, b) == 2
  {
    states, steps := InsertThenReplay(m, a, b);
    states, steps := SubscribeThenFanOut(states, steps, m, a, b);
  }
}
