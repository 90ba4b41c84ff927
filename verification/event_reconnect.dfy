/**
 What a client is sent when its stream breaks off and it comes back with the id of the last
 event it saw.
 */
module EventReconnect {
  import opened EventBus
  import opened EventOrder
  import opened EventProtocol
  import EventQueue
  import opened EventReplay
  import opened Sorting
  import opened Text
  import opened Wrappers

  /** Between its replay and its subscription a stream only waits. */
  lemma {:induction false} StreamWaits(states: seq<Sys>, steps: seq<Step>, m: Sharing, i: nat, k: nat, id: nat)
    requires Run(states, steps, m) && i <= k < |states|
    requires id in states[i].streams && !states[i].streams[id].live
    requires forall j :: i <= j < k ==> steps[j] != Subscribe(id)
    ensures id in states[k].streams && states[k].streams[id] == states[i].streams[id]
    decreases k
  {
    if i == k {
    } else {
      StreamWaits(states, steps, m, i, k - 1, id);
      assert Next(states[k - 1], steps[k - 1], states[k], m);
    }
  }

  /** A replay at step r and a subscription at step j, of one stream that is still open at k. */
  ghost predicate Reconnects(states: seq<Sys>, steps: seq<Step>, m: Sharing, r: nat, j: nat, k: nat, id: nat, at: nat) {
    && Run(states, steps, m) && r < j < k < |states| && at < |states[r].log|
    && steps[r].Replay? && steps[r].id == id && steps[r].since == Some(states[r].log[at].id)
    && Matches(steps[r].user, AccessibleProjects(m, steps[r].user), states[r].log[at])
    && steps[j] == Subscribe(id)
    && (forall i :: r < i < j ==> steps[i] != Subscribe(id))
    && (forall i :: j < i < k ==> steps[i] != Unsubscribe(id))
  }

  /** What the client saw of the queue or still finds in it. */
  function Kept(q: Stream): seq<Event> {
    q.queue.seen + q.queue.items
  }

  /** How often the stream has the event for its client, from its replay and from its queue. */
  function Sent(q: Stream, e: Event): nat {
    Count(q.replayed, e) + Count(Kept(q), e)
  }

  /** Delivered to the queue and pushed out of it before the client took it. */
  predicate Dropped(q: Stream, e: Event) {
    e in q.queue.delivered && e !in Kept(q)
  }

  lemma {:induction false} ReconnectedStream(states: seq<Sys>, steps: seq<Step>, m: Sharing, r: nat, j: nat, k: nat,
                                             id: nat, at: nat)
    requires Reconnects(states, steps, m, r, j, k, id, at)
    ensures id in states[k].streams
    ensures var q := states[k].streams[id];
            q.live && q.user == steps[r].user && q.replayed == steps[r].rows && StreamInv(states[k], m, q)
            && forall e :: e in q.already <==> Handed(states[j], m, e, q.user)
  {
    assert Next(states[r], steps[r], states[r + 1], m);
    StreamWaits(states, steps, m, r + 1, j, id);
    assert Next(states[j], steps[j], states[j + 1], m);
    StreamStays(states, steps, m, j + 1, k, id);
    RunKeepsInv(states, steps, m, k);
  }

  lemma {:induction false} ReplayCount(rows: seq<Event>, log: seq<Event>, user: string, at: nat,
                                       projects: set<string>, e: Event)
    requires UniqueIds(log) && at < |log| && Matches(user, projects, log[at])
    requires Replays(rows, log, user, log[at].id, projects)
    ensures Count(rows, e)
         == if e in log && Matches(user, projects, e) && StrLess(log[at].createdAt, e.createdAt) then 1 else 0
  {
    ReplayFromCursor(rows, log, user, at, projects);
    var later := (d: Event) => Matches(user, projects, d) && StrLess(log[at].createdAt, d.createdAt);
    FilterNoRepeats(log, later);
    CountNoRepeats(Filter(log, later), e);
    FilterMembers(log, later);
  }

  /**
   What a reconnected stream has for its client of an event it may see, once every publish is
   over: once by the replay if the event was in the log by then and stamped after the cursor,
   and once by its queue if the event was handed out only after the subscription and was not
   dropped. So an event handed out between replay and subscription is missed, and one replayed
   while still being published comes twice.
   */
  lemma {:induction false} ReconnectSends(states: seq<Sys>, steps: seq<Step>, m: Sharing, r: nat, j: nat, k: nat,
                                          id: nat, at: nat, e: Event)
    requires Reconnects(states, steps, m, r, j, k, id, at) && Quiet(states[k])
    requires e in states[k].log && InAudience(m, e, steps[r].user)
    ensures id in states[k].streams
    ensures Sent(states[k].streams[id], e)
         == (if e in states[r].log && StrLess(states[r].log[at].createdAt, e.createdAt) then 1 else 0)
            + (if Handed(states[j], m, e, steps[r].user) || Dropped(states[k].streams[id], e) then 0 else 1)
  {
    ReconnectedStream(states, steps, m, r, j, k, id, at);
    RunKeepsInv(states, steps, m, r);
    RunKeepsInv(states, steps, m, k);
    var q := states[k].streams[id];
    assert Next(states[r], steps[r], states[r + 1], m);
    AudienceIsReplayFilter(m, e, q.user);
    ReplayCount(q.replayed, states[r].log, q.user, at, AccessibleProjects(m, q.user), e);
    CountNoRepeats(Kept(q), e);
  }

  /** Nothing was being published from the replay to the subscription, and timestamps agree with the log around the cursor. */
  ghost predicate Calm(states: seq<Sys>, steps: seq<Step>, m: Sharing, r: nat, j: nat, k: nat, id: nat, at: nat) {
    && Reconnects(states, steps, m, r, j, k, id, at) && Quiet(states[k])
    && Quiet(states[r]) && states[j].log == states[r].log
    && StampedAround(states[r].log, steps[r].user, at, AccessibleProjects(m, steps[r].user))
  }

  /** A calm reconnect has every visible event after the cursor once, dropped ones apart, and none of the earlier ones. */
  lemma {:induction false} QuietReconnect(states: seq<Sys>, steps: seq<Step>, m: Sharing, r: nat, j: nat, k: nat,
                                          id: nat, at: nat, p: nat)
    requires Calm(states, steps, m, r, j, k, id, at)
    requires p < |states[k].log| && InAudience(m, states[k].log[p], steps[r].user)
    ensures id in states[k].streams
    ensures var e := states[k].log[p];
            Sent(states[k].streams[id], e)
            == if p <= at then 0 else if p >= |states[r].log| && Dropped(states[k].streams[id], e) then 0 else 1
  {
    var e := states[k].log[p];
    ReconnectSends(states, steps, m, r, j, k, id, at, e);
    ReconnectedStream(states, steps, m, r, j, k, id, at);
    HandedStays(states, steps, m, r, j);
    HandedStays(states, steps, m, j, k);
    RunKeepsInv(states, steps, m, r);
    RunKeepsInv(states, steps, m, j);
    RunKeepsInv(states, steps, m, k);
    AudienceIsReplayFilter(m, e, steps[r].user);
    if p < |states[r].log| {
      assert states[r].log[p] == e;
      assert Handed(states[r], m, e, steps[r].user);
    }
  }

  // ---------------------------------------------------------------- two streams of one client

  /** What the client got from a stream: its replay, and what it took from its queue. */
  function Received(q: Stream): seq<Event> {
    q.replayed + q.queue.seen
  }

  /**
   A stream a subscribed at step i and open at d, when its client breaks off, and the stream b
   the client opens from the last event it had got from a. Anything may be published meanwhile.
   */
  ghost predicate ComesBack(states: seq<Sys>, steps: seq<Step>, m: Sharing, a: nat, i: nat, d: nat,
                            b: nat, r: nat, j: nat, k: nat, at: nat) {
    && Open(states, steps, m, a, i, d) && d <= r && Reconnects(states, steps, m, r, j, k, b, at) && Quiet(states[k])
    && a in states[d].streams
    && var q := states[d].streams[a];
    && q.user == steps[r].user && Received(q) != [] && Received(q)[|Received(q)| - 1] == states[r].log[at]
  }

  /** How often the client has the event from both streams: what it got from the first and what the second has for it. */
  function Got(first: Stream, second: Stream, e: Event): nat {
    Count(Received(first), e) + Sent(second, e)
  }

  function Bit(b: bool): nat {
    if b then 1 else 0
  }

  /** In the log when the replay was read, and stamped after the cursor. */
  predicate ReplayedLater(atReplay: Sys, at: nat, e: Event)
    requires at < |atReplay.log|
  {
    e in atReplay.log && StrLess(atReplay.log[at].createdAt, e.createdAt)
  }

  /** Not yet handed out at the subscription, and not dropped since. */
  predicate QueuedLater(atSubscription: Sys, m: Sharing, q: Stream, e: Event) {
    !Handed(atSubscription, m, e, q.user) && !Dropped(q, e)
  }

  /** In how many of the four ways the event comes to the client: replay and queue of either stream. */
  function Ways(atReplay: Sys, at: nat, atSubscription: Sys, m: Sharing, first: Stream, second: Stream, e: Event): nat
    requires at < |atReplay.log|
  {
    Bit(e in first.replayed) + Bit(e in first.queue.seen)
    + Bit(ReplayedLater(atReplay, at, e)) + Bit(QueuedLater(atSubscription, m, second, e))
  }

  lemma {:induction false} SeenOnce<T(!new)>(h: EventQueue.History<T>, x: T)
    requires EventQueue.Refines(h) && NoRepeats(h.delivered)
    ensures Count(h.seen, x) == if x in h.seen then 1 else 0
  {
    forall i, k | 0 <= i < k < |h.seen| ensures h.seen[i] != h.seen[k] {
      assert (h.seen + h.items)[i] != (h.seen + h.items)[k];
    }
    CountNoRepeats(h.seen, x);
  }

  lemma {:induction false} ReplayedOnce(states: seq<Sys>, steps: seq<Step>, m: Sharing, k: nat, id: nat)
    requires Run(states, steps, m) && k < |states| && id in states[k].streams
    ensures NoRepeats(states[k].streams[id].replayed)
  {
    if k == 0 {
      assert false;
    } else {
      var step := steps[k - 1];
      if id in states[k - 1].streams {
        ReplayedOnce(states, steps, m, k - 1, id);
      } else if step.since.Some? {
        RunKeepsInv(states, steps, m, k - 1);
        ReplayHasNoRepeats(step.rows, states[k - 1].log, step.user, step.since.value, AccessibleProjects(m, step.user));
      }
    }
  }

  /** A visible event comes to the client as often as one of the four ways brings it. */
  lemma {:induction false} ComesInWays(states: seq<Sys>, steps: seq<Step>, m: Sharing, a: nat, i: nat, d: nat,
                                       b: nat, r: nat, j: nat, k: nat, at: nat, e: Event)
    requires ComesBack(states, steps, m, a, i, d, b, r, j, k, at)
    requires e in states[k].log && InAudience(m, e, steps[r].user)
    ensures b in states[k].streams
    ensures Got(states[d].streams[a], states[k].streams[b], e)
         == Ways(states[r], at, states[j], m, states[d].streams[a], states[k].streams[b], e)
  {
    ReconnectSends(states, steps, m, r, j, k, b, at, e);
    ReconnectedStream(states, steps, m, r, j, k, b, at);
    OpenStays(states, steps, m, a, i, d);
    var first := states[d].streams[a];
    SeenOnce(first.queue, e);
    ReplayedOnce(states, steps, m, d, a);
    CountNoRepeats(first.replayed, e);
  }

  /**
   A client breaks off and comes back, and anything is published before, meanwhile and
   afterwards: it has every event published since some moment and visible to it exactly once, if
   and only if just one of the four ways brings it.
   */
  lemma {:induction false} ComesBackCompleteIff(states: seq<Sys>, steps: seq<Step>, m: Sharing, a: nat, i: nat, d: nat,
                                                b: nat, r: nat, j: nat, k: nat, at: nat, since: nat)
    requires ComesBack(states, steps, m, a, i, d, b, r, j, k, at)
    ensures b in states[k].streams
    ensures var first, second, log := states[d].streams[a], states[k].streams[b], states[k].log;
            (forall p :: since <= p < |log| && InAudience(m, log[p], steps[r].user) ==> Got(first, second, log[p]) == 1)
            <==>
            (forall p :: since <= p < |log| && InAudience(m, log[p], steps[r].user) ==>
               Ways(states[r], at, states[j], m, first, second, log[p]) == 1)
  {
    ReconnectedStream(states, steps, m, r, j, k, b, at);
    forall p | since <= p < |states[k].log| && InAudience(m, states[k].log[p], steps[r].user)
      ensures Got(states[d].streams[a], states[k].streams[b], states[k].log[p])
           == Ways(states[r], at, states[j], m, states[d].streams[a], states[k].streams[b], states[k].log[p])
    {
      ComesInWays(states, steps, m, a, i, d, b, r, j, k, at, states[k].log[p]);
    }
  }

  /**
   If nothing is being published from the replay to the subscription: the client has each visible
   event exactly once, if and only if it had got just those up to the cursor, each once, and the
   second queue drops none it had not got.
   */
  lemma {:induction false} CalmReturnCompleteIff(states: seq<Sys>, steps: seq<Step>, m: Sharing, a: nat, i: nat, d: nat,
                                                 b: nat, r: nat, j: nat, k: nat, at: nat, since: nat)
    requires ComesBack(states, steps, m, a, i, d, b, r, j, k, at) && Calm(states, steps, m, r, j, k, b, at)
    ensures b in states[k].streams
    ensures var first, second, log := states[d].streams[a], states[k].streams[b], states[k].log;
            (forall p :: since <= p < |log| && InAudience(m, log[p], steps[r].user) ==> Got(first, second, log[p]) == 1)
            <==>
            (forall p :: since <= p < |log| && InAudience(m, log[p], steps[r].user) ==>
               Count(Received(first), log[p]) == Bit(p <= at || (p >= |states[r].log| && Dropped(second, log[p]))))
  {
    ReconnectedStream(states, steps, m, r, j, k, b, at);
    forall p | since <= p < |states[k].log| && InAudience(m, states[k].log[p], steps[r].user)
      ensures Sent(states[k].streams[b], states[k].log[p])
           == 1 - Bit(p <= at || (p >= |states[r].log| && Dropped(states[k].streams[b], states[k].log[p])))
    {
      QuietReconnect(states, steps, m, r, j, k, b, at, p);
    }
  }

  lemma {:induction false} OrderlyQueueKept(states: seq<Sys>, steps: seq<Step>, m: Sharing, a: nat, i: nat, d: nat)
    requires Open(states, steps, m, a, i, d) && a in states[d].streams
    requires EventQueue.NeverLags(Ops(states, steps, m, a, i, d))
    requires InLogOrder(states[d].log, EventQueue.Deliveries(Ops(states, steps, m, a, i, d)))
    ensures var q := states[d].streams[a];
            NoRepeats(states[d].log) && InLogOrder(states[d].log, Kept(q))
            && forall e :: e in Kept(q) <==> e in states[d].log && HandedSince(states[d], m, q)(e)
  {
    QueueShowsLogIff(states, steps, m, a, i, d);
    RunKeepsInv(states, steps, m, d);
    UniqueEvents(states[d].log);
    FilterIsInOrder(states[d].log, HandedSince(states[d], m, states[d].streams[a]));
    FilterMembers(states[d].log, HandedSince(states[d], m, states[d].streams[a]));
  }

  lemma {:induction false} HandedSinceOpening(states: seq<Sys>, steps: seq<Step>, m: Sharing, a: nat, i: nat, d: nat,
                                              p: nat)
    requires Open(states, steps, m, a, i, d) && Quiet(states[d]) && a in states[d].streams
    requires |states[i].log| <= p < |states[d].log| && InAudience(m, states[d].log[p], states[d].streams[a].user)
    ensures HandedSince(states[d], m, states[d].streams[a])(states[d].log[p])
  {
    RunKeepsInv(states, steps, m, i);
    RunKeepsInv(states, steps, m, d);
    HandedStays(states, steps, m, i, d);
    OpenStays(states, steps, m, a, i, d);
  }

  /** A first stream that never lagged and was given its events in log order had seen just those up to its last one. */
  lemma {:induction false} OrderlyStreamSawPrefix(states: seq<Sys>, steps: seq<Step>, m: Sharing, a: nat, i: nat,
                                                  d: nat, at: nat, p: nat)
    requires Open(states, steps, m, a, i, d) && Quiet(states[d]) && a in states[d].streams
    requires EventQueue.NeverLags(Ops(states, steps, m, a, i, d))
    requires InLogOrder(states[d].log, EventQueue.Deliveries(Ops(states, steps, m, a, i, d)))
    requires at < |states[d].log| && states[d].streams[a].queue.seen != []
    requires var seen := states[d].streams[a].queue.seen; seen[|seen| - 1] == states[d].log[at]
    requires |states[i].log| <= p < |states[d].log| && InAudience(m, states[d].log[p], states[d].streams[a].user)
    ensures states[d].log[p] in states[d].streams[a].queue.seen <==> p <= at
  {
    OrderlyQueueKept(states, steps, m, a, i, d);
    HandedSinceOpening(states, steps, m, a, i, d, p);
    var q := states[d].streams[a];
    assert Kept(q)[..|q.queue.seen|] == q.queue.seen;
  }
}
