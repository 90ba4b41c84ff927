/**
 The event bus: per-user subscription queues, a persistent event log, fan-out of every event
 to its owner and to the members of its project, and replay of the log from a cursor.
 */
module EventBus {
  import opened Sorting
  import opened Wrappers
  import opened EventQueue

  datatype Event = Event(id: string, userId: string, projectId: Option<string>, createdAt: string, payload: string)

  // ---------------------------------------------------------------- who sees what

  /** Project owners and (project, user) membership rows. */
  datatype Sharing = Sharing(owner: map<string, string>, members: set<(string, string)>)

  predicate BelongsTo(m: Sharing, project: string, user: string) {
    (project, user) in m.members || (project in m.owner && m.owner[project] == user)
  }

  /** The users fan-out reaches: the publisher, and owner and members of the event's project. */
  predicate InAudience(m: Sharing, e: Event, user: string) {
    user == e.userId || (e.projectId.Some? && BelongsTo(m, e.projectId.value, user))
  }

  /** Projects a user owns or is a member of. */
  function AccessibleProjects(m: Sharing, user: string): (ps: set<string>)
    ensures forall p :: p in ps <==> BelongsTo(m, p, user)
  {
    (set p | p in m.owner && m.owner[p] == user) + (set row | row in m.members && row.1 == user :: row.0)
  }

  /** The WHERE clause of replay; without project ids only the user's own events match. */
  predicate Matches(user: string, projects: set<string>, e: Event) {
    e.userId == user || (projects != {} && e.projectId.Some? && e.projectId.value in projects)
  }

  /** Read off the tables: the user published the event, or owns its project, or is listed as a member of it. */
  ghost predicate Concerns(m: Sharing, e: Event, user: string) {
    || user == e.userId
    || (e.projectId.Some? && e.projectId.value in m.owner && m.owner[e.projectId.value] == user)
    || (e.projectId.Some? && (e.projectId.value, user) in m.members)
  }

  /** Fan-out and replay use the same visibility relation: publisher, project owner and project members. */
  lemma {:induction false} AudienceIsReplayFilter(m: Sharing, e: Event, user: string)
    ensures InAudience(m, e, user) <==> Matches(user, AccessibleProjects(m, user), e)
    ensures InAudience(m, e, user) <==> Concerns(m, e, user)
  {
  }

  // ---------------------------------------------------------------- the bus

  type Entry = Option<Event>      // None tells the subscriber to disconnect

  class Bus {
    var subscribers: map<string, seq<Queue<Entry>>>
    var log: seq<Event>
    ghost var home: map<Queue<Entry>, string>     // the user each queue was made for

    ghost predicate Valid()
      reads this, Queues()
    {
      && (forall u :: u in subscribers ==> subscribers[u] != [] && NoRepeats(subscribers[u]))
      && (forall u, q :: u in subscribers && q in subscribers[u] ==> q in home && home[q] == u)
      && (forall q :: q in Queues() ==> |q.items| <= QUEUE_MAXSIZE)
    }

    ghost function Queues(): (qs: set<Queue<Entry>>)
      reads this
      ensures forall u, q :: u in subscribers && q in subscribers[u] ==> q in qs
      ensures forall q :: q in qs ==> exists u :: u in subscribers && q in subscribers[u]
    {
      set u, q | u in subscribers && q in subscribers[u] :: q
    }

    function QueuesOf(user: string): seq<Queue<Entry>>
      reads this
    {
      if user in subscribers then subscribers[user] else []
    }

    constructor ()
      ensures Valid() && subscribers == map[] && log == []
    {
      subscribers := map[];
      log := [];
      home := map[];
    }

    method Subscribe(user: string) returns (queue: Queue<Entry>)
      requires Valid()
      modifies this`subscribers, this`home
      ensures Valid() && fresh(queue) && queue.items == []
      ensures subscribers == old(subscribers)[user := old(QueuesOf(user)) + [queue]]
    {
      queue := new Queue<Entry>();
      subscribers := subscribers[user := QueuesOf(user) + [queue]];
      home := home[queue := user];
    }

    /** Removes that queue and nothing else; a user without queues has no entry. */
    method Unsubscribe(user: string, queue: Queue<Entry>)
      requires Valid()
      modifies this`subscribers
      ensures Valid()
      ensures forall u :: u != user ==> (u in subscribers <==> u in old(subscribers))
      ensures forall u :: u != user && u in subscribers ==> subscribers[u] == old(subscribers)[u]
      ensures forall q :: q in QueuesOf(user) <==> q in old(QueuesOf(user)) && q != queue
    {
      var left := Without(QueuesOf(user), queue);
      if left == [] {
        subscribers := map u | u in subscribers && u != user :: subscribers[u];
      } else {
        subscribers := subscribers[user := left];
      }
    }

    /** `queues.remove(queue)`, a missing queue ignored */
    static method Without(queues: seq<Queue<Entry>>, queue: Queue<Entry>) returns (left: seq<Queue<Entry>>)
      requires NoRepeats(queues)
      ensures NoRepeats(left) && forall q :: q in left <==> q in queues && q != queue
    {
      var i := 0;
      while i < |queues| && queues[i] != queue
        invariant 0 <= i <= |queues|
        invariant queue !in queues[..i]
      {
        i := i + 1;
      }
      left := if i < |queues| then queues[..i] + queues[i + 1..] else queues;
      WithoutOne(queues, queue, i);
    }

    static lemma {:induction false} WithoutOne(qs: seq<Queue<Entry>>, queue: Queue<Entry>, at: nat)
      requires NoRepeats(qs) && at <= |qs| && queue !in qs[..at]
      requires at < |qs| ==> qs[at] == queue
      ensures var left := if at < |qs| then qs[..at] + qs[at + 1..] else qs;
              NoRepeats(left) && forall q :: q in left <==> q in qs && q != queue
    {
      if at < |qs| {
        var left := qs[..at] + qs[at + 1..];
        assert qs == qs[..at] + [queue] + qs[at + 1..];
        assert forall k :: at < k < |qs| ==> qs[k] != queue;
      } else {
        assert qs[..at] == qs;
      }
    }

    lemma {:induction false} OnlyTheirs(user: string)
      requires Valid()
      ensures forall u, q :: u in subscribers && q in subscribers[u] ==> (q in QueuesOf(user) <==> u == user)
    {
      forall u, q | u in subscribers && q in subscribers[u] ensures q in QueuesOf(user) <==> u == user {
        assert home[q] == u;
        if q in QueuesOf(user) {
          assert q in subscribers[user] && home[q] == user;
        }
      }
    }

    static method DeliverAll(queues: seq<Queue<Entry>>, e: Event)
      requires NoRepeats(queues) && forall q :: q in queues ==> |q.items| <= QUEUE_MAXSIZE
      modifies queues
      ensures forall q :: q in queues ==> q.items == Offer(old(q.items), Some(e)) && |q.items| <= QUEUE_MAXSIZE
    {
      for i := 0 to |queues|
        invariant forall k :: 0 <= k < i ==> queues[k].items == Offer(old(queues[k].items), Some(e))
        invariant forall k :: i <= k < |queues| ==> queues[k].items == old(queues[k].items)
        invariant forall k :: 0 <= k < |queues| ==> |queues[k].items| <= QUEUE_MAXSIZE
      {
        queues[i].Deliver(Some(e));
      }
    }

    /** The event into each queue of one user, once. */
    method FanOut(user: string, e: Event)
      requires Valid()
      modifies QueuesOf(user)
      ensures Valid()
      ensures forall u, q :: u in subscribers && q in subscribers[u] ==>
                q.items == if u == user then Offer(old(q.items), Some(e)) else old(q.items)
    {
      OnlyTheirs(user);
      ghost var theirs := QueuesOf(user);
      DeliverAll(QueuesOf(user), e);
      assert forall u, q :: u in subscribers && q in subscribers[u] ==> (q in theirs <==> u == user);
    }

    /**
     Persist, fan out to the publisher, fan out to the other users `memberRows` names. The
     rows are the members of the event's project and its owner, each once, as UNION returns
     them. Every queue of the publisher, of the project's owner and of its members receives the
     event once, as its newest entry; no other queue changes.
     */
    method Publish(e: Event, m: Sharing, memberRows: seq<string>)
      requires Valid()
      requires e.projectId.Some? ==>
                 NoRepeats(memberRows)
                 && forall u :: u in memberRows <==> (e.projectId.value, u) in m.members
                                                     || (e.projectId.value in m.owner && m.owner[e.projectId.value] == u)
      modifies this`log, Queues()
      ensures Valid() && subscribers == old(subscribers)
      ensures log == old(log) + [e]
      ensures forall u, q :: u in subscribers && q in subscribers[u] ==>
                if Concerns(m, e, u)
                then q.items == Offer(old(q.items), Some(e)) && q.items[|q.items| - 1] == Some(e)
                else q.items == old(q.items)
    {
      log := log + [e];
      FanOut(e.userId, e);
      if e.projectId.Some? {
        FanOutMembers(memberRows, e);
      }
    }

    /** The event to every listed user but its publisher, who has it already. */
    method FanOutMembers(memberRows: seq<string>, e: Event)
      requires Valid() && NoRepeats(memberRows)
      modifies Queues()
      ensures Valid()
      ensures forall u, q :: u in subscribers && q in subscribers[u] ==>
                q.items == if u in memberRows && u != e.userId then Offer(old(q.items), Some(e)) else old(q.items)
    {
      for i := 0 to |memberRows|
        invariant Valid() && subscribers == old(subscribers)
        invariant forall u, q :: u in subscribers && q in subscribers[u] ==>
                    q.items == if u in memberRows[..i] && u != e.userId then Offer(old(q.items), Some(e)) else old(q.items)
      {
        var member := memberRows[i];
        assert memberRows[..i + 1] == memberRows[..i] + [member];
        assert member !in memberRows[..i];
        if member != e.userId {
          FanOut(member, e);
        }
      }
      assert memberRows[..|memberRows|] == memberRows;
    }

    /** Shutdown: a queue that is full at that moment is not told to disconnect. */
    method Drain()
      requires Valid()
      modifies this`subscribers, Queues()
      ensures Valid() && subscribers == map[]
      ensures forall u, q :: u in old(subscribers) && q in old(subscribers)[u] ==> q.items == Closed(old(q.items))
    {
      var left := subscribers.Keys;
      while left != {}
        invariant left <= subscribers.Keys && Valid() && subscribers == old(subscribers)
        invariant forall u, q :: u in subscribers && q in subscribers[u] ==>
                    q.items == if u in left then old(q.items) else Closed(old(q.items))
        decreases left
      {
        var user :| user in left;
        CloseUser(user);
        left := left - {user};
      }
      subscribers := map[];
    }

    method CloseUser(user: string)
      requires Valid()
      modifies QueuesOf(user)
      ensures Valid()
      ensures forall u, q :: u in subscribers && q in subscribers[u] ==>
                q.items == if u == user then Closed(old(q.items)) else old(q.items)
    {
      OnlyTheirs(user);
      ghost var theirs := QueuesOf(user);
      CloseAll(QueuesOf(user));
      assert forall u, q :: u in subscribers && q in subscribers[u] ==> (q in theirs <==> u == user);
    }

    static method CloseAll(queues: seq<Queue<Entry>>)
      requires NoRepeats(queues) && forall q :: q in queues ==> |q.items| <= QUEUE_MAXSIZE
      modifies queues
      ensures forall q :: q in queues ==> q.items == Closed(old(q.items)) && |q.items| <= QUEUE_MAXSIZE
    {
      for i := 0 to |queues|
        invariant forall k :: 0 <= k < i ==> queues[k].items == Closed(old(queues[k].items))
        invariant forall k :: i <= k < |queues| ==> queues[k].items == old(queues[k].items)
        invariant forall k :: 0 <= k < |queues| ==> |queues[k].items| <= QUEUE_MAXSIZE
      {
        var ok := queues[i].PutNowait(None);
      }
    }
  }

  /** A queue after the shutdown signal was offered, which does not push anything out. */
  function Closed(items: seq<Entry>): seq<Entry> {
    if |items| < QUEUE_MAXSIZE then items + [None] else items
  }

  /** The signal arrives exactly at the queues that had room for it, and never costs an event. */
  lemma {:induction false} SignalArrivesIffRoom(items: seq<Entry>)
    requires None !in items
    ensures None in Closed(items) <==> |items| < QUEUE_MAXSIZE
    ensures items <= Closed(items)
  {
    if |items| < QUEUE_MAXSIZE {
      assert Closed(items)[|items|] == None;
    }
  }
}
