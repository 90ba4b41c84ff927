/**
 What the two replay queries select from the event table: what replay is meant to find.
 */
module EventSql {
  import opened EventBus
  import opened EventReplay
  import opened Sorting
  import opened SqlBuilders
  import opened SqlQuery
  import opened Text
  import opened Wrappers

  /** An event as a row of the event table; an event without a project has a NULL there. */
  function RowOf(e: Event): Row {
    var row := map["id" := e.id, "user_id" := e.userId, "created_at" := e.createdAt, "payload" := e.payload];
    if e.projectId.Some? then row["project_id" := e.projectId.value] else row
  }

  /** The values bound to a list of arguments. */
  function ValuesOf(val: int -> string, ids: seq<int>): set<string> {
    set i | 0 <= i < |ids| :: val(ids[i])
  }

  lemma {:induction false} MineMatches(e: Event, val: int -> string, userId: int, projectIds: seq<int>)
    ensures Holds(Mine(userId, projectIds), RowOf(e), val)
       <==> Matches(val(userId), ValuesOf(val, projectIds), e)
  {
    assert "user_id" != "project_id" && "id" != "project_id";
    if projectIds != [] {
      assert val(projectIds[0]) in ValuesOf(val, projectIds);
    }
  }

  /** The cursor lookup finds the events with that id that concern the user. */
  lemma {:induction false} CursorHolds(e: Event, val: int -> string, sinceId: int, userId: int, projectIds: seq<int>)
    ensures Holds(CursorQuery(sinceId, userId, projectIds).where, RowOf(e), val)
       <==> e.id == val(sinceId) && Matches(val(userId), ValuesOf(val, projectIds), e)
  {
    MineMatches(e, val, userId, projectIds);
  }

  /** The replay query finds the events that concern the user and are stamped after the cursor. */
  lemma {:induction false} ReplayHolds(e: Event, val: int -> string, userId: int, projectIds: seq<int>, sinceTs: int)
    ensures Holds(ReplayQuery(userId, projectIds, sinceTs).where, RowOf(e), val)
       <==> Matches(val(userId), ValuesOf(val, projectIds), e) && StrLess(val(sinceTs), e.createdAt)
  {
    MineMatches(e, val, userId, projectIds);
  }

  /**
   Run one after the other, the two queries make replay: a cursor the first query does not find
   gives nothing, and with the timestamp it finds, the answers the second query may give are
   exactly the replays from that cursor, oldest first.
   */
  lemma {:induction false} QueriesReplay(rows: seq<Event>, found: seq<Event>, log: seq<Event>, val: int -> string,
                                         sinceId: int, userId: int, projectIds: seq<int>, sinceTs: int)
    requires UniqueIds(log) && Answers(found, CursorQuery(sinceId, userId, projectIds), log, RowOf, val)
    requires found != [] ==> val(sinceTs) == found[0].createdAt
    ensures Replays(rows, log, val(userId), val(sinceId), ValuesOf(val, projectIds))
       <==> if found == [] then rows == []
            else Answers(rows, ReplayQuery(userId, projectIds, sinceTs), log, RowOf, val)
  {
    var user, projects := val(userId), ValuesOf(val, projectIds);
    FoundAtCursor(found, log, val, sinceId, userId, projectIds);
    if found == [] {
      forall k | 0 <= k < |log| && log[k].id == val(sinceId) ensures !Matches(user, projects, log[k]) {
        assert log[k] !in found;
      }
    } else {
      assert found[0] in found;
      var k :| 0 <= k < |log| && log[k] == found[0];
      LaterIsSelected(log, val, userId, projectIds, sinceTs, log[k]);
      OrderedIsSorted(rows);
      ReplaysFrom(rows, log, user, k, projects);
    }
  }

  lemma {:induction false} ReplaysFrom(rows: seq<Event>, log: seq<Event>, user: string, at: nat, projects: set<string>)
    requires UniqueIds(log) && at < |log| && Matches(user, projects, log[at])
    ensures Replays(rows, log, user, log[at].id, projects)
       <==> SortedBy(rows, EventReplay.NotAfter) && multiset(rows) == multiset(Later(log, user, projects, log[at]))
  {
    if Replays(rows, log, user, log[at].id, projects) {
      ReplayFromCursor(rows, log, user, at, projects);
    }
  }

  lemma {:induction false} FoundAtCursor(found: seq<Event>, log: seq<Event>, val: int -> string,
                                         sinceId: int, userId: int, projectIds: seq<int>)
    requires Answers(found, CursorQuery(sinceId, userId, projectIds), log, RowOf, val)
    ensures forall e :: e in found <==> e in log && e.id == val(sinceId) && Matches(val(userId), ValuesOf(val, projectIds), e)
  {
    var q := CursorQuery(sinceId, userId, projectIds);
    var p := Where(q.where, RowOf, val);
    FilterMembers(log, p);
    SameMembers(found, Filter(log, p));
    forall e: Event ensures p(e) <==> e.id == val(sinceId) && Matches(val(userId), ValuesOf(val, projectIds), e) {
      CursorHolds(e, val, sinceId, userId, projectIds);
    }
  }

  lemma {:induction false} LaterIsSelected(log: seq<Event>, val: int -> string, userId: int, projectIds: seq<int>,
                                           sinceTs: int, cursor: Event)
    requires val(sinceTs) == cursor.createdAt
    ensures Later(log, val(userId), ValuesOf(val, projectIds), cursor)
         == Filter(log, Where(ReplayQuery(userId, projectIds, sinceTs).where, RowOf, val))
  {
    var user, projects := val(userId), ValuesOf(val, projectIds);
    var later := (e: Event) => Matches(user, projects, e) && StrLess(cursor.createdAt, e.createdAt);
    var selected := Where(ReplayQuery(userId, projectIds, sinceTs).where, RowOf, val);
    forall i | 0 <= i < |log| ensures later(log[i]) == selected(log[i]) {
      ReplayHolds(log[i], val, userId, projectIds, sinceTs);
    }
    FilterCongruent(log, later, selected);
  }

  lemma {:induction false} OrderedIsSorted(rows: seq<Event>)
    ensures (forall i, k :: 0 <= i < k < |rows| ==> NotAbove(RowOf(rows[i]), RowOf(rows[k]), "created_at"))
       <==> SortedBy(rows, EventReplay.NotAfter)
  {
    assert "created_at" != "project_id";
    forall i, k | 0 <= i < k < |rows|
      ensures NotAbove(RowOf(rows[i]), RowOf(rows[k]), "created_at") <==> EventReplay.NotAfter(rows[i], rows[k])
    {
      assert RowOf(rows[i])["created_at"] == rows[i].createdAt && RowOf(rows[k])["created_at"] == rows[k].createdAt;
    }
  }
}
