/**
 Replay of the event log from the last event a client saw, as a reconnecting stream asks for it.
 */
module EventReplay {
  import opened Text
  import opened EventBus
  import opened Sorting
  import IsoTimestamps

  predicate NotAfter(a: Event, b: Event) {
    !StrLess(b.createdAt, a.createdAt)
  }

  ghost predicate UniqueIds(log: seq<Event>) {
    forall i, k :: 0 <= i < k < |log| ==> log[i].id != log[k].id
  }

  /** The events of the log a user may see, oldest first. */
  function Visible(log: seq<Event>, user: string, projects: set<string>): seq<Event> {
    Filter(log, e => Matches(user, projects, e))
  }

  function Later(log: seq<Event>, user: string, projects: set<string>, cursor: Event): seq<Event> {
    Filter(log, e => Matches(user, projects, e) && StrLess(cursor.createdAt, e.createdAt))
  }

  /**
   The rows a database may answer replay with: none when the cursor names no event the user
   may see, otherwise the later visible events in any order that respects the timestamps.
   */
  ghost predicate Replays(rows: seq<Event>, log: seq<Event>, user: string, sinceId: string, projects: set<string>) {
    if exists k :: 0 <= k < |log| && log[k].id == sinceId && Matches(user, projects, log[k]) then
      exists k :: 0 <= k < |log| && log[k].id == sinceId && Matches(user, projects, log[k])
        && SortedBy(rows, NotAfter) && multiset(rows) == multiset(Later(log, user, projects, log[k]))
    else
      rows == []
  }

  lemma {:induction false} NotAfterIsPreorder()
    ensures TotalPreorder(NotAfter)
  {
    forall a: Event, b: Event ensures NotAfter(a, b) || NotAfter(b, a) {
      if StrLess(a.createdAt, b.createdAt) && StrLess(b.createdAt, a.createdAt) {
        StrLessTransitive(a.createdAt, b.createdAt, a.createdAt);
        StrLessIrreflexive(a.createdAt);
      }
    }
    forall a: Event, b: Event, c: Event | NotAfter(a, b) && NotAfter(b, c) ensures NotAfter(a, c) {
      if StrLess(c.createdAt, a.createdAt) {
        StrLessTotal(a.createdAt, b.createdAt);
        if StrLess(a.createdAt, b.createdAt) {
          StrLessTransitive(c.createdAt, a.createdAt, b.createdAt);
        }
      }
    }
  }

  /** Replay always has an answer. */
  lemma {:induction false} ReplayAnswers(log: seq<Event>, user: string, sinceId: string, projects: set<string>)
    ensures exists rows :: Replays(rows, log, user, sinceId, projects)
  {
    if k :| 0 <= k < |log| && log[k].id == sinceId && Matches(user, projects, log[k]) {
      NotAfterIsPreorder();
      SortSorts(Later(log, user, projects, log[k]), NotAfter);
      assert Replays(Sort(Later(log, user, projects, log[k]), NotAfter), log, user, sinceId, projects);
    } else {
      assert Replays([], log, user, sinceId, projects);
    }
  }

  lemma {:induction false} ReplayFromCursor(rows: seq<Event>, log: seq<Event>, user: string, at: nat,
                                            projects: set<string>)
    requires UniqueIds(log) && at < |log| && Matches(user, projects, log[at])
    requires Replays(rows, log, user, log[at].id, projects)
    ensures SortedBy(rows, NotAfter) && multiset(rows) == multiset(Later(log, user, projects, log[at]))
  {
    var k :| 0 <= k < |log| && log[k].id == log[at].id && Matches(user, projects, log[k])
        && SortedBy(rows, NotAfter) && multiset(rows) == multiset(Later(log, user, projects, log[k]));
    assert k == at;
  }

  function Count<T(==)>(s: seq<T>, x: T): nat {
    multiset(s)[x]
  }

  lemma {:induction false} CountNoRepeats<T(!new)>(s: seq<T>, x: T)
    requires NoRepeats(s)
    ensures Count(s, x) == if x in s then 1 else 0
  {
    if s == [] {
    } else {
      var n := |s| - 1;
      assert s == s[..n] + [s[n]];
      CountNoRepeats(s[..n], x);
      if x == s[n] {
        assert x !in s[..n];
      }
    }
  }

  lemma {:induction false} FilterNoRepeats<T(!new)>(s: seq<T>, p: T -> bool)
    requires NoRepeats(s)
    ensures NoRepeats(Filter(s, p))
  {
    if s == [] {
    } else {
      var n := |s| - 1;
      FilterNoRepeats(s[..n], p);
      FilterMembers(s[..n], p);
      assert s[n] !in s[..n];
      assert s[n] !in Filter(s[..n], p);
    }
  }

  lemma {:induction false} SameElementsNoRepeats<T(!new)>(s: seq<T>, t: seq<T>)
    requires NoRepeats(t) && multiset(s) == multiset(t)
    ensures NoRepeats(s)
  {
    forall i, k | 0 <= i < k < |s| ensures s[i] != s[k] {
      assert s == s[..i] + [s[i]] + s[i + 1..k] + [s[k]] + s[k + 1..];
      assert s[i] == s[k] ==> Count(s, s[i]) >= 2;
      CountNoRepeats(t, s[i]);
    }
  }

  /** No event is in a replay twice. */
  lemma {:induction false} ReplayHasNoRepeats(rows: seq<Event>, log: seq<Event>, user: string, sinceId: string,
                                              projects: set<string>)
    requires UniqueIds(log) && Replays(rows, log, user, sinceId, projects)
    ensures NoRepeats(rows)
  {
    if k :| 0 <= k < |log| && log[k].id == sinceId && Matches(user, projects, log[k]) {
      ReplayFromCursor(rows, log, user, k, projects);
      var later := (e: Event) => Matches(user, projects, e) && StrLess(log[k].createdAt, e.createdAt);
      FilterNoRepeats(log, later);
      SameElementsNoRepeats(rows, Filter(log, later));
    }
  }

  lemma {:induction false} SameMembers<T>(s: seq<T>, t: seq<T>)
    requires multiset(s) == multiset(t)
    ensures forall x :: x in s <==> x in t
  {
    forall x ensures x in s <==> x in t {
      assert x in s <==> x in multiset(s);
      assert x in t <==> x in multiset(t);
    }
  }

  /** An event is replayed exactly when it is visible and its timestamp is above the cursor's. */
  lemma {:induction false} ReplayedIffLater(rows: seq<Event>, log: seq<Event>, user: string, at: nat,
                                            projects: set<string>, e: Event)
    requires UniqueIds(log) && at < |log| && Matches(user, projects, log[at])
    requires Replays(rows, log, user, log[at].id, projects)
    ensures e in rows <==> e in log && Matches(user, projects, e) && StrLess(log[at].createdAt, e.createdAt)
  {
    ReplayFromCursor(rows, log, user, at, projects);
    FilterMembers(log, e => Matches(user, projects, e) && StrLess(log[at].createdAt, e.createdAt));
    SameMembers(rows, Later(log, user, projects, log[at]));
  }

  /**
   What a user's replay holds, from the tables of owners and members: the events that concern the
   user and are stamped later than the cursor, if the cursor names one that does, and else none.
   */
  lemma {:induction false} ReplayShowsIff(rows: seq<Event>, log: seq<Event>, m: Sharing, user: string, sinceId: string,
                                          e: Event)
    requires UniqueIds(log) && Replays(rows, log, user, sinceId, AccessibleProjects(m, user))
    ensures e in rows <==>
              e in log && Concerns(m, e, user)
              && exists k :: 0 <= k < |log| && log[k].id == sinceId && Concerns(m, log[k], user)
                             && StrLess(log[k].createdAt, e.createdAt)
  {
    var projects := AccessibleProjects(m, user);
    forall d: Event ensures Matches(user, projects, d) <==> Concerns(m, d, user) {
      AudienceIsReplayFilter(m, d, user);
    }
    if at :| 0 <= at < |log| && log[at].id == sinceId && Matches(user, projects, log[at]) {
      ReplayedIffLater(rows, log, user, at, projects, e);
    }
  }

  /** The log positions above the cursor's are those whose events are later than it. */
  ghost predicate StampedAround(log: seq<Event>, user: string, at: nat, projects: set<string>)
    requires at < |log|
  {
    forall k :: 0 <= k < |log| && Matches(user, projects, log[k]) ==>
      (k > at <==> StrLess(log[at].createdAt, log[k].createdAt))
  }

  lemma {:induction false} LaterIsTheRest(log: seq<Event>, user: string, at: nat, projects: set<string>)
    requires at < |log| && StampedAround(log, user, at, projects)
    ensures Later(log, user, projects, log[at]) == Visible(log[at + 1..], user, projects)
  {
    var visible := (e: Event) => Matches(user, projects, e);
    var later := (e: Event) => Matches(user, projects, e) && StrLess(log[at].createdAt, e.createdAt);
    assert log == log[..at + 1] + log[at + 1..];
    FilterConcat(log[..at + 1], log[at + 1..], later);
    FilterNone(log[..at + 1], later);
    var rest := log[at + 1..];
    forall i | 0 <= i < |rest| ensures visible(rest[i]) == later(rest[i]) {
      assert rest[i] == log[at + 1 + i];
    }
    FilterCongruent(rest, visible, later);
  }

  lemma {:induction false} VisibleSplits(log: seq<Event>, user: string, at: nat, projects: set<string>)
    requires at < |log|
    ensures Visible(log, user, projects)
         == Visible(log[..at + 1], user, projects) + Visible(log[at + 1..], user, projects)
  {
    assert log == log[..at + 1] + log[at + 1..];
    FilterConcat(log[..at + 1], log[at + 1..], e => Matches(user, projects, e));
  }

  lemma {:induction false} StampedIfComplete(log: seq<Event>, user: string, at: nat, projects: set<string>)
    requires UniqueIds(log) && at < |log|
    requires multiset(Later(log, user, projects, log[at])) == multiset(Visible(log[at + 1..], user, projects))
    ensures StampedAround(log, user, at, projects)
  {
    var later, rest := Later(log, user, projects, log[at]), log[at + 1..];
    FilterMembers(log, e => Matches(user, projects, e) && StrLess(log[at].createdAt, e.createdAt));
    FilterMembers(rest, e => Matches(user, projects, e));
    SameMembers(later, Visible(rest, user, projects));
    forall k | 0 <= k < |log| && Matches(user, projects, log[k])
      ensures k > at <==> StrLess(log[at].createdAt, log[k].createdAt)
    {
      assert log[k] in later <==> StrLess(log[at].createdAt, log[k].createdAt);
    }
  }

  /**
   What a client saw up to the cursor and what replay sends it make up everything it may see,
   each event once, exactly when timestamps and log positions agree around the cursor.
   */
  lemma {:induction false} ReplayCompletesIff(rows: seq<Event>, log: seq<Event>, user: string, at: nat,
                                              projects: set<string>)
    requires UniqueIds(log) && at < |log| && Matches(user, projects, log[at])
    requires Replays(rows, log, user, log[at].id, projects)
    ensures multiset(Visible(log[..at + 1], user, projects)) + multiset(rows) == multiset(Visible(log, user, projects))
       <==> StampedAround(log, user, at, projects)
  {
    ReplayFromCursor(rows, log, user, at, projects);
    VisibleSplits(log, user, at, projects);
    var seen, rest := multiset(Visible(log[..at + 1], user, projects)), multiset(Visible(log[at + 1..], user, projects));
    assert multiset(Visible(log, user, projects)) == seen + rest;
    if StampedAround(log, user, at, projects) {
      LaterIsTheRest(log, user, at, projects);
    }
    if seen + multiset(rows) == seen + rest {
      assert seen + multiset(rows) - seen == multiset(rows) && seen + rest - seen == rest;
      StampedIfComplete(log, user, at, projects);
    }
  }

  ghost predicate StrictlyStamped(log: seq<Event>) {
    forall i, k :: 0 <= i < k < |log| ==> StrLess(log[i].createdAt, log[k].createdAt)
  }

  lemma {:induction false} VisibleIsStrict(log: seq<Event>, user: string, projects: set<string>)
    requires StrictlyStamped(log)
    ensures StrictlySorted(Visible(log, user, projects), NotAfter)
    ensures forall e :: e in Visible(log, user, projects) ==> e in log
  {
    var visible := (e: Event) => Matches(user, projects, e);
    FilterMembers(log, visible);
    if log == [] {
    } else {
      var n := |log| - 1;
      assert StrictlyStamped(log[..n]);
      VisibleIsStrict(log[..n], user, projects);
      var v := Visible(log[..n], user, projects);
      forall i | 0 <= i < |v| ensures NotAfter(v[i], log[n]) && !NotAfter(log[n], v[i]) {
        assert v[i] in log[..n];
        StrLessAsymmetric(v[i].createdAt, log[n].createdAt);
      }
    }
  }

  lemma {:induction false} StrLessAsymmetric(a: string, b: string)
    requires StrLess(a, b)
    ensures !StrLess(b, a)
  {
    if StrLess(b, a) {
      StrLessTransitive(a, b, a);
      StrLessIrreflexive(a);
    }
  }

  /** With strictly increasing timestamps the seen prefix and the replay are the full visible log, in order. */
  lemma {:induction false} PrefixPlusReplay(rows: seq<Event>, log: seq<Event>, user: string, at: nat,
                                            projects: set<string>)
    requires UniqueIds(log) && StrictlyStamped(log) && at < |log| && Matches(user, projects, log[at])
    requires Replays(rows, log, user, log[at].id, projects)
    ensures Visible(log[..at + 1], user, projects) + rows == Visible(log, user, projects)
  {
    forall k | 0 <= k < |log| ensures k > at <==> StrLess(log[at].createdAt, log[k].createdAt) {
      if k < at {
        StrLessAsymmetric(log[k].createdAt, log[at].createdAt);
      } else if k == at {
        StrLessIrreflexive(log[k].createdAt);
      }
    }
    var rest := log[at + 1..];
    ReplayFromCursor(rows, log, user, at, projects);
    LaterIsTheRest(log, user, at, projects);
    VisibleSplits(log, user, at, projects);
    assert StrictlyStamped(rest);
    VisibleIsStrict(rest, user, projects);
    SortedIsUnique(rows, Visible(rest, user, projects), NotAfter);
  }

  /** The same, from the clock: each event stamped with a later UTC instant than the one before. */
  lemma {:induction false} ClockedReplay(rows: seq<Event>, log: seq<Event>, clock: seq<IsoTimestamps.DateTime>,
                                         user: string, at: nat, projects: set<string>)
    requires UniqueIds(log) && at < |log| == |clock| && Matches(user, projects, log[at])
    requires forall i :: 0 <= i < |log| ==> IsoTimestamps.Valid(clock[i]) && log[i].createdAt == IsoTimestamps.IsoFormat(clock[i])
    requires forall i, k :: 0 <= i < k < |log| ==> IsoTimestamps.Instant(clock[i]) < IsoTimestamps.Instant(clock[k])
    requires Replays(rows, log, user, log[at].id, projects)
    ensures Visible(log[..at + 1], user, projects) + rows == Visible(log, user, projects)
  {
    forall i, k | 0 <= i < k < |log| ensures StrLess(log[i].createdAt, log[k].createdAt) {
      IsoTimestamps.TextOrderIsInstantOrder(clock[i], clock[k]);
    }
    PrefixPlusReplay(rows, log, user, at, projects);
  }

  /** Two events in the same microsecond: a client that saw only the first never gets the second. */
  lemma {:induction false} TieIsMissed(first: Event, second: Event, rows: seq<Event>, user: string,
                                       projects: set<string>)
    requires first.id != second.id && first.createdAt == second.createdAt
    requires Matches(user, projects, first) && Matches(user, projects, second)
    requires Replays(rows, [first, second], user, first.id, projects)
    ensures second !in rows
  {
    ReplayedIffLater(rows, [first, second], user, 0, projects, second);
    StrLessIrreflexive(first.createdAt);
  }
}
