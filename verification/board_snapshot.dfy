/**
 The compact board snapshot: per tracked status the first items in board order, with a count
 of the rest when there are more than the cap.
 */
module BoardSnapshot {
  import opened Sorting
  import opened Text
  import opened Wrappers

  datatype Item = Item(id: string, title: string, status: string, sortOrder: Option<real>, createdAt: string)

  datatype Entry = Card(id: string, title: string) | More(hidden: int)

  datatype Snapshot = Snapshot(projectId: string, projectName: string, columns: map<string, seq<Entry>>)

  const TRACKED_STATUSES := ["new", "ready", "next_action", "active", "review", "waiting_for"]
  const TITLE_LEN := 60

  /** The sort key's order; a missing sort order counts as 0. */
  predicate NotAfter(a: Item, b: Item) {
    var x, y := a.sortOrder.GetOr(0.0), b.sortOrder.GetOr(0.0);
    x < y || (x == y && !StrLess(b.createdAt, a.createdAt))
  }

  lemma {:induction false} NotAfterIsPreorder()
    ensures TotalPreorder(NotAfter)
  {
    forall a: Item, b: Item ensures NotAfter(a, b) || NotAfter(b, a) {
      if StrLess(a.createdAt, b.createdAt) && StrLess(b.createdAt, a.createdAt) {
        StrLessTransitive(a.createdAt, b.createdAt, a.createdAt);
        StrLessIrreflexive(a.createdAt);
      }
    }
    forall a: Item, b: Item, c: Item | NotAfter(a, b) && NotAfter(b, c) ensures NotAfter(a, c) {
      if StrLess(c.createdAt, a.createdAt) {
        StrLessTotal(a.createdAt, b.createdAt);
        if StrLess(a.createdAt, b.createdAt) {
          StrLessTransitive(c.createdAt, a.createdAt, b.createdAt);
        }
      }
    }
  }

  function WithStatus(status: string): Item -> bool {
    (i: Item) => i.status == status
  }

  function CardOf(i: Item): Entry {
    Card(i.id, Truncate(i.title, TITLE_LEN))
  }

  function Cards(items: seq<Item>): (c: seq<Entry>)
    ensures |c| == |items| && forall i :: 0 <= i < |items| ==> c[i] == CardOf(items[i])
  {
    seq(|items|, i requires 0 <= i < |items| => CardOf(items[i]))
  }

  /** `s[:cap]`: a negative cap counts from the end. */
  function Slice<T>(s: seq<T>, cap: int): seq<T> {
    if cap >= |s| then s
    else if cap >= 0 then s[..cap]
    else if |s| + cap >= 0 then s[..|s| + cap]
    else []
  }

  /** A status's items in board order. */
  function ColumnOf(items: seq<Item>, status: string): seq<Item> {
    Filter(Sort(items, NotAfter), WithStatus(status))
  }

  function Entries(column: seq<Item>, cap: int): seq<Entry> {
    if |column| > cap then Cards(Slice(column, cap)) + [More(|column| - cap)] else Cards(column)
  }

  predicate Tracked(status: string) {
    status in TRACKED_STATUSES
  }

  /** Six statuses have a column; done, cancelled and the rest have none. */
  lemma {:induction false} TrackedAreThese(status: string)
    ensures Tracked(status) <==>
              status == "new" || status == "ready" || status == "next_action" || status == "active"
              || status == "review" || status == "waiting_for"
  {
  }

  function IsTracked(): Item -> bool {
    (i: Item) => Tracked(i.status)
  }

  lemma {:induction false} NextItem(sorted: seq<Item>, i: nat, status: string)
    requires i < |sorted|
    ensures Cards(Filter(sorted[..i + 1], WithStatus(status)))
         == Cards(Filter(sorted[..i], WithStatus(status))) + (if status == sorted[i].status then [CardOf(sorted[i])] else [])
  {
    assert sorted[..i + 1] == sorted[..i] + [sorted[i]];
  }

  /** Cards of the sorted items by status; items of other statuses are left out. */
  method Group(sorted: seq<Item>, statuses: seq<string>) returns (columns: map<string, seq<Entry>>)
    ensures forall s :: s in columns <==> s in statuses
    ensures forall s :: s in columns ==> columns[s] == Cards(Filter(sorted, WithStatus(s)))
  {
    columns := map s | s in statuses :: [];
    for i := 0 to |sorted|
      invariant forall s :: s in columns <==> s in statuses
      invariant forall s :: s in columns ==> columns[s] == Cards(Filter(sorted[..i], WithStatus(s)))
    {
      forall s | s in columns
        ensures Cards(Filter(sorted[..i + 1], WithStatus(s)))
             == columns[s] + (if s == sorted[i].status then [CardOf(sorted[i])] else [])
      {
        NextItem(sorted, i, s);
      }
      var status := sorted[i].status;
      if status in columns {
        columns := columns[status := columns[status] + [CardOf(sorted[i])]];
      }
    }
    assert sorted[..|sorted|] == sorted;
  }

  /** Each column cut to the cap, with a count of the rest. */
  method Cap(columns: map<string, seq<Entry>>, statuses: seq<string>, cap: int)
    returns (result: map<string, seq<Entry>>)
    requires forall s :: s in statuses ==> s in columns
    ensures forall s :: s in result <==> s in statuses
    ensures forall s :: s in result ==> result[s] == Capped(columns[s], cap)
  {
    result := map[];
    for k := 0 to |statuses|
      invariant forall j :: 0 <= j < k ==> statuses[j] in result
      invariant forall s :: s in result ==> s in statuses
      invariant forall s :: s in result ==> result[s] == Capped(columns[s], cap)
    {
      var col := columns[statuses[k]];
      var total := |col|;
      var entries := if total > cap then Slice(col, cap) + [More(total - cap)] else col;
      result := result[statuses[k] := entries];
    }
  }

  function Capped(col: seq<Entry>, cap: int): seq<Entry> {
    if |col| > cap then Slice(col, cap) + [More(|col| - cap)] else col
  }

  lemma {:induction false} CapsCards(column: seq<Item>, cap: int)
    ensures Capped(Cards(column), cap) == Entries(column, cap)
  {
    assert Slice(Cards(column), cap) == Cards(Slice(column, cap));
  }

  method FormatBoardSnapshot(items: seq<Item>, projectId: string, projectName: string, cap: int)
    returns (snapshot: Snapshot)
    ensures snapshot.projectId == projectId && snapshot.projectName == projectName
    ensures forall s :: s in snapshot.columns <==> Tracked(s)
    ensures forall s :: s in snapshot.columns ==> snapshot.columns[s] == Entries(ColumnOf(items, s), cap)
    ensures cap >= 0 ==> forall s :: s in snapshot.columns ==> ShowsFirst(items, s, cap, snapshot.columns[s])
  {
    var columns := Group(Sort(items, NotAfter), TRACKED_STATUSES);
    var capped := Cap(columns, TRACKED_STATUSES, cap);
    forall s | s in capped ensures capped[s] == Entries(ColumnOf(items, s), cap) {
      CapsCards(ColumnOf(items, s), cap);
    }
    if cap >= 0 {
      forall s | s in capped ensures ShowsFirst(items, s, cap, capped[s]) {
        EntriesShowFirst(items, s, cap);
      }
    }
    snapshot := Snapshot(projectId, projectName, capped);
  }

  // ---------------------------------------------------------------- what a column shows

  function Listed(entries: seq<Entry>): nat {
    if entries == [] then 0
    else Listed(entries[..|entries| - 1]) + (if entries[|entries| - 1].Card? then 1 else 0)
  }

  function Hidden(entries: seq<Entry>): int {
    if entries == [] then 0
    else Hidden(entries[..|entries| - 1]) + (if entries[|entries| - 1].More? then entries[|entries| - 1].hidden else 0)
  }

  lemma {:induction false} CardsCount(items: seq<Item>)
    ensures Listed(Cards(items)) == |items| && Hidden(Cards(items)) == 0
  {
    if items == [] {
    } else {
      assert Cards(items)[..|items| - 1] == Cards(items[..|items| - 1]);
      CardsCount(items[..|items| - 1]);
    }
  }

  /** Cards and the hidden count add up to the column exactly for a cap that is not negative. */
  lemma {:induction false} ConservesIff(column: seq<Item>, cap: int)
    ensures Listed(Entries(column, cap)) + Hidden(Entries(column, cap)) == |column| <==> cap >= 0
  {
    CardsCount(column);
    var shown := Slice(column, cap);
    CardsCount(shown);
    var entries := Cards(shown) + [More(|column| - cap)];
    assert entries[..|shown|] == Cards(shown);
  }

  lemma {:induction false} ColumnIsSortedFilter(items: seq<Item>, status: string)
    ensures ColumnOf(items, status) == Sort(Filter(items, WithStatus(status)), NotAfter)
    ensures SortedBy(ColumnOf(items, status), NotAfter)
    ensures |ColumnOf(items, status)| == |Filter(items, WithStatus(status))|
  {
    NotAfterIsPreorder();
    var f := Filter(items, WithStatus(status));
    FilterSort(items, WithStatus(status), NotAfter);
    SortSorts(f, NotAfter);
    assert |multiset(Sort(f, NotAfter))| == |multiset(f)|;
  }

  /** Every item of the status is listed or counted: nothing is lost on the way to the snapshot. */
  lemma {:induction false} SnapshotConserves(items: seq<Item>, status: string, cap: int)
    requires cap >= 0
    ensures var entries := Entries(ColumnOf(items, status), cap);
            Listed(entries) + Hidden(entries) == |Filter(items, WithStatus(status))|
  {
    ColumnIsSortedFilter(items, status);
    ConservesIff(ColumnOf(items, status), cap);
  }

  /**
   The listed cards are the first cap of the status's items, stably sorted by key, and no
   hidden item comes before a listed one.
   */
  lemma {:induction false} ListedAreFirst(items: seq<Item>, status: string, cap: nat)
    ensures var column := ColumnOf(items, status);
            var shown := if |column| > cap then cap else |column|;
            && column == Sort(Filter(items, WithStatus(status)), NotAfter)
            && Cards(column[..shown]) <= Entries(column, cap)
            && (forall i, k :: 0 <= i < shown <= k < |column| ==> NotAfter(column[i], column[k]))
  {
    ColumnIsSortedFilter(items, status);
    var column := ColumnOf(items, status);
    assert column[..|column|] == column;
  }

  /** By sort order, a missing one being 0, and then by time of creation. */
  ghost predicate ComesBefore(a: Item, b: Item) {
    var x := if a.sortOrder.Some? then a.sortOrder.value else 0.0;
    var y := if b.sortOrder.Some? then b.sortOrder.value else 0.0;
    x < y || (x == y && (a.createdAt == b.createdAt || StrLess(a.createdAt, b.createdAt)))
  }

  /** The items of that status, each as often as it is there, in the order of the board. */
  ghost predicate IsColumn(column: seq<Item>, items: seq<Item>, status: string) {
    && (forall x: Item :: multiset(column)[x] == if x.status == status then multiset(items)[x] else 0)
    && (forall i, k :: 0 <= i < k < |column| ==> ComesBefore(column[i], column[k]))
  }

  /** The first cap of them as cards, with the first 60 characters of the title, and how many are left. */
  ghost predicate ShowsCards(column: seq<Item>, cap: nat, entries: seq<Entry>) {
    && |entries| == (if |column| > cap then cap + 1 else |column|)
    && (forall i :: 0 <= i < |column| && i < cap ==>
          entries[i].Card? && entries[i].id == column[i].id && entries[i].title <= column[i].title
          && |entries[i].title| == if |column[i].title| < 60 then |column[i].title| else 60)
    && (|column| > cap ==> entries[cap] == More(|column| - cap))
  }

  ghost predicate ShowsFirst(items: seq<Item>, status: string, cap: nat, entries: seq<Entry>) {
    exists column :: IsColumn(column, items, status) && ShowsCards(column, cap, entries)
  }

  lemma {:induction false} FilterCounts(items: seq<Item>, status: string, x: Item)
    ensures multiset(Filter(items, WithStatus(status)))[x] == if x.status == status then multiset(items)[x] else 0
  {
    if items == [] {
    } else {
      var n := |items| - 1;
      assert items == items[..n] + [items[n]];
      FilterCounts(items[..n], status, x);
    }
  }

  lemma {:induction false} ColumnIsColumn(items: seq<Item>, status: string)
    ensures IsColumn(ColumnOf(items, status), items, status)
  {
    var column := ColumnOf(items, status);
    NotAfterIsPreorder();
    ColumnIsSortedFilter(items, status);
    SortSorts(Filter(items, WithStatus(status)), NotAfter);
    forall x: Item ensures multiset(column)[x] == if x.status == status then multiset(items)[x] else 0 {
      FilterCounts(items, status, x);
    }
    forall i, k | 0 <= i < k < |column| ensures ComesBefore(column[i], column[k]) {
      StrLessTotal(column[i].createdAt, column[k].createdAt);
    }
  }

  lemma {:induction false} EntriesShowFirst(items: seq<Item>, status: string, cap: nat)
    ensures ShowsFirst(items, status, cap, Entries(ColumnOf(items, status), cap))
  {
    ColumnIsColumn(items, status);
    assert ShowsCards(ColumnOf(items, status), cap, Entries(ColumnOf(items, status), cap));
  }

  /** Items with equal keys stay in the order they came in. */
  lemma {:induction false} TiesKeepTheirOrder(items: seq<Item>, status: string, tied: Item)
    ensures Filter(ColumnOf(items, status), Tied(tied, NotAfter))
         == Filter(Filter(items, WithStatus(status)), Tied(tied, NotAfter))
  {
    NotAfterIsPreorder();
    ColumnIsSortedFilter(items, status);
    SortIsStable(Filter(items, WithStatus(status)), tied, NotAfter);
  }

  datatype Key = Key(sortOrder: real, createdAt: string)

  function Keys(items: seq<Item>): (k: seq<Key>)
    ensures |k| == |items|
    ensures forall i :: 0 <= i < |items| ==> k[i] == Key(items[i].sortOrder.GetOr(0.0), items[i].createdAt)
  {
    seq(|items|, i requires 0 <= i < |items| => Key(items[i].sortOrder.GetOr(0.0), items[i].createdAt))
  }

  predicate KeyLeq(a: Key, b: Key) {
    a.sortOrder < b.sortOrder || (a.sortOrder == b.sortOrder && !StrLess(b.createdAt, a.createdAt))
  }

  lemma {:induction false} KeysDoNotTie()
    ensures Antisymmetric(KeyLeq)
  {
    forall a: Key, b: Key | KeyLeq(a, b) && KeyLeq(b, a) ensures a == b {
      StrLessTotal(a.createdAt, b.createdAt);
    }
  }

  lemma {:induction false} KeysInsert(front: seq<Item>, x: Item, back: seq<Item>)
    ensures multiset(Keys(front + [x] + back)) == multiset(Keys(front + back)) + multiset(Keys([x]))
  {
    assert Keys(front + [x] + back) == Keys(front) + Keys([x]) + Keys(back);
    assert Keys(front + back) == Keys(front) + Keys(back);
  }

  lemma {:induction false} KeysPermuted(s: seq<Item>, t: seq<Item>)
    requires multiset(s) == multiset(t)
    ensures multiset(Keys(s)) == multiset(Keys(t))
  {
    assert |s| == |multiset(s)| == |multiset(t)| == |t|;
    if s == [] {
    } else {
      assert s[0] in multiset(t);
      var i :| 0 <= i < |t| && t[i] == s[0];
      WithoutElement(s, 0);
      WithoutElement(t, i);
      KeysPermuted(s[..0] + s[1..], t[..i] + t[i + 1..]);
      KeysInsert(s[..0], s[0], s[1..]);
      KeysInsert(t[..i], t[i], t[i + 1..]);
    }
  }

  lemma {:induction false} SortedKeysAgree(s: seq<Item>, t: seq<Item>)
    requires SortedBy(s, NotAfter) && SortedBy(t, NotAfter) && multiset(s) == multiset(t)
    ensures Keys(s) == Keys(t)
  {
    KeysDoNotTie();
    KeysPermuted(s, t);
    assert forall i, k :: 0 <= i < k < |s| ==> NotAfter(s[i], s[k]) ==> KeyLeq(Keys(s)[i], Keys(s)[k]);
    assert forall i, k :: 0 <= i < k < |t| ==> NotAfter(t[i], t[k]) ==> KeyLeq(Keys(t)[i], Keys(t)[k]);
    SortedWithoutTies(Keys(s), Keys(t), KeyLeq);
  }

  lemma {:induction false} SameTrackedItems(items: seq<Item>, rows: seq<Item>, status: string)
    requires Tracked(status) && multiset(rows) == multiset(Filter(items, IsTracked()))
    ensures multiset(Filter(rows, WithStatus(status))) == multiset(ColumnOf(items, status))
  {
    var p := WithStatus(status);
    FilterPermuted(rows, Filter(items, IsTracked()), p);
    FilterFilter(items, IsTracked(), p);
    FilterCongruent(items, Both(IsTracked(), p), p);
    NotAfterIsPreorder();
    ColumnIsSortedFilter(items, status);
    SortSorts(Filter(items, p), NotAfter);
  }

  /**
   The service's own snapshot, from rows the database selected by status and ordered by key, has
   in each column the same items as the client's, with the same keys at every place, and so the
   same cards at every place if no two of them have the same key.
   */
  lemma {:induction false} BothBackendsAgree(items: seq<Item>, rows: seq<Item>, status: string)
    requires Tracked(status)
    requires SortedBy(rows, NotAfter) && multiset(rows) == multiset(Filter(items, IsTracked()))
    ensures var theirs, ours := Filter(rows, WithStatus(status)), ColumnOf(items, status);
            && multiset(theirs) == multiset(ours) && Keys(theirs) == Keys(ours)
            && (StrictlySorted(ours, NotAfter) ==> theirs == ours)
  {
    var theirs, ours := Filter(rows, WithStatus(status)), ColumnOf(items, status);
    SameTrackedItems(items, rows, status);
    FilterSorted(rows, WithStatus(status), NotAfter);
    ColumnIsSortedFilter(items, status);
    SortedKeysAgree(theirs, ours);
    if StrictlySorted(ours, NotAfter) {
      SortedIsUnique(theirs, ours, NotAfter);
    }
  }
}
