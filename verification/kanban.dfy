/**
 The kanban board: items grouped into columns by status and sorted within them, and the sort
 order a dropped card gets from its new neighbours. Sort orders are exact numbers.
 */
module Kanban {
  import opened Sorting
  import opened Wrappers

  datatype Status =
    | Inbox | New | Ready | NextAction | WaitingFor | SomedayMaybe | Active | Review | Done

  datatype Item = Item(id: string, status: Status, sortOrder: real, title: string)

  datatype Column = NewColumn | ReadyColumn | InProgressColumn | ReviewColumn | WaitingColumn

  function Statuses(c: Column): set<Status> {
    match c
    case NewColumn => {New}
    case ReadyColumn => {Ready, NextAction}
    case InProgressColumn => {Active}
    case ReviewColumn => {Review}
    case WaitingColumn => {WaitingFor}
  }

  function DefaultStatus(c: Column): Status {
    match c
    case NewColumn => New
    case ReadyColumn => Ready
    case InProgressColumn => Active
    case ReviewColumn => Review
    case WaitingColumn => WaitingFor
  }

  predicate Leq(a: Item, b: Item) {
    a.sortOrder <= b.sortOrder
  }

  function InColumn(c: Column): Item -> bool {
    (i: Item) => i.status in Statuses(c)
  }

  function ColumnItems(items: seq<Item>, c: Column): seq<Item> {
    Sort(Filter(items, InColumn(c)), Leq)
  }

  function Not(id: string): Item -> bool {
    (i: Item) => i.id != id
  }

  /** A number between the neighbours, or 1000 beyond the first or last item. */
  function ComputeSortOrder(items: seq<Item>, index: int): real {
    if items == [] then 1000.0
    else if index <= 0 then items[0].sortOrder - 1000.0
    else if index >= |items| then items[|items| - 1].sortOrder + 1000.0
    else (items[index - 1].sortOrder + items[index].sortOrder) / 2.0
  }

  /** `items.map(...)`: the card with that id gets the status and sort order. */
  function Move(items: seq<Item>, id: string, status: Status, order: real): (r: seq<Item>)
    ensures |r| == |items|
    ensures forall i :: 0 <= i < |items| ==>
              r[i] == if items[i].id == id then items[i].(status := status, sortOrder := order) else items[i]
  {
    seq(|items|, i requires 0 <= i < |items| =>
      if items[i].id == id then items[i].(status := status, sortOrder := order) else items[i])
  }

  /** Where a card is let go: outside every column, in one the board cannot drop into, or in a column. */
  datatype Target = Outside | NoDefault | Into(column: Column, index: int)

  /** The request of a drop: the card, the column whose default status it gets, and its sort order. */
  datatype Patch = Patch(id: string, column: Column, order: real)

  /** The change a drop asks for, given what the board displays. */
  function PatchOf(display: seq<Item>, id: string, source: Target, target: Target): Option<Patch> {
    if !target.Into? || source == target then None
    else
      var others := Filter(ColumnItems(display, target.column), Not(id));
      Some(Patch(id, target.column, ComputeSortOrder(others, target.index)))
  }

  function Patched(items: seq<Item>, patch: Option<Patch>): seq<Item> {
    if patch.None? then items else Move(items, patch.value.id, DefaultStatus(patch.value.column), patch.value.order)
  }

  class Board {
    var items: seq<Item>
    var optimistic: Option<seq<Item>>

    constructor (items: seq<Item>)
      ensures this.items == items && optimistic == None
    {
      this.items := items;
      optimistic := None;
    }

    function Display(): seq<Item>
      reads this
    {
      optimistic.GetOr(items)
    }

    /** Up to the request to the server: the change is computed from the display, but shown on top of the items. */
    method Drop(id: string, source: Target, target: Target) returns (patch: Option<Patch>)
      modifies this`optimistic
      ensures patch == PatchOf(old(Display()), id, source, target)
      ensures optimistic == if patch.None? then old(optimistic) else Some(Patched(items, patch))
    {
      if !target.Into? {
        return None;
      }
      if source == target {
        return None;
      }
      var status := DefaultStatus(target.column);
      var others := Filter(ColumnItems(Display(), target.column), Not(id));
      var order := ComputeSortOrder(others, target.index);
      optimistic := Some(Move(items, id, status, order));
      patch := Some(Patch(id, target.column, order));
    }

    /** The refresh after the request. */
    method Settle(refreshed: seq<Item>)
      modifies this
      ensures items == refreshed && optimistic == None
    {
      items := refreshed;
      optimistic := None;
    }

    /** A drop on a settled board, accepted by the server or refused. */
    method DropAndSettle(server: seq<Item>, id: string, source: Target, target: Target, accepted: bool)
      returns (server': seq<Item>)
      requires optimistic == None && items == server
      modifies this
      ensures server' == if accepted then Dropped(server, id, source, target) else server
      ensures items == server' && optimistic == None
    {
      var patch := Drop(id, source, target);
      server' := if accepted then Patched(server, patch) else server;
      Settle(server');
    }
  }

  /** What a drop makes of a settled board. */
  function Dropped(items: seq<Item>, id: string, source: Target, target: Target): seq<Item> {
    Patched(items, PatchOf(items, id, source, target))
  }

  ghost predicate UniqueIds(items: seq<Item>) {
    forall i, k :: 0 <= i < k < |items| ==> items[i].id != items[k].id
  }

  ghost predicate Strict(column: seq<Item>) {
    StrictlySorted(column, Leq)
  }

  function Clamp(index: int, n: nat): nat {
    if index < 0 then 0 else if index > n then n else index
  }

  lemma {:induction false} LeqIsPreorder()
    ensures TotalPreorder(Leq)
  {
  }

  lemma {:induction false} ColumnIsSorted(items: seq<Item>, c: Column)
    ensures SortedBy(ColumnItems(items, c), Leq)
    ensures multiset(ColumnItems(items, c)) == multiset(Filter(items, InColumn(c)))
  {
    LeqIsPreorder();
    SortSorts(Filter(items, InColumn(c)), Leq);
  }

  lemma {:induction false} ColumnWithout(items: seq<Item>, c: Column, id: string)
    ensures Filter(ColumnItems(items, c), Not(id)) == Sort(Filter(Filter(items, InColumn(c)), Not(id)), Leq)
    ensures multiset(Filter(ColumnItems(items, c), Not(id))) == multiset(Filter(Filter(items, InColumn(c)), Not(id)))
  {
    LeqIsPreorder();
    FilterSort(Filter(items, InColumn(c)), Not(id), Leq);
    SortSorts(Filter(Filter(items, InColumn(c)), Not(id)), Leq);
  }

  // ---------------------------------------------------------------- one drop

  /** The new sort order fits strictly between the neighbours. */
  lemma {:induction false} MidpointFits(others: seq<Item>, index: int, card: Item)
    requires Strict(others) && card.sortOrder == ComputeSortOrder(others, index)
    ensures var k := Clamp(index, |others|); Strict(others[..k] + [card] + others[k..])
  {
    var k := Clamp(index, |others|);
    var r := others[..k] + [card] + others[k..];
    forall i | 0 <= i < k ensures others[i].sortOrder < card.sortOrder {
      assert Leq(others[i], others[k - 1]);
      if k < |others| {
        assert !Leq(others[k], others[k - 1]);
      }
    }
    forall i | k <= i < |others| ensures card.sortOrder < others[i].sortOrder {
      assert Leq(others[k], others[i]);
      if k > 0 {
        assert !Leq(others[k], others[k - 1]);
      }
    }
  }

  /** One element x that q rejects, between a and b, which q accepts. */
  lemma {:induction false} Around(a: seq<Item>, x: Item, b: seq<Item>, p: Item -> bool, q: Item -> bool)
    requires !q(x) && (forall i :: 0 <= i < |a| ==> q(a[i])) && (forall i :: 0 <= i < |b| ==> q(b[i]))
    ensures Filter(Filter(a + ([x] + b), p), q) == Filter(a, p) + Filter(b, p)
  {
    FilterFilter(a + ([x] + b), p, q);
    var both := Both(p, q);
    FilterConcat(a, [x] + b, both);
    FilterConcat([x], b, both);
    assert [] + Filter(b, both) == Filter(b, both);
    FilterCongruent(a, p, both);
    FilterCongruent(b, p, both);
  }

  lemma {:induction false} WithMiddle(a: seq<Item>, x: Item, b: seq<Item>, p: Item -> bool)
    ensures var now := Filter(a + ([x] + b), p);
            && (!p(x) ==> now == Filter(a, p) + Filter(b, p))
            && (p(x) ==> multiset(now) == multiset(Filter(a, p) + Filter(b, p)) + multiset{x})
  {
    FilterConcat(a, [x] + b, p);
    FilterConcat([x], b, p);
    assert [] + Filter(b, p) == Filter(b, p);
  }

  lemma {:induction false} SplitReplaced(a: seq<Item>, was: Item, card: Item, b: seq<Item>, p: Item -> bool,
                                         q: Item -> bool)
    requires !q(was) && !q(card) && (forall i :: 0 <= i < |a| ==> q(a[i])) && (forall i :: 0 <= i < |b| ==> q(b[i]))
    ensures var rest := Filter(Filter(a + ([was] + b), p), q);
            var now := Filter(a + ([card] + b), p);
            && Filter(now, q) == rest
            && (p(card) ==> multiset(now) == multiset(rest) + multiset{card})
            && (!p(card) ==> now == rest)
  {
    Around(a, was, b, p, q);
    Around(a, card, b, p, q);
    WithMiddle(a, card, b, p);
  }

  lemma {:induction false} SplitAt(items: seq<Item>, j: nat, card: Item)
    requires j < |items|
    ensures items == items[..j] + ([items[j]] + items[j + 1..])
    ensures items[j := card] == items[..j] + ([card] + items[j + 1..])
  {
  }

  /** Replacing one card of a list, seen through a column. */
  lemma {:induction false} FilterReplaced(items: seq<Item>, j: nat, card: Item, c: Column)
    requires UniqueIds(items) && j < |items| && card.id == items[j].id
    ensures var rest := Filter(Filter(items, InColumn(c)), Not(card.id));
            var now := Filter(items[j := card], InColumn(c));
            && Filter(now, Not(card.id)) == rest
            && (InColumn(c)(card) ==> multiset(now) == multiset(rest) + multiset{card})
            && (!InColumn(c)(card) ==> now == rest)
  {
    var a, b := items[..j], items[j + 1..];
    SplitAt(items, j, card);
    forall i | 0 <= i < |b| ensures Not(card.id)(b[i]) {
      assert b[i] == items[j + 1 + i];
    }
    SplitReplaced(a, items[j], card, b, InColumn(c), Not(card.id));
  }

  lemma {:induction false} MoveIsReplace(items: seq<Item>, j: nat, status: Status, order: real)
    requires UniqueIds(items) && j < |items|
    ensures Move(items, items[j].id, status, order) == items[j := items[j].(status := status, sortOrder := order)]
  {
    forall i | 0 <= i < |items| && i != j ensures items[i].id != items[j].id {
    }
  }

  lemma {:induction false} ReplacedColumn(items: seq<Item>, j: nat, card: Item, c: Column)
    requires UniqueIds(items) && j < |items| && card.id == items[j].id
    ensures Filter(ColumnItems(items[j := card], c), Not(card.id)) == Filter(ColumnItems(items, c), Not(card.id))
    ensures card.status !in Statuses(c) ==> ColumnItems(items[j := card], c) == Filter(ColumnItems(items, c), Not(card.id))
    ensures card.status in Statuses(c) ==>
              multiset(ColumnItems(items[j := card], c)) == multiset(Filter(ColumnItems(items, c), Not(card.id))) + multiset{card}
  {
    FilterReplaced(items, j, card, c);
    ColumnWithout(items, c, card.id);
    ColumnWithout(items[j := card], c, card.id);
    ColumnIsSorted(items[j := card], c);
  }

  lemma {:induction false} PutIn(s: seq<Item>, k: nat, x: Item)
    requires k <= |s|
    ensures multiset(s[..k] + [x] + s[k..]) == multiset(s) + multiset{x}
  {
    assert s == s[..k] + s[k..];
  }

  lemma {:induction false} ReplacedLands(items: seq<Item>, j: nat, card: Item, c: Column, index: int)
    requires UniqueIds(items) && j < |items| && card.id == items[j].id && card.status in Statuses(c)
    requires Strict(Filter(ColumnItems(items, c), Not(card.id)))
    requires card.sortOrder == ComputeSortOrder(Filter(ColumnItems(items, c), Not(card.id)), index)
    ensures var others := Filter(ColumnItems(items, c), Not(card.id));
            var k := Clamp(index, |others|);
            ColumnItems(items[j := card], c) == others[..k] + [card] + others[k..]
            && Strict(ColumnItems(items[j := card], c))
  {
    var others := Filter(ColumnItems(items, c), Not(card.id));
    var k := Clamp(index, |others|);
    ReplacedColumn(items, j, card, c);
    MidpointFits(others, index, card);
    ColumnIsSorted(items[j := card], c);
    PutIn(others, k, card);
    SortedIsUnique(ColumnItems(items[j := card], c), others[..k] + [card] + others[k..], Leq);
  }

  /**
   The card lands at the drop index: the regrouped, re-sorted column is the one without the
   card, with the card put in at that index, provided that column was strictly ordered.
   */
  lemma {:induction false} CardLandsAtIndex(items: seq<Item>, j: nat, source: Target, c: Column, index: int)
    requires UniqueIds(items) && j < |items| && source != Into(c, index)
    requires Strict(Filter(ColumnItems(items, c), Not(items[j].id)))
    ensures var others := Filter(ColumnItems(items, c), Not(items[j].id));
            var k := Clamp(index, |others|);
            var card := items[j].(status := DefaultStatus(c), sortOrder := ComputeSortOrder(others, index));
            var after := ColumnItems(Dropped(items, items[j].id, source, Into(c, index)), c);
            after == others[..k] + [card] + others[k..] && Strict(after)
  {
    var others := Filter(ColumnItems(items, c), Not(items[j].id));
    var card := items[j].(status := DefaultStatus(c), sortOrder := ComputeSortOrder(others, index));
    MoveIsReplace(items, j, card.status, card.sortOrder);
    ReplacedLands(items, j, card, c, index);
  }

  /** Which cards each column shows. */
  lemma {:induction false} ColumnShows(items: seq<Item>, c: Column, x: Item)
    ensures x in ColumnItems(items, c) <==>
              x in items
              && match c
                 case NewColumn => x.status == New
                 case ReadyColumn => x.status == Ready || x.status == NextAction
                 case InProgressColumn => x.status == Active
                 case ReviewColumn => x.status == Review
                 case WaitingColumn => x.status == WaitingFor
  {
    ColumnMembers(items, c);
  }

  /**
   What the dropped card becomes: its id and title stay, the column gives it its first status,
   and its sort order is 1000 in an empty column, 1000 off the first or last card at either end,
   and half way between its neighbours otherwise.
   */
  lemma {:induction false} DroppedCardBecomes(items: seq<Item>, j: nat, source: Target, c: Column, index: int)
    requires UniqueIds(items) && j < |items| && source != Into(c, index)
    ensures var others := Filter(ColumnItems(items, c), Not(items[j].id));
            var card := Dropped(items, items[j].id, source, Into(c, index))[j];
            && card.id == items[j].id && card.title == items[j].title
            && (match c
                case NewColumn => card.status == New
                case ReadyColumn => card.status == Ready
                case InProgressColumn => card.status == Active
                case ReviewColumn => card.status == Review
                case WaitingColumn => card.status == WaitingFor)
            && (if others == [] then card.sortOrder == 1000.0
                else if index <= 0 then others[0].sortOrder - card.sortOrder == 1000.0
                else if index >= |others| then card.sortOrder - others[|others| - 1].sortOrder == 1000.0
                else card.sortOrder - others[index - 1].sortOrder == others[index].sortOrder - card.sortOrder)
  {
  }

  /** Every other column keeps its cards, but for the dropped one, in their order. */
  lemma {:induction false} OtherColumnsKeepTheirCards(items: seq<Item>, j: nat, source: Target, c: Column, index: int,
                                                      other: Column)
    requires UniqueIds(items) && j < |items| && source != Into(c, index) && other != c
    ensures ColumnItems(Dropped(items, items[j].id, source, Into(c, index)), other)
         == Filter(ColumnItems(items, other), Not(items[j].id))
  {
    var others := Filter(ColumnItems(items, c), Not(items[j].id));
    var card := items[j].(status := DefaultStatus(c), sortOrder := ComputeSortOrder(others, index));
    MoveIsReplace(items, j, card.status, card.sortOrder);
    ReplacedColumn(items, j, card, other);
  }

  /** The destination is strictly ordered after the drop exactly when it was without the card. */
  lemma {:induction false} StrictAfterDropIff(items: seq<Item>, j: nat, source: Target, c: Column, index: int)
    requires UniqueIds(items) && j < |items| && source != Into(c, index)
    ensures Strict(ColumnItems(Dropped(items, items[j].id, source, Into(c, index)), c))
       <==> Strict(Filter(ColumnItems(items, c), Not(items[j].id)))
  {
    var others := Filter(ColumnItems(items, c), Not(items[j].id));
    var card := items[j].(status := DefaultStatus(c), sortOrder := ComputeSortOrder(others, index));
    MoveIsReplace(items, j, card.status, card.sortOrder);
    ReplacedColumn(items, j, card, c);
    if Strict(others) {
      CardLandsAtIndex(items, j, source, c, index);
    }
    if Strict(ColumnItems(items[j := card], c)) {
      FilterStrict(ColumnItems(items[j := card], c), Not(card.id), Leq);
    }
  }

  // ---------------------------------------------------------------- any number of drops

  ghost predicate Ordered(items: seq<Item>) {
    UniqueIds(items) && forall c :: Strict(ColumnItems(items, c))
  }

  lemma {:induction false} DropKeepsOrdered(items: seq<Item>, id: string, source: Target, target: Target)
    requires Ordered(items)
    ensures Ordered(Dropped(items, id, source, target))
  {
    var patch := PatchOf(items, id, source, target);
    if patch.Some? {
      var after := Dropped(items, id, source, target);
      if j :| 0 <= j < |items| && items[j].id == id {
        MoveIsReplace(items, j, DefaultStatus(patch.value.column), patch.value.order);
        forall c ensures Strict(ColumnItems(after, c)) {
          FilterStrict(ColumnItems(items, c), Not(id), Leq);
          if c == target.column {
            CardLandsAtIndex(items, j, source, c, target.index);
          } else {
            OtherColumnsKeepTheirCards(items, j, source, target.column, target.index, c);
          }
        }
      } else {
        assert after == items;
      }
    }
  }

  datatype DropEvent = DropEvent(id: string, source: Target, target: Target, accepted: bool)

  /** The server's items after drops that each settled before the next. */
  function AfterDrops(items: seq<Item>, drops: seq<DropEvent>): seq<Item> {
    if drops == [] then items
    else
      var before := AfterDrops(items, drops[..|drops| - 1]);
      var d := drops[|drops| - 1];
      if d.accepted then Dropped(before, d.id, d.source, d.target) else before
  }

  /** Strict order survives any sequence of drops. */
  lemma {:induction false} DropsKeepOrdered(items: seq<Item>, drops: seq<DropEvent>)
    requires Ordered(items)
    ensures Ordered(AfterDrops(items, drops))
  {
    if drops == [] {
    } else {
      var before := AfterDrops(items, drops[..|drops| - 1]);
      DropsKeepOrdered(items, drops[..|drops| - 1]);
      var d := drops[|drops| - 1];
      DropKeepsOrdered(before, d.id, d.source, d.target);
    }
  }

  // ---------------------------------------------------------------- a change applied anywhere

  /** No other card of the column has this sort order. */
  ghost predicate Fits(others: seq<Item>, order: real) {
    forall x :: x in others ==> x.sortOrder != order
  }

  lemma {:induction false} StrictMembersDiffer(s: seq<Item>, x: Item, y: Item)
    requires Strict(s) && x in s && y in s && x != y
    ensures x.sortOrder != y.sortOrder
  {
    var i :| 0 <= i < |s| && s[i] == x;
    var k :| 0 <= k < |s| && s[k] == y;
    assert i < k || k < i;
  }

  /** One more card, somewhere in a sorted list: strict exactly if the rest was and the card fits. */
  lemma {:induction false} StrictWithCardIff(s: seq<Item>, others: seq<Item>, card: Item)
    requires SortedBy(s, Leq) && multiset(s) == multiset(others) + multiset{card}
    requires Filter(s, Not(card.id)) == others && forall x :: x in others ==> x != card
    ensures Strict(s) <==> Strict(others) && Fits(others, card.sortOrder)
  {
    assert forall x :: x in s <==> x in multiset(s);
    assert forall x :: x in others <==> x in multiset(others);
    if Strict(s) {
      FilterStrict(s, Not(card.id), Leq);
      forall x | x in others ensures x.sortOrder != card.sortOrder {
        StrictMembersDiffer(s, x, card);
      }
    }
    if Strict(others) && Fits(others, card.sortOrder) {
      forall i, k | 0 <= i < k < |s| ensures s[i].sortOrder != s[k].sortOrder {
        assert s[i] in s && s[k] in s;
        if s[i] == s[k] {
          OnceEach(s, others, card, i, k);
        } else if s[i] != card && s[k] != card {
          StrictMembersDiffer(others, s[i], s[k]);
        }
      }
    }
  }

  lemma {:induction false} OnceEach(s: seq<Item>, others: seq<Item>, card: Item, i: nat, k: nat)
    requires multiset(s) == multiset(others) + multiset{card} && Strict(others) && card !in others
    requires i < k < |s|
    ensures s[i] != s[k]
  {
    NoCopies(others, s[i]);
    if s[i] == s[k] {
      TwoCopies(s, i, k);
    }
  }

  lemma {:induction false} TwoCopies(s: seq<Item>, i: nat, k: nat)
    requires i < k < |s| && s[i] == s[k]
    ensures multiset(s)[s[i]] >= 2
  {
    assert s == s[..k] + [s[k]] + s[k + 1..];
    assert s[..k][i] == s[i];
    assert s[i] in multiset(s[..k]);
  }

  lemma {:induction false} NoCopies(s: seq<Item>, x: Item)
    requires Strict(s)
    ensures multiset(s)[x] <= 1
  {
    if s == [] {
    } else {
      var n := |s| - 1;
      assert s == s[..n] + [s[n]];
      NoCopies(s[..n], x);
      assert forall i :: 0 <= i < n ==> !Leq(s[n], s[i]);
      assert Leq(s[n], s[n]) && s[n] !in s[..n];
    }
  }

  /**
   Any sort order, wherever it was computed: the card's new column is strictly ordered exactly
   if it was so without the card and no other card of it has that sort order.
   */
  lemma {:induction false} StrictAfterMoveIff(items: seq<Item>, j: nat, c: Column, order: real)
    requires UniqueIds(items) && j < |items|
    ensures var others := Filter(ColumnItems(items, c), Not(items[j].id));
            Strict(ColumnItems(Move(items, items[j].id, DefaultStatus(c), order), c))
            <==> Strict(others) && Fits(others, order)
  {
    var card := items[j].(status := DefaultStatus(c), sortOrder := order);
    var others := Filter(ColumnItems(items, c), Not(items[j].id));
    MoveIsReplace(items, j, card.status, order);
    ReplacedColumn(items, j, card, c);
    ColumnIsSorted(items[j := card], c);
    FilterMembers(ColumnItems(items, c), Not(card.id));
    StrictWithCardIff(ColumnItems(items[j := card], c), others, card);
  }

  /** What a change does to the other columns does not depend on its sort order. */
  lemma {:induction false} OtherColumnAfterMove(items: seq<Item>, j: nat, c: Column, order: real, other: Column)
    requires UniqueIds(items) && j < |items| && other != c
    ensures ColumnItems(Move(items, items[j].id, DefaultStatus(c), order), other)
         == Filter(ColumnItems(items, other), Not(items[j].id))
  {
    MoveIsReplace(items, j, DefaultStatus(c), order);
    ReplacedColumn(items, j, items[j].(status := DefaultStatus(c), sortOrder := order), other);
  }

  ghost predicate HasCard(items: seq<Item>, id: string) {
    exists j :: 0 <= j < |items| && items[j].id == id
  }

  /** The items lack the change's card, or no other card of the column it goes to has its sort order. */
  ghost predicate FitsInto(items: seq<Item>, p: Patch) {
    HasCard(items, p.id) ==> Fits(Filter(ColumnItems(items, p.column), Not(p.id)), p.order)
  }

  /** A change computed on whatever the board displayed leaves ordered items ordered exactly if it fits. */
  lemma {:induction false} OrderedAfterChangeIff(items: seq<Item>, p: Patch)
    requires Ordered(items)
    ensures Ordered(Patched(items, Some(p))) <==> FitsInto(items, p)
  {
    var id, c, order := p.id, p.column, p.order;
    var after := Patched(items, Some(p));
    if j :| 0 <= j < |items| && items[j].id == id {
      StrictAfterMoveIff(items, j, c, order);
      FilterStrict(ColumnItems(items, c), Not(id), Leq);
      forall other | other != c ensures Strict(ColumnItems(after, other)) {
        OtherColumnAfterMove(items, j, c, order, other);
        FilterStrict(ColumnItems(items, other), Not(id), Leq);
      }
    } else {
      assert after == items;
    }
  }

  // ---------------------------------------------------------------- drops that overlap

  /**
   A board and the server behind it: sent are the requests that have not arrived yet. They arrive
   in any order, a refresh may come at any time, and drops wait for neither.
   */
  datatype Ui = Ui(items: seq<Item>, optimistic: Option<seq<Item>>, server: seq<Item>, sent: seq<Patch>)

  datatype UiEvent = Let(id: string, source: Target, target: Target) | Arrive(k: nat, accepted: bool) | Refresh

  function Shown(ui: Ui): seq<Item> {
    ui.optimistic.GetOr(ui.items)
  }

  function UiStep(ui: Ui, e: UiEvent): Ui {
    match e
    case Let(id, source, target) =>
      var patch := PatchOf(Shown(ui), id, source, target);
      if patch.None? then ui
      else ui.(optimistic := Some(Patched(ui.items, patch)), sent := ui.sent + [patch.value])
    case Arrive(k, accepted) =>
      if k >= |ui.sent| then ui
      else ui.(server := if accepted then Patched(ui.server, Some(ui.sent[k])) else ui.server,
               sent := ui.sent[..k] + ui.sent[k + 1..])
    case Refresh =>
      ui.(items := ui.server, optimistic := None)
  }

  function UiAfter(ui: Ui, events: seq<UiEvent>): Ui {
    if events == [] then ui else UiStep(UiAfter(ui, events[..|events| - 1]), events[|events| - 1])
  }

  /** If the event is an accepted change of a card the server has, the change fits into its column there. */
  ghost predicate Welcome(ui: Ui, e: UiEvent) {
    e.Arrive? && e.accepted && e.k < |ui.sent| ==> FitsInto(ui.server, ui.sent[e.k])
  }

  ghost predicate AllWelcome(ui: Ui, events: seq<UiEvent>) {
    events == []
    || (AllWelcome(ui, events[..|events| - 1]) && Welcome(UiAfter(ui, events[..|events| - 1]), events[|events| - 1]))
  }

  /** The server's columns are strictly ordered after every one of the events. */
  ghost predicate OrderedThroughout(ui: Ui, events: seq<UiEvent>) {
    Ordered(UiAfter(ui, events).server) && (events == [] || OrderedThroughout(ui, events[..|events| - 1]))
  }

  lemma {:induction false} ServerStaysOrderedIff(ui: Ui, e: UiEvent)
    requires Ordered(ui.server)
    ensures Ordered(UiStep(ui, e).server) <==> Welcome(ui, e)
  {
    if e.Arrive? && e.accepted && e.k < |ui.sent| {
      OrderedAfterChangeIff(ui.server, ui.sent[e.k]);
    }
  }

  /**
   Any drops, requests and refreshes in any order: the server's columns are strictly ordered all
   the way exactly if every change it accepts fits, on arrival, among the cards it then has.
   */
  lemma {:induction false} ServerOrderedIff(ui: Ui, events: seq<UiEvent>)
    requires Ordered(ui.server)
    ensures OrderedThroughout(ui, events) <==> AllWelcome(ui, events)
  {
    if events == [] {
    } else {
      var before := events[..|events| - 1];
      ServerOrderedIff(ui, before);
      if OrderedThroughout(ui, before) {
        ServerStaysOrderedIff(UiAfter(ui, before), events[|events| - 1]);
      }
    }
  }

  /** Drops that each settle before the next, as events of the board. */
  function Settled(drops: seq<DropEvent>): seq<UiEvent> {
    if drops == [] then []
    else
      var d := drops[|drops| - 1];
      Settled(drops[..|drops| - 1]) + [Let(d.id, d.source, d.target)] + [Arrive(0, d.accepted)] + [Refresh]
  }

  lemma {:induction false} UiAfterOne(ui: Ui, events: seq<UiEvent>, e: UiEvent)
    ensures UiAfter(ui, events + [e]) == UiStep(UiAfter(ui, events), e)
  {
    assert (events + [e])[..|events|] == events;
  }

  /** Settled drops are such a run of board and server, which leaves both with the same items. */
  lemma {:induction false} SettledDropsAreEvents(items: seq<Item>, drops: seq<DropEvent>)
    ensures var after := AfterDrops(items, drops);
            UiAfter(Ui(items, None, items, []), Settled(drops)) == Ui(after, None, after, [])
  {
    if drops == [] {
    } else {
      var d := drops[|drops| - 1];
      SettledDropsAreEvents(items, drops[..|drops| - 1]);
      var start, before := Ui(items, None, items, []), Settled(drops[..|drops| - 1]);
      UiAfterOne(start, before, Let(d.id, d.source, d.target));
      UiAfterOne(start, before + [Let(d.id, d.source, d.target)], Arrive(0, d.accepted));
      UiAfterOne(start, before + [Let(d.id, d.source, d.target)] + [Arrive(0, d.accepted)], Refresh);
    }
  }

  lemma {:induction false} OthersOfColumn(items: seq<Item>, p: Patch)
    ensures forall x :: x in Filter(ColumnItems(items, p.column), Not(p.id))
                        <==> x in items && x.status in Statuses(p.column) && x.id != p.id
  {
    ColumnMembers(items, p.column);
    FilterMembers(ColumnItems(items, p.column), Not(p.id));
  }

  /** A change that fits, and a later one that fits after it: should the later one arrive first, the earlier still fits. */
  lemma {:induction false} EarlierStillFits(items: seq<Item>, p: Patch, q: Patch)
    requires UniqueIds(items) && FitsInto(items, p) && Ordered(Patched(Patched(items, Some(p)), Some(q)))
    ensures FitsInto(Patched(items, Some(q)), p)
  {
    var ahead := Patched(items, Some(q));
    if j :| 0 <= j < |ahead| && ahead[j].id == p.id {
      assert items[j].id == p.id;
      OthersOfColumn(ahead, p);
      forall x | x in Filter(ColumnItems(ahead, p.column), Not(p.id)) ensures x.sortOrder != p.order {
        var k :| 0 <= k < |ahead| && ahead[k] == x;
        EarlierIsApart(items, p, q, j, k);
      }
    }
  }

  lemma {:induction false} EarlierIsApart(items: seq<Item>, p: Patch, q: Patch, j: nat, k: nat)
    requires UniqueIds(items) && FitsInto(items, p) && Ordered(Patched(Patched(items, Some(p)), Some(q)))
    requires j < |items| && items[j].id == p.id && k < |items| && items[k].id != p.id
    requires Patched(items, Some(q))[k].status in Statuses(p.column)
    ensures Patched(items, Some(q))[k].sortOrder != p.order
  {
    if items[k].id == q.id {
      CardsApart(Patched(Patched(items, Some(p)), Some(q)), j, k, p.column);
    } else {
      OthersOfColumn(items, p);
      assert items[k] in items;
    }
  }

  lemma {:induction false} CardsApart(items: seq<Item>, j: nat, k: nat, c: Column)
    requires Ordered(items) && j < |items| && k < |items| && j != k
    requires items[j].status in Statuses(c) && items[k].status in Statuses(c)
    ensures items[j].sortOrder != items[k].sortOrder
  {
    ColumnMembers(items, c);
    assert items[j] in items && items[k] in items;
    StrictMembersDiffer(ColumnItems(items, c), items[j], items[k]);
  }

  /**
   Two drops that overlap, their requests arriving in either order: the server stays ordered
   exactly if the second is refused, or applied after the first, or fits among the items
   without it.
   */
  lemma {:induction false} TwoOverlappingDropsOrderedIff(items: seq<Item>, first: UiEvent, second: UiEvent, k: nat,
                                                         accepted: bool, accepted': bool)
    requires Ordered(items) && first.Let? && second.Let? && k < 2
    requires PatchOf(items, first.id, first.source, first.target).Some?
    requires var shown := Dropped(items, first.id, first.source, first.target);
             PatchOf(shown, second.id, second.source, second.target).Some?
    ensures var p := PatchOf(items, first.id, first.source, first.target).value;
            var q := PatchOf(Patched(items, Some(p)), second.id, second.source, second.target).value;
            var ui := UiStep(UiStep(Ui(items, None, items, []), first), second);
            var one := UiStep(ui, Arrive(k, accepted));
            var two := UiStep(one, Arrive(0, accepted'));
            && ui.sent == [p, q] && two.sent == []
            && (Ordered(one.server) && Ordered(two.server)
                <==> !(if k == 1 then accepted else accepted') || (k == 0 && accepted) || FitsInto(items, q))
  {
    var p := PatchOf(items, first.id, first.source, first.target).value;
    var q := PatchOf(Patched(items, Some(p)), second.id, second.source, second.target).value;
    DropKeepsOrdered(items, first.id, first.source, first.target);
    DropKeepsOrdered(Patched(items, Some(p)), second.id, second.source, second.target);
    OrderedAfterChangeIff(items, p);
    OrderedAfterChangeIff(items, q);
    EarlierStillFits(items, p, q);
    if FitsInto(items, q) {
      OrderedAfterChangeIff(Patched(items, Some(q)), p);
    }
    InEitherOrder(items, first, second, p, q, k, accepted, accepted');
  }

  /** The server after both requests of two drops. */
  lemma {:induction false} InEitherOrder(items: seq<Item>, first: UiEvent, second: UiEvent, p: Patch, q: Patch, k: nat,
                                         accepted: bool, accepted': bool)
    requires first.Let? && second.Let? && k < 2
    requires PatchOf(items, first.id, first.source, first.target) == Some(p)
    requires PatchOf(Patched(items, Some(p)), second.id, second.source, second.target) == Some(q)
    ensures var ui := UiStep(UiStep(Ui(items, None, items, []), first), second);
            var one := UiStep(ui, Arrive(k, accepted));
            var two := UiStep(one, Arrive(0, accepted'));
            && ui.sent == [p, q] && two.sent == [] && Shown(ui) == Patched(items, Some(q))
            && one.server == (if accepted then Patched(items, Some([p, q][k])) else items)
            && two.server == (if accepted' then Patched(one.server, Some([p, q][1 - k])) else one.server)
  {
    LetStep(Ui(items, None, items, []), first.id, first.source, first.target, p);
    LetStep(Ui(items, Some(Patched(items, Some(p))), items, [p]), second.id, second.source, second.target, q);
    assert [p] + [q] == [p, q];
  }

  lemma {:induction false} FilterAll<T>(s: seq<T>, p: T -> bool)
    requires forall i :: 0 <= i < |s| ==> p(s[i])
    ensures Filter(s, p) == s
  {
    if s == [] {
    } else {
      FilterAll(s[..|s| - 1], p);
    }
  }

  lemma {:induction false} ColumnMembers(items: seq<Item>, c: Column)
    ensures forall x :: x in ColumnItems(items, c) <==> x in items && x.status in Statuses(c)
  {
    var f := Filter(items, InColumn(c));
    ColumnIsSorted(items, c);
    FilterMembers(items, InColumn(c));
    forall x ensures x in ColumnItems(items, c) <==> x in f {
      assert x in ColumnItems(items, c) <==> x in multiset(ColumnItems(items, c));
      assert x in f <==> x in multiset(f);
    }
  }

  lemma {:induction false} ColumnIdsDiffer(items: seq<Item>, c: Column, n: nat)
    requires Ordered(items) && n < |ColumnItems(items, c)|
    ensures forall i :: 0 <= i < |ColumnItems(items, c)| && i != n ==> ColumnItems(items, c)[i].id != ColumnItems(items, c)[n].id
  {
    var col := ColumnItems(items, c);
    ColumnMembers(items, c);
    forall i | 0 <= i < |col| && i != n ensures col[i].id != col[n].id {
      assert col[i] in items && col[n] in items && col[i] != col[n];
    }
  }

  /**
   A card taken from the end of a column to its front, and before the refresh another card
   dropped at the end: the display puts the first card back where it was, level with the
   second if it had got there by a drop at the end. If the second request arrives first, the
   server has them level as well.
   */
  lemma {:induction false} OverlappingDropsTie(items: seq<Item>, c: Column, i: nat, j: nat, from: Target,
                                               from': Target, n: nat)
    requires Ordered(items) && i < |items| && j < |items| && items[j].status !in Statuses(c)
    requires n > 1 && |ColumnItems(items, c)| == n && ColumnItems(items, c)[n - 1] == items[i]
    requires items[i].sortOrder == ColumnItems(items, c)[n - 2].sortOrder + 1000.0
    requires from != Into(c, 0) && from' != Into(c, n)
    ensures var ui := UiStep(UiStep(Ui(items, None, items, []), Let(items[i].id, from, Into(c, 0))),
                             Let(items[j].id, from', Into(c, n)));
            var shown := Shown(ui);
            && UiStep(ui, Arrive(1, true)).server == shown && |shown| == |items|
            && shown[i] == items[i] && items[i].status in Statuses(c) && shown[j].status in Statuses(c)
            && shown[i].sortOrder == shown[j].sortOrder
  {
    OverlapPatch(items, c, i, j, from, from', n);
    DefaultIsOfColumn(c);
    LastIsInColumn(items, c, i, n);
    assert items[i].id != items[j].id;
    var first, second := Let(items[i].id, from, Into(c, 0)), Let(items[j].id, from', Into(c, n));
    var p := PatchOf(items, items[i].id, from, Into(c, 0)).value;
    InEitherOrder(items, first, second, p, Patch(items[j].id, c, items[i].sortOrder), 1, true, true);
  }

  lemma {:induction false} DefaultIsOfColumn(c: Column)
    ensures DefaultStatus(c) in Statuses(c)
  {
  }

  lemma {:induction false} LastIsInColumn(items: seq<Item>, c: Column, i: nat, n: nat)
    requires i < |items| && n > 0 && |ColumnItems(items, c)| == n && ColumnItems(items, c)[n - 1] == items[i]
    ensures items[i].status in Statuses(c)
  {
    ColumnMembers(items, c);
    assert ColumnItems(items, c)[n - 1] in ColumnItems(items, c);
  }

  /** With the last card at the front, the one before it is last, and the other card is still not in the column. */
  lemma {:induction false} EndIsFree(items: seq<Item>, c: Column, i: nat, j: nat, from: Target, n: nat)
    requires Ordered(items) && i < |items| && j < |items| && items[j].status !in Statuses(c) && from != Into(c, 0)
    requires n > 1 && |ColumnItems(items, c)| == n && ColumnItems(items, c)[n - 1] == items[i]
    ensures var display := Dropped(items, items[i].id, from, Into(c, 0));
            var col' := ColumnItems(display, c);
            && Ordered(display) && |col'| == n && col'[n - 1] == ColumnItems(items, c)[n - 2]
            && forall k :: 0 <= k < n ==> Not(items[j].id)(col'[k])
  {
    var col, display := ColumnItems(items, c), Dropped(items, items[i].id, from, Into(c, 0));
    FrontOfColumn(items, c, i, from, n);
    LastIsInColumn(items, c, i, n);
    NotInColumn(items, c, j, col, ColumnItems(display, c), items[i].id);
  }

  /** The second drop is computed on the display without the card at the end, and gets its place. */
  lemma {:induction false} OverlapPatch(items: seq<Item>, c: Column, i: nat, j: nat, from: Target, from': Target,
                                        n: nat)
    requires Ordered(items) && i < |items| && j < |items| && items[j].status !in Statuses(c)
    requires n > 1 && |ColumnItems(items, c)| == n && ColumnItems(items, c)[n - 1] == items[i]
    requires items[i].sortOrder == ColumnItems(items, c)[n - 2].sortOrder + 1000.0
    requires from != Into(c, 0) && from' != Into(c, n)
    ensures var display := Dropped(items, items[i].id, from, Into(c, 0));
            && Ordered(display)
            && PatchOf(display, items[j].id, from', Into(c, n)) == Some(Patch(items[j].id, c, items[i].sortOrder))
  {
    EndIsFree(items, c, i, j, from, n);
    DropAtEnd(Dropped(items, items[i].id, from, Into(c, 0)), items[j].id, from', c);
  }

  /** The last card of a column dropped at its front. */
  lemma {:induction false} FrontOfColumn(items: seq<Item>, c: Column, i: nat, from: Target, n: nat)
    requires Ordered(items) && i < |items| && from != Into(c, 0)
    requires n > 1 && |ColumnItems(items, c)| == n && ColumnItems(items, c)[n - 1] == items[i]
    ensures var col, display := ColumnItems(items, c), Dropped(items, items[i].id, from, Into(c, 0));
            var col' := ColumnItems(display, c);
            && Ordered(display) && |col'| == n && col'[0].id == items[i].id
            && (forall k :: 0 < k < n ==> col'[k] == col[k - 1])
  {
    LastTaken(items, c, n);
    DropKeepsOrdered(items, items[i].id, from, Into(c, 0));
    CardLandsAtIndex(items, i, from, c, 0);
  }

  lemma {:induction false} DropAtEnd(display: seq<Item>, id: string, from: Target, c: Column)
    requires var col := ColumnItems(display, c);
             col != [] && from != Into(c, |col|) && forall k :: 0 <= k < |col| ==> Not(id)(col[k])
    ensures var col := ColumnItems(display, c);
            PatchOf(display, id, from, Into(c, |col|)) == Some(Patch(id, c, col[|col| - 1].sortOrder + 1000.0))
  {
    FilterAll(ColumnItems(display, c), Not(id));
  }

  lemma {:induction false} LastTaken(items: seq<Item>, c: Column, n: nat)
    requires Ordered(items) && n > 0 && |ColumnItems(items, c)| == n
    ensures Filter(ColumnItems(items, c), Not(ColumnItems(items, c)[n - 1].id)) == ColumnItems(items, c)[..n - 1]
  {
    var col := ColumnItems(items, c);
    ColumnIdsDiffer(items, c, n - 1);
    assert col == col[..n - 1] + [col[n - 1]];
    FilterAll(col[..n - 1], Not(col[n - 1].id));
    assert col[..n - 1] + [] == col[..n - 1];
  }

  lemma {:induction false} NotInColumn(items: seq<Item>, c: Column, j: nat, col: seq<Item>, col': seq<Item>, id: string)
    requires UniqueIds(items) && j < |items| && items[j].status !in Statuses(c)
    requires exists i :: 0 <= i < |items| && items[i].id == id && items[i].status in Statuses(c)
    requires col == ColumnItems(items, c) && col != [] && |col'| == |col|
    requires col'[0].id == id && forall k :: 0 < k < |col'| ==> col'[k] == col[k - 1]
    ensures forall k :: 0 <= k < |col'| ==> Not(items[j].id)(col'[k])
  {
    ColumnMembers(items, c);
    forall k | 0 < k < |col'| ensures Not(items[j].id)(col'[k]) {
      assert col[k - 1] in items && col[k - 1].status in Statuses(c);
    }
  }

  lemma {:induction false} FirstStaysFirst(col: seq<Item>, id: string)
    requires col != [] && col[0].id != id
    ensures Filter(col, Not(id)) != [] && Filter(col, Not(id))[0] == col[0]
  {
    assert col == [col[0]] + col[1..];
    FilterConcat([col[0]], col[1..], Not(id));
  }

  /** The changes of three overlapping drops, the third computed without the first. */
  lemma {:induction false} ThirdPatchIsFirst(items: seq<Item>, c: Column, d: Column, x: nat, y: nat, z: nat,
                                             order: real, fromX: Target, fromZ: Target)
    requires UniqueIds(items) && x < |items| && y < |items| && z < |items| && c != d && ColumnItems(items, c) != []
    requires var first := ColumnItems(items, c)[0]; first.id != items[x].id && first.id != items[y].id && first.id != items[z].id
    requires fromX != Into(c, 0) && fromZ != Into(c, 0)
    ensures var top := ColumnItems(items, c)[0].sortOrder - 1000.0;
            && PatchOf(items, items[x].id, fromX, Into(c, 0)) == Some(Patch(items[x].id, c, top))
            && PatchOf(Patched(items, Some(Patch(items[y].id, d, order))), items[z].id, fromZ, Into(c, 0))
               == Some(Patch(items[z].id, c, top))
  {
    FirstStaysFirst(ColumnItems(items, c), items[x].id);
    var shown := Patched(items, Some(Patch(items[y].id, d, order)));
    OtherColumnAfterMove(items, y, d, order, c);
    FirstStaysFirst(ColumnItems(items, c), items[y].id);
    FirstStaysFirst(ColumnItems(shown, c), items[z].id);
  }

  /** Both cards get the order, whatever happens to a third in between. */
  lemma {:induction false} LevelCards(items: seq<Item>, c: Column, order: real, x: nat, y: nat, z: nat, between: Patch)
    requires UniqueIds(items) && x < |items| && y < |items| && z < |items| && x != y && y != z && x != z
    requires between.id == items[y].id
    ensures var server := Patched(Patched(Patched(items, Some(Patch(items[x].id, c, order))), Some(between)),
                                  Some(Patch(items[z].id, c, order)));
            && |server| == |items| && server[x].sortOrder == server[z].sortOrder == order
            && server[x].status == server[z].status == DefaultStatus(c)
  {
    assert items[x].id != items[y].id && items[y].id != items[z].id && items[x].id != items[z].id;
  }

  /**
   Three drops without a refresh, all accepted: the first card to the front of a column, another
   card into a different column, a third one to the front of the first column. The board shows
   the third drop a column that lacks the first, and the server ends with both cards level.
   */
  lemma {:induction false} ThirdDropTies(items: seq<Item>, c: Column, d: Column, x: nat, y: nat, z: nat, index: int,
                                         fromX: Target, fromY: Target, fromZ: Target)
    requires Ordered(items) && x < |items| && y < |items| && z < |items| && x != y && y != z && x != z && c != d
    requires ColumnItems(items, c) != []
    requires var first := ColumnItems(items, c)[0]; first.id != items[x].id && first.id != items[y].id && first.id != items[z].id
    requires fromX != Into(c, 0) && fromY != Into(d, index) && fromZ != Into(c, 0)
    ensures var start := Ui(items, None, items, []);
            var first, second := Let(items[x].id, fromX, Into(c, 0)), Let(items[y].id, fromY, Into(d, index));
            var ui := UiStep(UiStep(UiStep(start, first), second), Let(items[z].id, fromZ, Into(c, 0)));
            var server := UiStep(UiStep(UiStep(ui, Arrive(0, true)), Arrive(0, true)), Arrive(0, true)).server;
            && |server| == |items|
            && server[x].status in Statuses(c) && server[z].status in Statuses(c)
            && server[x].sortOrder == server[z].sortOrder
  {
    var top := ColumnItems(items, c)[0].sortOrder - 1000.0;
    var p := Patch(items[x].id, c, top);
    var shown := Patched(items, Some(p));
    var p' := PatchOf(shown, items[y].id, fromY, Into(d, index)).value;
    ThirdPatchIsFirst(items, c, d, x, y, z, p'.order, fromX, fromZ);
    var p'' := Patch(items[z].id, c, top);
    ThreeLets(items, Let(items[x].id, fromX, Into(c, 0)), Let(items[y].id, fromY, Into(d, index)),
              Let(items[z].id, fromZ, Into(c, 0)), p, p', p'');
    AllArrive(Ui(items, Some(Patched(items, Some(p''))), items, [p, p', p'']), p, p', p'');
    LevelCards(items, c, top, x, y, z, p');
  }

  lemma {:induction false} LetStep(ui: Ui, id: string, from: Target, to: Target, patch: Patch)
    requires PatchOf(Shown(ui), id, from, to) == Some(patch)
    ensures UiStep(ui, Let(id, from, to))
         == ui.(optimistic := Some(Patched(ui.items, Some(patch))), sent := ui.sent + [patch])
  {
  }

  lemma {:induction false} AllArrive(ui: Ui, p: Patch, p': Patch, p'': Patch)
    requires ui.sent == [p, p', p'']
    ensures UiStep(UiStep(UiStep(ui, Arrive(0, true)), Arrive(0, true)), Arrive(0, true)).server
         == Patched(Patched(Patched(ui.server, Some(p)), Some(p')), Some(p''))
  {
  }

  lemma {:induction false} ThreeLets(items: seq<Item>, a: UiEvent, b: UiEvent, c: UiEvent, p: Patch, p': Patch,
                                     p'': Patch)
    requires a.Let? && b.Let? && c.Let?
    requires PatchOf(items, a.id, a.source, a.target) == Some(p)
    requires PatchOf(Patched(items, Some(p)), b.id, b.source, b.target) == Some(p')
    requires PatchOf(Patched(items, Some(p')), c.id, c.source, c.target) == Some(p'')
    ensures UiStep(UiStep(UiStep(Ui(items, None, items, []), a), b), c)
         == Ui(items, Some(Patched(items, Some(p''))), items, [p, p', p''])
  {
    LetStep(Ui(items, None, items, []), a.id, a.source, a.target, p);
    LetStep(Ui(items, Some(Patched(items, Some(p))), items, [p]), b.id, b.source, b.target, p');
    LetStep(Ui(items, Some(Patched(items, Some(p'))), items, [p, p']), c.id, c.source, c.target, p'');
  }
}
