/**
 The SQL the builders write, as conditions over columns: their text, and what they select and
 set.
 */
module SqlQuery {
  import opened Sorting
  import opened SqlPlaceholders
  import opened Text
  import opened Wrappers

  function Lits(s: string): seq<Piece> {
    seq(|s|, i requires 0 <= i < |s| => Lit(s[i]))
  }

  // ---------------------------------------------------------------- text

  datatype Cond =
    | Equals(column: string, v: int)
    | Above(column: string, v: int)
    | OneOf(column: string, vs: seq<int>)
    | And(l: Cond, r: Cond)
    | Or(l: Cond, r: Cond)

  function ShowList(vs: seq<int>): seq<Piece> {
    if vs == [] then []
    else if |vs| == 1 then [Arg(vs[0])]
    else [Arg(vs[0])] + Lits(", ") + ShowList(vs[1..])
  }

  /** AND binds more closely than OR, so an OR under it stands in parentheses. */
  function Show(c: Cond): seq<Piece> {
    match c
    case Equals(column, v) => Lits(column) + Lits(" = ") + [Arg(v)]
    case Above(column, v) => Lits(column) + Lits(" > ") + [Arg(v)]
    case OneOf(column, vs) => Lits(column) + Lits(" IN (") + ShowList(vs) + Lits(")")
    case And(l, r) => Operand(l, Show(l)) + Lits(" AND ") + Operand(r, Show(r))
    case Or(l, r) => Show(l) + Lits(" OR ") + Show(r)
  }

  function Operand(c: Cond, shown: seq<Piece>): seq<Piece> {
    if c.Or? then Lits("(") + shown + Lits(")") else shown
  }

  /** SELECT columns FROM table WHERE where, and ORDER BY a column, the smallest first. */
  datatype Query = Select(columns: string, table: string, where: Cond, ascending: Option<string>)

  function ShowQuery(q: Query): seq<Piece> {
    Lits("SELECT ") + Lits(q.columns) + Lits(" FROM ") + Lits(q.table) + Lits(" WHERE ") + Show(q.where)
    + (if q.ascending.Some? then Lits(" ORDER BY ") + Lits(q.ascending.value) + Lits(" ASC") else [])
  }

  /** A column and the value to store in it. */
  datatype Assignment = Assignment(column: string, value: int)

  datatype Update = Update(table: string, sets: seq<Assignment>, where: Cond)

  function ShowSets(sets: seq<Assignment>): seq<Piece> {
    if sets == [] then []
    else
      (if |sets| == 1 then [] else ShowSets(sets[..|sets| - 1]) + Lits(", "))
      + Lits(sets[|sets| - 1].column) + Lits(" = ") + [Arg(sets[|sets| - 1].value)]
  }

  function ShowUpdate(u: Update): seq<Piece> {
    Lits("UPDATE ") + Lits(u.table) + Lits(" SET ") + ShowSets(u.sets) + Lits(" WHERE ") + Show(u.where)
  }

  // ---------------------------------------------------------------- meaning

  /** Column values by name, compared as text; a NULL is not there. */
  type Row = map<string, string>

  /** val: the value bound to each argument. A comparison with a NULL does not hold. */
  predicate Holds(c: Cond, row: Row, val: int -> string) {
    match c
    case Equals(column, v) => column in row && row[column] == val(v)
    case Above(column, v) => column in row && StrLess(val(v), row[column])
    case OneOf(column, vs) => column in row && exists i :: 0 <= i < |vs| && row[column] == val(vs[i])
    case And(l, r) => Holds(l, row, val) && Holds(r, row, val)
    case Or(l, r) => Holds(l, row, val) || Holds(r, row, val)
  }

  ghost predicate NotAbove(a: Row, b: Row, column: string) {
    column in a && column in b ==> !StrLess(b[column], a[column])
  }

  function Where<T>(c: Cond, rowOf: T -> Row, val: int -> string): T -> bool {
    t => Holds(c, rowOf(t), val)
  }

  /** The rows a query may be answered with: those its condition holds of, in the order it asks for. */
  ghost predicate Answers<T(!new)>(rows: seq<T>, q: Query, table: seq<T>, rowOf: T -> Row, val: int -> string) {
    && multiset(rows) == multiset(Filter(table, Where(q.where, rowOf, val)))
    && (q.ascending.Some? ==>
          forall i, k :: 0 <= i < k < |rows| ==> NotAbove(rowOf(rows[i]), rowOf(rows[k]), q.ascending.value))
  }

  function SetAll(row: Row, sets: seq<Assignment>, val: int -> string): Row {
    if sets == [] then row
    else
      var last := sets[|sets| - 1];
      SetAll(row, sets[..|sets| - 1], val)[last.column := val(last.value)]
  }

  /** A table after an update. */
  function Apply(u: Update, table: seq<Row>, val: int -> string): seq<Row> {
    seq(|table|, i requires 0 <= i < |table| =>
      if Holds(u.where, table[i], val) then SetAll(table[i], u.sets, val) else table[i])
  }

  lemma {:induction false} SetAllSets(row: Row, sets: seq<Assignment>, val: int -> string, i: nat)
    requires i < |sets| && forall j, k :: 0 <= j < k < |sets| ==> sets[j].column != sets[k].column
    ensures var after := SetAll(row, sets, val);
            sets[i].column in after && after[sets[i].column] == val(sets[i].value)
  {
    if i == |sets| - 1 {
    } else {
      SetAllSets(row, sets[..|sets| - 1], val, i);
    }
  }

  lemma {:induction false} SetAllLeaves(row: Row, sets: seq<Assignment>, val: int -> string, c: string)
    requires forall i :: 0 <= i < |sets| ==> sets[i].column != c
    ensures var after := SetAll(row, sets, val); (c in after <==> c in row) && (c in row ==> after[c] == row[c])
  {
    if sets == [] {
    } else {
      SetAllLeaves(row, sets[..|sets| - 1], val, c);
    }
  }
}
