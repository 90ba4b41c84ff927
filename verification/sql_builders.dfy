/**
 SQL text with a varying number of placeholders: the run-row update and the two replay
 queries, written as segments of plain text each followed by one placeholder.
 */
module SqlBuilders {
  import opened Text
  import opened Wrappers
  import opened SqlPlaceholders
  import opened SqlQuery

  /** Literal text followed by one placeholder. */
  datatype Segment = Segment(text: string, n: nat)

  function Render(segs: seq<Segment>, tail: string): string {
    if segs == [] then tail
    else segs[0].text + "$" + Numeral(segs[0].n) + Render(segs[1..], tail)
  }

  ghost predicate PlainText(s: string) {
    forall i :: 0 <= i < |s| ==> s[i] != '$' && s[i] != '?' && !IsQuote(s[i])
  }

  /** Text that may stand after a placeholder: it does not lengthen the number. */
  ghost predicate Follows(s: string) {
    PlainText(s) && NoRU(s) && (s == "" || !IsDigit(s[0]))
  }

  ghost predicate GoodSegments(segs: seq<Segment>) {
    forall i :: 0 <= i < |segs| ==> Follows(segs[i].text)
  }

  function Chars(s: string): seq<Token> {
    seq(|s|, i requires 0 <= i < |s| => Chr(s[i]))
  }

  function Tokens(segs: seq<Segment>, tail: string): seq<Token> {
    if segs == [] then Chars(tail)
    else Chars(segs[0].text) + [Num(segs[0].n)] + Tokens(segs[1..], tail)
  }

  lemma {:induction false} LexText(t: string, rest: string)
    requires PlainText(t)
    ensures Lex(t + rest, Outside) == Chars(t) + Lex(rest, Outside)
    ensures NothingQuoted(t + rest, Outside) <==> NothingQuoted(rest, Outside)
  {
    if t == "" {
      assert t + rest == rest && Chars(t) == [];
    } else {
      assert (t + rest)[1..] == t[1..] + rest;
      LexText(t[1..], rest);
      assert Chars(t) == [Chr(t[0])] + Chars(t[1..]);
    }
  }

  lemma {:induction false} LexNumeral(n: nat, rest: string)
    requires rest == "" || !IsDigit(rest[0])
    ensures Lex("$" + Numeral(n) + rest, Outside) == [Num(n)] + Lex(rest, Outside)
    ensures NothingQuoted("$" + Numeral(n) + rest, Outside) <==> NothingQuoted(rest, Outside)
  {
    var num := Numeral(n);
    var sql := "$" + num + rest;
    assert sql[1..] == num + rest;
    DigitRunOfPrefix(num, rest);
    assert sql[1..][..|num|] == num && sql[1 + |num|..] == rest;
    NumeralRoundTrip(n);
  }

  lemma {:induction false} LexSegment(s: Segment, rest: string)
    requires PlainText(s.text) && (rest == "" || !IsDigit(rest[0]))
    ensures Lex(s.text + ("$" + Numeral(s.n) + rest), Outside) == Chars(s.text) + ([Num(s.n)] + Lex(rest, Outside))
    ensures NothingQuoted(s.text + ("$" + Numeral(s.n) + rest), Outside) <==> NothingQuoted(rest, Outside)
  {
    LexText(s.text, "$" + Numeral(s.n) + rest);
    LexNumeral(s.n, rest);
  }

  lemma {:induction false} Regrouped(segs: seq<Segment>, tail: string)
    requires segs != []
    ensures Render(segs, tail) == segs[0].text + ("$" + Numeral(segs[0].n) + Render(segs[1..], tail))
    ensures Tokens(segs, tail) == Chars(segs[0].text) + ([Num(segs[0].n)] + Tokens(segs[1..], tail))
  {
    var dollar := "$" + Numeral(segs[0].n);
    Associate(segs[0].text, "$", Numeral(segs[0].n));
    Associate(segs[0].text, dollar, Render(segs[1..], tail));
    Associate(Chars(segs[0].text), [Num(segs[0].n)], Tokens(segs[1..], tail));
  }

  /** The numbered reading of a rendered text is its segments: multi-digit numbers come out whole. */
  lemma {:induction false} LexRender(segs: seq<Segment>, tail: string)
    requires GoodSegments(segs) && Follows(tail)
    ensures Lex(Render(segs, tail), Outside) == Tokens(segs, tail) && NothingQuoted(Render(segs, tail), Outside)
  {
    if segs == [] {
      LexText(tail, "");
      assert tail + "" == tail;
    } else {
      assert Follows(segs[0].text);
      LexRender(segs[1..], tail);
      LexSegment(segs[0], Render(segs[1..], tail));
      Regrouped(segs, tail);
    }
  }

  lemma {:induction false} NumbersConcat(a: seq<Token>, b: seq<Token>)
    ensures Numbers(a + b) == Numbers(a) + Numbers(b)
  {
    if a == [] {
      assert a + b == b;
    } else {
      assert (a + b)[1..] == a[1..] + b && (a + b)[0] == a[0];
      NumbersConcat(a[1..], b);
      if a[0].Num? {
        Associate([a[0].n], Numbers(a[1..]), Numbers(b));
      }
    }
  }

  lemma {:induction false} NumbersOfChars(s: string)
    ensures Numbers(Chars(s)) == []
  {
    if s == "" {
    } else {
      assert Chars(s)[1..] == Chars(s[1..]);
      NumbersOfChars(s[1..]);
    }
  }

  lemma {:induction false} NoMarksAfter(s: string, rest: seq<Token>)
    requires PlainText(s)
    ensures NoMarks(Chars(s) + rest, Outside) <==> NoMarks(rest, Outside)
  {
    if s == "" {
      assert Chars(s) + rest == rest;
    } else {
      assert (Chars(s) + rest)[1..] == Chars(s[1..]) + rest;
      NoMarksAfter(s[1..], rest);
    }
  }

  lemma {:induction false} NumbersOfTokens(segs: seq<Segment>, tail: string)
    ensures |Numbers(Tokens(segs, tail))| == |segs|
    ensures forall i :: 0 <= i < |segs| ==> Numbers(Tokens(segs, tail))[i] == segs[i].n
  {
    if segs == [] {
      NumbersOfChars(tail);
    } else {
      var head, rest := Chars(segs[0].text), Tokens(segs[1..], tail);
      NumbersOfTokens(segs[1..], tail);
      NumbersOfChars(segs[0].text);
      NumbersConcat(head, [Num(segs[0].n)] + rest);
      assert Tokens(segs, tail) == head + ([Num(segs[0].n)] + rest);
      assert ([Num(segs[0].n)] + rest)[1..] == rest;
    }
  }

  lemma {:induction false} MarksOfTokens(segs: seq<Segment>, tail: string)
    requires GoodSegments(segs) && PlainText(tail)
    ensures NoMarks(Tokens(segs, tail), Outside)
  {
    if segs == [] {
      NoMarksAfter(tail, []);
      assert Chars(tail) + [] == Chars(tail);
    } else {
      var head, rest := Chars(segs[0].text), Tokens(segs[1..], tail);
      assert Follows(segs[0].text);
      MarksOfTokens(segs[1..], tail);
      NoMarksAfter(segs[0].text, [Num(segs[0].n)] + rest);
      assert Tokens(segs, tail) == head + ([Num(segs[0].n)] + rest);
      assert ([Num(segs[0].n)] + rest)[1..] == rest;
    }
  }

  /** The statement a rendered text stands for. */
  function Statement(segs: seq<Segment>, tail: string, args: seq<int>): seq<Piece>
    requires |segs| == |args|
  {
    if segs == [] then Lits(tail)
    else Lits(segs[0].text) + [Arg(args[0])] + Statement(segs[1..], tail, args[1..])
  }

  lemma {:induction false} StatementIsPutArgs(segs: seq<Segment>, tail: string, args: seq<int>, at: nat)
    requires at + |segs| == |args| && forall i :: 0 <= i < |segs| ==> segs[i].n == at + i + 1
    ensures InRange(Tokens(segs, tail), args)
    ensures PutArgs(Tokens(segs, tail), args) == Statement(segs, tail, args[at..])
  {
    if segs == [] {
    } else {
      StatementIsPutArgs(segs[1..], tail, args, at + 1);
      assert args[at..][1..] == args[at + 1..];
      PutArgsSegment(segs[0], Tokens(segs[1..], tail), args);
    }
  }

  lemma {:induction false} PutArgsSegment(s: Segment, rest: seq<Token>, args: seq<int>)
    requires 1 <= s.n <= |args| && InRange(rest, args)
    ensures InRange(Chars(s.text) + [Num(s.n)] + rest, args)
    ensures PutArgs(Chars(s.text) + [Num(s.n)] + rest, args) == Lits(s.text) + [Arg(args[s.n - 1])] + PutArgs(rest, args)
  {
    var head := Chars(s.text);
    var toks := head + [Num(s.n)] + rest;
    assert forall i :: |head| < i < |toks| ==> toks[i] == rest[i - |head| - 1];
    assert forall i :: 0 <= i < |head| ==> toks[i] == Chr(s.text[i]);
  }

  lemma {:induction false} SkeletonNoRU(segs: seq<Segment>, tail: string, args: seq<int>)
    requires GoodSegments(segs) && NoRU(tail) && |segs| == |args|
    ensures NoRU(Skeleton(Statement(segs, tail, args)))
  {
    if segs == [] {
      assert Skeleton(Lits(tail)) == tail;
    } else {
      var rest := Statement(segs[1..], tail, args[1..]);
      SkeletonNoRU(segs[1..], tail, args[1..]);
      assert Follows(segs[0].text);
      assert Skeleton(Statement(segs, tail, args)) == segs[0].text + "?" + Skeleton(rest);
    }
  }

  lemma {:induction false} NoClauseToQuote(text: string, q: Quoting)
    requires NoRU(text)
    ensures NoQuotedClause(text, q)
  {
    if text == "" {
    } else {
      var m := ForUpdateMatch(text);
      assert m == 0;
      NoRUTail(text);
      NoClauseToQuote(text[1..], Turn(q, text[0]));
    }
  }

  lemma {:induction false} WithoutForUpdateIsSame(ps: seq<Piece>, q: Quoting)
    requires NoRU(Skeleton(ps))
    ensures WithoutForUpdate(ps, q) == ps
  {
    if ps == [] {
    } else {
      var s := Skeleton(ps);
      var m := ForUpdateMatch(s);
      assert m == 0;
      assert Skeleton(ps[1..]) == s[1..];
      NoRUTail(s);
      WithoutForUpdateIsSame(ps[1..], AfterPiece(q, ps[0]));
    }
  }

  /** A text with segments numbered 1..n runs on SQLite as the statement it was built to be. */
  lemma {:induction false} RenderedStatementRuns(segs: seq<Segment>, tail: string, args: seq<int>)
    requires GoodSegments(segs) && Follows(tail) && |args| == |segs|
    requires forall i :: 0 <= i < |segs| ==> segs[i].n == i + 1
    ensures InOrder(Render(segs, tail))
    ensures BindPositional(PgToSqlite(Render(segs, tail)), args) == Some(Statement(segs, tail, args))
  {
    var sql := Render(segs, tail);
    LexRender(segs, tail);
    NumbersOfTokens(segs, tail);
    MarksOfTokens(segs, tail);
    StatementIsPutArgs(segs, tail, args, 0);
    assert args[0..] == args;
    SkeletonNoRU(segs, tail, args);
    PreservedIffInOrder(sql);
    assert Preserved(sql);
    SkeletonOfFill(Substitute(sql), Outside, args);
    NoClauseToQuote(Substitute(sql), Outside);
    AdapterPreservesMeaning(sql, args);
    WithoutForUpdateIsSame(Statement(segs, tail, args), Outside);
  }

  // ---------------------------------------------------------------- the two dynamic builders

  lemma {:induction false} RenderAppend(segs: seq<Segment>, last: Segment, tail: string)
    ensures Render(segs + [last], tail) == Render(segs, "") + last.text + "$" + Numeral(last.n) + tail
  {
    if segs == [] {
      assert segs + [last] == [last] && [last][1..] == [];
    } else {
      assert (segs + [last])[1..] == segs[1..] + [last] && (segs + [last])[0] == segs[0];
      RenderAppend(segs[1..], last, tail);
    }
  }

  lemma {:induction false} StatementConcat(a: seq<Segment>, b: seq<Segment>, tail: string,
                                           argsA: seq<int>, argsB: seq<int>)
    requires |a| == |argsA| && |b| == |argsB|
    ensures Statement(a + b, tail, argsA + argsB) == Statement(a, "", argsA) + Statement(b, tail, argsB)
  {
    if a == [] {
      assert a + b == b && argsA + argsB == argsB && Lits("") == [];
    } else {
      assert (a + b)[1..] == a[1..] + b && (argsA + argsB)[1..] == argsA[1..] + argsB;
      StatementConcat(a[1..], b, tail, argsA[1..], argsB);
    }
  }

  /** A column name passed as a Python keyword argument. */
  predicate IsIdentifier(s: string) {
    s != "" && forall i :: 0 <= i < |s| ==> IsWordChar(s[i])
  }

  /** Whatever lower-case letters and underscores spell, the worker's columns among it, is one. */
  lemma {:induction false} LowerCaseIsIdentifier(s: string)
    requires s != "" && forall i :: 0 <= i < |s| ==> 'a' <= s[i] <= 'z' || s[i] == '_'
    ensures IsIdentifier(s)
  {
  }

  function Values(fields: seq<Assignment>): seq<int> {
    seq(|fields|, i requires 0 <= i < |fields| => fields[i].value)
  }

  /** `, column = value` for each field in turn. */
  function Assignments(fields: seq<Assignment>): seq<Piece> {
    if fields == [] then []
    else Lits(", " + fields[0].column + " = ") + [Arg(fields[0].value)] + Assignments(fields[1..])
  }

  const UPDATE_HEAD := "UPDATE claude_runs SET " + "updated_at = "

  const UPDATE_TAIL := " WHERE id = "

  function FieldText(column: string): string {
    ", " + column + " = "
  }

  function FieldSegments(fields: seq<Assignment>, first: nat): seq<Segment> {
    seq(|fields|, i requires 0 <= i < |fields| => Segment(FieldText(fields[i].column), first + i))
  }

  lemma {:induction false} ColumnFollows(column: string)
    requires IsIdentifier(column)
    ensures Follows(FieldText(column))
  {
    var s := FieldText(column);
    forall i | 0 <= i < |s|
      ensures s[i] != '$' && s[i] != '?'
      ensures i < |s| - 2 && ToLower(s[i]) == 'r' && s[i + 1] == ' ' ==> ToLower(s[i + 2]) != 'u'
    {
      if 2 <= i < |column| + 2 {
        assert s[i] == column[i - 2];
        if i < |column| + 1 {
          assert s[i + 1] == column[i - 1];
        }
      }
    }
  }

  lemma {:induction false} FieldsAreGood(fields: seq<Assignment>, first: nat)
    requires forall i :: 0 <= i < |fields| ==> IsIdentifier(fields[i].column)
    ensures var segs := FieldSegments(fields, first);
            && |segs| == |fields| && GoodSegments(segs)
            && (forall i :: 0 <= i < |segs| ==> segs[i].n == first + i)
            && Statement(segs, "", Values(fields)) == Assignments(fields)
  {
    if fields == [] {
      assert Lits("") == [];
    } else {
      ColumnFollows(fields[0].column);
      FieldsAreGood(fields[1..], first + 1);
      assert Values(fields)[1..] == Values(fields[1..]);
      var segs := FieldSegments(fields, first);
      assert segs[1..] == FieldSegments(fields[1..], first + 1);
      assert forall i :: 0 < i < |segs| ==> segs[i] == segs[1..][i - 1];
    }
  }

  /** A head and a tail segment around numbered segments in the middle. */
  lemma {:induction false} FramedStatementRuns(head: string, middle: seq<Segment>, last: string,
                                               a: int, values: seq<int>, b: int)
    requires Follows(head) && Follows(last) && GoodSegments(middle) && |middle| == |values|
    requires forall i :: 0 <= i < |middle| ==> middle[i].n == 2 + i
    ensures var sql := Render([Segment(head, 1)] + middle + [Segment(last, |middle| + 2)], "");
            && InOrder(sql)
            && BindPositional(PgToSqlite(sql), [a] + values + [b])
               == Some(Lits(head) + [Arg(a)] + Statement(middle, "", values) + Lits(last) + [Arg(b)])
  {
    var h, l := [Segment(head, 1)], [Segment(last, |middle| + 2)];
    assert h + middle + l == h + (middle + l) && [a] + values + [b] == [a] + (values + [b]);
    RenderedStatementRuns(h + middle + l, "", [a] + values + [b]);
    StatementConcat(h, middle + l, "", [a], values + [b]);
    StatementConcat(middle, l, "", values, [b]);
    OneSegment(h[0], a);
    OneSegment(l[0], b);
    Regroup(Lits(head) + [Arg(a)], Statement(middle, "", values), Lits(last), [Arg(b)]);
  }

  lemma {:induction false} Regroup<T>(a: seq<T>, b: seq<T>, c: seq<T>, d: seq<T>)
    ensures a + (b + (c + d)) == a + b + c + d
  {
  }

  lemma {:induction false} OneSegment(s: Segment, arg: int)
    ensures Statement([s], "", [arg]) == Lits(s.text) + [Arg(arg)]
    ensures Render([s], "") == s.text + "$" + Numeral(s.n)
  {
    assert [s][1..] == [] && Lits("") == [];
  }

  /** The `column = $N` texts the builder joins. */
  function UpdateList(fields: seq<Assignment>): seq<string> {
    if fields == [] then ["updated_at = $1"]
    else
      var k := |fields| - 1;
      UpdateList(fields[..k]) + [fields[k].column + " = $" + Numeral(k + 2)]
  }

  lemma {:induction false} FieldSegmentsAppend(fields: seq<Assignment>, first: nat)
    requires fields != []
    ensures var k := |fields| - 1;
            FieldSegments(fields, first)
            == FieldSegments(fields[..k], first) + [Segment(FieldText(fields[k].column), first + k)]
  {
    var k := |fields| - 1;
    var front := FieldSegments(fields[..k], first);
    assert forall i :: 0 <= i < k ==> front[i] == FieldSegments(fields, first)[i];
  }

  /** Joining one more `column = $N` is appending one more segment. */
  lemma {:induction false} JoinOneMore(head: string, joined: string, rendered: string, column: string, num: string)
    requires head + joined == rendered
    ensures head + (joined + ", " + (column + " = $" + num)) == rendered + FieldText(column) + "$" + num + ""
  {
    var eq, comma := " = $", ", ";
    assert eq == " = " + "$";
    assert comma + (column + eq + num) == comma + column + " = " + "$" + num;
    Regroup(head, joined, comma, column + eq + num);
  }

  lemma {:induction false} FirstUpdate()
    ensures "UPDATE claude_runs SET " + "updated_at = $1" == UPDATE_HEAD + "$" + Numeral(1)
  {
    assert Numeral(1) == "1";
  }

  const SET := "UPDATE claude_runs SET "

  lemma {:induction false} JoinedUpdates(fields: seq<Assignment>)
    ensures UpdateList(fields) != []
    ensures SET + Join(", ", UpdateList(fields))
         == Render([Segment(UPDATE_HEAD, 1)] + FieldSegments(fields, 2), "")
  {
    var head := [Segment(UPDATE_HEAD, 1)];
    if fields == [] {
      OneSegment(head[0], 0);
      FirstUpdate();
      assert head + [] == head;
    } else {
      var k := |fields| - 1;
      var front := head + FieldSegments(fields[..k], 2);
      var last := Segment(FieldText(fields[k].column), k + 2);
      JoinedUpdates(fields[..k]);
      JoinAppend(", ", UpdateList(fields[..k]), fields[k].column + " = $" + Numeral(k + 2));
      FieldSegmentsAppend(fields, 2);
      assert head + FieldSegments(fields, 2) == front + [last];
      RenderAppend(front, last, "");
      JoinOneMore(SET, Join(", ", UpdateList(fields[..k])), Render(front, ""),
                  fields[k].column, Numeral(k + 2));
    }
  }

  lemma {:induction false} UpdateFollows()
    ensures Follows("UPDATE claude_runs SET ")
  {
  }

  lemma {:induction false} UpdatedAtFollows()
    ensures Follows("updated_at = ")
  {
  }

  lemma {:induction false} TailFollows()
    ensures Follows(UPDATE_TAIL)
  {
  }

  lemma {:induction false} HeadFollows()
    ensures Follows(UPDATE_HEAD) && Follows(UPDATE_TAIL)
  {
    UpdateFollows();
    UpdatedAtFollows();
    TailFollows();
  }

  /** The update of a run: the time of the update and each field, in the row with that id. */
  function RunUpdate(fields: seq<Assignment>, now: int, runId: int): Update {
    Update("claude_runs", [Assignment("updated_at", now)] + fields, Equals("id", runId))
  }

  lemma {:induction false} SetsAreAssignments(now: int, fields: seq<Assignment>)
    ensures ShowSets([Assignment("updated_at", now)] + fields)
         == Lits("updated_at") + Lits(" = ") + [Arg(now)] + Assignments(fields)
  {
    var sets := [Assignment("updated_at", now)] + fields;
    if fields == [] {
      assert sets == [Assignment("updated_at", now)];
    } else {
      var n := |fields| - 1;
      assert sets[..|sets| - 1] == [Assignment("updated_at", now)] + fields[..n];
      SetsAreAssignments(now, fields[..n]);
      AssignmentsAppend(fields[..n], fields[n]);
      assert fields == fields[..n] + [fields[n]];
    }
  }

  lemma {:induction false} AssignmentsAppend(fields: seq<Assignment>, last: Assignment)
    ensures Assignments(fields + [last])
         == Assignments(fields) + (Lits(", ") + Lits(last.column) + Lits(" = ") + [Arg(last.value)])
  {
    LitsThree(", ", last.column, " = ");
    if fields == [] {
      assert fields + [last] == [last] && [last][1..] == [];
    } else {
      assert (fields + [last])[1..] == fields[1..] + [last];
      AssignmentsAppend(fields[1..], last);
      Associate(Lits(", " + fields[0].column + " = ") + [Arg(fields[0].value)], Assignments(fields[1..]),
                Lits(", ") + Lits(last.column) + Lits(" = ") + [Arg(last.value)]);
    }
  }

  lemma {:induction false} LitsThree(a: string, b: string, c: string)
    ensures Lits(a + b + c) == Lits(a) + Lits(b) + Lits(c)
  {
  }

  lemma {:induction false} UpdateIsShown(fields: seq<Assignment>, now: int, runId: int)
    ensures ShowUpdate(RunUpdate(fields, now, runId))
         == Lits(UPDATE_HEAD) + [Arg(now)] + Assignments(fields) + Lits(UPDATE_TAIL) + [Arg(runId)]
  {
    SetsAreAssignments(now, fields);
    UpdateTexts();
  }

  lemma {:induction false} UpdateTexts()
    ensures Lits(UPDATE_HEAD) == Lits("UPDATE ") + Lits("claude_runs") + Lits(" SET ") + (Lits("updated_at") + Lits(" = "))
    ensures Lits(UPDATE_TAIL) == Lits(" WHERE ") + (Lits("id") + Lits(" = "))
  {
  }

  /** In order, and run by SQLite as the update of these columns, each to its value, in the row with this id. */
  ghost predicate UpdatesTheRow(sql: string, params: seq<int>, fields: seq<Assignment>, now: int, runId: int) {
    && InOrder(sql)
    && BindPositional(PgToSqlite(sql), params) == Some(ShowUpdate(RunUpdate(fields, now, runId)))
  }

  /**
   The SQL and parameters of a run-row update. Whatever fields are named, SQLite runs the
   UPDATE that sets each column to its own value and selects the row by its own id.
   */
  method BuildRunUpdate(fields: seq<Assignment>, now: int, runId: int) returns (sql: string, params: seq<int>)
    requires forall i :: 0 <= i < |fields| ==> IsIdentifier(fields[i].column)
    ensures params == [now] + Values(fields) + [runId]
    ensures UpdatesTheRow(sql, params, fields, now, runId)
  {
    var updates := ["updated_at = $1"];
    params := [now];
    for k := 0 to |fields|
      invariant params == [now] + Values(fields[..k])
      invariant updates == UpdateList(fields[..k])
    {
      params := params + [fields[k].value];
      updates := updates + [fields[k].column + " = $" + Numeral(|params|)];
      assert fields[..k + 1][..k] == fields[..k];
    }
    params := params + [runId];
    sql := SET + Join(", ", updates) + UPDATE_TAIL + "$" + Numeral(|params|);

    assert fields[..|fields|] == fields;
    UpdateTextRuns(fields, now, runId);
  }

  lemma {:induction false} UpdateTextRuns(fields: seq<Assignment>, now: int, runId: int)
    requires forall i :: 0 <= i < |fields| ==> IsIdentifier(fields[i].column)
    ensures var sql := SET + Join(", ", UpdateList(fields)) + UPDATE_TAIL + "$" + Numeral(|fields| + 2);
            UpdatesTheRow(sql, [now] + Values(fields) + [runId], fields, now, runId)
  {
    var front := [Segment(UPDATE_HEAD, 1)] + FieldSegments(fields, 2);
    var last := Segment(UPDATE_TAIL, |fields| + 2);
    JoinedUpdates(fields);
    FieldsAreGood(fields, 2);
    HeadFollows();
    FramedStatementRuns(UPDATE_HEAD, FieldSegments(fields, 2), UPDATE_TAIL, now, Values(fields), runId);
    UpdateIsShown(fields, now, runId);
    RenderAppend(front, last, "");
    DropEmpty(Render(front, "") + UPDATE_TAIL + "$" + Numeral(|fields| + 2));
  }

  ghost predicate DistinctColumns(fields: seq<Assignment>) {
    && (forall j :: 0 <= j < |fields| ==> fields[j].column != "updated_at")
    && (forall j, k :: 0 <= j < k < |fields| ==> fields[j].column != fields[k].column)
  }

  /** Each named column has its own value and updated_at the time; every other column is as it was. */
  ghost predicate HasFields(row: Row, after: Row, fields: seq<Assignment>, now: int, val: int -> string) {
    && (forall j :: 0 <= j < |fields| ==> fields[j].column in after && after[fields[j].column] == val(fields[j].value))
    && "updated_at" in after && after["updated_at"] == val(now)
    && (forall c :: c != "updated_at" && (forall j :: 0 <= j < |fields| ==> fields[j].column != c) ==>
          (c in after <==> c in row) && (c in row ==> after[c] == row[c]))
  }

  lemma {:induction false} SetsHaveFields(fields: seq<Assignment>, now: int, row: Row, val: int -> string)
    requires DistinctColumns(fields)
    ensures HasFields(row, SetAll(row, [Assignment("updated_at", now)] + fields, val), fields, now, val)
  {
    var sets := [Assignment("updated_at", now)] + fields;
    assert forall j :: 0 < j < |sets| ==> sets[j] == fields[j - 1];
    SetAllSets(row, sets, val, 0);
    var after := SetAll(row, sets, val);
    forall j | 0 <= j < |fields| ensures fields[j].column in after && after[fields[j].column] == val(fields[j].value) {
      SetAllSets(row, sets, val, j + 1);
    }
    forall c | c != "updated_at" && (forall j :: 0 <= j < |fields| ==> fields[j].column != c)
      ensures (c in after <==> c in row) && (c in row ==> after[c] == row[c])
    {
      SetAllLeaves(row, sets, val, c);
    }
  }

  /**
   What that update does to the table: it sets these columns in the rows with that id, and
   leaves every other row as it was.
   */
  lemma {:induction false} RunUpdateSets(fields: seq<Assignment>, now: int, runId: int, table: seq<Row>,
                                         val: int -> string, i: nat)
    requires i < |table| && DistinctColumns(fields)
    ensures var row, after := table[i], Apply(RunUpdate(fields, now, runId), table, val)[i];
            if "id" in row && row["id"] == val(runId) then HasFields(row, after, fields, now, val) else after == row
  {
    SetsHaveFields(fields, now, table[i], val);
  }

  lemma {:induction false} DropEmpty(s: string)
    ensures s + "" == s
  {
  }

  /** `", ".join(f"${i + first}" for i in range(n))`, before the join */
  function Placeholders(n: nat, first: nat): seq<string> {
    if n == 0 then [] else ["$" + Numeral(first)] + Placeholders(n - 1, first + 1)
  }

  /** Segments for a list of placeholders after `head`. */
  function ListSegments(head: string, n: nat, first: nat): (segs: seq<Segment>)
    ensures |segs| == n && forall i :: 0 <= i < n ==> segs[i].n == first + i
    decreases n
  {
    if n == 0 then [] else [Segment(head, first)] + ListSegments(", ", n - 1, first + 1)
  }

  /** `head id, id, ..., id` */
  function InList(head: string, ids: seq<int>): seq<Piece>
    decreases |ids|
  {
    if ids == [] then [] else Lits(head) + [Arg(ids[0])] + InList(", ", ids[1..])
  }

  lemma {:induction false} ListRender(head: string, n: nat, first: nat, tail: string)
    requires n > 0
    ensures Render(ListSegments(head, n, first), tail) == head + Join(", ", Placeholders(n, first)) + tail
    decreases n
  {
    var rest := ListSegments(", ", n - 1, first + 1);
    assert ListSegments(head, n, first)[1..] == rest;
    assert Placeholders(n, first)[1..] == Placeholders(n - 1, first + 1);
    if n == 1 {
      Regroup(head, "$" + Numeral(first), "", tail);
      DropEmpty(head + ("$" + Numeral(first)));
    } else {
      ListRender(", ", n - 1, first + 1, tail);
      ListStep(head, Numeral(first), Join(", ", Placeholders(n - 1, first + 1)), tail);
    }
  }

  lemma {:induction false} ListStep(head: string, num: string, joined: string, tail: string)
    ensures head + "$" + num + (", " + joined + tail) == head + ("$" + num + ", " + joined) + tail
  {
    var comma, dollar := ", ", "$";
    assert dollar + num + (comma + joined + tail) == dollar + num + comma + joined + tail;
  }

  lemma {:induction false} ListStatement(head: string, ids: seq<int>, first: nat, tail: string)
    ensures Statement(ListSegments(head, |ids|, first), tail, ids) == InList(head, ids) + Lits(tail)
    decreases |ids|
  {
    if ids == [] {
    } else {
      ListStatement(", ", ids[1..], first + 1, tail);
      assert ListSegments(head, |ids|, first)[1..] == ListSegments(", ", |ids| - 1, first + 1);
    }
  }

  lemma {:induction false} ListIsGood(head: string, n: nat, first: nat)
    requires Follows(head)
    ensures GoodSegments(ListSegments(head, n, first))
    decreases n
  {
    if n == 0 {
    } else {
      var segs := ListSegments(head, n, first);
      ListIsGood(", ", n - 1, first + 1);
      assert forall i :: 0 < i < n ==> segs[i] == ListSegments(", ", n - 1, first + 1)[i - 1];
    }
  }

  lemma {:induction false} RenderConcat(a: seq<Segment>, b: seq<Segment>, tail: string)
    ensures Render(a + b, tail) == Render(a, "") + Render(b, tail)
  {
    if a == [] {
      assert a + b == b;
    } else {
      assert (a + b)[1..] == a[1..] + b;
      RenderConcat(a[1..], b, tail);
    }
  }

  /** Fixed segments, a list of placeholders of any length, fixed segments again. */
  lemma {:induction false} ListedStatementRuns(front: seq<Segment>, head: string, ids: seq<int>,
                                               back: seq<Segment>, tail: string,
                                               before: seq<int>, after: seq<int>)
    requires GoodSegments(front) && Follows(head) && GoodSegments(back) && Follows(tail)
    requires |front| == |before| && |back| == |after| && ids != []
    requires forall i :: 0 <= i < |front| ==> front[i].n == i + 1
    requires forall i :: 0 <= i < |back| ==> back[i].n == |front| + |ids| + i + 1
    ensures var sql := Render(front, "") + (head + Join(", ", Placeholders(|ids|, |front| + 1)) + Render(back, tail));
            && InOrder(sql)
            && BindPositional(PgToSqlite(sql), before + (ids + after))
               == Some(Statement(front, "", before) + (InList(head, ids) + Statement(back, tail, after)))
  {
    var middle := ListSegments(head, |ids|, |front| + 1);
    ListIsGood(head, |ids|, |front| + 1);
    RenderedStatementRuns(front + (middle + back), tail, before + (ids + after));
    RenderConcat(front, middle + back, tail);
    RenderConcat(middle, back, tail);
    ListRender(head, |ids|, |front| + 1, "");
    DropEmpty(head + Join(", ", Placeholders(|ids|, |front| + 1)));
    StatementConcat(front, middle + back, tail, before, ids + after);
    StatementConcat(middle, back, tail, ids, after);
    ListStatement(head, ids, |front| + 1, "");
    assert Lits("") == [] && InList(head, ids) + [] == InList(head, ids);
  }

  const SINCE_HEAD := "SELECT created_at " + "FROM events " + "WHERE id = "
  const SINCE_USER := " AND (user_id = "
  const EVENTS_HEAD := "SELECT * " + "FROM events " + "WHERE (user_id = "
  const PROJECT_LIST := " OR project_id IN ("
  const EVENTS_AFTER := ")) AND created_at > "
  const EVENTS_ORDER := " ORDER BY created_at ASC"
  const OWN_USER := " AND user_id = "
  const OWN_EVENTS := "SELECT * " + "FROM events " + "WHERE user_id = "
  const OWN_AFTER := " AND created_at > "

  lemma {:induction false} FromFollows()
    ensures Follows("FROM events ")
  {
  }

  lemma {:induction false} WhereFollows()
    ensures Follows("WHERE id = ") && Follows("))")
  {
  }

  lemma {:induction false} WhereUserFollows()
    ensures Follows("WHERE (user_id = ")
  {
  }

  lemma {:induction false} AndUserFollows()
    ensures Follows(SINCE_USER)
  {
  }

  lemma {:induction false} ProjectListFollows()
    ensures Follows(PROJECT_LIST)
  {
  }

  lemma {:induction false} AfterFollows()
    ensures Follows(EVENTS_AFTER)
  {
  }

  lemma {:induction false} OrderFollows()
    ensures Follows(EVENTS_ORDER)
  {
  }

  lemma {:induction false} ThreeFollow(a: string, b: string, c: string)
    requires |a| > 1 && |b| > 1 && Follows(a) && Follows(b) && Follows(c)
    requires ToLower(a[|a| - 1]) != 'r' && ToLower(a[|a| - 2]) != 'r'
    requires ToLower(b[|b| - 1]) != 'r' && ToLower(b[|b| - 2]) != 'r'
    ensures Follows(a + b + c)
  {
  }

  lemma {:induction false} SinceTextsFollow()
    ensures Follows(SINCE_HEAD) && Follows(SINCE_USER) && Follows("))")
  {
    FromFollows();
    WhereFollows();
    AndUserFollows();
    ThreeFollow("SELECT created_at ", "FROM events ", "WHERE id = ");
  }

  lemma {:induction false} EventsTextsFollow()
    ensures Follows(EVENTS_HEAD) && Follows(EVENTS_AFTER)
  {
    FromFollows();
    WhereUserFollows();
    AfterFollows();
    ThreeFollow("SELECT * ", "FROM events ", "WHERE (user_id = ");
  }

  lemma {:induction false} OrderTextFollows()
    ensures Follows(EVENTS_ORDER) && Follows(PROJECT_LIST)
  {
    OrderFollows();
    ProjectListFollows();
  }

  lemma {:induction false} OwnUserFollows()
    ensures Follows(OWN_USER)
  {
  }

  lemma {:induction false} WhereOwnFollows()
    ensures Follows("WHERE user_id = ")
  {
  }

  lemma {:induction false} OwnAfterFollows()
    ensures Follows(OWN_AFTER)
  {
  }

  lemma {:induction false} OwnTextsFollow()
    ensures Follows(OWN_EVENTS) && Follows(OWN_USER) && Follows(OWN_AFTER) && Follows("")
  {
    OwnUserFollows();
    WhereOwnFollows();
    OwnAfterFollows();
    FromFollows();
    ThreeFollow("SELECT * ", "FROM events ", "WHERE user_id = ");
  }

  lemma {:induction false} TwoPlaceholders(a: string, b: string, tail: string, x: int, y: int)
    requires Follows(a) && Follows(b) && Follows(tail)
    ensures var sql := a + "$1" + (b + "$2" + tail);
            InOrder(sql) && BindPositional(PgToSqlite(sql), [x, y]) == Some(Lits(a) + [Arg(x)] + (Lits(b) + [Arg(y)] + Lits(tail)))
  {
    var s, t := Segment(a, 1), Segment(b, 2);
    RenderedStatementRuns([s, t], tail, [x, y]);
    assert [s, t][1..] == [t] && [x, y][1..] == [y];
    LastSegment(t, tail, y);
    assert Numeral(1) == "1" && Numeral(2) == "2";
    assert "$" + "1" == "$1" && "$" + "2" == "$2";
    Associate(a, "$", "1");
    Associate(b, "$", "2");
  }

  /** The text of the cursor lookup, as bound. */
  function SinceStatement(sinceId: int, userId: int, projectIds: seq<int>): seq<Piece> {
    if projectIds == [] then
      Lits(SINCE_HEAD) + [Arg(sinceId)] + (Lits(OWN_USER) + [Arg(userId)] + Lits(""))
    else
      Lits(SINCE_HEAD) + [Arg(sinceId)] + Lits(SINCE_USER) + [Arg(userId)] + InList(PROJECT_LIST, projectIds) + Lits("))")
  }

  /** The text of the replay itself, as bound. */
  function ReplayStatement(userId: int, projectIds: seq<int>, sinceTs: int): seq<Piece> {
    if projectIds == [] then
      Lits(OWN_EVENTS) + [Arg(userId)] + (Lits(OWN_AFTER) + [Arg(sinceTs)] + Lits(EVENTS_ORDER))
    else
      Lits(EVENTS_HEAD) + [Arg(userId)] + InList(PROJECT_LIST, projectIds)
      + Lits(EVENTS_AFTER) + [Arg(sinceTs)] + Lits(EVENTS_ORDER)
  }

  /** The user's own events, and those of listed projects. */
  function Mine(userId: int, projectIds: seq<int>): Cond {
    if projectIds == [] then Equals("user_id", userId)
    else Or(Equals("user_id", userId), OneOf("project_id", projectIds))
  }

  /** The cursor lookup: the event with that id, if it is the user's own or of a listed project. */
  function CursorQuery(sinceId: int, userId: int, projectIds: seq<int>): Query {
    Select("created_at", "events", And(Equals("id", sinceId), Mine(userId, projectIds)), None)
  }

  /** The replay itself: own events or those of listed projects, strictly after the cursor, in time order. */
  function ReplayQuery(userId: int, projectIds: seq<int>, sinceTs: int): Query {
    Select("*", "events", And(Mine(userId, projectIds), Above("created_at", sinceTs)), Some("created_at"))
  }

  lemma {:induction false} InListIsShown(head: string, ids: seq<int>)
    requires ids != []
    ensures InList(head, ids) == Lits(head) + ShowList(ids)
    decreases |ids|
  {
    if |ids| == 1 {
      assert ids[1..] == [];
    } else {
      InListIsShown(", ", ids[1..]);
      Associate([Arg(ids[0])], Lits(", "), ShowList(ids[1..]));
    }
  }

  lemma {:induction false} SinceHeadText()
    ensures Lits(SINCE_HEAD) == Lits("SELECT ") + Lits("created_at") + Lits(" FROM ") + Lits("events") + Lits(" WHERE ")
                                + (Lits("id") + Lits(" = "))
  {
  }

  lemma {:induction false} SinceUserText()
    ensures Lits(SINCE_USER) == Lits(" AND ") + (Lits("(") + (Lits("user_id") + Lits(" = ")))
  {
  }

  lemma {:induction false} OwnUserText()
    ensures Lits(OWN_USER) == Lits(" AND ") + (Lits("user_id") + Lits(" = "))
  {
  }

  lemma {:induction false} SinceTexts()
    ensures Lits(SINCE_HEAD) == Lits("SELECT ") + Lits("created_at") + Lits(" FROM ") + Lits("events") + Lits(" WHERE ")
                                + (Lits("id") + Lits(" = "))
    ensures Lits(SINCE_USER) == Lits(" AND ") + (Lits("(") + (Lits("user_id") + Lits(" = ")))
    ensures Lits(OWN_USER) == Lits(" AND ") + (Lits("user_id") + Lits(" = "))
  {
    SinceHeadText();
    SinceUserText();
    OwnUserText();
  }

  lemma {:induction false} ListTexts()
    ensures Lits(PROJECT_LIST) == Lits(" OR ") + (Lits("project_id") + Lits(" IN ("))
    ensures Lits("))") == Lits(")") + Lits(")") && Lits("") == []
  {
  }

  lemma {:induction false} EventsHeadText()
    ensures Lits(EVENTS_HEAD) == Lits("SELECT ") + Lits("*") + Lits(" FROM ") + Lits("events") + Lits(" WHERE ")
                                 + (Lits("(") + (Lits("user_id") + Lits(" = ")))
  {
  }

  lemma {:induction false} OwnEventsText()
    ensures Lits(OWN_EVENTS) == Lits("SELECT ") + Lits("*") + Lits(" FROM ") + Lits("events") + Lits(" WHERE ")
                                + (Lits("user_id") + Lits(" = "))
  {
  }

  lemma {:induction false} EventsTexts()
    ensures Lits(EVENTS_HEAD) == Lits("SELECT ") + Lits("*") + Lits(" FROM ") + Lits("events") + Lits(" WHERE ")
                                 + (Lits("(") + (Lits("user_id") + Lits(" = ")))
    ensures Lits(OWN_EVENTS) == Lits("SELECT ") + Lits("*") + Lits(" FROM ") + Lits("events") + Lits(" WHERE ")
                                + (Lits("user_id") + Lits(" = "))
  {
    EventsHeadText();
    OwnEventsText();
  }

  lemma {:induction false} EventsAfterText()
    ensures Lits(EVENTS_AFTER) == Lits("))") + (Lits(" AND ") + (Lits("created_at") + Lits(" > ")))
  {
  }

  lemma {:induction false} OwnAfterText()
    ensures Lits(OWN_AFTER) == Lits(" AND ") + (Lits("created_at") + Lits(" > "))
  {
  }

  lemma {:induction false} OrderText()
    ensures Lits(EVENTS_ORDER) == Lits(" ORDER BY ") + Lits("created_at") + Lits(" ASC")
  {
  }

  lemma {:induction false} AfterTexts()
    ensures Lits(EVENTS_AFTER) == Lits("))") + (Lits(" AND ") + (Lits("created_at") + Lits(" > ")))
    ensures Lits(OWN_AFTER) == Lits(" AND ") + (Lits("created_at") + Lits(" > "))
    ensures Lits(EVENTS_ORDER) == Lits(" ORDER BY ") + Lits("created_at") + Lits(" ASC")
  {
    EventsAfterText();
    OwnAfterText();
    OrderText();
  }

  /** Operand by operand and flat, the same list of pieces. */
  lemma {:induction false} FlatEither<T>(user: seq<T>, x: seq<T>, or: seq<T>, list: seq<T>, ids: seq<T>, open: seq<T>,
                                         close: seq<T>)
    ensures open + (user + x + or + (list + ids + close)) + close
         == (open + user) + x + (or + list) + ids + (close + close)
  {
    var either := user + x + or + (list + ids + close);
    assert either == user + x + (or + list) + ids + close;
    assert open + either == open + user + x + (or + list) + ids + close;
  }

  lemma {:induction false} EitherIsShown(userId: int, projectIds: seq<int>)
    requires projectIds != []
    ensures var mine := Mine(userId, projectIds);
            Operand(mine, Show(mine))
            == Lits("(") + (Lits("user_id") + Lits(" = ")) + [Arg(userId)] + InList(PROJECT_LIST, projectIds) + Lits("))")
  {
    ListTexts();
    InListIsShown(PROJECT_LIST, projectIds);
    var list, ids := Lits("project_id") + Lits(" IN ("), ShowList(projectIds);
    FlatEither(Lits("user_id") + Lits(" = "), [Arg(userId)], Lits(" OR "), list, ids, Lits("("), Lits(")"));
    Associate(Lits("(") + (Lits("user_id") + Lits(" = ")) + [Arg(userId)], Lits(" OR ") + list, ids);
  }

  lemma {:induction false} SinceIsShown(sinceId: int, userId: int, projectIds: seq<int>)
    ensures SinceStatement(sinceId, userId, projectIds) == ShowQuery(CursorQuery(sinceId, userId, projectIds))
  {
    SinceTexts();
    ListTexts();
    var head := Lits("SELECT ") + Lits("created_at") + Lits(" FROM ") + Lits("events") + Lits(" WHERE ");
    var byId := Lits("id") + Lits(" = ");
    var user := Lits("user_id") + Lits(" = ");
    if projectIds == [] {
      assert Show(Equals("id", sinceId)) == byId + [Arg(sinceId)];
      assert Show(Equals("user_id", userId)) == user + [Arg(userId)];
      FlatAnd(head, byId, [Arg(sinceId)], Lits(" AND "), user, [Arg(userId)]);
    } else {
      EitherIsShown(userId, projectIds);
      assert Show(Equals("id", sinceId)) == byId + [Arg(sinceId)];
      FlatAndList(head, byId, [Arg(sinceId)], Lits(" AND "), Lits("(") + user, [Arg(userId)],
                  InList(PROJECT_LIST, projectIds), Lits("))"));
    }
  }

  lemma {:induction false} FlatAnd<T>(head: seq<T>, a: seq<T>, x: seq<T>, and: seq<T>, b: seq<T>, y: seq<T>)
    ensures (head + a) + x + ((and + b) + y + []) == head + (a + x + and + (b + y)) + []
  {
  }

  lemma {:induction false} FlatAndList<T>(head: seq<T>, a: seq<T>, x: seq<T>, and: seq<T>, b: seq<T>, y: seq<T>,
                                          list: seq<T>, close: seq<T>)
    ensures (head + a) + x + (and + b) + y + list + close == head + (a + x + and + (b + y + list + close)) + []
  {
    FlatAnd(head, a, x, and, b, y + list + close);
  }

  lemma {:induction false} ReplayIsShown(userId: int, projectIds: seq<int>, sinceTs: int)
    ensures ReplayStatement(userId, projectIds, sinceTs) == ShowQuery(ReplayQuery(userId, projectIds, sinceTs))
  {
    EventsTexts();
    ListTexts();
    AfterTexts();
    var head := Lits("SELECT ") + Lits("*") + Lits(" FROM ") + Lits("events") + Lits(" WHERE ");
    var user, after := Lits("user_id") + Lits(" = "), Lits("created_at") + Lits(" > ");
    if projectIds == [] {
      assert Show(Equals("user_id", userId)) == user + [Arg(userId)];
      assert Show(Above("created_at", sinceTs)) == after + [Arg(sinceTs)];
      FlatOrdered(head, user, [Arg(userId)], Lits(" AND "), after, [Arg(sinceTs)], Lits(EVENTS_ORDER));
    } else {
      EitherIsShown(userId, projectIds);
      assert Show(Above("created_at", sinceTs)) == after + [Arg(sinceTs)];
      FlatOrderedList(head, Lits("(") + user, [Arg(userId)], InList(PROJECT_LIST, projectIds), Lits("))"),
                      Lits(" AND "), after, [Arg(sinceTs)], Lits(EVENTS_ORDER));
    }
  }

  lemma {:induction false} FlatOrdered<T>(head: seq<T>, a: seq<T>, x: seq<T>, and: seq<T>, b: seq<T>, y: seq<T>,
                                          order: seq<T>)
    ensures (head + a) + x + ((and + b) + y + order) == head + (a + x + and + (b + y)) + order
  {
  }

  lemma {:induction false} FlatOrderedList<T>(head: seq<T>, a: seq<T>, x: seq<T>, list: seq<T>, close: seq<T>,
                                              and: seq<T>, b: seq<T>, y: seq<T>, order: seq<T>)
    ensures (head + a) + x + list + (close + (and + b)) + y + order
         == head + (a + x + list + close + and + (b + y)) + order
  {
    var either := a + x + list + close;
    assert (head + a) + x + list + (close + (and + b)) == head + either + (and + b);
    assert either + and + (b + y) == either + (and + b) + y;
  }

  lemma {:induction false} SinceStart()
    ensures SINCE_HEAD + "$" + "1" == "SELECT created_at FROM events WHERE id = $1"
    ensures OWN_USER + "$2" + "" == " AND user_id = $2"
    ensures SINCE_USER + "$" + "2" + PROJECT_LIST == " AND (user_id = $2 OR project_id IN ("
  {
    assert SINCE_HEAD == "SELECT created_at FROM events WHERE id = ";
    assert SINCE_USER + "$" + "2" == " AND (user_id = $2";
  }

  lemma {:induction false} SinceSql(listed: string)
    ensures SINCE_HEAD + "$1" + (OWN_USER + "$2" + "")
         == "SELECT created_at FROM events WHERE id = $1" + " AND user_id = $2"
    ensures SINCE_HEAD + "$" + Numeral(1) + (SINCE_USER + "$" + Numeral(2)) + (PROJECT_LIST + listed + "))")
         == "SELECT created_at FROM events WHERE id = $1" + " AND (user_id = $2 OR project_id IN (" + listed + "))"
  {
    assert Numeral(1) == "1" && Numeral(2) == "2" && "$" + "1" == "$1";
    SinceStart();
    var head, user := SINCE_HEAD + "$" + "1", SINCE_USER + "$" + "2";
    Associate(SINCE_HEAD, "$", "1");
    Associate(head + user, PROJECT_LIST, listed);
    Associate(head + user, PROJECT_LIST + listed, "))");
    Associate(head, user, PROJECT_LIST);
  }

  lemma {:induction false} ReplayStart()
    ensures EVENTS_HEAD + "$" + "1" + PROJECT_LIST == "SELECT * FROM events WHERE (user_id = $1 OR project_id IN ("
  {
    EventsHeadSql();
    assert EVENTS_HEAD + "$" + "1" == "SELECT * FROM events WHERE (user_id = $1";
    var start := "SELECT * FROM events WHERE (user_id = $1";
    assert start + PROJECT_LIST == "SELECT * FROM events WHERE (user_id = $1 OR project_id IN (";
  }

  lemma {:induction false} EventsHeadSql()
    ensures EVENTS_HEAD == "SELECT * FROM events WHERE (user_id = "
  {
  }

  lemma {:induction false} OwnStart()
    ensures OWN_EVENTS + "$1" == "SELECT * FROM events WHERE user_id = $1"
  {
  }

  lemma {:induction false} ReplayEnd()
    ensures EVENTS_AFTER + "$" == ")) AND created_at > $"
    ensures OWN_AFTER + "$2" + EVENTS_ORDER == " AND created_at > $2 ORDER BY created_at ASC"
  {
    OwnEnd();
  }

  lemma {:induction false} OwnEnd()
    ensures OWN_AFTER + "$2" + EVENTS_ORDER == " AND created_at > $2 ORDER BY created_at ASC"
  {
    assert OWN_AFTER + "$2" == " AND created_at > $2";
  }

  lemma {:induction false} ReplaySql(listed: string, n: string)
    ensures OWN_EVENTS + "$1" + (OWN_AFTER + "$2" + EVENTS_ORDER)
         == "SELECT * FROM events WHERE user_id = $1" + " AND created_at > $2 ORDER BY created_at ASC"
    ensures EVENTS_HEAD + "$" + Numeral(1) + (PROJECT_LIST + listed + (EVENTS_AFTER + "$" + n + EVENTS_ORDER))
         == "SELECT * FROM events WHERE (user_id = $1 OR project_id IN (" + listed + ")) AND created_at > $" + n
            + " ORDER BY created_at ASC"
  {
    assert Numeral(1) == "1";
    ReplayStart();
    OwnStart();
    ReplayEnd();
    var head := EVENTS_HEAD + "$" + "1";
    Associate(head, PROJECT_LIST, listed);
    Associate(head, PROJECT_LIST + listed, EVENTS_AFTER + "$" + n + EVENTS_ORDER);
    Associate(head + PROJECT_LIST + listed, EVENTS_AFTER + "$", n);
    Associate(head + PROJECT_LIST + listed, EVENTS_AFTER + "$" + n, EVENTS_ORDER);
  }

  /** For any number of projects, cursor, user and every project id each in its own place. */
  method BuildSinceQuery(sinceId: int, userId: int, projectIds: seq<int>) returns (sql: string, params: seq<int>)
    ensures params == [sinceId, userId] + projectIds
    ensures sql == if projectIds == [] then "SELECT created_at FROM events WHERE id = $1" + " AND user_id = $2"
                   else "SELECT created_at FROM events WHERE id = $1" + " AND (user_id = $2 OR project_id IN ("
                        + Join(", ", Placeholders(|projectIds|, 3)) + "))"
    ensures InOrder(sql)
    ensures BindPositional(PgToSqlite(sql), params) == Some(ShowQuery(CursorQuery(sinceId, userId, projectIds)))
  {
    SinceIsShown(sinceId, userId, projectIds);
    SinceSql(Join(", ", Placeholders(|projectIds|, 3)));
    if projectIds == [] {
      sql, params := SINCE_HEAD + "$1" + (OWN_USER + "$2" + ""), [sinceId, userId];
      SinceTextsFollow();
      OwnTextsFollow();
      TwoPlaceholders(SINCE_HEAD, OWN_USER, "", sinceId, userId);
      assert [sinceId, userId] + [] == params;
    } else {
      sql := SINCE_HEAD + "$" + Numeral(1) + (SINCE_USER + "$" + Numeral(2))
             + (PROJECT_LIST + Join(", ", Placeholders(|projectIds|, 3)) + "))");
      params := [sinceId, userId] + projectIds;
      SinceTextRuns(sinceId, userId, projectIds);
    }
  }

  lemma {:induction false} SinceTextRuns(sinceId: int, userId: int, projectIds: seq<int>)
    requires projectIds != []
    ensures var sql := SINCE_HEAD + "$" + Numeral(1) + (SINCE_USER + "$" + Numeral(2))
                       + (PROJECT_LIST + Join(", ", Placeholders(|projectIds|, 3)) + "))");
            && InOrder(sql)
            && BindPositional(PgToSqlite(sql), [sinceId, userId] + projectIds)
               == Some(SinceStatement(sinceId, userId, projectIds))
  {
    var a, b := Segment(SINCE_HEAD, 1), Segment(SINCE_USER, 2);
    SinceTextsFollow();
    OrderTextFollows();
    ListedStatementRuns([a, b], PROJECT_LIST, projectIds, [], "))", [sinceId, userId], []);
    TwoSegments(a, b, sinceId, userId);
    assert Statement([], "))", []) == Lits("))");
    Associate(Lits(SINCE_HEAD) + [Arg(sinceId)] + Lits(SINCE_USER) + [Arg(userId)],
              InList(PROJECT_LIST, projectIds), Lits("))"));
    assert [sinceId, userId] + (projectIds + []) == [sinceId, userId] + projectIds;
  }

  /** For any number of projects, user, every project id and the timestamp each in its own place. */
  method BuildReplayQuery(userId: int, projectIds: seq<int>, sinceTs: int) returns (sql: string, params: seq<int>)
    ensures params == [userId] + projectIds + [sinceTs]
    ensures sql == if projectIds == [] then
                     "SELECT * FROM events WHERE user_id = $1" + " AND created_at > $2 ORDER BY created_at ASC"
                   else
                     "SELECT * FROM events WHERE (user_id = $1 OR project_id IN ("
                     + Join(", ", Placeholders(|projectIds|, 2)) + ")) AND created_at > $" + Numeral(|projectIds| + 2)
                     + " ORDER BY created_at ASC"
    ensures InOrder(sql)
    ensures BindPositional(PgToSqlite(sql), params) == Some(ShowQuery(ReplayQuery(userId, projectIds, sinceTs)))
  {
    ReplayIsShown(userId, projectIds, sinceTs);
    ReplaySql(Join(", ", Placeholders(|projectIds|, 2)), Numeral(|projectIds| + 2));
    if projectIds == [] {
      sql, params := OWN_EVENTS + "$1" + (OWN_AFTER + "$2" + EVENTS_ORDER), [userId, sinceTs];
      OwnTextsFollow();
      OrderTextFollows();
      TwoPlaceholders(OWN_EVENTS, OWN_AFTER, EVENTS_ORDER, userId, sinceTs);
      assert [userId] + [] + [sinceTs] == params;
    } else {
      sql := EVENTS_HEAD + "$" + Numeral(1)
             + (PROJECT_LIST + Join(", ", Placeholders(|projectIds|, 2))
                + (EVENTS_AFTER + "$" + Numeral(|projectIds| + 2) + EVENTS_ORDER));
      params := [userId] + projectIds + [sinceTs];
      ReplayTextRuns(userId, projectIds, sinceTs);
    }
  }

  lemma {:induction false} ReplayTextRuns(userId: int, projectIds: seq<int>, sinceTs: int)
    requires projectIds != []
    ensures var sql := EVENTS_HEAD + "$" + Numeral(1)
                       + (PROJECT_LIST + Join(", ", Placeholders(|projectIds|, 2))
                          + (EVENTS_AFTER + "$" + Numeral(|projectIds| + 2) + EVENTS_ORDER));
            && InOrder(sql)
            && BindPositional(PgToSqlite(sql), [userId] + projectIds + [sinceTs])
               == Some(ReplayStatement(userId, projectIds, sinceTs))
  {
    var a, b := Segment(EVENTS_HEAD, 1), Segment(EVENTS_AFTER, |projectIds| + 2);
    EventsTextsFollow();
    OrderTextFollows();
    ListedStatementRuns([a], PROJECT_LIST, projectIds, [b], EVENTS_ORDER, [userId], [sinceTs]);
    OneSegment(a, userId);
    LastSegment(b, EVENTS_ORDER, sinceTs);
    Associate(Lits(EVENTS_HEAD) + [Arg(userId)], InList(PROJECT_LIST, projectIds),
              Lits(EVENTS_AFTER) + [Arg(sinceTs)] + Lits(EVENTS_ORDER));
    Regroup(Lits(EVENTS_HEAD) + [Arg(userId)] + InList(PROJECT_LIST, projectIds),
            Lits(EVENTS_AFTER), [Arg(sinceTs)], Lits(EVENTS_ORDER));
    Associate(Lits(EVENTS_AFTER), [Arg(sinceTs)], Lits(EVENTS_ORDER));
    assert [userId] + (projectIds + [sinceTs]) == [userId] + projectIds + [sinceTs];
  }

  lemma {:induction false} LastSegment(s: Segment, tail: string, arg: int)
    ensures Render([s], tail) == s.text + "$" + Numeral(s.n) + tail
    ensures Statement([s], tail, [arg]) == Lits(s.text) + [Arg(arg)] + Lits(tail)
  {
    assert [s][1..] == [] && [arg][1..] == [];
  }

  lemma {:induction false} TwoSegments(a: Segment, b: Segment, x: int, y: int)
    ensures Render([a, b], "") == a.text + "$" + Numeral(a.n) + (b.text + "$" + Numeral(b.n))
    ensures Statement([a, b], "", [x, y]) == Lits(a.text) + [Arg(x)] + Lits(b.text) + [Arg(y)]
  {
    assert [a, b][1..] == [b] && [x, y][1..] == [y];
    OneSegment(b, y);
  }
}
