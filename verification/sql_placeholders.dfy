/**
 The `$N` to `?` translation of the SQLite adapter, at character level.

 A statement means a sequence of pieces: text characters and bound arguments. Numbered
 binding puts argument N where `$N` stands; positional binding fills the `?` from left
 to right and insists on as many arguments as there are `?`. Both databases read a
 placeholder only outside quotes; the translation does not know about quotes.
 */
module SqlPlaceholders {
  import opened Text
  import opened Wrappers

  datatype Token = Chr(c: char) | Num(n: nat)

  datatype Piece = Lit(c: char) | Arg(v: int)

  /** Outside quotes, in a string literal, or in a quoted name. A doubled quote leaves and enters again. */
  datatype Quoting = Outside | InString | InName

  function Turn(q: Quoting, c: char): Quoting {
    match q
    case Outside => if c == '\'' then InString else if c == '"' then InName else Outside
    case InString => if c == '\'' then Outside else InString
    case InName => if c == '"' then Outside else InName
  }

  predicate IsQuote(c: char) {
    c == '\'' || c == '"'
  }

  // ---------------------------------------------------------------- the translation

  predicate AtPlaceholder(sql: string) {
    |sql| > 1 && sql[0] == '$' && IsDigit(sql[1])
  }

  /** `re.sub(r"\$\d+", "?", sql)`: leftmost matches, digits taken greedily. */
  function Substitute(sql: string): string {
    if sql == "" then ""
    else if AtPlaceholder(sql) then "?" + Substitute(sql[1 + DigitRun(sql[1..])..])
    else [sql[0]] + Substitute(sql[1..])
  }

  function SpaceRun(s: string): (n: nat)
    ensures n <= |s|
    ensures forall i :: 0 <= i < n ==> IsSpace(s[i])
    ensures n < |s| ==> !IsSpace(s[n])
  {
    if s == "" || !IsSpace(s[0]) then 0 else 1 + SpaceRun(s[1..])
  }

  predicate IsWordChar(c: char) {
    IsLetter(c) || IsDigit(c) || c == '_'
  }

  const FOR_UPDATE := "for update"

  /** Case-insensitive match of the ten characters of FOR UPDATE at the front of s. */
  predicate StartsForUpdate(s: string) {
    |s| >= |FOR_UPDATE| && forall i :: 0 <= i < |FOR_UPDATE| ==> ToLower(s[i]) == FOR_UPDATE[i]
  }

  /** Length of the match of `\s+FOR UPDATE\b` at the front of s, 0 when there is none. */
  function ForUpdateMatch(s: string): (m: nat)
    ensures m <= |s|
    ensures forall i :: 0 <= i < m ==> s[i] != '?' && !IsQuote(s[i])
    ensures m > 0 ==> m > |FOR_UPDATE|
                      && ToLower(s[m - 8]) == 'r' && s[m - 7] == ' ' && ToLower(s[m - 6]) == 'u'
  {
    var w := SpaceRun(s);
    if w > 0 && StartsForUpdate(s[w..])
       && (|s| == w + |FOR_UPDATE| || !IsWordChar(s[w + |FOR_UPDATE|]))
    then
      var m := w + |FOR_UPDATE|;
      assert forall i :: w <= i < m ==> s[i] == s[w..][i - w];
      assert ToLower(s[w..][2]) == 'r' && ToLower(s[w..][3]) == ' ' && ToLower(s[w..][4]) == 'u';
      m
    else 0
  }

  /** The match is whitespace, the clause in any case, and the end of a word; and there is no other. */
  lemma {:induction false} ForUpdateMatchIff(s: string, w: nat)
    requires 0 < w && w + 10 <= |s|
    ensures ForUpdateMatch(s) == w + 10 <==>
              && (forall i :: 0 <= i < w ==> IsSpace(s[i]))
              && (forall i :: 0 <= i < 10 ==> ToLower(s[w + i]) == "for update"[i])
              && (|s| == w + 10 || !(IsLetter(s[w + 10]) || IsDigit(s[w + 10]) || s[w + 10] == '_'))
    ensures ForUpdateMatch(s) > 0 ==> ForUpdateMatch(s) > 10
  {
    var tail := s[w..];
    assert forall i :: 0 <= i < 10 ==> tail[i] == s[w + i];
    if StartsForUpdate(tail) {
      assert ToLower(tail[0]) == 'f';
      assert forall i :: 0 <= i < 10 ==> ToLower(s[w + i]) == "for update"[i];
    }
    if forall i :: 0 <= i < 10 ==> ToLower(s[w + i]) == "for update"[i] {
      assert StartsForUpdate(tail);
    }
  }

  /** `re.sub(r"\s+FOR UPDATE\b", "", sql, flags=re.IGNORECASE)` */
  function StripForUpdate(s: string): string {
    if s == "" then ""
    else
      var m := ForUpdateMatch(s);
      if m > 0 then StripForUpdate(s[m..]) else [s[0]] + StripForUpdate(s[1..])
  }

  function PgToSqlite(sql: string): string {
    StripForUpdate(Substitute(sql))
  }

  // ---------------------------------------------------------------- what SQL text means

  /** The numbered reading of a text: characters and placeholder numbers. */
  function Lex(sql: string, q: Quoting): seq<Token> {
    if sql == "" then []
    else if q.Outside? && AtPlaceholder(sql) then
      var d := DigitRun(sql[1..]);
      [Num(NumberOf(sql[1..][..d]))] + Lex(sql[1 + d..], q)
    else [Chr(sql[0])] + Lex(sql[1..], Turn(q, sql[0]))
  }

  /** The placeholder numbers in textual order. */
  function Numbers(toks: seq<Token>): seq<nat> {
    if toks == [] then []
    else (if toks[0].Num? then [toks[0].n] else []) + Numbers(toks[1..])
  }

  predicate InRange(toks: seq<Token>, args: seq<int>) {
    forall i :: 0 <= i < |toks| && toks[i].Num? ==> 1 <= toks[i].n <= |args|
  }

  function PutArgs(toks: seq<Token>, args: seq<int>): seq<Piece>
    requires InRange(toks, args)
  {
    seq(|toks|, i requires 0 <= i < |toks| =>
      match toks[i]
      case Chr(c) => Lit(c)
      case Num(n) => Arg(args[n - 1]))
  }

  /** PostgreSQL's binding; None when a number has no argument. */
  function BindNumbered(sql: string, args: seq<int>): Option<seq<Piece>> {
    if InRange(Lex(sql, Outside), args) then Some(PutArgs(Lex(sql, Outside), args)) else None
  }

  predicate IsMark(q: Quoting, c: char) {
    q.Outside? && c == '?'
  }

  function CountMarks(text: string, q: Quoting): nat {
    if text == "" then 0 else (if IsMark(q, text[0]) then 1 else 0) + CountMarks(text[1..], Turn(q, text[0]))
  }

  function Fill(text: string, q: Quoting, args: seq<int>): (ps: seq<Piece>)
    requires CountMarks(text, q) == |args|
    ensures |ps| == |text|
  {
    if text == "" then []
    else if IsMark(q, text[0]) then [Arg(args[0])] + Fill(text[1..], q, args[1..])
    else [Lit(text[0])] + Fill(text[1..], Turn(q, text[0]), args)
  }

  /** SQLite's binding; None when the number of arguments is wrong. */
  function BindPositional(text: string, args: seq<int>): Option<seq<Piece>> {
    if CountMarks(text, Outside) == |args| then Some(Fill(text, Outside, args)) else None
  }

  // ---------------------------------------------------------------- meaning is preserved

  function Positional(toks: seq<Token>): string {
    seq(|toks|, i requires 0 <= i < |toks| => if toks[i].Num? then '?' else toks[i].c)
  }

  function AfterToken(q: Quoting, t: Token): Quoting {
    if t.Num? then q else Turn(q, t.c)
  }

  /** Numbers only outside quotes, as reading a text gives them. */
  predicate WellQuoted(toks: seq<Token>, q: Quoting) {
    toks == [] || ((toks[0].Num? ==> q.Outside?) && WellQuoted(toks[1..], AfterToken(q, toks[0])))
  }

  lemma {:induction false} LexIsWellQuoted(sql: string, q: Quoting)
    ensures WellQuoted(Lex(sql, q), q)
  {
    if sql == "" {
    } else if q.Outside? && AtPlaceholder(sql) {
      LexIsWellQuoted(sql[1 + DigitRun(sql[1..])..], q);
    } else {
      LexIsWellQuoted(sql[1..], Turn(q, sql[0]));
    }
  }

  /** Nothing that looks like a placeholder stands inside quotes. */
  predicate NothingQuoted(sql: string, q: Quoting) {
    if sql == "" then true
    else if AtPlaceholder(sql) then q.Outside? && NothingQuoted(sql[1 + DigitRun(sql[1..])..], q)
    else NothingQuoted(sql[1..], Turn(q, sql[0]))
  }

  lemma {:induction false} PositionalHead(t: Token, toks: seq<Token>)
    ensures Positional([t] + toks) == [if t.Num? then '?' else t.c] + Positional(toks)
  {
  }

  lemma {:induction false} SubstituteIsPositional(sql: string, q: Quoting)
    requires NothingQuoted(sql, q)
    ensures Substitute(sql) == Positional(Lex(sql, q))
  {
    if sql == "" {
    } else if AtPlaceholder(sql) {
      var rest := sql[1 + DigitRun(sql[1..])..];
      SubstituteIsPositional(rest, q);
      PositionalHead(Num(NumberOf(sql[1..][..DigitRun(sql[1..])])), Lex(rest, q));
    } else {
      SubstituteIsPositional(sql[1..], Turn(q, sql[0]));
      PositionalHead(Chr(sql[0]), Lex(sql[1..], Turn(q, sql[0])));
    }
  }

  lemma {:induction false} LexInQuotes(sql: string, q: Quoting, m: nat)
    requires !q.Outside? && m <= |sql| && forall i :: 0 <= i < m ==> !IsQuote(sql[i])
    ensures |Lex(sql, q)| == m + |Lex(sql[m..], q)|
  {
    if m == 0 {
      assert sql[0..] == sql;
    } else {
      assert Turn(q, sql[0]) == q;
      LexInQuotes(sql[1..], q, m - 1);
      assert sql[1..][m - 1..] == sql[m..];
    }
  }

  /** A placeholder inside quotes is a text of two characters or more, and becomes one. */
  lemma {:induction false} SubstituteShortens(sql: string, q: Quoting)
    ensures |Substitute(sql)| <= |Lex(sql, q)|
    ensures |Substitute(sql)| == |Lex(sql, q)| ==> NothingQuoted(sql, q)
  {
    if sql == "" {
    } else if AtPlaceholder(sql) {
      var m := 1 + DigitRun(sql[1..]);
      SubstituteShortens(sql[m..], q);
      if !q.Outside? {
        assert forall i :: 1 <= i < m ==> sql[i] == sql[1..][i - 1];
        LexInQuotes(sql, q, m);
      }
    } else {
      SubstituteShortens(sql[1..], Turn(q, sql[0]));
    }
  }

  /** No `?` outside quotes. */
  predicate NoMarks(toks: seq<Token>, q: Quoting) {
    toks == []
    || ((toks[0].Chr? ==> !IsMark(q, toks[0].c)) && NoMarks(toks[1..], AfterToken(q, toks[0])))
  }

  /** The numbers are first, first + 1, ... in textual order. */
  ghost predicate Consecutive(ns: seq<nat>, first: nat) {
    forall i :: 0 <= i < |ns| ==> ns[i] == first + i
  }

  /**
   Outside quotes, placeholders stand in textual order as exactly $1..$n and `?` does not stand;
   inside quotes nothing looks like a placeholder.
   */
  ghost predicate InOrder(sql: string) {
    && Consecutive(Numbers(Lex(sql, Outside)), 1) && NoMarks(Lex(sql, Outside), Outside)
    && NothingQuoted(sql, Outside)
  }

  lemma {:induction false} PositionalTail(toks: seq<Token>)
    requires toks != []
    ensures Positional(toks)[1..] == Positional(toks[1..])
  {
  }

  lemma {:induction false} CountMarksPositional(toks: seq<Token>, q: Quoting)
    requires WellQuoted(toks, q)
    ensures CountMarks(Positional(toks), q) >= |Numbers(toks)|
    ensures CountMarks(Positional(toks), q) == |Numbers(toks)| <==> NoMarks(toks, q)
  {
    if toks == [] {
    } else {
      PositionalTail(toks);
      CountMarksPositional(toks[1..], AfterToken(q, toks[0]));
    }
  }

  /** From position `at` on, filling left to right is putting argument N at number N. */
  lemma {:induction false} FillInOrder(toks: seq<Token>, q: Quoting, args: seq<int>, at: nat)
    requires WellQuoted(toks, q) && NoMarks(toks, q) && Consecutive(Numbers(toks), at + 1)
    requires at + |Numbers(toks)| == |args|
    ensures InRange(toks, args)
    ensures CountMarks(Positional(toks), q) == |args[at..]|
    ensures Fill(Positional(toks), q, args[at..]) == PutArgs(toks, args)
  {
    CountMarksPositional(toks, q);
    if toks == [] {
    } else {
      PositionalTail(toks);
      if toks[0].Num? {
        assert Numbers(toks)[0] == at + 1 && Numbers(toks)[1..] == Numbers(toks[1..]);
        FillInOrder(toks[1..], q, args, at + 1);
        assert args[at..][1..] == args[at + 1..];
      } else {
        assert Numbers(toks) == Numbers(toks[1..]);
        FillInOrder(toks[1..], Turn(q, toks[0].c), args, at);
      }
      assert InRange(toks, args) by {
        forall i | 0 <= i < |toks| && toks[i].Num? ensures 1 <= toks[i].n <= |args| {
          if i > 0 {
            assert toks[i] == toks[1..][i - 1];
          }
        }
      }
      assert PutArgs(toks, args) == [PutArgs(toks, args)[0]] + PutArgs(toks[1..], args);
    }
  }

  /** The two bindings agree, and succeed, for every list of as many arguments as placeholders. */
  ghost predicate Preserved(sql: string) {
    forall args: seq<int> | |args| == |Numbers(Lex(sql, Outside))| ::
      BindNumbered(sql, args).Some? && BindPositional(Substitute(sql), args) == BindNumbered(sql, args)
  }

  /** Where filling agrees with 0, 1, 2, ... as the arguments, the numbers are consecutive. */
  lemma {:induction false} FillShowsOrder(toks: seq<Token>, q: Quoting, args: seq<int>, at: nat)
    requires WellQuoted(toks, q) && NoMarks(toks, q) && InRange(toks, args)
    requires at + |Numbers(toks)| == |args|
    requires forall i :: 0 <= i < |args| ==> args[i] == i
    requires CountMarks(Positional(toks), q) == |args[at..]|
    requires Fill(Positional(toks), q, args[at..]) == PutArgs(toks, args)
    ensures Consecutive(Numbers(toks), at + 1)
  {
    if toks == [] {
    } else {
      PositionalTail(toks);
      CountMarksPositional(toks[1..], AfterToken(q, toks[0]));
      var filled := Fill(Positional(toks), q, args[at..]);
      assert PutArgs(toks, args)[1..] == PutArgs(toks[1..], args);
      assert filled[0] == PutArgs(toks, args)[0];
      if toks[0].Num? {
        assert args[at..][1..] == args[at + 1..];
        assert filled[1..] == Fill(Positional(toks[1..]), q, args[at + 1..]);
        FillShowsOrder(toks[1..], q, args, at + 1);
      } else {
        assert filled[1..] == Fill(Positional(toks[1..]), Turn(q, toks[0].c), args[at..]);
        FillShowsOrder(toks[1..], Turn(q, toks[0].c), args, at);
      }
    }
  }

  /** The translation preserves meaning for exactly the texts whose placeholders are in order. */
  lemma {:induction false} PreservedIffInOrder(sql: string)
    ensures Preserved(sql) <==> InOrder(sql)
  {
    if InOrder(sql) {
      InOrderIsPreserved(sql);
    }
    if Preserved(sql) {
      PreservedIsInOrder(sql);
    }
  }

  lemma {:induction false} InOrderIsPreserved(sql: string)
    requires InOrder(sql)
    ensures Preserved(sql)
  {
    var toks := Lex(sql, Outside);
    LexIsWellQuoted(sql, Outside);
    SubstituteIsPositional(sql, Outside);
    forall args: seq<int> | |args| == |Numbers(toks)|
      ensures BindNumbered(sql, args).Some? && BindPositional(Substitute(sql), args) == BindNumbered(sql, args)
    {
      FillInOrder(toks, Outside, args, 0);
      assert args[0..] == args;
    }
  }

  lemma {:induction false} PreservedIsInOrder(sql: string)
    requires Preserved(sql)
    ensures InOrder(sql)
  {
    var toks := Lex(sql, Outside);
    LexIsWellQuoted(sql, Outside);
    var args: seq<int> := seq(|Numbers(toks)|, i => i);
    assert BindNumbered(sql, args).Some? && BindPositional(Substitute(sql), args) == BindNumbered(sql, args);
    assert |Fill(Substitute(sql), Outside, args)| == |PutArgs(toks, args)|;
    SubstituteShortens(sql, Outside);
    SubstituteIsPositional(sql, Outside);
    CountMarksPositional(toks, Outside);
    assert args[0..] == args;
    FillShowsOrder(toks, Outside, args, 0);
  }

  // ---------------------------------------------------------------- FOR UPDATE

  /** The text of a statement with every argument shown as `?`. */
  function Skeleton(ps: seq<Piece>): string {
    seq(|ps|, i requires 0 <= i < |ps| => if ps[i].Lit? then ps[i].c else '?')
  }

  function AfterPiece(q: Quoting, p: Piece): Quoting {
    if p.Lit? then Turn(q, p.c) else q
  }

  /** The statement without its FOR UPDATE clauses, read on pieces; quoted text has no clauses. */
  function WithoutForUpdate(ps: seq<Piece>, q: Quoting): seq<Piece> {
    if ps == [] then []
    else
      var m := ForUpdateMatch(Skeleton(ps));
      if m > 0 && q.Outside? then WithoutForUpdate(ps[m..], q)
      else [ps[0]] + WithoutForUpdate(ps[1..], AfterPiece(q, ps[0]))
  }

  lemma {:induction false} SkeletonOfFill(text: string, q: Quoting, args: seq<int>)
    requires CountMarks(text, q) == |args|
    ensures Skeleton(Fill(text, q, args)) == text
  {
    if text == "" {
    } else {
      var rest := if IsMark(q, text[0]) then args[1..] else args;
      SkeletonOfFill(text[1..], Turn(q, text[0]), rest);
      assert Skeleton(Fill(text, q, args)) == [text[0]] + Skeleton(Fill(text[1..], Turn(q, text[0]), rest));
    }
  }

  lemma {:induction false} FillSkipsPlain(text: string, q: Quoting, m: nat, args: seq<int>)
    requires m <= |text| && forall i :: 0 <= i < m ==> text[i] != '?' && !IsQuote(text[i])
    ensures CountMarks(text[m..], q) == CountMarks(text, q)
    ensures CountMarks(text, q) == |args| ==> Fill(text, q, args)[m..] == Fill(text[m..], q, args)
    ensures CountMarks(text, q) == |args| ==> forall i :: 0 <= i < m ==> Fill(text, q, args)[i] == Lit(text[i])
  {
    if m == 0 {
      assert text[0..] == text;
    } else {
      assert Turn(q, text[0]) == q;
      FillSkipsPlain(text[1..], q, m - 1, args);
      assert text[1..][m - 1..] == text[m..];
      if CountMarks(text, q) == |args| {
        assert Fill(text, q, args)[1..] == Fill(text[1..], q, args);
        assert forall i :: 1 <= i < m ==> Fill(text, q, args)[i] == Fill(text[1..], q, args)[i - 1];
      }
    }
  }

  lemma {:induction false} StripKeepsMarks(text: string, q: Quoting)
    ensures CountMarks(StripForUpdate(text), q) == CountMarks(text, q)
    decreases |text|
  {
    if text == "" {
    } else {
      var m := ForUpdateMatch(text);
      if m > 0 {
        FillSkipsPlain(text, q, m, []);
        StripKeepsMarks(text[m..], q);
      } else {
        StripKeepsMarks(text[1..], Turn(q, text[0]));
        assert StripForUpdate(text)[1..] == StripForUpdate(text[1..]);
      }
    }
  }

  /** No match of the clause starts inside quotes. */
  predicate NoQuotedClause(text: string, q: Quoting)
    decreases |text|
  {
    if text == "" then true
    else
      var m := ForUpdateMatch(text);
      if m > 0 then q.Outside? && NoQuotedClause(text[m..], q) else NoQuotedClause(text[1..], Turn(q, text[0]))
  }

  /** Removing the clause from the text removes it from the statement and moves no argument. */
  lemma {:induction false} StripMovesNoArgument(text: string, q: Quoting, args: seq<int>)
    requires CountMarks(text, q) == |args| && NoQuotedClause(text, q)
    ensures CountMarks(StripForUpdate(text), q) == |args|
    ensures Fill(StripForUpdate(text), q, args) == WithoutForUpdate(Fill(text, q, args), q)
    decreases |text|
  {
    SkeletonOfFill(text, q, args);
    if text == "" {
    } else {
      var m := ForUpdateMatch(text);
      if m > 0 {
        FillSkipsPlain(text, q, m, args);
        StripMovesNoArgument(text[m..], q, args);
      } else {
        var rest := if IsMark(q, text[0]) then args[1..] else args;
        StripMovesNoArgument(text[1..], Turn(q, text[0]), rest);
        assert StripForUpdate(text)[1..] == StripForUpdate(text[1..]);
        assert Fill(text, q, args)[1..] == Fill(text[1..], Turn(q, text[0]), rest);
      }
    }
  }

  lemma {:induction false} QuotedStays(ps: seq<Piece>, q: Quoting, m: nat)
    requires !q.Outside? && m <= |ps| && forall i :: 0 <= i < m ==> ps[i].Lit? && !IsQuote(ps[i].c)
    ensures |WithoutForUpdate(ps, q)| == m + |WithoutForUpdate(ps[m..], q)|
  {
    if m == 0 {
      assert ps[0..] == ps;
    } else {
      assert AfterPiece(q, ps[0]) == q;
      QuotedStays(ps[1..], q, m - 1);
      assert ps[1..][m - 1..] == ps[m..];
    }
  }

  /** Text that is stripped inside quotes is missing from the statement. */
  lemma {:induction false} StripShortens(text: string, q: Quoting, args: seq<int>)
    requires CountMarks(text, q) == |args|
    ensures |StripForUpdate(text)| <= |WithoutForUpdate(Fill(text, q, args), q)|
    ensures |StripForUpdate(text)| == |WithoutForUpdate(Fill(text, q, args), q)| ==> NoQuotedClause(text, q)
    decreases |text|
  {
    SkeletonOfFill(text, q, args);
    if text == "" {
    } else {
      var m := ForUpdateMatch(text);
      if m > 0 {
        FillSkipsPlain(text, q, m, args);
        StripShortens(text[m..], q, args);
        if !q.Outside? {
          QuotedStays(Fill(text, q, args), q, m);
        }
      } else {
        var rest := if IsMark(q, text[0]) then args[1..] else args;
        StripShortens(text[1..], Turn(q, text[0]), rest);
        assert Fill(text, q, args)[1..] == Fill(text[1..], Turn(q, text[0]), rest);
      }
    }
  }

  /** Stripping a text strips the statement of its clauses exactly if none is matched inside quotes. */
  lemma {:induction false} StripIsFaithfulIff(text: string, args: seq<int>)
    requires CountMarks(text, Outside) == |args|
    ensures BindPositional(StripForUpdate(text), args).Some?
    ensures BindPositional(StripForUpdate(text), args).value == WithoutForUpdate(Fill(text, Outside, args), Outside)
       <==> NoQuotedClause(text, Outside)
  {
    StripKeepsMarks(text, Outside);
    StripShortens(text, Outside, args);
    if NoQuotedClause(text, Outside) {
      StripMovesNoArgument(text, Outside, args);
    }
  }

  /**
   The whole adapter on well-ordered text: SQLite runs the PostgreSQL statement minus its FOR
   UPDATE clauses exactly if no clause is matched inside quotes.
   */
  lemma {:induction false} AdapterPreservesMeaning(sql: string, args: seq<int>)
    requires InOrder(sql) && |args| == |Numbers(Lex(sql, Outside))|
    ensures BindNumbered(sql, args).Some?
    ensures BindPositional(PgToSqlite(sql), args) == Some(WithoutForUpdate(BindNumbered(sql, args).value, Outside))
       <==> NoQuotedClause(Substitute(sql), Outside)
  {
    PreservedIffInOrder(sql);
    assert Preserved(sql);
    StripIsFaithfulIff(Substitute(sql), args);
  }

  /** No `R U`, so in particular no FOR UPDATE. */
  ghost predicate NoRU(s: string) {
    forall i {:trigger s[i]} :: 0 <= i < |s| - 2 && ToLower(s[i]) == 'r' && s[i + 1] == ' ' ==> ToLower(s[i + 2]) != 'u'
  }

  lemma {:induction false} NoRUTail(s: string)
    requires s != "" && NoRU(s)
    ensures NoRU(s[1..])
  {
    var t := s[1..];
    forall i | 0 <= i < |t| - 2 && ToLower(t[i]) == 'r' && t[i + 1] == ' '
      ensures ToLower(t[i + 2]) != 'u'
    {
      assert s[i + 1] == t[i] && s[i + 2] == t[i + 1] && s[i + 3] == t[i + 2];
    }
  }

  lemma {:induction false} ClauseAloneMatches()
    ensures StripForUpdate(" FOR UPDATE") == ""
  {
    var clause := " FOR UPDATE";
    assert clause[1..] == "FOR UPDATE";
    assert SpaceRun(clause[1..]) == 0;
    assert SpaceRun(clause) == 1;
    assert ForUpdateMatch(clause) == |clause|;
    assert clause[|clause|..] == "";
  }

  lemma {:induction false} NoMatchBeforeClause(t: string, clause: string)
    requires t != "" && NoRU(t) && !IsSpace(t[|t| - 1])
    requires clause == " FOR UPDATE"
    ensures ForUpdateMatch(t + clause) == 0
  {
    SpaceRunStopsInside(t, clause);
  }

  /** The row-locking queries: a trailing clause goes, the rest of the text stays as it was. */
  lemma {:induction false} TrailingClauseGone(t: string)
    requires NoRU(t) && (t == "" || !IsSpace(t[|t| - 1]))
    ensures StripForUpdate(t + " FOR UPDATE") == t
  {
    var clause := " FOR UPDATE";
    if t == "" {
      assert t + clause == clause;
      ClauseAloneMatches();
    } else {
      NoMatchBeforeClause(t, clause);
      assert (t + clause)[1..] == t[1..] + clause;
      NoRUTail(t);
      TrailingClauseGone(t[1..]);
    }
  }

  lemma {:induction false} SpaceRunStopsInside(t: string, rest: string)
    requires t != "" && !IsSpace(t[|t| - 1])
    ensures SpaceRun(t + rest) < |t|
  {
    var s := t + rest;
    assert s[|t| - 1] == t[|t| - 1];
  }
}
