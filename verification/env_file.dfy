/**
 The client's env file: `KEY=value` lines, parsed and never executed, and the order in which
 file and environment are asked.
 */
module EnvFile {
  import opened Text
  import opened Wrappers

  const URL_VAR := "AGENT_GTD_URL"
  const API_KEY_VAR := "AGENT_GTD_API_KEY"

  /** Characters that end a line for `str.splitlines()`. */
  predicate IsBreak(c: char) {
    var n := c as int;
    10 <= n <= 13 || 28 <= n <= 30 || n == 0x85 || n == 0x2028 || n == 0x2029
  }

  predicate Unbroken(s: string) {
    forall i :: 0 <= i < |s| ==> !IsBreak(s[i])
  }

  function FirstBreak(s: string): (n: nat)
    ensures n <= |s| && forall i :: 0 <= i < n ==> !IsBreak(s[i])
    ensures n < |s| ==> IsBreak(s[n])
  {
    if s == "" || IsBreak(s[0]) then 0 else 1 + FirstBreak(s[1..])
  }

  /** Where the next line begins: a carriage return and a line feed are one break. */
  function AfterBreak(s: string, n: nat): (m: nat)
    requires n < |s|
    ensures n < m <= |s|
  {
    if s[n] == '\r' && n + 1 < |s| && s[n + 1] == '\n' then n + 2 else n + 1
  }

  function SplitLines(s: string): (lines: seq<string>)
    ensures forall i :: 0 <= i < |lines| ==> Unbroken(lines[i])
    decreases |s|
  {
    if s == "" then []
    else
      var n := FirstBreak(s);
      if n == |s| then [s[..n]]
      else [s[..n]] + SplitLines(s[AfterBreak(s, n)..])
  }

  function LStrip(s: string): string {
    if s != "" && IsSpace(s[0]) then LStrip(s[1..]) else s
  }

  function RStrip(s: string): string {
    if s != "" && IsSpace(s[|s| - 1]) then RStrip(s[..|s| - 1]) else s
  }

  function Strip(s: string): string {
    RStrip(LStrip(s))
  }

  predicate Quoted(s: string) {
    |s| >= 2 && s[0] == s[|s| - 1] && (s[0] == '\'' || s[0] == '"')
  }

  function Unquote(s: string): string {
    if Quoted(s) then s[1..|s| - 1] else s
  }

  predicate Exported(line: string) {
    "export " <= line || "export\t" <= line
  }

  /** Index of the first `=`, or the length. */
  function FirstEquals(s: string): (n: nat)
    ensures n <= |s| && (forall i :: 0 <= i < n ==> s[i] != '=') && (n < |s| ==> s[n] == '=')
  {
    if s == "" || s[0] == '=' then 0 else 1 + FirstEquals(s[1..])
  }

  function KeyValue(line: string): Option<(string, string)> {
    var n := FirstEquals(line);
    var key := Strip(line[..n]);
    if n == |line| || !Wanted(key) then None
    else Some((key, Unquote(Strip(line[n + 1..]))))
  }

  predicate Wanted(key: string) {
    key == URL_VAR || key == API_KEY_VAR
  }

  /** What one line assigns, if it assigns a wanted variable. */
  function Assignment(raw: string): Option<(string, string)> {
    var stripped := Strip(raw);
    if stripped == "" || stripped[0] == '#' then None
    else
      KeyValue(if Exported(stripped) then LStrip(stripped[6..]) else stripped)
  }

  function Values(lines: seq<string>): map<string, string> {
    if lines == [] then map[]
    else
      var before := Values(lines[..|lines| - 1]);
      match Assignment(lines[|lines| - 1])
      case Some((key, value)) => before[key := value]
      case None => before
  }

  method Parse(text: string) returns (values: map<string, string>)
    ensures values == Values(SplitLines(text))
  {
    values := map[];
    var lines := SplitLines(text);
    for i := 0 to |lines|
      invariant values == Values(lines[..i])
    {
      assert lines[..i + 1][..i] == lines[..i];
      match Assignment(lines[i])
      case Some((key, value)) => values := values[key := value];
      case None =>
    }
    assert lines[..|lines|] == lines;
  }

  // ---------------------------------------------------------------- lines

  /** The ten characters that end a line. */
  lemma {:induction false} BreaksAreThese(c: char)
    ensures IsBreak(c) <==>
              c in {'\n', '\r'} || c as int in {0x0b, 0x0c, 0x1c, 0x1d, 0x1e, 0x85, 0x2028, 0x2029}
  {
  }

  /** A carriage return and a line feed end one line together, any other break alone. */
  lemma {:induction false} LineEnds(line: string, c: char, rest: string)
    requires Unbroken(line) && IsBreak(c)
    ensures c == '\r' && rest != "" && rest[0] == '\n' ==>
              SplitLines(line + [c] + rest) == [line] + SplitLines(rest[1..])
    ensures !(c == '\r' && rest != "" && rest[0] == '\n') ==>
              SplitLines(line + [c] + rest) == [line] + SplitLines(rest)
  {
    FirstBreakAt(line, c, rest);
    var s := line + [c] + rest;
    assert s[..|line|] == line && s[|line|] == c && s[|line| + 1..] == rest;
    if rest != "" {
      assert s[|line| + 1] == rest[0] && s[|line| + 2..] == rest[1..];
    }
  }

  lemma {:induction false} FirstBreakAt(line: string, c: char, rest: string)
    requires Unbroken(line) && IsBreak(c)
    ensures FirstBreak(line + [c] + rest) == |line|
  {
    if line == "" {
    } else {
      assert (line + [c] + rest)[1..] == line[1..] + [c] + rest;
      FirstBreakAt(line[1..], c, rest);
    }
  }

  lemma {:induction false} SplitOneLine(line: string, rest: string)
    requires Unbroken(line)
    ensures SplitLines(line + "\n" + rest) == [line] + SplitLines(rest)
  {
    var s := line + "\n" + rest;
    FirstBreakAt(line, '\n', rest);
    assert s[..|line|] == line && s[|line|] == '\n';
    assert s[|line| + 1..] == rest;
  }

  lemma {:induction false} FirstBreakConcat(a: string, b: string)
    requires FirstBreak(a) < |a|
    ensures FirstBreak(a + b) == FirstBreak(a)
  {
    if IsBreak(a[0]) {
    } else {
      assert (a + b)[1..] == a[1..] + b;
      FirstBreakConcat(a[1..], b);
    }
  }

  /** The first line ends inside a, which ends with a line feed: what follows does not matter. */
  lemma {:induction false} FirstLineConcat(a: string, b: string)
    requires a != "" && a[|a| - 1] == '\n'
    ensures var n := FirstBreak(a);
            && n < |a| && FirstBreak(a + b) == n && (a + b)[..n] == a[..n]
            && var m := AfterBreak(a, n);
            && AfterBreak(a + b, n) == m && (a + b)[m..] == a[m..] + b
            && (a[m..] == "" || a[m..][|a[m..]| - 1] == '\n')
  {
    var n := FirstBreak(a);
    assert IsBreak(a[|a| - 1]);
    FirstBreakConcat(a, b);
    var m := AfterBreak(a, n);
    assert (a + b)[m..] == a[m..] + b;
  }

  /** Text behind a line feed starts a line of its own. */
  lemma {:induction false} SplitConcat(a: string, b: string)
    requires a == "" || a[|a| - 1] == '\n'
    ensures SplitLines(a + b) == SplitLines(a) + SplitLines(b)
    decreases |a|
  {
    if a == "" {
      assert a + b == b && SplitLines(a) == [];
    } else {
      var n := FirstBreak(a);
      FirstLineConcat(a, b);
      var rest := a[AfterBreak(a, n)..];
      SplitConcat(rest, b);
      Associate([a[..n]], SplitLines(rest), SplitLines(b));
    }
  }

  lemma {:induction false} ValuesConcat(a: seq<string>, b: seq<string>, key: string)
    requires forall i :: 0 <= i < |b| ==> Assignment(b[i]).None? || Assignment(b[i]).value.0 != key
    ensures key in Values(a + b) <==> key in Values(a)
    ensures key in Values(a) ==> Values(a + b)[key] == Values(a)[key]
  {
    if b == [] {
      assert a + b == a;
    } else {
      assert (a + b)[..|a + b| - 1] == a + b[..|b| - 1];
      ValuesConcat(a, b[..|b| - 1], key);
    }
  }

  // ---------------------------------------------------------------- one line

  lemma {:induction false} FirstEqualsOfKey(key: string, rest: string)
    requires '=' !in key
    ensures FirstEquals(key + "=" + rest) == |key|
  {
    if key == "" {
    } else {
      assert key == [key[0]] + key[1..];
      FirstEqualsOfKey(key[1..], rest);
      assert (key + "=" + rest)[1..] == key[1..] + "=" + rest;
    }
  }

  lemma {:induction false} KeyValueOfLine(key: string, text: string)
    requires key == "AGENT_GTD_URL" || key == "AGENT_GTD_API_KEY"
    ensures KeyValue(key + "=" + text) == Some((key, Unquote(Strip(text))))
  {
    FirstEqualsOfKey(key, text);
    var body := key + "=" + text;
    assert body[..|key|] == key && body[|key| + 1..] == text;
  }

  lemma {:induction false} LStripSpaceAfter(s: string, c: char)
    requires IsSpace(c)
    ensures LStrip(s + [c]) == if LStrip(s) == "" then "" else LStrip(s) + [c]
  {
    if s == "" {
      assert [c][1..] == "";
    } else if IsSpace(s[0]) {
      assert (s + [c])[1..] == s[1..] + [c];
      LStripSpaceAfter(s[1..], c);
    }
  }

  lemma {:induction false} StripSpaceAfter(s: string, c: char)
    requires IsSpace(c)
    ensures Strip(s + [c]) == Strip(s)
  {
    LStripSpaceAfter(s, c);
    if LStrip(s) != "" {
      assert (LStrip(s) + [c])[..|LStrip(s)|] == LStrip(s);
    }
  }

  lemma {:induction false} StripIgnoresTail(s: string)
    ensures Strip(RStrip(s)) == Strip(s)
  {
    if s == "" || !IsSpace(s[|s| - 1]) {
    } else {
      var n := |s| - 1;
      StripIgnoresTail(s[..n]);
      StripSpaceAfter(s[..n], s[n]);
      assert s == s[..n] + [s[n]];
    }
  }

  lemma {:induction false} RStripBehind(head: string, tail: string)
    requires head != "" && !IsSpace(head[|head| - 1])
    ensures RStrip(head + tail) == head + RStrip(tail)
  {
    if tail == "" {
      assert head + tail == head;
    } else if IsSpace(tail[|tail| - 1]) {
      var n := |tail| - 1;
      assert (head + tail)[..|head + tail| - 1] == head + tail[..n];
      RStripBehind(head, tail[..n]);
    }
  }

  /** How a line may begin: with the assignment, or with the word that exports it. */
  ghost predicate MayLead(lead: string) {
    lead == "" || lead == "export " || lead == "export\t"
  }

  lemma {:induction false} ExportedLine(line: string, lead: string, body: string)
    requires lead == "export " || lead == "export\t"
    requires Strip(line) == lead + body && body != "" && !IsSpace(body[0])
    ensures Assignment(line) == KeyValue(body)
  {
    var stripped := lead + body;
    assert stripped[..7] == lead && stripped[0] == 'e';
    assert stripped[6..] == [lead[6]] + body;
    assert ([lead[6]] + body)[1..] == body && LStrip(body) == body;
    assert LStrip(stripped[6..]) == body;
  }

  lemma {:induction false} BareLine(line: string, body: string)
    requires Strip(line) == body && body != "" && body[0] == 'A'
    ensures Assignment(line) == KeyValue(body)
  {
    assert body[0] != "export "[0] && body[0] != "export\t"[0];
  }

  lemma {:induction false} StrippedLine(head: string, text: string)
    requires head != "" && !IsSpace(head[0]) && !IsSpace(head[|head| - 1])
    ensures Strip(head + text) == head + RStrip(text)
  {
    assert (head + text)[0] == head[0];
    RStripBehind(head, text);
  }

  /** What a line assigns, exported or not, whatever its text. */
  lemma {:induction false} AssignmentOfLine(lead: string, key: string, text: string)
    requires MayLead(lead) && (key == "AGENT_GTD_URL" || key == "AGENT_GTD_API_KEY")
    ensures Assignment(lead + (key + "=" + text)) == Some((key, Unquote(Strip(text))))
  {
    var head := key + "=";
    var body := head + RStrip(text);
    assert head[0] == 'A' && head[|head| - 1] == '=' && body[0] == 'A';
    KeyValueOfLine(key, RStrip(text));
    StripIgnoresTail(text);
    if lead != "" {
      ExportedHead(lead, head, text);
      ExportedLine(lead + (head + text), lead, body);
    } else {
      StrippedLine(head, text);
      BareLine(head + text, body);
      assert "" + (head + text) == head + text;
    }
  }

  lemma {:induction false} ExportedHead(lead: string, head: string, text: string)
    requires lead != "" && !IsSpace(lead[0]) && head != "" && !IsSpace(head[|head| - 1])
    ensures Strip(lead + (head + text)) == lead + (head + RStrip(text))
  {
    var front := lead + head;
    assert front[0] == lead[0] && front[|front| - 1] == head[|head| - 1];
    StrippedLine(front, text);
    assert front + text == lead + (head + text);
    assert front + RStrip(text) == lead + (head + RStrip(text));
  }

  function QuotedLine(lead: string, key: string, quote: char, value: string): string {
    lead + (key + "=" + ([quote] + value + [quote]))
  }

  lemma {:induction false} UnquoteQuoted(quote: char, value: string)
    requires quote == '\'' || quote == '"'
    ensures Unquote(Strip([quote] + value + [quote])) == value
  {
    var text := [quote] + value + [quote];
    StripIdentity(text);
    assert text[1..|text| - 1] == value;
  }

  lemma {:induction false} QuotedLineAssigns(lead: string, key: string, quote: char, value: string)
    requires MayLead(lead) && (key == "AGENT_GTD_URL" || key == "AGENT_GTD_API_KEY") && (quote == '\'' || quote == '"')
    ensures Assignment(QuotedLine(lead, key, quote, value)) == Some((key, value))
  {
    AssignmentOfLine(lead, key, [quote] + value + [quote]);
    UnquoteQuoted(quote, value);
  }

  lemma {:induction false} UnbrokenQuotedLine(lead: string, key: string, quote: char, value: string)
    requires MayLead(lead) && (key == "AGENT_GTD_URL" || key == "AGENT_GTD_API_KEY") && (quote == '\'' || quote == '"')
    requires Unbroken(value)
    ensures Unbroken(QuotedLine(lead, key, quote, value))
  {
    NamesAreUnbroken();
  }

  lemma {:induction false} NamesAreUnbroken()
    ensures Unbroken("AGENT_GTD_URL") && Unbroken("AGENT_GTD_API_KEY")
    ensures Unbroken("export ") && Unbroken("export\t") && Unbroken("=")
  {
  }

  /** A comment assigns nothing, nor does a line that names another variable. */
  lemma {:induction false} OnlyWantedAreAssigned(line: string)
    ensures Strip(line) != "" && Strip(line)[0] == '#' ==> Assignment(line).None?
    ensures Assignment(line).Some? ==>
              Assignment(line).value.0 == "AGENT_GTD_URL" || Assignment(line).value.0 == "AGENT_GTD_API_KEY"
  {
  }

  // ---------------------------------------------------------------- round trips

  /**
   Whatever lines come before, and whatever lines after that do not assign it again, a quoted
   assignment of a value without line breaks gives that value back.
   */
  lemma {:induction false} QuotedRoundTrip(before: string, lead: string, key: string, quote: char, value: string,
                                           after: string)
    requires before == "" || before[|before| - 1] == '\n'
    requires MayLead(lead) && (key == "AGENT_GTD_URL" || key == "AGENT_GTD_API_KEY") && (quote == '\'' || quote == '"')
    requires Unbroken(value)
    requires var lines := SplitLines(after);
             forall i :: 0 <= i < |lines| ==> Assignment(lines[i]).None? || Assignment(lines[i]).value.0 != key
    ensures var values := Values(SplitLines(before + (QuotedLine(lead, key, quote, value) + "\n" + after)));
            key in values && values[key] == value
  {
    var line := QuotedLine(lead, key, quote, value);
    UnbrokenQuotedLine(lead, key, quote, value);
    QuotedLineAssigns(lead, key, quote, value);
    LineAmongLines(before, line, after);
    ValuesConcat(SplitLines(before) + [line], SplitLines(after), key);
  }

  lemma {:induction false} LineAmongLines(before: string, line: string, after: string)
    requires (before == "" || before[|before| - 1] == '\n') && Unbroken(line)
    ensures SplitLines(before + (line + "\n" + after)) == SplitLines(before) + [line] + SplitLines(after)
  {
    SplitConcat(before, line + "\n" + after);
    SplitOneLine(line, after);
    Associate(SplitLines(before), [line], SplitLines(after));
  }

  lemma {:induction false} StripKeepsUnbroken(s: string)
    requires Unbroken(s)
    ensures Unbroken(LStrip(s)) && Unbroken(RStrip(s)) && Unbroken(Strip(s))
    decreases |s|
  {
    LStripIsTail(s);
    RStripIsPrefix(s);
    RStripIsPrefix(LStrip(s));
  }

  lemma {:induction false} LStripIsTail(s: string)
    ensures |LStrip(s)| <= |s| && LStrip(s) == s[|s| - |LStrip(s)|..]
  {
    if s == "" || !IsSpace(s[0]) {
    } else {
      LStripIsTail(s[1..]);
    }
  }

  lemma {:induction false} RStripIsPrefix(s: string)
    ensures RStrip(s) <= s
  {
    if s == "" || !IsSpace(s[|s| - 1]) {
    } else {
      RStripIsPrefix(s[..|s| - 1]);
    }
  }

  lemma {:induction false} AssignmentIsUnbroken(raw: string)
    requires Unbroken(raw)
    ensures Assignment(raw).Some? ==> Unbroken(Assignment(raw).value.1)
  {
    if Assignment(raw).Some? {
      StripKeepsUnbroken(raw);
      var stripped := Strip(raw);
      var line := if Exported(stripped) then LStrip(stripped[6..]) else stripped;
      if Exported(stripped) {
        StripKeepsUnbroken(stripped[6..]);
      }
      StripKeepsUnbroken(line[FirstEquals(line) + 1..]);
    }
  }

  lemma {:induction false} ValuesAreUnbroken(lines: seq<string>, key: string)
    requires forall i :: 0 <= i < |lines| ==> Unbroken(lines[i])
    ensures key in Values(lines) ==> Unbroken(Values(lines)[key])
  {
    if lines == [] {
    } else {
      ValuesAreUnbroken(lines[..|lines| - 1], key);
      AssignmentIsUnbroken(lines[|lines| - 1]);
    }
  }

  /** A value can be given in the file at all exactly when it has no line break. */
  lemma {:induction false} ExpressibleIffUnbroken(key: string, value: string)
    requires key == "AGENT_GTD_URL" || key == "AGENT_GTD_API_KEY"
    ensures (exists text :: key in Values(SplitLines(text)) && Values(SplitLines(text))[key] == value) <==> Unbroken(value)
  {
    if Unbroken(value) {
      QuotedRoundTrip("", "", key, '"', value, "");
      var text := "" + (QuotedLine("", key, '"', value) + "\n" + "");
      assert key in Values(SplitLines(text)) && Values(SplitLines(text))[key] == value;
    }
    if text :| key in Values(SplitLines(text)) && Values(SplitLines(text))[key] == value {
      ValuesAreUnbroken(SplitLines(text), key);
    }
  }

  ghost predicate AllSpace(s: string) {
    forall i :: 0 <= i < |s| ==> IsSpace(s[i])
  }

  /** Stripping takes space off both ends, and all there is. */
  lemma {:induction false} StripTrims(s: string)
    ensures exists a, b :: AllSpace(a) && AllSpace(b) && s == a + Strip(s) + b
    ensures Strip(s) == "" || (!IsSpace(Strip(s)[0]) && !IsSpace(Strip(s)[|Strip(s)| - 1]))
  {
    LStripTakes(s);
    RStripTakes(LStrip(s));
    var a, b :| AllSpace(a) && s == a + LStrip(s) && AllSpace(b) && LStrip(s) == Strip(s) + b;
    assert s == a + Strip(s) + b;
  }

  lemma {:induction false} LStripTakes(s: string)
    ensures exists a :: AllSpace(a) && s == a + LStrip(s)
    ensures LStrip(s) == "" || !IsSpace(LStrip(s)[0])
  {
    if s == "" || !IsSpace(s[0]) {
      assert AllSpace("") && s == "" + LStrip(s);
    } else {
      LStripTakes(s[1..]);
      var a :| AllSpace(a) && s[1..] == a + LStrip(s[1..]);
      assert AllSpace([s[0]] + a) && s == [s[0]] + a + LStrip(s);
    }
  }

  lemma {:induction false} RStripTakes(s: string)
    ensures exists b :: AllSpace(b) && s == RStrip(s) + b
    ensures RStrip(s) == "" || !IsSpace(RStrip(s)[|RStrip(s)| - 1])
    ensures RStrip(s) == "" || RStrip(s)[0] == s[0]
  {
    if s == "" || !IsSpace(s[|s| - 1]) {
      assert AllSpace("") && s == RStrip(s) + "";
    } else {
      var n := |s| - 1;
      RStripTakes(s[..n]);
      var b :| AllSpace(b) && s[..n] == RStrip(s[..n]) + b;
      assert AllSpace(b + [s[n]]) && s == RStrip(s) + (b + [s[n]]);
    }
  }

  lemma {:induction false} StripIdentity(s: string)
    ensures Strip(s) == s <==> s == "" || (!IsSpace(s[0]) && !IsSpace(s[|s| - 1]))
    ensures |Strip(s)| <= |s|
  {
    LStripIsTail(s);
    RStripIsPrefix(LStrip(s));
    if s != "" && IsSpace(s[0]) {
      LStripIsTail(s[1..]);
    }
    if s != "" && IsSpace(s[|s| - 1]) && !IsSpace(s[0]) {
      RStripIsPrefix(s[..|s| - 1]);
    }
  }

  /** Without quotes of its own a value survives exactly if it has none around it, nor space. */
  lemma {:induction false} BareRoundTripIff(lead: string, key: string, value: string)
    requires MayLead(lead) && (key == "AGENT_GTD_URL" || key == "AGENT_GTD_API_KEY")
    ensures Assignment(lead + (key + "=" + value)) == Some((key, value))
       <==> && (value == "" || (!IsSpace(value[0]) && !IsSpace(value[|value| - 1])))
            && !(|value| > 1 && value[0] == value[|value| - 1] && (value[0] == '\'' || value[0] == '"'))
  {
    AssignmentOfLine(lead, key, value);
    StripIdentity(value);
  }

  // ---------------------------------------------------------------- file and environment

  /** `from_file.get(name, "") or os.environ.get(name, "")` */
  function Resolve(file: map<string, string>, environ: map<string, string>, name: string): string {
    if name in file && file[name] != "" then file[name]
    else if name in environ then environ[name]
    else ""
  }

  /** The file wins over any environment, and an empty or missing file value never does. */
  lemma {:induction false} FileWinsIffNonEmpty(before: string, lead: string, key: string, quote: char, value: string,
                                               after: string, environ: map<string, string>)
    requires before == "" || before[|before| - 1] == '\n'
    requires MayLead(lead) && (key == "AGENT_GTD_URL" || key == "AGENT_GTD_API_KEY") && (quote == '\'' || quote == '"')
    requires Unbroken(value)
    requires var lines := SplitLines(after);
             forall i :: 0 <= i < |lines| ==> Assignment(lines[i]).None? || Assignment(lines[i]).value.0 != key
    ensures var file := Values(SplitLines(before + (QuotedLine(lead, key, quote, value) + "\n" + after)));
            Resolve(file, environ, key) == if value != "" then value else if key in environ then environ[key] else ""
  {
    QuotedRoundTrip(before, lead, key, quote, value, after);
  }
}
