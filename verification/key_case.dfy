/**
 JSON keys between the client's camelCase and the server's snake_case: the two string
 rewrites and their application to every key of a JSON tree.
 */
module KeyCase {
  import opened Text

  /** `str.replace(/[A-Z]/g, c => "_" + c.toLowerCase())` */
  function ToSnakeCase(s: string): string {
    if s == "" then ""
    else (if IsUpper(s[0]) then ['_', ToLower(s[0])] else [s[0]]) + ToSnakeCase(s[1..])
  }

  predicate AtUnderscoreLower(s: string) {
    |s| > 1 && s[0] == '_' && IsLower(s[1])
  }

  /** `str.replace(/_([a-z])/g, (_, c) => c.toUpperCase())` */
  function ToCamelCase(s: string): string {
    if s == "" then ""
    else if AtUnderscoreLower(s) then [ToUpper(s[1])] + ToCamelCase(s[2..])
    else [s[0]] + ToCamelCase(s[1..])
  }

  // ---------------------------------------------------------------- keys

  /** No underscore stands directly before a lowercase letter. */
  predicate NoUnderscoreLower(s: string) {
    forall i :: 0 <= i < |s| - 1 && s[i] == '_' ==> !IsLower(s[i + 1])
  }

  predicate NoUpper(s: string) {
    forall i :: 0 <= i < |s| ==> !IsUpper(s[i])
  }

  lemma {:induction false} CamelHasNoUnderscoreLower(s: string)
    ensures NoUnderscoreLower(ToCamelCase(s))
    ensures s != "" && !IsLower(s[0]) ==> !IsLower(ToCamelCase(s)[0])
    ensures ToCamelCase(s) == "" <==> s == ""
    decreases |s|
  {
    if s == "" {
    } else {
      var t := ToCamelCase(s);
      var rest := if AtUnderscoreLower(s) then s[2..] else s[1..];
      CamelHasNoUnderscoreLower(rest);
      assert t[1..] == ToCamelCase(rest);
      forall i | 0 <= i < |t| - 1 && t[i] == '_' ensures !IsLower(t[i + 1]) {
        if i > 0 {
          assert t[i] == t[1..][i - 1] && t[i + 1] == t[1..][i];
        } else {
          assert rest == s[1..] && rest != "" && !IsLower(rest[0]);
        }
      }
    }
  }

  lemma {:induction false} SnakeHasNoUpper(s: string)
    ensures NoUpper(ToSnakeCase(s))
  {
    if s == "" {
    } else {
      SnakeHasNoUpper(s[1..]);
    }
  }

  lemma {:induction false} CamelUndoesSnake(s: string)
    requires NoUnderscoreLower(s)
    ensures ToCamelCase(ToSnakeCase(s)) == s
  {
    if s == "" {
    } else {
      var rest := ToSnakeCase(s[1..]);
      assert NoUnderscoreLower(s[1..]) by {
        forall i | 0 <= i < |s[1..]| - 1 && s[1..][i] == '_' ensures !IsLower(s[1..][i + 1]) {
          assert s[i + 1] == s[1..][i] && s[i + 2] == s[1..][i + 1];
        }
      }
      CamelUndoesSnake(s[1..]);
      if IsUpper(s[0]) {
        var snake := ToSnakeCase(s);
        assert snake == ['_', ToLower(s[0])] + rest;
        assert snake[2..] == rest;
        assert ToUpper(ToLower(s[0])) == s[0];
      } else {
        assert ToSnakeCase(s)[1..] == rest;
        if s[0] == '_' && rest != "" {
          assert s[1..] != "" && s[1] == s[1..][0] && !IsLower(s[1]);
          assert rest[0] == '_' || rest[0] == s[1];
        }
      }
    }
  }

  /** There and back is the identity for exactly the keys without an underscore before a lowercase letter. */
  lemma {:induction false} KeyRoundTrip(s: string)
    ensures ToCamelCase(ToSnakeCase(s)) == s <==> NoUnderscoreLower(s)
  {
    if NoUnderscoreLower(s) {
      CamelUndoesSnake(s);
    }
    CamelHasNoUnderscoreLower(ToSnakeCase(s));
  }

  lemma {:induction false} SnakeUndoesCamel(s: string)
    requires NoUpper(s)
    ensures ToSnakeCase(ToCamelCase(s)) == s
    decreases |s|
  {
    if s == "" {
    } else {
      var rest := if AtUnderscoreLower(s) then s[2..] else s[1..];
      SnakeUndoesCamel(rest);
      assert ToCamelCase(s)[1..] == ToCamelCase(rest);
      if AtUnderscoreLower(s) {
        assert ToLower(ToUpper(s[1])) == s[1];
        assert s == ['_', s[1]] + rest;
      }
    }
  }

  /** The server's keys survive the other round trip exactly when they hold no capital. */
  lemma {:induction false} ServerKeyRoundTrip(s: string)
    ensures ToSnakeCase(ToCamelCase(s)) == s <==> NoUpper(s)
  {
    if NoUpper(s) {
      SnakeUndoesCamel(s);
    }
    SnakeHasNoUpper(ToCamelCase(s));
  }

  /** Keys that come back from the round trip are never run together by it. */
  lemma {:induction false} NoTwoKeysCollide(s: string, t: string)
    requires NoUnderscoreLower(s) && NoUnderscoreLower(t)
    requires ToSnakeCase(s) == ToSnakeCase(t)
    ensures s == t
  {
    CamelUndoesSnake(s);
    CamelUndoesSnake(t);
  }

  // ---------------------------------------------------------------- JSON trees

  /** An object is its own enumerable entries in insertion order. */
  datatype Json =
    | Null
    | Bool(b: bool)
    | Number(n: real)
    | Str(s: string)
    | Arr(elements: seq<Json>)
    | Obj(entries: seq<Entry>)

  datatype Entry = Entry(key: string, value: Json)

  /** Assigning to this name sets an object's prototype and leaves no entry. */
  const PROTO := "__proto__"

  /** `out[key] = value` on an object that holds `entries`. */
  function Assign(entries: seq<Entry>, key: string, value: Json): seq<Entry> {
    if key == PROTO then entries
    else if entries == [] then [Entry(key, value)]
    else if entries[0].key == key then [Entry(key, value)] + entries[1..]
    else [entries[0]] + Assign(entries[1..], key, value)
  }

  datatype Direction = Snake | Camel {
    function Key(s: string): string {
      if Snake? then ToSnakeCase(s) else ToCamelCase(s)
    }
  }

  function Converted(j: Json, d: Direction): Json {
    match j
    case Arr(elements) => Arr(ConvertedAll(elements, d))
    case Obj(entries) => Obj(ConvertedEntries(entries, d))
    case _ => j
  }

  function ConvertedAll(js: seq<Json>, d: Direction): (r: seq<Json>)
    ensures |r| == |js|
  {
    if js == [] then [] else ConvertedAll(js[..|js| - 1], d) + [Converted(js[|js| - 1], d)]
  }

  function ConvertedEntries(entries: seq<Entry>, d: Direction): seq<Entry> {
    if entries == [] then []
    else
      var last := entries[|entries| - 1];
      Assign(ConvertedEntries(entries[..|entries| - 1], d), d.Key(last.key), Converted(last.value, d))
  }

  lemma {:induction false} ConvertedAllStep(js: seq<Json>, i: nat, d: Direction)
    requires i < |js|
    ensures ConvertedAll(js[..i + 1], d) == ConvertedAll(js[..i], d) + [Converted(js[i], d)]
  {
    assert js[..i + 1][..i] == js[..i];
  }

  lemma {:induction false} ConvertedEntriesStep(entries: seq<Entry>, i: nat, d: Direction)
    requires i < |entries|
    ensures ConvertedEntries(entries[..i + 1], d)
         == Assign(ConvertedEntries(entries[..i], d), d.Key(entries[i].key), Converted(entries[i].value, d))
  {
    assert entries[..i + 1][..i] == entries[..i];
  }

  /** The recursive rewrite: `out` is filled entry by entry. */
  method ConvertKeys(j: Json, d: Direction) returns (r: Json)
    ensures r == Converted(j, d)
    decreases j
  {
    match j
    case Arr(elements) =>
      var mapped: seq<Json> := [];
      for i := 0 to |elements|
        invariant mapped == ConvertedAll(elements[..i], d)
      {
        var v := ConvertKeys(elements[i], d);
        mapped := mapped + [v];
        ConvertedAllStep(elements, i, d);
      }
      assert elements[..|elements|] == elements;
      r := Arr(mapped);
    case Obj(entries) =>
      var out: seq<Entry> := [];
      for i := 0 to |entries|
        invariant out == ConvertedEntries(entries[..i], d)
      {
        var v := ConvertKeys(entries[i].value, d);
        out := Assign(out, d.Key(entries[i].key), v);
        ConvertedEntriesStep(entries, i, d);
      }
      assert entries[..|entries|] == entries;
      r := Obj(out);
    case _ =>
      r := j;
  }

  ghost predicate DistinctKeys(entries: seq<Entry>) {
    forall i, k :: 0 <= i < k < |entries| ==> entries[i].key != entries[k].key
  }

  /** What `JSON.parse` can return: keys of one object are distinct. */
  ghost predicate WellFormed(j: Json) {
    match j
    case Arr(elements) => forall i :: 0 <= i < |elements| ==> WellFormed(elements[i])
    case Obj(entries) =>
      DistinctKeys(entries) && forall i :: 0 <= i < |entries| ==> WellFormed(entries[i].value)
    case _ => true
  }

  /** A key that comes back: no underscore before a lowercase letter, and not sent as `__proto__`. */
  predicate Faithful(key: string) {
    NoUnderscoreLower(key) && ToSnakeCase(key) != PROTO
  }

  ghost predicate AllFaithful(j: Json) {
    match j
    case Arr(elements) => forall i :: 0 <= i < |elements| ==> AllFaithful(elements[i])
    case Obj(entries) =>
      forall i :: 0 <= i < |entries| ==> Faithful(entries[i].key) && AllFaithful(entries[i].value)
    case _ => true
  }

  // ---------------------------------------------------------------- round trip of a whole tree

  predicate HasKey(entries: seq<Entry>, key: string) {
    exists i :: 0 <= i < |entries| && entries[i].key == key
  }

  lemma {:induction false} AssignFresh(entries: seq<Entry>, key: string, value: Json)
    requires key != PROTO && !HasKey(entries, key)
    ensures Assign(entries, key, value) == entries + [Entry(key, value)]
  {
    if entries == [] {
    } else {
      assert forall i :: 0 <= i < |entries[1..]| ==> entries[1..][i] == entries[i + 1];
      AssignFresh(entries[1..], key, value);
    }
  }

  /** Where no two keys meet and none is lost, converting an object is converting each entry in place. */
  lemma {:induction false} EntriesInPlace(entries: seq<Entry>, d: Direction)
    requires forall i :: 0 <= i < |entries| ==> d.Key(entries[i].key) != PROTO
    requires forall i, k :: 0 <= i < k < |entries| ==> d.Key(entries[i].key) != d.Key(entries[k].key)
    ensures |ConvertedEntries(entries, d)| == |entries|
    ensures forall i :: 0 <= i < |entries| ==>
              ConvertedEntries(entries, d)[i] == Entry(d.Key(entries[i].key), Converted(entries[i].value, d))
  {
    if entries == [] {
    } else {
      var n := |entries| - 1;
      EntriesInPlace(entries[..n], d);
      AssignFresh(ConvertedEntries(entries[..n], d), d.Key(entries[n].key), Converted(entries[n].value, d));
    }
  }

  lemma {:induction false} AllInPlace(js: seq<Json>, d: Direction)
    ensures forall i :: 0 <= i < |js| ==> ConvertedAll(js, d)[i] == Converted(js[i], d)
  {
    if js == [] {
    } else {
      AllInPlace(js[..|js| - 1], d);
    }
  }

  lemma {:induction false} FaithfulKeysStayApart(entries: seq<Entry>)
    requires DistinctKeys(entries) && forall i :: 0 <= i < |entries| ==> Faithful(entries[i].key)
    ensures forall i, k :: 0 <= i < k < |entries| ==> ToSnakeCase(entries[i].key) != ToSnakeCase(entries[k].key)
    ensures forall i :: 0 <= i < |entries| ==> ToCamelCase(ToSnakeCase(entries[i].key)) == entries[i].key != PROTO
  {
    forall i, k | 0 <= i < k < |entries|
      ensures ToSnakeCase(entries[i].key) != ToSnakeCase(entries[k].key)
    {
      if ToSnakeCase(entries[i].key) == ToSnakeCase(entries[k].key) {
        NoTwoKeysCollide(entries[i].key, entries[k].key);
      }
    }
    forall i | 0 <= i < |entries|
      ensures ToCamelCase(ToSnakeCase(entries[i].key)) == entries[i].key != PROTO
    {
      CamelUndoesSnake(entries[i].key);
      assert PROTO[1] == '_' && PROTO[2] == 'p';
    }
  }

  /** Both conversions of an object with faithful keys, entry by entry. */
  lemma {:induction false} ObjectThereAndBack(entries: seq<Entry>)
    requires DistinctKeys(entries) && forall i :: 0 <= i < |entries| ==> Faithful(entries[i].key)
    ensures var back := ConvertedEntries(ConvertedEntries(entries, Snake), Camel);
            && |back| == |entries|
            && forall i :: 0 <= i < |entries| ==>
                 back[i] == Entry(entries[i].key, Converted(Converted(entries[i].value, Snake), Camel))
  {
    FaithfulKeysStayApart(entries);
    EntriesInPlace(entries, Snake);
    EntriesInPlace(ConvertedEntries(entries, Snake), Camel);
  }

  lemma {:induction false} ThereAndBack(j: Json)
    requires WellFormed(j) && AllFaithful(j)
    ensures Converted(Converted(j, Snake), Camel) == j
    decreases j
  {
    match j
    case Arr(elements) =>
      var mid := ConvertedAll(elements, Snake);
      AllInPlace(elements, Snake);
      AllInPlace(mid, Camel);
      forall i | 0 <= i < |elements| ensures ConvertedAll(mid, Camel)[i] == elements[i] {
        ThereAndBack(elements[i]);
      }
      assert ConvertedAll(mid, Camel) == elements;
    case Obj(entries) =>
      var back := ConvertedEntries(ConvertedEntries(entries, Snake), Camel);
      ObjectThereAndBack(entries);
      forall i | 0 <= i < |entries| ensures back[i] == entries[i] {
        ThereAndBack(entries[i].value);
      }
      assert back == entries;
    case _ =>
  }

  /** Every entry of a converted object comes from entries of the original, its key never `__proto__`. */
  lemma {:induction false} EntryOrigin(entries: seq<Entry>, d: Direction, e: Entry)
    requires e in ConvertedEntries(entries, d)
    ensures e.key != PROTO
    ensures exists i :: 0 <= i < |entries| && e.key == d.Key(entries[i].key)
    ensures exists i :: 0 <= i < |entries| && e.value == Converted(entries[i].value, d)
  {
    var n := |entries| - 1;
    var before := ConvertedEntries(entries[..n], d);
    var key, value := d.Key(entries[n].key), Converted(entries[n].value, d);
    AssignMembers(before, key, value, e);
    if e in before {
      EntryOrigin(entries[..n], d, e);
      var i :| 0 <= i < n && e.key == d.Key(entries[..n][i].key);
      var k :| 0 <= k < n && e.value == Converted(entries[..n][k].value, d);
      assert entries[..n][i] == entries[i] && entries[..n][k] == entries[k];
    } else {
      assert e == Entry(d.Key(entries[n].key), Converted(entries[n].value, d));
    }
  }

  lemma {:induction false} AssignMembers(entries: seq<Entry>, key: string, value: Json, e: Entry)
    requires e in Assign(entries, key, value)
    ensures e in entries || (e == Entry(key, value) && key != PROTO)
  {
    if key == PROTO || entries == [] || entries[0].key == key || e == entries[0] {
    } else {
      AssignMembers(entries[1..], key, value, e);
    }
  }

  /** The keys a request body can carry. */
  ghost predicate Sendable(j: Json) {
    match j
    case Arr(elements) => forall i :: 0 <= i < |elements| ==> Sendable(elements[i])
    case Obj(entries) =>
      forall i :: 0 <= i < |entries| ==>
        NoUpper(entries[i].key) && entries[i].key != PROTO && Sendable(entries[i].value)
    case _ => true
  }

  lemma {:induction false} SnakeIsSendable(j: Json)
    ensures Sendable(Converted(j, Snake))
    decreases j
  {
    match j
    case Arr(elements) =>
      AllInPlace(elements, Snake);
      forall i | 0 <= i < |elements| ensures Sendable(ConvertedAll(elements, Snake)[i]) {
        SnakeIsSendable(elements[i]);
      }
    case Obj(entries) =>
      var out := ConvertedEntries(entries, Snake);
      forall i | 0 <= i < |out|
        ensures NoUpper(out[i].key) && out[i].key != PROTO && Sendable(out[i].value)
      {
        EntryOrigin(entries, Snake, out[i]);
        var k :| 0 <= k < |entries| && out[i].key == Snake.Key(entries[k].key);
        var v :| 0 <= v < |entries| && out[i].value == Converted(entries[v].value, Snake);
        SnakeHasNoUpper(entries[k].key);
        SnakeIsSendable(entries[v].value);
      }
    case _ =>
  }

  lemma {:induction false} CamelOfSendableIsFaithful(j: Json)
    requires Sendable(j)
    ensures AllFaithful(Converted(j, Camel))
    decreases j
  {
    match j
    case Arr(elements) =>
      AllInPlace(elements, Camel);
      forall i | 0 <= i < |elements| ensures AllFaithful(ConvertedAll(elements, Camel)[i]) {
        CamelOfSendableIsFaithful(elements[i]);
      }
    case Obj(entries) =>
      var out := ConvertedEntries(entries, Camel);
      forall i | 0 <= i < |out|
        ensures Faithful(out[i].key) && AllFaithful(out[i].value)
      {
        EntryOrigin(entries, Camel, out[i]);
        var k :| 0 <= k < |entries| && out[i].key == Camel.Key(entries[k].key);
        var v :| 0 <= v < |entries| && out[i].value == Converted(entries[v].value, Camel);
        CamelHasNoUnderscoreLower(entries[k].key);
        SnakeUndoesCamel(entries[k].key);
        CamelOfSendableIsFaithful(entries[v].value);
      }
    case _ =>
  }

  /** A JSON tree survives request and response conversion exactly when every key in it is faithful. */
  lemma {:induction false} TreeRoundTrip(j: Json)
    requires WellFormed(j)
    ensures Converted(Converted(j, Snake), Camel) == j <==> AllFaithful(j)
  {
    if AllFaithful(j) {
      ThereAndBack(j);
    }
    SnakeIsSendable(j);
    CamelOfSendableIsFaithful(Converted(j, Snake));
  }

  lemma {:induction false} SnakeOfLower(s: string)
    requires NoUpper(s)
    ensures ToSnakeCase(s) == s
  {
    if s == "" {
    } else {
      SnakeOfLower(s[1..]);
    }
  }

  lemma {:induction false} SnakeStep(c: char, rest: string)
    ensures ToSnakeCase([c] + rest) == (if IsUpper(c) then ['_', ToLower(c)] else [c]) + ToSnakeCase(rest)
  {
    assert ([c] + rest)[1..] == rest;
  }

  lemma {:induction false} SnakeOfCapitalTail(tail: string)
    requires NoUpper(tail)
    ensures ToSnakeCase(['_'] + (['P'] + tail)) == ['_'] + (['_', 'p'] + tail)
  {
    SnakeOfLower(tail);
    SnakeStep('P', tail);
    SnakeStep('_', ['P'] + tail);
  }

  lemma {:induction false} ProtoIsSent()
    ensures ToSnakeCase("_Proto__") == PROTO
  {
    var tail := "roto__";
    SnakeOfCapitalTail(tail);
    assert "_Proto__" == ['_'] + (['P'] + tail);
    assert PROTO == ['_'] + (['_', 'p'] + tail);
  }

  lemma {:induction false} ProtoIsFaithful()
    ensures NoUnderscoreLower("_Proto__")
  {
  }

  /** A key without any underscore before a lowercase letter that is lost all the same. */
  lemma {:induction false} PrototypeKeyIsLost(value: Json)
    ensures NoUnderscoreLower("_Proto__")
    ensures Converted(Obj([Entry("_Proto__", value)]), Snake) == Obj([])
  {
    ProtoIsFaithful();
    OneEntryConverted("_Proto__", value);
    ProtoIsSent();
  }

  lemma {:induction false} OneEntryConverted(key: string, value: Json)
    ensures Converted(Obj([Entry(key, value)]), Snake) == Obj(Assign([], ToSnakeCase(key), Converted(value, Snake)))
  {
    var entries := [Entry(key, value)];
    assert entries[..0] == [] && ConvertedEntries([], Snake) == [];
    assert ConvertedEntries(entries, Snake)
        == Assign(ConvertedEntries(entries[..0], Snake), Snake.Key(key), Converted(value, Snake));
  }
}
