/**
 The client's project map: fetched once, kept, and dropped by every login and every project
 write, so that while it is there it says what a fresh fetch would say.
 */
module ProjectCache {
  import opened Wrappers

  /** readers: the API keys that may see the project. */
  datatype Project = Project(name: string, repoMode: Option<string>, workspaceRepos: Option<seq<string>>,
                             readers: set<string>, other: string)

  datatype Entry = Entry(name: string, repoMode: Option<string>, workspaceRepos: seq<string>)

  type Projects = map<string, Project>
  type ProjectMap = map<string, Entry>

  function EntryOf(p: Project): Entry {
    Entry(p.name, p.repoMode, p.workspaceRepos.GetOr([]))
  }

  /** What a fresh fetch under a key builds. */
  function Fetch(projects: Projects, key: string): ProjectMap {
    map id | id in projects && key in projects[id].readers :: EntryOf(projects[id])
  }

  /** The map has each project the key may see, with its name, repository mode and list of repositories, and no other. */
  ghost predicate ShowsProjects(m: ProjectMap, projects: Projects, key: string) {
    forall id ::
      && (id in m <==> id in projects && key in projects[id].readers)
      && (id in m ==>
            m[id].name == projects[id].name && m[id].repoMode == projects[id].repoMode
            && m[id].workspaceRepos == match projects[id].workspaceRepos case None => [] case Some(repos) => repos)
  }

  lemma {:induction false} FetchShows(m: ProjectMap, projects: Projects, key: string)
    ensures m == Fetch(projects, key) <==> ShowsProjects(m, projects, key)
  {
    if ShowsProjects(m, projects, key) {
      assert m.Keys == Fetch(projects, key).Keys;
    }
  }

  /** A request works, fails without effect, or takes effect while its reply is lost. */
  datatype Fate = Works | Fails | ReplyLost

  datatype State = State(projects: Projects, key: string, cache: Option<ProjectMap>)

  ghost predicate Coherent(s: State) {
    s.cache.Some? ==> s.cache.value == Fetch(s.projects, s.key)
  }

  // ---------------------------------------------------------------- one call after another

  /** change None: a request the server refuses. */
  datatype Call =
    | Login(key: string)
    | GetProjectMap(fate: Fate)
    | Write(id: string, change: Project, fate: Fate)

  function Step(s: State, call: Call): State {
    match call
    case Login(key) => s.(key := key, cache := None)
    case GetProjectMap(fate) =>
      if s.cache.Some? || s.key == "" || !fate.Works? then s else s.(cache := Some(Fetch(s.projects, s.key)))
    case Write(id, change, fate) =>
      if s.key == "" || fate.Fails? then s
      else s.(projects := s.projects[id := change], cache := if fate.Works? then None else s.cache)
  }

  function After(s: State, calls: seq<Call>): State {
    if calls == [] then s else Step(After(s, calls[..|calls| - 1]), calls[|calls| - 1])
  }

  class Server {
    var projects: Projects

    constructor (projects: Projects)
      ensures this.projects == projects
    {
      this.projects := projects;
    }
  }

  class HttpBackend {
    var apiKey: string
    var cache: Option<ProjectMap>

    constructor (apiKey: string)
      ensures this.apiKey == apiKey && cache == None
    {
      this.apiKey := apiKey;
      cache := None;
    }

    ghost function StateWith(server: Server): State
      reads this, server
    {
      State(server.projects, apiKey, cache)
    }

    /** The key counts from here on, whatever the server then says about it. */
    method Login(server: Server, key: string, fate: Fate) returns (ok: bool)
      modifies this
      ensures StateWith(server) == Step(old(StateWith(server)), Call.Login(key)) && ok == fate.Works?
    {
      apiKey := key;
      cache := None;
      ok := fate.Works?;
    }

    /** From a coherent state: the map a fresh fetch would give, and the state stays coherent. */
    method GetProjectMap(server: Server, fate: Fate) returns (result: Option<ProjectMap>)
      modifies this`cache
      ensures StateWith(server) == Step(old(StateWith(server)), Call.GetProjectMap(fate))
      ensures old(Coherent(StateWith(server))) ==>
                Coherent(StateWith(server)) && (result.Some? ==> ShowsProjects(result.value, server.projects, apiKey))
      ensures result.Some? <==> old(cache).Some? || (apiKey != "" && fate.Works?)
    {
      FetchShows(Fetch(server.projects, apiKey), server.projects, apiKey);
      if cache.Some? {
        return cache;
      }
      if apiKey == "" || !fate.Works? {
        return None;
      }
      cache := Some(Fetch(server.projects, apiKey));
      result := cache;
    }

    method UpdateProject(server: Server, id: string, change: Project, fate: Fate) returns (ok: bool)
      modifies this`cache, server
      ensures StateWith(server) == Step(old(StateWith(server)), Write(id, change, fate))
      ensures ok <==> apiKey != "" && fate.Works?
    {
      if apiKey == "" || fate.Fails? {
        return false;
      }
      server.projects := server.projects[id := change];
      if fate.ReplyLost? {
        return false;
      }
      cache := None;
      ok := true;
    }

    /** A POST, and a PATCH for the dispatch overrides if there are any. */
    method CreateProject(server: Server, id: string, project: Project, overrides: Option<Project>, fate: Fate,
                         fate': Fate)
      returns (ok: bool)
      modifies this`cache, server
      ensures StateWith(server)
           == After(old(StateWith(server)), [Write(id, project, fate)]
                      + if old(apiKey) != "" && fate.Works? && overrides.Some? then [Write(id, overrides.value, fate')] else [])
      ensures ok <==> apiKey != "" && fate.Works? && (overrides.Some? ==> fate'.Works?)
    {
      ghost var s := StateWith(server);
      ok := UpdateProject(server, id, project, fate);
      AfterOne(s, Write(id, project, fate));
      if ok && overrides.Some? {
        AfterTwo(s, Write(id, project, fate), Write(id, overrides.value, fate'));
        ok := UpdateProject(server, id, overrides.value, fate');
      } else {
        assert [Write(id, project, fate)] + [] == [Write(id, project, fate)];
      }
    }
  }

  lemma {:induction false} AfterOne(s: State, call: Call)
    ensures After(s, [call]) == Step(s, call)
  {
    assert [call][..0] == [];
  }

  lemma {:induction false} AfterTwo(s: State, a: Call, b: Call)
    ensures After(s, [a] + [b]) == Step(Step(s, a), b)
  {
    assert ([a] + [b])[..1] == [a];
    AfterOne(s, a);
  }

  ghost predicate NoLostReply(calls: seq<Call>) {
    forall i :: 0 <= i < |calls| && calls[i].Write? ==> !calls[i].fate.ReplyLost?
  }

  /** In every run whose failed writes changed nothing, a map that is there is fresh for the login in force. */
  lemma {:induction false} CacheIsFresh(s: State, calls: seq<Call>)
    requires Coherent(s) && NoLostReply(calls)
    ensures Coherent(After(s, calls))
  {
    if calls == [] {
    } else {
      CacheIsFresh(s, calls[..|calls| - 1]);
    }
  }

  /** A write whose reply was lost leaves the map stale exactly when there is one and the write shows in it. */
  lemma {:induction false} LostReplyKeepsIff(s: State, id: string, change: Project)
    requires Coherent(s) && s.key != ""
    ensures Coherent(Step(s, Write(id, change, ReplyLost))) <==>
              s.cache.None?
              || (if s.key in change.readers
                  then id in s.projects && s.key in s.projects[id].readers && EntryOf(s.projects[id]) == EntryOf(change)
                  else id !in s.projects || s.key !in s.projects[id].readers)
  {
    var before, after := Fetch(s.projects, s.key), Fetch(s.projects[id := change], s.key);
    assert forall k :: k != id ==> (k in before <==> k in after) && (k in before ==> before[k] == after[k]);
    if s.cache.Some? && before == after {
      assert id in before <==> id in after;
      assert id in before ==> before[id] == after[id];
    }
  }

  // ---------------------------------------------------------------- calls that overlap

  /**
   asked: requests for the projects on their way, each with the key in force when it was sent.
   open: answers the client has not stored yet. writing: writes carried out whose reply is due.
   */
  datatype Shared = Shared(state: State, asked: map<nat, string>, open: map<nat, ProjectMap>, writing: set<nat>)

  datatype Event =
    | Relogin(key: string)
    | Ask(fetch: nat)
    | Answer(fetch: nat)
    | Store(fetch: nat)
    | Take(write: nat, id: string, change: Project)   // the server carries a write out
    | Drop(write: nat)                                // the client hears of it and drops the map

  ghost predicate Next(w: Shared, e: Event, w': Shared) {
    match e
    case Relogin(key) => w' == w.(state := Step(w.state, Login(key)))
    case Ask(f) =>
      f !in w.asked && f !in w.open && w.state.cache.None? && w.state.key != ""
      && w' == w.(asked := w.asked[f := w.state.key])
    case Answer(f) =>
      f in w.asked && w' == w.(asked := w.asked - {f}, open := w.open[f := Fetch(w.state.projects, w.asked[f])])
    case Store(f) =>
      f in w.open && w' == w.(state := w.state.(cache := Some(w.open[f])), open := w.open - {f})
    case Take(n, id, change) =>
      n !in w.writing
      && w' == w.(state := w.state.(projects := w.state.projects[id := change]), writing := w.writing + {n})
    case Drop(n) =>
      n in w.writing && w' == w.(state := w.state.(cache := None), writing := w.writing - {n})
  }

  ghost predicate Run(ws: seq<Shared>, es: seq<Event>) {
    && |ws| == |es| + 1 && Coherent(ws[0].state) && ws[0].asked == map[] && ws[0].open == map[] && ws[0].writing == {}
    && forall i :: 0 <= i < |es| ==> Next(ws[i], es[i], ws[i + 1])
  }

  // ---------------------------------------------------------------- where a map comes from

  /** The positions at which a map was asked for and answered. */
  datatype Origin = Origin(ask: nat, answer: nat)

  datatype Trail = Trail(asked: map<nat, nat>, open: map<nat, Origin>, cache: Option<Origin>)

  function TrailStep(t: Trail, i: nat, e: Event): Trail {
    match e
    case Ask(f) => t.(asked := t.asked[f := i])
    case Answer(f) =>
      if f in t.asked then t.(asked := t.asked - {f}, open := t.open[f := Origin(t.asked[f], i)]) else t
    case Store(f) =>
      if f in t.open then t.(open := t.open - {f}, cache := Some(t.open[f])) else t
    case Take(_, _, _) => t
    case _ => t.(cache := None)
  }

  /** Followed through the events; a map there from the beginning counts as answered at 0. */
  function Follow(es: seq<Event>, had: bool): Trail {
    if es == [] then Trail(map[], map[], if had then Some(Origin(0, 0)) else None)
    else TrailStep(Follow(es[..|es| - 1], had), |es| - 1, es[|es| - 1])
  }

  ghost predicate AnsweredAt(ws: seq<Shared>, o: Origin, i: nat, m: ProjectMap)
    requires i < |ws|
  {
    o.ask <= o.answer <= i && m == Fetch(ws[o.answer].state.projects, ws[o.ask].state.key)
  }

  /** The trail tells the truth about the i-th state. */
  ghost predicate Tells(ws: seq<Shared>, t: Trail, i: nat)
    requires i < |ws|
  {
    && t.asked.Keys == ws[i].asked.Keys && t.open.Keys == ws[i].open.Keys
    && (t.cache.Some? <==> ws[i].state.cache.Some?)
    && (forall f :: f in t.asked ==> t.asked[f] < i && ws[i].asked[f] == ws[t.asked[f]].state.key)
    && (forall f :: f in t.open ==> AnsweredAt(ws, t.open[f], i, ws[i].open[f]))
    && (t.cache.Some? ==> AnsweredAt(ws, t.cache.value, i, ws[i].state.cache.value))
  }

  lemma {:induction false} AnswerTells(ws: seq<Shared>, t: Trail, i: nat, f: nat)
    requires i + 1 < |ws| && Tells(ws, t, i) && Next(ws[i], Answer(f), ws[i + 1])
    ensures Tells(ws, TrailStep(t, i, Answer(f)), i + 1)
  {
    assert AnsweredAt(ws, Origin(t.asked[f], i), i + 1, ws[i + 1].open[f]);
  }

  lemma {:induction false} StoreTells(ws: seq<Shared>, t: Trail, i: nat, f: nat)
    requires i + 1 < |ws| && Tells(ws, t, i) && Next(ws[i], Store(f), ws[i + 1])
    ensures Tells(ws, TrailStep(t, i, Store(f)), i + 1)
  {
  }

  lemma {:induction false} OtherTells(ws: seq<Shared>, t: Trail, i: nat, e: Event)
    requires i + 1 < |ws| && Tells(ws, t, i) && Next(ws[i], e, ws[i + 1]) && !e.Answer? && !e.Store?
    ensures Tells(ws, TrailStep(t, i, e), i + 1)
  {
  }

  lemma {:induction false} TellsOn(ws: seq<Shared>, t: Trail, i: nat, e: Event)
    requires i + 1 < |ws| && Tells(ws, t, i) && Next(ws[i], e, ws[i + 1])
    ensures Tells(ws, TrailStep(t, i, e), i + 1)
  {
    match e
    case Answer(f) => AnswerTells(ws, t, i, f);
    case Store(f) => StoreTells(ws, t, i, f);
    case _ => OtherTells(ws, t, i, e);
  }

  lemma {:induction false} TrailTells(ws: seq<Shared>, es: seq<Event>, i: nat)
    requires Run(ws, es) && i < |ws|
    ensures Tells(ws, Follow(es[..i], ws[0].state.cache.Some?), i)
  {
    if i == 0 {
      assert es[..0] == [];
    } else {
      TrailTells(ws, es, i - 1);
      assert es[..i][..i - 1] == es[..i - 1];
      TellsOn(ws, Follow(es[..i - 1], ws[0].state.cache.Some?), i - 1, es[i - 1]);
    }
  }

  /** Where the map in the i-th state comes from. */
  function MapOrigin(ws: seq<Shared>, es: seq<Event>, i: nat): Option<Origin>
    requires ws != [] && i <= |es|
  {
    Follow(es[..i], ws[0].state.cache.Some?).cache
  }

  /** In every run a map that is there is what the server had when it answered, for the key in force when it was asked. */
  lemma {:induction false} MapIsAsAnswered(ws: seq<Shared>, es: seq<Event>, i: nat)
    requires Run(ws, es) && i < |ws| && ws[i].state.cache.Some?
    ensures var o := MapOrigin(ws, es, i);
            o.Some? && AnsweredAt(ws, o.value, i, ws[i].state.cache.value)
  {
    TrailTells(ws, es, i);
  }

  // ---------------------------------------------------------------- when it is fresh

  /** What the map would say had it been asked for at position t, before its answer or after. */
  function Known(ws: seq<Shared>, o: Origin, t: nat): ProjectMap
    requires t < |ws| && o.answer < |ws|
  {
    Fetch(ws[if t < o.answer then o.answer else t].state.projects, ws[t].state.key)
  }

  function Shown(m: ProjectMap, id: string): Option<Entry> {
    if id in m then Some(m[id]) else None
  }

  /** What the map of this key shows of a project that was written like this. */
  function Reads(key: string, p: Project): Option<Entry> {
    if key in p.readers then Some(EntryOf(p)) else None
  }

  /** A login counts from the asking on, a write from the answer on, each if it changes what the key can read. */
  ghost predicate Shows(ws: seq<Shared>, e: Event, o: Origin, t: nat)
    requires t < |ws| && o.answer < |ws|
  {
    match e
    case Relogin(key) => Fetch(ws[if t < o.answer then o.answer else t].state.projects, key) != Known(ws, o, t)
    case Take(_, id, change) =>
      t >= o.answer
      && Shown(Known(ws, o, t), id) != Reads(ws[t].state.key, change)
    case _ => false
  }

  lemma {:induction false} WriteShows(projects: Projects, key: string, id: string, change: Project)
    ensures Fetch(projects[id := change], key) != Fetch(projects, key) <==>
              Shown(Fetch(projects, key), id) != Reads(key, change)
  {
    var before, after := Fetch(projects, key), Fetch(projects[id := change], key);
    assert Shown(after, id) == Reads(key, change);
    assert forall k :: k != id ==> Shown(after, k) == Shown(before, k);
    if Shown(after, id) == Shown(before, id) {
      SameShown(before, after);
    }
  }

  lemma {:induction false} ShowsIffChanges(ws: seq<Shared>, es: seq<Event>, o: Origin, t: nat)
    requires Run(ws, es) && t < |es| && o.answer < |ws|
    ensures Known(ws, o, t + 1) != Known(ws, o, t) <==> Shows(ws, es[t], o, t)
  {
    assert Next(ws[t], es[t], ws[t + 1]);
    if es[t].Take? && t >= o.answer {
      WriteShows(ws[t].state.projects, ws[t].state.key, es[t].id, es[t].change);
    }
  }

  function Look(ws: seq<Shared>, o: Origin, t: nat, id: string): Option<Entry>
    requires t < |ws| && o.answer < |ws|
  {
    Shown(Known(ws, o, t), id)
  }

  predicate Changes(ws: seq<Shared>, o: Origin, t: nat, id: string)
    requires t + 1 < |ws| && o.answer < |ws|
  {
    Look(ws, o, t + 1, id) != Look(ws, o, t, id)
  }

  /** Between the asking and now no project comes to look again as it did before. */
  ghost predicate NothingRestored(ws: seq<Shared>, o: Origin, i: nat)
    requires i < |ws| && o.answer < |ws|
  {
    forall t, u, id :: o.ask <= u <= t < i && Changes(ws, o, t, id) ==> Look(ws, o, u, id) != Look(ws, o, t + 1, id)
  }

  lemma {:induction false} ChangedStays(ws: seq<Shared>, o: Origin, t: nat, n: nat, i: nat, id: string)
    requires o.ask <= t < n <= i < |ws| && o.answer < |ws| && NothingRestored(ws, o, i) && Changes(ws, o, t, id)
    ensures Look(ws, o, n, id) != Look(ws, o, o.ask, id)
    decreases n
  {
    if t == n - 1 {
      assert Look(ws, o, o.ask, id) != Look(ws, o, t + 1, id);
    } else {
      ChangedStays(ws, o, t, n - 1, i, id);
      if Changes(ws, o, n - 1, id) {
        assert Look(ws, o, o.ask, id) != Look(ws, o, n - 1 + 1, id);
      }
    }
  }

  lemma {:induction false} SameShown(a: ProjectMap, b: ProjectMap)
    requires forall id :: Shown(a, id) == Shown(b, id)
    ensures a == b
  {
    assert forall id :: id in a <==> Shown(a, id).Some?;
    assert forall id :: id in b <==> Shown(b, id).Some?;
    assert forall id :: id in a ==> Shown(a, id).value == a[id];
    assert forall id :: id in b ==> Shown(b, id).value == b[id];
  }

  lemma {:induction false} UnchangedStays(ws: seq<Shared>, o: Origin, i: nat)
    requires o.ask <= i < |ws| && o.answer < |ws|
    requires forall t :: o.ask <= t < i ==> Known(ws, o, t + 1) == Known(ws, o, t)
    ensures Known(ws, o, i) == Known(ws, o, o.ask)
    decreases i
  {
    if i == o.ask {
    } else {
      UnchangedStays(ws, o, i - 1);
      assert Known(ws, o, i - 1 + 1) == Known(ws, o, i - 1);
    }
  }

  /**
   However calls overlap: a map that is there is fresh for the login in force exactly if no login
   since it was asked for, and no write since it was answered, changed what it shows, for runs
   in which no project comes to look again as it did before.
   */
  lemma {:induction false} FreshIff(ws: seq<Shared>, es: seq<Event>, i: nat)
    requires Run(ws, es) && i < |ws| && ws[i].state.cache.Some?
    requires var o := MapOrigin(ws, es, i); o.Some? ==> o.value.answer < |ws| && NothingRestored(ws, o.value, i)
    ensures var o := MapOrigin(ws, es, i);
            && o.Some? && o.value.ask <= o.value.answer <= i
            && (Coherent(ws[i].state) <==> forall t :: o.value.ask <= t < i ==> !Shows(ws, es[t], o.value, t))
  {
    MapIsAsAnswered(ws, es, i);
    var o := MapOrigin(ws, es, i).value;
    KnownIsUnchangedIff(ws, es, o, i);
    assert ws[i].state.cache.value == Known(ws, o, o.ask) && Fetch(ws[i].state.projects, ws[i].state.key) == Known(ws, o, i);
  }

  lemma {:induction false} KnownIsUnchangedIff(ws: seq<Shared>, es: seq<Event>, o: Origin, i: nat)
    requires Run(ws, es) && o.ask <= o.answer <= i < |ws| && NothingRestored(ws, o, i)
    ensures Known(ws, o, i) == Known(ws, o, o.ask) <==> forall t :: o.ask <= t < i ==> !Shows(ws, es[t], o, t)
  {
    forall t | o.ask <= t < i ensures Known(ws, o, t + 1) != Known(ws, o, t) <==> Shows(ws, es[t], o, t) {
      ShowsIffChanges(ws, es, o, t);
    }
    if t :| o.ask <= t < i && Shows(ws, es[t], o, t) {
      SomethingChanges(ws, o, t, i);
    } else {
      UnchangedStays(ws, o, i);
    }
  }

  lemma {:induction false} SomethingChanges(ws: seq<Shared>, o: Origin, t: nat, i: nat)
    requires o.ask <= t < i < |ws| && o.answer < |ws| && NothingRestored(ws, o, i) && Known(ws, o, t + 1) != Known(ws, o, t)
    ensures Known(ws, o, i) != Known(ws, o, o.ask)
  {
    if forall id :: Shown(Known(ws, o, t + 1), id) == Shown(Known(ws, o, t), id) {
      SameShown(Known(ws, o, t + 1), Known(ws, o, t));
    }
    var id :| Shown(Known(ws, o, t + 1), id) != Shown(Known(ws, o, t), id);
    assert Changes(ws, o, t, id);
    ChangedStays(ws, o, t, i, i, id);
  }

  /** The last write of the project between two positions. */
  function LastWrite(es: seq<Event>, id: string, start: nat, end: nat): Option<Project>
    requires end <= |es|
    decreases end
  {
    if end <= start then None
    else if es[end - 1].Take? && es[end - 1].id == id then Some(es[end - 1].change)
    else LastWrite(es, id, start, end - 1)
  }

  lemma {:induction false} LastWriteStands(ws: seq<Shared>, es: seq<Event>, id: string, start: nat, end: nat)
    requires Run(ws, es) && start <= end < |ws|
    ensures var now, before := ws[end].state.projects, ws[start].state.projects;
            var last := LastWrite(es, id, start, end);
            if last.Some? then id in now && now[id] == last.value
            else (id in now <==> id in before) && (id in now ==> now[id] == before[id])
    decreases end
  {
    if end == start {
    } else {
      LastWriteStands(ws, es, id, start, end - 1);
      assert Next(ws[end - 1], es[end - 1], ws[end]);
    }
  }

  /**
   The same for all runs: the map is fresh exactly if the last write of each project since the
   answer left it looking, to the login in force, as the map shows it, and the projects not
   written since look to that login as they did to the one the map was asked for under.
   */
  lemma {:induction false} FreshIffLastWrites(ws: seq<Shared>, es: seq<Event>, i: nat)
    requires Run(ws, es) && i < |ws| && ws[i].state.cache.Some?
    ensures var o := MapOrigin(ws, es, i);
            && o.Some? && o.value.ask <= o.value.answer <= i
            && var projects, asked, key := ws[o.value.answer].state.projects, ws[o.value.ask].state.key, ws[i].state.key;
            Coherent(ws[i].state) <==>
            forall id ::
              var last := LastWrite(es, id, o.value.answer, i);
              if last.Some? then Shown(ws[i].state.cache.value, id) == Reads(key, last.value)
              else Shown(Fetch(projects, asked), id) == Shown(Fetch(projects, key), id)
  {
    MapIsAsAnswered(ws, es, i);
    var o := MapOrigin(ws, es, i).value;
    var projects, key, now := ws[o.answer].state.projects, ws[i].state.key, ws[i].state.projects;
    forall id
      ensures var last := LastWrite(es, id, o.answer, i);
              Shown(Fetch(now, key), id)
              == if last.Some? then Reads(key, last.value) else Shown(Fetch(projects, key), id)
    {
      LastWriteStands(ws, es, id, o.answer, i);
    }
    if forall id :: Shown(ws[i].state.cache.value, id) == Shown(Fetch(now, key), id) {
      SameShown(ws[i].state.cache.value, Fetch(now, key));
    }
  }

  /** No login while the projects are asked for, no write while an answer is waiting to be stored. */
  predicate Apart(w: Shared, e: Event) {
    match e
    case Relogin(_) => w.asked == map[] && w.open == map[]
    case Take(_, _, _) => w.open == map[]
    case _ => true
  }

  /** Between its writes a client that keeps these apart finds its map fresh, without any assumption on the writes. */
  lemma {:induction false} ApartIsFresh(ws: seq<Shared>, es: seq<Event>, i: nat)
    requires Run(ws, es) && i < |ws| && forall k :: 0 <= k < |es| ==> Apart(ws[k], es[k])
    ensures ws[i].writing == {} ==> Coherent(ws[i].state)
    ensures forall f :: f in ws[i].open ==> ws[i].open[f] == Fetch(ws[i].state.projects, ws[i].state.key)
    ensures forall f :: f in ws[i].asked ==> ws[i].asked[f] == ws[i].state.key
  {
    if i == 0 {
    } else {
      ApartIsFresh(ws, es, i - 1);
      assert Next(ws[i - 1], es[i - 1], ws[i]);
    }
  }

  /** A fetch that overlaps a write brings the old names back after the write had dropped them. */
  lemma {:induction false} OverlapGoesStale(s: State, id: string, change: Project)
    returns (ws: seq<Shared>, es: seq<Event>)
    requires s.cache.None? && s.key != "" && s.key in change.readers
    requires id !in s.projects || EntryOf(s.projects[id]) != EntryOf(change)
    ensures Run(ws, es) && ws[0].state == s && |es| == 5 && es[2] == Take(0, id, change) && es[3] == Drop(0)
    ensures ws[5].writing == {} && !Coherent(ws[5].state)
  {
    var before := Fetch(s.projects, s.key);
    var changed := s.projects[id := change];
    var w0 := Shared(s, map[], map[], {});
    var w1 := Shared(s, map[0 := s.key], map[], {});
    var w2 := Shared(s, map[], map[0 := before], {});
    var w3 := Shared(s.(projects := changed), map[], map[0 := before], {0});
    var w4 := Shared(s.(projects := changed), map[], map[0 := before], {});
    var w5 := Shared(s.(projects := changed, cache := Some(before)), map[], map[], {});
    ws, es := [w0, w1, w2, w3, w4, w5], [Ask(0), Answer(0), Take(0, id, change), Drop(0), Store(0)];
    assert w2.asked == w1.asked - {0} && w4.writing == w3.writing - {0} && w5.open == w4.open - {0};
    assert Next(w0, es[0], w1) && Next(w1, es[1], w2) && Next(w2, es[2], w3) && Next(w3, es[3], w4) && Next(w4, es[4], w5);
    WriteShows(s.projects, s.key, id, change);
    assert id in before ==> before[id] == EntryOf(s.projects[id]);
  }
}
