/**
 Updating an item from the command line: the payload and the flags become named columns, which
 a versioned row takes in one write, with one retry when somebody else got there first. Other
 writers may act at every await.
 */
module UpdateItem {
  import opened Wrappers

  datatype Field =
    | Title | Description | Status | Priority | AssignedTo | Labels | DueDate | BuildEngine
    | AcceptanceCriteria | FilesToModify | ScopeOut | ProjectId | CommitType | RequiredLabels

  datatype Value = Null | Text(s: string) | List(items: seq<string>)

  function Key(f: Field): string {
    match f
    case Title => "title"
    case Description => "description"
    case Status => "status"
    case Priority => "priority"
    case AssignedTo => "assigned_to"
    case Labels => "labels"
    case DueDate => "due_date"
    case BuildEngine => "build_engine"
    case AcceptanceCriteria => "acceptance_criteria"
    case FilesToModify => "files_to_modify"
    case ScopeOut => "scope_out"
    case ProjectId => "project_id"
    case CommitType => "commit_type"
    case RequiredLabels => "required_labels"
  }

  type Payload = map<string, Value>
  type Columns = map<Field, Value>

  /** The command's own options; None means not given. */
  datatype Flags = Flags(status: Option<string>, buildEngine: Option<string>, commitType: Option<string>,
                         requiredLabels: Option<seq<string>>)

  /** An absent key and a JSON null are the same. */
  function Given(p: Payload, f: Field): Value {
    if Key(f) in p then p[Key(f)] else Null
  }

  predicate IsKey(k: string) {
    exists f :: Key(f) == k
  }

  predicate KnownKeys(p: Payload) {
    forall k :: k in p ==> IsKey(k)
  }

  // ---------------------------------------------------------------- from payload to columns

  /** The arguments of the backend's update_item. */
  datatype Args = Args(
    title: Value, description: Value, status: Value, priority: Value, assignedTo: Value, labels: Value,
    dueDate: Value, dueDateSet: bool, buildEngine: Value, buildEngineSet: bool,
    acceptanceCriteria: Value, filesToModify: Value, scopeOut: Value,
    projectId: Value, projectIdSet: bool, commitType: Value, requiredLabels: Value)

  function TextFlag(flag: Option<string>, otherwise: Value): Value {
    if flag.Some? then Text(flag.value) else otherwise
  }

  /** None: leave alone; "": set to null; anything else: set to it. */
  function Sentinel(raw: Value): (Value, bool) {
    if raw == Null then (Null, false)
    else if raw == Text("") then (Null, true)
    else (raw, true)
  }

  function Translate(p: Payload, flags: Flags): Args {
    var (dueDate, dueDateSet) := Sentinel(Given(p, DueDate));
    var (engine, engineSet) :=
      if flags.buildEngine.Some? then (Text(flags.buildEngine.value), true) else Sentinel(Given(p, BuildEngine));
    var (projectId, projectIdSet) := Sentinel(Given(p, ProjectId));
    Args(Given(p, Title), Given(p, Description), TextFlag(flags.status, Given(p, Status)), Given(p, Priority),
         Given(p, AssignedTo), Given(p, Labels), dueDate, dueDateSet, engine, engineSet,
         Given(p, AcceptanceCriteria), Given(p, FilesToModify), Given(p, ScopeOut), projectId, projectIdSet,
         TextFlag(flags.commitType, Given(p, CommitType)),
         if flags.requiredLabels.Some? then List(flags.requiredLabels.value) else Given(p, RequiredLabels))
  }

  function ArgOf(a: Args, f: Field): Value {
    match f
    case Title => a.title
    case Description => a.description
    case Status => a.status
    case Priority => a.priority
    case AssignedTo => a.assignedTo
    case Labels => a.labels
    case DueDate => a.dueDate
    case BuildEngine => a.buildEngine
    case AcceptanceCriteria => a.acceptanceCriteria
    case FilesToModify => a.filesToModify
    case ScopeOut => a.scopeOut
    case ProjectId => a.projectId
    case CommitType => a.commitType
    case RequiredLabels => a.requiredLabels
  }

  /** Three fields are sent by their flag, the others when they are not None. */
  predicate Sends(a: Args, f: Field) {
    match f
    case DueDate => a.dueDateSet
    case BuildEngine => a.buildEngineSet
    case ProjectId => a.projectIdSet
    case _ => ArgOf(a, f) != Null
  }

  /** The JSON body of the HTTP backend. */
  function Body(a: Args): Columns {
    map f: Field | Sends(a, f) :: ArgOf(a, f)
  }

  function At(c: Columns, f: Field): Value {
    if f in c then c[f] else Null
  }

  /** The service arguments the REST route makes of a body. */
  function FromBody(body: Columns): Args {
    Args(At(body, Title), At(body, Description), At(body, Status), At(body, Priority), At(body, AssignedTo),
         At(body, Labels), At(body, DueDate), DueDate in body, At(body, BuildEngine), BuildEngine in body,
         At(body, AcceptanceCriteria), At(body, FilesToModify), At(body, ScopeOut), At(body, ProjectId),
         ProjectId in body, At(body, CommitType), At(body, RequiredLabels))
  }

  /** A column that is not set carries no value. */
  predicate Consistent(a: Args) {
    (!a.dueDateSet ==> a.dueDate == Null) && (!a.buildEngineSet ==> a.buildEngine == Null)
    && (!a.projectIdSet ==> a.projectId == Null)
  }

  /** The HTTP backend hands the service the arguments the local backend would. */
  lemma {:induction false} TransportKeepsArgs(a: Args)
    requires Consistent(a)
    ensures FromBody(Body(a)) == a
  {
    forall f: Field ensures At(Body(a), f) == ArgOf(a, f) {
      SentOrNull(a, f);
    }
  }

  lemma {:induction false} SentOrNull(a: Args, f: Field)
    requires Consistent(a)
    ensures At(Body(a), f) == ArgOf(a, f)
  {
    match f
    case DueDate =>
    case BuildEngine =>
    case ProjectId =>
    case _ =>
  }

  /** The SET clause of the service; normalize cleans up capability labels. */
  function SetClause(a: Args, normalize: Value -> Value): Columns {
    map f: Field | Sends(a, f) :: if f.RequiredLabels? then normalize(ArgOf(a, f)) else ArgOf(a, f)
  }

  /** What a payload and flags ask of a field: None to leave it, or its new value. */
  function Asked(p: Payload, flags: Flags, f: Field): Option<Value> {
    var flag := match f
      case Status => TextFlag(flags.status, Null)
      case BuildEngine => TextFlag(flags.buildEngine, Null)
      case CommitType => TextFlag(flags.commitType, Null)
      case RequiredLabels => if flags.requiredLabels.Some? then List(flags.requiredLabels.value) else Null
      case _ => Null;
    if flag != Null then Some(flag)
    else if Given(p, f) == Null then None
    else if f in {DueDate, BuildEngine, ProjectId} && Given(p, f) == Text("") then Some(Null)
    else Some(Given(p, f))
  }

  lemma {:induction false} TranslatesAsAsked(p: Payload, flags: Flags, f: Field)
    ensures var a := Translate(p, flags);
            && Consistent(a)
            && (Sends(a, f) <==> Asked(p, flags, f).Some?)
            && (Sends(a, f) ==> ArgOf(a, f) == Asked(p, flags, f).value)
  {
    match f
    case DueDate =>
    case BuildEngine =>
    case ProjectId =>
    case Status =>
    case CommitType =>
    case RequiredLabels =>
    case _ =>
  }

  /**
   From the command line to the row, over either backend: exactly the fields a flag or a
   non-null payload key names are written, the flag first, and an empty due date, engine or
   project in the payload clears the column.
   */
  lemma {:induction false} OnlyAskedFieldsAreWritten(p: Payload, flags: Flags, normalize: Value -> Value, f: Field)
    ensures var direct := SetClause(Translate(p, flags), normalize);
            && SetClause(FromBody(Body(Translate(p, flags))), normalize) == direct
            && (f in direct <==> Asked(p, flags, f).Some?)
            && (f in direct ==> direct[f] == if f.RequiredLabels? then normalize(Asked(p, flags, f).value)
                                            else Asked(p, flags, f).value)
  {
    TranslatesAsAsked(p, flags, f);
    TransportKeepsArgs(Translate(p, flags));
  }

  const ACCEPTED_KEYS: set<string> := {
    "title", "description", "status", "priority", "assigned_to", "labels", "due_date", "build_engine",
    "acceptance_criteria", "files_to_modify", "scope_out", "project_id", "commit_type", "required_labels"
  }

  lemma {:induction false} KnownKeysAreThese(p: Payload)
    ensures KnownKeys(p) <==> p.Keys <= ACCEPTED_KEYS
  {
    assert forall f: Field :: Key(f) in ACCEPTED_KEYS;
    assert Key(Title) == "title" && Key(Description) == "description" && Key(Status) == "status";
    assert Key(Priority) == "priority" && Key(AssignedTo) == "assigned_to" && Key(Labels) == "labels";
    assert Key(DueDate) == "due_date" && Key(BuildEngine) == "build_engine" && Key(ProjectId) == "project_id";
    assert Key(AcceptanceCriteria) == "acceptance_criteria" && Key(FilesToModify) == "files_to_modify";
    assert Key(ScopeOut) == "scope_out" && Key(CommitType) == "commit_type";
    assert Key(RequiredLabels) == "required_labels";
    forall k | k in ACCEPTED_KEYS ensures IsKey(k) {
    }
  }

  /** The column is written exactly if the payload has something at the key, and gets that. */
  ghost predicate Takes(columns: Columns, f: Field, p: Payload, key: string) {
    (f in columns <==> key in p && p[key] != Null) && (f in columns ==> columns[f] == p[key])
  }

  /** The same, and an empty text clears the column. */
  ghost predicate TakesOrClears(columns: Columns, f: Field, p: Payload, key: string) {
    && (f in columns <==> key in p && p[key] != Null)
    && (f in columns ==> columns[f] == if p[key] == Text("") then Null else p[key])
  }

  lemma {:induction false} PlainField(p: Payload, flags: Flags, normalize: Value -> Value, f: Field, key: string)
    requires f !in {Status, DueDate, BuildEngine, ProjectId, CommitType, RequiredLabels} && Key(f) == key
    ensures Takes(SetClause(Translate(p, flags), normalize), f, p, key)
  {
    TranslatesAsAsked(p, flags, f);
  }

  lemma {:induction false} ClearableField(p: Payload, flags: Flags, normalize: Value -> Value, f: Field, key: string)
    requires f in {DueDate, BuildEngine, ProjectId} && Key(f) == key && (f == BuildEngine ==> flags.buildEngine.None?)
    ensures TakesOrClears(SetClause(Translate(p, flags), normalize), f, p, key)
  {
    TranslatesAsAsked(p, flags, f);
  }

  /** Which key of the payload the columns without a flag are written from. */
  lemma {:induction false} PayloadIsWritten(p: Payload, flags: Flags, normalize: Value -> Value)
    ensures var written := SetClause(Translate(p, flags), normalize);
            && Takes(written, Title, p, "title") && Takes(written, Description, p, "description")
            && Takes(written, Priority, p, "priority") && Takes(written, AssignedTo, p, "assigned_to")
            && Takes(written, Labels, p, "labels") && Takes(written, ScopeOut, p, "scope_out")
            && Takes(written, AcceptanceCriteria, p, "acceptance_criteria")
            && Takes(written, FilesToModify, p, "files_to_modify")
            && TakesOrClears(written, DueDate, p, "due_date") && TakesOrClears(written, ProjectId, p, "project_id")
  {
    PlainField(p, flags, normalize, Title, "title");
    PlainField(p, flags, normalize, Description, "description");
    PlainField(p, flags, normalize, Priority, "priority");
    PlainField(p, flags, normalize, AssignedTo, "assigned_to");
    PlainField(p, flags, normalize, Labels, "labels");
    PlainField(p, flags, normalize, ScopeOut, "scope_out");
    PlainField(p, flags, normalize, AcceptanceCriteria, "acceptance_criteria");
    PlainField(p, flags, normalize, FilesToModify, "files_to_modify");
    ClearableField(p, flags, normalize, DueDate, "due_date");
    ClearableField(p, flags, normalize, ProjectId, "project_id");
  }

  /** Which flag, and which key of the payload without it, the columns with a flag are written from. */
  lemma {:induction false} FlagIsWritten(p: Payload, flags: Flags, normalize: Value -> Value)
    ensures var written := SetClause(Translate(p, flags), normalize);
            && (if flags.status.Some? then Status in written && written[Status] == Text(flags.status.value)
                else Takes(written, Status, p, "status"))
            && (if flags.commitType.Some? then CommitType in written && written[CommitType] == Text(flags.commitType.value)
                else Takes(written, CommitType, p, "commit_type"))
            && (if flags.buildEngine.Some? then
                  BuildEngine in written && written[BuildEngine] == Text(flags.buildEngine.value)
                else TakesOrClears(written, BuildEngine, p, "build_engine"))
  {
    TranslatesAsAsked(p, flags, Status);
    TranslatesAsAsked(p, flags, CommitType);
    TranslatesAsAsked(p, flags, BuildEngine);
    if flags.buildEngine.None? {
      ClearableField(p, flags, normalize, BuildEngine, "build_engine");
    }
  }

  /** The same for the capability labels, which are normalized. */
  lemma {:induction false} LabelsAreWritten(p: Payload, flags: Flags, normalize: Value -> Value)
    ensures var written := SetClause(Translate(p, flags), normalize);
            if flags.requiredLabels.Some? then
              RequiredLabels in written && written[RequiredLabels] == normalize(List(flags.requiredLabels.value))
            else
              && (RequiredLabels in written <==> "required_labels" in p && p["required_labels"] != Null)
              && (RequiredLabels in written ==> written[RequiredLabels] == normalize(p["required_labels"]))
  {
    TranslatesAsAsked(p, flags, RequiredLabels);
  }

  // ---------------------------------------------------------------- the versioned row

  datatype Item = Item(fields: Columns, completed: bool, version: int)

  predicate IsDone(item: Item) {
    Status in item.fields && item.fields[Status] == Text("done")
  }

  /** One writer's write: its columns, and whether the row it had read was done. */
  datatype Change = Change(columns: Columns, wasDone: bool)

  /** completed_at is set or reset by comparing with the status the writer had read. */
  function Completion(item: Item, c: Change): bool {
    if Status !in c.columns then item.completed
    else if c.columns[Status] == Text("done") && !c.wasDone then true
    else if c.columns[Status] != Text("done") && c.wasDone then false
    else item.completed
  }

  function Write(item: Item, c: Change): Item {
    if c.columns == map[] then item
    else Item(item.fields + c.columns, Completion(item, c), item.version + 1)
  }

  datatype Op = Edit(change: Change) | Delete

  function Play(row: Option<Item>, ops: seq<Op>): Option<Item> {
    if ops == [] then row
    else
      var before := Play(row, ops[..|ops| - 1]);
      match ops[|ops| - 1]
      case Delete => None
      case Edit(c) => if before.None? then None else Some(Write(before.value, c))
  }

  /** Other writers' acts that write something. */
  predicate Effective(ops: seq<Op>) {
    forall i :: 0 <= i < |ops| && ops[i].Edit? ==> ops[i].change.columns != map[]
  }

  lemma {:induction false} PlayConcat(row: Option<Item>, a: seq<Op>, b: seq<Op>)
    ensures Play(row, a + b) == Play(Play(row, a), b)
  {
    if b == [] {
      assert a + b == a;
    } else {
      assert (a + b)[..|a + b| - 1] == a + b[..|b| - 1];
      PlayConcat(row, a, b[..|b| - 1]);
    }
  }

  lemma {:induction false} VersionCountsWrites(row: Option<Item>, ops: seq<Op>)
    requires Effective(ops) && Play(row, ops).Some?
    ensures row.Some? && Play(row, ops).value.version == row.value.version + |ops|
  {
    if ops == [] {
    } else {
      VersionCountsWrites(row, ops[..|ops| - 1]);
    }
  }

  /** The version is the same exactly when nobody wrote, and then so is the row. */
  lemma {:induction false} SameVersionSameRow(item: Item, ops: seq<Op>)
    requires Effective(ops)
    ensures Play(Some(item), ops).Some? && Play(Some(item), ops).value.version == item.version <==> ops == []
    ensures ops == [] <==> Play(Some(item), ops) == Some(item)
  {
    if Play(Some(item), ops).Some? {
      VersionCountsWrites(Some(item), ops);
    }
  }

  // ---------------------------------------------------------------- the service and the client

  /**
   What others do before each await of the client returns, which writes the service refuses
   before and after it has compared versions, and which replies get lost on the way back.
   */
  datatype World = World(others: nat -> seq<Op>, refusesEarly: (Item, Columns) -> bool,
                         refusesLate: (Item, Columns) -> bool, replyLost: bool)

  ghost predicate AllEffective(w: World) {
    forall i :: Effective(w.others(i))
  }

  datatype Reply = Updated | Conflict | Failed

  class Store {
    var row: Option<Item>

    constructor (item: Option<Item>)
      ensures row == item
    {
      row := item;
    }

    method Interfere(ops: seq<Op>)
      modifies this
      ensures row == Play(old(row), ops)
    {
      for i := 0 to |ops|
        invariant row == Play(old(row), ops[..i])
      {
        assert ops[..i + 1][..i] == ops[..i];
        row := match ops[i]
          case Delete => None
          case Edit(c) => if row.None? then None else Some(Write(row.value, c));
      }
      assert ops[..|ops|] == ops;
    }

    /** Read, compare, and write by id; others may act between the comparison and the write. */
    method Update(version: int, columns: Columns, w: World, window: seq<Op>)
      returns (reply: Reply, wrote: bool)
      modifies this
      ensures wrote <==> old(row).Some? && old(row).value.version == version
                         && !w.refusesEarly(old(row).value, columns) && !w.refusesLate(old(row).value, columns)
      ensures row == if wrote then Play(old(row), window + [Edit(Change(columns, IsDone(old(row).value)))]) else old(row)
      ensures reply.Conflict? <==> old(row).Some? && !w.refusesEarly(old(row).value, columns) && old(row).value.version != version
      ensures reply.Updated? <==> wrote && row.Some?
    {
      wrote := false;
      if row.None? || w.refusesEarly(row.value, columns) {
        return Failed, false;
      }
      var existing := row.value;
      if existing.version != version {
        return Conflict, false;
      }
      if w.refusesLate(existing, columns) {
        return Failed, false;
      }
      Interfere(window);
      PlayConcat(old(row), window, [Edit(Change(columns, IsDone(existing)))]);
      assert [Edit(Change(columns, IsDone(existing)))][..0] == [];
      if row.Some? {
        row := Some(Write(row.value, Change(columns, IsDone(existing))));
      }
      reply := if row.Some? then Updated else Failed;
      wrote := true;
    }
  }

  /** What others do in attempt k, counted from 0, until the write is compared. */
  function Meanwhile(w: World, explicit: bool, k: nat): seq<Op> {
    (if explicit then [] else w.others(3 * k)) + w.others(3 * k + 1)
  }

  /** What others had done when the last of the attempts was compared. */
  function Before(w: World, explicit: bool, attempts: nat): seq<Op> {
    if attempts == 2 then Meanwhile(w, explicit, 0) + Meanwhile(w, explicit, 1) else Meanwhile(w, explicit, 0)
  }

  /** Attempt k finds its version: the caller's, or else the one fetched, which is out of date once others have written. */
  ghost predicate Current(read: Item, explicitVersion: Option<int>, w: World, k: nat) {
    if explicitVersion.Some? then read.version == explicitVersion.value else w.others(3 * k + 1) == []
  }

  /** What attempt k makes of the row it is compared with: the service's reply, whether it wrote, and the row left. */
  ghost predicate Lands(read: Option<Item>, explicitVersion: Option<int>, columns: Columns, w: World, k: nat,
                        reply: Reply, wrote: bool, row': Option<Item>)
  {
    && (wrote <==> read.Some? && Current(read.value, explicitVersion, w, k)
                   && !w.refusesEarly(read.value, columns) && !w.refusesLate(read.value, columns))
    && (reply.Conflict? <==> read.Some? && !Current(read.value, explicitVersion, w, k)
                             && !w.refusesEarly(read.value, columns))
    && (reply.Updated? <==> wrote && Play(read, w.others(3 * k + 2)).Some?)
    && row' == if wrote then Play(read, w.others(3 * k + 2) + [Edit(Change(columns, IsDone(read.value)))]) else read
  }

  /** Fetch the version unless the caller gave one, and ask the service for the update. */
  method Attempt(store: Store, explicitVersion: Option<int>, columns: Columns, w: World, k: nat)
    returns (reply: Reply, ghost wrote: bool)
    requires AllEffective(w)
    modifies store
    ensures Lands(Play(old(store.row), Meanwhile(w, explicitVersion.Some?, k)), explicitVersion, columns, w, k,
                  reply, wrote, store.row)
  {
    var version: int;
    wrote, reply := false, Failed;
    if explicitVersion.Some? {
      version := explicitVersion.value;
    } else {
      PlayConcat(store.row, w.others(3 * k), w.others(3 * k + 1));
      store.Interfere(w.others(3 * k));
      if store.row.None? {
        PlayNothing(w.others(3 * k + 1));
        return reply, wrote;
      }
      version := store.row.value.version;
      SameVersionSameRow(store.row.value, w.others(3 * k + 1));
    }
    assert [] + w.others(3 * k + 1) == w.others(3 * k + 1);
    store.Interfere(w.others(3 * k + 1));
    reply, wrote := store.Update(version, columns, w, w.others(3 * k + 2));
  }

  /** The first attempt fetched a version that others left behind before the service compared it. */
  ghost predicate Conflicts(row: Option<Item>, explicitVersion: Option<int>, columns: Columns, w: World) {
    var read := Play(row, w.others(0) + w.others(1));
    explicitVersion.None? && read.Some? && w.others(1) != [] && !w.refusesEarly(read.value, columns)
  }

  /** A second attempt exactly after a conflict without an explicit version. */
  method Attempts(store: Store, explicitVersion: Option<int>, columns: Columns, w: World)
    returns (reply: Reply, ghost attempts: nat, ghost wrote: bool)
    requires AllEffective(w)
    modifies store
    ensures attempts == if Conflicts(old(store.row), explicitVersion, columns, w) then 2 else 1
    ensures Lands(Play(old(store.row), Before(w, explicitVersion.Some?, attempts)), explicitVersion, columns, w,
                  attempts - 1, reply, wrote, store.row)
  {
    reply, wrote := Attempt(store, explicitVersion, columns, w, 0);
    attempts := 1;
    if reply.Conflict? && explicitVersion.None? {
      PlayConcat(old(store.row), Meanwhile(w, false, 0), Meanwhile(w, false, 1));
      reply, wrote := Attempt(store, explicitVersion, columns, w, 1);
      attempts := 2;
    }
  }

  datatype Result = Ok | VersionConflict | OtherError

  /**
   One write at most, in the first attempt or the second, and a second attempt exactly after a conflict
   without an explicit version. The write lands on the row as it was when versions were compared, plus whatever
   others did in the service's window; without an explicit version that is the very row the
   client had fetched. A conflict error means that nothing was written. reply is the service's last one.
   */
  method DoUpdate(store: Store, p: Payload, flags: Flags, explicitVersion: Option<int>, normalize: Value -> Value,
                  w: World)
    returns (result: Result, reply: Reply, ghost attempts: nat, ghost wrote: bool)
    requires AllEffective(w)
    modifies store
    ensures attempts == if !(p.Keys <= ACCEPTED_KEYS) then 0
                        else if Conflicts(old(store.row), explicitVersion, SetClause(Translate(p, flags), normalize), w)
                        then 2 else 1
    ensures attempts == 0 ==> result.OtherError? && !wrote && store.row == old(store.row)
    ensures attempts > 0 ==>
              && (result.Ok? <==> reply.Updated? && !w.replyLost)
              && (result.VersionConflict? <==> reply.Conflict?)
              && Lands(Play(old(store.row), Before(w, explicitVersion.Some?, attempts)), explicitVersion,
                       SetClause(Translate(p, flags), normalize), w, attempts - 1, reply, wrote, store.row)
  {
    attempts, wrote, reply := 0, false, Failed;
    assert KnownKeys(p) <==> p.Keys <= ACCEPTED_KEYS by {
      KnownKeysAreThese(p);
    }
    if !KnownKeys(p) {
      return OtherError, reply, attempts, wrote;
    }
    var columns := SetClause(Translate(p, flags), normalize);
    reply, attempts, wrote := Attempts(store, explicitVersion, columns, w);
    result := match reply
      case Updated => if w.replyLost then OtherError else Ok
      case Conflict => VersionConflict
      case Failed => OtherError;
  }

  lemma {:induction false} PlayNothing(ops: seq<Op>)
    ensures Play(None, ops) == None
  {
    if ops == [] {
    } else {
      PlayNothing(ops[..|ops| - 1]);
    }
  }

  // ---------------------------------------------------------------- nothing lost

  predicate SameField(a: Option<Item>, b: Option<Item>, f: Field) {
    a.Some? == b.Some?
    && (a.Some? ==>
          && (f in a.value.fields <==> f in b.value.fields)
          && (f in a.value.fields ==> a.value.fields[f] == b.value.fields[f]))
  }

  lemma {:induction false} PlaySameField(a: Option<Item>, b: Option<Item>, ops: seq<Op>, f: Field)
    requires SameField(a, b, f)
    ensures SameField(Play(a, ops), Play(b, ops), f)
  {
    if ops == [] {
    } else {
      PlaySameField(a, b, ops[..|ops| - 1], f);
    }
  }

  /** Whatever others did before, in the window and afterwards, a field the write does not name ends as without it. */
  lemma {:induction false} OtherFieldsAreUntouched(row: Option<Item>, before: seq<Op>, ours: Change, after: seq<Op>,
                                                   f: Field)
    requires f !in ours.columns
    ensures var written, without := Play(row, before + [Edit(ours)] + after), Play(row, before + after);
            && (written.Some? <==> without.Some?)
            && (written.Some? ==> (f in written.value.fields <==> f in without.value.fields))
            && (written.Some? && f in written.value.fields ==> written.value.fields[f] == without.value.fields[f])
  {
    PlayConcat(row, before + [Edit(ours)], after);
    PlayConcat(row, before, after);
    assert (before + [Edit(ours)])[..|before|] == before;
    PlaySameField(Play(row, before + [Edit(ours)]), Play(row, before), after, f);
  }

  /** The write replaces the row it was compared with exactly when nobody wrote in the window. */
  lemma {:induction false} ReplacesTheRowReadIff(read: Item, window: seq<Op>, ours: Change)
    requires Effective(window) && ours.columns != map[]
    ensures Play(Some(read), window + [Edit(ours)]) == Some(Write(read, ours)) <==> window == []
  {
    var ops := window + [Edit(ours)];
    assert ops[..|window|] == window;
    if Play(Some(read), ops).Some? {
      VersionCountsWrites(Some(read), ops);
    }
  }

  /** A title written in the window is overwritten although the versions compared equal. */
  lemma {:induction false} WindowLosesAnUpdate(read: Item, theirs: string, ours: string)
    ensures var row := Play(Some(read), [Edit(Change(map[Title := Text(theirs)], IsDone(read)))]
                                         + [Edit(Change(map[Title := Text(ours)], IsDone(read)))]);
            row.Some? && At(row.value.fields, Title) == Text(ours) && row.value.version == read.version + 2
  {
    var a, b := Edit(Change(map[Title := Text(theirs)], IsDone(read))), Edit(Change(map[Title := Text(ours)], IsDone(read)));
    PlayConcat(Some(read), [a], [b]);
    assert [a][..0] == [] && [b][..0] == [];
    assert Title in map[Title := Text(theirs)] && Title in map[Title := Text(ours)];
  }

  predicate Tracks(item: Item) {
    item.completed <==> IsDone(item)
  }

  /**
   The completion mark follows the status, unless a write sets the status to what it had read
   while somebody else changed the row between done and not done.
   */
  lemma {:induction false} CompletionTracksStatusIff(item: Item, c: Change)
    requires Tracks(item)
    ensures Tracks(Write(item, c)) <==>
              (Status in c.columns && (c.columns[Status] == Text("done")) == c.wasDone ==> c.wasDone == IsDone(item))
  {
    assert Status in c.columns ==> c.columns != map[];
  }
}
