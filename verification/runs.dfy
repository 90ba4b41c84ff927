/**
 The vocabulary of dispatch runs: remote and local statuses, the run row, and how a terminal
 answer of the remote service is turned into the final contents of the row.
 */
module Runs {
  import opened Text
  import opened Wrappers

  datatype RemoteStatus =
    | RemotePending | RemoteRunning | RemoteSucceeded | RemoteAlreadySatisfied
    | RemoteFailed | RemoteTimedOut | RemoteCancelled

  datatype Status = Pending | Cloning | Running | Success | Failed | Timeout | Cancelled

  const NON_TERMINAL: set<RemoteStatus> := {RemotePending, RemoteRunning}

  /** Derived from the non-terminal set, so that an unlisted status ends the polling. */
  predicate IsTerminal(r: RemoteStatus) {
    r !in NON_TERMINAL
  }

  /** The statuses a restart reconciles and an external cancel accepts. */
  predicate Active(s: Status) {
    s.Pending? || s.Cloning? || s.Running?
  }

  function FromRemote(r: RemoteStatus): Status {
    match r
    case RemoteSucceeded => Success
    case RemoteAlreadySatisfied => Success
    case RemoteFailed => Failed
    case RemoteTimedOut => Timeout
    case RemoteCancelled => Cancelled
    case RemotePending => Pending
    case RemoteRunning => Running
  }

  /** Polling stops exactly at the answers that map to a finished local status, and which that is. */
  lemma {:induction false} TerminalMapsToFinished(r: RemoteStatus)
    ensures IsTerminal(r) <==> !Active(FromRemote(r))
    ensures IsTerminal(r) <==> r != RemotePending && r != RemoteRunning
    ensures FromRemote(r) == Success <==> r == RemoteSucceeded || r == RemoteAlreadySatisfied
    ensures FromRemote(r) == Failed <==> r == RemoteFailed
    ensures FromRemote(r) == Timeout <==> r == RemoteTimedOut
    ensures FromRemote(r) == Cancelled <==> r == RemoteCancelled
    ensures FromRemote(r) == Pending <==> r == RemotePending
    ensures FromRemote(r) == Running <==> r == RemoteRunning
  {
  }

  function StatusText(s: Status): string {
    match s
    case Pending => "pending"
    case Cloning => "cloning"
    case Running => "running"
    case Success => "success"
    case Failed => "failed"
    case Timeout => "timeout"
    case Cancelled => "cancelled"
  }

  datatype Mode = Build | Plan | Manage | Review

  /** What is fixed about a run when it is queued. */
  datatype Job = Job(mode: Mode, itemId: Option<string>, rolloutId: string, pinned: bool)

  datatype Row = Row(
    status: Status,
    remoteRunId: string,
    hostUrl: string,
    errorMsg: string,
    engine: Option<string>,
    engineActual: Option<string>)

  /** A run on a host. */
  datatype Remote = Remote(url: string, rid: string)

  datatype RemoteRun = RemoteRun(status: RemoteStatus, error: Option<string>, engineActual: Option<string>)

  // ---------------------------------------------------------------- the plan-mode gate

  /** A comment with its whitespace already collapsed to single spaces. */
  datatype Comment = Comment(author: string, text: string)

  datatype Comments = CommentsUnreadable | Comments(last: Option<Comment>)

  /** What the gate finds when it re-reads the item. */
  datatype ItemView = ItemUnreadable | ItemView(hasCriteria: bool, comments: Comments)

  const ERROR_MSG_MAX_CHARS := 2000
  const EXCERPT_MAX_CHARS := 300
  const PLAN_NO_AC_ERROR := "Plan run wrote no acceptance criteria"
  const NO_COMMENTS := " The item has no comments; check the run transcript."

  function GateDetail(comments: Comments): string {
    match comments
    case Comments(Some(c)) =>
      " Agent's last comment (" + c.author + "): \"" + Truncate(c.text, EXCERPT_MAX_CHARS) + "\""
    case _ => NO_COMMENTS
  }

  predicate HasItem(job: Job) {
    job.itemId.Some? && job.itemId.value != ""
  }

  /** A plan run that succeeded without writing acceptance criteria has failed. */
  function PlanGate(job: Job, status: Status, errorMsg: string, view: ItemView): (Status, string) {
    if !job.mode.Plan? || !status.Success? || !HasItem(job) then (status, errorMsg)
    else
      match view
      case ItemUnreadable => (status, errorMsg)
      case ItemView(hasCriteria, comments) =>
        if hasCriteria then (status, errorMsg)
        else (Failed, Truncate(PLAN_NO_AC_ERROR + "." + GateDetail(comments), ERROR_MSG_MAX_CHARS))
  }

  const NEVER_DISPATCHED := "Server restarted before dispatch completed"
  const HOST_MISSING := "Dispatch host no longer configured; cannot reconcile run"
  const NOT_CONFIGURED := "Project owner has not configured dispatch"
  const UNREACHABLE := "Dispatch service unreachable after restart"

  // ---------------------------------------------------------------- finishing a run

  /** What a terminal answer writes; engineActual None leaves the column alone. */
  datatype Outcome = Outcome(status: Status, errorMsg: string, engineActual: Option<string>)

  function RemoteOutcome(job: Job, remote: RemoteRun, view: ItemView): Outcome {
    var (status, msg) := PlanGate(job, FromRemote(remote.status), remote.error.GetOr(""), view);
    Outcome(status, Truncate(msg, ERROR_MSG_MAX_CHARS), remote.engineActual)
  }

  /** The row once it names the remote run. */
  function Located(row: Row, url: string, rid: string, engine: string): Row {
    row.(remoteRunId := rid, hostUrl := url, engine := Some(engine))
  }

  function FailedRow(row: Row, msg: string): Row {
    row.(status := Failed, errorMsg := msg)
  }

  function Finished(row: Row, o: Outcome): Row {
    row.(status := o.status, errorMsg := o.errorMsg,
         engineActual := if o.engineActual.Some? then o.engineActual else row.engineActual)
  }

  /**
   A terminal answer always finishes the row. The gate only ever turns a success into a
   failure, and does so exactly for a plan run with an item that is readable and bare.
   */
  lemma {:induction false} OutcomeIsFinal(job: Job, remote: RemoteRun, view: ItemView)
    requires IsTerminal(remote.status)
    ensures var o := RemoteOutcome(job, remote, view);
            && !Active(o.status) && |o.errorMsg| <= ERROR_MSG_MAX_CHARS
            && (o.status != FromRemote(remote.status) <==>
                job.mode.Plan? && HasItem(job) && FromRemote(remote.status).Success?
                && view.ItemView? && !view.hasCriteria)
            && (o.status != FromRemote(remote.status) ==>
                o.status.Failed? && PLAN_NO_AC_ERROR <= o.errorMsg)
  {
    var (status, msg) := PlanGate(job, FromRemote(remote.status), remote.error.GetOr(""), view);
    TerminalMapsToFinished(remote.status);
    if status != FromRemote(remote.status) {
      assert PLAN_NO_AC_ERROR <= PLAN_NO_AC_ERROR + "." + GateDetail(view.comments);
    }
  }

  /** A plan run that ended without error on an item that can be read and has no acceptance criteria. */
  ghost predicate WroteNoCriteria(job: Job, remote: RemoteRun, view: ItemView) {
    && job.mode == Plan && (remote.status == RemoteSucceeded || remote.status == RemoteAlreadySatisfied)
    && job.itemId.Some? && job.itemId.value != "" && view.ItemView? && !view.hasCriteria
  }

  ghost predicate NamesLastComment(text: string, comments: Comments) {
    if comments.Comments? && comments.last.Some? then
      exists excerpt :: excerpt <= comments.last.value.text && |excerpt| <= 300
        && (|excerpt| < 300 ==> excerpt == comments.last.value.text)
        && text == " Agent's last comment (" + comments.last.value.author + "): \"" + excerpt + "\""
    else text == " The item has no comments; check the run transcript."
  }

  ghost predicate IsCutTo(s: string, text: string, n: nat) {
    s <= text && |s| == if |text| < n then |text| else n
  }

  /** The error text a terminal answer leaves in the row. */
  ghost predicate ErrorTextIs(s: string, bare: bool, remote: RemoteRun, comments: Comments) {
    if bare then
      exists detail :: NamesLastComment(detail, comments)
        && IsCutTo(s, "Plan run wrote no acceptance criteria" + "." + detail, 2000)
    else IsCutTo(s, remote.error.GetOr(""), 2000)
  }

  /** What the terminal answer of a remote run makes of a row, spelled out case by case. */
  ghost predicate Mirrors(job: Job, row: Row, remote: RemoteRun, view: ItemView, row': Row) {
    var bare := WroteNoCriteria(job, remote, view);
    && (row'.status == Success <==>
          (remote.status == RemoteSucceeded || remote.status == RemoteAlreadySatisfied) && !bare)
    && (row'.status == Failed <==> remote.status == RemoteFailed || bare)
    && (row'.status == Timeout <==> remote.status == RemoteTimedOut)
    && (row'.status == Cancelled <==> remote.status == RemoteCancelled)
    && ErrorTextIs(row'.errorMsg, bare, remote, if bare then view.comments else CommentsUnreadable)
    && row'.engineActual == (if remote.engineActual.Some? then remote.engineActual else row.engineActual)
    && row'.remoteRunId == row.remoteRunId && row'.hostUrl == row.hostUrl && row'.engine == row.engine
  }

  lemma {:induction false} GateNamesLastComment(comments: Comments)
    ensures NamesLastComment(GateDetail(comments), comments)
  {
    if comments.Comments? && comments.last.Some? {
      var c := comments.last.value;
      var excerpt := Truncate(c.text, EXCERPT_MAX_CHARS);
      assert excerpt <= c.text;
      assert GateDetail(comments) == " Agent's last comment (" + c.author + "): \"" + excerpt + "\"";
    }
  }

  lemma {:induction false} LastCommentIsExact(a: string, b: string, comments: Comments)
    requires NamesLastComment(a, comments) && NamesLastComment(b, comments)
    ensures a == b
  {
  }

  lemma {:induction false} BareText(comments: Comments, remote: RemoteRun)
    ensures ErrorTextIs(
              Truncate(Truncate(PLAN_NO_AC_ERROR + "." + GateDetail(comments), ERROR_MSG_MAX_CHARS), ERROR_MSG_MAX_CHARS),
              true, remote, comments)
  {
    GateNamesLastComment(comments);
  }

  lemma {:induction false} CutIsExact(a: string, b: string, text: string, n: nat)
    requires IsCutTo(a, text, n) && IsCutTo(b, text, n)
    ensures a == b
  {
  }

  lemma {:induction false} ErrorTextIsExact(a: string, b: string, bare: bool, remote: RemoteRun, comments: Comments)
    requires ErrorTextIs(a, bare, remote, comments) && ErrorTextIs(b, bare, remote, comments)
    ensures a == b
  {
    if bare {
      var detail :| NamesLastComment(detail, comments)
        && IsCutTo(a, "Plan run wrote no acceptance criteria" + "." + detail, 2000);
      var detail' :| NamesLastComment(detail', comments)
        && IsCutTo(b, "Plan run wrote no acceptance criteria" + "." + detail', 2000);
      LastCommentIsExact(detail, detail', comments);
      CutIsExact(a, b, "Plan run wrote no acceptance criteria" + "." + detail, 2000);
    } else {
      CutIsExact(a, b, remote.error.GetOr(""), 2000);
    }
  }

  /** Finishing a run mirrors the remote's answer. */
  lemma {:induction false} FinishedMirrors(job: Job, row: Row, remote: RemoteRun, view: ItemView)
    requires IsTerminal(remote.status)
    ensures Mirrors(job, row, remote, view, Finished(row, RemoteOutcome(job, remote, view)))
  {
    TerminalMapsToFinished(remote.status);
    if WroteNoCriteria(job, remote, view) {
      BareText(view.comments, remote);
    }
  }

  /** Nothing but the finished row mirrors it. */
  lemma {:induction false} MirrorsIsExact(job: Job, row: Row, remote: RemoteRun, view: ItemView, row': Row)
    requires IsTerminal(remote.status) && Mirrors(job, row, remote, view, row')
    ensures row' == Finished(row, RemoteOutcome(job, remote, view))
  {
    FinishedMirrors(job, row, remote, view);
    TerminalMapsToFinished(remote.status);
    var bare := WroteNoCriteria(job, remote, view);
    ErrorTextIsExact(row'.errorMsg, Finished(row, RemoteOutcome(job, remote, view)).errorMsg, bare, remote,
                     if bare then view.comments else CommentsUnreadable);
  }
}
