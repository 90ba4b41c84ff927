/**
 The dispatch worker's loops over the run table: routing with 503 retry, polling to a terminal
 answer, the resumed poll loop, and startup reconciliation. Answers of the router, the hosts
 and the item service are parameters, indexed by the number of the request they answer.
 */
module DispatchWorker {
  import opened Text
  import opened Wrappers
  import opened Runs
  import opened Sorting

  datatype Host = Host(url: string, name: string)

  datatype PickAnswer =
    | Picked(host: Host)
    | Refused(msg: string)     // drained, incompatible, unmet labels, full
    | PickRaised               // not among the errors the worker handles: a missing pin, a cancelled task

  datatype PostAnswer =
    | Taken(rid: string)
    | HttpError(code: int, msg: string)
    | OtherError(msg: string)
    | PostRaised               // the task is cancelled while the host is asked

  datatype PollAnswer = PollFailed | Polled(run: RemoteRun)

  // ---------------------------------------------------------------- routing

  datatype Routed =
    | Launched(url: string, rid: string)
    | NotLaunched(msg: string)
    | AlreadyDriven(url: string, name: string)
    | Escaped                   // the exception leaves the worker, the row is not touched

  const REFUSAL_MAX_CHARS := 500

  function DispatchError(msg: string): string {
    Truncate("Dispatch service error: " + msg, REFUSAL_MAX_CHARS)
  }

  function Urls(hosts: seq<Host>): set<string> {
    set h | h in hosts :: h.url
  }

  /** The router returns one of the hosts, when it chooses freely one that is not excluded. */
  ghost predicate PickContract(hosts: seq<Host>, pinned: bool, pick: (nat, set<string>) -> PickAnswer) {
    forall n, excluded :: pick(n, excluded).Picked? ==>
      pick(n, excluded).host in hosts && (pinned || pick(n, excluded).host.url !in excluded)
  }

  predicate AtCapacity(job: Job, answer: PostAnswer) {
    answer.HttpError? && answer.code == 503 && !job.pinned
  }

  predicate Rival(job: Job, answer: PostAnswer) {
    answer.HttpError? && answer.code == 409 && job.mode.Manage?
  }

  /** How routing ends when the last request got this answer. */
  function PostResult(job: Job, host: Host, answer: PostAnswer): Routed
    requires !AtCapacity(job, answer)
  {
    match answer
    case Taken(rid) => Launched(host.url, rid)
    case HttpError(_, msg) =>
      if Rival(job, answer) then AlreadyDriven(host.url, host.name) else NotLaunched(DispatchError(msg))
    case OtherError(msg) => NotLaunched(DispatchError(msg))
    case PostRaised => Escaped
  }

  function PickResult(answer: PickAnswer): Routed
    requires !answer.Picked?
  {
    match answer
    case Refused(msg) => NotLaunched(Truncate(msg, REFUSAL_MAX_CHARS))
    case PickRaised => Escaped
  }

  /** Each request went where the router pointed, given the hosts found full before it. */
  ghost predicate Asked(pick: (nat, set<string>) -> PickAnswer, posts: seq<Host>) {
    forall i :: 0 <= i < |posts| ==> pick(i, Urls(posts[..i])) == Picked(posts[i])
  }

  ghost predicate DistinctUrls(posts: seq<Host>) {
    forall i, k :: 0 <= i < k < |posts| ==> posts[i].url != posts[k].url
  }

  lemma {:induction false} AskedOneMore(pick: (nat, set<string>) -> PickAnswer, posts: seq<Host>, host: Host)
    requires Asked(pick, posts) && pick(|posts|, Urls(posts)) == Picked(host)
    ensures Asked(pick, posts + [host])
    ensures Urls(posts + [host]) == Urls(posts) + {host.url}
    ensures DistinctUrls(posts) && host.url !in Urls(posts) ==> DistinctUrls(posts + [host])
  {
    var more := posts + [host];
    assert more[..|posts|] == posts;
    forall i | 0 <= i < |posts| ensures more[..i] == posts[..i] {
    }
    assert forall h :: h in more <==> h in posts || h == host;
    assert forall h :: h in posts ==> h.url in Urls(posts);
  }

  /** The posts made and the way routing ended are those the answers call for. */
  ghost predicate RoutedAs(job: Job, hosts: seq<Host>, pick: (nat, set<string>) -> PickAnswer,
                           post: nat -> PostAnswer, posts: seq<Host>, result: Routed) {
    var last := |posts| - 1;
    && Asked(pick, posts) && DistinctUrls(posts) && Urls(posts) <= Urls(hosts)
    && (job.pinned ==> |posts| <= 1)
    && (forall i :: 0 <= i < last ==> AtCapacity(job, post(i)))
    && (if posts != [] && !AtCapacity(job, post(last)) then result == PostResult(job, posts[last], post(last))
        else !pick(|posts|, Urls(posts)).Picked? && result == PickResult(pick(|posts|, Urls(posts))))
  }

  /**
   The way routing ends, spelled out by code: only a 503 to an unpinned run is followed by
   another choice of host, and when no choice is left, the router's refusal ends it.
   */
  ghost predicate RoutesByCode(job: Job, pick: (nat, set<string>) -> PickAnswer, post: nat -> PostAnswer,
                               posts: seq<Host>, result: Routed) {
    var last := |posts| - 1;
    && (forall i :: 0 <= i < last ==> post(i).HttpError? && post(i).code == 503 && !job.pinned)
    && if posts == [] || (post(last).HttpError? && post(last).code == 503 && !job.pinned) then
         match pick(|posts|, Urls(posts))
         case Picked(_) => false
         case Refused(msg) => result.NotLaunched? && IsCutTo(result.msg, msg, 500)
         case PickRaised => result == Escaped
       else
         match post(last)
         case Taken(rid) => result == Launched(posts[last].url, rid)
         case HttpError(code, msg) =>
           if code == 409 && job.mode == Manage then result == AlreadyDriven(posts[last].url, posts[last].name)
           else result.NotLaunched? && IsCutTo(result.msg, "Dispatch service error: " + msg, 500)
         case OtherError(msg) => result.NotLaunched? && IsCutTo(result.msg, "Dispatch service error: " + msg, 500)
         case PostRaised => result == Escaped
  }

  lemma {:induction false} RoutedIsByCode(job: Job, hosts: seq<Host>, pick: (nat, set<string>) -> PickAnswer,
                                          post: nat -> PostAnswer, posts: seq<Host>, result: Routed)
    requires RoutedAs(job, hosts, pick, post, posts, result)
    ensures RoutesByCode(job, pick, post, posts, result)
  {
    forall i | 0 <= i < |posts| - 1 ensures post(i).HttpError? && post(i).code == 503 && !job.pinned {
      assert AtCapacity(job, post(i));
    }
  }

  /**
   The routing loop. It asks the router again after every full host, never posts twice to one
   host, never more than once for a pinned run, and stops because every retry excludes one
   more host. Only the last request can have been accepted.
   */
  method Route(job: Job, hosts: seq<Host>, pick: (nat, set<string>) -> PickAnswer, post: nat -> PostAnswer)
    returns (result: Routed, posts: seq<Host>)
    requires PickContract(hosts, job.pinned, pick)
    ensures RoutedAs(job, hosts, pick, post, posts, result)
    ensures RoutesByCode(job, pick, post, posts, result)
  {
    posts := [];
    var excluded: set<string> := {};
    while true
      invariant excluded == Urls(posts) && Tried(job, hosts, pick, post, posts)
      decreases |Urls(hosts) - excluded|
    {
      var choice := pick(|posts|, excluded);
      if !choice.Picked? {
        NoChoiceLeft(job, hosts, pick, post, posts);
        result := PickResult(choice);
        break;
      }
      var host, answer := choice.host, post(|posts|);
      ChosenUrl(job, hosts, pick, |posts|, excluded);
      if !AtCapacity(job, answer) {
        OneMoreAnswered(job, hosts, pick, post, posts, host);
        posts, result := posts + [host], PostResult(job, host, answer);
        break;
      }
      OneMoreFull(job, hosts, pick, post, posts, host);
      FewerLeft(Urls(hosts), excluded, host.url);
      AskedOneMore(pick, posts, host);
      posts := posts + [host];
      excluded := excluded + {host.url};
    }
    RoutedIsByCode(job, hosts, pick, post, posts, result);
  }

  /** Every request so far found its host full. */
  ghost predicate Tried(job: Job, hosts: seq<Host>, pick: (nat, set<string>) -> PickAnswer,
                        post: nat -> PostAnswer, posts: seq<Host>) {
    && Asked(pick, posts) && DistinctUrls(posts) && Urls(posts) <= Urls(hosts)
    && (job.pinned ==> posts == [])
    && forall i :: 0 <= i < |posts| ==> AtCapacity(job, post(i))
  }

  lemma {:induction false} NoChoiceLeft(job: Job, hosts: seq<Host>, pick: (nat, set<string>) -> PickAnswer,
                                        post: nat -> PostAnswer, posts: seq<Host>)
    requires Tried(job, hosts, pick, post, posts) && !pick(|posts|, Urls(posts)).Picked?
    ensures RoutedAs(job, hosts, pick, post, posts, PickResult(pick(|posts|, Urls(posts))))
  {
    if posts != [] {
      assert AtCapacity(job, post(|posts| - 1));
    }
  }

  lemma {:induction false} OneMoreFull(job: Job, hosts: seq<Host>, pick: (nat, set<string>) -> PickAnswer,
                                       post: nat -> PostAnswer, posts: seq<Host>, host: Host)
    requires Tried(job, hosts, pick, post, posts) && AtCapacity(job, post(|posts|))
    requires pick(|posts|, Urls(posts)) == Picked(host)
    requires host.url in Urls(hosts) && host.url !in Urls(posts)
    ensures Tried(job, hosts, pick, post, posts + [host])
  {
    AskedOneMore(pick, posts, host);
    var more := posts + [host];
    assert Asked(pick, more) && DistinctUrls(more) && Urls(more) <= Urls(hosts);
    forall i | 0 <= i < |more| ensures AtCapacity(job, post(i)) {
    }
  }

  lemma {:induction false} OneMoreAnswered(job: Job, hosts: seq<Host>, pick: (nat, set<string>) -> PickAnswer,
                                           post: nat -> PostAnswer, posts: seq<Host>, host: Host)
    requires Tried(job, hosts, pick, post, posts) && !AtCapacity(job, post(|posts|))
    requires pick(|posts|, Urls(posts)) == Picked(host)
    requires host.url in Urls(hosts) && (job.pinned || host.url !in Urls(posts))
    ensures RoutedAs(job, hosts, pick, post, posts + [host], PostResult(job, host, post(|posts|)))
  {
    AskedOneMore(pick, posts, host);
    var more := posts + [host];
    assert Asked(pick, more);
    assert DistinctUrls(more);
    assert |more| - 1 == |posts| && more[|posts|] == host;
  }

  lemma {:induction false} ChosenUrl(job: Job, hosts: seq<Host>, pick: (nat, set<string>) -> PickAnswer,
                                     n: nat, excluded: set<string>)
    requires PickContract(hosts, job.pinned, pick) && pick(n, excluded).Picked?
    ensures pick(n, excluded).host.url in Urls(hosts)
    ensures job.pinned || pick(n, excluded).host.url !in excluded
  {
  }

  lemma {:induction false} FewerLeft(all: set<string>, excluded: set<string>, url: string)
    requires url in all && url !in excluded
    ensures |all - (excluded + {url})| < |all - excluded|
  {
    assert all - excluded == (all - (excluded + {url})) + {url};
  }

  // ---------------------------------------------------------------- polling

  predicate Conclusive(answer: PollAnswer) {
    answer.Polled? && IsTerminal(answer.run.status)
  }

  /** The loop ends at round n: with a terminal answer, or because the task is cancelled in that round. */
  ghost predicate EndsAt(poll: nat -> PollAnswer, interrupt: Option<nat>, n: nat) {
    && (interrupt == Some(n) || Conclusive(poll(n)))
    && forall i :: 0 <= i < n ==> !Conclusive(poll(i)) && interrupt != Some(i)
  }

  /** Poll until a terminal answer: failed polls and unfinished runs are asked again. None is a cancelled task. */
  method PollUntilTerminal(poll: nat -> PollAnswer, interrupt: Option<nat>, ghost bound: nat)
    returns (run: Option<RemoteRun>, n: nat)
    requires interrupt == Some(bound) || Conclusive(poll(bound))
    ensures n <= bound && EndsAt(poll, interrupt, n)
    ensures run.None? <==> interrupt == Some(n)
    ensures run.Some? ==> poll(n) == Polled(run.value)
  {
    n := 0;
    while interrupt != Some(n) && !Conclusive(poll(n))
      invariant n <= bound
      invariant forall i :: 0 <= i < n ==> !Conclusive(poll(i)) && interrupt != Some(i)
      decreases bound - n
    {
      n := n + 1;
    }
    run := if interrupt == Some(n) then None else Some(poll(n).run);
  }

  ghost predicate FirstConclusive(poll: nat -> PollAnswer, n: nat) {
    Conclusive(poll(n)) && forall i :: 0 <= i < n ==> !Conclusive(poll(i))
  }

  // ---------------------------------------------------------------- the run table

  /** Column values of one update; None leaves a column alone. */
  datatype Fields = Fields(
    status: Option<Status>,
    remoteRunId: Option<string>,
    hostUrl: Option<string>,
    errorMsg: Option<string>,
    engine: Option<string>,
    engineActual: Option<string>)

  const NO_FIELDS := Fields(None, None, None, None, None, None)

  function Updated(row: Row, f: Fields): Row {
    Row(f.status.GetOr(row.status), f.remoteRunId.GetOr(row.remoteRunId), f.hostUrl.GetOr(row.hostUrl),
        f.errorMsg.GetOr(row.errorMsg),
        if f.engine.Some? then f.engine else row.engine,
        if f.engineActual.Some? then f.engineActual else row.engineActual)
  }

  /** What a restart can learn about one run. */
  datatype Probe = Probe(hostUrls: seq<string>, answer: PollAnswer, view: ItemView)

  /** Reconciliation of one active row, up to a possible resumption of polling. */
  function Reconciled(job: Job, row: Row, p: Probe): Row {
    if row.remoteRunId == "" then FailedRow(row, NEVER_DISPATCHED)
    else if row.hostUrl != "" && row.hostUrl !in p.hostUrls then FailedRow(row, HOST_MISSING)
    else if row.hostUrl == "" && p.hostUrls == [] then FailedRow(row, NOT_CONFIGURED)
    else
      match p.answer
      case PollFailed => FailedRow(row, UNREACHABLE)
      case Polled(run) =>
        if IsTerminal(run.status) then Finished(row, RemoteOutcome(job, run, p.view)) else row
  }

  /**
   The same, spelled out: failed with its reason, or mirroring the host's terminal answer, or
   left as it was, and only then polled again.
   */
  ghost predicate ReconciledAs(job: Job, row: Row, p: Probe, row': Row, again: bool) {
    if row.remoteRunId == "" then
      !again && row' == row.(status := Failed, errorMsg := "Server restarted before dispatch completed")
    else if row.hostUrl != "" && row.hostUrl !in p.hostUrls then
      !again && row' == row.(status := Failed, errorMsg := "Dispatch host no longer configured; cannot reconcile run")
    else if row.hostUrl == "" && |p.hostUrls| == 0 then
      !again && row' == row.(status := Failed, errorMsg := "Project owner has not configured dispatch")
    else if p.answer.PollFailed? then
      !again && row' == row.(status := Failed, errorMsg := "Dispatch service unreachable after restart")
    else if p.answer.run.status == RemotePending || p.answer.run.status == RemoteRunning then
      again && row' == row
    else
      !again && Mirrors(job, row, p.answer.run, p.view, row')
  }

  lemma {:induction false} ReconciledIsSpelledOut(job: Job, row: Row, p: Probe)
    ensures ReconciledAs(job, row, p, Reconciled(job, row, p), Resumes(row, p))
  {
    if p.answer.Polled? && IsTerminal(p.answer.run.status) {
      FinishedMirrors(job, row, p.answer.run, p.view);
    }
  }

  /** The rows whose polling is resumed. */
  predicate Resumes(row: Row, p: Probe) {
    row.remoteRunId != ""
    && (if row.hostUrl != "" then row.hostUrl in p.hostUrls else p.hostUrls != [])
    && p.answer.Polled? && !IsTerminal(p.answer.run.status)
  }

  function DrivenBy(job: Job, name: string): (s: string)
    ensures IsCutTo(s, "Rollout " + job.rolloutId + " is already driven by a live loop on " + name + "; nothing started", 2000)
  {
    Truncate("Rollout " + job.rolloutId + " is already driven by a live loop on " + name + "; nothing started",
             ERROR_MSG_MAX_CHARS)
  }

  const NO_HOSTS := "Project owner has not configured dispatch hosts"

  /** How the engine was resolved; the message of an error is kept. Anything else leaves the worker. */
  datatype EngineAnswer = Engine(name: string) | Misconfigured(msg: string) | EngineRaised

  /** When an external cancel of a pending run lands, if one does. */
  datatype CancelAt = NoCancel | BeforeRouting | WhileRouting

  /** The row after polling that ended at round n. */
  function PollEnd(job: Job, row: Row, poll: nat -> PollAnswer, interrupt: Option<nat>, view: ItemView, n: nat): Row
    requires interrupt == Some(n) || Conclusive(poll(n))
  {
    if interrupt == Some(n) then row.(status := Cancelled) else Finished(row, RemoteOutcome(job, poll(n).run, view))
  }

  /** The row after an execution that got as far as routing; seen is the row the worker finds after it. */
  function Executed(job: Job, seen: Row, engine: string, routed: Routed,
                    poll: nat -> PollAnswer, interrupt: Option<nat>, view: ItemView, n: nat): Row
    requires interrupt == Some(n) || Conclusive(poll(n))
  {
    match routed
    case Escaped => seen
    case NotLaunched(msg) => FailedRow(seen, msg)
    case AlreadyDriven(url, name) => seen.(status := Cancelled, hostUrl := url, errorMsg := DrivenBy(job, name))
    case Launched(url, rid) =>
      if seen.status.Cancelled? then Located(seen, url, rid, engine)
      else PollEnd(job, Located(seen, url, rid, engine).(status := Running), poll, interrupt, view, n)
  }

  /** The remote runs an execution tells to stop: one found cancelled after launch, or polled by a cancelled task. */
  function ToStop(routed: Routed, cancelled: bool, interrupted: bool): seq<Remote> {
    if routed.Launched? && (cancelled || interrupted) then [Remote(routed.url, routed.rid)] else []
  }

  /**
   How an execution of a pending run ends: the requests made, the way routing ended, the remote
   runs told to stop, and the row.
   */
  ghost predicate ExecutedAs(job: Job, row: Row, engine: EngineAnswer, cancel: CancelAt, hosts: seq<Host>,
                             pick: (nat, set<string>) -> PickAnswer, post: nat -> PostAnswer,
                             poll: nat -> PollAnswer, interrupt: Option<nat>, view: ItemView,
                             posts: seq<Host>, result: Option<Routed>, stopped: seq<Remote>, row': Row) {
    if !engine.Engine? || cancel.BeforeRouting? || hosts == [] then
      posts == [] && result == None && stopped == []
      && row' == if engine.Misconfigured? then row.(status := Failed, errorMsg := Truncate(engine.msg, 500))
                 else if cancel.BeforeRouting? then row.(status := Cancelled)
                 else if engine.EngineRaised? then row
                 else row.(status := Failed, errorMsg := "Project owner has not configured dispatch hosts")
    else
      result.Some? && RoutedAs(job, hosts, pick, post, posts, result.value)
      && exists n: nat ::
           EndsAt(poll, interrupt, n)
           && stopped == ToStop(result.value, cancel.WhileRouting?, interrupt == Some(n))
           && row' == Executed(job, if cancel.WhileRouting? then row.(status := Cancelled) else row,
                               engine.name, result.value, poll, interrupt, view, n)
  }

  lemma {:induction false} EndExists(poll: nat -> PollAnswer, interrupt: Option<nat>, bound: nat) returns (n: nat)
    requires interrupt == Some(bound) || Conclusive(poll(bound))
    ensures EndsAt(poll, interrupt, n)
  {
    n := 0;
    while interrupt != Some(n) && !Conclusive(poll(n))
      invariant n <= bound && forall i :: 0 <= i < n ==> !Conclusive(poll(i)) && interrupt != Some(i)
      decreases bound - n
    {
      n := n + 1;
    }
  }

  class RunTable {
    var rows: map<string, Row>
    var cancelsSent: seq<Remote>

    constructor (rows: map<string, Row>)
      ensures this.rows == rows && cancelsSent == []
    {
      this.rows := rows;
      cancelsSent := [];
    }

    /** UPDATE ... WHERE id = ?: no row, no effect. */
    method UpdateRun(id: string, f: Fields)
      modifies this`rows
      ensures rows == if id in old(rows) then old(rows)[id := Updated(old(rows)[id], f)] else old(rows)
    {
      if id in rows {
        rows := rows[id := Updated(rows[id], f)];
      }
    }

    method FailRun(id: string, msg: string)
      requires id in rows
      modifies this`rows
      ensures rows == old(rows)[id := FailedRow(old(rows)[id], msg)]
    {
      UpdateRun(id, NO_FIELDS.(status := Some(Failed), errorMsg := Some(msg)));
    }

    /** Writing a terminal answer: gate, truncation, engine only when the remote names one. */
    method Mirror(id: string, job: Job, run: RemoteRun, view: ItemView)
      requires id in rows
      modifies this`rows
      ensures rows == old(rows)[id := Finished(old(rows)[id], RemoteOutcome(job, run, view))]
      ensures IsTerminal(run.status) ==> Mirrors(job, old(rows)[id], run, view, rows[id])
    {
      if IsTerminal(run.status) {
        FinishedMirrors(job, rows[id], run, view);
      }
      var status, msg := FromRemote(run.status), run.error.GetOr("");
      var (gated, text) := PlanGate(job, status, msg, view);
      var fields := NO_FIELDS.(status := Some(gated), errorMsg := Some(Truncate(text, ERROR_MSG_MAX_CHARS)));
      if run.engineActual.Some? {
        fields := fields.(engineActual := run.engineActual);
      }
      UpdateRun(id, fields);
    }

    /** One execution of a run, with an external cancel at one point of it and a cancelled task at another. */
    method ExecuteRun(id: string, job: Job, engine: EngineAnswer, hosts: seq<Host>,
                      pick: (nat, set<string>) -> PickAnswer, post: nat -> PostAnswer,
                      poll: nat -> PollAnswer, interrupt: Option<nat>, view: ItemView, cancel: CancelAt, ghost bound: nat)
      returns (posts: seq<Host>, result: Option<Routed>)
      requires id in rows && PickContract(hosts, job.pinned, pick)
      requires interrupt == Some(bound) || Conclusive(poll(bound))
      modifies this
      ensures rows.Keys == old(rows).Keys && rows == old(rows)[id := rows[id]] && old(cancelsSent) <= cancelsSent
      ensures var row, stopped := old(rows)[id], cancelsSent[|old(cancelsSent)|..];
              if row.status.Pending? then
                ExecutedAs(job, row, engine, cancel, hosts, pick, post, poll, interrupt, view,
                           posts, result, stopped, rows[id])
              else posts == [] && result == None && stopped == [] && rows[id] == row
    {
      posts, result := [], None;
      if !rows[id].status.Pending? {
        return;
      }
      if cancel.BeforeRouting? {
        UpdateRun(id, NO_FIELDS.(status := Some(Cancelled)));
      }
      if engine.EngineRaised? {
        return;
      }
      if engine.Misconfigured? {
        FailRun(id, Truncate(engine.msg, REFUSAL_MAX_CHARS));
        return;
      }
      if !rows[id].status.Pending? {
        return;
      }
      if hosts == [] {
        FailRun(id, NO_HOSTS);
        return;
      }
      var routed;
      routed, posts := Route(job, hosts, pick, post);
      result := Some(routed);
      if cancel.WhileRouting? {
        UpdateRun(id, NO_FIELDS.(status := Some(Cancelled)));
      }
      ghost var n := RecordRouted(id, job, engine.name, routed, poll, interrupt, view, bound);
    }

    /** What is written after routing, and the polling of a run that was launched. */
    method RecordRouted(id: string, job: Job, engine: string, routed: Routed, poll: nat -> PollAnswer,
                        interrupt: Option<nat>, view: ItemView, ghost bound: nat)
      returns (ghost n: nat)
      requires id in rows && (interrupt == Some(bound) || Conclusive(poll(bound)))
      modifies this
      ensures EndsAt(poll, interrupt, n)
      ensures cancelsSent == old(cancelsSent) + ToStop(routed, old(rows)[id].status.Cancelled?, interrupt == Some(n))
      ensures rows == old(rows)[id := Executed(job, old(rows)[id], engine, routed, poll, interrupt, view, n)]
    {
      n := EndExists(poll, interrupt, bound);
      match routed
      case Escaped =>
      case NotLaunched(msg) =>
        FailRun(id, msg);
      case AlreadyDriven(url, name) =>
        UpdateRun(id, NO_FIELDS.(status := Some(Cancelled), hostUrl := Some(url), errorMsg := Some(DrivenBy(job, name))));
      case Launched(url, rid) =>
        n := RecordLaunched(id, job, engine, url, rid, poll, interrupt, view, bound);
    }

    /** What the row says while the run is polled. */
    method MarkRunning(id: string, url: string, rid: string, engine: string)
      requires id in rows
      modifies this`rows
      ensures rows == old(rows)[id := old(rows)[id].(status := Running, remoteRunId := rid, hostUrl := url,
                                                     engine := Some(engine))]
    {
      UpdateRun(id, NO_FIELDS.(status := Some(Running), remoteRunId := Some(rid), hostUrl := Some(url),
                               engine := Some(engine)));
    }

    /** A host took the run: it is told to stop if the row was cancelled meanwhile, and polled otherwise. */
    method RecordLaunched(id: string, job: Job, engine: string, url: string, rid: string, poll: nat -> PollAnswer,
                          interrupt: Option<nat>, view: ItemView, ghost bound: nat)
      returns (ghost n: nat)
      requires id in rows && (interrupt == Some(bound) || Conclusive(poll(bound)))
      modifies this
      ensures EndsAt(poll, interrupt, n)
      ensures var routed := Launched(url, rid);
              && cancelsSent == old(cancelsSent)
                 + ToStop(routed, old(rows)[id].status.Cancelled?, interrupt == Some(n))
              && rows == old(rows)[id := Executed(job, old(rows)[id], engine, routed, poll, interrupt, view, n)]
    {
      if rows[id].status.Cancelled? {
        n := EndExists(poll, interrupt, bound);
        cancelsSent := cancelsSent + [Remote(url, rid)];
        UpdateRun(id, NO_FIELDS.(remoteRunId := Some(rid), hostUrl := Some(url), engine := Some(engine)));
      } else {
        MarkRunning(id, url, rid, engine);
        n := PollAndRecord(id, job, url, rid, poll, interrupt, view, bound);
      }
    }

    /** The poll loop and what is written at its end, when it is first entered and when it is resumed. */
    method PollAndRecord(id: string, job: Job, url: string, rid: string, poll: nat -> PollAnswer,
                         interrupt: Option<nat>, view: ItemView, ghost bound: nat)
      returns (n: nat)
      requires id in rows && (interrupt == Some(bound) || Conclusive(poll(bound)))
      modifies this
      ensures EndsAt(poll, interrupt, n)
      ensures rows == old(rows)[id := PollEnd(job, old(rows)[id], poll, interrupt, view, n)]
      ensures if interrupt == Some(n) then rows[id] == old(rows)[id].(status := Cancelled)
              else poll(n).Polled? && Mirrors(job, old(rows)[id], poll(n).run, view, rows[id])
      ensures cancelsSent == old(cancelsSent) + (if interrupt == Some(n) then [Remote(url, rid)] else [])
    {
      var run;
      run, n := PollUntilTerminal(poll, interrupt, bound);
      if run.None? {
        cancelsSent := cancelsSent + [Remote(url, rid)];
        UpdateRun(id, NO_FIELDS.(status := Some(Cancelled)));
      } else {
        Mirror(id, job, run.value, view);
      }
    }

    /** The poll loop taken up again after a restart. */
    method ResumePolling(id: string, job: Job, url: string, rid: string, poll: nat -> PollAnswer,
                         interrupt: Option<nat>, view: ItemView, ghost bound: nat)
      returns (n: nat)
      requires id in rows && (interrupt == Some(bound) || Conclusive(poll(bound)))
      modifies this
      ensures EndsAt(poll, interrupt, n)
      ensures rows == old(rows)[id := PollEnd(job, old(rows)[id], poll, interrupt, view, n)]
      ensures if interrupt == Some(n) then rows[id] == old(rows)[id].(status := Cancelled)
              else poll(n).Polled? && Mirrors(job, old(rows)[id], poll(n).run, view, rows[id])
      ensures cancelsSent == old(cancelsSent) + (if interrupt == Some(n) then [Remote(url, rid)] else [])
    {
      n := PollAndRecord(id, job, url, rid, poll, interrupt, view, bound);
    }

    /** What a restart does about one active row; again: its polling is resumed. */
    method ReconcileRun(id: string, job: Job, p: Probe) returns (again: bool)
      requires id in rows
      modifies this`rows
      ensures rows == old(rows)[id := Reconciled(job, old(rows)[id], p)] && again == Resumes(old(rows)[id], p)
      ensures ReconciledAs(job, old(rows)[id], p, rows[id], again)
    {
      ReconciledIsSpelledOut(job, rows[id], p);
      var row := rows[id];
      again := false;
      if row.remoteRunId == "" {
        FailRun(id, NEVER_DISPATCHED);
      } else if row.hostUrl != "" && row.hostUrl !in p.hostUrls {
        FailRun(id, HOST_MISSING);
      } else if row.hostUrl == "" && p.hostUrls == [] {
        FailRun(id, NOT_CONFIGURED);
      } else if p.answer.PollFailed? {
        FailRun(id, UNREACHABLE);
      } else if IsTerminal(p.answer.run.status) {
        Mirror(id, job, p.answer.run, p.view);
      } else {
        again := true;
      }
    }

    /**
     Startup reconciliation of the rows found active, in the order the query returned them.
     Every one of them is counted and treated once; no other row changes.
     */
    method ReconcileActiveRuns(found: seq<string>, jobs: map<string, Job>, probe: string -> Probe)
      returns (reconciled: nat, resumed: seq<string>)
      requires NoRepeats(found)
      requires forall id :: id in found <==> id in rows && Active(rows[id].status)
      requires forall id :: id in found ==> id in jobs
      modifies this`rows
      ensures reconciled == |found|
      ensures rows.Keys == old(rows).Keys
      ensures forall id :: id in rows ==>
                if id in found then ReconciledAs(jobs[id], old(rows)[id], probe(id), rows[id], id in resumed)
                else rows[id] == old(rows)[id] && id !in resumed
    {
      reconciled := 0;
      resumed := [];
      for i := 0 to |found|
        invariant reconciled == i
        invariant rows.Keys == old(rows).Keys
        invariant forall id :: id in rows && id !in found[..i] ==> rows[id] == old(rows)[id] && id !in resumed
        invariant forall id :: id in found[..i] ==>
                    ReconciledAs(jobs[id], old(rows)[id], probe(id), rows[id], id in resumed)
      {
        var id := found[i];
        assert found[..i + 1] == found[..i] + [id];
        assert id !in found[..i];
        var again := ReconcileRun(id, jobs[id], probe(id));
        if again {
          resumed := resumed + [id];
        }
        reconciled := reconciled + 1;
      }
      assert found[..|found|] == found;
    }
  }

  /**
   A restart: reconciliation asks the host once, and the loop it may resume asks on; poll(n) is
   the first terminal answer.
   */
  function Restarted(job: Job, row: Row, hostUrls: seq<string>, poll: nat -> PollAnswer, view: ItemView, n: nat): Row
    requires Conclusive(poll(n))
  {
    var p := Probe(hostUrls, poll(0), view);
    var reconciled := Reconciled(job, row, p);
    if Resumes(row, p) then Finished(reconciled, RemoteOutcome(job, poll(n).run, view)) else reconciled
  }

  /**
   The three code paths agree: a restart ends a located row as the live loop ends it on the same
   answers, unless the host is gone from the configuration or does not answer the first time.
   */
  lemma {:induction false} PathsAgree(job: Job, row: Row, hostUrls: seq<string>, poll: nat -> PollAnswer,
                                      view: ItemView, n: nat)
    requires row.remoteRunId != "" && row.hostUrl != "" && FirstConclusive(poll, n)
    ensures Restarted(job, row, hostUrls, poll, view, n)
         == if row.hostUrl !in hostUrls then FailedRow(row, HOST_MISSING)
            else if poll(0).PollFailed? then FailedRow(row, UNREACHABLE)
            else Finished(row, RemoteOutcome(job, poll(n).run, view))
  {
    if Conclusive(poll(0)) {
      assert n == 0;
    }
  }

  /** Reconciliation leaves no row active except those whose polling it resumes. */
  lemma {:induction false} ActiveMeansResumed(job: Job, row: Row, p: Probe)
    requires Active(row.status)
    ensures Active(Reconciled(job, row, p).status) <==> Resumes(row, p)
  {
    if p.answer.Polled? && IsTerminal(p.answer.run.status) {
      OutcomeIsFinal(job, p.answer.run, p.view);
    }
  }
}
