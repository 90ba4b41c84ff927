/**
 The worker's loops are runs of the dispatch protocol: whatever they are answered, the requests,
 the remote cancels and the row they end with are those of a run from the initial state, so what
 holds over all runs holds of them.
 */
module DispatchRefinement {
  import opened DispatchWorker
  import P = RunProtocol
  import opened RunSafety
  import opened Runs
  import opened Text
  import opened Wrappers

  function UrlsOf(posts: seq<Host>): seq<string> {
    seq(|posts|, i requires 0 <= i < |posts| => posts[i].url)
  }

  /** s can come about from s0. */
  ghost predicate Reaches(c: P.Config, s0: P.Sys, s: P.Sys) {
    exists steps :: P.Run(c, s0, steps) == Some(s)
  }

  lemma {:induction false} Then(c: P.Config, s0: P.Sys, s: P.Sys, step: P.Step) returns (s': P.Sys)
    requires Reaches(c, s0, s) && P.Next(c, s, step).Some?
    ensures s' == P.Next(c, s, step).value && Reaches(c, s0, s')
  {
    var steps :| P.Run(c, s0, steps) == Some(s);
    steps, s' := Extend(c, s0, steps, s, step);
  }

  // ---------------------------------------------------------------- routing

  /** The requests that found their host full. */
  lemma {:induction false} FullHosts(c: P.Config, s0: P.Sys, s: P.Sys, pick: (nat, set<string>) -> PickAnswer,
                                     post: nat -> PostAnswer, posts: seq<Host>, i: nat) returns (s': P.Sys)
    requires Reaches(c, s0, s) && s.phase == P.Routing({}) && s.posts == []
    requires i <= |posts| && Asked(pick, posts) && DistinctUrls(posts) && Urls(posts) <= c.hosts
    requires forall k :: 0 <= k < i ==> AtCapacity(c.job, post(k))
    ensures Reaches(c, s0, s')
    ensures s' == s.(phase := P.Routing(Urls(posts[..i])), posts := UrlsOf(posts[..i]))
  {
    s' := s;
    if i == 0 {
      assert Urls(posts[..0]) == {} && UrlsOf(posts[..0]) == [];
    } else {
      s' := FullHosts(c, s0, s, pick, post, posts, i - 1);
      NextUrl(posts, i - 1);
      assert AtCapacity(c.job, post(i - 1));
      s' := Then(c, s0, s', P.Pick(posts[i - 1].url));
      s' := Then(c, s0, s', P.HostFull);
    }
  }

  lemma {:induction false} NextUrl(posts: seq<Host>, i: nat)
    requires i < |posts| && DistinctUrls(posts)
    ensures posts[i].url in Urls(posts) && posts[i].url !in Urls(posts[..i])
    ensures Urls(posts[..i + 1]) == Urls(posts[..i]) + {posts[i].url}
    ensures UrlsOf(posts[..i + 1]) == UrlsOf(posts[..i]) + [posts[i].url]
  {
    assert posts[..i + 1] == posts[..i] + [posts[i]];
    forall h | h in posts[..i] ensures h.url != posts[i].url {
      var k :| 0 <= k < i && posts[k] == h;
    }
    assert posts[i] in posts;
  }

  /** Just put to routing, for a row that no host has been asked about. */
  predicate Fresh(s: P.Sys) {
    s.phase == P.Routing({}) && s.posts == [] && s.cancels == [] && s.remotes == map[] && s.accepted == []
  }

  /** After routing: at its end, or with the run a host took and the row still to be written. */
  predicate RoutedTo(job: Job, s: P.Sys, s': P.Sys, posts: seq<Host>, result: Routed) {
    && s'.posts == UrlsOf(posts) && s'.cancels == []
    && match result
       case Launched(url, rid) =>
         s'.phase == P.Accepted(Remote(url, rid)) && s'.row == s.row && Remote(url, rid) in s'.remotes
         && !IsTerminal(s'.remotes[Remote(url, rid)].status)
       case Escaped => s'.phase.Over? && s'.row == s.row
       case NotLaunched(msg) => s'.phase.Over? && s'.row == FailedRow(s.row, msg)
       case AlreadyDriven(url, name) =>
         s'.phase.Over? && s'.row == s.row.(status := Cancelled, hostUrl := url, errorMsg := DrivenBy(job, name))
  }

  const JUST_STARTED := RemoteRun(RemotePending, None, None)

  /** What the worker does about an answer that ends routing. */
  function Answered(job: Job, host: Host, answer: PostAnswer): P.Step {
    match answer
    case Taken(rid) => P.Accept(rid, JUST_STARTED)
    case HttpError(_, msg) =>
      if Rival(job, answer) then P.Conflict(DrivenBy(job, host.name)) else P.Fail(DispatchError(msg))
    case OtherError(msg) => P.Fail(DispatchError(msg))
    case PostRaised => P.RecordFails
  }

  /** The last request, and what its answer leads to. */
  lemma {:induction false} LastPost(c: P.Config, s0: P.Sys, s: P.Sys, before: P.Sys, posts: seq<Host>,
                                    answer: PostAnswer)
    returns (s': P.Sys)
    requires Fresh(s) && posts != [] && DistinctUrls(posts) && Urls(posts) <= c.hosts && !AtCapacity(c.job, answer)
    requires var n := |posts| - 1; before == s.(phase := P.Routing(Urls(posts[..n])), posts := UrlsOf(posts[..n]))
    requires Reaches(c, s0, before) && (answer.Taken? ==> answer.rid != "")
    ensures Reaches(c, s0, s') && RoutedTo(c.job, s, s', posts, PostResult(c.job, posts[|posts| - 1], answer))
  {
    var n := |posts| - 1;
    var host := posts[n];
    NextUrl(posts, n);
    assert posts[..n + 1] == posts;
    s' := Then(c, s0, before, P.Pick(host.url));
    s' := Then(c, s0, s', Answered(c.job, host, answer));
  }

  lemma {:induction false} RoutingIsRun(c: P.Config, s0: P.Sys, s: P.Sys, hosts: seq<Host>,
                                        pick: (nat, set<string>) -> PickAnswer, post: nat -> PostAnswer,
                                        posts: seq<Host>, result: Routed) returns (s': P.Sys)
    requires Reaches(c, s0, s) && Fresh(s) && c.hosts == Urls(hosts)
    requires RoutedAs(c.job, hosts, pick, post, posts, result)
    requires forall i :: post(i).Taken? ==> post(i).rid != ""
    ensures Reaches(c, s0, s') && RoutedTo(c.job, s, s', posts, result)
  {
    var last := |posts| - 1;
    if posts != [] && !AtCapacity(c.job, post(last)) {
      s' := FullHosts(c, s0, s, pick, post, posts, last);
      s' := LastPost(c, s0, s, s', posts, post(last));
    } else {
      forall k | 0 <= k < |posts| ensures AtCapacity(c.job, post(k)) {
      }
      s' := FullHosts(c, s0, s, pick, post, posts, |posts|);
      assert posts[..|posts|] == posts;
      match pick(|posts|, Urls(posts))
      case Refused(msg) =>
        s' := Then(c, s0, s', P.Fail(Truncate(msg, REFUSAL_MAX_CHARS)));
      case PickRaised =>
        s' := Then(c, s0, s', P.Abandon);
    }
  }

  // ---------------------------------------------------------------- polling and its end

  lemma {:induction false} AnswerEndsPolling(c: P.Config, s0: P.Sys, s: P.Sys, run: RemoteRun) returns (s': P.Sys)
    requires Reaches(c, s0, s) && s.phase.Polling? && IsTerminal(run.status)
    requires s.phase.at in s.remotes && !IsTerminal(s.remotes[s.phase.at].status)
    ensures Reaches(c, s0, s') && s'.phase.Over? && s'.posts == s.posts && s'.cancels == s.cancels
    ensures s'.row == Finished(s.row, RemoteOutcome(c.job, run, c.view))
  {
    s' := Then(c, s0, s, P.RemoteProgress(s.phase.at, run));
    s' := Then(c, s0, s', P.PollTerminal);
    s' := Then(c, s0, s', P.Finish);
  }

  lemma {:induction false} InterruptEndsPolling(c: P.Config, s0: P.Sys, s: P.Sys) returns (s': P.Sys)
    requires Reaches(c, s0, s) && s.phase.Polling?
    ensures Reaches(c, s0, s') && s'.phase.Over? && s'.posts == s.posts && s'.cancels == s.cancels + [s.phase.at]
    ensures s'.row == s.row.(status := Cancelled)
  {
    s' := Then(c, s0, s, P.Interrupt);
    s' := Then(c, s0, s', P.RecordInterrupted);
  }

  /** From a row that names its run to the end of polling. */
  lemma {:induction false} PollingIsRun(c: P.Config, s0: P.Sys, s: P.Sys, poll: nat -> PollAnswer,
                                        interrupt: Option<nat>, n: nat) returns (s': P.Sys)
    requires Reaches(c, s0, s) && s.phase.Polling? && EndsAt(poll, interrupt, n)
    requires s.phase.at in s.remotes && !IsTerminal(s.remotes[s.phase.at].status)
    ensures Reaches(c, s0, s') && s'.phase.Over? && s'.posts == s.posts
    ensures s'.row == PollEnd(c.job, s.row, poll, interrupt, c.view, n)
    ensures s'.cancels == s.cancels + if interrupt == Some(n) then [s.phase.at] else []
  {
    if interrupt == Some(n) {
      s' := InterruptEndsPolling(c, s0, s);
    } else {
      s' := AnswerEndsPolling(c, s0, s, poll(n).run);
    }
  }

  /** From the reply of the host that took the run to the end. */
  lemma {:induction false} LaunchIsRun(c: P.Config, s0: P.Sys, s: P.Sys, engine: string, poll: nat -> PollAnswer,
                                       interrupt: Option<nat>, n: nat) returns (s': P.Sys)
    requires Reaches(c, s0, s) && s.phase.Accepted? && s.cancels == [] && EndsAt(poll, interrupt, n)
    requires s.phase.at in s.remotes && !IsTerminal(s.remotes[s.phase.at].status)
    ensures Reaches(c, s0, s') && s'.phase.Over? && s'.posts == s.posts
    ensures var routed := Launched(s.phase.at.url, s.phase.at.rid);
            && s'.row == Executed(c.job, s.row, engine, routed, poll, interrupt, c.view, n)
            && s'.cancels == ToStop(routed, s.row.status.Cancelled?, interrupt == Some(n))
  {
    s' := Then(c, s0, s, P.AfterAccept(engine));
    if s.row.status.Cancelled? {
      s' := Then(c, s0, s', P.RecordStopped(engine));
    } else {
      s' := PollingIsRun(c, s0, s', poll, interrupt, n);
    }
  }

  // ---------------------------------------------------------------- a whole execution

  /** Hosts have URLs and give their runs ids. */
  ghost predicate GoodHosts(hosts: seq<Host>, post: nat -> PostAnswer) {
    "" !in Urls(hosts) && forall i :: post(i).Taken? ==> post(i).rid != ""
  }

  /** An external cancel of a row that names no run: read, written, and nobody to forward it to. */
  lemma {:induction false} CancelEarly(c: P.Config, s0: P.Sys, s: P.Sys) returns (s': P.Sys)
    requires Reaches(c, s0, s) && s.canceller.Idle? && !s.phase.Down? && Active(s.row.status) && s.row.remoteRunId == ""
    ensures Reaches(c, s0, s') && s' == s.(row := s.row.(status := Cancelled))
  {
    s' := Then(c, s0, s, P.CancelRead);
    s' := Then(c, s0, s', P.CancelWrite(None));
    s' := Then(c, s0, s', P.CancelForward(true));
  }

  /** Executions that end before routing. */
  lemma {:induction false} EarlyEndIsRun(c: P.Config, s0: P.Sys, engine: EngineAnswer, cancel: CancelAt,
                                         hosts: seq<Host>) returns (s: P.Sys)
    requires P.Initial(c, s0) && (!engine.Engine? || cancel.BeforeRouting? || hosts == [])
    ensures Reaches(c, s0, s) && s.phase.Over? && s.posts == [] && s.cancels == []
    ensures s.row == if engine.Misconfigured? then FailedRow(s0.row, Truncate(engine.msg, REFUSAL_MAX_CHARS))
                     else if cancel.BeforeRouting? then s0.row.(status := Cancelled)
                     else if engine.EngineRaised? then s0.row
                     else FailedRow(s0.row, NO_HOSTS)
  {
    s := PickedUp(c, s0);
    if cancel.BeforeRouting? {
      s := CancelEarly(c, s0, s);
    }
    if engine.Misconfigured? {
      s := Then(c, s0, s, P.Fail(Truncate(engine.msg, REFUSAL_MAX_CHARS)));
    } else if engine.EngineRaised? {
      s := Then(c, s0, s, P.Abandon);
    } else {
      s := Then(c, s0, s, P.Recheck);
      if !cancel.BeforeRouting? {
        s := Then(c, s0, s, P.Fail(NO_HOSTS));
      }
    }
  }

  lemma {:induction false} PickedUp(c: P.Config, s0: P.Sys) returns (s: P.Sys)
    requires P.Initial(c, s0)
    ensures Reaches(c, s0, s) && s == s0.(phase := P.Started)
  {
    assert P.Run(c, s0, []) == Some(s0);
    s := Then(c, s0, s0, P.PickUp);
  }

  lemma {:induction false} PutToRouting(c: P.Config, s0: P.Sys, cancelled: bool) returns (s: P.Sys)
    requires P.Initial(c, s0)
    ensures Reaches(c, s0, s) && Fresh(s) && s.row == if cancelled then s0.row.(status := Cancelled) else s0.row
  {
    s := PickedUp(c, s0);
    s := Then(c, s0, s, P.Recheck);
    s := Then(c, s0, s, P.HostsFound);
    if cancelled {
      s := CancelEarly(c, s0, s);
    }
  }

  /**
   Every execution, whatever it is answered, is a run of the protocol: some run ends with the
   same row, the same requests in the same order, and the same remote runs told to stop.
   */
  lemma {:induction false} ExecutionIsRun(c: P.Config, s0: P.Sys, engine: EngineAnswer, cancel: CancelAt,
                                          hosts: seq<Host>, pick: (nat, set<string>) -> PickAnswer,
                                          post: nat -> PostAnswer, poll: nat -> PollAnswer, interrupt: Option<nat>,
                                          posts: seq<Host>, result: Option<Routed>, stopped: seq<Remote>, row: Row)
    requires P.Initial(c, s0) && c.hosts == Urls(hosts) && GoodHosts(hosts, post)
    requires ExecutedAs(c.job, s0.row, engine, cancel, hosts, pick, post, poll, interrupt, c.view,
                        posts, result, stopped, row)
    ensures exists s :: Reaches(c, s0, s) && s.phase.Over? && s.row == row && s.posts == UrlsOf(posts) && s.cancels == stopped
  {
    if !engine.Engine? || cancel.BeforeRouting? || hosts == [] {
      var s := EarlyEndIsRun(c, s0, engine, cancel, hosts);
      assert UrlsOf(posts) == [];
    } else {
      var n: nat :| EndsAt(poll, interrupt, n)
        && stopped == ToStop(result.value, cancel.WhileRouting?, interrupt == Some(n))
        && row == Executed(c.job, if cancel.WhileRouting? then s0.row.(status := Cancelled) else s0.row,
                           engine.name, result.value, poll, interrupt, c.view, n);
      var s := PutToRouting(c, s0, cancel.WhileRouting?);
      s := RoutingIsRun(c, s0, s, hosts, pick, post, posts, result.value);
      if result.value.Launched? {
        s := LaunchIsRun(c, s0, s, engine.name, poll, interrupt, n);
      }
    }
  }

  // ---------------------------------------------------------------- a restart

  /** The host answers for the run as it is. */
  predicate Truthful(s: P.Sys, at: Remote, answer: PollAnswer) {
    at in s.remotes && (IsTerminal(s.remotes[at].status) && answer.Polled? ==> answer.run == s.remotes[at])
  }

  lemma {:induction false} ProbeIsRun(c: P.Config, s0: P.Sys, s: P.Sys, hostUrls: seq<string>,
                                      poll: nat -> PollAnswer, n: nat) returns (s': P.Sys)
    requires Reaches(c, s0, s) && s.phase == P.Probing(Remote(s.row.hostUrl, s.row.remoteRunId))
    requires s.row.remoteRunId != "" && s.row.hostUrl != "" && FirstConclusive(poll, n)
    requires Truthful(s, s.phase.at, poll(0))
    ensures Reaches(c, s0, s') && s'.phase.Over? && s'.row == Restarted(c.job, s.row, hostUrls, poll, c.view, n)
  {
    if s.row.hostUrl !in hostUrls {
      s' := Then(c, s0, s, P.HostMissing);
    } else if poll(0).PollFailed? {
      s' := Then(c, s0, s, P.Unreachable);
    } else if Conclusive(poll(0)) {
      s' := FirstAnswerEnds(c, s0, s, poll(0).run);
    } else {
      s' := Then(c, s0, s, P.Probed);
      s' := AnswerEndsPolling(c, s0, s', poll(n).run);
    }
  }

  lemma {:induction false} FirstAnswerEnds(c: P.Config, s0: P.Sys, s: P.Sys, run: RemoteRun) returns (s': P.Sys)
    requires Reaches(c, s0, s) && s.phase.Probing? && IsTerminal(run.status) && Truthful(s, s.phase.at, Polled(run))
    ensures Reaches(c, s0, s') && s'.phase.Over? && s'.row == Finished(s.row, RemoteOutcome(c.job, run, c.view))
  {
    s' := AnswerArrives(c, s0, s, run);
    s' := Then(c, s0, s', P.Probed);
    s' := Then(c, s0, s', P.Finish);
  }

  lemma {:induction false} AnswerArrives(c: P.Config, s0: P.Sys, s: P.Sys, run: RemoteRun) returns (s': P.Sys)
    requires Reaches(c, s0, s) && s.phase.Probing? && IsTerminal(run.status) && Truthful(s, s.phase.at, Polled(run))
    ensures Reaches(c, s0, s') && s' == s.(remotes := s.remotes[s.phase.at := run])
  {
    s' := s;
    if IsTerminal(s.remotes[s.phase.at].status) {
      assert s.remotes[s.phase.at := run] == s.remotes;
    } else {
      s' := Then(c, s0, s, P.RemoteProgress(s.phase.at, run));
    }
  }

  /**
   So is every restart, from any state a run can lose its process in: reconciliation, with the
   polling it may resume, ends the row as some continuation of the run does.
   */
  lemma {:induction false} RestartIsRun(c: P.Config, s0: P.Sys, s: P.Sys, hostUrls: seq<string>,
                                        poll: nat -> PollAnswer, n: nat)
    requires P.GoodConfig(c) && P.Initial(c, s0) && Reaches(c, s0, s) && s.phase.Down? && FirstConclusive(poll, n)
    requires var at := Remote(s.row.hostUrl, s.row.remoteRunId); at in s.remotes ==> Truthful(s, at, poll(0))
    ensures exists s' :: Reaches(c, s0, s') && s'.phase.Over?
              && s'.row == if Active(s.row.status) then Restarted(c.job, s.row, hostUrls, poll, c.view, n) else s.row
  {
    P.ReachableInv(c, s);
    var s' := Then(c, s0, s, P.Reconcile);
    if s'.phase.Probing? {
      s' := ProbeIsRun(c, s0, s', hostUrls, poll, n);
    }
  }
}
