/**
 One dispatch run as a transition system. Every `await` of the worker is a place where
 another step may fall: an external cancel (itself read, write, forward), progress on the
 remote host, a failed poll, loss of the process, and reconciliation at the next start.

 Taken as one step: the status re-check after a host accepted the run together with the
 row update that follows it.
 */
module RunProtocol {
  import opened Wrappers
  import opened Runs
  import opened Sorting

  /** The queued job, the host URLs it may go to, and the item as the plan gate finds it. */
  datatype Config = Config(job: Job, hosts: set<string>, view: ItemView)

  datatype Phase =
    | Queued                                        // before the worker reads the row
    | Started                                       // read as pending, engine being resolved
    | Checked                                       // re-read as pending, hosts being looked up
    | Routing(excluded: set<string>)
    | Posting(excluded: set<string>, url: string)
    | Accepted(at: Remote)                          // a host took the run
    | Stopping(at: Remote)                          // found cancelled, remote cancel sent
    | Polling(at: Remote)
    | Ending(at: Remote, answer: RemoteRun)         // terminal answer in hand, row not written
    | Interrupted(at: Remote)                       // task cancelled, remote cancel sent
    | Down                                          // process lost
    | Probing(at: Remote)                           // reconciliation is asking the host
    | Over

  /** An external cancel works on the row as it read it. */
  datatype Canceller = Idle | HasRead(snapshot: Remote) | HasWritten(snapshot: Remote)

  datatype Sys = Sys(
    row: Row,
    phase: Phase,
    canceller: Canceller,
    posts: seq<string>,             // host URLs posted to
    accepted: seq<Remote>,          // runs hosts took
    cancels: seq<Remote>,           // cancel requests sent
    remotes: map<Remote, RemoteRun>,
    orphaned: bool)                 // a host took the run and the worker lost that knowledge

  datatype Step =
    | PickUp | Recheck | HostsFound | Abandon | RecordFails
    | Fail(msg: string)
    | Pick(url: string)
    | HostFull
    | Conflict(msg: string)
    | Accept(rid: string, run: RemoteRun)
    | ReplyLost(rid: string, run: RemoteRun, msg: string)
    | AfterAccept(engine: string)
    | RecordStopped(engine: string)
    | PollAgain | PollTerminal | Finish
    | Interrupt | RecordInterrupted
    | CancelRead | CancelWrite(note: Option<string>) | CancelForward(hostConfigured: bool)
    | RemoteProgress(on: Remote, run: RemoteRun)
    | Crash | Reconcile | HostMissing | Unreachable | Probed

  function EndedWith(s: Sys, row: Row): Sys {
    s.(row := row, phase := Over)
  }

  /** The state after a step, None when the step cannot happen. */
  function Next(c: Config, s: Sys, step: Step): Option<Sys> {
    match step
    // ---- launching
    case PickUp =>
      if !s.phase.Queued? then None
      else Some(s.(phase := if s.row.status.Pending? then Started else Over))
    case Recheck =>
      if !s.phase.Started? then None
      else Some(s.(phase := if s.row.status.Pending? then Checked else Over))
    case HostsFound =>
      if s.phase.Checked? then Some(s.(phase := Routing({}))) else None
    case Abandon =>   // an exception outside the handled ones: logged, row left as it is
      if s.phase.Queued? || s.phase.Started? || s.phase.Checked? || s.phase.Routing? then Some(s.(phase := Over)) else None
    case RecordFails =>   // what became of a request cannot be written down: logged, row left as it is
      if s.phase.Posting? then Some(s.(phase := Over, posts := s.posts + [s.phase.url]))
      else if s.phase.Accepted? then Some(s.(phase := Over, orphaned := true))
      else if s.phase.Stopping? || s.phase.Ending? || s.phase.Interrupted? then Some(s.(phase := Over))
      else None
    case Fail(msg) =>
      if s.phase.Started? || s.phase.Checked? || s.phase.Routing? then Some(EndedWith(s, FailedRow(s.row, msg)))
      else if s.phase.Posting? then Some(EndedWith(s, FailedRow(s.row, msg)).(posts := s.posts + [s.phase.url]))
      else None
    // ---- routing
    case Pick(url) =>
      if s.phase.Routing? && url in c.hosts && (c.job.pinned || url !in s.phase.excluded)
      then Some(s.(phase := Posting(s.phase.excluded, url))) else None
    case HostFull =>
      if s.phase.Posting? && !c.job.pinned
      then Some(s.(phase := Routing(s.phase.excluded + {s.phase.url}), posts := s.posts + [s.phase.url])) else None
    case Conflict(msg) =>
      if s.phase.Posting? && c.job.mode.Manage?
      then Some(EndedWith(s, s.row.(status := Cancelled, hostUrl := s.phase.url, errorMsg := msg))
                .(posts := s.posts + [s.phase.url])) else None
    case Accept(rid, run) =>
      if s.phase.Posting? && rid != "" && Remote(s.phase.url, rid) !in s.remotes
      then Some(Taken(s, Remote(s.phase.url, rid), run).(phase := Accepted(Remote(s.phase.url, rid)))) else None
    case ReplyLost(rid, run, msg) =>
      if s.phase.Posting? && rid != "" && Remote(s.phase.url, rid) !in s.remotes
      then Some(Taken(s, Remote(s.phase.url, rid), run)
                .(row := FailedRow(s.row, msg), phase := Over, orphaned := true)) else None
    // ---- after a host took the run
    case AfterAccept(engine) =>
      if !s.phase.Accepted? then None
      else if s.row.status.Cancelled? then
        Some(s.(phase := Stopping(s.phase.at), cancels := s.cancels + [s.phase.at]))
      else
        Some(s.(phase := Polling(s.phase.at), row := Located(s.row, s.phase.at.url, s.phase.at.rid, engine).(status := Running)))
    case RecordStopped(engine) =>
      if s.phase.Stopping? then Some(EndedWith(s, Located(s.row, s.phase.at.url, s.phase.at.rid, engine))) else None
    // ---- polling, live or resumed
    case PollAgain =>
      if s.phase.Polling? then Some(s) else None
    case PollTerminal =>
      if s.phase.Polling? && s.phase.at in s.remotes && IsTerminal(s.remotes[s.phase.at].status)
      then Some(s.(phase := Ending(s.phase.at, s.remotes[s.phase.at]))) else None
    case Finish =>
      if s.phase.Ending?
      then Some(EndedWith(s, Finished(s.row, RemoteOutcome(c.job, s.phase.answer, c.view)))) else None
    case Interrupt =>
      if s.phase.Polling?
      then Some(s.(phase := Interrupted(s.phase.at), cancels := s.cancels + [s.phase.at])) else None
    case RecordInterrupted =>
      if s.phase.Interrupted? then Some(EndedWith(s, s.row.(status := Cancelled))) else None
    // ---- external cancel
    case CancelRead =>
      if s.canceller.Idle? && !s.phase.Down? && Active(s.row.status)
      then Some(s.(canceller := HasRead(Remote(s.row.hostUrl, s.row.remoteRunId)))) else None
    case CancelWrite(note) =>
      if s.canceller.HasRead?
      then Some(s.(canceller := HasWritten(s.canceller.snapshot),
                   row := s.row.(status := Cancelled, errorMsg := note.GetOr(s.row.errorMsg)))) else None
    case CancelForward(hostConfigured) =>
      if !s.canceller.HasWritten? then None
      else
        var forwards := s.canceller.snapshot.rid != "" && hostConfigured;
        Some(s.(canceller := Idle,
                cancels := if forwards then s.cancels + [s.canceller.snapshot] else s.cancels))
    // ---- the remote host
    case RemoteProgress(on, run) =>
      if on in s.remotes && !IsTerminal(s.remotes[on].status)
      then Some(s.(remotes := s.remotes[on := run])) else None
    // ---- loss of the process and reconciliation
    case Crash =>
      if s.phase.Down? then None
      else Some(s.(phase := Down, canceller := Idle, orphaned := s.orphaned || s.phase.Accepted?))
    case Reconcile =>
      if !s.phase.Down? then None
      else if !Active(s.row.status) then Some(s.(phase := Over))
      else if s.row.remoteRunId == "" then
        Some(EndedWith(s, FailedRow(s.row, NEVER_DISPATCHED)))
      else Some(s.(phase := Probing(Remote(s.row.hostUrl, s.row.remoteRunId))))
    case HostMissing =>
      if s.phase.Probing?
      then Some(EndedWith(s, FailedRow(s.row, HOST_MISSING))) else None
    case Unreachable =>
      if s.phase.Probing?
      then Some(EndedWith(s, FailedRow(s.row, UNREACHABLE))) else None
    case Probed =>
      if !s.phase.Probing? || s.phase.at !in s.remotes then None
      else if IsTerminal(s.remotes[s.phase.at].status) then
        Some(s.(phase := Ending(s.phase.at, s.remotes[s.phase.at])))
      else Some(s.(phase := Polling(s.phase.at)))
  }

  function Taken(s: Sys, at: Remote, run: RemoteRun): Sys {
    s.(posts := s.posts + [at.url], accepted := s.accepted + [at], remotes := s.remotes[at := run])
  }

  /** A run of the system: None when one of the steps cannot happen. */
  function Run(c: Config, s: Sys, steps: seq<Step>): Option<Sys>
    decreases |steps|
  {
    if steps == [] then Some(s)
    else
      var s' := Next(c, s, steps[0]);
      if s'.None? then None else Run(c, s'.value, steps[1..])
  }

  predicate Initial(c: Config, s: Sys) {
    s.phase.Queued? && s.row == Row(Pending, "", "", "", None, None) && s.canceller.Idle?
    && s.posts == [] && s.accepted == [] && s.cancels == [] && s.remotes == map[] && !s.orphaned
  }

  ghost predicate Reachable(c: Config, s: Sys) {
    exists s0, steps :: Initial(c, s0) && Run(c, s0, steps) == Some(s)
  }

  /** Host URLs are not empty. */
  predicate GoodConfig(c: Config) {
    "" !in c.hosts
  }

  // ---------------------------------------------------------------- the invariant

  predicate BeforeAccept(p: Phase) {
    p.Queued? || p.Started? || p.Checked? || p.Routing? || p.Posting?
  }

  /** The phases in which the row names the remote run. */
  predicate Recorded(p: Phase) {
    p.Polling? || p.Ending? || p.Interrupted? || p.Probing?
  }

  function Elements(s: seq<string>): set<string> {
    set x | x in s
  }

  /** Each host is posted to at most once, a pinned run at most once in all. */
  ghost predicate PostsOk(c: Config, s: Sys) {
    && NoRepeats(s.posts) && Elements(s.posts) <= c.hosts
    && (c.job.pinned ==> |s.posts| <= 1)
    && (s.phase.Routing? || s.phase.Posting? ==>
          s.phase.excluded == Elements(s.posts) && (c.job.pinned ==> s.posts == []))
    && (s.phase.Posting? ==> s.phase.url in c.hosts && s.phase.url !in s.posts)
    && (s.phase.Queued? || s.phase.Started? || s.phase.Checked? ==> s.posts == [])
  }

  ghost predicate RowOk(s: Sys) {
    && (s.row.remoteRunId != "" ==> s.accepted == [Remote(s.row.hostUrl, s.row.remoteRunId)])
    && (s.row.status.Running? ==> s.row.remoteRunId != "" && (Recorded(s.phase) || s.phase.Down? || s.phase.Over?))
    && (BeforeAccept(s.phase) || s.phase.Accepted? ==>
          s.row.remoteRunId == "" && (s.row.status.Pending? || s.row.status.Cancelled?))
    && (BeforeAccept(s.phase) ==> s.accepted == [])
    && (Recorded(s.phase) ==>
          s.phase.at == Remote(s.row.hostUrl, s.row.remoteRunId) && s.row.remoteRunId != ""
          && (s.row.status.Running? || s.row.status.Cancelled?))
    && (s.phase.Accepted? || s.phase.Stopping? ==> s.accepted == [s.phase.at])
    && (s.phase.Stopping? ==> s.row.remoteRunId == "" && s.row.status.Cancelled?)
    && (s.row.status.Pending? ==> s.row.remoteRunId == "")
    && !s.row.status.Cloning?
  }

  ghost predicate RemotesOk(s: Sys) {
    && |s.accepted| <= 1
    && (forall r :: r in s.accepted ==> r in s.remotes && r.rid != "" && r.url != "")
    && (forall r :: r in s.cancels ==> r in s.accepted)
    && (s.phase.Ending? ==>
          s.phase.at in s.remotes && s.remotes[s.phase.at] == s.phase.answer && IsTerminal(s.phase.answer.status))
    && (!s.canceller.Idle? && s.canceller.snapshot.rid != "" ==> s.accepted == [s.canceller.snapshot])
  }

  /** Before the row can name a remote run, and for good once a run is orphaned, nobody has been told to stop. */
  ghost predicate EarlyOk(s: Sys) {
    && (BeforeAccept(s.phase) || s.phase.Accepted? || s.orphaned ==>
          s.cancels == [] && (!s.canceller.Idle? ==> s.canceller.snapshot.rid == ""))
    && (s.orphaned ==> (s.phase.Over? || s.phase.Down?) && s.row.remoteRunId == "" && s.accepted != [])
  }

  /** A run a host took is on its way to the row, in the row, told to stop, or known to be orphaned. */
  ghost predicate Covered(s: Sys) {
    forall r :: r in s.accepted ==>
      s.phase == Accepted(r) || r == Remote(s.row.hostUrl, s.row.remoteRunId) || r in s.cancels || s.orphaned
  }

  ghost predicate Inv(c: Config, s: Sys) {
    PostsOk(c, s) && RowOk(s) && RemotesOk(s) && Covered(s) && EarlyOk(s)
  }

  lemma {:induction false} InitialInv(c: Config, s: Sys)
    requires Initial(c, s)
    ensures Inv(c, s)
  {
  }

  predicate Posts(step: Step) {
    step.HostFull? || step.Conflict? || step.Accept? || step.ReplyLost? || step.Fail? || step.RecordFails?
  }

  lemma {:induction false} PostAdds(posts: seq<string>, url: string)
    requires NoRepeats(posts) && url !in posts
    ensures NoRepeats(posts + [url]) && Elements(posts + [url]) == Elements(posts) + {url}
  {
  }

  lemma {:induction false} PostingKeepsPosts(c: Config, s: Sys, step: Step)
    requires PostsOk(c, s) && s.phase.Posting? && Next(c, s, step).Some? && Posts(step)
    ensures PostsOk(c, Next(c, s, step).value)
  {
    PostAdds(s.posts, s.phase.url);
    assert Next(c, s, step).value.posts == s.posts + [s.phase.url];
  }

  lemma {:induction false} NextKeepsPosts(c: Config, s: Sys, step: Step)
    requires PostsOk(c, s) && Next(c, s, step).Some?
    ensures PostsOk(c, Next(c, s, step).value)
  {
    if Posts(step) && s.phase.Posting? {
      PostingKeepsPosts(c, s, step);
    } else {
      assert Next(c, s, step).value.posts == s.posts;
    }
  }

  predicate LaunchStep(step: Step) {
    step.PickUp? || step.Recheck? || step.HostsFound? || step.Abandon? || step.Fail? || step.Pick?
    || step.HostFull? || step.Conflict?
  }

  predicate TakeStep(step: Step) {
    step.Accept? || step.ReplyLost?
  }

  predicate PollStep(step: Step) {
    step.PollAgain? || step.PollTerminal? || step.Finish? || step.Interrupt? || step.RecordInterrupted?
  }

  lemma {:induction false} LaunchKeeps(c: Config, s: Sys, step: Step)
    requires GoodConfig(c) && Inv(c, s) && Next(c, s, step).Some? && LaunchStep(step)
    ensures var s' := Next(c, s, step).value; RowOk(s') && RemotesOk(s') && Covered(s') && EarlyOk(s')
  {
  }

  lemma {:induction false} TakeKeeps(c: Config, s: Sys, step: Step)
    requires GoodConfig(c) && Inv(c, s) && Next(c, s, step).Some? && TakeStep(step)
    ensures var s' := Next(c, s, step).value; RowOk(s') && RemotesOk(s') && Covered(s') && EarlyOk(s')
  {
  }

  lemma {:induction false} AfterTakeKeeps(c: Config, s: Sys, step: Step)
    requires GoodConfig(c) && Inv(c, s) && Next(c, s, step).Some? && (step.AfterAccept? || step.RecordStopped?)
    ensures var s' := Next(c, s, step).value; RowOk(s') && RemotesOk(s') && Covered(s') && EarlyOk(s')
  {
  }

  lemma {:induction false} RecordFailsKeeps(c: Config, s: Sys, step: Step)
    requires GoodConfig(c) && Inv(c, s) && Next(c, s, step).Some? && step.RecordFails?
    ensures var s' := Next(c, s, step).value; RowOk(s') && RemotesOk(s') && Covered(s') && EarlyOk(s')
  {
  }

  lemma {:induction false} PollKeeps(c: Config, s: Sys, step: Step)
    requires GoodConfig(c) && Inv(c, s) && Next(c, s, step).Some? && PollStep(step)
    ensures var s' := Next(c, s, step).value; RowOk(s') && RemotesOk(s') && Covered(s') && EarlyOk(s')
  {
    if step.Finish? {
      OutcomeIsFinal(c.job, s.phase.answer, c.view);
    }
  }

  lemma {:induction false} CancelKeeps(c: Config, s: Sys, step: Step)
    requires GoodConfig(c) && Inv(c, s) && Next(c, s, step).Some?
    requires step.CancelRead? || step.CancelWrite? || step.CancelForward?
    ensures var s' := Next(c, s, step).value; RowOk(s') && RemotesOk(s') && Covered(s') && EarlyOk(s')
  {
  }

  lemma {:induction false} RemoteKeeps(c: Config, s: Sys, step: Step)
    requires GoodConfig(c) && Inv(c, s) && Next(c, s, step).Some? && step.RemoteProgress?
    ensures var s' := Next(c, s, step).value; RowOk(s') && RemotesOk(s') && Covered(s') && EarlyOk(s')
  {
  }

  lemma {:induction false} CrashKeeps(c: Config, s: Sys, step: Step)
    requires GoodConfig(c) && Inv(c, s) && Next(c, s, step).Some? && step.Crash?
    ensures var s' := Next(c, s, step).value; RowOk(s') && RemotesOk(s') && Covered(s') && EarlyOk(s')
  {
  }

  lemma {:induction false} ProbeKeeps(c: Config, s: Sys, step: Step)
    requires GoodConfig(c) && Inv(c, s) && Next(c, s, step).Some? && step.Probed?
    ensures var s' := Next(c, s, step).value; RowOk(s') && RemotesOk(s') && Covered(s') && EarlyOk(s')
  {
  }

  lemma {:induction false} ReconcileKeeps(c: Config, s: Sys, step: Step)
    requires GoodConfig(c) && Inv(c, s) && Next(c, s, step).Some?
    requires step.Reconcile? || step.HostMissing? || step.Unreachable?
    ensures var s' := Next(c, s, step).value; RowOk(s') && RemotesOk(s') && Covered(s') && EarlyOk(s')
  {
  }

  lemma {:induction false} NextKeepsInv(c: Config, s: Sys, step: Step)
    requires GoodConfig(c) && Inv(c, s) && Next(c, s, step).Some?
    ensures Inv(c, Next(c, s, step).value)
  {
    NextKeepsPosts(c, s, step);
    if LaunchStep(step) {
      LaunchKeeps(c, s, step);
    } else if TakeStep(step) {
      TakeKeeps(c, s, step);
    } else if step.AfterAccept? || step.RecordStopped? {
      AfterTakeKeeps(c, s, step);
    } else if step.RecordFails? {
      RecordFailsKeeps(c, s, step);
    } else if PollStep(step) {
      PollKeeps(c, s, step);
    } else if step.RemoteProgress? {
      RemoteKeeps(c, s, step);
    } else if step.CancelRead? || step.CancelWrite? || step.CancelForward? {
      CancelKeeps(c, s, step);
    } else if step.Crash? {
      CrashKeeps(c, s, step);
    } else if step.Probed? {
      ProbeKeeps(c, s, step);
    } else {
      ReconcileKeeps(c, s, step);
    }
  }

  lemma {:induction false} RunKeepsInv(c: Config, s: Sys, steps: seq<Step>)
    requires GoodConfig(c) && Inv(c, s) && Run(c, s, steps).Some?
    ensures Inv(c, Run(c, s, steps).value)
    decreases |steps|
  {
    if steps == [] {
    } else {
      NextKeepsInv(c, s, steps[0]);
      RunKeepsInv(c, Next(c, s, steps[0]).value, steps[1..]);
    }
  }

  lemma {:induction false} ReachableInv(c: Config, s: Sys)
    requires GoodConfig(c) && Reachable(c, s)
    ensures Inv(c, s)
  {
    var s0, steps :| Initial(c, s0) && Run(c, s0, steps) == Some(s);
    InitialInv(c, s0);
    RunKeepsInv(c, s0, steps);
  }
}
