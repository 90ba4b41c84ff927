/**
 What holds over every run of the dispatch protocol: where a running row points, how often a
 host is asked, what a cancel achieves, and what a crash changes.
 */
module RunSafety {
  import opened Wrappers
  import opened Runs
  import opened RunProtocol
  import opened Sorting

  // ---------------------------------------------------------------- the steps, spelled out

  /** The phase a step of the worker or of a restart leads to, and the phases it can be taken in. */
  ghost predicate Leads(p: Phase, step: Step, status: Status, p': Phase) {
    match step
    case PickUp => p.Queued? && p' == if status.Pending? then Started else Over
    case Recheck => p.Started? && p' == if status.Pending? then Checked else Over
    case HostsFound => p.Checked? && p' == Routing({})
    case Abandon => (p.Queued? || p.Started? || p.Checked? || p.Routing?) && p'.Over?
    case RecordFails => (p.Posting? || p.Accepted? || p.Stopping? || p.Ending? || p.Interrupted?) && p'.Over?
    case Fail(_) => (p.Started? || p.Checked? || p.Routing? || p.Posting?) && p'.Over?
    case Pick(url) => p.Routing? && p' == Posting(p.excluded, url)
    case HostFull => p.Posting? && p' == Routing(p.excluded + {p.url})
    case Conflict(_) => p.Posting? && p'.Over?
    case Accept(rid, _) => p.Posting? && p' == Accepted(Remote(p.url, rid))
    case ReplyLost(_, _, _) => p.Posting? && p'.Over?
    case AfterAccept(_) => p.Accepted? && p' == if status.Cancelled? then Stopping(p.at) else Polling(p.at)
    case RecordStopped(_) => p.Stopping? && p'.Over?
    case PollAgain => p.Polling? && p' == p
    case PollTerminal => p.Polling? && p'.Ending? && p'.at == p.at
    case Finish => p.Ending? && p'.Over?
    case Interrupt => p.Polling? && p' == Interrupted(p.at)
    case RecordInterrupted => p.Interrupted? && p'.Over?
    case Crash => !p.Down? && p'.Down?
    case Reconcile => p.Down? && (p'.Over? || p'.Probing?)
    case HostMissing => p.Probing? && p'.Over?
    case Unreachable => p.Probing? && p'.Over?
    case Probed => p.Probing? && (p' == Polling(p.at) || (p'.Ending? && p'.at == p.at))
    case _ => p' == p
  }

  /** What a step asks for besides its phase. */
  ghost predicate Asks(c: Config, s: Sys, step: Step) {
    match step
    case Pick(url) => s.phase.Routing? ==> url in c.hosts && (c.job.pinned || url !in s.phase.excluded)
    case HostFull => !c.job.pinned
    case Conflict(_) => c.job.mode == Manage
    case Accept(rid, _) => s.phase.Posting? ==> rid != "" && Remote(s.phase.url, rid) !in s.remotes
    case ReplyLost(rid, _, _) => s.phase.Posting? ==> rid != "" && Remote(s.phase.url, rid) !in s.remotes
    case PollTerminal => s.phase.Polling? ==> s.phase.at in s.remotes && IsTerminal(s.remotes[s.phase.at].status)
    case Probed => s.phase.Probing? ==> s.phase.at in s.remotes
    case CancelRead => s.canceller.Idle? && !s.phase.Down? && Active(s.row.status)
    case CancelWrite(_) => s.canceller.HasRead?
    case CancelForward(_) => s.canceller.HasWritten?
    case RemoteProgress(on, _) => on in s.remotes && !IsTerminal(s.remotes[on].status)
    case _ => true
  }

  /** Every step is possible in just its phases and when it has what it asks for, and leads where it should. */
  lemma {:induction false} WhatIsPossible(c: Config, s: Sys, step: Step)
    ensures Next(c, s, step).Some? <==> Asks(c, s, step) && exists p' :: Leads(s.phase, step, s.row.status, p')
    ensures Next(c, s, step).Some? ==> Leads(s.phase, step, s.row.status, Next(c, s, step).value.phase)
  {
    if Next(c, s, step).Some? {
      assert Leads(s.phase, step, s.row.status, Next(c, s, step).value.phase);
    }
  }

  /** What a step writes into the row: the updates of the worker, of cancels and of restarts. */
  ghost predicate Writes(c: Config, s: Sys, step: Step, row': Row) {
    var row := s.row;
    match step
    case Fail(msg) => row' == row.(status := Failed, errorMsg := msg)
    case ReplyLost(_, _, msg) => row' == row.(status := Failed, errorMsg := msg)
    case Conflict(msg) => s.phase.Posting? && row' == row.(status := Cancelled, hostUrl := s.phase.url, errorMsg := msg)
    case AfterAccept(engine) =>
      && s.phase.Accepted?
      && row' == if row.status.Cancelled? then row
                 else row.(status := Running, hostUrl := s.phase.at.url, remoteRunId := s.phase.at.rid,
                           engine := Some(engine))
    case RecordStopped(engine) =>
      && s.phase.Stopping?
      && row' == row.(hostUrl := s.phase.at.url, remoteRunId := s.phase.at.rid, engine := Some(engine))
    case Finish => s.phase.Ending? && Mirrors(c.job, row, s.phase.answer, c.view, row')
    case RecordInterrupted => row' == row.(status := Cancelled)
    case CancelWrite(note) =>
      row' == row.(status := Cancelled, errorMsg := if note.Some? then note.value else row.errorMsg)
    case Reconcile =>
      row' == if Active(row.status) && row.remoteRunId == ""
              then row.(status := Failed, errorMsg := "Server restarted before dispatch completed") else row
    case HostMissing =>
      row' == row.(status := Failed, errorMsg := "Dispatch host no longer configured; cannot reconcile run")
    case Unreachable =>
      row' == row.(status := Failed, errorMsg := "Dispatch service unreachable after restart")
    case _ => row' == row
  }

  lemma {:induction false} WhatIsWritten(c: Config, s: Sys, step: Step)
    requires GoodConfig(c) && Inv(c, s) && Next(c, s, step).Some?
    ensures Writes(c, s, step, Next(c, s, step).value.row)
  {
    if step.Finish? {
      FinishedMirrors(c.job, s.row, s.phase.answer, c.view);
    }
  }

  // ---------------------------------------------------------------- lifecycle

  /** A running row names its remote run and host, so reconciliation asks the host about it. */
  lemma {:induction false} RunningIsLocated(c: Config, s: Sys)
    requires GoodConfig(c) && Reachable(c, s) && s.row.status.Running?
    ensures s.row.remoteRunId != "" && s.row.hostUrl != ""
    ensures s.accepted == [Remote(s.row.hostUrl, s.row.remoteRunId)]
    ensures s.phase.Down? ==>
              Next(c, s, Reconcile) == Some(s.(phase := Probing(Remote(s.row.hostUrl, s.row.remoteRunId))))
  {
    ReachableInv(c, s);
  }

  /** Whatever is written after polling, live, resumed or reconciled, is a finished status; only a failing write leaves the row. */
  lemma {:induction false} PollingEndsFinal(c: Config, s: Sys, step: Step)
    requires GoodConfig(c) && Reachable(c, s) && Next(c, s, step).Some?
    requires Recorded(s.phase) && Next(c, s, step).value.phase.Over?
    ensures if step.RecordFails? then Next(c, s, step).value.row == s.row else !Active(Next(c, s, step).value.row.status)
  {
    ReachableInv(c, s);
    if step.Finish? {
      OutcomeIsFinal(c.job, s.phase.answer, c.view);
    }
  }

  /** No host is posted to twice, a pinned run is posted at most once, and at most one remote run is taken. */
  lemma {:induction false} RoutingBounds(c: Config, s: Sys)
    requires GoodConfig(c) && Reachable(c, s)
    ensures NoRepeats(s.posts) && Elements(s.posts) <= c.hosts
    ensures c.job.pinned ==> |s.posts| <= 1
    ensures |s.accepted| <= 1
    ensures |s.posts| <= |c.hosts|
  {
    ReachableInv(c, s);
    DistinctCount(s.posts, c.hosts);
  }

  lemma {:induction false} DistinctCount(xs: seq<string>, bound: set<string>)
    requires NoRepeats(xs) && Elements(xs) <= bound
    ensures |xs| <= |bound|
  {
    if xs == [] {
    } else {
      var n := |xs| - 1;
      var rest := bound - {xs[n]};
      assert xs[n] in Elements(xs);
      forall x | x in Elements(xs[..n]) ensures x in rest {
        var i :| 0 <= i < n && xs[..n][i] == x;
        assert xs[i] != xs[n] && xs[i] in Elements(xs);
      }
      DistinctCount(xs[..n], rest);
    }
  }

  /** The worker loses a run a host took: the reply is lost, or the process or the write, before the row names it. */
  predicate Loses(s: Sys, step: Step) {
    step.ReplyLost? || (s.phase.Accepted? && (step.Crash? || step.RecordFails?))
  }

  predicate LosesIn(c: Config, s: Sys, steps: seq<Step>)
    requires Run(c, s, steps).Some?
    decreases |steps|
  {
    steps != [] && (Loses(s, steps[0]) || LosesIn(c, Next(c, s, steps[0]).value, steps[1..]))
  }

  lemma {:induction false} OrphanedIffLost(c: Config, s: Sys, steps: seq<Step>)
    requires Run(c, s, steps).Some?
    ensures Run(c, s, steps).value.orphaned <==> s.orphaned || LosesIn(c, s, steps)
    decreases |steps|
  {
    if steps == [] {
    } else {
      OrphanedIffLost(c, Next(c, s, steps[0]).value, steps[1..]);
    }
  }

  /**
   When the worker is done with a run that a host took, the row names the remote run or it was
   told to stop exactly if the reply was not lost, and neither the process nor the write was lost
   between the reply and the update that names the run.
   */
  lemma {:induction false} NoRemoteRunForgotten(c: Config, s0: Sys, steps: seq<Step>, r: Remote)
    requires GoodConfig(c) && Initial(c, s0) && Run(c, s0, steps).Some?
    requires var s := Run(c, s0, steps).value; s.phase.Over? && r in s.accepted
    ensures var s := Run(c, s0, steps).value;
            r == Remote(s.row.hostUrl, s.row.remoteRunId) || r in s.cancels <==> !LosesIn(c, s0, steps)
  {
    InitialInv(c, s0);
    RunKeepsInv(c, s0, steps);
    OrphanedIffLost(c, s0, steps);
  }

  /**
   The worker leaves an active row behind exactly if something outside the handled failures ended
   it, or a write failed, while the row was active.
   */
  lemma {:induction false} LeftActiveIff(c: Config, s: Sys, step: Step)
    requires GoodConfig(c) && Reachable(c, s) && Next(c, s, step).Some?
    requires !s.phase.Over? && Next(c, s, step).value.phase.Over?
    ensures Active(Next(c, s, step).value.row.status)
       <==> Active(s.row.status) && (step.Abandon? || step.RecordFails?)
  {
    ReachableInv(c, s);
    if step.Finish? {
      OutcomeIsFinal(c.job, s.phase.answer, c.view);
    }
  }

  // ---------------------------------------------------------------- cancelled before routing

  ghost predicate NotLaunching(s: Sys) {
    (s.phase.Queued? || s.phase.Started? || s.phase.Down? || s.phase.Over?)
    && !s.row.status.Pending? && s.row.remoteRunId == ""
  }

  lemma {:induction false} NotLaunchingStays(c: Config, s: Sys, step: Step)
    requires GoodConfig(c) && Inv(c, s) && NotLaunching(s) && Next(c, s, step).Some?
    ensures var s' := Next(c, s, step).value; NotLaunching(s') && s'.posts == s.posts && s'.accepted == s.accepted
  {
  }

  /** A run no longer pending when the worker comes to it, or re-reads it, is never posted to any host. */
  lemma {:induction false} CancelledBeforeRoutingNeverPosts(c: Config, s: Sys, steps: seq<Step>)
    requires GoodConfig(c) && Inv(c, s) && NotLaunching(s) && Run(c, s, steps).Some?
    ensures Run(c, s, steps).value.posts == s.posts
    ensures Run(c, s, steps).value.accepted == s.accepted
    decreases |steps|
  {
    if steps == [] {
    } else {
      NotLaunchingStays(c, s, steps[0]);
      NextKeepsInv(c, s, steps[0]);
      CancelledBeforeRoutingNeverPosts(c, Next(c, s, steps[0]).value, steps[1..]);
    }
  }

  // ---------------------------------------------------------------- cancelled while routing

  /** Routing goes on for a row that was cancelled meanwhile, and what that can lead to. */
  ghost predicate CancelledInRouting(s: Sys) {
    match s.phase
    case Checked => s.row.status.Cancelled?
    case Routing(_) => s.row.status.Cancelled?
    case Posting(_, _) => s.row.status.Cancelled?
    case Accepted(_) => s.row.status.Cancelled?
    case Stopping(at) => s.row.status.Cancelled? && at in s.cancels
    case Over =>
      (s.row.status.Cancelled? || s.row.status.Failed?)
      && (forall r :: r in s.accepted ==>
            r in s.cancels && s.row.status.Cancelled? && r == Remote(s.row.hostUrl, s.row.remoteRunId))
    case _ => false
  }

  /** Steps in which neither the process nor a host's reply nor a write is lost. */
  predicate NothingLost(step: Step) {
    !step.Crash? && !step.ReplyLost? && !step.RecordFails?
  }

  lemma {:induction false} CancelledInRoutingStays(c: Config, s: Sys, step: Step)
    requires GoodConfig(c) && Inv(c, s) && CancelledInRouting(s)
    requires NothingLost(step) && Next(c, s, step).Some?
    ensures CancelledInRouting(Next(c, s, step).value)
  {
  }

  /**
   A run cancelled while it is being routed is never polled; if a host takes it, exactly that
   remote run is told to stop, and the row stays cancelled and records where it went.
   */
  lemma {:induction false} CancelledInRoutingIsStopped(c: Config, s: Sys, steps: seq<Step>)
    requires GoodConfig(c) && Inv(c, s) && CancelledInRouting(s)
    requires (forall i :: 0 <= i < |steps| ==> NothingLost(steps[i])) && Run(c, s, steps).Some?
    ensures CancelledInRouting(Run(c, s, steps).value)
    decreases |steps|
  {
    if steps == [] {
    } else {
      CancelledInRoutingStays(c, s, steps[0]);
      NextKeepsInv(c, s, steps[0]);
      CancelledInRoutingIsStopped(c, Next(c, s, steps[0]).value, steps[1..]);
    }
  }

  // ---------------------------------------------------------------- a cancel that was written

  /** The step writes another end over a cancelled row. */
  predicate Overwrites(c: Config, s: Sys, step: Step) {
    step.Fail? || step.ReplyLost? || step.HostMissing? || step.Unreachable?
    || (step.Finish? && s.phase.Ending? && !RemoteOutcome(c.job, s.phase.answer, c.view).status.Cancelled?)
  }

  predicate OverwrittenIn(c: Config, s: Sys, steps: seq<Step>)
    requires Run(c, s, steps).Some?
    decreases |steps|
  {
    steps != [] && (Overwrites(c, s, steps[0]) || OverwrittenIn(c, Next(c, s, steps[0]).value, steps[1..]))
  }

  lemma {:induction false} CancelledStep(c: Config, s: Sys, step: Step)
    requires GoodConfig(c) && Inv(c, s) && Next(c, s, step).Some?
    requires s.row.status.Cancelled? && !s.canceller.HasRead?
    ensures var s' := Next(c, s, step).value;
            if Overwrites(c, s, step) then s'.phase.Over? && !Active(s'.row.status) && !s'.row.status.Cancelled?
            else s'.row.status.Cancelled?
    ensures !Next(c, s, step).value.canceller.HasRead?
  {
  }

  /**
   From the moment a cancel is written, in any phase and whatever follows: the row ends up
   cancelled exactly if no refused or failed launch, lost reply, missing or silent host at a
   restart, and no result other than cancelled was written after it.
   */
  lemma {:induction false} CancelStaysIff(c: Config, s: Sys, steps: seq<Step>)
    requires GoodConfig(c) && Inv(c, s) && s.row.status.Cancelled? && !s.canceller.HasRead?
    requires Run(c, s, steps).Some?
    ensures Run(c, s, steps).value.row.status.Cancelled? <==> !OverwrittenIn(c, s, steps)
    decreases |steps|
  {
    if steps == [] {
    } else {
      var s' := Next(c, s, steps[0]).value;
      CancelledStep(c, s, steps[0]);
      NextKeepsInv(c, s, steps[0]);
      if Overwrites(c, s, steps[0]) {
        FinishedStays(c, s', steps[1..]);
      } else {
        CancelStaysIff(c, s', steps[1..]);
      }
    }
  }

  ghost predicate NotYetPolled(p: Phase) {
    BeforeAccept(p) || p.Accepted? || p.Stopping? || p.Over? || p.Down?
  }

  lemma {:induction false} NeverPolledWhenCancelled(c: Config, s: Sys, step: Step)
    requires GoodConfig(c) && Inv(c, s) && s.row.status.Cancelled? && NotYetPolled(s.phase) && Next(c, s, step).Some?
    ensures NotYetPolled(Next(c, s, step).value.phase)
    ensures Overwrites(c, s, step) <==> step.Fail? || step.ReplyLost?
  {
  }

  /** Before the run is polled only a refused or failed launch and a lost reply take the cancel back. */
  lemma {:induction false} CancelInRoutingStaysIff(c: Config, s: Sys, steps: seq<Step>)
    requires GoodConfig(c) && Inv(c, s) && s.row.status.Cancelled? && !s.canceller.HasRead?
    requires NotYetPolled(s.phase) && Run(c, s, steps).Some?
    ensures Run(c, s, steps).value.row.status.Cancelled?
       <==> forall i :: 0 <= i < |steps| ==> !steps[i].Fail? && !steps[i].ReplyLost?
    decreases |steps|
  {
    if steps == [] {
    } else {
      var s' := Next(c, s, steps[0]).value;
      CancelledStep(c, s, steps[0]);
      NeverPolledWhenCancelled(c, s, steps[0]);
      NextKeepsInv(c, s, steps[0]);
      if Overwrites(c, s, steps[0]) {
        FinishedStays(c, s', steps[1..]);
      } else {
        CancelInRoutingStaysIff(c, s', steps[1..]);
        assert forall i :: 0 < i < |steps| ==> steps[i] == steps[1..][i - 1];
      }
    }
  }

  // ---------------------------------------------------------------- steps one after another

  lemma {:induction false} RunOneMore(c: Config, s: Sys, steps: seq<Step>, step: Step)
    requires Run(c, s, steps).Some?
    ensures Run(c, s, steps + [step]) == Next(c, Run(c, s, steps).value, step)
    decreases |steps|
  {
    if steps == [] {
      assert [] + [step] == [step] && [step][1..] == [];
    } else {
      assert (steps + [step])[1..] == steps[1..] + [step];
      RunOneMore(c, Next(c, s, steps[0]).value, steps[1..], step);
    }
  }

  lemma {:induction false} Extend(c: Config, s0: Sys, steps: seq<Step>, s: Sys, step: Step)
    returns (steps': seq<Step>, s': Sys)
    requires Run(c, s0, steps) == Some(s) && Next(c, s, step).Some?
    ensures steps' == steps + [step] && s' == Next(c, s, step).value && Run(c, s0, steps') == Some(s')
  {
    RunOneMore(c, s0, steps, step);
    steps', s' := steps + [step], Next(c, s, step).value;
  }

  // ---------------------------------------------------------------- external cancels over a run

  /** How a cancel in progress ends: its request sent or not for want of a host, or the process lost first. */
  datatype CancelEnd = Forwarded(hostConfigured: bool) | LostInCrash

  function EndOfCancel(steps: seq<Step>): Option<CancelEnd> {
    if steps == [] then None
    else
      match steps[0]
      case CancelForward(hostConfigured) => Some(Forwarded(hostConfigured))
      case Crash => Some(LostInCrash)
      case _ => EndOfCancel(steps[1..])
  }

  /** The worker itself tells the remote run to stop: found cancelled after launch, or interrupted while polling. */
  predicate WorkerTells(s: Sys, step: Step, r: Remote) {
    (step.AfterAccept? && s.phase == Accepted(r) && s.row.status.Cancelled?) || (step.Interrupt? && s.phase == Polling(r))
  }

  predicate WorkerTellsIn(c: Config, s: Sys, steps: seq<Step>, r: Remote)
    requires Run(c, s, steps).Some?
    decreases |steps|
  {
    steps != [] && (WorkerTells(s, steps[0], r) || WorkerTellsIn(c, Next(c, s, steps[0]).value, steps[1..], r))
  }

  predicate NoNewCancel(steps: seq<Step>) {
    forall i :: 0 <= i < |steps| ==> !steps[i].CancelRead?
  }

  lemma {:induction false} IdleStep(c: Config, s: Sys, step: Step, r: Remote)
    requires s.canceller.Idle? && !step.CancelRead? && Next(c, s, step).Some?
    ensures var s' := Next(c, s, step).value;
            s'.canceller.Idle? && (r in s'.cancels <==> r in s.cancels || WorkerTells(s, step, r))
  {
  }

  lemma {:induction false} WithoutCanceller(c: Config, s: Sys, steps: seq<Step>, r: Remote)
    requires s.canceller.Idle? && NoNewCancel(steps) && Run(c, s, steps).Some?
    ensures var end := Run(c, s, steps).value;
            end.canceller.Idle? && (r in end.cancels <==> r in s.cancels || WorkerTellsIn(c, s, steps, r))
    decreases |steps|
  {
    if steps == [] {
    } else {
      var s' := Next(c, s, steps[0]).value;
      IdleStep(c, s, steps[0], r);
      WithoutCanceller(c, s', steps[1..], r);
    }
  }

  lemma {:induction false} CancellerStep(c: Config, s: Sys, step: Step, r: Remote)
    requires !s.canceller.Idle? && !step.CancelRead? && Next(c, s, step).Some?
    ensures var s' := Next(c, s, step).value;
            && (s'.canceller.Idle? <==> step.CancelForward? || step.Crash?)
            && (!s'.canceller.Idle? ==> s'.canceller.snapshot == s.canceller.snapshot)
            && (r in s'.cancels <==>
                  r in s.cancels || WorkerTells(s, step, r)
                  || (step == CancelForward(true) && s.canceller.snapshot == r && r.rid != ""))
  {
  }

  /** Whom a cancel in progress reaches in the end, whatever else happens. */
  lemma {:induction false} CancelInProgress(c: Config, s: Sys, steps: seq<Step>, r: Remote)
    requires !s.canceller.Idle? && NoNewCancel(steps) && Run(c, s, steps).Some?
    ensures var end := Run(c, s, steps).value;
            && (end.canceller.Idle? <==> EndOfCancel(steps).Some?)
            && (r in end.cancels <==>
                  r in s.cancels || WorkerTellsIn(c, s, steps, r)
                  || (EndOfCancel(steps) == Some(Forwarded(true)) && s.canceller.snapshot == r && r.rid != ""))
    decreases |steps|
  {
    if steps == [] {
    } else {
      var s' := Next(c, s, steps[0]).value;
      CancellerStep(c, s, steps[0], r);
      if steps[0].CancelForward? || steps[0].Crash? {
        WithoutCanceller(c, s', steps[1..], r);
      } else {
        CancelInProgress(c, s', steps[1..], r);
      }
    }
  }

  /**
   From the moment a canceller reads the row until it is done: a remote run that was accepted is
   told to stop exactly if it had been before, or the worker tells it itself, or the row named it
   when it was read, its host was still configured, and the process did not die before the
   request was sent.
   */
  lemma {:induction false} CancelReachesRemoteIffReadInTime(c: Config, s: Sys, steps: seq<Step>, r: Remote)
    requires GoodConfig(c) && Reachable(c, s) && Next(c, s, CancelRead).Some?
    requires NoNewCancel(steps) && Run(c, Next(c, s, CancelRead).value, steps).Some?
    requires var end := Run(c, Next(c, s, CancelRead).value, steps).value; end.canceller.Idle? && r in end.accepted
    ensures var read := Next(c, s, CancelRead).value;
            && EndOfCancel(steps).Some?
            && (r in Run(c, read, steps).value.cancels <==>
                  r in s.cancels || WorkerTellsIn(c, read, steps, r)
                  || (s.row.remoteRunId != "" && EndOfCancel(steps) == Some(Forwarded(true))))
  {
    ReachableInv(c, s);
    var read := Next(c, s, CancelRead).value;
    NextKeepsInv(c, s, CancelRead);
    CancelInProgress(c, read, steps, r);
    AcceptedStays(c, read, steps);
    RunKeepsInv(c, read, steps);
  }

  lemma {:induction false} StepKeepsAccepted(c: Config, s: Sys, step: Step)
    requires Next(c, s, step).Some?
    ensures s.accepted <= Next(c, s, step).value.accepted
  {
  }

  lemma {:induction false} AcceptedStays(c: Config, s: Sys, steps: seq<Step>)
    requires Run(c, s, steps).Some?
    ensures s.accepted <= Run(c, s, steps).value.accepted
    decreases |steps|
  {
    if steps == [] {
    } else {
      StepKeepsAccepted(c, s, steps[0]);
      AcceptedStays(c, Next(c, s, steps[0]).value, steps[1..]);
    }
  }

  function CancelledRow(row: Row, note: Option<string>): Row {
    row.(status := Cancelled, errorMsg := note.GetOr(row.errorMsg))
  }

  lemma {:induction false} FinishedStays(c: Config, s: Sys, steps: seq<Step>)
    requires (s.phase.Over? || s.phase.Down?) && !Active(s.row.status) && !s.canceller.HasRead? && Run(c, s, steps).Some?
    ensures Run(c, s, steps).value.row == s.row && forall i :: 0 <= i < |steps| ==> !steps[i].CancelWrite?
    decreases |steps|
  {
    if steps == [] {
    } else {
      FinishedStays(c, Next(c, s, steps[0]).value, steps[1..]);
      assert forall i :: 0 < i < |steps| ==> steps[i] == steps[1..][i - 1];
    }
  }

  /**
   A finished run stays as it is, whatever happens to it, except for the write of a canceller
   that had read it while it was still active.
   */
  lemma {:induction false} FinishedRowChangesIff(c: Config, s: Sys, steps: seq<Step>)
    requires (s.phase.Over? || s.phase.Down?) && !Active(s.row.status) && Run(c, s, steps).Some?
    ensures Run(c, s, steps).value.row != s.row <==>
              s.canceller.HasRead? && exists i :: 0 <= i < |steps| && steps[i].CancelWrite? && CancelledRow(s.row, steps[i].note) != s.row
    decreases |steps|
  {
    if !s.canceller.HasRead? {
      FinishedStays(c, s, steps);
    } else if steps == [] {
    } else {
      var s' := Next(c, s, steps[0]).value;
      assert forall i :: 0 < i < |steps| ==> steps[i] == steps[1..][i - 1];
      if steps[0].CancelWrite? {
        FinishedStays(c, s', steps[1..]);
      } else if s'.canceller.HasRead? {
        FinishedRowChangesIff(c, s', steps[1..]);
      } else {
        FinishedStays(c, s', steps[1..]);
      }
    }
  }

  lemma {:induction false} ReachPosting(c: Config, s0: Sys, url: string) returns (steps: seq<Step>, s: Sys)
    requires Initial(c, s0) && url in c.hosts
    ensures Run(c, s0, steps) == Some(s) && s == s0.(phase := Posting({}, url))
  {
    steps, s := Extend(c, s0, [], s0, PickUp);
    steps, s := Extend(c, s0, steps, s, Recheck);
    steps, s := Extend(c, s0, steps, s, HostsFound);
    steps, s := Extend(c, s0, steps, s, Pick(url));
  }

  lemma {:induction false} ReadWhilePosting(c: Config, s0: Sys, url: string) returns (steps: seq<Step>, s: Sys)
    requires Initial(c, s0) && url in c.hosts
    ensures Run(c, s0, steps) == Some(s)
    ensures s == s0.(phase := Posting({}, url), canceller := HasRead(Remote("", "")))
  {
    steps, s := ReachPosting(c, s0, url);
    steps, s := Extend(c, s0, steps, s, CancelRead);
  }

  lemma {:induction false} LaunchedThenCancelled(c: Config, s0: Sys, url: string, r: Remote, run: RemoteRun)
    returns (steps: seq<Step>, s: Sys)
    requires Initial(c, s0) && url in c.hosts && r == Remote(url, "r")
    ensures Run(c, s0, steps) == Some(s) && CancelWrite(None) in steps
    ensures s.phase == Polling(r) && s.canceller.Idle? && s.cancels == [] && s.accepted == [r]
    ensures s.remotes == map[r := run] && s.row.status.Cancelled?
  {
    steps, s := ReadWhilePosting(c, s0, url);
    steps, s := Extend(c, s0, steps, s, Accept("r", run));
    steps, s := Extend(c, s0, steps, s, AfterAccept("e"));
    steps, s := Extend(c, s0, steps, s, CancelWrite(None));
    assert CancelWrite(None) in steps;
    steps, s := Extend(c, s0, steps, s, CancelForward(true));
  }

  /** A cancel read before the launch and written after it: nobody is told, and the row ends a success. */
  lemma {:induction false} StaleCancelIsLost(c: Config, s0: Sys, url: string) returns (steps: seq<Step>)
    requires GoodConfig(c) && Initial(c, s0) && url in c.hosts && c.job.mode.Build?
    ensures Run(c, s0, steps).Some? && CancelWrite(None) in steps
    ensures var s := Run(c, s0, steps).value;
            s.phase.Over? && s.row.status.Success? && |s.accepted| == 1 && s.cancels == []
  {
    var done := RemoteRun(RemoteSucceeded, None, None);
    var s: Sys;
    steps, s := LaunchedThenCancelled(c, s0, url, Remote(url, "r"), done);
    steps, s := Extend(c, s0, steps, s, PollTerminal);
    steps, s := Extend(c, s0, steps, s, Finish);
  }

  /** A cancel read while the run was polled and written after its end: the row of a success says cancelled. */
  lemma {:induction false} CancelOverwritesSuccess(c: Config, s0: Sys, url: string) returns (steps: seq<Step>)
    requires GoodConfig(c) && Initial(c, s0) && url in c.hosts && c.job.mode.Build?
    ensures Run(c, s0, steps).Some?
    ensures var s := Run(c, s0, steps).value;
            s.phase.Over? && s.row.status.Cancelled? && |s.accepted| == 1
            && s.accepted[0] in s.remotes && s.remotes[s.accepted[0]].status == RemoteSucceeded
  {
    var s: Sys;
    steps, s := ReadThenSucceeded(c, s0, url);
    steps, s := Extend(c, s0, steps, s, CancelWrite(None));
  }

  lemma {:induction false} ReadThenSucceeded(c: Config, s0: Sys, url: string) returns (steps: seq<Step>, s: Sys)
    requires GoodConfig(c) && Initial(c, s0) && url in c.hosts && c.job.mode.Build?
    ensures Run(c, s0, steps) == Some(s) && s.phase.Over? && s.canceller.HasRead? && |s.accepted| == 1
    ensures s.accepted[0] in s.remotes && s.remotes[s.accepted[0]].status == RemoteSucceeded
  {
    steps, s := LaunchedThenRead(c, s0, url, RemoteRun(RemoteSucceeded, None, None));
    steps, s := Extend(c, s0, steps, s, PollTerminal);
    steps, s := Extend(c, s0, steps, s, Finish);
  }

  lemma {:induction false} LaunchedThenRead(c: Config, s0: Sys, url: string, run: RemoteRun)
    returns (steps: seq<Step>, s: Sys)
    requires GoodConfig(c) && Initial(c, s0) && url in c.hosts
    ensures Run(c, s0, steps) == Some(s)
    ensures var r := Remote(url, "r");
            s.phase == Polling(r) && s.canceller == HasRead(r) && s.cancels == [] && s.accepted == [r]
            && s.remotes == map[r := run] && s.row.status.Running? && s.row.remoteRunId == "r" && s.row.hostUrl == url
            && !s.orphaned
  {
    steps, s := ReachPosting(c, s0, url);
    steps, s := Extend(c, s0, steps, s, Accept("r", run));
    steps, s := Extend(c, s0, steps, s, AfterAccept("e"));
    steps, s := Extend(c, s0, steps, s, CancelRead);
  }

  /** A crash between the write and the request: cancelled and located, and nobody was told. */
  lemma {:induction false} CrashLosesCancel(c: Config, s0: Sys, url: string) returns (steps: seq<Step>)
    requires GoodConfig(c) && Initial(c, s0) && url in c.hosts
    ensures Run(c, s0, steps).Some?
    ensures var s := Run(c, s0, steps).value;
            s.phase.Over? && s.row.status.Cancelled? && s.accepted == [Remote(s.row.hostUrl, s.row.remoteRunId)]
            && s.cancels == [] && !s.orphaned
  {
    var s: Sys;
    steps, s := LaunchedThenRead(c, s0, url, RemoteRun(RemoteRunning, None, None));
    steps, s := Extend(c, s0, steps, s, CancelWrite(None));
    steps, s := Extend(c, s0, steps, s, Crash);
    steps, s := Extend(c, s0, steps, s, Reconcile);
  }

  /** The process dies between a host's reply and the update: a failed row that names nothing, and nobody was told. */
  lemma {:induction false} CrashForgetsRemoteRun(c: Config, s0: Sys, url: string) returns (steps: seq<Step>)
    requires GoodConfig(c) && Initial(c, s0) && url in c.hosts
    ensures Run(c, s0, steps).Some?
    ensures var s := Run(c, s0, steps).value;
            s.phase.Over? && s.row.status.Failed? && s.row.remoteRunId == "" && |s.accepted| == 1 && s.cancels == []
  {
    var s: Sys;
    steps, s := ReachPosting(c, s0, url);
    steps, s := Extend(c, s0, steps, s, Accept("r", RemoteRun(RemoteRunning, None, None)));
    steps, s := Extend(c, s0, steps, s, Crash);
    steps, s := Extend(c, s0, steps, s, Reconcile);
  }

  /** A run cancelled while being routed can still end as failed. */
  lemma {:induction false} CancelledThenRefused(c: Config, s0: Sys) returns (steps: seq<Step>)
    requires GoodConfig(c) && Initial(c, s0)
    ensures Run(c, s0, steps).Some? && CancelWrite(None) in steps
    ensures Run(c, s0, steps).value.phase.Over? && Run(c, s0, steps).value.row.status.Failed?
  {
    var s := s0;
    steps := [];
    steps, s := Extend(c, s0, steps, s, PickUp);
    steps, s := Extend(c, s0, steps, s, Recheck);
    steps, s := Extend(c, s0, steps, s, HostsFound);
    steps, s := Extend(c, s0, steps, s, CancelRead);
    steps, s := Extend(c, s0, steps, s, CancelWrite(None));
    steps, s := Extend(c, s0, steps, s, Fail("refused"));
  }

  // ---------------------------------------------------------------- crash transparency

  /**
   Steps of a run that nobody cancels, whose result can be written, and whose host stays
   configured and answers when asked after a restart. Crashes, failed polls and new crashes
   during recovery are included.
   */
  predicate Undisturbed(step: Step) {
    !step.CancelWrite? && !step.Interrupt? && !step.HostMissing? && !step.Unreachable? && !step.RecordFails?
  }

  /** The end an uninterrupted poll loop gives the row. */
  function LiveEnd(c: Config, row: Row, remote: RemoteRun): Row {
    Finished(row, RemoteOutcome(c.job, remote, c.view))
  }

  /** Either still on the way, the row as it was when marked running, or ended as the live loop ends it. */
  ghost predicate OnTrack(c: Config, s: Sys, marked: Row) {
    var at := Remote(marked.hostUrl, marked.remoteRunId);
    at in s.remotes &&
    if s.row == marked then
      marked.status.Running? && (s.phase == Polling(at) || s.phase == Probing(at) || s.phase.Down?
                                 || s.phase == Ending(at, s.remotes[at]))
    else
      IsTerminal(s.remotes[at].status) && s.row == LiveEnd(c, marked, s.remotes[at])
      && (s.phase.Over? || s.phase.Down?)
  }

  lemma {:induction false} OnTrackStays(c: Config, s: Sys, marked: Row, step: Step)
    requires GoodConfig(c) && Inv(c, s) && OnTrack(c, s, marked) && marked.status.Running?
    requires Undisturbed(step) && Next(c, s, step).Some?
    ensures OnTrack(c, Next(c, s, step).value, marked)
  {
    var at := Remote(marked.hostUrl, marked.remoteRunId);
    if IsTerminal(s.remotes[at].status) {
      OutcomeIsFinal(c.job, s.remotes[at], c.view);
    }
  }

  lemma {:induction false} RunStaysOnTrack(c: Config, s: Sys, marked: Row, steps: seq<Step>)
    requires GoodConfig(c) && Inv(c, s) && OnTrack(c, s, marked) && marked.status.Running?
    requires (forall i :: 0 <= i < |steps| ==> Undisturbed(steps[i])) && Run(c, s, steps).Some?
    ensures OnTrack(c, Run(c, s, steps).value, marked)
    decreases |steps|
  {
    if steps == [] {
    } else {
      OnTrackStays(c, s, marked, steps[0]);
      NextKeepsInv(c, s, steps[0]);
      RunStaysOnTrack(c, Next(c, s, steps[0]).value, marked, steps[1..]);
    }
  }

  /**
   From the moment a run is marked running, any number of crashes and restarts later, it ends
   with the status, error text and engine the uninterrupted poll loop writes for the remote's answer.
   */
  lemma {:induction false} CrashTransparency(c: Config, s: Sys, steps: seq<Step>)
    requires GoodConfig(c) && Reachable(c, s) && s.phase.Polling? && s.row.status.Running?
    requires (forall i :: 0 <= i < |steps| ==> Undisturbed(steps[i])) && Run(c, s, steps).Some?
    requires Run(c, s, steps).value.phase.Over?
    ensures var end := Run(c, s, steps).value;
            && s.phase.at in end.remotes && IsTerminal(end.remotes[s.phase.at].status)
            && end.row == LiveEnd(c, s.row, end.remotes[s.phase.at])
            && Mirrors(c.job, s.row, end.remotes[s.phase.at], c.view, end.row)
  {
    ReachableInv(c, s);
    RunStaysOnTrack(c, s, s.row, steps);
    FinishedMirrors(c.job, s.row, Run(c, s, steps).value.remotes[s.phase.at], c.view);
  }

  function Answering(s: Sys, remote: RemoteRun): Sys
    requires s.phase.Polling?
  {
    s.(remotes := s.remotes[s.phase.at := remote])
  }

  const LIVE: seq<Step> := [PollTerminal, Finish]

  /** A crash now, then as much of reconciliation as the row calls for. */
  function CrashSteps(s: Sys): seq<Step> {
    if Active(s.row.status) then [Crash, Reconcile, Probed, Finish] else [Crash, Reconcile]
  }

  lemma {:induction false} CrashWayEnds(c: Config, s: Sys, remote: RemoteRun)
    requires GoodConfig(c) && Inv(c, s) && s.phase.Polling? && IsTerminal(remote.status)
    ensures var end := Run(c, Answering(s, remote), CrashSteps(s));
            end.Some? && end.value.phase.Over?
            && end.value.row == if Active(s.row.status) then LiveEnd(c, s.row, remote) else s.row
  {
    var a := Answering(s, remote);
    var steps, t := Extend(c, a, [], a, Crash);
    steps, t := Extend(c, a, steps, t, Reconcile);
    assert steps == [Crash, Reconcile];
    if Active(s.row.status) {
      steps, t := Extend(c, a, steps, t, Probed);
      steps, t := Extend(c, a, steps, t, Finish);
      assert steps == CrashSteps(s);
    }
  }

  /**
   With external cancels in play a crash is transparent, whatever the remote answers, exactly
   when the row is still active at the crash: the live loop overwrites a cancelled row,
   reconciliation passes it over.
   */
  lemma {:induction false} CrashTransparentIffActive(c: Config, s: Sys)
    requires GoodConfig(c) && Reachable(c, s) && s.phase.Polling?
    ensures (forall remote: RemoteRun | IsTerminal(remote.status) ::
               Run(c, Answering(s, remote), LIVE).Some? && Run(c, Answering(s, remote), CrashSteps(s)).Some?
               && Run(c, Answering(s, remote), LIVE).value.row == Run(c, Answering(s, remote), CrashSteps(s)).value.row)
            <==> Active(s.row.status)
  {
    ReachableInv(c, s);
    forall remote: RemoteRun | IsTerminal(remote.status)
      ensures var a := Answering(s, remote);
              && Run(c, a, LIVE).Some? && Run(c, a, CrashSteps(s)).Some?
              && Run(c, a, LIVE).value.row == LiveEnd(c, s.row, remote)
              && Run(c, a, CrashSteps(s)).value.row
                 == if Active(s.row.status) then LiveEnd(c, s.row, remote) else s.row
    {
      CrashWayEnds(c, s, remote);
    }
    var failed := RemoteRun(RemoteFailed, None, None);
    assert IsTerminal(failed.status) && LiveEnd(c, s.row, failed).status.Failed?;
  }
}
