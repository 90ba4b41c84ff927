/**
 The client's wait loop: poll a run until it is terminal or the client's timeout is over.
 Time is a real that never runs backwards; fetching takes some time and sleeping may take
 longer than asked.
 */
module WaitLoop {
  import opened Text
  import opened Wrappers
  import opened Runs

  const RUN_SUCCESS_STATES: set<string> := {"success"}
  const RUN_TERMINAL_STATES: set<string> := {"success", "failed", "cancelled", "error", "timeout"}

  datatype Fault = NotFound(text: string) | RuntimeFault(text: string) | OtherFault(text: string)

  datatype Answer = Data(status: string, body: int) | Error(fault: Fault)

  /** data None stands for the empty dict of a wait that never got an answer. */
  datatype Outcome = Raised(fault: Fault) | Exit(data: Option<Answer>, code: int)

  const FATAL_WORDS := ["not found", "404", "401", "403", "unauthorized", "forbidden"]

  predicate OccursAt(word: string, s: string, i: int) {
    0 <= i <= |s| - |word| && s[i..i + |word|] == word
  }

  predicate Contains(s: string, word: string) {
    exists i | 0 <= i <= |s| :: OccursAt(word, s, i)
  }

  function Lower(s: string): string {
    seq(|s|, i requires 0 <= i < |s| => ToLower(s[i]))
  }

  predicate IsFatal(f: Fault) {
    || f.NotFound?
    || (f.RuntimeFault? && Contains(f.text, "API_KEY"))
    || exists k :: 0 <= k < |FATAL_WORDS| && Contains(Lower(f.text), FATAL_WORDS[k])
  }

  ghost predicate HasWord(s: string, word: string) {
    exists before, after :: s == before + word + after
  }

  lemma {:induction false} ContainsIff(s: string, word: string)
    ensures Contains(s, word) <==> HasWord(s, word)
  {
    if i :| 0 <= i <= |s| && OccursAt(word, s, i) {
      assert s == s[..i] + word + s[i + |word|..];
    }
    if before, after :| s == before + word + after {
      assert s[|before|..|before| + |word|] == word;
      assert OccursAt(word, s, |before|);
    }
  }

  /** Which errors end a wait: a missing run, a missing key, and what looks like either or a refused login. */
  lemma {:induction false} FatalIff(f: Fault)
    ensures IsFatal(f) <==>
              || f.NotFound?
              || (f.RuntimeFault? && HasWord(f.text, "API_KEY"))
              || (var text := Lower(f.text);
                  HasWord(text, "not found") || HasWord(text, "404") || HasWord(text, "401") || HasWord(text, "403")
                  || HasWord(text, "unauthorized") || HasWord(text, "forbidden"))
  {
    if f.RuntimeFault? {
      ContainsIff(f.text, "API_KEY");
    }
    forall k | 0 <= k < |FATAL_WORDS| ensures Contains(Lower(f.text), FATAL_WORDS[k]) <==> HasWord(Lower(f.text), FATAL_WORDS[k]) {
      ContainsIff(Lower(f.text), FATAL_WORDS[k]);
    }
    assert FATAL_WORDS[0] == "not found" && FATAL_WORDS[1] == "404" && FATAL_WORDS[2] == "401";
    assert FATAL_WORDS[3] == "403" && FATAL_WORDS[4] == "unauthorized" && FATAL_WORDS[5] == "forbidden";
  }

  /** The world of one wait: the answers, and how long each fetch takes and each sleep overruns. */
  datatype World = World(answer: nat -> Answer, fetchTime: nat -> real, oversleep: nat -> real)

  ghost predicate Sane(w: World) {
    forall i :: w.fetchTime(i) >= 0.0 && w.oversleep(i) >= 0.0
  }

  predicate Ends(a: Answer, terminal: set<string>, fatal: Fault -> bool) {
    match a
    case Data(status, _) => status in terminal
    case Error(fault) => fatal(fault)
  }

  /** The newest of the first n answers that was not an error. */
  function LastGood(w: World, n: nat): (a: Option<Answer>)
    ensures a.Some? ==> a.value.Data?
  {
    if n == 0 then None
    else if w.answer(n - 1).Data? then Some(w.answer(n - 1))
    else LastGood(w, n - 1)
  }

  /** None if all were errors, and otherwise one after which only errors came. */
  lemma {:induction false} LastGoodIsLast(w: World, n: nat)
    ensures LastGood(w, n).None? <==> forall i :: 0 <= i < n ==> w.answer(i).Error?
    ensures LastGood(w, n).Some? ==>
              exists i :: 0 <= i < n && w.answer(i) == LastGood(w, n).value && w.answer(i).Data?
                          && forall k :: i < k < n ==> w.answer(k).Error?
  {
    if n == 0 {
    } else {
      LastGoodIsLast(w, n - 1);
    }
  }

  function Ceiling(x: real): (n: int)
    ensures n as real - 1.0 < x <= n as real
  {
    -(-x).Floor
  }

  /** Fetches are a fetch, a poll and the sleep's overrun apart. */
  ghost predicate Spaced(w: World, starts: seq<real>, poll: real) {
    forall i :: 0 < i < |starts| ==> starts[i] == starts[i - 1] + w.fetchTime(i - 1) + poll + w.oversleep(i - 1)
  }

  /** When the wait is given up after an answer that came at before: at once, or when the sleep cut to the deadline ends. */
  ghost predicate GivenUpAt(now: real, before: real, poll: real, deadline: real, oversleep: real) {
    && now >= deadline && before + poll + oversleep >= deadline
    && (before >= deadline ==> now == before)
    && (before < deadline <= before + poll ==> now == deadline + oversleep)
    && (before + poll < deadline ==> now == before + poll + oversleep)
  }

  ghost predicate AllBefore(starts: seq<real>, deadline: real) {
    forall i :: 0 <= i < |starts| ==> starts[i] < deadline
  }

  /** The fetches so far, with now the clock when the next one begins. */
  ghost predicate OnSchedule(w: World, starts: seq<real>, now: real, poll: real, timeout: real, start: real) {
    && Spaced(w, starts, poll) && (timeout > 0.0 ==> AllBefore(starts, start + timeout))
    && (starts == [] ==> now == start)
    && (starts != [] ==>
          && starts[0] == start
          && now == starts[|starts| - 1] + w.fetchTime(|starts| - 1) + poll + w.oversleep(|starts| - 1))
  }

  lemma {:induction false} OneMoreStart(w: World, starts: seq<real>, now: real, poll: real, timeout: real, start: real)
    requires OnSchedule(w, starts, now, poll, timeout, start) && (timeout > 0.0 ==> now < start + timeout)
    ensures OnSchedule(w, starts + [now], now + w.fetchTime(|starts|) + poll + w.oversleep(|starts|), poll, timeout, start)
  {
  }

  lemma {:induction false} StartBound(w: World, starts: seq<real>, poll: real, i: nat)
    requires Sane(w) && Spaced(w, starts, poll) && i < |starts|
    ensures starts[i] >= starts[0] + i as real * poll
  {
    if i == 0 {
    } else {
      StartBound(w, starts, poll, i - 1);
      assert i as real * poll == (i - 1) as real * poll + poll;
      assert w.fetchTime(i - 1) >= 0.0 && w.oversleep(i - 1) >= 0.0;
    }
  }

  lemma {:induction false} FetchBound(fetches: nat, poll: real, timeout: real)
    requires fetches > 0 && poll > 0.0 && (fetches - 1) as real * poll < timeout
    ensures fetches <= Ceiling(timeout / poll)
  {
    var q, before := timeout / poll, (fetches - 1) as real;
    assert q * poll == timeout;
    assert before * poll - q * poll == (before - q) * poll;
    assert before < q;
  }

  /** Fetches before the deadline are at most as many as polls fit in the timeout, rounded up. */
  lemma {:induction false} BeforeDeadline(w: World, starts: seq<real>, poll: real, timeout: real)
    requires Sane(w) && poll > 0.0 && starts != [] && Spaced(w, starts, poll)
    requires AllBefore(starts, starts[0] + timeout)
    ensures |starts| <= Ceiling(timeout / poll)
  {
    StartBound(w, starts, poll, |starts| - 1);
    FetchBound(|starts|, poll, timeout);
  }

  /** Sleep until the next poll or the deadline; over when the deadline has come, before or after the sleep. */
  method Pause(before: real, poll: real, timeout: real, deadline: real, oversleep: real) returns (over: bool, now: real)
    requires poll > 0.0 && oversleep >= 0.0
    ensures over <==> timeout > 0.0 && before + poll + oversleep >= deadline
    ensures if over then GivenUpAt(now, before, poll, deadline, oversleep) else now == before + poll + oversleep
  {
    now := before;
    var sleep := poll;
    if timeout > 0.0 {
      if now >= deadline {
        return true, now;
      }
      sleep := if poll < deadline - now then poll else deadline - now;
    }
    now := now + sleep + oversleep;
    over := timeout > 0.0 && now >= deadline;
  }

  /** What one answer makes of the wait: its end, or None to go on. */
  method Judge(data: Answer, terminal: set<string>, success: set<string>, fatal: Fault -> bool)
    returns (outcome: Option<Outcome>)
    ensures outcome.Some? <==> Ends(data, terminal, fatal)
    ensures outcome.Some? ==>
              outcome.value == if data.Error? then Raised(data.fault)
                               else Exit(Some(data), if data.status in success then 0 else 2)
  {
    match data {
      case Data(status, _) =>
        if status in terminal {
          return Some(Exit(Some(data), if status in success then 0 else 2));
        }
      case Error(fault) =>
        if fatal(fault) {
          return Some(Raised(fault));
        }
    }
    return None;
  }

  /**
   start is the clock when the wait begins, starts when each fetch did; a wait without timeout is one that an answer ends.
   The wait fetches until an answer ends it: 0 or 2 exactly for a terminal status, an error
   exactly for a fatal one. It gives up with 124 only at or after the deadline, with the last
   good data. Fetches begin before the deadline, and one begins when the sleep after the one before ends.
   */
  method WaitForTerminal(w: World, terminal: set<string>, success: set<string>, fatal: Fault -> bool,
                         poll: real, timeout: real, start: real, ghost end: nat)
    returns (outcome: Outcome, now: real, starts: seq<real>)
    requires Sane(w) && poll >= 5.0
    requires timeout <= 0.0 ==> Ends(w.answer(end), terminal, fatal)
    ensures |starts| > 0 && starts[0] == start && Spaced(w, starts, poll)
    ensures timeout > 0.0 ==> AllBefore(starts, start + timeout)
    ensures forall i :: 0 <= i < |starts| - 1 ==> !Ends(w.answer(i), terminal, fatal)
    ensures var last := w.answer(|starts| - 1);
            if Ends(last, terminal, fatal) then
              && outcome == (if last.Error? then Raised(last.fault)
                             else Exit(Some(last), if last.status in success then 0 else 2))
              && now == starts[|starts| - 1] + w.fetchTime(|starts| - 1)
            else
              && outcome == Exit(LastGood(w, |starts|), 124) && timeout > 0.0
              && GivenUpAt(now, starts[|starts| - 1] + w.fetchTime(|starts| - 1), poll, start + timeout,
                           w.oversleep(|starts| - 1))
  {
    var deadline := start + timeout;
    var lastData: Option<Answer> := None;
    now := start;
    starts := [];
    var i := 0;
    while true
      invariant i == |starts| && lastData == LastGood(w, i)
      invariant OnSchedule(w, starts, now, poll, timeout, start)
      invariant timeout > 0.0 ==> now < deadline
      invariant forall k :: 0 <= k < i ==> !Ends(w.answer(k), terminal, fatal)
      invariant timeout <= 0.0 ==> i <= end
      decreases if timeout > 0.0 then deadline - now else (end - i) as real
    {
      assert w.fetchTime(i) >= 0.0 && w.oversleep(i) >= 0.0;
      OneMoreStart(w, starts, now, poll, timeout, start);
      starts := starts + [now];
      var data := w.answer(i);
      now := now + w.fetchTime(i);
      var ended := Judge(data, terminal, success, fatal);
      if ended.Some? {
        return ended.value, now, starts;
      }
      lastData := if data.Data? then Some(data) else lastData;
      var over: bool;
      over, now := Pause(now, poll, timeout, deadline, w.oversleep(i));
      i := i + 1;
      if over {
        return Exit(lastData, 124), now, starts;
      }
    }
  }

  /** The i-th fetch, counted from 0, begins i polls into the wait or later, so i polls fit in the timeout. */
  lemma {:induction false} FetchIsInTime(w: World, starts: seq<real>, poll: real, timeout: real, i: nat)
    requires Sane(w) && starts != [] && Spaced(w, starts, poll) && AllBefore(starts, starts[0] + timeout)
    requires i < |starts|
    ensures i as real * poll < timeout
  {
    StartBound(w, starts, poll, i);
  }

  /** The exit code of `run-status --wait`: 1 for an error, else what the wait says; polls are at least 5 apart. */
  method RunStatusWait(w: World, interval: real, timeout: real, start: real, ghost end: nat)
    returns (code: int, starts: seq<real>)
    requires Sane(w) && (timeout <= 0.0 ==> Ends(w.answer(end), RUN_TERMINAL_STATES, IsFatal))
    ensures var poll := if interval < 5.0 then 5.0 else interval;
            && |starts| > 0 && starts[0] == start && Spaced(w, starts, poll)
            && (timeout > 0.0 ==> |starts| <= Ceiling(timeout / poll) && AllBefore(starts, start + timeout))
            && (code == 124 ==> starts[|starts| - 1] + w.fetchTime(|starts| - 1) + poll + w.oversleep(|starts| - 1)
                                >= start + timeout)
    ensures var last := w.answer(|starts| - 1);
            && (code == 0 <==> last.Data? && last.status == "success")
            && (code == 2 <==> last.Data? && (last.status == "failed" || last.status == "cancelled"
                                              || last.status == "error" || last.status == "timeout"))
            && (code == 1 <==> last.Error? && IsFatal(last.fault))
            && (code == 0 || code == 1 || code == 2 || code == 124)
    ensures forall i :: 0 <= i < |starts| - 1 ==> !Ends(w.answer(i), RUN_TERMINAL_STATES, IsFatal)
    ensures code == 124 ==> timeout > 0.0
  {
    var poll := if interval < 5.0 then 5.0 else interval;
    var outcome, now;
    outcome, now, starts := WaitForTerminal(w, RUN_TERMINAL_STATES, RUN_SUCCESS_STATES, IsFatal, poll, timeout, start, end);
    if timeout > 0.0 {
      BeforeDeadline(w, starts, poll, timeout);
    }
    code := match outcome
      case Raised(_) => 1
      case Exit(_, c) => c;
  }

  /**
   A waiting client stops exactly at the statuses a run can end with: whatever a finished row
   says ends the wait, with 0 for success alone, and no status of a row still active does.
   */
  lemma {:induction false} WaitCoversEveryFinalStatus(s: Status)
    ensures StatusText(s) in RUN_TERMINAL_STATES <==> !Active(s)
    ensures StatusText(s) in RUN_SUCCESS_STATES <==> s.Success?
    ensures Active(s) ==> StatusText(s) == if s.Pending? then "pending" else if s.Cloning? then "cloning" else "running"
  {
    assert |StatusText(Pending)| == 7 && |"success"| == 7 && StatusText(Pending)[0] == 'p';
    assert |"timeout"| == 7 && "timeout"[0] == 't' && "success"[0] == 's' && |"cancelled"| == 9;
    assert |"failed"| == 6 && |"error"| == 5 && "running"[0] == 'r' && "cloning"[0] == 'c';
  }

  /** What the worker writes at the end of a run ends the wait of a client. */
  lemma {:induction false} WorkerOutcomeEndsWait(job: Job, remote: RemoteRun, view: ItemView, row: Row)
    requires IsTerminal(remote.status)
    ensures var bare, text := WroteNoCriteria(job, remote, view),
                              StatusText(Finished(row, RemoteOutcome(job, remote, view)).status);
            && text in RUN_TERMINAL_STATES
            && (text == "success" <==>
                  (remote.status == RemoteSucceeded || remote.status == RemoteAlreadySatisfied) && !bare)
            && (text == "failed" <==> remote.status == RemoteFailed || bare)
            && (text == "timeout" <==> remote.status == RemoteTimedOut)
            && (text == "cancelled" <==> remote.status == RemoteCancelled)
  {
    FinishedMirrors(job, row, remote, view);
    OutcomeIsFinal(job, remote, view);
    WaitCoversEveryFinalStatus(Finished(row, RemoteOutcome(job, remote, view)).status);
    assert |"success"| == 7 && |"timeout"| == 7 && "success"[0] == 's' && "timeout"[0] == 't';
    assert |"failed"| == 6 && |"cancelled"| == 9;
  }
}
