/**
 * The measurement loop of the probe's `main`, as a function of the state of
 * its connection and of what each iteration meets: the query completing in
 * some time or throwing, and the sleep after it being interrupted or not.
 */
module Measurement {
  import opened Wrappers
  import opened ProbeFailure
  import opened Diagnostics

  /** The loop's `connection` variable: null, an open session, or a session it has closed. */
  datatype Link = Absent | Open | Closed

  /** How the probe query goes when it can be issued: it completes after `duration` ms, or throws `SQLException`. */
  datatype Execution = Completes(duration: int, battery: Battery) | Throws

  /** What one iteration meets; `battery` answers the diagnostic queries should they run. */
  datatype IterationInput = IterationInput(execution: Execution, interrupted: bool)

  /** The execution part of an iteration: it ran (with the battery's log when it was slow), or it failed and closed the connection. */
  datatype ExecLog = Ran(duration: int, diagnostics: Option<seq<DiagEntry>>) | ExecFailed

  /** The sleep part: slept, interrupted (which closes the connection), or rejected for a negative time. */
  datatype SleepLog = Slept | Interrupted | Rejected

  datatype IterationLog = IterationLog(exec: ExecLog, sleep: SleepLog)

  /** The loop's variables after some iterations: the connection, `totalTime`, one log entry per iteration, and an uncaught exception if one ended the run. */
  datatype LoopState = LoopState(link: Link, total: int, log: seq<IterationLog>, crash: Option<Crash>)

  /** An iteration that called `connection.close()`. */
  predicate Closes(entry: IterationLog) {
    entry.exec.ExecFailed? || entry.sleep.Interrupted?
  }

  /**
   * The `try` block around the probe query. A closed connection makes
   * `createStatement` throw, like a failing query. A completed query runs the
   * diagnostic battery when it took strictly longer than the threshold.
   */
  function Execute(link: Link, execution: Execution, threshold: int): (r: ExecLog)
    ensures r.Ran? <==> link.Open? && execution.Completes?
    ensures r.Ran? ==> r.duration == execution.duration
    ensures r.Ran? ==> (r.diagnostics.Some? <==> execution.duration > threshold)
    ensures r.Ran? && r.diagnostics.Some? ==> r.diagnostics.value == DiagnosticsOf(execution.battery)
  {
    if link.Open? && execution.Completes? then
      var d := execution.duration;
      Ran(d, if d > threshold then Some(DiagnosticsOf(execution.battery)) else None)
    else ExecFailed
  }

  /** What an iteration adds to `totalTime`. */
  function Contribution(exec: ExecLog): int {
    if exec.Ran? then exec.duration else 0
  }

  /** The `try` block around `Thread.sleep`. */
  function Sleep(interrupted: bool, sleepMillis: int): (r: SleepLog)
    ensures r.Rejected? <==> sleepMillis < 0
    ensures r.Interrupted? <==> sleepMillis >= 0 && interrupted
  {
    if sleepMillis < 0 then Rejected else if interrupted then Interrupted else Slept
  }

  /**
   * One pass of the loop body. An uncaught exception has already ended the
   * run; a null connection throws at `createStatement`. Otherwise the query
   * part, then the sleep part; a failure in either is caught and closes the
   * connection, and a negative sleep time throws.
   */
  function Step(s: LoopState, input: IterationInput, threshold: int, sleepMillis: int): (r: LoopState)
  {
    if s.crash.Some? then s
    else if s.link.Absent? then s.(crash := Some(NullConnection))
    else
      var entry := IterationLog(Execute(s.link, input.execution, threshold), Sleep(input.interrupted, sleepMillis));
      LoopState(if Closes(entry) then Closed else s.link,
                s.total + Contribution(entry.exec),
                s.log + [entry],
                if sleepMillis < 0 then Some(NegativeSleep) else None)
  }

  /**
   * What one iteration does: nothing after a crash; a NullPointerException when
   * there is no connection; otherwise one more log entry, its contribution to
   * the total, the connection closed by a failure, and a crash exactly when the
   * sleep time is negative.
   */
  lemma StepEffect(s: LoopState, input: IterationInput, threshold: int, sleepMillis: int)
    ensures s.crash.Some? ==> Step(s, input, threshold, sleepMillis) == s
    ensures var r := Step(s, input, threshold, sleepMillis);
      s.crash.None? && s.link.Absent? ==>
        r.crash == Some(NullConnection) && r.log == s.log && r.total == s.total && r.link == s.link
    ensures var r := Step(s, input, threshold, sleepMillis);
      s.crash.None? && !s.link.Absent? ==>
        && |r.log| == |s.log| + 1 && r.log[..|s.log|] == s.log
        && r.log[|s.log|].exec == Execute(s.link, input.execution, threshold)
        && r.log[|s.log|].sleep == Sleep(input.interrupted, sleepMillis)
        && r.total == s.total + Contribution(r.log[|s.log|].exec)
        && r.link == (if Closes(r.log[|s.log|]) then Closed else s.link)
        && (r.crash.Some? <==> sleepMillis < 0)
  {
  }

  /** The state after `n` passes of the loop, starting with `totalTime = 0`. */
  function Loop(start: Link, threshold: int, sleepMillis: int, env: nat -> IterationInput, n: nat): (r: LoopState)
    ensures |r.log| <= n
    ensures r.crash.None? ==> |r.log| == n
  {
    if n == 0 then LoopState(start, 0, [], None)
    else Step(Loop(start, threshold, sleepMillis, env, n - 1), env(n - 1), threshold, sleepMillis)
  }

  /** The sum of the durations the log reports. */
  function RanTotal(log: seq<IterationLog>): int {
    if log == [] then 0 else RanTotal(log[..|log| - 1]) + Contribution(log[|log| - 1].exec)
  }

  /** No iteration before `i` failed or was interrupted. */
  predicate Healthy(env: nat -> IterationInput, i: nat) {
    forall j | 0 <= j < i :: env(j).execution.Completes? && !env(j).interrupted
  }

  /** Reference total: the durations of the first `n` iterations that completed on a still-healthy connection. */
  function HealthyTotal(env: nat -> IterationInput, n: nat): int {
    if n == 0 then 0
    else
      HealthyTotal(env, n - 1) +
      (if env(n - 1).execution.Completes? && Healthy(env, n - 1) then env(n - 1).execution.duration else 0)
  }
}
