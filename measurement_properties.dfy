/** What the measurement loop guarantees, proved about its specification. */
module MeasurementProperties {
  import opened Wrappers
  import opened ProbeFailure
  import opened Diagnostics
  import opened Measurement

  /** An uncaught exception ends the run: later iterations change nothing. */
  lemma {:induction false} LoopCrashPersists(start: Link, threshold: int, sleepMillis: int, env: nat -> IterationInput, k: nat, m: nat)
    requires k <= m
    requires Loop(start, threshold, sleepMillis, env, k).crash.Some?
    ensures Loop(start, threshold, sleepMillis, env, m) == Loop(start, threshold, sleepMillis, env, k)
  {
    if k < m {
      LoopCrashPersists(start, threshold, sleepMillis, env, k, m - 1);
    }
  }

  /** With a null connection, no iterations end normally and any iteration throws before logging anything. */
  lemma {:induction false} LoopWithoutConnection(threshold: int, sleepMillis: int, env: nat -> IterationInput, n: nat)
    ensures n == 0 ==> Loop(Absent, threshold, sleepMillis, env, n) == LoopState(Absent, 0, [], None)
    ensures n >= 1 ==> Loop(Absent, threshold, sleepMillis, env, n) == LoopState(Absent, 0, [], Some(NullConnection))
  {
    if n > 1 {
      LoopWithoutConnection(threshold, sleepMillis, env, n - 1);
    }
  }

  /**
   * With a connection, the body runs exactly `n` times when the sleep time is
   * not negative; a negative sleep time ends the run after the first query.
   */
  lemma {:induction false} LoopRunsCount(start: Link, threshold: int, sleepMillis: int, env: nat -> IterationInput, n: nat)
    requires start != Absent
    ensures Loop(start, threshold, sleepMillis, env, n).link != Absent
    ensures sleepMillis >= 0 ==> Loop(start, threshold, sleepMillis, env, n).crash == None
    ensures sleepMillis >= 0 ==> |Loop(start, threshold, sleepMillis, env, n).log| == n
    ensures sleepMillis < 0 && n >= 1 ==> Loop(start, threshold, sleepMillis, env, n).crash == Some(NegativeSleep)
    ensures sleepMillis < 0 && n >= 1 ==> |Loop(start, threshold, sleepMillis, env, n).log| == 1
  {
    if n > 0 {
      LoopRunsCount(start, threshold, sleepMillis, env, n - 1);
    }
  }

  /** `totalTime` is the sum of the durations logged for the iterations whose query ran. */
  lemma {:induction false} LoopTotal(start: Link, threshold: int, sleepMillis: int, env: nat -> IterationInput, n: nat)
    ensures Loop(start, threshold, sleepMillis, env, n).total == RanTotal(Loop(start, threshold, sleepMillis, env, n).log)
  {
    if n > 0 {
      LoopTotal(start, threshold, sleepMillis, env, n - 1);
      var s := Loop(start, threshold, sleepMillis, env, n - 1);
      var t := Step(s, env(n - 1), threshold, sleepMillis);
      if s.crash.None? && !s.link.Absent? {
        assert t.log[..|t.log| - 1] == s.log;
      }
    }
  }

  /**
   * Entry `i` of the log belongs to iteration `i`; an iteration that ran
   * reports the duration it was given, and it ran the diagnostic battery,
   * exactly once, exactly when that duration is strictly above the threshold.
   */
  lemma {:induction false} ThresholdRule(start: Link, threshold: int, sleepMillis: int, env: nat -> IterationInput, n: nat)
    ensures var log := Loop(start, threshold, sleepMillis, env, n).log;
      forall i | 0 <= i < |log| && log[i].exec.Ran? ::
        && env(i).execution.Completes?
        && log[i].exec.duration == env(i).execution.duration
        && (log[i].exec.diagnostics.Some? <==> log[i].exec.duration > threshold)
        && (log[i].exec.diagnostics.Some? ==> log[i].exec.diagnostics.value == DiagnosticsOf(env(i).execution.battery))
  {
    if n > 0 {
      ThresholdRule(start, threshold, sleepMillis, env, n - 1);
      var s := Loop(start, threshold, sleepMillis, env, n - 1);
      var t := Step(s, env(n - 1), threshold, sleepMillis);
      if s.crash.None? && !s.link.Absent? {
        var k := |s.log|;
        assert k == n - 1;
        assert t.log == s.log + [t.log[k]];
        assert t.log[k].exec == Execute(s.link, env(k).execution, threshold);
        assert forall i | 0 <= i < k :: t.log[i] == s.log[i];
      }
    }
  }

  /**
   * A close is permanent: after iteration `i` closed the connection, it is
   * closed at the end and every later iteration's query failed.
   */
  lemma {:induction false} ClosedFrom(start: Link, threshold: int, sleepMillis: int, env: nat -> IterationInput, n: nat, i: nat)
    requires i < |Loop(start, threshold, sleepMillis, env, n).log|
    requires Closes(Loop(start, threshold, sleepMillis, env, n).log[i])
    ensures Loop(start, threshold, sleepMillis, env, n).link == Closed
    ensures forall j | i < j < |Loop(start, threshold, sleepMillis, env, n).log| ::
      Loop(start, threshold, sleepMillis, env, n).log[j].exec.ExecFailed?
  {
    var s := Loop(start, threshold, sleepMillis, env, n - 1);
    var t := Loop(start, threshold, sleepMillis, env, n);
    assert t == Step(s, env(n - 1), threshold, sleepMillis);
    if s.crash.Some? || s.link.Absent? {
      assert t.log == s.log && t.link == s.link;
      ClosedFrom(start, threshold, sleepMillis, env, n - 1, i);
    } else {
      var k := |s.log|;
      var e := t.log[k];
      assert t.log == s.log + [e];
      if i < k {
        assert t.log[i] == s.log[i];
        ClosedFrom(start, threshold, sleepMillis, env, n - 1, i);
        assert e.exec == Execute(Closed, env(n - 1).execution, threshold) == ExecFailed;
        forall j | i < j < |t.log| ensures t.log[j].exec.ExecFailed? {
          if j < k {
            assert t.log[j] == s.log[j];
          }
        }
      } else {
        assert Closes(e);
      }
    }
  }

  /** A run that starts on a closed connection never runs a query and ends with it closed. */
  lemma {:induction false} ClosedStart(threshold: int, sleepMillis: int, env: nat -> IterationInput, n: nat)
    ensures Loop(Closed, threshold, sleepMillis, env, n).link == Closed
    ensures forall i | 0 <= i < |Loop(Closed, threshold, sleepMillis, env, n).log| ::
      Loop(Closed, threshold, sleepMillis, env, n).log[i].exec.ExecFailed?
  {
    if n > 0 {
      ClosedStart(threshold, sleepMillis, env, n - 1);
      var s := Loop(Closed, threshold, sleepMillis, env, n - 1);
      var t := Loop(Closed, threshold, sleepMillis, env, n);
      assert t == Step(s, env(n - 1), threshold, sleepMillis);
      if s.crash.None? {
        var k := |s.log|;
        var e := t.log[k];
        assert t.log == s.log + [e];
        assert e.exec == ExecFailed;
        forall i | 0 <= i < |t.log| ensures t.log[i].exec.ExecFailed? {
          if i < k {
            assert t.log[i] == s.log[i];
          }
        }
      }
    }
  }

  /**
   * A close is permanent: once an iteration has closed the connection it stays
   * closed and every later query fails, whatever the environment offers; a run
   * that starts on a closed connection never runs a query.
   */
  lemma CloseSticks(start: Link, threshold: int, sleepMillis: int, env: nat -> IterationInput, n: nat)
    ensures var s := Loop(start, threshold, sleepMillis, env, n);
      && (forall i, j | 0 <= i < j < |s.log| && Closes(s.log[i]) :: s.log[j].exec.ExecFailed?)
      && (forall i | 0 <= i < |s.log| && Closes(s.log[i]) :: s.link == Closed)
      && (start == Closed ==> s.link == Closed && forall i | 0 <= i < |s.log| :: s.log[i].exec.ExecFailed?)
  {
    var s := Loop(start, threshold, sleepMillis, env, n);
    forall i, j | 0 <= i < j < |s.log| && Closes(s.log[i]) ensures s.log[j].exec.ExecFailed? {
      ClosedFrom(start, threshold, sleepMillis, env, n, i);
    }
    forall i | 0 <= i < |s.log| && Closes(s.log[i]) ensures s.link == Closed {
      ClosedFrom(start, threshold, sleepMillis, env, n, i);
    }
    if start == Closed {
      ClosedStart(threshold, sleepMillis, env, n);
    }
  }

  lemma HealthyNext(env: nat -> IterationInput, k: nat)
    ensures Healthy(env, k + 1) <==> Healthy(env, k) && env(k).execution.Completes? && !env(k).interrupted
  {
  }

  /** Starting on an open connection, it is still open after the iterations so far exactly when none of them failed or was interrupted. */
  lemma {:induction false} OpenIffHealthy(threshold: int, sleepMillis: int, env: nat -> IterationInput, n: nat)
    ensures var s := Loop(Open, threshold, sleepMillis, env, n);
      s.crash.None? ==> (s.link == Open <==> Healthy(env, n))
  {
    if n > 0 {
      OpenIffHealthy(threshold, sleepMillis, env, n - 1);
      LoopRunsCount(Open, threshold, sleepMillis, env, n - 1);
      var s := Loop(Open, threshold, sleepMillis, env, n - 1);
      var t := Loop(Open, threshold, sleepMillis, env, n);
      assert t == Step(s, env(n - 1), threshold, sleepMillis);
      HealthyNext(env, n - 1);
    }
  }

  /**
   * Starting on an open connection, iteration `i` runs its query exactly when
   * the query completes and no earlier iteration failed or was interrupted.
   */
  lemma {:induction false} RanAt(threshold: int, sleepMillis: int, env: nat -> IterationInput, n: nat, i: nat)
    requires i < |Loop(Open, threshold, sleepMillis, env, n).log|
    ensures Loop(Open, threshold, sleepMillis, env, n).log[i].exec.Ran?
        <==> env(i).execution.Completes? && Healthy(env, i)
  {
    var s := Loop(Open, threshold, sleepMillis, env, n - 1);
    var t := Loop(Open, threshold, sleepMillis, env, n);
    assert t == Step(s, env(n - 1), threshold, sleepMillis);
    LoopRunsCount(Open, threshold, sleepMillis, env, n - 1);
    if s.crash.Some? {
      RanAt(threshold, sleepMillis, env, n - 1, i);
    } else {
      var k := |s.log|;
      assert t.log == s.log + [t.log[k]];
      if i < k {
        assert t.log[i] == s.log[i];
        RanAt(threshold, sleepMillis, env, n - 1, i);
      } else {
        OpenIffHealthy(threshold, sleepMillis, env, n - 1);
        assert t.log[k].exec == Execute(s.link, env(k).execution, threshold);
      }
    }
  }

  /**
   * Starting on an open connection, iteration `i` runs its query exactly when
   * the query completes and no earlier iteration failed or was interrupted;
   * the connection is still open exactly while that holds of every iteration so far.
   */
  lemma RanIffHealthy(threshold: int, sleepMillis: int, env: nat -> IterationInput, n: nat)
    ensures var s := Loop(Open, threshold, sleepMillis, env, n);
      && (s.crash.None? ==> (s.link == Open <==> Healthy(env, |s.log|)))
      && (forall i | 0 <= i < |s.log| :: s.log[i].exec.Ran? <==> env(i).execution.Completes? && Healthy(env, i))
  {
    var s := Loop(Open, threshold, sleepMillis, env, n);
    OpenIffHealthy(threshold, sleepMillis, env, n);
    forall i | 0 <= i < |s.log| ensures s.log[i].exec.Ran? <==> env(i).execution.Completes? && Healthy(env, i) {
      RanAt(threshold, sleepMillis, env, n, i);
    }
  }

  /**
   * Exact accumulation: starting on an open connection with a sleep time that
   * is not negative, `totalTime` after `n` iterations is the sum of the
   * durations of the iterations that completed before the first failure or
   * interruption, including an interrupted one's own query.
   */
  lemma {:induction false} TotalIsHealthyTotal(threshold: int, sleepMillis: int, env: nat -> IterationInput, n: nat)
    requires sleepMillis >= 0
    ensures Loop(Open, threshold, sleepMillis, env, n).total == HealthyTotal(env, n)
  {
    if n > 0 {
      TotalIsHealthyTotal(threshold, sleepMillis, env, n - 1);
      OpenIffHealthy(threshold, sleepMillis, env, n - 1);
      LoopRunsCount(Open, threshold, sleepMillis, env, n - 1);
      var s := Loop(Open, threshold, sleepMillis, env, n - 1);
      assert Loop(Open, threshold, sleepMillis, env, n) == Step(s, env(n - 1), threshold, sleepMillis);
    }
  }
}
