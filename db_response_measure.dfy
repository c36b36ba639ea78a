/**
 * The probe's `main`: read the settings, take the cached connection, run the
 * measurement loop over it, and close it at the end.
 */
module DbResponseMeasure {
  import opened Wrappers
  import opened JavaInt
  import opened ProbeFailure
  import opened ProbeConfig
  import opened DBConnection
  import opened Diagnostics
  import opened Measurement
  import opened MeasurementProperties

  function Handles(c: Option<Connection>): set<Connection> {
    if c.Some? then {c.value} else {}
  }

  function AnswerHandles(answer: OpenAnswer<Connection>): set<Connection> {
    if answer.Connected? then {answer.handle} else {}
  }

  /** The loop's view of a `connection` variable. */
  function LinkOf(c: Option<Connection>): Link
    reads Handles(c)
  {
    match c
    case None => Absent
    case Some(h) => if h.closed then Closed else Open
  }

  /**
   * The `for` loop of `main`. `env(index)` stands for what iteration `index`
   * meets: the clock readings around the query, the database's reply, and
   * whether the sleep is interrupted.
   */
  method MeasureLoop(connection: Option<Connection>, threshold: int, sleepMillis: int, iterations: int,
                     env: nat -> IterationInput)
    returns (total: int, log: seq<IterationLog>, crash: Option<Crash>)
    modifies Handles(connection)
    ensures LoopState(LinkOf(connection), total, log, crash)
         == Loop(old(LinkOf(connection)), threshold, sleepMillis, env, LoopCount(iterations))
  {
    ghost var start := LinkOf(connection);
    total, log, crash := 0, [], None;
    var index := 0;
    while index < iterations
      invariant 0 <= index <= LoopCount(iterations)
      invariant LoopState(LinkOf(connection), total, log, None) == Loop(start, threshold, sleepMillis, env, index)
    {
      if connection.None? {
        // createStatement on null: NullPointerException, which nothing catches
        crash := Some(NullConnection);
        LoopCrashPersists(start, threshold, sleepMillis, env, index + 1, LoopCount(iterations));
        return;
      }
      var conn := connection.value;
      var input := env(index);
      var exec: ExecLog;
      if !conn.closed && input.execution.Completes? {
        var duration := input.execution.duration;
        total := total + duration;
        var diagnostics := None;
        if duration > threshold {
          var entries := RunDiagnostics(input.execution.battery);
          diagnostics := Some(entries);
        }
        exec := Ran(duration, diagnostics);
      } else {
        // SQLException: logged, then the connection is closed
        exec := ExecFailed;
        conn.Close();
      }
      if sleepMillis < 0 {
        // Thread.sleep with a negative time: IllegalArgumentException, which nothing catches
        log := log + [IterationLog(exec, Rejected)];
        crash := Some(NegativeSleep);
        LoopCrashPersists(start, threshold, sleepMillis, env, index + 1, LoopCount(iterations));
        return;
      }
      var sleep := Slept;
      if input.interrupted {
        // InterruptedException: logged, then the connection is closed
        sleep := Interrupted;
        conn.Close();
      }
      log := log + [IterationLog(exec, sleep)];
      index := index + 1;
    }
  }

  /**
   * How a run of the probe ends: normally, with `totalTime` and the iteration
   * count the average is taken from, or with an uncaught exception. A crashed
   * run records the state its connection was left in (`Absent` when it died
   * before asking for one).
   */
  datatype ProbeOutcome =
    | Finished(query: string, total: int, iterations: Int32, log: seq<IterationLog>)
    | Crashed(crash: Crash, total: int, log: seq<IterationLog>, link: Link)

  /**
   * The outcome of `main` as a function of the settings, of what the driver
   * class name resolves to (`lookup`) and of the state of the connection
   * `getConnection` returns (`start`).
   */
  function Expected(props: Properties, defaults: Defaults, lookup: ClassLookup, start: Link, env: nat -> IterationInput)
    : (r: ProbeOutcome)
    ensures !Connects(props, defaults, lookup) ==> r.Crashed? && r.log == [] && r.total == 0 && r.link == Absent
    ensures ResolveThreshold(props).Failure? ==> r.crash == BadNumber(KeyThreshold)
    ensures ResolveThreshold(props).Success? && ResolveSleep(props, defaults).Failure? ==> r.crash == BadNumber(KeySleep)
    ensures ResolveThreshold(props).Success? && ResolveSleep(props, defaults).Success? ==>
      match LoadDriver(Lookup(props, KeyDriverClass), lookup)
      case Some(e) => r == Crashed(e, 0, [], Absent)
      case None => Connects(props, defaults, lookup)
    ensures Connects(props, defaults, lookup) && ResolveIterations(props, defaults).Failure? ==>
      r == Crashed(BadNumber(KeyIterations), 0, [], start)
    ensures r.Finished? ==>
      && Connects(props, defaults, lookup)
      && ResolveIterations(props, defaults) == Success(r.iterations)
      && r.query == ResolveQuery(props, defaults)
      && |r.log| == LoopCount(r.iterations)
  {
    match ResolveThreshold(props)
    case Failure(e) => Crashed(e, 0, [], Absent)
    case Success(threshold) =>
      match ResolveSleep(props, defaults)
      case Failure(e) => Crashed(e, 0, [], Absent)
      case Success(sleepMillis) =>
        match LoadDriver(Lookup(props, KeyDriverClass), lookup)
        case Some(e) => Crashed(e, 0, [], Absent)
        case None =>
        match ResolveIterations(props, defaults)
        case Failure(e) => Crashed(e, 0, [], start)
        case Success(iterations) =>
          var s := Loop(start, threshold, sleepMillis, env, LoopCount(iterations));
          if s.crash.Some? then Crashed(s.crash.value, s.total, s.log, s.link)
          else Finished(ResolveQuery(props, defaults), s.total, iterations, s.log)
  }

  /** Whether `main` gets as far as asking for a connection. */
  predicate Connects(props: Properties, defaults: Defaults, lookup: ClassLookup) {
    && ResolveThreshold(props).Success?
    && ResolveSleep(props, defaults).Success?
    && LoadDriver(Lookup(props, KeyDriverClass), lookup).None?
  }

  /**
   * `main`. `lookup` is what the configured driver class name resolves to,
   * `cache` is the static field of `DBConnection` and `answer` the driver
   * manager's reply should it be asked; the driver manager hands out open
   * sessions.
   */
  method Probe(props: Properties, defaults: Defaults, lookup: ClassLookup, cache: ConnectionCache,
               answer: OpenAnswer<Connection>, env: nat -> IterationInput)
    returns (outcome: ProbeOutcome)
    requires cache.Valid()
    requires answer.Connected? ==> !answer.handle.closed
    modifies cache, Handles(cache.connection), AnswerHandles(answer)
    ensures cache.Valid()
    ensures old(cache.connection).Some? ==> unchanged(AnswerHandles(answer) - Handles(old(cache.connection)))
    ensures !Connects(props, defaults, lookup) ==>
      unchanged(cache) && unchanged(Handles(old(cache.connection))) && unchanged(AnswerHandles(answer))
    ensures cache.attempts == old(cache.attempts) + (if Connects(props, defaults, lookup) && old(cache.connection).None? then 1 else 0)
    ensures cache.opens
         == old(cache.opens) + (if Connects(props, defaults, lookup) && old(cache.connection).None? && answer.Connected? then 1 else 0)
    ensures outcome == Expected(props, defaults, lookup, old(LinkOf(GetConnectionSpec(cache.connection, answer).returned)), env)
    ensures cache.connection
         == if Connects(props, defaults, lookup) then GetConnectionSpec(old(cache.connection), answer).cached
            else old(cache.connection)
    ensures var acquired := GetConnectionSpec(old(cache.connection), answer).returned;
            outcome.Finished? && acquired.Some? ==> acquired.value.closed
    ensures var acquired := GetConnectionSpec(old(cache.connection), answer).returned;
            Connects(props, defaults, lookup) && outcome.Crashed? ==> LinkOf(acquired) == outcome.link
  {
    ghost var acquired := GetConnectionSpec(cache.connection, answer).returned;
    ghost var start := LinkOf(acquired);
    var threshold := ResolveThreshold(props);
    if threshold.Failure? {
      return Crashed(threshold.error, 0, [], Absent);
    }
    var sleepMillis := ResolveSleep(props, defaults);
    if sleepMillis.Failure? {
      return Crashed(sleepMillis.error, 0, [], Absent);
    }
    var loaded := LoadDriver(Lookup(props, KeyDriverClass), lookup);
    if loaded.Some? {
      return Crashed(loaded.value, 0, [], Absent);
    }
    var connection := cache.GetConnection(
      Lookup(props, "CONNECTION.URL"), Lookup(props, "CONNECTION.USERNAME"), Lookup(props, "CONNECTION.PASSWORD"), answer);
    assert connection == acquired && LinkOf(connection) == start;
    var query := ResolveQuery(props, defaults);
    var iterations := ResolveIterations(props, defaults);
    if iterations.Failure? {
      return Crashed(iterations.error, 0, [], LinkOf(connection));
    }
    var total, log, crash := MeasureLoop(connection, threshold.value, sleepMillis.value, iterations.value, env);
    if crash.Some? {
      return Crashed(crash.value, total, log, LinkOf(connection));
    }
    if connection.Some? {
      connection.value.Close();
    }
    outcome := Finished(query, total, iterations.value, log);
  }

  /**
   * A run that gets a working connection and a sleep time that is not negative
   * finishes after exactly the configured number of iterations, and its
   * `totalTime` is both the sum of the durations it logged and the sum of the
   * durations of the queries that completed before the first failure or
   * interruption.
   */
  lemma RunFromOpenConnection(props: Properties, defaults: Defaults, lookup: ClassLookup, env: nat -> IterationInput)
    requires Connects(props, defaults, lookup) && ResolveIterations(props, defaults).Success?
    requires ResolveSleep(props, defaults).value >= 0
    ensures var outcome := Expected(props, defaults, lookup, Open, env);
      && outcome.Finished?
      && outcome.iterations == ResolveIterations(props, defaults).value
      && |outcome.log| == LoopCount(outcome.iterations)
      && outcome.total == RanTotal(outcome.log)
      && outcome.total == HealthyTotal(env, LoopCount(outcome.iterations))
  {
    var threshold, sleepMillis := ResolveThreshold(props).value, ResolveSleep(props, defaults).value;
    var n := LoopCount(ResolveIterations(props, defaults).value);
    LoopRunsCount(Open, threshold, sleepMillis, env, n);
    LoopTotal(Open, threshold, sleepMillis, env, n);
    TotalIsHealthyTotal(threshold, sleepMillis, env, n);
  }

  /**
   * With no connection, a run that reaches the loop and has at least one
   * iteration dies at the first `createStatement`, having measured nothing;
   * with no iterations it finishes with a total of 0 whatever the connection.
   */
  lemma RunWithoutIterationsOrConnection(props: Properties, defaults: Defaults, lookup: ClassLookup, start: Link, env: nat -> IterationInput)
    requires Connects(props, defaults, lookup) && ResolveIterations(props, defaults).Success?
    ensures var n := LoopCount(ResolveIterations(props, defaults).value);
      && (n == 0 ==> Expected(props, defaults, lookup, start, env)
                     == Finished(ResolveQuery(props, defaults), 0, ResolveIterations(props, defaults).value, []))
      && (n >= 1 && start == Absent ==> Expected(props, defaults, lookup, start, env) == Crashed(NullConnection, 0, [], Absent))
  {
    var threshold, sleepMillis := ResolveThreshold(props).value, ResolveSleep(props, defaults).value;
    var n := LoopCount(ResolveIterations(props, defaults).value);
    if start == Absent {
      LoopWithoutConnection(threshold, sleepMillis, env, n);
    }
  }

  /**
   * The settings that stop a run before it connects: a missing threshold, a
   * sleep time or threshold that `Integer.parseInt` rejects, and a missing
   * driver class name. With the optional keys absent, a run uses the default
   * query and iteration count.
   */
  lemma RunSettings(props: Properties, defaults: Defaults, lookup: ClassLookup, start: Link, env: nat -> IterationInput)
    ensures ResolveThreshold(props).Failure? ==>
      Expected(props, defaults, lookup, start, env) == Crashed(BadNumber(KeyThreshold), 0, [], Absent)
    ensures ResolveThreshold(props).Success? && ResolveSleep(props, defaults).Failure? ==>
      Expected(props, defaults, lookup, start, env) == Crashed(BadNumber(KeySleep), 0, [], Absent)
    ensures ResolveThreshold(props).Success? && ResolveSleep(props, defaults).Success? && KeyDriverClass !in props ==>
      Expected(props, defaults, lookup, start, env) == Crashed(NullDriverClass, 0, [], Absent)
    ensures Expected(props, defaults, lookup, start, env).Finished? && KeyQuery !in props ==>
      Expected(props, defaults, lookup, start, env).query == defaults.query
    ensures Expected(props, defaults, lookup, start, env).Finished? && KeyIterations !in props ==>
      Expected(props, defaults, lookup, start, env).iterations == Unbounded(defaults.iterations)
  {
  }
}
