/**
 * How the probe's `main` turns its configuration properties into settings:
 * the numeric ones go through `Integer.parseInt`, the optional ones fall back
 * to built-in defaults, and an iteration count of -1 means "run for
 * `Integer.MAX_VALUE` iterations".
 */
module ProbeConfig {
  import opened Wrappers
  import opened JavaInt
  import opened ProbeFailure

  /** The flat property store: a key that is not in the map reads as null. */
  type Properties = map<string, string>

  const KeyQuery: string := "SQL.QUERYTOEXECUTE"
  const KeyThreshold: string := "DIAGNOSTIC.THRESHOLD"
  const KeySleep: string := "RUN.THREADSLEEPTIME"
  const KeyIterations: string := "SQL.ITERATIONS"
  const KeyDriverClass: string := "CONNECTION.DRIVERCLASS"

  /** The built-in defaults (`DEFAULT_QUERY_TO_EXECUTE`, `DEFAULT_THREAD_SLEEP_TIME`, `DEFAULT_ITERATION_COUNT`). */
  datatype Defaults = Defaults(query: string, sleepMillis: Int32, iterations: Int32)

  /** `getProperty`. */
  function Lookup(props: Properties, key: string): Option<string> {
    if key in props then Some(props[key]) else None
  }

  /** The diagnostic threshold has no default: an absent or malformed value stops the run. */
  function ResolveThreshold(props: Properties): (r: Result<Int32, Crash>)
    ensures KeyThreshold !in props ==> r == Failure(BadNumber(KeyThreshold))
    ensures r.Success? <==> ParseInt(Lookup(props, KeyThreshold)).Some?
    ensures r.Success? ==> r == Success(ParseInt(Lookup(props, KeyThreshold)).value)
    ensures r.Failure? ==> r.error == BadNumber(KeyThreshold)
  {
    match ParseInt(Lookup(props, KeyThreshold))
    case None => Failure(BadNumber(KeyThreshold))
    case Some(v) => Success(v)
  }

  /** The sleep time between iterations: the default unless the property is present. */
  function ResolveSleep(props: Properties, defaults: Defaults): (r: Result<Int32, Crash>)
    ensures KeySleep !in props ==> r == Success(defaults.sleepMillis)
    ensures KeySleep in props ==> (r.Success? <==> ParseInt(Some(props[KeySleep])).Some?)
    ensures KeySleep in props && r.Success? ==> Some(r.value) == ParseInt(Some(props[KeySleep]))
    ensures r.Failure? ==> r.error == BadNumber(KeySleep)
  {
    if KeySleep !in props then Success(defaults.sleepMillis)
    else
      match ParseInt(Some(props[KeySleep]))
      case None => Failure(BadNumber(KeySleep))
      case Some(v) => Success(v)
  }

  /** The probe query: the configured text verbatim, or the default when absent. */
  function ResolveQuery(props: Properties, defaults: Defaults): (q: string)
    ensures KeyQuery in props ==> q == props[KeyQuery]
    ensures KeyQuery !in props ==> q == defaults.query
  {
    match Lookup(props, KeyQuery)
    case None => defaults.query
    case Some(q) => q
  }

  /** The -1 sentinel; every other value is kept. */
  function Unbounded(n: Int32): (m: Int32)
    ensures m != -1
    ensures n != -1 ==> m == n
    ensures n == -1 ==> m == MaxInt
  {
    if n == -1 then MaxInt else n
  }

  /**
   * The iteration count: the configured value or the default, and in either
   * case -1 becomes `Integer.MAX_VALUE`.
   */
  function ResolveIterations(props: Properties, defaults: Defaults): (r: Result<Int32, Crash>)
    ensures r.Success? ==> r.value != -1
    ensures KeyIterations !in props ==> r == Success(Unbounded(defaults.iterations))
    ensures KeyIterations in props ==> (r.Success? <==> ParseInt(Some(props[KeyIterations])).Some?)
    ensures KeyIterations in props && r.Success? ==> r.value == Unbounded(ParseInt(Some(props[KeyIterations])).value)
    ensures r.Failure? ==> r.error == BadNumber(KeyIterations)
  {
    var n :=
      if KeyIterations !in props then Success(defaults.iterations)
      else match ParseInt(Some(props[KeyIterations]))
           case None => Failure(BadNumber(KeyIterations))
           case Some(v) => Success(v);
    match n
    case Failure(e) => Failure(e)
    case Success(v) => Success(Unbounded(v))
  }

  /** How many times `for (index = 0; index < iterations; index++)` runs its body. */
  function LoopCount(iterations: int): (n: nat)
    ensures iterations >= 0 ==> n == iterations
    ensures iterations < 0 ==> n == 0
  {
    if iterations > 0 then iterations else 0
  }

  /** A setting written with `Integer.toString` is read back as that number (and -1 as the unbounded count). */
  lemma ConfigRoundTrip(props: Properties, defaults: Defaults, n: Int32)
    ensures ResolveThreshold(props[KeyThreshold := ShowInt(n)]) == Success(n)
    ensures ResolveSleep(props[KeySleep := ShowInt(n)], defaults) == Success(n)
    ensures ResolveIterations(props[KeyIterations := ShowInt(n)], defaults) == Success(if n == -1 then MaxInt else n)
  {
    ParseShowRoundTrip(n);
  }
}
