/**
 * The lazily cached database connection of `DBConnection`: one static,
 * mutable field that starts out null, is set by the first successful open and
 * is never cleared again.
 */
module DBConnection {
  import opened Wrappers
  import opened ProbeFailure

  /**
   * A JDBC session. The only part of its state the probe depends on is
   * whether it has been closed; `close()` on a closed session does nothing.
   */
  class Connection {
    var closed: bool

    constructor ()
      ensures !closed
    {
      closed := false;
    }

    method Close()
      modifies this
      ensures closed
    {
      closed := true;
    }
  }

  /**
   * What `Class.forName(name).newInstance()` yields for a class name on the
   * class path: an instance of a `java.sql.Driver`, an instance of some other
   * class, or one of the reflective exceptions `loadDBDriver` catches (class
   * not found, not instantiable, not accessible).
   */
  datatype ClassLookup = DriverClass | OtherClass | Unloadable

  /**
   * `loadDBDriver`: the uncaught exception it ends `main` with, if any. A
   * missing class name makes `Class.forName` throw `NullPointerException`, and
   * a class that is not a driver fails the cast; both escape, since only the
   * reflective exceptions are caught. A caught one is logged and the run goes
   * on to register the driver and connect.
   */
  function LoadDriver(driverClass: Option<string>, lookup: ClassLookup): (r: Option<Crash>)
    ensures r == Some(NullDriverClass) <==> driverClass.None?
    ensures r == Some(NotADriver) <==> driverClass.Some? && lookup.OtherClass?
    ensures r.None? <==> driverClass.Some? && (lookup.DriverClass? || lookup.Unloadable?)
  {
    match driverClass
    case None => Some(NullDriverClass)
    case Some(_) => if lookup.OtherClass? then Some(NotADriver) else None
  }

  /** What `DriverManager.getConnection` does when asked: hands out a session, or throws `SQLException`. */
  datatype OpenAnswer<H> = Connected(handle: H) | Refused

  /** One call of `getConnection`: what it returns, the field afterwards, and whether it asked the driver manager. */
  datatype CallResult<H> = CallResult(returned: Option<H>, cached: Option<H>, attempted: bool)

  /**
   * `getConnection` on a value-level field. With the field set, the cached
   * handle is returned and the driver manager is not asked; with it unset, a
   * refused open returns null and leaves it unset, and a granted open stores
   * the new handle and returns it.
   */
  function GetConnectionSpec<H>(cached: Option<H>, answer: OpenAnswer<H>): (r: CallResult<H>)
    ensures r.attempted <==> cached.None?
    ensures cached.Some? ==> r.returned == cached && r.cached == cached
    ensures cached.None? && answer.Refused? ==> r.returned == None && r.cached == None
    ensures cached.None? && answer.Connected? ==> r.returned == Some(answer.handle) && r.cached == r.returned
  {
    if cached.Some? then CallResult(cached, cached, false)
    else
      match answer
      case Refused => CallResult(None, None, true)
      case Connected(h) => CallResult(Some(h), Some(h), true)
  }

  /**
   * The static field `connection` and `getConnection`. The ghost counters record
   * how often the driver manager was asked and how often it handed out a session.
   */
  class ConnectionCache {
    var connection: Option<Connection>
    ghost var attempts: nat
    ghost var opens: nat

    /** At most one open ever succeeds, and the field is set exactly when one has. */
    ghost predicate Valid()
      reads this
    {
      opens <= 1 && (connection.Some? <==> opens == 1)
    }

    constructor ()
      ensures Valid() && connection == None && attempts == 0 && opens == 0
    {
      connection := None;
      attempts, opens := 0, 0;
    }

    /**
     * The arguments are passed on to the driver manager only when the field is
     * unset; `answer` stands for the driver manager's reply to them.
     */
    method GetConnection(url: Option<string>, username: Option<string>, password: Option<string>, answer: OpenAnswer<Connection>)
      returns (c: Option<Connection>)
      requires Valid()
      modifies this
      ensures Valid()
      ensures c == GetConnectionSpec(old(connection), answer).returned
      ensures connection == GetConnectionSpec(old(connection), answer).cached
      ensures attempts == old(attempts) + (if old(connection).None? then 1 else 0)
      ensures opens == old(opens) + (if old(connection).None? && answer.Connected? then 1 else 0)
    {
      if connection.None? {
        attempts := attempts + 1;
        match answer {
          case Refused =>
            return None;
          case Connected(h) =>
            connection := Some(h);
            opens := opens + 1;
        }
        c := connection;
      } else {
        c := connection;
      }
    }
  }

  /** The outcome of a sequence of `getConnection` calls. */
  datatype History<H> = History(returned: seq<Option<H>>, cached: Option<H>, attempts: nat, opens: nat)

  /** Replays one `getConnection` call per answer; an answer is consulted only by a call that opens. */
  function Replay<H>(cached: Option<H>, answers: seq<OpenAnswer<H>>): (h: History<H>)
    ensures |h.returned| == |answers|
  {
    if answers == [] then History([], cached, 0, 0)
    else
      var before := Replay(cached, answers[..|answers| - 1]);
      var call := GetConnectionSpec(before.cached, answers[|answers| - 1]);
      History(before.returned + [call.returned], call.cached,
              before.attempts + (if call.attempted then 1 else 0),
              before.opens + (if call.attempted && call.cached.Some? then 1 else 0))
  }

  /** The index of the first answer that grants a session, or the length when none does. */
  function FirstConnected<H>(answers: seq<OpenAnswer<H>>): (k: nat)
    ensures k <= |answers|
    ensures forall i | 0 <= i < k :: answers[i].Refused?
    ensures k < |answers| ==> answers[k].Connected?
  {
    if answers == [] then 0
    else if answers[0].Connected? then 0
    else 1 + FirstConnected(answers[1..])
  }

  /** Once the field is set, every call returns the same handle, the field never changes and nothing is opened. */
  lemma {:induction false} ReplayCacheHit<H>(handle: H, answers: seq<OpenAnswer<H>>)
    ensures var h := Replay(Some(handle), answers);
      h.cached == Some(handle) && h.attempts == 0 && h.opens == 0 &&
      forall i | 0 <= i < |answers| :: h.returned[i] == Some(handle)
  {
    if answers != [] {
      ReplayCacheHit(handle, answers[..|answers| - 1]);
    }
  }

  /**
   * Starting from an unset field: calls return null up to the first granted
   * open, which is the last open attempted; from then on they all return the
   * handle it granted. At most one open succeeds.
   */
  lemma {:induction false} ReplayFromUnset<H>(answers: seq<OpenAnswer<H>>)
    ensures var h := Replay(None, answers); var k := FirstConnected(answers);
      && h.attempts == (if k < |answers| then k + 1 else |answers|)
      && h.opens == (if k < |answers| then 1 else 0)
      && h.cached == (if k < |answers| then Some(answers[k].handle) else None)
      && (forall i | 0 <= i < k :: h.returned[i] == None)
      && (forall i | k <= i < |answers| :: h.returned[i] == Some(answers[k].handle))
  {
    if answers != [] {
      var n := |answers|;
      var init := answers[..n - 1];
      ReplayFromUnset(init);
      var k, k' := FirstConnected(answers), FirstConnected(init);
      if k' < n - 1 {
        assert init[k'] == answers[k'];
        assert k == k';
      } else {
        assert forall i | 0 <= i < n - 1 :: answers[i] == init[i];
        assert k >= n - 1;
      }
    }
  }

  /** Over any sequence of calls, at most one open succeeds, and none does once the field is set. */
  lemma {:induction false} ReplayOpensAtMostOnce<H>(cached: Option<H>, answers: seq<OpenAnswer<H>>)
    ensures Replay(cached, answers).opens <= 1
    ensures cached.Some? ==> Replay(cached, answers).opens == 0
    ensures Replay(cached, answers).opens == 1 ==> Replay(cached, answers).cached.Some?
  {
    if cached.Some? {
      ReplayCacheHit(cached.value, answers);
    } else if answers != [] {
      ReplayOpensAtMostOnce(cached, answers[..|answers| - 1]);
    }
  }
}
