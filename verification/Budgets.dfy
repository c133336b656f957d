/**
 Nested time budgets. The daemon's work on one command is followed along a timeline in
 which every primitive may take any time, but one that has a timeout takes no longer
 than that; the client's and the bridge's waits are compared with its slowest answer.
 */
module Budgets {
  import opened Basics
  import S = WrdsDaemon

  type Duration = d: real | d >= 0.0 witness 0.0

  const QUERY_TIMEOUT := 300
  const CLIENT_IO_TIMEOUT := 15.0
  const LOCK_QUEUE_WAIT := 60.0
  const RECOVERY_GRACE := 60.0
  const PREPARATION_TIMEOUT := 60.0
  const HEALTHCHECK_TIMEOUT := 60.0
  const REQUEST_ALLOWANCE := 15.0
  const QUEUE_ALLOWANCE := 65.0
  const PREPARATION_ALLOWANCE := 65.0
  const BRIDGE_SETUP_ALLOWANCE := 32.0
  const AUTH_PREFACE_TIMEOUT := 1.0
  const UPSTREAM_CONTROL_TIMEOUT := 15.0
  const TRANSFER_BASE := 60.0
  const TRANSFER_MAX := 315.0
  const BYTES_PER_SECOND := 1048576.0
  const PROBE_TIMEOUT := 180.0

  function Least(a: real, b: real): real {
    if a < b then a else b
  }

  function Most(a: real, b: real): real {
    if a < b then b else a
  }

  // --- The requested timeout -----------------------------------------------------------

  /** The `timeout` of a request as JSON delivers it. Text is what `int` and `float` make of
      a string; a boolean is a number. */
  datatype Timeout =
    | Absent | Number(value: real) | NotANumber | PlusInfinity | MinusInfinity
    | Text(asInt: Option<int>, asFloat: Option<real>)
    | Other

  predicate Plausible(t: Timeout) {
    t.Text? && t.asInt.Some? ==> t.asFloat == Some(t.asInt.value as real)
  }

  /** Python's `int` on a float: toward zero. */
  function Truncate(x: real): int {
    if x >= 0.0 then x.Floor else -((-x).Floor)
  }

  function Clamp(n: int): (r: int)
    ensures 1 <= r <= QUERY_TIMEOUT
  {
    Max(1, Min(n, QUERY_TIMEOUT))
  }

  function ClampReal(x: real): (r: real)
    ensures 1.0 <= r <= QUERY_TIMEOUT as real
  {
    Most(1.0, Least(x, QUERY_TIMEOUT as real))
  }

  /** `_normalized_query_timeout`; None: refused before any database work. */
  function ServerTimeout(t: Timeout): Option<int> {
    match t
    case Absent => Some(QUERY_TIMEOUT)
    case Number(value) => Some(Clamp(Truncate(value)))
    case Text(asInt, _) => if asInt.Some? then Some(Clamp(asInt.value)) else None
    case _ => None
  }

  /** `_bounded_execution_timeout`, and the bridge's copy with its own fallback. Python's
      `min` and `max` keep their first argument when NaN is compared. */
  function WaiterTimeout(t: Timeout, fallback: real): (r: real)
    ensures 1.0 <= r <= QUERY_TIMEOUT as real
  {
    match t
    case Number(value) => ClampReal(value)
    case NotANumber => 1.0
    case PlusInfinity => QUERY_TIMEOUT as real
    case MinusInfinity => 1.0
    case Text(_, asFloat) => ClampReal(if asFloat.Some? then asFloat.value else fallback)
    case _ => ClampReal(fallback)
  }

  /** A timeout that the request states is never longer for the daemon than for those who
      wait for it, and less than one second shorter. */
  lemma StatedTimeoutsAgree(t: Timeout, fallback: real)
    requires Plausible(t) && ServerTimeout(t).Some? && !t.Absent?
    ensures var (server, waiter) := (ServerTimeout(t).value as real, WaiterTimeout(t, fallback));
      server <= waiter < server + 1.0
  {
    if t.Number? {
      var n := Truncate(t.value);
      assert t.value >= 0.0 ==> n as real <= t.value < n as real + 1.0;
      assert t.value < 0.0 ==> n <= 0;
    }
  }

  // --- The daemon's timeline -----------------------------------------------------------

  /** How long each primitive would like to take. Rollback, dispose (closing the old
      connection, disposing of the pool, writing the marker) and inspect have no timeout. */
  datatype Delays = Delays(
    frame: Duration, queue: Duration, first: Duration,
    rollback: Duration, probe: Duration, dispose: Duration,
    connect: Duration, inspect: Duration, verify: Duration, second: Duration, prepare: Duration)

  datatype End = Good | Lost | Bad

  /** Which way every branch goes. */
  datatype Fate = Fate(
    acquired: bool, first: End, rolledBack: bool, healthy: bool, relogin: bool,
    connects: bool, verifies: bool, second: End)

  function Untimed(d: Delays): Duration {
    d.rollback + d.dispose + d.inspect
  }

  /** When the command's own work is over, whether it has a result to prepare, and when it
      spent a login. */
  datatype Over = Over(at: real, result: bool, login: Option<real>)

  function Spend(now: real, d: Duration, limit: real): real {
    now + Least(d, limit)
  }

  function Command(e: real, start: real, d: Delays, f: Fate): Over
    requires e >= 1.0
  {
    var deadline := start + e + RECOVERY_GRACE;
    var timeout := S.AttemptTimeout(deadline, start, e);
    if timeout.None? then Over(start, false, None)
    else
      var t := Spend(start, d.first, timeout.value);
      match f.first
      case Good => Over(t, deadline - t > 0.0, None)
      case Bad => Over(t, false, None)
      case Lost => Recovered(e, deadline, t, d, f)
  }

  /** Tier 1: roll back and probe the existing connection. */
  function Recovered(e: real, deadline: real, now: real, d: Delays, f: Fate): Over
    requires e >= 1.0
  {
    if deadline - now <= 0.0 then Over(now, false, None)
    else
      var t := now + d.rollback;
      if !f.rolledBack then Rebuilt(e, deadline, t, d, f)
      else
        var timeout := S.AttemptTimeout(deadline, t, S.QUERY_TIMEOUT_SECONDS);
        if timeout.None? then Over(t, false, None)
        else if f.healthy then Retried(e, deadline, Spend(t, d.probe, timeout.value), None, d, f)
        else Rebuilt(e, deadline, Spend(t, d.probe, timeout.value), d, f)
  }

  /** Tier 2: the one login, and its verification under a fresh budget. */
  function Rebuilt(e: real, deadline: real, now: real, d: Delays, f: Fate): Over
    requires e >= 1.0
  {
    var timeout := S.AttemptTimeout(deadline, now, S.RECOVERY_GRACE_SECONDS);
    if !f.relogin || timeout.None? then Over(now, false, None)
    else
      var login := now + d.dispose;
      var connected := Spend(login, d.connect, timeout.value);
      if !f.connects then Over(connected, false, Some(login))
      else
        var verifyDeadline := connected + RECOVERY_GRACE;
        var inspected := connected + d.inspect;
        var budget := S.AttemptTimeout(verifyDeadline, inspected, S.QUERY_TIMEOUT_SECONDS);
        if budget.None? then Over(inspected, false, Some(login))
        else if !f.verifies then Over(Spend(inspected, d.verify, budget.value), false, Some(login))
        else Retried(e, deadline, Spend(inspected, d.verify, budget.value), Some(login), d, f)
  }

  function Retried(e: real, deadline: real, now: real, login: Option<real>, d: Delays, f: Fate): Over
    requires e >= 1.0
  {
    var timeout := S.AttemptTimeout(deadline, now, e);
    if timeout.None? then Over(now, false, login)
    else
      var t := Spend(now, d.second, timeout.value);
      Over(t, f.second.Good? && deadline - t > 0.0, login)
  }

  /** From the first byte of the request to the first byte of the response header. */
  function FirstByte(e: real, d: Delays, f: Fate): real
    requires e >= 1.0
  {
    var locked := Spend(Least(d.frame, CLIENT_IO_TIMEOUT), d.queue, LOCK_QUEUE_WAIT);
    if !f.acquired then locked
    else
      var over := Command(e, locked, d, f);
      if over.result then Spend(over.at, d.prepare, PREPARATION_TIMEOUT) else over.at
  }

  /** A result leaves before the deadline; nothing leaves more than a verification later. */
  lemma RecoveredInTime(e: real, deadline: real, now: real, d: Delays, f: Fate)
    requires e >= 1.0 && now <= deadline
    ensures var over := Recovered(e, deadline, now, d, f);
      && over.at <= deadline + Untimed(d) + (if over.result then 0.0 else RECOVERY_GRACE)
      && (over.result ==> over.at < deadline)
  {
  }

  lemma FirstTimeout(e: real, start: real)
    requires e >= 1.0
    ensures S.AttemptTimeout(start + e + RECOVERY_GRACE, start, e) == Some(e)
  {
    assert start + e + RECOVERY_GRACE - start == e + 60.0;
  }

  lemma CommandInTime(e: real, start: real, d: Delays, f: Fate)
    requires e >= 1.0
    ensures var over := Command(e, start, d, f);
      && over.at <= start + e + 120.0 + Untimed(d) && (over.result ==> over.at < start + e + 60.0)
  {
    FirstTimeout(e, start);
    var deadline, t := start + e + RECOVERY_GRACE, Spend(start, d.first, e);
    assert t <= start + e;
    if f.first.Lost? {
      RecoveredInTime(e, deadline, t, d, f);
      assert Command(e, start, d, f) == Recovered(e, deadline, t, d, f);
    }
  }

  /** The slowest first byte of the daemon, over every timeline. */
  lemma SlowestFirstByte(e: real, d: Delays, f: Fate)
    requires e >= 1.0
    ensures FirstByte(e, d, f) <= 195.0 + e + Untimed(d)
  {
    var start := Spend(Least(d.frame, CLIENT_IO_TIMEOUT), d.queue, LOCK_QUEUE_WAIT);
    CommandInTime(e, start, d, f);
  }

  function SlowestDelays(e: real, u: Duration): Delays
    requires e >= 1.0
  {
    Delays(15.0, 60.0, e, 0.0, 0.0, u, 60.0, 0.0, 60.0, 0.0, 0.0)
  }

  const SlowestFate := Fate(true, Lost, false, false, true, true, true, Good)

  lemma SlowestIsAttained(e: real, u: Duration)
    requires e >= 1.0
    ensures FirstByte(e, SlowestDelays(e, u), SlowestFate) == 195.0 + e + u
    ensures Untimed(SlowestDelays(e, u)) == u
  {
    var deadline := 75.0 + e + RECOVERY_GRACE;
    assert S.AttemptTimeout(deadline, 75.0, e) == Some(e);
    assert S.AttemptTimeout(deadline, 75.0 + e, 60.0) == Some(60.0);
    var connected := 75.0 + e + u + 60.0;
    assert S.AttemptTimeout(connected + RECOVERY_GRACE, connected, S.QUERY_TIMEOUT_SECONDS) == Some(60.0);
  }

  // --- The client's wait ---------------------------------------------------------------

  /** `_response_header_timeout` of a database command over the daemon's own socket. */
  function HeaderBudget(waiter: real): real {
    REQUEST_ALLOWANCE + QUEUE_ALLOWANCE + waiter + RECOVERY_GRACE + PREPARATION_ALLOWANCE
  }

  ghost predicate Outwaits(server: real, waiter: real, u: Duration)
    requires server >= 1.0
  {
    forall d: Delays, f: Fate | Untimed(d) <= u :: FirstByte(server, d, f) <= HeaderBudget(waiter)
  }

  /** Main result: the client outwaits every answer of the daemon exactly when what has no
      timeout takes at most ten seconds more than the two execution budgets differ. */
  lemma NestingExactly(server: real, waiter: real, u: Duration)
    requires server >= 1.0
    ensures Outwaits(server, waiter, u) <==> server + u <= waiter + 10.0
  {
    if server + u <= waiter + 10.0 {
      forall d: Delays, f: Fate | Untimed(d) <= u
        ensures FirstByte(server, d, f) <= HeaderBudget(waiter)
      {
        SlowestFirstByte(server, d, f);
      }
    } else {
      SlowestIsAttained(server, u);
    }
  }

  /** A query that states its timeout is always outwaited with ten seconds to spare. */
  lemma QueriesAreOutwaited(t: Timeout, fallback: real, u: Duration)
    requires Plausible(t) && ServerTimeout(t).Some? && !t.Absent? && u <= 10.0
    ensures Outwaits(ServerTimeout(t).value as real, WaiterTimeout(t, fallback), u)
  {
    StatedTimeoutsAgree(t, fallback);
    NestingExactly(ServerTimeout(t).value as real, WaiterTimeout(t, fallback), u);
  }

  /** Every other command runs under the daemon's 300 seconds, so its caller must wait for
      at least 290 of them, plus whatever has no timeout. */
  lemma OtherCommandsExactly(fallback: real, u: Duration)
    requires u <= 10.0
    ensures Outwaits(QUERY_TIMEOUT as real, WaiterTimeout(Absent, fallback), u) <==> fallback >= 290.0 + u
  {
    NestingExactly(QUERY_TIMEOUT as real, WaiterTimeout(Absent, fallback), u);
  }

  // --- Through the bridge ----------------------------------------------------------------

  /** `_response_write_timeout` and `_response_transfer_timeout`. */
  function TransferTimeout(size: nat): (r: real)
    ensures TRANSFER_BASE <= r <= TRANSFER_MAX
  {
    Least(TRANSFER_MAX, TRANSFER_BASE + size as real / BYTES_PER_SECOND)
  }

  /** What the bridge does before it can publish a header: authenticate, read the request,
      connect, send, wait for the daemon's header, buffer the whole response. */
  datatype Hop = Hop(preface: Duration, frame: Duration, connect: Duration, send: Duration, wait: Duration,
                     size: nat, transfer: Duration)

  function BridgeFirstByte(waiter: real, h: Hop): real {
    Least(h.preface, AUTH_PREFACE_TIMEOUT) + Least(h.frame, CLIENT_IO_TIMEOUT) +
    Least(h.connect, UPSTREAM_CONTROL_TIMEOUT) + h.send +
    Least(h.wait, HeaderBudget(waiter)) + Least(h.transfer, TransferTimeout(h.size))
  }

  function BridgedBudget(waiter: real): real {
    HeaderBudget(waiter) + BRIDGE_SETUP_ALLOWANCE + TRANSFER_MAX
  }

  ghost predicate OutwaitsBridge(bridge: real, client: real, send: Duration) {
    forall h: Hop | h.send <= send :: BridgeFirstByte(bridge, h) <= BridgedBudget(client)
  }

  /** The client outwaits the bridge, its wait for the daemon and the longest transfer,
      exactly when sending the request on takes at most one second more than the two
      execution budgets differ. */
  lemma BridgeNestingExactly(bridge: real, client: real, send: Duration)
    requires bridge >= 1.0
    ensures OutwaitsBridge(bridge, client, send) <==> bridge + send <= client + 1.0
  {
    if bridge + send > client + 1.0 {
      var h := Hop(1.0, 15.0, 15.0, send, HeaderBudget(bridge), 267386880, TRANSFER_MAX);
      assert TransferTimeout(h.size) == TRANSFER_MAX;
      assert BridgeFirstByte(bridge, h) > BridgedBudget(client);
    }
  }

  /** A stated timeout means the same wait to the client and to the bridge. */
  lemma BridgeWaitsAsLong(t: Timeout, fallback: real)
    requires Plausible(t) && ServerTimeout(t).Some? && !t.Absent?
    ensures WaiterTimeout(t, QUERY_TIMEOUT as real) == WaiterTimeout(t, fallback)
    ensures OutwaitsBridge(WaiterTimeout(t, QUERY_TIMEOUT as real), WaiterTimeout(t, fallback), 1.0)
  {
    BridgeNestingExactly(WaiterTimeout(t, QUERY_TIMEOUT as real), WaiterTimeout(t, fallback), 1.0);
  }

  // --- Health probes -----------------------------------------------------------------------

  /** `healthcheck`: probe, and if the connection is sick recover under the same deadline.
      Nothing is retried afterwards. */
  function ProbeFirstByte(d: Delays, f: Fate): real {
    var start := Least(d.frame, CLIENT_IO_TIMEOUT);
    var deadline := start + HEALTHCHECK_TIMEOUT + RECOVERY_GRACE;
    var timeout := S.AttemptTimeout(deadline, start, S.QUERY_TIMEOUT_SECONDS);
    if timeout.None? then start
    else
      var t := Spend(start, d.first, timeout.value);
      if f.first.Good? then t else Recovered(1.0, deadline, t, d.(second := 0.0), f).at
  }

  lemma SlowestProbe(d: Delays, f: Fate)
    ensures ProbeFirstByte(d, f) <= Least(d.frame, CLIENT_IO_TIMEOUT) + 180.0 + Untimed(d)
  {
    var start := Least(d.frame, CLIENT_IO_TIMEOUT);
    assert S.AttemptTimeout(start + 120.0, start, S.QUERY_TIMEOUT_SECONDS) == Some(120.0);
    RecoveredInTime(1.0, start + 120.0, Spend(start, d.first, 120.0), d.(second := 0.0), f);
  }

  lemma SlowestProbeIsAttained(frame: Duration, u: Duration)
    requires frame <= CLIENT_IO_TIMEOUT
    ensures ProbeFirstByte(SlowestDelays(60.0, u).(frame := frame), SlowestFate) == frame + 180.0 + u
  {
    assert S.AttemptTimeout(frame + 120.0, frame, S.QUERY_TIMEOUT_SECONDS) == Some(120.0);
    assert S.AttemptTimeout(frame + 120.0, frame + 60.0, 60.0) == Some(60.0);
    var connected := frame + 120.0 + u;
    assert S.AttemptTimeout(connected + RECOVERY_GRACE, connected, S.QUERY_TIMEOUT_SECONDS) == Some(60.0);
  }

  ghost predicate WatchdogOutwaits(frame: Duration, u: Duration) {
    forall d: Delays, f: Fate | d.frame <= frame && Untimed(d) <= u :: ProbeFirstByte(d, f) <= PROBE_TIMEOUT
  }

  /** The watchdog's 180 seconds leave a recovering probe no slack at all: they suffice
      exactly when the request arrives at once and nothing without a timeout takes time. */
  lemma ProbeNestingExactly(frame: Duration, u: Duration)
    requires frame <= CLIENT_IO_TIMEOUT
    ensures WatchdogOutwaits(frame, u) <==> frame + u <= 0.0
  {
    if frame + u > 0.0 {
      SlowestProbeIsAttained(frame, u);
      assert Untimed(SlowestDelays(60.0, u).(frame := frame)) == u;
    } else {
      forall d: Delays, f: Fate | d.frame <= frame && Untimed(d) <= u
        ensures ProbeFirstByte(d, f) <= PROBE_TIMEOUT
      {
        SlowestProbe(d, f);
      }
    }
  }

  // --- The deadline and the one login --------------------------------------------------------

  /** Some timeline whose disposal takes `dispose` spends its login at `at`. */
  ghost predicate CanLoginAt(e: real, start: real, dispose: Duration, at: real)
    requires e >= 1.0
  {
    exists d: Delays, f: Fate :: d.dispose == dispose && Command(e, start, d, f).login == Some(at)
  }

  /** Whatever branches a command takes, its login falls into the window in which the
      daemon's recovery may compute a connect budget, moved by the time disposal takes. */
  lemma LoginInWindow(e: real, start: real, d: Delays, f: Fate)
    requires e >= 1.0 && Command(e, start, d, f).login.Some?
    ensures S.MayConnect(start, start + e + RECOVERY_GRACE, Command(e, start, d, f).login.value - d.dispose)
  {
    FirstTimeout(e, start);
    var t := Spend(start, d.first, e);
    assert Command(e, start, d, f) == Recovered(e, start + e + RECOVERY_GRACE, t, d, f);
  }

  /** Main result: a command can log in at exactly the moments of that window, which ends
      one second before its deadline; nothing but the disposal can move a login past that. */
  lemma LoginWindowExactly(e: real, start: real, dispose: Duration, at: real)
    requires e >= 1.0
    ensures CanLoginAt(e, start, dispose, at) <==> S.MayConnect(start, start + e + RECOVERY_GRACE, at - dispose)
  {
    if S.MayConnect(start, start + e + RECOVERY_GRACE, at - dispose) {
      var d := Delays(0.0, 0.0, 0.0, at - dispose - start, 0.0, dispose, 0.0, 0.0, 0.0, 0.0, 0.0);
      FirstTimeout(e, start);
      assert Command(e, start, d, SlowestFate) == Recovered(e, start + e + RECOVERY_GRACE, start, d, SlowestFate);
      assert Command(e, start, d, SlowestFate).login == Some(at);
    } else if CanLoginAt(e, start, dispose, at) {
      var d: Delays, f: Fate :| d.dispose == dispose && Command(e, start, d, f).login == Some(at);
      LoginInWindow(e, start, d, f);
    }
  }

  ghost predicate NeverLoginsLate(dispose: Duration) {
    forall e: real, start: real, at: real | e >= 1.0 ::
      CanLoginAt(e, start, dispose, at) ==> at <= start + e + RECOVERY_GRACE
  }

  /** No command logs in after its own deadline exactly when disposal takes at most one second. */
  lemma LateLoginExactly(dispose: Duration)
    ensures NeverLoginsLate(dispose) <==> dispose <= 1.0
  {
    if dispose > 1.0 {
      LoginWindowExactly(1.0, 0.0, dispose, 60.0 + dispose);
    } else {
      forall e: real, start: real, at: real | e >= 1.0 && CanLoginAt(e, start, dispose, at)
        ensures at <= start + e + RECOVERY_GRACE
      {
        LoginWindowExactly(e, start, dispose, at);
      }
    }
  }
}
