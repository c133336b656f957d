/**
 The launcher-side watchdog: what each probe of the daemon makes it do, and what its
 repairs amount to over any sequence of probes and repair outcomes.
 */
module Watchdog {
  import opened Basics

  const WEDGE_SECONDS := 600.0
  const SATURATION_WEDGE_SECONDS := 1200.0
  const RESTART_BACKOFF_SECONDS := 300.0
  const MAX_FAILED_RESTARTS := 3
  const IDLE_EXIT_SECONDS := 600.0
  const LONG_AGO := -1000000000000000000.0

  datatype Kind = Healthy | Saturated | LoginInProgress | Latched | Unhealthy | Down | Incompatible

  datatype Action = Restart | StopRestart | ReplaceIncompatible

  datatype Published = Monitoring | Healing | OperatorRequired

  datatype Memory = Memory(
    unhealthySince: Option<real>, saturatedSince: Option<real>, lastRestart: Option<real>,
    failedRestarts: int, failedKind: Option<Kind>, failedEpoch: int)

  const Fresh := Memory(None, None, None, 0, None, 0)

  /** What a repair meets: changed project code, whether the wedged daemon stops, how each
      provably orphaned older daemon answers the stop (none: not provable), whether
      `start_services` succeeds, and whether a failed start left no login outcome. */
  datatype Repair = Repair(changed: bool, stops: bool, orphanStops: seq<bool>, starts: bool, noLoginOutcome: bool)

  datatype Probe = Probe(kind: Kind, autoRelogin: bool, launchEpoch: int, repair: Repair)

  /** One pass of the loop; no probe when no live launcher needs the daemon. */
  datatype Tick = Tick(now: real, probe: Option<Probe>)

  // --- One decision ----------------------------------------------------------------

  datatype Decision = Decision(action: Option<Action>, state: Published, memory: Memory)

  /** `memory.get('last_restart') or -1e18`: a restart at time 0.0 reads as none. */
  function BackoffLeft(m: Memory, now: real): real {
    (if m.lastRestart.Some? && m.lastRestart.value != 0.0 then m.lastRestart.value else LONG_AGO)
    + RESTART_BACKOFF_SECONDS - now
  }

  /** Only a newer launch, or the end of an incompatible daemon, lifts a reached cap. */
  predicate Rearms(m: Memory, kind: Kind, launchEpoch: int) {
    m.failedRestarts >= MAX_FAILED_RESTARTS &&
    (launchEpoch > m.failedEpoch || (m.failedKind == Some(Incompatible) && !kind.Incompatible?))
  }

  function Rearmed(m: Memory, kind: Kind, launchEpoch: int): Memory {
    if Rearms(m, kind, launchEpoch) then m.(failedRestarts := 0) else m
  }

  function Decided(m: Memory, p: Probe, now: real): Decision {
    match p.kind
    case Healthy => Decision(None, Monitoring, m.(unhealthySince := None, saturatedSince := None, failedRestarts := 0))
    case LoginInProgress => Decision(None, Healing, m.(unhealthySince := None, saturatedSince := None))
    case Latched => Decision(None, OperatorRequired, m.(unhealthySince := None, saturatedSince := None))
    case Saturated =>
      var since := if m.saturatedSince.Some? then m.saturatedSince.value else now;
      if now - since < SATURATION_WEDGE_SECONDS then
        Decision(None, Monitoring, m.(unhealthySince := None, saturatedSince := Some(since)))
      else
        Repaired(m.(unhealthySince := Some(now - WEDGE_SECONDS), saturatedSince := Some(since)),
                 Unhealthy, p.autoRelogin, p.launchEpoch, now)
    case _ => Repaired(m.(saturatedSince := None), p.kind, p.autoRelogin, p.launchEpoch, now)
  }

  /** The second half of `decide`: the daemon is gone, wedged or of an older release. */
  function Repaired(m0: Memory, kind: Kind, autoRelogin: bool, launchEpoch: int, now: real): Decision {
    var m := Rearmed(m0, kind, launchEpoch);
    if m.failedRestarts >= MAX_FAILED_RESTARTS || !autoRelogin then Decision(None, OperatorRequired, m)
    else if kind.Unhealthy? then
      var since := if m.unhealthySince.Some? then m.unhealthySince.value else now;
      Decision(if now - since < WEDGE_SECONDS || BackoffLeft(m, now) > 0.0 then None else Some(StopRestart),
               Healing, m.(unhealthySince := Some(since)))
    else
      Decision(if BackoffLeft(m, now) > 0.0 then None else Some(if kind.Down? then Restart else ReplaceIncompatible),
               Healing, m)
  }

  // --- One repair ------------------------------------------------------------------

  function Failed(m: Memory, p: Probe, terminal: bool): Memory {
    m.(failedKind := Some(p.kind), failedEpoch := p.launchEpoch,
       failedRestarts := if terminal then MAX_FAILED_RESTARTS else m.failedRestarts + 1)
  }

  /** Whether the repair gets as far as running `start_services`. */
  predicate Reaches(action: Action, r: Repair) {
    !r.changed && match action
      case Restart => true
      case StopRestart => r.stops
      case ReplaceIncompatible => r.orphanStops != [] && false !in r.orphanStops
  }

  function Performed(m: Memory, action: Action, p: Probe, now: real): Memory {
    var r := p.repair;
    if Reaches(action, r) then
      var started := m.(lastRestart := Some(now), unhealthySince := None, saturatedSince := None);
      if r.starts then started.(failedRestarts := 0)
      else if r.noLoginOutcome then Failed(started, p, false) else started
    else if action.StopRestart? && !r.changed then Failed(m.(lastRestart := Some(now)), p, false)
    else Failed(m, p, true)
  }

  function Stepped(m: Memory, t: Tick): Memory {
    if t.probe.None? then m
    else
      var d := Decided(m, t.probe.value, t.now);
      if d.action.None? then d.memory else Performed(d.memory, d.action.value, t.probe.value, t.now)
  }

  /** The probe makes the watchdog run `start_services`. */
  predicate Starts(m: Memory, p: Probe, now: real) {
    var d := Decided(m, p, now);
    d.action.Some? && Reaches(d.action.value, p.repair)
  }

  // --- The watchdog itself -----------------------------------------------------------

  /** The loop's `memory`, field by field. */
  class Monitor {
    var unhealthySince: Option<real>
    var saturatedSince: Option<real>
    var lastRestart: Option<real>
    var failedRestarts: int
    var failedKind: Option<Kind>
    var failedEpoch: int

    function Recall(): Memory
      reads this
    {
      Memory(unhealthySince, saturatedSince, lastRestart, failedRestarts, failedKind, failedEpoch)
    }

    constructor ()
      ensures Recall() == Fresh
    {
      unhealthySince, saturatedSince, lastRestart := None, None, None;
      failedRestarts, failedKind, failedEpoch := 0, None, 0;
    }

    method Decide(p: Probe, now: real) returns (action: Option<Action>, state: Published)
      modifies this
      ensures Decision(action, state, Recall()) == Decided(old(Recall()), p, now)
    {
      var kind := p.kind;
      if kind.Healthy? {
        unhealthySince, saturatedSince, failedRestarts := None, None, 0;
        return None, Monitoring;
      }
      if kind.Saturated? {
        unhealthySince := None;
        if saturatedSince.None? {
          saturatedSince := Some(now);
        }
        if now - saturatedSince.value < SATURATION_WEDGE_SECONDS {
          return None, Monitoring;
        }
        kind := Unhealthy;
        unhealthySince := Some(now - WEDGE_SECONDS);
      } else {
        saturatedSince := None;
      }
      if kind.LoginInProgress? || kind.Latched? {
        unhealthySince := None;
        return None, if kind.Latched? then OperatorRequired else Healing;
      }
      if failedRestarts >= MAX_FAILED_RESTARTS &&
         (p.launchEpoch > failedEpoch || (failedKind == Some(Incompatible) && !kind.Incompatible?))
      {
        failedRestarts := 0;
      }
      if failedRestarts >= MAX_FAILED_RESTARTS || !p.autoRelogin {
        return None, OperatorRequired;
      }
      var backoffLeft := BackoffLeft(Recall(), now);
      if kind.Unhealthy? {
        if unhealthySince.None? {
          unhealthySince := Some(now);
        }
        var wait := now - unhealthySince.value < WEDGE_SECONDS || backoffLeft > 0.0;
        return if wait then None else Some(StopRestart), Healing;
      }
      if backoffLeft > 0.0 {
        return None, Healing;
      }
      return Some(if kind.Down? then Restart else ReplaceIncompatible), Healing;
    }

    method Fail(kind: Kind, launchEpoch: int, terminal: bool)
      modifies this`failedKind, this`failedEpoch, this`failedRestarts
      ensures failedKind == Some(kind) && failedEpoch == launchEpoch
      ensures failedRestarts == if terminal then MAX_FAILED_RESTARTS else old(failedRestarts) + 1
    {
      failedKind, failedEpoch := Some(kind), launchEpoch;
      failedRestarts := if terminal then MAX_FAILED_RESTARTS else failedRestarts + 1;
    }

    method Perform(action: Action, p: Probe, now: real) returns (started: bool)
      modifies this
      ensures Recall() == Performed(old(Recall()), action, p, now)
      ensures started <==> Reaches(action, p.repair)
    {
      started := false;
      if p.repair.changed {
        Fail(p.kind, p.launchEpoch, true);
        return;
      }
      if action.StopRestart? {
        if !p.repair.stops {
          lastRestart := Some(now);
          Fail(p.kind, p.launchEpoch, false);
          return;
        }
      } else if action.ReplaceIncompatible? {
        if p.repair.orphanStops == [] {
          Fail(p.kind, p.launchEpoch, true);
          return;
        }
        var i := 0;
        while i < |p.repair.orphanStops|
          invariant 0 <= i <= |p.repair.orphanStops| && false !in p.repair.orphanStops[..i]
          invariant Recall() == old(Recall())
        {
          if !p.repair.orphanStops[i] {
            Fail(p.kind, p.launchEpoch, true);
            return;
          }
          i := i + 1;
        }
        assert p.repair.orphanStops == p.repair.orphanStops[..i];
      }
      lastRestart, unhealthySince, saturatedSince := Some(now), None, None;
      started := true;
      if p.repair.starts {
        failedRestarts := 0;
      } else if p.repair.noLoginOutcome {
        Fail(p.kind, p.launchEpoch, false);
      }
    }

    /** One probed pass of the loop. */
    method Handle(p: Probe, now: real) returns (started: bool)
      modifies this
      ensures Recall() == Stepped(old(Recall()), Tick(now, Some(p)))
      ensures started <==> Starts(old(Recall()), p, now)
    {
      hide Decided, Performed, Reaches;
      var action, state := Decide(p, now);
      started := false;
      if action.Some? {
        started := Perform(action.value, p, now);
      }
    }

    /** The loop, until the ticks end or no launcher has needed the daemon for a whole
        idle period. `starts` lists the ticks that ran `start_services`. */
    method Run(ticks: seq<Tick>) returns (handled: nat, exited: bool, starts: seq<nat>)
      requires Recall() == Fresh
      modifies this
      ensures handled <= |ticks| && Recall() == After(ticks, handled)
      ensures forall n: nat :: n in starts <==> n < handled && StartsAt(ticks, n)
      ensures exited <==> handled > 0 && IdleFor(ticks, handled - 1)
      ensures forall n | 0 <= n < handled - 1 :: !IdleFor(ticks, n)
      ensures !exited ==> handled == |ticks|
    {
      hide Stepped, Starts;
      var idleSince: Option<nat> := None;
      handled, exited, starts := 0, false, [];
      while handled < |ticks|
        invariant 0 <= handled <= |ticks| && Recall() == After(ticks, handled)
        invariant forall n: nat :: n in starts <==> n < handled && StartsAt(ticks, n)
        invariant idleSince == IdleSince(ticks, handled) && !exited
        invariant forall n | 0 <= n < handled :: !IdleFor(ticks, n)
      {
        var now := ticks[handled].now;
        if ticks[handled].probe.None? {
          IdleStep(After(ticks, handled), ticks[handled]);
          if idleSince.None? {
            idleSince := Some(handled);
          }
          handled := handled + 1;
          if now - ticks[idleSince.value].now >= IDLE_EXIT_SECONDS {
            return handled, true, starts;
          }
        } else {
          idleSince := None;
          var started := Handle(ticks[handled].probe.value, now);
          assert ticks[handled] == Tick(now, Some(ticks[handled].probe.value));
          if started {
            starts := starts + [handled];
          }
          handled := handled + 1;
        }
      }
    }
  }

  lemma IdleStep(m: Memory, t: Tick)
    requires t.probe.None?
    ensures Stepped(m, t) == m
  {
  }

  /** The tick at which the present idle period began. */
  ghost function IdleSince(ticks: seq<Tick>, n: nat): (r: Option<nat>)
    requires n <= |ticks|
    ensures r.Some? ==> r.value < n && forall i | r.value <= i < n :: ticks[i].probe.None?
    ensures r.Some? && r.value > 0 ==> ticks[r.value - 1].probe.Some?
    ensures r.None? ==> n == 0 || ticks[n - 1].probe.Some?
  {
    if n == 0 || ticks[n - 1].probe.Some? then None
    else if IdleSince(ticks, n - 1).Some? then IdleSince(ticks, n - 1) else Some(n - 1)
  }

  ghost predicate IdleFor(ticks: seq<Tick>, n: nat)
    requires n < |ticks|
  {
    var since := IdleSince(ticks, n + 1);
    since.Some? && ticks[n].now - ticks[since.value].now >= IDLE_EXIT_SECONDS
  }

  // --- Runs ------------------------------------------------------------------------

  function After(ticks: seq<Tick>, n: nat): Memory
    requires n <= |ticks|
  {
    if n == 0 then Fresh else Stepped(After(ticks, n - 1), ticks[n - 1])
  }

  function ActionAt(ticks: seq<Tick>, n: nat): Option<Action>
    requires n < |ticks|
  {
    if ticks[n].probe.None? then None else Decided(After(ticks, n), ticks[n].probe.value, ticks[n].now).action
  }

  /** Tick n runs `start_services`. */
  predicate StartsAt(ticks: seq<Tick>, n: nat)
    requires n < |ticks|
  {
    ticks[n].probe.Some? && Starts(After(ticks, n), ticks[n].probe.value, ticks[n].now)
  }

  /** Tick n is a repair that counts toward the cap. */
  predicate CountsAt(ticks: seq<Tick>, n: nat)
    requires n < |ticks|
  {
    ActionAt(ticks, n).Some? && Counts(ActionAt(ticks, n).value, ticks[n].probe.value.repair)
  }

  function Counted(ticks: seq<Tick>, i: nat, j: nat): nat
    requires i <= j <= |ticks|
  {
    if i == j then 0 else Counted(ticks, i, j - 1) + if CountsAt(ticks, j - 1) then 1 else 0
  }

  /** The last counted failure before tick n. */
  function LastCounted(ticks: seq<Tick>, n: nat): (r: Option<nat>)
    requires n <= |ticks|
    ensures r.Some? ==> r.value < n && CountsAt(ticks, r.value)
  {
    if n == 0 then None else if CountsAt(ticks, n - 1) then Some(n - 1) else LastCounted(ticks, n - 1)
  }

  predicate Probed(ticks: seq<Tick>, n: nat, kind: Kind)
    requires n < |ticks|
  {
    ticks[n].probe.Some? && ticks[n].probe.value.kind == kind
  }

  /** A healthy probe, a successful start, a launch newer than the last failure's, or an
      incompatible daemon that blocked the last repair and is now gone. */
  predicate ClearsAt(ticks: seq<Tick>, n: nat)
    requires n < |ticks|
  {
    && ticks[n].probe.Some?
    && var p := ticks[n].probe.value;
       var last := LastCounted(ticks, n);
       || p.kind.Healthy?
       || (StartsAt(ticks, n) && p.repair.starts)
       || (last.Some? && (p.launchEpoch > ticks[last.value].probe.value.launchEpoch ||
                          (Probed(ticks, last.value, Incompatible) && !p.kind.Incompatible?)))
  }

  ghost predicate Ordered(ticks: seq<Tick>) {
    && (forall i | 0 <= i < |ticks| :: ticks[i].now >= 0.0)
    && (forall i, j | 0 <= i <= j < |ticks| :: ticks[i].now <= ticks[j].now)
  }

  // --- The repair cap ----------------------------------------------------------------

  /** A decision leaves the last failure as it is, and clears the count on a healthy probe or
      when the cap is lifted; it repairs only below the cap. */
  lemma DecidedCounts(m: Memory, p: Probe, now: real)
    requires 0 <= m.failedRestarts <= MAX_FAILED_RESTARTS
    ensures var d := Decided(m, p, now);
      && d.memory.failedKind == m.failedKind && d.memory.failedEpoch == m.failedEpoch
      && (d.memory.failedRestarts == m.failedRestarts ||
          (d.memory.failedRestarts == 0 && (p.kind.Healthy? || Rearms(m, Judged(p.kind), p.launchEpoch))))
      && (d.action.Some? ==> d.memory.failedRestarts < MAX_FAILED_RESTARTS)
  {
  }

  predicate Counts(action: Action, r: Repair) {
    !Reaches(action, r) || (!r.starts && r.noLoginOutcome)
  }

  lemma PerformedCounts(m: Memory, action: Action, p: Probe, now: real)
    requires 0 <= m.failedRestarts < MAX_FAILED_RESTARTS
    ensures var (m', r) := (Performed(m, action, p, now), p.repair);
      && 0 <= m'.failedRestarts <= MAX_FAILED_RESTARTS
      && (if Counts(action, r) then m'.failedKind == Some(p.kind) && m'.failedEpoch == p.launchEpoch
          else m'.failedKind == m.failedKind && m'.failedEpoch == m.failedEpoch)
      && (m'.failedRestarts >= m.failedRestarts + (if Counts(action, r) then 1 else 0)
          || (Reaches(action, r) && r.starts))
  {
  }

  lemma StepCounts(ticks: seq<Tick>, n: nat)
    requires n < |ticks| && 0 <= After(ticks, n).failedRestarts <= MAX_FAILED_RESTARTS
    ensures var (m, m') := (After(ticks, n), After(ticks, n + 1));
      && 0 <= m'.failedRestarts <= MAX_FAILED_RESTARTS
      && (CountsAt(ticks, n) ==> m'.failedKind == Some(ticks[n].probe.value.kind) &&
                                 m'.failedEpoch == ticks[n].probe.value.launchEpoch)
      && (!CountsAt(ticks, n) ==> m'.failedKind == m.failedKind && m'.failedEpoch == m.failedEpoch)
      && (m'.failedRestarts >= m.failedRestarts + (if CountsAt(ticks, n) then 1 else 0)
          || (ticks[n].probe.Some? &&
              var p := ticks[n].probe.value;
              (p.kind.Healthy? || (StartsAt(ticks, n) && p.repair.starts) || Rearms(m, Judged(p.kind), p.launchEpoch))))
  {
    hide Decided, Performed, Rearms, Reaches;
    var (m, t) := (After(ticks, n), ticks[n]);
    if t.probe.Some? {
      var p := t.probe.value;
      DecidedCounts(m, p, t.now);
      var d := Decided(m, p, t.now);
      if d.action.Some? {
        PerformedCounts(d.memory, d.action.value, p, t.now);
      }
    }
  }

  /** `decide` treats a long saturation as an unhealthy daemon. */
  function Judged(kind: Kind): Kind {
    if kind.Saturated? then Unhealthy else kind
  }

  lemma {:induction false} LastCountedKept(ticks: seq<Tick>, n: nat)
    requires n <= |ticks|
    ensures 0 <= After(ticks, n).failedRestarts <= MAX_FAILED_RESTARTS
    ensures var (m, last) := (After(ticks, n), LastCounted(ticks, n));
      && (last.None? ==> m.failedRestarts == 0 && m.failedKind.None?)
      && (last.Some? ==> m.failedKind == Some(ticks[last.value].probe.value.kind) &&
                         m.failedEpoch == ticks[last.value].probe.value.launchEpoch)
  {
    if n > 0 {
      LastCountedKept(ticks, n - 1);
      StepCounts(ticks, n - 1);
    }
  }

  /** Main result: between two clearing events at most three failed repairs count, and
      the counter never leaves 0..3. */
  lemma {:induction false} RepairCap(ticks: seq<Tick>, i: nat, j: nat)
    requires i <= j <= |ticks|
    requires forall n | i <= n < j :: !ClearsAt(ticks, n)
    ensures 0 <= After(ticks, j).failedRestarts <= MAX_FAILED_RESTARTS
    ensures After(ticks, i).failedRestarts + Counted(ticks, i, j) <= After(ticks, j).failedRestarts
    ensures Counted(ticks, i, j) <= MAX_FAILED_RESTARTS
    decreases j
  {
    hide Stepped, Reaches, Starts, Decided;
    LastCountedKept(ticks, i);
    LastCountedKept(ticks, j);
    if i < j {
      RepairCap(ticks, i, j - 1);
      LastCountedKept(ticks, j - 1);
      StepCounts(ticks, j - 1);
      assert !ClearsAt(ticks, j - 1);
    }
  }

  /** Once the cap is reached, nothing is repaired until a clearing event. */
  lemma CappedStays(ticks: seq<Tick>, i: nat, n: nat)
    requires i <= n < |ticks| && After(ticks, i).failedRestarts == MAX_FAILED_RESTARTS
    requires forall k | i <= k <= n :: !ClearsAt(ticks, k)
    ensures ActionAt(ticks, n).None?
  {
    RepairCap(ticks, i, n);
    LastCountedKept(ticks, n);
    assert !ClearsAt(ticks, n);
  }

  /** No repair on a latched, mid-login or healthy probe, under a veto, or while idle. */
  lemma BarredTicks(ticks: seq<Tick>, n: nat)
    requires n < |ticks| && ActionAt(ticks, n).Some?
    ensures ticks[n].probe.Some? && ticks[n].probe.value.autoRelogin
    ensures !Spares(ticks[n].probe.value.kind)
  {
  }

  // --- The wedge rule ----------------------------------------------------------------

  predicate Spares(kind: Kind) {
    kind.Healthy? || kind.Latched? || kind.LoginInProgress?
  }

  predicate SparedAt(ticks: seq<Tick>, n: nat)
    requires n < |ticks|
  {
    ticks[n].probe.Some? && Spares(ticks[n].probe.value.kind)
  }

  /** Both wedge clocks, if they run, were started no earlier than this. */
  predicate ClocksFrom(m: Memory, earliest: real) {
    && (m.unhealthySince.Some? ==> m.unhealthySince.value >= earliest)
    && (m.saturatedSince.Some? ==> m.saturatedSince.value >= earliest)
  }

  lemma ClockStep(m: Memory, t: Tick, earliest: real)
    requires earliest <= t.now
    requires ClocksFrom(m, earliest) || (t.probe.Some? && Spares(t.probe.value.kind))
    ensures ClocksFrom(Stepped(m, t), earliest)
  {
    hide Rearms, BackoffLeft, Reaches;
  }

  /** No clock was started before the last probe that spared the daemon. */
  lemma {:induction false} ClocksAfterSpared(ticks: seq<Tick>, n: nat, k: nat)
    requires Ordered(ticks) && k < n <= |ticks| && SparedAt(ticks, k)
    ensures ClocksFrom(After(ticks, n), ticks[k].now)
    decreases n
  {
    if k < n - 1 {
      ClocksAfterSpared(ticks, n - 1, k);
    }
    ClockStep(After(ticks, n - 1), ticks[n - 1], ticks[k].now);
  }

  /** Main result: the live daemon is stopped only when no probe of the last 600 seconds
      was healthy, latched or mid-login, whatever else was mixed in. */
  lemma WedgeRule(ticks: seq<Tick>, n: nat)
    requires Ordered(ticks) && n < |ticks| && ActionAt(ticks, n) == Some(StopRestart)
    ensures forall k | 0 <= k <= n && ticks[k].now > ticks[n].now - WEDGE_SECONDS :: !SparedAt(ticks, k)
  {
    forall k: nat | k < n && SparedAt(ticks, k)
      ensures ticks[k].now <= ticks[n].now - WEDGE_SECONDS
    {
      ClocksAfterSpared(ticks, n, k);
    }
  }

  /** Tick n is allowed to repair: no veto, no cap. */
  predicate MayRepair(ticks: seq<Tick>, n: nat)
    requires n < |ticks|
  {
    && ticks[n].probe.Some? && ticks[n].probe.value.autoRelogin
    && (After(ticks, n).failedRestarts < MAX_FAILED_RESTARTS ||
        Rearms(After(ticks, n), Judged(ticks[n].probe.value.kind), ticks[n].probe.value.launchEpoch))
  }

  /** Unanswered by anything but unhealthy probes, and not restarted, since tick i. */
  lemma {:induction false} ClockKeepsRunning(ticks: seq<Tick>, i: nat, n: nat)
    requires Ordered(ticks) && i < n <= |ticks| && MayRepair(ticks, i)
    requires forall k | i <= k < n :: Probed(ticks, k, Unhealthy) && !StartsAt(ticks, k)
    ensures After(ticks, n).unhealthySince.Some? && After(ticks, n).unhealthySince.value <= ticks[i].now
    ensures After(ticks, n).saturatedSince.None?
    decreases n
  {
    assert Probed(ticks, n - 1, Unhealthy) && !StartsAt(ticks, n - 1);
    if i < n - 1 {
      ClockKeepsRunning(ticks, i, n - 1);
    } else {
      UnhealthyClock(ticks, i);
    }
  }

  predicate ClocksUntil(m: Memory, latest: real) {
    && (m.unhealthySince.Some? ==> m.unhealthySince.value <= latest)
    && (m.saturatedSince.Some? ==> m.saturatedSince.value <= latest)
  }

  lemma ClockNotAhead(m: Memory, t: Tick)
    requires ClocksUntil(m, t.now)
    ensures ClocksUntil(Stepped(m, t), t.now)
  {
    hide Rearms, BackoffLeft, Reaches;
  }

  /** No clock runs ahead of the ticks. */
  lemma {:induction false} UnhealthyClock(ticks: seq<Tick>, n: nat)
    requires Ordered(ticks) && n < |ticks|
    ensures ClocksUntil(After(ticks, n), ticks[n].now)
    decreases n
  {
    if n > 0 {
      UnhealthyClock(ticks, n - 1);
      ClockNotAhead(After(ticks, n - 1), ticks[n - 1]);
    }
  }

  /** The other direction: a daemon unhealthy for 600 seconds on end is restarted, as soon
      as the backoff allows. */
  lemma WedgeIsRepaired(ticks: seq<Tick>, i: nat, n: nat)
    requires Ordered(ticks) && i < n < |ticks| && MayRepair(ticks, i) && MayRepair(ticks, n)
    requires forall k | i <= k <= n :: Probed(ticks, k, Unhealthy)
    requires forall k | i <= k < n :: !StartsAt(ticks, k)
    requires ticks[n].now - ticks[i].now >= WEDGE_SECONDS
    ensures ActionAt(ticks, n) == Some(StopRestart) <==> BackoffLeft(After(ticks, n), ticks[n].now) <= 0.0
  {
    ClockKeepsRunning(ticks, i, n);
    assert Probed(ticks, n, Unhealthy);
  }

  /** Saturation alone for 1200 seconds counts as a wedge too, and not before. */
  lemma {:induction false} SaturationClock(ticks: seq<Tick>, i: nat, n: nat)
    requires Ordered(ticks) && i < n <= |ticks|
    requires i == 0 || Probed(ticks, i - 1, Healthy)
    requires forall k | i <= k < n :: Probed(ticks, k, Saturated) && !StartsAt(ticks, k)
    ensures After(ticks, n).saturatedSince == Some(ticks[i].now)
    decreases n
  {
    assert Probed(ticks, n - 1, Saturated) && !StartsAt(ticks, n - 1);
    if i < n - 1 {
      SaturationClock(ticks, i, n - 1);
    }
  }

  lemma SaturationIsRepaired(ticks: seq<Tick>, i: nat, n: nat)
    requires Ordered(ticks) && i < n < |ticks| && MayRepair(ticks, n)
    requires i == 0 || Probed(ticks, i - 1, Healthy)
    requires forall k | i <= k <= n :: Probed(ticks, k, Saturated)
    requires forall k | i <= k < n :: !StartsAt(ticks, k)
    ensures ActionAt(ticks, n) == Some(StopRestart) <==>
      ticks[n].now - ticks[i].now >= SATURATION_WEDGE_SECONDS && BackoffLeft(After(ticks, n), ticks[n].now) <= 0.0
  {
    SaturationClock(ticks, i, n);
    assert Probed(ticks, n, Saturated);
  }

  // --- What each probe leads to ----------------------------------------------------------

  /** Who may repair: below the cap anyone whose operator allows it; at the cap only a launch
      newer than the last counted failure, or anyone once an incompatible daemon that
      caused it is gone. */
  lemma MayRepairExactly(ticks: seq<Tick>, n: nat)
    requires n < |ticks| && ticks[n].probe.Some?
    ensures var (p, last) := (ticks[n].probe.value, LastCounted(ticks, n));
      MayRepair(ticks, n) <==>
        && p.autoRelogin
        && (|| After(ticks, n).failedRestarts < 3
            || (last.Some? && (|| p.launchEpoch > ticks[last.value].probe.value.launchEpoch
                               || (Probed(ticks, last.value, Incompatible) && !p.kind.Incompatible?))))
  {
    LastCountedKept(ticks, n);
  }

  /** The operator is asked for exactly on a latched daemon, and on one that needs a repair
      which the watchdog may not make. */
  lemma OperatorExactly(ticks: seq<Tick>, n: nat)
    requires n < |ticks| && ticks[n].probe.Some?
    ensures var (p, m) := (ticks[n].probe.value, After(ticks, n));
      Decided(m, p, ticks[n].now).state.OperatorRequired? <==>
        || p.kind.Latched?
        || ((p.kind.Down? || p.kind.Unhealthy? || p.kind.Incompatible? ||
             (p.kind.Saturated? && m.saturatedSince.Some? && ticks[n].now - m.saturatedSince.value >= 1200.0))
            && !MayRepair(ticks, n))
  {
  }

  /** A dead daemon is started, and one of another release replaced, as soon as the backoff
      has passed, and not before. */
  lemma DownIsRestarted(ticks: seq<Tick>, n: nat)
    requires n < |ticks| && Probed(ticks, n, Down) && MayRepair(ticks, n)
    ensures ActionAt(ticks, n) ==
      if BackoffLeft(After(ticks, n), ticks[n].now) <= 0.0 then Some(Restart) else None
  {
  }

  lemma IncompatibleIsReplaced(ticks: seq<Tick>, n: nat)
    requires n < |ticks| && Probed(ticks, n, Incompatible) && MayRepair(ticks, n)
    ensures ActionAt(ticks, n) ==
      if BackoffLeft(After(ticks, n), ticks[n].now) <= 0.0 then Some(ReplaceIncompatible) else None
  {
  }

  /** Conversely, each action comes only on the probes it is meant for. */
  lemma ActionsFit(ticks: seq<Tick>, n: nat)
    requires n < |ticks| && ActionAt(ticks, n).Some?
    ensures MayRepair(ticks, n) && BackoffLeft(After(ticks, n), ticks[n].now) <= 0.0
    ensures match ActionAt(ticks, n).value
            case Restart => Probed(ticks, n, Down)
            case ReplaceIncompatible => Probed(ticks, n, Incompatible)
            case StopRestart => Probed(ticks, n, Unhealthy) || Probed(ticks, n, Saturated)
  {
  }

  /** `start_services` runs exactly when the code is unchanged and whatever had to be stopped
      first has stopped: nothing for a dead daemon, the wedged one, or at least one provable
      orphan and every one of them. */
  lemma StartsExactly(ticks: seq<Tick>, n: nat)
    requires n < |ticks|
    ensures StartsAt(ticks, n) <==>
      && ActionAt(ticks, n).Some?
      && var (p, r) := (ticks[n].probe.value, ticks[n].probe.value.repair);
         && !r.changed
         && (p.kind.Unhealthy? || p.kind.Saturated? ==> r.stops)
         && (p.kind.Incompatible? ==> |r.orphanStops| > 0 && forall i | 0 <= i < |r.orphanStops| :: r.orphanStops[i])
  {
    if ActionAt(ticks, n).Some? {
      ActionsFit(ticks, n);
    }
  }

  /** A repair moves the backoff clock when it starts the services, or fails to stop them. */
  predicate Marks(ticks: seq<Tick>, n: nat)
    requires n < |ticks|
  {
    || StartsAt(ticks, n)
    || (ActionAt(ticks, n) == Some(StopRestart) && !ticks[n].probe.value.repair.changed)
  }

  /** What a repair leaves behind: a successful start forgets every failure, one that fails
      without a login outcome counts, one cut short by a login outcome does not, and a repair
      that could not be tried at all goes straight to the cap. */
  lemma RepairLeaves(ticks: seq<Tick>, n: nat)
    requires n < |ticks| && ActionAt(ticks, n).Some?
    requires 0 <= After(ticks, n).failedRestarts <= MAX_FAILED_RESTARTS
    ensures var (m, r) := (After(ticks, n + 1), ticks[n].probe.value.repair);
      && (Marks(ticks, n) ==> m.lastRestart == Some(ticks[n].now))
      && (StartsAt(ticks, n) ==> m.unhealthySince.None? && m.saturatedSince.None?)
      && (StartsAt(ticks, n) && r.starts ==> m.failedRestarts == 0)
      && (r.changed ==> m.failedRestarts == 3)
      && (ActionAt(ticks, n) == Some(ReplaceIncompatible) && !StartsAt(ticks, n) ==> m.failedRestarts == 3)
      && (CountsAt(ticks, n) <==> !StartsAt(ticks, n) || (!r.starts && r.noLoginOutcome))
      && (CountsAt(ticks, n) ==> m.failedRestarts >= 1)
  {
    hide Rearms, BackoffLeft;
  }

  lemma MarkStep(ticks: seq<Tick>, n: nat)
    requires n < |ticks|
    ensures After(ticks, n + 1).lastRestart ==
      if Marks(ticks, n) then Some(ticks[n].now) else After(ticks, n).lastRestart
  {
    hide Rearms, BackoffLeft;
  }

  /** The backoff clock is the time of the last mark. */
  lemma {:induction false} LastMark(ticks: seq<Tick>, n: nat) returns (i: Option<nat>)
    requires n <= |ticks|
    ensures i.None? ==> After(ticks, n).lastRestart.None? && forall k | 0 <= k < n :: !Marks(ticks, k)
    ensures i.Some? ==>
      && i.value < n && Marks(ticks, i.value) && After(ticks, n).lastRestart == Some(ticks[i.value].now)
      && forall k | i.value < k < n :: !Marks(ticks, k)
  {
    if n == 0 {
      i := None;
    } else {
      MarkStep(ticks, n - 1);
      if Marks(ticks, n - 1) {
        i := Some(n - 1);
      } else {
        i := LastMark(ticks, n - 1);
      }
    }
  }

  /** Main result: a repair is held back exactly within 300 seconds of an earlier one that
      started the services or tried to stop them, at a time other than 0.0. */
  lemma BackoffExactly(ticks: seq<Tick>, n: nat)
    requires Ordered(ticks) && n < |ticks|
    ensures BackoffLeft(After(ticks, n), ticks[n].now) > 0.0 <==>
      exists i :: 0 <= i < n && Marks(ticks, i) && ticks[i].now != 0.0 && ticks[n].now < ticks[i].now + 300.0
  {
    hide Marks, After;
    var last := LastMark(ticks, n);
    if last.Some? {
      forall k | 0 <= k < n && Marks(ticks, k)
        ensures k <= last.value && 0.0 <= ticks[k].now <= ticks[last.value].now
      {
        assert k <= last.value;
      }
    }
  }

  // --- Spacing -----------------------------------------------------------------------

  lemma {:induction false} BackoffKept(ticks: seq<Tick>, i: nat, n: nat)
    requires Ordered(ticks) && i < n <= |ticks| && StartsAt(ticks, i)
    ensures After(ticks, n).lastRestart.Some? && After(ticks, n).lastRestart.value >= ticks[i].now
    decreases n
  {
    if i < n - 1 {
      BackoffKept(ticks, i, n - 1);
    }
  }

  /** Two runs of `start_services` are at least 300 seconds apart, unless the first one
      came at time 0.0. */
  lemma StartsAreSpaced(ticks: seq<Tick>, i: nat, j: nat)
    requires Ordered(ticks) && i < j < |ticks| && StartsAt(ticks, i) && StartsAt(ticks, j)
    requires ticks[i].now != 0.0
    ensures ticks[j].now - ticks[i].now >= RESTART_BACKOFF_SECONDS
  {
    BackoffKept(ticks, i, j);
  }

  ghost predicate SpacedFrom(ticks: seq<Tick>, i: nat, j: nat)
    requires i < j < |ticks|
  {
    StartsAt(ticks, i) && StartsAt(ticks, j) ==> ticks[j].now - ticks[i].now >= RESTART_BACKOFF_SECONDS
  }

  /** After a start at time t the spacing is guaranteed exactly when t is not 0.0. */
  lemma SpacingExactly(t: real)
    requires t >= 0.0
    ensures t != 0.0 <==>
      forall ticks: seq<Tick>, i: nat, j: nat | Ordered(ticks) && i < j < |ticks| && ticks[i].now == t ::
        SpacedFrom(ticks, i, j)
  {
    if t == 0.0 {
      var down := Probe(Down, true, 0, Repair(false, true, [], true, false));
      var ticks := [Tick(0.0, Some(down)), Tick(1.0, Some(down))];
      assert After(ticks, 1).lastRestart == Some(0.0);
      assert !SpacedFrom(ticks, 0, 1);
    } else {
      forall ticks: seq<Tick>, i: nat, j: nat | Ordered(ticks) && i < j < |ticks| && ticks[i].now == t
        ensures SpacedFrom(ticks, i, j)
      {
        if StartsAt(ticks, i) && StartsAt(ticks, j) {
          StartsAreSpaced(ticks, i, j);
        }
      }
    }
  }
}
