/**
 The daemon process that owns the port: its connection recovery, its in-memory
 credential latch and its boot sequence, method by method.

 Every primitive step on the durable latch or the credential is recorded as a label
 of LoginProtocol, and a label can be recorded only when the transition system allows
 it. Each method below therefore emits a run of that system, cut short wherever the
 process dies, and inherits the login budget proved there.
 */
module WrdsDaemon {
  import opened Basics
  import opened LoginProtocol

  const RECOVERY_GRACE_SECONDS := 60.0
  const QUERY_TIMEOUT_SECONDS := 300.0
  const HEALTHCHECK_TIMEOUT_SECONDS := 60.0

  /** What `_is_auth_error`, `_is_conn_error` and the typed timeout tell apart. */
  datatype Failure = AuthError | ConnError | QueryError | OperationTimeout | LatchError | OtherError

  datatype Health = Well | Sick | Raises(failure: Failure)

  datatype Recovery = RolledBack | PoolRebuilt | Raised(failure: Failure)

  datatype Reply = Answer(recovered: bool) | Contended | Failed(failure: Failure)

  datatype OwnerKind = Command | HealthProbe | Operator

  datatype BusyReason =
    | QueryInProgress | QueryOverdue | ProbeInProgress | ProbeOverdue | UnblockInProgress | UnknownOwner

  ghost predicate MoveTo(rules: Rules, s: State, p: ProcId, move: LoginProtocol.Move, pc: Pc)
    requires p in s.procs
  {
    var e := MainStep(rules, s, p, s.procs[p], move);
    e.Some? && e.value.me == Some(s.procs[p].(pc := pc)) && e.value.ledger == s.ledger
  }

  /** `after` adds to `before` only steps of process `p`, while others may die. */
  ghost predicate Grown(before: seq<Label>, after: seq<Label>, p: ProcId) {
    && before <= after
    && forall i | |before| <= i < |after| :: Mine(after[i], p)
  }

  ghost predicate Mine(l: Label, p: ProcId) {
    if l.Crash? then l.p != p else (l.Work? || l.Main?) && l.p == p
  }

  lemma GrownBy(run: seq<Label>, l: Label, p: ProcId)
    requires Mine(l, p)
    ensures Grown(run, run + [l], p)
  {
  }

  lemma GrownTwice(a: seq<Label>, b: seq<Label>, c: seq<Label>, p: ProcId)
    requires Grown(a, b, p) && Grown(b, c, p)
    ensures Grown(a, c, p)
  {
  }

  /** The host as one daemon process sees it: a clock, the process table, the latch file,
      the database. On a calm host nothing of its own fails: its files can be read and
      written, its processes listed, its lock and its ports taken; the database may still
      answer anything. `sys` and `run` are the state and the labels of the whole transition
      system; `statements`, `failures` and `last` tell what the database has answered. */
  class Host {
    const rules: Rules
    const me: ProcId
    const calm: bool
    const autoRelogin: bool
    var table: set<ProcId>
    var latch: Option<Record>
    var clock: real
    ghost var run: seq<Label>
    ghost var sys: State
    ghost var statements: nat
    ghost var failures: nat
    ghost var last: Result<(), Failure>

    ghost predicate Sound()
      reads this
    {
      Exec(rules, Init, run) == Some(sys) && me in sys.procs && latch == sys.ledger.latch && table == sys.procs.Keys
    }

    ghost predicate Valid()
      reads this
    {
      Sound() && Working(sys.procs[me].pc)
    }

    ghost function Me(): Proc
      reads this
      requires me in sys.procs
    {
      sys.procs[me]
    }

    /** Joins a system in which this process is running. */
    constructor (rules: Rules, me: ProcId, calm: bool, autoRelogin: bool, ghost run: seq<Label>, ghost sys: State,
                 table: set<ProcId>, latch: Option<Record>, clock: real)
      requires Exec(rules, Init, run) == Some(sys) && me in sys.procs
      requires latch == sys.ledger.latch && table == sys.procs.Keys
      ensures Sound() && this.rules == rules && this.me == me && this.run == run && this.sys == sys
      ensures this.clock == clock && this.calm == calm && this.autoRelogin == autoRelogin
    {
      this.rules, this.me, this.calm, this.autoRelogin := rules, me, calm, autoRelogin;
      this.run, this.sys, this.statements, this.failures, this.last := run, sys, 0, 0, Ok(());
      this.table, this.latch, this.clock := table, latch, clock;
    }

    /** Records one allowed step of the login section. */
    ghost method Emit(act: Act)
      requires Exec(rules, Init, run) == Some(sys) && me in sys.procs && Working(Me().pc)
      requires WorkStep(Me(), me, sys.ledger, act).Some?
      modifies this`run, this`sys
      ensures Exec(rules, Init, run) == Some(sys) && me in sys.procs
      ensures run == old(run) + [Work(me, act)]
      ensures (Me(), sys.ledger) == WorkStep(old(Me()), me, old(sys.ledger), act).value
      ensures Me().pc == old(Me().pc) && sys.procs.Keys == old(sys.procs.Keys)
    {
      run, sys := Extend(rules, Init, run, sys, Work(me, act));
    }

    /** Records one allowed step of the main thread that keeps the process alive. */
    ghost method EmitMain(move: Move)
      requires Exec(rules, Init, run) == Some(sys) && me in sys.procs
      requires MainStep(rules, sys, me, Me(), move).Some? && MainStep(rules, sys, me, Me(), move).value.me.Some?
      modifies this`run, this`sys
      ensures Exec(rules, Init, run) == Some(sys) && me in sys.procs
      ensures run == old(run) + [Main(me, move)]
      ensures var e := MainStep(rules, old(sys), me, old(Me()), move).value;
        Me() == e.me.value && sys.ledger == e.ledger && sys.marker == e.marker && sys.procs.Keys == old(sys.procs.Keys)
    {
      run, sys := Extend(rules, Init, run, sys, Main(me, move));
    }

    /** Records a step of the main thread that changes nothing of the process but its stage. */
    ghost method Move(move: LoginProtocol.Move, pc: Pc)
      requires Exec(rules, Init, run) == Some(sys) && me in sys.procs
      requires MoveTo(rules, sys, me, move, pc)
      modifies this`run, this`sys
      ensures Exec(rules, Init, run) == Some(sys) && me in sys.procs && sys.procs.Keys == old(sys.procs.Keys)
      ensures run == old(run) + [Main(me, move)]
      ensures Me() == old(Me()).(pc := pc) && sys.ledger == old(sys.ledger)
    {
      EmitMain(move);
    }

    /** Whether another process is alive at this moment; it may have died since the last. */
    method LookAt(q: ProcId) returns (alive: bool)
      requires Sound() && q != me
      modifies this`table, this`run, this`sys
      ensures Sound() && Me() == old(Me()) && sys.ledger == old(sys.ledger)
      ensures run == old(run) || run == old(run) + [Crash(q)]
      ensures table == old(table) - (if alive then {} else {q}) && (alive ==> q in table)
    {
      var dies: bool := *;
      if dies && q in table {
        run, sys := Extend(rules, Init, run, sys, Crash(q));
        table := table - {q};
      }
      alive := q in table;
    }

    /** Whether something of the host's own works this time. */
    method Works() returns (ok: bool)
      ensures calm ==> ok
    {
      ok := *;
      ok := ok || calm;
    }

    /** Time passes. */
    method Elapse()
      modifies this`clock
      ensures clock >= old(clock)
    {
      var seconds: real := *;
      if seconds > 0.0 {
        clock := clock + seconds;
      }
    }

    /** A statement on the open connection; it never opens another one. */
    method Execute() returns (r: Result<(), Failure>)
      modifies this`clock, this`statements, this`failures, this`last
      ensures clock >= old(clock) && last == r
      ensures statements == old(statements) + 1 && failures == old(failures) + if r.Err? then 1 else 0
      ensures r.Err? ==> !r.error.OperationTimeout? && !r.error.LatchError?
    {
      Elapse();
      r := *;
      if r.Err? && (r.error.OperationTimeout? || r.error.LatchError?) {
        r := Err(OtherError);
      }
      statements, last := statements + 1, r;
      failures := failures + if r.Err? then 1 else 0;
    }

    /** Replaces the latch file: write a temporary, rename, sync the directory. */
    method ReplaceLatch(record: Record) returns (outcome: Outcome)
      modifies this`latch
      ensures latch == if outcome.FailedBefore? then old(latch) else Some(record)
      ensures calm ==> outcome.Done?
    {
      outcome := *;
      if calm {
        outcome := Done;
      }
      if !outcome.FailedBefore? {
        latch := Some(record);
      }
    }

    method RemoveLatch() returns (outcome: Outcome)
      modifies this`latch
      ensures latch == if outcome.FailedBefore? then old(latch) else None
      ensures calm ==> outcome.Done?
    {
      outcome := *;
      if calm {
        outcome := Done;
      }
      if !outcome.FailedBefore? {
        latch := None;
      }
    }
  }

  /** `math.floor(deadline - now)`, capped; None when less than one second is left. */
  function AttemptTimeout(deadline: real, now: real, maximum: real): (r: Option<real>)
    requires maximum >= 1.0
    ensures r.Some? <==> deadline - now >= 1.0
    ensures r.Some? ==> 1.0 <= r.value <= maximum && now + r.value <= deadline
  {
    if deadline - now < 1.0 then None
    else
      var whole := (deadline - now).Floor as real;
      Some(if whole < maximum then whole else maximum)
  }

  predicate Expired(deadline: Option<real>, now: real) {
    deadline.Some? && deadline.value - now <= 0.0
  }

  /** Recovery started at `from` may compute its connect budget at `at`. */
  predicate MayConnect(from: real, deadline: real, at: real) {
    from <= at <= deadline - 1.0
  }

  class WrdsState {
    const host: Host
    var authFailed: bool
    var lockOwner: Option<OwnerKind>
    var lockOwnerDeadline: Option<real>

    /** Outside every login section. */
    ghost predicate Idle()
      reads this, host
    {
      host.Sound() && authFailed == host.Me().failed && host.Me().work.Quiet?
    }

    /** The same, in a process whose login section can be entered. */
    ghost predicate Valid()
      reads this, host
    {
      host.Valid() && Idle()
    }

    /** The same, in the middle of a login section. */
    ghost predicate InSection()
      reads this, host
    {
      host.Valid() && authFailed == host.Me().failed
    }

    ghost function Logins(): nat
      reads host
    {
      host.sys.ledger.logins
    }

    ghost function Confirmed(): nat
      reads host
    {
      host.sys.ledger.confirmed
    }

    /** Labels are only added, all of them by this process's login section: no approval,
        no move of the main thread. */
    twostate predicate Extends()
      reads host
    {
      && |old(host.run)| <= |host.run| && host.run[..|old(host.run)|] == old(host.run)
      && (forall i | |old(host.run)| <= i < |host.run| :: host.run[i].Work? && host.run[i].p == host.me)
      && host.clock >= old(host.clock)
      && host.me in host.sys.procs && old(host.me in host.sys.procs)
      && host.Me().pc == old(host.Me().pc)
      && host.sys.ledger.approvals == old(host.sys.ledger.approvals)
      && host.statements >= old(host.statements) && host.failures >= old(host.failures)
    }

    /** The database has answered nothing meanwhile. */
    twostate predicate NoStatement()
      reads host
    {
      && host.statements == old(host.statements) && host.failures == old(host.failures)
      && host.last == old(host.last)
    }

    /** A rejection is on disk, if the disk can be written at all. */
    ghost predicate OnRecord()
      reads host
    {
      host.calm ==> host.latch == Some(Terminal)
    }

    /** Something the database answered meanwhile was an error, or time ran out on it. */
    twostate predicate Troubled()
      reads host
    {
      host.failures > old(host.failures) || host.clock > old(host.clock) + 59.0
    }

    /** The same for the operator's and the main thread's methods, while others may die. */
    twostate predicate ExtendsOwn()
      reads host
    {
      Grown(old(host.run), host.run, host.me)
    }

    ghost function Approvals(): nat
      reads host
    {
      |host.sys.ledger.approvals|
    }

    constructor (host: Host, authFailed: bool)
      requires host.Sound() && authFailed == host.Me().failed && host.Me().work.Quiet?
      ensures Idle() && this.host == host && this.authFailed == authFailed && lockOwner.None?
    {
      this.host, this.authFailed := host, authFailed;
      this.lockOwner, this.lockOwnerDeadline := None, None;
    }

    // --- Lock ownership ------------------------------------------------------

    method SetLockOwner(kind: OwnerKind, deadline: Option<real>)
      modifies this`lockOwner, this`lockOwnerDeadline
      ensures lockOwner == Some(kind) && lockOwnerDeadline == deadline
    {
      lockOwner, lockOwnerDeadline := Some(kind), deadline;
    }

    method ClearLockOwner()
      modifies this`lockOwner, this`lockOwnerDeadline
      ensures lockOwner.None? && lockOwnerDeadline.None?
    {
      lockOwner, lockOwnerDeadline := None, None;
    }

    /** Never backward, and an unbounded owner stays unbounded. */
    method ExtendLockOwnerDeadline(newDeadline: real)
      modifies this`lockOwnerDeadline
      ensures lockOwner.None? || old(lockOwnerDeadline).None? ==> lockOwnerDeadline == old(lockOwnerDeadline)
      ensures lockOwner.Some? && old(lockOwnerDeadline).Some? ==>
        && lockOwnerDeadline.Some?
        && lockOwnerDeadline.value >= newDeadline && lockOwnerDeadline.value >= old(lockOwnerDeadline).value
        && (lockOwnerDeadline.value == newDeadline || lockOwnerDeadline == old(lockOwnerDeadline))
    {
      if lockOwner.Some? && lockOwnerDeadline.Some? && newDeadline > lockOwnerDeadline.value {
        lockOwnerDeadline := Some(newDeadline);
      }
    }

    /** What a probe reports when it finds the lock held: alive only while a command
        is within its own deadline. */
    function BusyHealth(now: real): (r: (bool, BusyReason))
      reads this
      ensures r.0 <==> lockOwner == Some(Command) && (lockOwnerDeadline.None? || now <= lockOwnerDeadline.value)
    {
      match lockOwner
      case Some(Command) =>
        if lockOwnerDeadline.None? || now <= lockOwnerDeadline.value then (true, QueryInProgress)
        else (false, QueryOverdue)
      case Some(HealthProbe) =>
        if lockOwnerDeadline.Some? && now <= lockOwnerDeadline.value then (false, ProbeInProgress)
        else (false, ProbeOverdue)
      case Some(Operator) => (false, UnblockInProgress)
      case None => (false, UnknownOwner)
    }

    // --- The sticky latch ----------------------------------------------------

    /** Memory first, then the file; a failed write leaves the process latched. */
    method Latch()
      requires InSection()
      modifies this`authFailed, host
      ensures Valid() && authFailed && Extends()
      ensures Logins() == old(Logins()) && Confirmed() == old(Confirmed())
      ensures host.latch == old(host.latch) || host.latch == Some(Terminal)
      ensures OnRecord() && NoStatement()
      ensures host.Me().token == old(host.Me().token)
    {
      hide Exec, MainStep;
      host.Emit(Fail);
      authFailed := true;
      var outcome := host.ReplaceLatch(Terminal);
      host.Emit(Block(outcome));
    }

    /** Latches a credential rejection; any other failure passes through untouched. */
    method LatchAuthFailure(failure: Failure) returns (raised: bool)
      requires InSection()
      modifies this`authFailed, host
      ensures raised <==> failure.AuthError?
      ensures raised ==>
        Valid() && authFailed && Extends() && Logins() == old(Logins()) && Confirmed() == old(Confirmed())
      ensures raised ==> host.latch == old(host.latch) || host.latch == Some(Terminal)
      ensures NoStatement() && (raised ==> OnRecord())
      ensures !raised ==> InSection() && authFailed == old(authFailed) && unchanged(host)
    {
      raised := failure.AuthError?;
      if raised {
        Latch();
      }
    }

    /** Any failure after the one login was permitted latches, ambiguous or not. */
    method LatchLoginFailure(failure: Failure)
      requires InSection()
      modifies this`authFailed, host
      ensures Valid() && authFailed && Extends() && Logins() == old(Logins()) && Confirmed() == old(Confirmed())
      ensures host.latch == old(host.latch) || host.latch == Some(Terminal)
      ensures OnRecord() && NoStatement()
    {
      var raised := LatchAuthFailure(failure);
      if !raised {
        Latch();
      }
    }

    // --- Recovery ------------------------------------------------------------

    /** The write-ahead record. A latch that is present refuses an unattended attempt;
        a latch that is absent refuses an approved retry. */
    method BeginLoginAttempt(retry: bool) returns (ok: bool)
      requires InSection() && host.Me().work.Quiet? && !authFailed
      requires retry ==> host.Me().token.Some?
      modifies host
      ensures InSection() && Extends() && Logins() == old(Logins()) && Confirmed() == old(Confirmed())
      ensures ok ==> host.Me().work.Armed? && old(host.latch).Some? == retry && host.latch == Some(InProgress(host.me))
      ensures !ok ==> host.latch == old(host.latch) || host.latch == Some(InProgress(host.me))
      ensures old(host.latch).Some? != retry ==> !ok && host.latch == old(host.latch)
      ensures !retry ==> host.Me().token == old(host.Me().token)
      ensures NoStatement() && (host.calm ==> (ok <==> old(host.latch).Some? == retry))
    {
      hide Exec, MainStep;
      host.Emit(Begin(retry));
      var readable := host.Works();
      if !readable {
        return false;
      }
      var existing := host.latch;
      host.Emit(Check);
      if existing.Some? != retry {
        return false;
      }
      ok := ArmAttempt();
    }

    /** The latch has been read and accepted: the record is written ahead of the login. */
    method ArmAttempt() returns (ok: bool)
      requires InSection() && host.Me().work.Accepted?
      modifies host
      ensures InSection() && Extends() && Logins() == old(Logins()) && Confirmed() == old(Confirmed())
      ensures ok ==> host.Me().work.Armed? && host.latch == Some(InProgress(host.me))
      ensures !ok ==> host.latch == old(host.latch) || host.latch == Some(InProgress(host.me))
      ensures host.Me().token == old(host.Me().token) && NoStatement() && (host.calm ==> ok)
    {
      hide Exec, MainStep;
      var birthKnown := host.Works();
      if !birthKnown {
        return false;
      }
      var outcome := host.ReplaceLatch(InProgress(host.me));
      host.Emit(Arm(outcome));
      return outcome.Done?;
    }

    /** SELECT 1 on the open connection. After a login, success is what verifies it. */
    method Healthy(deadline: Option<real>) returns (h: Health)
      requires InSection() && (host.Me().work.Quiet? || host.Me().work.Spent?)
      modifies this`authFailed, host
      ensures Extends() && Logins() == old(Logins())
      ensures h.Well? ==> InSection() && authFailed == old(authFailed) && host.latch == old(host.latch)
      ensures h.Well? && old(host.Me().work.Quiet?) ==> host.run == old(host.run) && host.sys == old(host.sys)
      ensures Confirmed() == old(Confirmed()) + if h.Well? && old(host.Me().work.Spent?) then 1 else 0
      ensures h.Well? && old(host.Me().work.Spent?) ==> host.Me().work.Verified?
      ensures h.Sick? || (h.Raises? && h.failure.OperationTimeout?) ==>
        InSection() && authFailed == old(authFailed) && host.run == old(host.run) && host.sys == old(host.sys)
      ensures h.Raises? ==> h.failure.AuthError? || h.failure.OperationTimeout?
      ensures h.Raises? && h.failure.OperationTimeout? ==>
        deadline.Some? && deadline.value - host.clock < 1.0
      ensures h.Raises? && h.failure.AuthError? ==>
        Valid() && authFailed && (host.latch == old(host.latch) || host.latch == Some(Terminal))
      ensures deadline.Some? && deadline.value - old(host.clock) < 1.0 ==> h == Raises(OperationTimeout)
      ensures h.Well? ==> host.failures == old(host.failures) && host.last.Ok? && host.statements > old(host.statements)
      ensures h == Raises(OperationTimeout) ==> NoStatement()
      ensures h.Sick? || h == Raises(AuthError) ==> host.failures == old(host.failures) + 1 && host.last.Err?
      ensures h == Raises(AuthError) <==> host.failures > old(host.failures) && host.last == Err(AuthError)
      ensures h == Raises(AuthError) ==> OnRecord()
      ensures deadline.None? || deadline.value - old(host.clock) >= 1.0 ==> host.statements > old(host.statements)
    {
      hide Exec, MainStep;
      var answer: Result<(), Failure> := Ok(());
      if deadline.Some? {
        if AttemptTimeout(deadline.value, host.clock, QUERY_TIMEOUT_SECONDS).None? {
          return Raises(OperationTimeout);
        }
        answer := host.Execute();
      }
      if answer.Ok? {
        answer := host.Execute();
      }
      if answer.Ok? {
        if host.Me().work.Spent? {
          host.Emit(Confirm);
        }
        return Well;
      }
      var raised := LatchAuthFailure(answer.error);
      return if raised then Raises(AuthError) else Sick;
    }

    /** The verified login clears its write-ahead record. */
    method ClearAttempt() returns (ok: bool)
      requires InSection() && host.Me().work.Verified?
      modifies host
      ensures Valid() && Extends() && host.Me().failed == old(host.Me().failed)
      ensures Logins() == old(Logins()) && Confirmed() == old(Confirmed())
      ensures ok ==> host.latch.None?
      ensures NoStatement() && (host.calm ==> ok)
    {
      hide Exec, MainStep;
      var outcome := host.RemoveLatch();
      host.Emit(Clear(outcome));
      return outcome.Done?;
    }

    /** From here the one login is spent. Verification runs under its own fresh budget
        and only its success clears the latch. */
    method VerifyAndClear() returns (r: Result<(), Failure>)
      requires InSection() && !authFailed && host.Me().work.Spent? && host.latch.Some?
      modifies this`authFailed, this`lockOwnerDeadline, host
      ensures InSection() && Extends() && Logins() == old(Logins())
      ensures old(Confirmed()) <= Confirmed() <= old(Confirmed()) + 1
      ensures r.Ok? ==> Valid() && !authFailed && host.latch.None? && Confirmed() == old(Confirmed()) + 1
      ensures r.Err? && Confirmed() == old(Confirmed()) ==> host.latch.Some?
      ensures r.Err? && host.calm ==> Troubled()
    {
      hide Exec, MainStep;
      var verifyDeadline := host.clock + RECOVERY_GRACE_SECONDS;
      ExtendLockOwnerDeadline(verifyDeadline);
      var guarded := host.Execute();
      if guarded.Err? {
        return guarded;
      }
      var h := Healthy(Some(verifyDeadline));
      match h
      case Raises(failure) => return Err(failure);
      case Sick => return Err(OtherError);
      case Well =>
        var cleared := ClearAttempt();
        return if cleared then Ok(()) else Err(LatchError);
    }

    /** Tier 2: dispose the pool and spend the one permitted login. */
    method RebuildPool() returns (r: Result<(), Failure>)
      requires Valid() && !authFailed
      modifies this`authFailed, this`lockOwnerDeadline, host
      ensures InSection() && Extends()
      ensures old(Logins()) <= Logins() <= old(Logins()) + 1
      ensures r.Ok? ==> Valid() && !authFailed && host.latch.None?
      ensures r.Ok? ==> Logins() == old(Logins()) + 1 && Confirmed() == old(Confirmed()) + 1
      ensures r.Err? && Logins() > old(Logins()) && Confirmed() == old(Confirmed()) ==> host.latch.Some?
      ensures old(host.latch).Some? ==> r.Err? && Logins() == old(Logins()) && host.latch == old(host.latch)
      ensures r.Err? && host.calm && old(host.latch).None? ==> Troubled()
      ensures host.calm && old(host.latch).None? ==> Logins() == old(Logins()) + 1
    {
      hide Exec, MainStep;
      host.Elapse();  // close the dead connection
      host.Elapse();  // dispose the pool
      var begun := BeginLoginAttempt(false);
      if !begun {
        return Err(LatchError);
      }
      host.Emit(Login);
      var connected := host.Execute();
      if connected.Err? {
        return connected;
      }
      r := VerifyAndClear();
    }

    /** Less than a second is left. */
    ghost predicate TimeIsUp(deadline: Option<real>)
      reads host
    {
      deadline.Some? && deadline.value - host.clock < 1.0
    }

    /** The process has latched by itself, on a host that let it log in, with no login spent. */
    twostate predicate LatchedUnspent()
      reads this, host
    {
      && authFailed && !old(authFailed) && host.calm && host.autoRelogin && old(host.latch).None?
      && Logins() == old(Logins())
    }

    /** Tier 1: roll back on the existing socket. None: the connection is still sick. */
    method RollBack(deadline: Option<real>) returns (r: Option<Recovery>)
      requires Valid()
      modifies this`authFailed, host
      ensures Valid() && Extends() && Logins() == old(Logins()) && Confirmed() == old(Confirmed())
      ensures r.Some? ==>
        !r.value.PoolRebuilt? && (r.value.Raised? ==> r.value.failure.AuthError? || r.value.failure.OperationTimeout?)
      ensures r == Some(Raised(AuthError)) ==> authFailed
      ensures r != Some(Raised(AuthError)) ==>
        && host.run == old(host.run) && host.sys == old(host.sys)
        && host.latch == old(host.latch) && authFailed == old(authFailed)
      ensures host.statements > old(host.statements)
      ensures r == Some(RolledBack) ==> host.failures == old(host.failures)
      ensures r.None? || r == Some(Raised(AuthError)) ==> host.failures > old(host.failures)
      ensures r == Some(Raised(AuthError)) ==> OnRecord()
      ensures host.failures > old(host.failures) ==> (r == Some(Raised(AuthError)) <==> host.last == Err(AuthError))
      ensures r == Some(Raised(OperationTimeout)) ==> TimeIsUp(deadline)
    {
      var rolledBack := host.Execute();
      if rolledBack.Ok? {
        var h := Healthy(deadline);
        match h
        case Well => return Some(RolledBack);
        case Raises(failure) => return Some(Raised(failure));
        case Sick => return None;
      }
      var raised := LatchAuthFailure(rolledBack.error);
      return if raised then Some(Raised(AuthError)) else None;
    }

    /** Tier 2, when it is allowed: unattended re-login is on and a second is left. */
    method Reconnect(deadline: Option<real>) returns (r: Recovery, ghost budgetAt: real)
      requires Valid() && !authFailed
      modifies this`authFailed, this`lockOwnerDeadline, host
      ensures Valid() && Extends() && budgetAt == old(host.clock) && !r.RolledBack?
      ensures old(Logins()) <= Logins() <= old(Logins()) + 1
      ensures r == Raised(OperationTimeout) ==>
        host.run == old(host.run) && host.latch == old(host.latch) && authFailed == old(authFailed)
      ensures r.PoolRebuilt? ==>
        && !authFailed && host.latch.None? && Logins() == old(Logins()) + 1
        && Confirmed() == old(Confirmed()) + 1
      ensures r.Raised? ==> r.failure.AuthError? || r.failure.OperationTimeout?
      ensures r.Raised? && r.failure.AuthError? ==> authFailed
      ensures Logins() > old(Logins()) && Confirmed() == old(Confirmed()) ==> host.latch.Some?
      ensures Logins() > old(Logins()) ==>
        old(host.latch).None? && (deadline.Some? ==> budgetAt <= deadline.value - 1.0)
      ensures r == Raised(AuthError) ==> OnRecord()
      ensures !host.autoRelogin ==> r == Raised(AuthError) && Logins() == old(Logins())
      ensures r == Raised(AuthError) && host.autoRelogin && host.calm && old(host.latch).None? ==> Troubled()
      ensures r == Raised(OperationTimeout) ==> TimeIsUp(deadline)
      ensures host.autoRelogin && host.calm && old(host.latch).None? && r != Raised(OperationTimeout) ==>
        Logins() == old(Logins()) + 1
    {
      budgetAt := host.clock;
      if !host.autoRelogin {
        Latch();
        return Raised(AuthError), budgetAt;
      }
      if deadline.Some? && AttemptTimeout(deadline.value, host.clock, RECOVERY_GRACE_SECONDS).None? {
        return Raised(OperationTimeout), budgetAt;
      }
      var rebuilt := RebuildPool();
      if rebuilt.Ok? {
        return PoolRebuilt, budgetAt;
      }
      LatchLoginFailure(rebuilt.error);
      return Raised(AuthError), budgetAt;
    }

    /** Restores a working connection, cheapest tier first.

        `budgetAt` is the moment the connect budget was computed. A caller deadline that
        leaves less than a second at that moment ends the call as a plain timeout: not
        one step on the latch, no login, no memory of a failure. */
    method Recover(deadline: Option<real>) returns (r: Recovery, ghost budgetAt: real)
      requires Valid()
      modifies this`authFailed, this`lockOwnerDeadline, host
      ensures Valid() && Extends()
      ensures old(Logins()) <= Logins() <= old(Logins()) + 1
      ensures old(authFailed) ==> r == Raised(AuthError) && host.run == old(host.run) && authFailed
      ensures r.RolledBack? || (r.Raised? && r.failure.OperationTimeout?) ==>
        host.run == old(host.run) && host.latch == old(host.latch) && authFailed == old(authFailed)
      ensures r.PoolRebuilt? ==>
        && !authFailed && host.latch.None? && Logins() == old(Logins()) + 1
        && Confirmed() == old(Confirmed()) + 1
      ensures r.Raised? ==> r.failure.AuthError? || r.failure.OperationTimeout?
      ensures r.Raised? && r.failure.AuthError? ==> authFailed
      ensures Logins() > old(Logins()) && Confirmed() == old(Confirmed()) ==> host.latch.Some?
      ensures Logins() > old(Logins()) ==>
        old(host.latch).None? && (deadline.Some? ==> MayConnect(old(host.clock), deadline.value, budgetAt))
      ensures !old(authFailed) && Expired(deadline, old(host.clock)) ==> r == Raised(OperationTimeout)
      ensures authFailed && !old(authFailed) ==> OnRecord() && host.failures > old(host.failures)
      ensures Logins() > old(Logins()) ==> host.autoRelogin && host.failures > old(host.failures)
      ensures r.RolledBack? ==> host.failures == old(host.failures)
      ensures r.RolledBack? || r.PoolRebuilt? ==> host.statements > old(host.statements)
      ensures old(authFailed) || Expired(deadline, old(host.clock)) ==> NoStatement()
      ensures !old(authFailed) && !Expired(deadline, old(host.clock)) ==> host.statements > old(host.statements)
      ensures r == Raised(OperationTimeout) ==> TimeIsUp(deadline)
      ensures LatchedUnspent() ==> host.last == Err(AuthError)
    {
      budgetAt := host.clock;
      if authFailed {
        return Raised(AuthError), budgetAt;
      }
      if Expired(deadline, host.clock) {
        return Raised(OperationTimeout), budgetAt;
      }
      var first := RollBack(deadline);
      if first.Some? {
        return first.value, budgetAt;
      }
      r, budgetAt := Reconnect(deadline);
    }

    // --- Commands ------------------------------------------------------------

    /** An attempt ends as the database answered, unless the answer came too late. */
    ghost predicate Told(r: Result<(), Failure>, deadline: real)
      reads host
    {
      r == if host.last.Ok? && Expired(Some(deadline), host.clock) then Err(OperationTimeout) else host.last
    }

    /** One attempt of a command's own database work under the shared deadline. */
    method Attempt(deadline: real) returns (r: Result<(), Failure>)
      requires Valid()
      modifies host`clock, host`statements, host`failures, host`last
      ensures Valid() && host.clock >= old(host.clock)
      ensures r.Err? ==> !r.error.LatchError?
      ensures if deadline - old(host.clock) < 1.0 then NoStatement() && r == Err(OperationTimeout)
              else host.statements == old(host.statements) + 1 && Told(r, deadline)
      ensures host.failures == old(host.failures) + if r.Err? && !r.error.OperationTimeout? then 1 else 0
      ensures r == Err(OperationTimeout) ==> deadline - host.clock < 1.0
    {
      if AttemptTimeout(deadline, host.clock, QUERY_TIMEOUT_SECONDS).None? {
        return Err(OperationTimeout);
      }
      r := host.Execute();
      if r.Ok? && Expired(Some(deadline), host.clock) {
        r := Err(OperationTimeout);
      }
    }

    /** How a command ends whose first statement was its only one: a rejection latches, and an
        error of the query itself is the caller's. */
    ghost predicate FirstTold(r: Reply, deadline: real)
      reads this, host
    {
      match host.last
      case Ok(_) => r == if Expired(Some(deadline), host.clock) then Failed(OperationTimeout) else Answer(false)
      case Err(AuthError) => r == Failed(AuthError) && authFailed
      case Err(ConnError) => r == Failed(OperationTimeout)
      case Err(e) => r == Failed(e) && !authFailed
    }

    /** A command that holds the lock. `retried` tells whether it went through recovery. */
    method RunLocked(deadline: real) returns (r: Reply)
      requires Valid()
      modifies this`authFailed, this`lockOwnerDeadline, host
      ensures Valid() && Extends()
      ensures old(Logins()) <= Logins() <= old(Logins()) + 1
      ensures old(authFailed) ==> r == Failed(AuthError) && host.run == old(host.run) && authFailed
      ensures !r.Contended?
      ensures r == Failed(OperationTimeout) ==>
        && authFailed == old(authFailed)
        && (Logins() == old(Logins()) ==> host.run == old(host.run) && host.latch == old(host.latch))
        && (Logins() > old(Logins()) ==> host.latch.None? && Confirmed() == old(Confirmed()) + 1)
      ensures r == Failed(QueryError) || r.Answer? ==> !authFailed
      ensures r == Answer(false) ==> host.run == old(host.run)
      ensures Logins() > old(Logins()) && Confirmed() == old(Confirmed()) ==> host.latch.Some? && authFailed
      ensures authFailed && !old(authFailed) ==> OnRecord() && host.failures > old(host.failures)
      ensures !old(authFailed) && deadline - old(host.clock) >= 1.0 ==> host.statements > old(host.statements)
      ensures r == Answer(false) ==> host.statements == old(host.statements) + 1 && host.failures == old(host.failures)
      ensures r == Answer(true) ==>
        host.statements >= old(host.statements) + 3 && host.failures > old(host.failures) && host.last.Ok?
      ensures Logins() > old(Logins()) ==> host.failures > old(host.failures) && host.autoRelogin
      ensures !old(authFailed) && host.statements == old(host.statements) + 1 ==> FirstTold(r, deadline)
      ensures old(authFailed) ==> NoStatement()
      ensures r == Failed(OperationTimeout) ==> deadline - host.clock < 1.0
      ensures r == Failed(AuthError) <==> authFailed
      ensures r.Failed? && !r.failure.OperationTimeout? && !authFailed ==> host.last == Err(r.failure)
      ensures LatchedUnspent() ==>
        host.last == Err(AuthError) || (host.last == Err(ConnError) && host.statements >= old(host.statements) + 3)
    {
      hide Exec, MainStep;
      if authFailed {
        return Failed(AuthError);
      }
      var first := Attempt(deadline);
      if first.Ok? {
        return Answer(false);
      } else if first.error.OperationTimeout? {
        return Failed(OperationTimeout);
      }
      var raised := LatchAuthFailure(first.error);
      if raised {
        return Failed(AuthError);
      } else if !first.error.ConnError? {
        return Failed(first.error);
      }
      r := RecoverAndRetry(deadline);
    }

    /** The connection was lost: one recovery, and if it succeeds in time one retry. */
    method RecoverAndRetry(deadline: real) returns (r: Reply)
      requires Valid() && !authFailed
      modifies this`authFailed, this`lockOwnerDeadline, host
      ensures Valid() && Extends()
      ensures old(Logins()) <= Logins() <= old(Logins()) + 1
      ensures r != Answer(false) && !r.Contended? && (r == Failed(AuthError) <==> authFailed)
      ensures r == Failed(OperationTimeout) ==>
        && (Logins() == old(Logins()) ==> host.run == old(host.run) && host.latch == old(host.latch))
        && (Logins() > old(Logins()) ==> host.latch.None? && Confirmed() == old(Confirmed()) + 1)
      ensures Logins() > old(Logins()) && Confirmed() == old(Confirmed()) ==> host.latch.Some? && authFailed
      ensures authFailed ==> OnRecord() && host.failures > old(host.failures)
      ensures r.Answer? ==> host.statements >= old(host.statements) + 2 && host.last.Ok?
      ensures Logins() > old(Logins()) ==> host.failures > old(host.failures) && host.autoRelogin
      ensures r == Failed(OperationTimeout) ==> deadline - host.clock < 1.0
      ensures r.Failed? && !r.failure.OperationTimeout? && !authFailed ==> host.last == Err(r.failure)
      ensures LatchedUnspent() ==>
        host.last == Err(AuthError) || (host.last == Err(ConnError) && host.statements >= old(host.statements) + 2)
      ensures if deadline - old(host.clock) > 0.0 then host.statements > old(host.statements)
              else r == Failed(OperationTimeout) && NoStatement()
    {
      hide Exec, MainStep;
      var recovery, budgetAt := Recover(Some(deadline));
      if recovery.Raised? {
        return Failed(recovery.failure);
      } else if Expired(Some(deadline), host.clock) {
        return Failed(OperationTimeout);
      }
      r := Retry(deadline);
    }

    /** The same work once more, after a recovery. */
    method Retry(deadline: real) returns (r: Reply)
      requires Valid() && !authFailed
      modifies this`authFailed, host
      ensures Valid() && Extends() && Logins() == old(Logins()) && Confirmed() == old(Confirmed())
      ensures if r.Failed? then r.failure.AuthError? <==> authFailed else r == Answer(true) && !authFailed
      ensures authFailed ==> OnRecord() && host.failures > old(host.failures)
      ensures !authFailed ==> host.latch == old(host.latch)
      ensures r == Failed(OperationTimeout) ==> host.run == old(host.run)
      ensures r.Answer? ==> host.statements > old(host.statements) && host.last.Ok?
      ensures r == Failed(OperationTimeout) ==> deadline - host.clock < 1.0
      ensures r.Failed? && !r.failure.OperationTimeout? && !authFailed ==> host.last == Err(r.failure)
      ensures authFailed ==>
        host.statements > old(host.statements) && (host.last == Err(AuthError) || host.last == Err(ConnError))
    {
      hide Exec, MainStep;
      var again := Attempt(deadline);
      if again.Ok? {
        return Answer(true);
      } else if again.error.AuthError? || again.error.ConnError? {
        LatchLoginFailure(again.error);
        return Failed(AuthError);
      }
      return Failed(again.error);
    }

    /** `run`: the queue wait has its own budget and fails before any database work. */
    method Run(executionTimeout: real) returns (r: Reply)
      requires Valid() && lockOwner.None?
      modifies this, host
      ensures Valid() && Extends() && lockOwner.None?
      ensures old(Logins()) <= Logins() <= old(Logins()) + 1
      ensures old(authFailed) || r.Contended? ==> host.run == old(host.run) && authFailed == old(authFailed)
      ensures r == Failed(OperationTimeout) ==>
        && authFailed == old(authFailed)
        && (Logins() == old(Logins()) ==> host.run == old(host.run) && host.latch == old(host.latch))
        && (Logins() > old(Logins()) ==> host.latch.None? && Confirmed() == old(Confirmed()) + 1)
      ensures r.Answer? ==> !authFailed
      ensures Logins() > old(Logins()) && Confirmed() == old(Confirmed()) ==> host.latch.Some? && authFailed
      ensures authFailed && !old(authFailed) ==> OnRecord() && host.failures > old(host.failures)
      ensures host.calm ==> !r.Contended?
      ensures !r.Contended? && !old(authFailed) && executionTimeout >= 0.0 ==> host.statements > old(host.statements)
      ensures r.Contended? || old(authFailed) ==> NoStatement()
      ensures r == Answer(true) ==>
        host.statements >= old(host.statements) + 3 && host.failures > old(host.failures) && host.last.Ok?
      ensures r == Answer(false) ==> host.statements == old(host.statements) + 1 && host.failures == old(host.failures)
      ensures r == Failed(OperationTimeout) ==> host.clock > old(host.clock) + executionTimeout + 59.0
      ensures !r.Contended? ==> (r == Failed(AuthError) <==> authFailed)
      ensures r.Failed? && !r.failure.OperationTimeout? && !authFailed ==> host.last == Err(r.failure)
      ensures LatchedUnspent() ==>
        host.last == Err(AuthError) || (host.last == Err(ConnError) && host.statements >= old(host.statements) + 3)
    {
      host.Elapse();
      var acquired := host.Works();
      if !acquired {
        return Contended;
      }
      var deadline := host.clock + executionTimeout + RECOVERY_GRACE_SECONDS;
      SetLockOwner(Command, Some(deadline));
      r := RunLocked(deadline);
      ClearLockOwner();
    }

    /** `healthcheck`: never queues behind the lock's owner, never logs in while latched. */
    method Healthcheck() returns (ok: bool)
      requires lockOwner.None? ==> Valid()
      modifies this, host
      ensures old(lockOwner).Some? ==> unchanged(this) && unchanged(host)
      ensures old(lockOwner).Some? ==> ok == (!authFailed && BusyHealth(host.clock).0)
      ensures old(lockOwner).None? ==> Valid() && Extends() && lockOwner.None?
      ensures old(Logins()) <= Logins() <= old(Logins()) + 1
      ensures old(authFailed) ==> !ok && host.run == old(host.run) && authFailed
      ensures old(lockOwner).None? && ok ==> !authFailed && Confirmed() - old(Confirmed()) == Logins() - old(Logins())
      ensures ok && Logins() > old(Logins()) ==> host.latch.None?
      ensures Logins() > old(Logins()) && Confirmed() == old(Confirmed()) ==> host.latch.Some? && authFailed
      ensures authFailed && !old(authFailed) ==> OnRecord() && host.failures > old(host.failures)
      ensures old(lockOwner).None? && !old(authFailed) ==> host.statements > old(host.statements)
      ensures old(lockOwner).None? && !old(authFailed) && host.failures == old(host.failures) ==> ok
      ensures old(lockOwner).None? && !ok && !authFailed ==> host.clock > old(host.clock) + 119.0
      ensures LatchedUnspent() ==> host.last == Err(AuthError)
    {
      if authFailed {
        return false;
      }
      if lockOwner.Some? {
        return BusyHealth(host.clock).0;
      }
      var deadline := host.clock + HEALTHCHECK_TIMEOUT_SECONDS + RECOVERY_GRACE_SECONDS;
      SetLockOwner(HealthProbe, Some(deadline));
      var h := Healthy(Some(deadline));
      ok := h.Well?;
      if h.Sick? {
        var recovery, budgetAt := Recover(Some(deadline));
        ok := !recovery.Raised?;
      }
      ClearLockOwner();
    }

    // --- Boot and the operator -----------------------------------------------

    /** `connect_wrds`: one login under the write-ahead record, verified, then cleared.
        Every failure surfaces as a rejection. */
    method ConnectWrds(prearmed: bool) returns (ok: bool)
      requires InSection() && !authFailed
      requires if prearmed then host.Me().work.Armed? && host.latch.Some? else host.Me().work.Quiet?
      modifies host
      ensures InSection() && Extends() && !authFailed
      ensures old(Logins()) <= Logins() <= old(Logins()) + 1
      ensures ok ==> Valid() && host.latch.None? && Logins() == old(Logins()) + 1 && Confirmed() == old(Confirmed()) + 1
      ensures Logins() > old(Logins()) && Confirmed() == old(Confirmed()) ==> host.latch.Some?
      ensures Logins() == old(Logins()) ==>
        Confirmed() == old(Confirmed()) && (old(host.latch).Some? ==> host.latch.Some?)
      ensures !prearmed && old(host.latch).Some? ==> !ok && Logins() == old(Logins()) && host.latch == old(host.latch)
      ensures !ok && host.calm && (prearmed || old(host.latch).None?) ==> host.failures > old(host.failures)
    {
      hide Exec, MainStep;
      var audited := host.Works();  // the wrds package is the audited one
      if !audited {
        return false;
      }
      if !prearmed {
        var begun := BeginLoginAttempt(false);
        if !begun {
          return false;
        }
      }
      host.Emit(Login);
      ok := FinishConnect();
    }

    /** The spent login connects, is guarded and verified, and only then clears the latch. */
    method FinishConnect() returns (ok: bool)
      requires InSection() && !authFailed && host.Me().work.Spent? && host.latch.Some?
      modifies host
      ensures InSection() && Extends() && Logins() == old(Logins())
      ensures ok ==> Valid() && host.latch.None? && Confirmed() == old(Confirmed()) + 1
      ensures Confirmed() == old(Confirmed()) ==> host.latch.Some?
      ensures !ok && host.calm ==> host.failures > old(host.failures)
    {
      hide Exec, MainStep;
      var connected := host.Execute();
      if connected.Err? {
        return false;
      }
      var prepared := host.Execute();  // reconnect guard, library list
      if prepared.Err? {
        return false;
      }
      var selected := host.Execute();
      if selected.Err? {
        return false;
      }
      ok := ConfirmAndClear();
    }

    method ConfirmAndClear() returns (ok: bool)
      requires InSection() && host.Me().work.Spent?
      modifies host
      ensures Valid() && Extends() && host.Me().failed == old(host.Me().failed) && NoStatement()
      ensures Logins() == old(Logins()) && Confirmed() == old(Confirmed()) + 1
      ensures (ok ==> host.latch.None?) && (host.calm ==> ok)
    {
      hide Exec, MainStep;
      host.Emit(Confirm);
      ok := ClearAttempt();
    }

    /** `unblock`: one approval, at most one login, latched again unless it verified. */
    method Unblock() returns (ok: bool)
      requires Valid() && lockOwner.None? && host.Me().pc.Serving?
      modifies this, host
      ensures Valid() && ExtendsOwn() && lockOwner.None? && host.Me().pc == old(host.Me().pc)
      ensures !old(authFailed) ==> ok && host.run == old(host.run)
      ensures old(authFailed) ==> Approvals() == old(Approvals()) + 1
      ensures old(Logins()) <= Logins() <= old(Logins()) + 1
      ensures old(authFailed) && ok ==>
        !authFailed && host.latch.None? && Logins() == old(Logins()) + 1 && Confirmed() == old(Confirmed()) + 1
      ensures !ok ==> authFailed
      ensures old(host.latch).None? && old(authFailed) ==> !ok && Logins() == old(Logins())
      ensures Logins() > old(Logins()) && Confirmed() == old(Confirmed()) ==> host.latch.Some?
      ensures authFailed ==> OnRecord()
      ensures !ok && host.calm && old(host.latch).Some? ==> host.failures > old(host.failures)
    {
      hide Exec, MainStep;
      SetLockOwner(Operator, None);
      if authFailed {
        Approve();
        ok := ApprovedAttempt();
        if !ok {
          Latch();
        }
      } else {
        ok := true;
      }
      ClearLockOwner();
    }

    /** The operator's approval: recorded, and the memory of the failure lifted. */
    method Approve()
      requires Valid() && authFailed && host.Me().pc.Serving?
      modifies this`authFailed, host`run, host`sys
      ensures Valid() && ExtendsOwn() && !authFailed && host.Me().token.Some? && host.Me().pc == old(host.Me().pc)
      ensures Approvals() == old(Approvals()) + 1 && Logins() == old(Logins()) && Confirmed() == old(Confirmed())
    {
      host.EmitMain(LoginProtocol.Approve);
      authFailed := false;
    }

    method ApprovedAttempt() returns (ok: bool)
      requires Valid() && !authFailed && host.Me().token.Some?
      modifies this`authFailed, host
      ensures InSection() && Extends()
      ensures old(Logins()) <= Logins() <= old(Logins()) + 1
      ensures ok ==> Valid() && !authFailed && host.latch.None?
      ensures ok ==> Logins() == old(Logins()) + 1 && Confirmed() == old(Confirmed()) + 1
      ensures old(host.latch).None? ==> !ok && Logins() == old(Logins())
      ensures Logins() > old(Logins()) && Confirmed() == old(Confirmed()) ==> host.latch.Some?
      ensures !ok && host.calm && old(host.latch).Some? ==> host.failures > old(host.failures)
    {
      var begun := BeginLoginAttempt(true);
      if !begun {
        return false;
      }
      var connected := ConnectWrds(true);
      if !connected {
        return false;
      }
      var h := Healthy(None);
      return h.Well?;
    }

    /** One entry of the process table. */
    method LookOne(q: ProcId, unseen: set<ProcId>) returns (alive: bool)
      requires Idle() && host.Me().pc.Scanning? && host.Me().pc.unseen == unseen
      requires q in unseen && host.me !in unseen && host.table <= unseen + {host.me}
      modifies host`table, host`run, host`sys
      ensures Idle() && ExtendsOwn()
      ensures host.sys.ledger == old(host.sys.ledger) && host.Me().token == old(host.Me().token)
      ensures alive ==> host.Me().pc.Leaving? && !host.Me().pc.served
      ensures !alive ==>
        host.Me().pc.Scanning? && host.Me().pc.unseen == unseen - {q} && host.table <= (unseen - {q}) + {host.me}
    {
      ghost var ident := host.Me().pc.ident;
      alive := host.LookAt(q);
      host.Move(Look(q), if alive then Leaving(ident, false) else Scanning(ident, unseen - {q}));
    }

    /** `_legacy_server_pids`: lists the process table once, then looks at every other daemon
        on it; clear when none of them was alive when it was looked at. */
    method LookAround() returns (clear: bool)
      requires Idle() && host.Me().pc.Owner?
      modifies host`table, host`run, host`sys
      ensures Idle() && ExtendsOwn()
      ensures host.sys.ledger == old(host.sys.ledger) && host.Me().token == old(host.Me().token)
      ensures if clear then host.Me().pc.Scanning? && host.Me().pc.unseen == {} && host.table == {host.me}
              else host.Me().pc.Leaving? && !host.Me().pc.served
      ensures old(host.table) == {host.me} ==> clear
    {
      hide Exec, WorkStep, Grown;
      var unseen := host.table - {host.me};
      GrownBy(host.run, Main(host.me, LoginProtocol.Scan), host.me);
      host.Move(LoginProtocol.Scan, Scanning(host.Me().pc.ident, unseen));
      while unseen != {}
        invariant Idle() && ExtendsOwn() && host.Me().pc.Scanning? && host.Me().pc.unseen == unseen
        invariant host.me !in unseen && host.table <= unseen + {host.me}
        invariant host.sys.ledger == old(host.sys.ledger) && host.Me().token == old(host.Me().token)
        decreases |unseen|
      {
        var q :| q in unseen;
        ghost var before := host.run;
        var alive := LookOne(q, unseen);
        GrownTwice(old(host.run), before, host.run, host.me);
        if alive {
          return false;
        }
        unseen := unseen - {q};
      }
      return true;
    }

    /** `_refuse_live_legacy_processes`. */
    method Scan() returns (clear: bool)
      requires Idle() && host.Me().pc.Owner?
      modifies host`table, host`run, host`sys
      ensures Idle() && ExtendsOwn()
      ensures host.sys.ledger == old(host.sys.ledger) && host.Me().token == old(host.Me().token)
      ensures if clear then host.Me().pc.Scanned? && host.table == {host.me}
              else host.Me().pc.Leaving? && !host.Me().pc.served
      ensures host.calm && old(host.table) == {host.me} ==> clear
    {
      clear := LookAround();
      if clear {
        clear := host.Works();  // the table is readable, and no foreign namespace is still active
        ghost var ident := host.Me().pc.ident;
        host.Move(if clear then Pass else Refuse, if clear then Scanned(ident) else Leaving(ident, false));
      }
    }

    /** Alone on the host, the port is free unless another program holds it. */
    method BindPort() returns (free: bool)
      requires Idle() && host.Me().pc.Scanned? && host.table == {host.me}
      modifies host`run, host`sys
      ensures Idle() && ExtendsOwn() && host.sys.ledger == old(host.sys.ledger)
      ensures host.Me() == old(host.Me()).(pc := host.Me().pc)
      ensures if free then host.Me().pc.Booting? else host.Me().pc.Leaving? && !host.Me().pc.served
      ensures host.calm ==> free
    {
      free := host.Works();
      ghost var ident := host.Me().pc.ident;
      assert !PortTaken(host.sys, host.Me().space);
      host.Move(Bind(free), if free then Booting(ident) else Leaving(ident, false));
    }

    /** `main`, once it owns the marker, until it listens. A live daemon, a taken port or a
        recorded latch without an approval stops the start before anything is spent. */
    method Boot(operatorUnblock: bool) returns (served: bool)
      requires Idle() && !authFailed && host.Me().pc.Owner?
      requires operatorUnblock == host.Me().token.Some?
      modifies this`authFailed, host
      ensures ExtendsOwn() && host.Sound() && Approvals() == old(Approvals())
      ensures old(Logins()) <= Logins() <= old(Logins()) + 1
      ensures served ==> Valid() && host.Me().pc.Serving?
      ensures served && !authFailed ==>
        host.latch.None? && Logins() == old(Logins()) + 1 && Confirmed() == old(Confirmed()) + 1
      ensures !served ==> Logins() == old(Logins()) && !HoldsPort(host.Me().pc)
      ensures old(host.latch).Some? ==> !served || operatorUnblock
      ensures old(host.latch).Some? && !operatorUnblock ==> host.latch == old(host.latch)
      ensures Logins() > old(Logins()) && Confirmed() == old(Confirmed()) ==> host.latch.Some?
      ensures served && authFailed ==> OnRecord()
      ensures !served ==> host.statements == old(host.statements)
      ensures served && authFailed && host.calm ==> host.failures > old(host.failures)
      ensures host.calm && old(host.table) == {host.me} && (old(host.latch).None? || operatorUnblock) ==> served
    {
      hide Exec, WorkStep, MainStep;
      var clear := Scan();
      if clear {
        clear := BindPort();
      }
      if !clear {
        GiveBackMarker();
        return false;
      }
      served := Establish(operatorUnblock);
    }

    /** From the bound port on: the latch, the transports, and the one login. */
    method Establish(operatorUnblock: bool) returns (served: bool)
      requires Valid() && !authFailed && host.Me().pc.Booting?
      requires operatorUnblock == host.Me().token.Some?
      modifies this`authFailed, host
      ensures ExtendsOwn() && host.Sound() && Approvals() == old(Approvals())
      ensures old(Logins()) <= Logins() <= old(Logins()) + 1
      ensures served ==> Valid() && host.Me().pc.Serving?
      ensures served && !authFailed ==>
        host.latch.None? && Logins() == old(Logins()) + 1 && Confirmed() == old(Confirmed()) + 1
      ensures !served ==> Logins() == old(Logins()) && !HoldsPort(host.Me().pc)
      ensures old(host.latch).Some? ==> !served || operatorUnblock
      ensures old(host.latch).Some? && !operatorUnblock ==> host.latch == old(host.latch)
      ensures Logins() > old(Logins()) && Confirmed() == old(Confirmed()) ==> host.latch.Some?
      ensures served && authFailed ==> OnRecord()
      ensures !served ==> host.statements == old(host.statements)
      ensures served && authFailed && host.calm ==> host.failures > old(host.failures)
      ensures host.calm && (old(host.latch).None? || operatorUnblock) ==> served
    {
      var readable := host.Works();
      var storageSound := host.Works();
      var blocked := host.latch.Some?;
      if !readable || (!blocked && !storageSound) || (blocked && !operatorUnblock) {
        Shutdown();
        return false;
      }
      var transportBound := host.Works();  // compatibility guard, second scan, Unix socket, pid file
      if !transportBound {
        Shutdown();
        return false;
      }
      if blocked {
        var begun := BeginLoginAttempt(true);
        if !begun {
          Shutdown();
          return false;
        }
      }
      FirstLogin(blocked);
      return true;
    }

    /** The boot login; on failure the process stays up, latched, holding the port. */
    method FirstLogin(prearmed: bool)
      requires InSection() && !authFailed && host.Me().pc.Booting?
      requires if prearmed then host.Me().work.Armed? && host.latch.Some? else host.Me().work.Quiet?
      modifies this`authFailed, host
      ensures Valid() && ExtendsOwn() && host.Me().pc.Serving? && Approvals() == old(Approvals())
      ensures old(Logins()) <= Logins() <= old(Logins()) + 1
      ensures !authFailed ==>
        host.latch.None? && Logins() == old(Logins()) + 1 && Confirmed() == old(Confirmed()) + 1
      ensures Logins() > old(Logins()) && Confirmed() == old(Confirmed()) ==> host.latch.Some?
      ensures authFailed ==> OnRecord()
      ensures host.failures >= old(host.failures)
      ensures authFailed && host.calm && (prearmed || old(host.latch).None?) ==> host.failures > old(host.failures)
    {
      hide Exec, WorkStep;
      var connected := ConnectWrds(prearmed);
      if !connected {
        Latch();
      }
      host.Move(Ready, Serving(host.Me().pc.ident));
    }

    /** Closes the port and gives the marker back, without a word to the threads that are
        still at work: they keep their stage, and may go on until the process has exited. */
    method Shutdown()
      requires host.Sound() && HoldsPort(host.Me().pc)
      modifies host`run, host`sys
      ensures host.Valid() && !HoldsPort(host.Me().pc) && ExtendsOwn()
      ensures host.sys.ledger == old(host.sys.ledger)
      ensures host.Me() == old(host.Me()).(pc := host.Me().pc)
    {
      hide Exec, WorkStep;
      host.Move(ClosePort, Leaving(host.Me().pc.ident, true));
      GiveBackMarker();
    }

    method GiveBackMarker()
      requires host.Sound() && host.Me().pc.Leaving?
      modifies host`run, host`sys
      ensures host.Sound() && !HoldsPort(host.Me().pc) && ExtendsOwn()
      ensures Working(host.Me().pc) == old(host.Me().pc.served)
      ensures host.sys.ledger == old(host.sys.ledger)
      ensures host.Me() == old(host.Me()).(pc := host.Me().pc)
    {
      hide Exec, WorkStep;
      ghost var served := host.Me().pc.served;
      if MoveTo(host.rules, host.sys, host.me, DropMarker, Exiting(served)) {
        host.Move(DropMarker, Exiting(served));
      } else {
        host.Move(DropMarker, Unlinking(0, Some(served)));
        host.Move(Unlink, Exiting(served));
      }
    }
  }

  datatype Request = RunCommand(executionTimeout: real) | Probe | OperatorUnblock | Terminate

  /** A command, probe or unblock, and all that may come after it: when it leaves the daemon
      without a credential and the disk can be written, the rejection is on disk, and with no
      approval outstanding no later daemon, however often it is started, spends a login. */
  method HandleOnce(state: WrdsState, request: Request)
    requires state.Valid() && state.lockOwner.None? && state.host.Me().pc.Serving?
    requires !state.authFailed || request.OperatorUnblock?
    modifies state, state.host
    ensures state.Valid()
    ensures state.authFailed && state.host.calm ==>
      && state.host.latch == Some(Terminal)
      && (Unapproved(state.host.sys) ==> SpendsNoMore(state.host.rules, state.host.sys))
  {
    hide Exec, MainStep, WorkStep, SpendsNoMore, Unapproved;
    match request {
      case RunCommand(executionTimeout) => var _ := state.Run(executionTimeout);
      case Probe => var _ := state.Healthcheck();
      case OperatorUnblock => var _ := state.Unblock();
      case Terminate => state.Shutdown();
    }
    if state.authFailed && state.host.calm && Unapproved(state.host.sys) {
      LatchedSpendsNothing(state.host.rules, state.host.run, state.host.sys, state.host.me);
    }
  }

  /** Any life of a daemon that owns the marker: scan, boot, then any commands in any order,
      some of them finished by threads that outlive the shutdown. Whatever the host's history,
      and wherever this life is cut short, the logins that were never verified stay within
      one more than the operator's approvals. */
  method Serve(state: WrdsState, operatorUnblock: bool, requests: seq<Request>)
    requires state.Idle() && !state.authFailed && state.lockOwner.None?
    requires state.host.Me().pc.Owner? && operatorUnblock == state.host.Me().token.Some?
    modifies state, state.host
    ensures Exec(state.host.rules, Init, state.host.run) == Some(state.host.sys)
    ensures forall k | 0 <= k <= |state.host.run| ::
      WithinBudgetAt(state.host.rules, state.host.run[..k])
  {
    var served := state.Boot(operatorUnblock);
    var serving := served;
    var i := 0;
    while served && i < |requests|
      invariant 0 <= i <= |requests|
      invariant Exec(state.host.rules, Init, state.host.run) == Some(state.host.sys)
      invariant served ==> state.Valid() && state.lockOwner.None? && (serving ==> state.host.Me().pc.Serving?)
    {
      match requests[i] {
        case RunCommand(executionTimeout) => var _ := state.Run(executionTimeout);
        case Probe => var _ := state.Healthcheck();
        case OperatorUnblock =>
          if serving {
            var _ := state.Unblock();
          }
        case Terminate =>
          if serving {
            state.Shutdown();
            serving := false;
          }
      }
      i := i + 1;
    }
    forall k | 0 <= k <= |state.host.run|
      ensures WithinBudgetAt(state.host.rules, state.host.run[..k])
    {
      PrefixRuns(state.host.rules, Init, state.host.run, k);
      LoginBudget(state.host.rules, state.host.run[..k]);
    }
  }

  ghost predicate WithinBudgetAt(rules: Rules, run: seq<Label>) {
    Exec(rules, Init, run).Some? && WithinBudget(Exec(rules, Init, run).value.ledger)
  }
}
