/**
 The durable login protocol of the WRDS daemon, as a transition system.

 Any number of daemon processes start, race for the singleton marker, scan the host
 for other daemons, bind the reserved port of their network namespace, spend credential
 logins under the write-ahead latch, serve, shut down, and crash between any two
 primitive steps. A process is named by a number that is never reused (a pid together
 with its birth token); a marker file by a number that is never reused (device, inode
 and change time).

 `Step` is a partial function: a run is a sequence of labels that it accepts. The
 class `WrdsState` in WrdsDaemon.dfy emits exactly such labels.
 */
module LoginProtocol {
  import opened Basics

  type ProcId = nat

  /** The singleton marker: its owner, and the identity of the file itself. */
  datatype Marker = Marker(owner: ProcId, ident: nat)

  /** The durable latch: a write-ahead attempt record or a terminal message. */
  datatype Record = InProgress(writer: ProcId) | Terminal

  /** An OSError may strike before the rename/unlink took effect, or after it. */
  datatype Outcome = Done | FailedBefore | FailedAfter

  /** Where the one thread inside a process's login section is. */
  datatype Work =
    | Quiet
    | Entered(retry: bool)   // about to read the latch
    | Accepted(retry: bool)  // latch read and accepted, marker not yet written
    | Armed                  // write-ahead marker durable, login not yet spent
    | Spent                  // credential login spent, not verified
    | Verified               // SELECT 1 passed on the new connection
    | Failing                // in-memory latch set, durable write still to come

  /** The main thread. `left` counts the link attempts that remain after this one; a scan
      has the processes of `unseen` still to look at; `served` tells whether threads that
      were serving may still run. */
  datatype Pc =
    | Linking(left: nat)
    | Inspecting(left: nat)
    | Judging(left: nat, seen: Option<Marker>)
    | Removing(left: nat, seenIdent: Option<nat>)
    | Unlinking(left: nat, leaving: Option<bool>)
    | Owner(ident: nat)
    | Scanning(ident: nat, unseen: set<ProcId>)
    | Scanned(ident: nat)
    | Booting(ident: nat)
    | Serving(ident: nat)
    | Leaving(ident: nat, served: bool)
    | Exiting(served: bool)

  /** A process: its main thread, its login section, its memory of a failed login, the
      operator approval it holds, and its network namespace. */
  datatype Proc = Proc(pc: Pc, work: Work, failed: bool, token: Option<nat>, space: nat)

  /** What survives a crash, and the counts the claims are about. Operator approval
      number n went to process `approvals[n]`; `used` holds the numbers already spent. */
  datatype Ledger = Ledger(latch: Option<Record>, approvals: seq<ProcId>, used: set<nat>, logins: nat, confirmed: nat)

  /** A fact about the platform that the claims about the marker need: comparing a marker's
      identity and unlinking it is one step. Nothing about logins depends on it. */
  datatype Rules = Rules(atomicRemoval: bool)

  datatype State = State(
    procs: map<ProcId, Proc>, nextProc: ProcId, marker: Option<Marker>, nextIdent: nat, ledger: Ledger)

  datatype Label =
    | Start(operator: bool, space: nat)
    | Crash(p: ProcId)
    | Main(p: ProcId, move: Move)
    | Work(p: ProcId, act: Act)

  /** The main thread: marker acquisition, the process scan, boot, shutdown, and the
      operator's unblock. A scan lists the processes once and then looks at each of them;
      a port may also be held by a program of another release. */
  datatype Move =
    | Link | Inspect | Judge | Remove | Unlink
    | Scan | Look(q: ProcId) | Pass | Refuse
    | Bind(free: bool) | Ready | ClosePort | DropMarker | Approve

  /** The login section. */
  datatype Act =
    | Begin(retry: bool)
    | Check
    | Arm(outcome: Outcome)
    | Login
    | Confirm
    | Clear(outcome: Outcome)
    | Fail
    | Block(outcome: Outcome)

  const LINK_ATTEMPTS := 8

  const Init := State(map[], 0, None, 0, Ledger(None, [], {}, 0, 0))

  /** Logins started and never verified. */
  function Unconfirmed(g: Ledger): int {
    g.logins - g.confirmed
  }

  /** What one step does: to the stepping process (None: it exits) and to the host. */
  datatype Effect = Effect(me: Option<Proc>, marker: Option<Marker>, nextIdent: nat, ledger: Ledger)

  /** A process that exits stops all its threads, and the kernel releases its port. */
  function Apply(s: State, p: ProcId, e: Effect): State {
    s.(procs := if e.me.Some? then s.procs[p := e.me.value] else s.procs - {p},
       marker := e.marker, nextIdent := e.nextIdent, ledger := e.ledger)
  }

  function Become(s: State, me: Option<Proc>): Effect {
    Effect(me, s.marker, s.nextIdent, s.ledger)
  }

  /** The acquisition loop goes round again, or gives up and exits. */
  function Retry(me: Proc, left: nat): Option<Proc> {
    if left == 0 then None else Some(me.(pc := Linking(left - 1)))
  }

  /** The process believes that it owns the singleton marker. */
  predicate Believes(pc: Pc) {
    pc.Owner? || pc.Scanning? || pc.Scanned? || pc.Booting? || pc.Serving? || pc.Leaving?
  }

  predicate HoldsPort(pc: Pc) {
    pc.Booting? || pc.Serving?
  }

  predicate PortTaken(s: State, space: nat) {
    exists q :: q in s.procs && s.procs[q].space == space && HoldsPort(s.procs[q].pc)
  }

  /** Whether login-section threads of a process at `pc` can still run: shutdown closes the
      port and drops the marker without stopping them. */
  predicate Working(pc: Pc) {
    || HoldsPort(pc) || (pc.Leaving? && pc.served) || (pc.Exiting? && pc.served)
    || (pc.Unlinking? && pc.leaving == Some(true))
  }

  /** A process that has just started, holding a new approval if an operator started it. */
  function Fresh(s: State, operator: bool, space: nat): Proc {
    Proc(Linking(LINK_ATTEMPTS - 1), Quiet, false, if operator then Some(|s.ledger.approvals|) else None, space)
  }

  function Approved(s: State, operator: bool): Ledger {
    if operator then s.ledger.(approvals := s.ledger.approvals + [s.nextProc]) else s.ledger
  }

  function Started(s: State, me: Proc, ledger: Ledger): State {
    s.(procs := s.procs[s.nextProc := me], nextProc := s.nextProc + 1, ledger := ledger)
  }

  function Step(rules: Rules, s: State, l: Label): Option<State> {
    match l
    case Start(operator, space) => Some(Started(s, Fresh(s, operator, space), Approved(s, operator)))
    case Crash(p) =>
      if p in s.procs then Some(Apply(s, p, Become(s, None))) else None
    case Main(p, move) =>
      if p !in s.procs then None
      else
        var e := MainStep(rules, s, p, s.procs[p], move);
        if e.Some? then Some(Apply(s, p, e.value)) else None
    case Work(p, act) =>
      if p !in s.procs || !Working(s.procs[p].pc) then None
      else
        var e := WorkEffect(s, p, act);
        if e.Some? then Some(Apply(s, p, e.value)) else None
  }

  function WorkEffect(s: State, p: ProcId, act: Act): Option<Effect>
    requires p in s.procs
  {
    var r := WorkStep(s.procs[p], p, s.ledger, act);
    if r.Some? then Some(Become(s, Some(r.value.0)).(ledger := r.value.1)) else None
  }

  function MainStep(rules: Rules, s: State, p: ProcId, me: Proc, move: Move): Option<Effect> {
    match (move, me.pc)
    case (Link, Linking(left)) =>
      if s.marker.Some? then Some(Become(s, Some(me.(pc := Inspecting(left)))))
      else Some(Become(s, Some(me.(pc := Owner(s.nextIdent))))
                .(marker := Some(Marker(p, s.nextIdent)), nextIdent := s.nextIdent + 1))
    case (Inspect, Inspecting(left)) =>
      Some(Become(s, Some(me.(pc := Judging(left, s.marker)))))
    case (Judge, Judging(left, seen)) =>
      if seen.Some? && seen.value.owner in s.procs then Some(Become(s, None))
      else Some(Become(s, Some(me.(pc := Removing(left, if seen.Some? then Some(seen.value.ident) else None)))))
    case (Remove, Removing(left, seenIdent)) =>
      if s.marker.None? || Some(s.marker.value.ident) != seenIdent then Some(Become(s, Retry(me, left)))
      else if rules.atomicRemoval then Some(Become(s, Retry(me, left)).(marker := None))
      else Some(Become(s, Some(me.(pc := Unlinking(left, None)))))
    case (Unlink, Unlinking(left, leaving)) =>
      var after := if leaving.Some? then Some(me.(pc := Exiting(leaving.value))) else Retry(me, left);
      Some(Become(s, after).(marker := None))
    case (Scan, Owner(ident)) =>
      Some(Become(s, Some(me.(pc := Scanning(ident, s.procs.Keys - {p})))))
    case (Look(q), Scanning(ident, unseen)) =>
      if q !in unseen then None
      else
        var pc := if q in s.procs then Leaving(ident, false) else Scanning(ident, unseen - {q});
        Some(Become(s, Some(me.(pc := pc))))
    case (Pass, Scanning(ident, unseen)) =>
      if unseen != {} then None else Some(Become(s, Some(me.(pc := Scanned(ident)))))
    case (Refuse, Scanning(ident, _)) =>
      Some(Become(s, Some(me.(pc := Leaving(ident, false)))))
    case (Bind(free), Scanned(ident)) =>
      var pc := if free && !PortTaken(s, me.space) then Booting(ident) else Leaving(ident, false);
      Some(Become(s, Some(me.(pc := pc))))
    case (Ready, Booting(ident)) =>
      Some(Become(s, Some(me.(pc := Serving(ident)))))
    case (ClosePort, pc) =>
      if !HoldsPort(pc) then None else Some(Become(s, Some(me.(pc := Leaving(pc.ident, true)))))
    case (DropMarker, Leaving(ident, served)) =>
      if s.marker.None? || s.marker.value.ident != ident then Some(Become(s, Some(me.(pc := Exiting(served)))))
      else if rules.atomicRemoval then Some(Become(s, Some(me.(pc := Exiting(served)))).(marker := None))
      else Some(Become(s, Some(me.(pc := Unlinking(0, Some(served))))))
    case (Approve, Serving(_)) =>
      if me.failed && me.work.Quiet? then
        Some(Become(s, Some(me.(failed := false, token := Some(|s.ledger.approvals|))))
             .(ledger := s.ledger.(approvals := s.ledger.approvals + [p])))
      else None
    case _ => None
  }

  /** One primitive step of the login section. The guards are the code's own tests:
      no step is refused on account of the counts. */
  function WorkStep(me: Proc, p: ProcId, g: Ledger, act: Act): Option<(Proc, Ledger)> {
    match (act, me.work)
    case (Begin(retry), Quiet) =>
      if me.failed then None
      else if !retry then Some((me.(work := Entered(false)), g))
      else if me.token.None? then None
      else Some((me.(work := Entered(true), token := None), g.(used := g.used + {me.token.value})))
    case (Check, Entered(retry)) =>
      Some((me.(work := if g.latch.Some? == retry then Accepted(retry) else Quiet), g))
    case (Arm(outcome), Accepted(retry)) =>
      Some((me.(work := if outcome.Done? then Armed else Quiet),
            g.(latch := if outcome.FailedBefore? then g.latch else Some(InProgress(p)))))
    case (Login, Armed) =>
      Some((me.(work := Spent), g.(logins := g.logins + 1)))
    case (Confirm, Spent) =>
      Some((me.(work := Verified), g.(confirmed := g.confirmed + 1)))
    case (Clear(outcome), Verified) =>
      Some((me.(work := Quiet), g.(latch := if outcome.FailedBefore? then g.latch else None)))
    case (Fail, _) =>
      Some((me.(failed := true, work := Failing), g))
    case (Block(outcome), Failing) =>
      Some((me.(work := Quiet), g.(latch := if outcome.FailedBefore? then g.latch else Some(Terminal))))
    case _ => None
  }

  /** The state a run leads to, or None when some step is not allowed. */
  function Exec(rules: Rules, s: State, run: seq<Label>): Option<State>
    decreases |run|
  {
    if run == [] then Some(s)
    else match Step(rules, s, run[0])
      case None => None
      case Some(next) => Exec(rules, next, run[1..])
  }

  lemma {:induction false} ExecAppend(rules: Rules, s: State, a: seq<Label>, b: seq<Label>)
    requires Exec(rules, s, a).Some?
    decreases |a|
    ensures Exec(rules, s, a + b) == Exec(rules, Exec(rules, s, a).value, b)
  {
    if a == [] {
      assert a + b == b;
    } else {
      var next := Step(rules, s, a[0]).value;
      assert (a + b)[1..] == a[1..] + b;
      ExecAppend(rules, next, a[1..], b);
    }
  }

  // --- The singleton marker --------------------------------------------------

  /** What acquisition relies on: markers name real identities, a marker about to be
      removed has a dead owner, and every believer's marker is the one on disk. */
  ghost predicate MarkerInv(s: State) {
    && (forall p | p in s.procs :: p < s.nextProc)
    && (s.marker.Some? ==> s.marker.value.ident < s.nextIdent && s.marker.value.owner < s.nextProc)
    && (forall p | p in s.procs :: Seen(s, s.procs[p].pc))
    && (forall p | p in s.procs && Believes(s.procs[p].pc) ::
          s.marker == Some(Marker(p, s.procs[p].pc.ident)))
  }

  ghost predicate Seen(s: State, pc: Pc) {
    match pc
    case Judging(_, Some(m)) =>
      m.ident < s.nextIdent && m.owner < s.nextProc &&
      (s.marker.Some? && s.marker.value.ident == m.ident ==> s.marker.value == m)
    case Removing(_, Some(i)) =>
      i < s.nextIdent &&
      (s.marker.Some? && s.marker.value.ident == i ==> s.marker.value.owner !in s.procs)
    case Unlinking(_, _) => false
    case _ => true
  }

  /** What a step may do to the marker, for the process that takes it and for the others. */
  ghost predicate MarkerEffect(s: State, p: ProcId, pc: Pc, e: Effect) {
    && (|| (e.marker == s.marker && e.nextIdent == s.nextIdent)
        || (e.marker == Some(Marker(p, s.nextIdent)) && s.marker.None? && e.nextIdent == s.nextIdent + 1)
        || (e.marker.None? && s.marker.Some? && e.nextIdent == s.nextIdent &&
            (s.marker.value.owner !in s.procs || (s.marker.value.owner == p && Believes(pc)))))
    && (e.me.Some? ==> NextSeen(s, pc, e.me.value.pc, e.marker))
    && (e.me.Some? && Believes(e.me.value.pc) ==> e.marker == Some(Marker(p, e.me.value.pc.ident)))
  }

  /** What the process itself has read, or judged, of the marker. */
  ghost predicate NextSeen(s: State, pc: Pc, pc': Pc, marker: Option<Marker>) {
    && (pc'.Judging? ==> pc'.seen == s.marker == marker)
    && (pc'.Removing? && pc'.seenIdent.Some? ==>
          pc.Judging? && marker == s.marker && pc.seen.Some? &&
          pc.seen.value.ident == pc'.seenIdent.value && pc.seen.value.owner !in s.procs)
    && !pc'.Unlinking?
  }

  /** With atomic removal, a step changes the marker in one of three ways: it links its
      own under a fresh identity, removes a dead owner's, or gives its own back. */
  lemma MainMarker(rules: Rules, s: State, p: ProcId, me: Proc, move: Move)
    requires rules.atomicRemoval && MainStep(rules, s, p, me, move).Some?
    requires Seen(s, me.pc) && (Believes(me.pc) ==> s.marker == Some(Marker(p, me.pc.ident)))
    ensures MarkerEffect(s, p, me.pc, MainStep(rules, s, p, me, move).value)
  {
  }

  /** The same step, seen by every process that is left. */
  lemma SeenApply(s: State, p: ProcId, e: Effect, q: ProcId)
    requires MarkerInv(s) && p in s.procs && MarkerEffect(s, p, s.procs[p].pc, e) && q in Apply(s, p, e).procs
    ensures var t := Apply(s, p, e);
      && Seen(t, t.procs[q].pc)
      && (Believes(t.procs[q].pc) ==> t.marker == Some(Marker(q, t.procs[q].pc.ident)))
  {
    assert Seen(s, s.procs[p].pc) && Seen(s, s.procs[q].pc);
  }

  lemma MarkerApply(s: State, p: ProcId, e: Effect)
    requires MarkerInv(s) && p in s.procs && MarkerEffect(s, p, s.procs[p].pc, e)
    ensures MarkerInv(Apply(s, p, e))
  {
    var t := Apply(s, p, e);
    forall q | q in t.procs
      ensures Seen(t, t.procs[q].pc)
      ensures Believes(t.procs[q].pc) ==> t.marker == Some(Marker(q, t.procs[q].pc.ident))
    {
      SeenApply(s, p, e, q);
    }
  }

  lemma MarkerStart(s: State, me: Proc, ledger: Ledger)
    requires MarkerInv(s) && me.pc.Linking?
    ensures MarkerInv(Started(s, me, ledger))
  {
  }

  lemma MarkerWork(rules: Rules, s: State, p: ProcId, act: Act)
    requires MarkerInv(s) && Step(rules, s, Work(p, act)).Some?
    ensures MarkerInv(Step(rules, s, Work(p, act)).value)
  {
    var e := WorkEffect(s, p, act).value;
    assert Seen(s, s.procs[p].pc);
    WorkKeepsPc(s, p, act);
    MarkerSame(s, p, e);
  }

  lemma MarkerSame(s: State, p: ProcId, e: Effect)
    requires MarkerInv(s) && p in s.procs && e.marker == s.marker && e.nextIdent == s.nextIdent
    requires e.me.Some? ==> e.me.value.pc == s.procs[p].pc
    ensures MarkerInv(Apply(s, p, e))
  {
    var t := Apply(s, p, e);
    forall q | q in t.procs
      ensures Seen(t, t.procs[q].pc)
    {
      assert Seen(s, s.procs[q].pc);
    }
  }

  lemma MarkerStep(rules: Rules, s: State, l: Label)
    requires rules.atomicRemoval && MarkerInv(s) && Step(rules, s, l).Some?
    ensures MarkerInv(Step(rules, s, l).value)
  {
    match l
    case Start(operator, space) => MarkerStart(s, Fresh(s, operator, space), Approved(s, operator));
    case Crash(p) => MarkerSame(s, p, Become(s, None));
    case Main(p, move) =>
      assert Seen(s, s.procs[p].pc);
      MainMarker(rules, s, p, s.procs[p], move);
      MarkerApply(s, p, MainStep(rules, s, p, s.procs[p], move).value);
    case Work(p, act) => MarkerWork(rules, s, p, act);
  }

  lemma {:induction false} MarkerRun(rules: Rules, s: State, run: seq<Label>)
    requires rules.atomicRemoval && MarkerInv(s) && Exec(rules, s, run).Some?
    decreases |run|
    ensures MarkerInv(Exec(rules, s, run).value)
  {
    if run != [] {
      MarkerStep(rules, s, run[0]);
      MarkerRun(rules, Step(rules, s, run[0]).value, run[1..]);
    }
  }

  /** Main result: with atomic removal, over every run of concurrent starters and
      crashes, two live processes never both believe that they own the marker, and
      a live owner's marker is the one on disk. */
  lemma Singleton(rules: Rules, run: seq<Label>)
    requires rules.atomicRemoval && Exec(rules, Init, run).Some?
    ensures var s := Exec(rules, Init, run).value;
      forall p | p in s.procs && Believes(s.procs[p].pc) ::
        && s.marker == Some(Marker(p, s.procs[p].pc.ident))
        && forall q | q in s.procs && Believes(s.procs[q].pc) :: q == p
  {
    MarkerRun(rules, Init, run);
  }

  // --- The login budget ------------------------------------------------------

  /** From its first look at the process table a process counts as scanning or past its scan. */
  predicate Past(pc: Pc) {
    pc.Scanned? || Working(pc)
  }

  predicate InScan(pc: Pc) {
    pc.Scanning? || Past(pc)
  }

  function Unseen(pc: Pc): set<ProcId> {
    if pc.Scanning? then pc.unseen else {}
  }

  /** Of two live processes that have begun their scans, the later one still has to look at
      the earlier one; and only a process past its scan is in its login section. */
  ghost predicate ScanInv(s: State) {
    && (forall p | p in s.procs :: p < s.nextProc)
    && (forall p, q | p in s.procs && q in s.procs && p != q && InScan(s.procs[p].pc) && InScan(s.procs[q].pc) ::
          q in Unseen(s.procs[p].pc) || p in Unseen(s.procs[q].pc))
    && (forall p | p in s.procs && !s.procs[p].work.Quiet? :: Working(s.procs[p].pc))
  }

  /** An approval is spent at most once. */
  ghost predicate TokenInv(s: State) {
    && (forall t | t in s.ledger.used :: t < |s.ledger.approvals|)
    && (forall p | p in s.procs :: Holds(s.ledger, p, s.procs[p].token))
  }

  predicate Holds(g: Ledger, p: ProcId, token: Option<nat>) {
    token.Some? ==>
      token.value < |g.approvals| && g.approvals[token.value] == p && token.value !in g.used
  }

  /** 1 when a process in this stage may still turn what it has into a login. */
  function Credit(w: Work): int {
    if w.Armed? || (w.Entered? && w.retry) || (w.Accepted? && w.retry) then 1 else 0
  }

  function Present(latch: Option<Record>): int {
    if latch.Some? then 1 else 0
  }

  /** The accounting: every login not yet verified is covered by a spent approval
      or by the durable latch, and a started attempt always has a latch. */
  ghost predicate Covered(g: Ledger, w: Work) {
    && Unconfirmed(g) + Credit(w) <= |g.used| + Present(g.latch)
    && (w.Armed? || w.Spent? ==> g.latch.Some?)
    && (w.Accepted? ==> g.latch.Some? == w.retry)
    && (w.Verified? ==> Unconfirmed(g) <= |g.used|)
  }

  /** One primitive step of the login section keeps the accounting. */
  lemma CoveredStep(me: Proc, p: ProcId, g: Ledger, act: Act)
    requires Covered(g, me.work) && WorkStep(me, p, g, act).Some?
    requires me.token.Some? ==> me.token.value !in g.used
    ensures var (me', g') := WorkStep(me, p, g, act).value; Covered(g', me'.work)
  {
    if act == Begin(true) {
      assert |g.used + {me.token.value}| == |g.used| + 1;
    }
  }

  ghost predicate Accounts(s: State) {
    Covered(s.ledger, Quiet) && forall p | p in s.procs :: Covered(s.ledger, s.procs[p].work)
  }

  ghost predicate LoginInv(s: State) {
    ScanInv(s) && TokenInv(s) && Accounts(s)
  }

  lemma WorkKeepsPc(s: State, p: ProcId, act: Act)
    requires p in s.procs && WorkEffect(s, p, act).Some?
    ensures var e := WorkEffect(s, p, act).value;
      && e.me.Some? && e.me.value.pc == s.procs[p].pc && e.me.value.space == s.procs[p].space
      && e.marker == s.marker && e.nextIdent == s.nextIdent
  {
  }

  /** The main thread changes the ledger only by recording an approval, and leaves the login
      section alone. */
  lemma MainLedger(rules: Rules, s: State, p: ProcId, me: Proc, move: Move)
    requires MainStep(rules, s, p, me, move).Some?
    ensures var e := MainStep(rules, s, p, me, move).value;
      && e.ledger == s.ledger.(approvals := if move.Approve? then s.ledger.approvals + [p] else s.ledger.approvals)
      && (e.me.Some? ==> e.me.value.token == if move.Approve? then Some(|s.ledger.approvals|) else me.token)
      && (e.me.Some? ==> e.me.value.work == me.work && (Working(me.pc) ==> Working(e.me.value.pc)))
  {
  }

  /** A process begins its scan with everyone else unseen, and strikes off only the dead. */
  lemma MainScan(rules: Rules, s: State, p: ProcId, me: Proc, move: Move)
    requires MainStep(rules, s, p, me, move).Some? && MainStep(rules, s, p, me, move).value.me.Some?
    requires InScan(MainStep(rules, s, p, me, move).value.me.value.pc)
    ensures var pc := MainStep(rules, s, p, me, move).value.me.value.pc;
      if InScan(me.pc) then forall q | q in s.procs && q in Unseen(me.pc) :: q in Unseen(pc)
      else Unseen(pc) == s.procs.Keys - {p}
  {
  }

  /** What a step may do to the scan and the login section of the process that takes it. */
  ghost predicate ScanEffect(s: State, p: ProcId, me: Proc, me': Proc) {
    && (InScan(me'.pc) ==>
          if InScan(me.pc) then forall q | q in s.procs && q in Unseen(me.pc) :: q in Unseen(me'.pc)
          else Unseen(me'.pc) == s.procs.Keys - {p})
    && (!me'.work.Quiet? ==> Working(me'.pc))
  }

  lemma ScanApply(s: State, p: ProcId, e: Effect)
    requires ScanInv(s) && p in s.procs && (e.me.Some? ==> ScanEffect(s, p, s.procs[p], e.me.value))
    ensures ScanInv(Apply(s, p, e))
  {
  }

  lemma ScanStart(s: State, me: Proc, ledger: Ledger)
    requires ScanInv(s) && me.pc.Linking? && me.work.Quiet?
    ensures ScanInv(Started(s, me, ledger))
  {
  }

  lemma ScanStep(rules: Rules, s: State, l: Label)
    requires ScanInv(s) && Step(rules, s, l).Some?
    ensures ScanInv(Step(rules, s, l).value)
  {
    match l
    case Start(operator, space) => ScanStart(s, Fresh(s, operator, space), Approved(s, operator));
    case Crash(p) => ScanApply(s, p, Become(s, None));
    case Main(p, move) =>
      var e := MainStep(rules, s, p, s.procs[p], move).value;
      MainLedger(rules, s, p, s.procs[p], move);
      if e.me.Some? && InScan(e.me.value.pc) {
        MainScan(rules, s, p, s.procs[p], move);
      }
      ScanApply(s, p, e);
    case Work(p, act) =>
      WorkKeepsPc(s, p, act);
      ScanApply(s, p, WorkEffect(s, p, act).value);
  }

  lemma TokenApply(s: State, p: ProcId, e: Effect)
    requires TokenInv(s) && p in s.procs && s.ledger.approvals <= e.ledger.approvals
    requires forall t | t in e.ledger.used :: t < |e.ledger.approvals|
    requires forall t | t in e.ledger.used && t !in s.ledger.used :: s.procs[p].token == Some(t)
    requires e.me.Some? ==> Holds(e.ledger, p, e.me.value.token)
    ensures TokenInv(Apply(s, p, e))
  {
    var t := Apply(s, p, e);
    forall q | q in t.procs
      ensures Holds(t.ledger, q, t.procs[q].token)
    {
      assert Holds(s.ledger, q, s.procs[q].token) && Holds(s.ledger, p, s.procs[p].token);
    }
  }

  lemma TokenStart(s: State, operator: bool, space: nat)
    requires TokenInv(s)
    ensures TokenInv(Started(s, Fresh(s, operator, space), Approved(s, operator)))
  {
    var t := Started(s, Fresh(s, operator, space), Approved(s, operator));
    forall q | q in t.procs
      ensures Holds(t.ledger, q, t.procs[q].token)
    {
      assert q != s.nextProc ==> Holds(s.ledger, q, s.procs[q].token);
    }
  }

  lemma TokenStep(rules: Rules, s: State, l: Label)
    requires TokenInv(s) && Step(rules, s, l).Some?
    ensures TokenInv(Step(rules, s, l).value)
  {
    match l
    case Start(operator, space) => TokenStart(s, operator, space);
    case Crash(p) => TokenApply(s, p, Become(s, None));
    case Main(p, move) =>
      assert Holds(s.ledger, p, s.procs[p].token);
      MainLedger(rules, s, p, s.procs[p], move);
      TokenApply(s, p, MainStep(rules, s, p, s.procs[p], move).value);
    case Work(p, act) =>
      assert Holds(s.ledger, p, s.procs[p].token);
      WorkTokens(s.procs[p], p, s.ledger, act);
      TokenApply(s, p, WorkEffect(s, p, act).value);
  }

  /** The login section spends the token that it drops, and no other. */
  lemma WorkTokens(me: Proc, p: ProcId, g: Ledger, act: Act)
    requires WorkStep(me, p, g, act).Some? && Holds(g, p, me.token)
    ensures var (me', g') := WorkStep(me, p, g, act).value;
      && Holds(g', p, me'.token) && g'.approvals == g.approvals
      && (g'.used == g.used || (me.token.Some? && g'.used == g.used + {me.token.value}))
  {
  }

  /** At most one live process is past its scan. */
  lemma OnePast(s: State, p: ProcId, q: ProcId)
    requires ScanInv(s) && p in s.procs && q in s.procs && Past(s.procs[p].pc) && Past(s.procs[q].pc)
    ensures p == q
  {
  }

  lemma AccountsStep(rules: Rules, s: State, l: Label)
    requires LoginInv(s) && Step(rules, s, l).Some?
    ensures Accounts(Step(rules, s, l).value)
  {
    if l.Main? {
      MainLedger(rules, s, l.p, s.procs[l.p], l.move);
    } else if l.Work? {
      var t := Step(rules, s, l).value;
      CoveredStep(s.procs[l.p], l.p, s.ledger, l.act);
      forall q | q in t.procs
        ensures Covered(t.ledger, t.procs[q].work)
      {
        if q != l.p && !s.procs[q].work.Quiet? {
          OnePast(s, l.p, q);
        }
      }
    }
  }

  lemma LoginStep(rules: Rules, s: State, l: Label)
    requires LoginInv(s) && Step(rules, s, l).Some?
    ensures LoginInv(Step(rules, s, l).value)
  {
    ScanStep(rules, s, l);
    TokenStep(rules, s, l);
    AccountsStep(rules, s, l);
  }

  lemma {:induction false} LoginRun(rules: Rules, s: State, run: seq<Label>)
    requires LoginInv(s) && Exec(rules, s, run).Some?
    decreases |run|
    ensures LoginInv(Exec(rules, s, run).value)
  {
    if run != [] {
      LoginStep(rules, s, run[0]);
      LoginRun(rules, Step(rules, s, run[0]).value, run[1..]);
    }
  }

  lemma NothingYet(i: State)
    requires i.procs.Keys == {} && i.ledger.used == {} && i.ledger.logins == 0 && i.ledger.confirmed == 0
    ensures LoginInv(i)
  {
  }

  /** The inductive invariant, over every run. */
  lemma LoginInvariant(rules: Rules, run: seq<Label>, s: State)
    requires Exec(rules, Init, run) == Some(s)
    ensures LoginInv(s)
  {
    NothingYet(Init);
    LoginRun(rules, Init, run);
  }

  /** Main result: whoever owns the marker, in whatever network namespace, over every run at
      most one live process is past its scan; only that one can be in the login section. */
  lemma ScanExclusion(rules: Rules, run: seq<Label>, s: State)
    requires Exec(rules, Init, run) == Some(s)
    ensures forall p, q | p in s.procs && q in s.procs && Past(s.procs[p].pc) && Past(s.procs[q].pc) :: p == q
    ensures forall p | p in s.procs && !s.procs[p].work.Quiet? :: Past(s.procs[p].pc)
  {
    LoginInvariant(rules, run, s);
    forall p, q | p in s.procs && q in s.procs && Past(s.procs[p].pc) && Past(s.procs[q].pc)
      ensures p == q
    {
      OnePast(s, p, q);
    }
  }

  /** The reserved port of each network namespace has at most one holder. */
  ghost predicate PortInv(s: State) {
    forall p, q | p in s.procs && q in s.procs && HoldsPort(s.procs[p].pc) && HoldsPort(s.procs[q].pc) &&
                  s.procs[p].space == s.procs[q].space :: p == q
  }

  lemma PortApply(s: State, p: ProcId, e: Effect)
    requires PortInv(s) && p in s.procs
    requires e.me.Some? ==> e.me.value.space == s.procs[p].space
    requires e.me.Some? && HoldsPort(e.me.value.pc) ==> HoldsPort(s.procs[p].pc) || !PortTaken(s, s.procs[p].space)
    ensures PortInv(Apply(s, p, e))
  {
  }

  lemma PortStep(rules: Rules, s: State, l: Label)
    requires PortInv(s) && Step(rules, s, l).Some?
    ensures PortInv(Step(rules, s, l).value)
  {
    match l
    case Start(operator, space) =>
    case Crash(p) => PortApply(s, p, Become(s, None));
    case Main(p, move) =>
      MainPort(rules, s, p, s.procs[p], move);
      PortApply(s, p, MainStep(rules, s, p, s.procs[p], move).value);
    case Work(p, act) =>
      WorkKeepsPc(s, p, act);
      PortApply(s, p, WorkEffect(s, p, act).value);
  }

  lemma MainPort(rules: Rules, s: State, p: ProcId, me: Proc, move: Move)
    requires MainStep(rules, s, p, me, move).Some?
    ensures var e := MainStep(rules, s, p, me, move).value;
      e.me.Some? ==>
        && e.me.value.space == me.space
        && (HoldsPort(e.me.value.pc) ==> HoldsPort(me.pc) || !PortTaken(s, me.space))
  {
  }

  lemma {:induction false} BoundedSet(used: set<nat>, n: nat)
    requires forall t | t in used :: t < n
    ensures |used| <= n
  {
    if n > 0 {
      BoundedSet(used - {n - 1}, n - 1);
    } else {
      assert used == {};
    }
  }

  /** Main result: over every run of starts, restarts, recoveries, repairs, operator
      retries and crashes between any two primitive steps, the credential logins that
      were never verified number at most one more than the operator's approvals; and none
      is left uncovered once the latch is clear. No owner of the marker is trusted, and the
      threads of a process that shuts down run on until it exits. */
  lemma LoginBudget(rules: Rules, run: seq<Label>)
    requires Exec(rules, Init, run).Some?
    ensures var s := Exec(rules, Init, run).value;
      && Unconfirmed(s.ledger) <= |s.ledger.approvals| + 1
      && (s.ledger.latch.None? ==> Unconfirmed(s.ledger) <= |s.ledger.approvals|)
      && forall p | p in s.procs && s.procs[p].work.Spent? :: s.ledger.latch.Some?
  {
    LoginInvariant(rules, run, Exec(rules, Init, run).value);
    BudgetOf(Exec(rules, Init, run).value);
  }

  lemma BudgetOf(s: State)
    requires LoginInv(s)
    ensures Unconfirmed(s.ledger) <= |s.ledger.approvals| + 1
    ensures s.ledger.latch.None? ==> Unconfirmed(s.ledger) <= |s.ledger.approvals|
    ensures forall p | p in s.procs && s.procs[p].work.Spent? :: s.ledger.latch.Some?
  {
    BoundedSet(s.ledger.used, |s.ledger.approvals|);
  }

  /** A crash may cut a run anywhere: every prefix of a run is a run. */
  lemma {:induction false} PrefixRuns(rules: Rules, s: State, run: seq<Label>, k: nat)
    requires k <= |run| && Exec(rules, s, run).Some?
    ensures Exec(rules, s, run[..k]).Some?
    decreases k
  {
    if k > 0 {
      PrefixRuns(rules, Step(rules, s, run[0]).value, run[1..], k - 1);
      assert run[..k][1..] == run[1..][..k - 1];
    }
  }

  /** While p is past its scan, nothing another process does touches the latch, the login
      counts or p's own record: what p read is still true when it writes. */
  lemma OthersCannotInterfere(rules: Rules, run: seq<Label>, s: State, p: ProcId, l: Label)
    requires Exec(rules, Init, run) == Some(s)
    requires p in s.procs && Past(s.procs[p].pc) && (l.Start? || l.p != p)
    requires Step(rules, s, l).Some?
    ensures Undisturbed(s, Step(rules, s, l).value, p)
  {
    LoginInvariant(rules, run, s);
    OtherStep(rules, s, p, l);
  }

  ghost predicate Undisturbed(s: State, t: State, p: ProcId) {
    && p in s.procs && p in t.procs && t.procs[p] == s.procs[p]
    && t.ledger == s.ledger.(approvals := t.ledger.approvals)
  }

  lemma OtherStep(rules: Rules, s: State, p: ProcId, l: Label)
    requires ScanInv(s) && Step(rules, s, l).Some?
    requires p in s.procs && Past(s.procs[p].pc) && (l.Start? || l.p != p)
    ensures Undisturbed(s, Step(rules, s, l).value, p)
  {
    if l.Main? {
      MainLedger(rules, s, l.p, s.procs[l.p], l.move);
    } else if l.Work? {
      OnePast(s, p, l.p);
    }
  }

  // --- Runs that attain the bound, and the marker ------------------------------

  // --- A recorded latch ------------------------------------------------------

  /** Nothing in this stage leads to a login without the latch being read clear or approved. */
  predicate Dormant(w: Work) {
    w.Quiet? || w.Failing? || (w.Entered? && !w.retry)
  }

  ghost predicate Unapproved(s: State) {
    forall p | p in s.procs :: s.procs[p].token.None?
  }

  ghost predicate Barred(s: State) {
    s.ledger.latch.Some? && Unapproved(s) && forall p | p in s.procs :: Dormant(s.procs[p].work)
  }

  /** No operator starts a daemon or unblocks one. */
  ghost predicate Unattended(run: seq<Label>) {
    forall i | 0 <= i < |run| :: !Approves(run[i])
  }

  predicate Approves(l: Label) {
    (l.Start? && l.operator) || (l.Main? && l.move.Approve?)
  }

  lemma BarredApply(s: State, p: ProcId, e: Effect)
    requires Barred(s) && p in s.procs && e.ledger.latch.Some?
    requires e.me.Some? ==> e.me.value.token.None? && Dormant(e.me.value.work)
    ensures Barred(Apply(s, p, e))
  {
  }

  lemma BarredStep(rules: Rules, s: State, l: Label)
    requires Barred(s) && Step(rules, s, l).Some? && !Approves(l)
    ensures var t := Step(rules, s, l).value; Barred(t) && t.ledger.logins == s.ledger.logins
  {
    match l
    case Start(operator, space) =>
    case Crash(p) => BarredApply(s, p, Become(s, None));
    case Main(p, move) =>
      MainLedger(rules, s, p, s.procs[p], move);
      BarredApply(s, p, MainStep(rules, s, p, s.procs[p], move).value);
    case Work(p, act) => BarredApply(s, p, WorkEffect(s, p, act).value);
  }

  lemma {:induction false} BarredRun(rules: Rules, s: State, run: seq<Label>, t: State)
    requires Barred(s) && Exec(rules, s, run) == Some(t) && Unattended(run)
    ensures t.ledger.logins == s.ledger.logins && t.ledger.latch.Some?
    decreases |run|
  {
    if run != [] {
      assert !Approves(run[0]);
      BarredStep(rules, s, run[0]);
      BarredRun(rules, Step(rules, s, run[0]).value, run[1..], t);
    }
  }

  /** Whatever happens from here on, crashes and new daemons included, spends no login until an
      operator approves one. */
  ghost predicate SpendsNoMore(rules: Rules, s: State) {
    forall run, t | Exec(rules, s, run) == Some(t) && Unattended(run) ::
      t.ledger.logins == s.ledger.logins && t.ledger.latch.Some?
  }

  /** Main result: once the latch is on disk, the daemon past its scan has left its login
      section and no approval is outstanding, nothing spends a login any more. */
  lemma LatchedSpendsNothing(rules: Rules, run: seq<Label>, s: State, p: ProcId)
    requires Exec(rules, Init, run) == Some(s) && s.ledger.latch.Some? && Unapproved(s)
    requires p in s.procs && Past(s.procs[p].pc) && s.procs[p].work.Quiet?
    ensures SpendsNoMore(rules, s)
  {
    ScanExclusion(rules, run, s);
    assert forall q | q in s.procs && !s.procs[q].work.Quiet? :: q == p;
    forall more, t | Exec(rules, s, more) == Some(t) && Unattended(more)
      ensures t.ledger.logins == s.ledger.logins && t.ledger.latch.Some?
    {
      BarredRun(rules, s, more, t);
    }
  }

  /** One more label on a run. */
  lemma Extend(rules: Rules, i: State, run: seq<Label>, s: State, l: Label) returns (longer: seq<Label>, t: State)
    requires Exec(rules, i, run) == Some(s) && Step(rules, s, l).Some?
    ensures longer == run + [l] && t == Step(rules, s, l).value
    ensures Exec(rules, i, longer) == Some(t)
  {
    longer, t := run + [l], Step(rules, s, l).value;
    ExecAppend(rules, i, run, [l]);
    assert [l][1..] == [];
  }

  function Newcomer(s: State, operator: bool, pc: Pc): Proc {
    Fresh(s, operator, 0).(pc := pc)
  }

  /** A starter that finds no marker links its own. */
  lemma StartsAsOwner(rules: Rules, i: State, run0: seq<Label>, s: State, operator: bool)
    returns (run: seq<Label>, t: State)
    requires Exec(rules, i, run0) == Some(s) && s.marker.None?
    ensures Exec(rules, i, run) == Some(t)
    ensures t == s.(procs := s.procs[s.nextProc := Newcomer(s, operator, Owner(s.nextIdent))],
                    nextProc := s.nextProc + 1, ledger := Approved(s, operator),
                    marker := Some(Marker(s.nextProc, s.nextIdent)), nextIdent := s.nextIdent + 1)
  {
    var p := s.nextProc;
    run, t := Extend(rules, i, run0, s, Start(operator, 0));
    run, t := Extend(rules, i, run, t, Main(p, Link));
  }

  /** A starter that finds a dead owner's marker gets as far as removing it. */
  lemma StartsBehindDead(rules: Rules, i: State, run0: seq<Label>, s: State, operator: bool)
    returns (run: seq<Label>, t: State)
    requires Exec(rules, i, run0) == Some(s)
    requires s.marker.Some? && s.marker.value.owner !in s.procs && s.marker.value.owner < s.nextProc
    ensures Exec(rules, i, run) == Some(t)
    ensures t == s.(procs := s.procs[s.nextProc := Newcomer(s, operator, Removing(7, Some(s.marker.value.ident)))],
                    nextProc := s.nextProc + 1, ledger := Approved(s, operator))
  {
    hide Exec, WorkStep;
    var p := s.nextProc;
    run, t := Extend(rules, i, run0, s, Start(operator, 0));
    run, t := Extend(rules, i, run, t, Main(p, Link));
    run, t := Extend(rules, i, run, t, Main(p, Inspect));
    run, t := Extend(rules, i, run, t, Main(p, Judge));
  }

  /** It then removes the marker and links its own, atomically or not. */
  lemma Replaces(rules: Rules, i: State, run0: seq<Label>, s: State, p: ProcId) returns (run: seq<Label>, t: State)
    requires Exec(rules, i, run0) == Some(s)
    requires p in s.procs && s.marker.Some? && s.procs[p].pc == Removing(7, Some(s.marker.value.ident))
    ensures Exec(rules, i, run) == Some(t)
    ensures t == s.(procs := s.procs[p := s.procs[p].(pc := Owner(s.nextIdent))],
                    marker := Some(Marker(p, s.nextIdent)), nextIdent := s.nextIdent + 1)
  {
    hide Exec, WorkStep;
    run, t := Extend(rules, i, run0, s, Main(p, Remove));
    if !rules.atomicRemoval {
      run, t := Extend(rules, i, run, t, Main(p, Unlink));
    }
    assert t.procs[p].pc == Linking(6) && t.marker.None?;
    run, t := Extend(rules, i, run, t, Main(p, Link));
    assert t.procs == s.procs[p := s.procs[p].(pc := Owner(s.nextIdent))];
  }

  /** An owner that is alone passes its scan. */
  lemma ScansAlone(rules: Rules, i: State, run0: seq<Label>, s: State, p: ProcId) returns (run: seq<Label>, t: State)
    requires Exec(rules, i, run0) == Some(s) && s.procs.Keys == {p} && s.procs[p].pc.Owner?
    ensures Exec(rules, i, run) == Some(t)
    ensures t == s.(procs := s.procs[p := s.procs[p].(pc := Scanned(s.procs[p].pc.ident))])
  {
    hide Exec, WorkStep;
    run, t := Extend(rules, i, run0, s, Main(p, Scan));
    assert s.procs.Keys - {p} == {};
    run, t := Extend(rules, i, run, t, Main(p, Pass));
    assert t.procs == s.procs[p := s.procs[p].(pc := Scanned(s.procs[p].pc.ident))];
  }

  /** It then binds the port. */
  lemma Boots(rules: Rules, i: State, run0: seq<Label>, s: State, p: ProcId) returns (run: seq<Label>, t: State)
    requires Exec(rules, i, run0) == Some(s) && s.procs.Keys == {p} && s.procs[p].pc.Scanned?
    ensures Exec(rules, i, run) == Some(t)
    ensures t == s.(procs := s.procs[p := s.procs[p].(pc := Booting(s.procs[p].pc.ident))])
  {
    assert !PortTaken(s, s.procs[p].space);
    run, t := Extend(rules, i, run0, s, Main(p, Bind(true)));
  }

  /** It then spends one login under the write-ahead marker. */
  lemma SpendsLogin(rules: Rules, i: State, run0: seq<Label>, s: State, p: ProcId, retry: bool)
    returns (run: seq<Label>, t: State)
    requires Exec(rules, i, run0) == Some(s) && p in s.procs && s.procs[p].pc.Booting?
    requires s.procs[p].work.Quiet? && !s.procs[p].failed
    requires (retry ==> s.procs[p].token.Some?) && s.ledger.latch.Some? == retry
    ensures Exec(rules, i, run) == Some(t) && t.procs.Keys == s.procs.Keys
    ensures t.ledger == s.ledger.(latch := Some(InProgress(p)), logins := s.ledger.logins + 1,
                                  used := if retry then s.ledger.used + {s.procs[p].token.value} else s.ledger.used)
    ensures t.marker == s.marker && t.nextProc == s.nextProc
  {
    hide Exec, MainStep;
    run, t := Extend(rules, i, run0, s, Work(p, Begin(retry)));
    run, t := Extend(rules, i, run, t, Work(p, Check));
    run, t := Extend(rules, i, run, t, Work(p, Arm(Done)));
    run, t := Extend(rules, i, run, t, Work(p, Login));
  }

  /** One daemon's life: it boots alone, spends a login, and dies before it is verified. */
  lemma BootsAndDies(rules: Rules, i: State, run0: seq<Label>, s: State, p: ProcId, retry: bool)
    returns (run: seq<Label>, t: State)
    requires Exec(rules, i, run0) == Some(s) && s.procs.Keys == {p} && s.procs[p].pc.Owner?
    requires s.procs[p].work.Quiet? && !s.procs[p].failed
    requires (retry ==> s.procs[p].token.Some?) && s.ledger.latch.Some? == retry
    ensures Exec(rules, i, run) == Some(t) && t.procs.Keys == {}
    ensures t.ledger.approvals == s.ledger.approvals && t.ledger.latch.Some?
    ensures Unconfirmed(t.ledger) == Unconfirmed(s.ledger) + 1
    ensures t.marker == s.marker && t.nextProc == s.nextProc
  {
    run, t := ScansAlone(rules, i, run0, s, p);
    run, t := Boots(rules, i, run, t, p);
    run, t := SpendsLogin(rules, i, run, t, p, retry);
    assert t.procs.Keys - {p} == {};
    run, t := Extend(rules, i, run, t, Crash(p));
  }

  /** Everyone is dead, and n + 1 logins after n approvals were never verified. */
  ghost predicate Fruitless(s: State, n: nat) {
    && s.procs.Keys == {} && s.ledger.latch.Some? && s.marker.Some? && s.marker.value.owner < s.nextProc
    && |s.ledger.approvals| == n && Unconfirmed(s.ledger) == n + 1
  }

  lemma SpendsFirst(rules: Rules, i: State, run0: seq<Label>, s: State) returns (run: seq<Label>, t: State)
    requires Exec(rules, i, run0) == Some(s) && s.procs.Keys == {} && s.marker.None?
    requires s.ledger.latch.None? && s.ledger.approvals == [] && Unconfirmed(s.ledger) == 0
    ensures Exec(rules, i, run) == Some(t) && Fruitless(t, 0)
  {
    var p := s.nextProc;
    run, t := StartsAsOwner(rules, i, run0, s, false);
    assert t.procs.Keys == {p};
    run, t := BootsAndDies(rules, i, run, t, p, false);
  }

  /** One more approval, one more fruitless login. */
  lemma SpendsAnother(rules: Rules, i: State, run0: seq<Label>, s: State, n: nat) returns (run: seq<Label>, t: State)
    requires Exec(rules, i, run0) == Some(s) && Fruitless(s, n)
    ensures Exec(rules, i, run) == Some(t) && Fruitless(t, n + 1)
  {
    var p := s.nextProc;
    run, t := StartsBehindDead(rules, i, run0, s, true);
    run, t := Replaces(rules, i, run, t, p);
    assert t.procs.Keys == {p};
    run, t := BootsAndDies(rules, i, run, t, p, true);
  }

  /** The budget is attained: after n fruitless approvals, n + 1 logins are unverified. */
  lemma {:induction false} BudgetAttained(rules: Rules, n: nat) returns (run: seq<Label>, s: State)
    ensures Exec(rules, Init, run) == Some(s) && |s.ledger.approvals| == n && Unconfirmed(s.ledger) == n + 1
    ensures Fruitless(s, n)
  {
    if n == 0 {
      run, s := SpendsFirst(rules, Init, [], Init);
    } else {
      run, s := BudgetAttained(rules, n - 1);
      run, s := SpendsAnother(rules, Init, run, s, n - 1);
    }
  }

  ghost predicate WithinBudget(g: Ledger) {
    Unconfirmed(g) <= |g.approvals| + 1
  }

  ghost predicate AtMostOneBeliever(s: State) {
    forall p, q | p in s.procs && q in s.procs && Believes(s.procs[p].pc) && Believes(s.procs[q].pc) :: p == q
  }

  /** Two starters judge the same dead owner's marker; both pass the identity test
      before either unlinks, so the second unlink takes a live owner's marker. */
  lemma SplitRemovalAdmitsTwo(rules: Rules) returns (run: seq<Label>)
    requires !rules.atomicRemoval
    ensures Exec(rules, Init, run).Some? && !AtMostOneBeliever(Exec(rules, Init, run).value)
  {
    var s;
    run, s := StartsAsOwner(rules, Init, [], Init, false);
    run, s := Extend(rules, Init, run, s, Crash(0));
    run, s := StartsBehindDead(rules, Init, run, s, false);
    run, s := Extend(rules, Init, run, s, Main(1, Remove));
    run, s := StartsBehindDead(rules, Init, run, s, false);
    run, s := Replaces(rules, Init, run, s, 2);
    run := TakesLiveMarker(rules, Init, run, s);
  }

  lemma TakesLiveMarker(rules: Rules, i: State, run0: seq<Label>, s0: State) returns (run: seq<Label>)
    requires Exec(rules, i, run0) == Some(s0) && 1 in s0.procs && 2 in s0.procs
    requires s0.procs[1].pc == Unlinking(7, None) && Believes(s0.procs[2].pc)
    ensures Exec(rules, i, run).Some? && !AtMostOneBeliever(Exec(rules, i, run).value)
  {
    var s;
    run, s := Extend(rules, i, run0, s0, Main(1, Unlink));
    run, s := Extend(rules, i, run, s, Main(1, Link));
    assert Believes(s.procs[1].pc) && Believes(s.procs[2].pc);
  }

  /** Exclusion of marker owners holds exactly when identity test and unlink are one step. */
  lemma SingletonExactly(rules: Rules)
    ensures rules.atomicRemoval <==>
            forall run | Exec(rules, Init, run).Some? :: AtMostOneBeliever(Exec(rules, Init, run).value)
  {
    if rules.atomicRemoval {
      forall run | Exec(rules, Init, run).Some?
        ensures AtMostOneBeliever(Exec(rules, Init, run).value)
      {
        Singleton(rules, run);
      }
    } else {
      var run := SplitRemovalAdmitsTwo(rules);
    }
  }
}
