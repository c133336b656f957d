# WRDS daemon, background ledger and evidence checkers: a verified model

A Dafny 4.11 model of the parts of the repository whose correctness is not visible in any
one function. `dafny verify dfyconfig.toml` checks all of it.

| module | what it models |
|---|---|
| `LoginProtocol` | starters, marker, process scan, port, write-ahead latch, logins and crashes as a transition system |
| `WrdsDaemon` | the daemon's connection recovery, latch and boot sequence, each step emitting a label of that system |
| `Watchdog` | the decision, the repair and the loop of the launcher-side watchdog |
| `Framing`, `Relay` | length-prefixed frames over sockets that split and fail, the daemon's connection handler, the query bridge |
| `Budgets` | the daemon's timeline for one command, and who outwaits whom |
| `BusyRetry` | the client's busy backoff and its retries after a repair |
| `GenerationTokens`, `BackgroundLedger`, `WaitIdle` | generation names, the background-task ledger, the quiescence poll |
| `Sections`, `CarryDiff` | the section splitter and the carry diff of specifications |
| `Names`, `Manifest`, `Ownership` | the replication manifest of an analysis, and ownership of the stage's artifacts |
| `DigestBinding` | row-scoped binding of claimed digests |
| `Includes` | fragment includes and vocabulary of agent bodies |

Methods carry the loops and the state of the program. Each is proved against a
specification function or predicate, and the theorems are about those. What an operation owes
when nothing of its own fails is stated for a calm socket, which splits but never errs, and for a
calm host, on which files, the process table, the lock and the ports work.

## What the proofs found

* Ownership of the singleton marker is exclusive exactly if comparing the marker's identity and
  unlinking it is one step. The code does an lstat and then an unlink, so two starters can both
  come to believe that they own it.
* The login budget needs neither the marker nor the port. What it rests on is the scan of the
  process table: of two daemons that have begun it, the later one sees the earlier one for as long
  as that process lives. So a process that is shutting down with threads still in the login section
  keeps every successor out, and the budget holds over all runs.
* "A caller's deadline that expires before the marker is written spends no login" is true of the
  moment at which the connect budget is computed. Between that moment and the marker the old
  connection is closed and the pool disposed of, without a timeout: a command can log in late
  exactly if that takes more than a second.
* Two starts of the watchdog are 300 seconds apart unless the first was at tick time 0.0, because a
  stored time of 0.0 reads as none.
* The client outwaits the daemon with ten seconds of slack for what has no timeout; the bridge has
  one second for sending the request on; the watchdog's probe has none.
* Section keys are unique exactly if no heading is spelled like the numbered repetition of another
  ("A", "A", "A#2"). The splitter's own comment promises that every section stays addressable.
* The carry diff accounts for every change exactly if no heading's composite prefix runs into
  another's. Headings free of " / " are not enough: "A" next to "A /" hides a change of "A".

## Model

| member | source | states |
|---|---|---|
| `LoginProtocol.LoginBudget` | deploy_assets/extensions/empirical/utils/wrds_server.py:657-685 | Over every run of starts, scans, recoveries, repairs, approvals, shutdowns with threads still at work, and crashes between any two primitive steps: logins never verified are at most one more than the operator approvals, at most the approvals once the latch is clear, and a spent unverified login always has a durable latch |
| `LoginProtocol.ScanExclusion` | deploy_assets/extensions/empirical/utils/wrds_server.py:2091-2170 | Over every run, in any network namespaces and whoever owns the marker: at most one live process is past its process scan, a stopping one with threads at work included, and only such a process is in a login section |
| `LoginProtocol.BudgetAttained` | deploy_assets/extensions/empirical/utils/wrds_server.py:657-685 | The bound is tight: for every n there is a run with n approvals and n + 1 unverified logins |
| `LoginProtocol.Singleton` | deploy_assets/extensions/empirical/utils/wrds_server.py:280-334 | Concurrent starters, crashes anywhere, atomic marker removal: two live processes never both believe that they own the marker, and a live owner's marker is the one on disk |
| `LoginProtocol.SingletonExactly` | deploy_assets/extensions/empirical/utils/wrds_server.py:425-433 | Exclusion of marker owners holds over every run exactly when the identity test and the unlink are one step |
| `LoginProtocol.SplitRemovalAdmitsTwo` | deploy_assets/extensions/empirical/utils/wrds_server.py:425-433 | The lstat-then-unlink sequence as written admits two believing owners: a concrete run |
| `LoginProtocol.MarkerStep` | deploy_assets/extensions/empirical/utils/wrds_server.py:280-334 | Every step keeps the inductive invariant of the marker: a marker about to be removed has a dead owner |
| `LoginProtocol.CoveredStep` | deploy_assets/extensions/empirical/utils/wrds_server.py:657-685 | Every primitive step of the login section keeps the accounting: unverified logins plus outstanding credit are covered by spent approvals and the latch |
| `LoginProtocol.LoginStep` | deploy_assets/extensions/empirical/utils/wrds_server.py:2608-2786 | Every step of any process keeps the whole inductive invariant (scan exclusion, approvals, accounting) |
| `LoginProtocol.PortStep` | deploy_assets/extensions/empirical/utils/wrds_server.py:2374-2386 | Every step keeps it that the reserved port of each network namespace has at most one holder |
| `LoginProtocol.OthersCannotInterfere` | deploy_assets/extensions/empirical/utils/wrds_server.py:2360-2371 | While a process is past its scan no step of another one changes the latch, the login counts or its own record |
| `LoginProtocol.PrefixRuns` | deploy_assets/extensions/empirical/utils/wrds_server.py:657-685 | Every prefix of a run is a run, so the claims hold wherever a crash cuts it |
| `LoginProtocol.LatchedSpendsNothing` | deploy_assets/extensions/empirical/utils/wrds_server.py:2643-2664 | From any reachable state with the terminal record on file and no approval outstanding: no continuation of the run, with any number of restarts, spends a login before the next approval |
| `WrdsDaemon.AttemptTimeout` | deploy_assets/extensions/empirical/utils/wrds_server.py:1041-1054 | None exactly when less than one second is left; otherwise between one second and the maximum, and never past the deadline |
| `WrdsDaemon.WrdsState.BusyHealth` | deploy_assets/extensions/empirical/utils/wrds_server.py:1309-1325 | A probe that finds the lock held reports alive exactly for a command within its own deadline |
| `WrdsDaemon.WrdsState.ExtendLockOwnerDeadline` | deploy_assets/extensions/empirical/utils/wrds_server.py:1296-1307 | Never backward; an unbounded or absent owner is left alone |
| `WrdsDaemon.WrdsState.LatchAuthFailure` | deploy_assets/extensions/empirical/utils/wrds_server.py:1360-1383 | A credential rejection latches the memory and, whenever the disk can be written, leaves the terminal record on file; any other failure leaves everything untouched |
| `WrdsDaemon.WrdsState.LatchLoginFailure` | deploy_assets/extensions/empirical/utils/wrds_server.py:1385-1399 | Any failure after the permitted login latches the memory and, whenever the disk can be written, leaves the terminal record on file |
| `WrdsDaemon.WrdsState.BeginLoginAttempt` | deploy_assets/extensions/empirical/utils/wrds_server.py:657-685 | Arms only when the latch is absent (unattended) or present (approved retry), and on a working host always then; a refusal on that ground writes nothing; no login is spent |
| `WrdsDaemon.WrdsState.Healthy` | deploy_assets/extensions/empirical/utils/wrds_server.py:1338-1358 | Well verifies a spent login; an expired deadline is a timeout and touches nothing; Well, sick or rejected exactly as the statements were answered; only a rejection latches, on file too |
| `WrdsDaemon.WrdsState.RebuildPool` | deploy_assets/extensions/empirical/utils/wrds_server.py:1461-1505 | At most one login, and on a working host without a latch exactly one; success means verified, latch clear; a spent unverified login leaves a latch; an existing latch refuses before spending |
| `WrdsDaemon.WrdsState.Recover` | deploy_assets/extensions/empirical/utils/wrds_server.py:1401-1505 | At most one login, none when latched; a timeout only with less than a second left, and it leaves the run, the latch and the memory unchanged; a login is spent only if a second was left when the connect budget was computed; a working daemon that may log in latches without doing so only when the database rejects it |
| `WrdsDaemon.WrdsState.Run` | deploy_assets/extensions/empirical/utils/wrds_server.py:1507-1566 | At most one login, none when latched or contended; a timeout only when the time is over, with nothing durable changed unless a verified login cleared the latch; an answer only when the last statement succeeded, a recovered one only after a failure and at least three statements; any other failure is the one that the database gave; a newly latched daemon has the terminal record on file whenever the disk can be written |
| `WrdsDaemon.WrdsState.RunLocked` | deploy_assets/extensions/empirical/utils/wrds_server.py:1534-1563 | The same under the lock: how a command with one statement ends is decided by its answer, and everything beyond it is one recovery and one retry |
| `WrdsDaemon.WrdsState.Healthcheck` | deploy_assets/extensions/empirical/utils/wrds_server.py:1568-1601 | At most one login, none when latched; a held lock is reported without touching anything; well without a failure, and not well without a rejection only when the time is over; a probe that logged in and reports well has cleared the latch; a newly latched daemon has the terminal record on file whenever the disk can be written |
| `WrdsDaemon.WrdsState.ConnectWrds` | deploy_assets/extensions/empirical/utils/wrds_server.py:1172-1234 | One login under the write-ahead record; success means verified and cleared, failure after spending leaves the latch |
| `WrdsDaemon.WrdsState.Unblock` | deploy_assets/extensions/empirical/utils/wrds_server.py:1603-1658 | One approval, at most one login; success means verified, latch clear, memory clear; failure means latched, on file too whenever the disk can be written, and on a working host only after the database failed it; refused when no latch exists |
| `WrdsDaemon.WrdsState.LookAround` | deploy_assets/extensions/empirical/utils/wrds_server.py:2115-2141 | The loop over the process table passes only if no other daemon was alive when it was looked at, and then nobody else is left; others may die meanwhile |
| `WrdsDaemon.WrdsState.Boot` | deploy_assets/extensions/empirical/utils/wrds_server.py:2608-2755 | A live daemon, a taken port, or a recorded latch without an approval stops a start before anything is spent, and on a working host nothing else does; a served, unlatched start has verified exactly one login; a latched one has the record on file whenever the disk can be written; a refused start spends none and holds no port |
| `WrdsDaemon.WrdsState.Shutdown` | deploy_assets/extensions/empirical/utils/wrds_server.py:2773-2786 | Gives back the port and its marker and leaves the latch, the counts, and the login section and memory of threads that are still at work as they are |
| `WrdsDaemon.HandleOnce` | deploy_assets/extensions/empirical/utils/wrds_server.py:1360-1399 | Whatever one request does: a daemon that it leaves latched, on a host whose disk can be written, has the terminal record on file, and with no approval outstanding no later daemon spends a login before the next one |
| `WrdsDaemon.Serve` | deploy_assets/extensions/empirical/utils/wrds_server.py:2608-2786 | Any life of a daemon (scan, boot, then any commands, some finished by threads that outlive its shutdown) emits a run of the protocol, and every prefix of it is within the login budget |
| `GenerationTokens.UnquoteOfQuote` | deploy_assets/templates/utils/opencode_driver.py:114-125 | Percent-decoding an encoded child gives the child back, byte for byte (section 2.1 of RFC 3986) |
| `GenerationTokens.QuoteExactly` | deploy_assets/templates/utils/opencode_driver.py:114-115 | Each byte of a child is kept if it is a letter, a digit or one of _.-~, and otherwise becomes a percent sign and two upper-case hexadecimal digits |
| `GenerationTokens.DecodeExactly` | deploy_assets/templates/utils/opencode_driver.py:118-125 | A token is accepted exactly when it is two decimal numbers with a dot between them, a colon, and an encoded child, and it means those |
| `GenerationTokens.DecodeToken` | deploy_assets/templates/utils/opencode_driver.py:114-125 | A token decodes to exactly the message, part and child it was made from, and its child is accepted |
| `GenerationTokens.TokenInjective` | deploy_assets/templates/utils/opencode_driver.py:114-115 | Distinct launches have distinct tokens |
| `BackgroundLedger.BackgroundState` | deploy_assets/templates/utils/opencode_driver.py:128-197 | The one-pass stack matcher returns the declarative ledger of the history from the baseline, and an error exactly when the history is malformed or shorter than the baseline |
| `BackgroundLedger.EventsExactly` | deploy_assets/templates/utils/opencode_driver.py:158-195 | What the events of a history are, message by message and part by part: each background task one launch, each task result one notification after it, in order, and nothing else |
| `BackgroundLedger.LaunchesExactly` | deploy_assets/templates/utils/opencode_driver.py:158-177 | A launch is an event exactly when that part of that message is a background task |
| `BackgroundLedger.NotesCounted` | deploy_assets/templates/utils/opencode_driver.py:178-195 | A message makes as many notifications of a child as it has task results of that child |
| `BackgroundLedger.EverythingSettles` | deploy_assets/templates/utils/opencode_driver.py:178-197 | When every launch has a later task result of its own and a completed assistant message ends the history, everything launched is notified and settled |
| `BackgroundLedger.StackIsOpen` | deploy_assets/templates/utils/opencode_driver.py:174-195 | The stack of unmatched launches of a child is, at every event, the set of launches that no later notification has closed |
| `BackgroundLedger.NoteTakesTop` | deploy_assets/templates/utils/opencode_driver.py:187-195 | A notification closes the newest open launch of its child and no other |
| `BackgroundLedger.ReplayTracks` | deploy_assets/templates/utils/opencode_driver.py:128-197 | After any number of events the loop's three variables are what the declarative matching says |
| `BackgroundLedger.NotificationsDistinct` | deploy_assets/templates/utils/opencode_driver.py:187-195 | No two settled generations share a notification |
| `BackgroundLedger.MatchShift` | deploy_assets/templates/utils/opencode_driver.py:140-142 | Cutting off a prefix keeps every pair whose launch comes after the cut, and makes no new one |
| `BackgroundLedger.BaselineIndependence` | deploy_assets/templates/utils/opencode_driver.py:128-197 | For every well-formed history and every baseline, the ledger of the suffix is the full ledger restricted to generations launched at or after the baseline |
| `WaitIdle.BusyTree` | deploy_assets/templates/utils/opencode_driver.py:107-111 | The busy sessions are exactly the parent and children with a status that is neither idle nor error; an invalid status is an error |
| `WaitIdle.Poll` | deploy_assets/templates/utils/opencode_driver.py:265-304 | The exit is the one that the samples determine: the first unreadable, streak-completing or expired sample decides |
| `WaitIdle.ExitDetermined` | deploy_assets/templates/utils/opencode_driver.py:265-304 | No two exits meet that specification |
| `WaitIdle.StreakMeans` | deploy_assets/templates/utils/opencode_driver.py:291-297 | The stable counter is at least n exactly when the last n polls were all quiet |
| `WaitIdle.QuiescentMeansSettled` | deploy_assets/templates/utils/opencode_driver.py:291-297 | Exit 0: each of the last stable_samples polls saw an idle tree, nothing new, and every required or discovered generation settled with none pending |
| `WaitIdle.QuiescentMeansIdle` | deploy_assets/templates/utils/opencode_driver.py:265-297 | Exit 0, with or without the ledger: in each of those polls the parent and its children were idle or failed |
| `WaitIdle.SettledMeansQuiescent` | deploy_assets/templates/utils/opencode_driver.py:265-304 | The converse: once the tree has been at rest for that many polls with nothing new and everything settled, the wait is over with exit 0 |
| `WaitIdle.KnownExactly` | deploy_assets/templates/utils/opencode_driver.py:273-284 | What must be settled: the generations asked for, and every launch that any earlier poll showed |
| `WaitIdle.SettledMeans` | deploy_assets/templates/utils/opencode_driver.py:196-197 | A settled generation's launch precedes its own notification, which precedes a completed or failed assistant message |
| `Watchdog.Monitor.Decide` | deploy_assets/extensions/empirical/utils/wrds_watchdog.py:282-359 | The decision and the new memory are those of the specification function that the theorems are about |
| `Watchdog.ActionsFit` | deploy_assets/extensions/empirical/utils/wrds_watchdog.py:282-359 | Restart answers only an absent daemon, replacement only an incompatible one, a stop only an unhealthy or saturated one |
| `Watchdog.MayRepairExactly` | deploy_assets/extensions/empirical/utils/wrds_watchdog.py:316-331 | A repair is allowed exactly when automatic logins are and fewer than three failures count, or the launch is newer than the last counted failure, or that was due to an incompatible daemon which is gone |
| `Watchdog.OperatorExactly` | deploy_assets/extensions/empirical/utils/wrds_watchdog.py:316-331 | The operator is called for exactly on a latched probe, or when a repair would be due and is not allowed |
| `Watchdog.DownIsRestarted` | deploy_assets/extensions/empirical/utils/wrds_watchdog.py:336-342 | An absent daemon is restarted exactly when a repair is allowed and the backoff has passed |
| `Watchdog.IncompatibleIsReplaced` | deploy_assets/extensions/empirical/utils/wrds_watchdog.py:354-358 | An incompatible daemon is replaced exactly when a repair is allowed and the backoff has passed |
| `Watchdog.BackoffExactly` | deploy_assets/extensions/empirical/utils/wrds_watchdog.py:336-337 | A repair is held back exactly within 300 seconds of an earlier one that started the services or tried to stop them, at a time other than 0.0 |
| `Watchdog.Monitor.Perform` | deploy_assets/extensions/empirical/utils/wrds_watchdog.py:456-510 | The memory after a repair is that of the specification function; start_services runs exactly when every precondition of the action held |
| `Watchdog.StartsExactly` | deploy_assets/extensions/empirical/utils/wrds_watchdog.py:456-510 | A tick runs start_services exactly when it acts, the project code is unchanged and what had to stop has stopped |
| `Watchdog.RepairLeaves` | deploy_assets/extensions/empirical/utils/wrds_watchdog.py:456-510 | What each outcome of a repair leaves in the failure counter, the backoff and the clocks |
| `Watchdog.Monitor.Run` | deploy_assets/extensions/empirical/utils/wrds_watchdog.py:583-621 | Handles ticks in order, reports exactly the ticks that ran start_services, and stops exactly at the first tick that completes a whole idle period |
| `Watchdog.RepairCap` | deploy_assets/extensions/empirical/utils/wrds_watchdog.py:316-328 | The failure counter stays in 0..3; between clearing events (healthy probe, successful start, newer launch, leaving an incompatible failure) at most three failures count |
| `Watchdog.CappedStays` | deploy_assets/extensions/empirical/utils/wrds_watchdog.py:316-328 | Once the cap is reached nothing is repaired until a clearing event |
| `Watchdog.BarredTicks` | deploy_assets/extensions/empirical/utils/wrds_watchdog.py:282-359 | No repair on a healthy, latched or mid-login probe, under a veto, or while idle |
| `Watchdog.WedgeRule` | deploy_assets/extensions/empirical/utils/wrds_watchdog.py:289-312 | A live daemon is stopped only when no probe of the last 600 s was healthy, latched or mid-login, for every mix of kinds including the back-dated clock |
| `Watchdog.WedgeIsRepaired` | deploy_assets/extensions/empirical/utils/wrds_watchdog.py:343-353 | Conversely, 600 s of nothing but unhealthy probes stops the daemon exactly when the backoff has passed |
| `Watchdog.SaturationIsRepaired` | deploy_assets/extensions/empirical/utils/wrds_watchdog.py:293-307 | Saturation alone stops the daemon exactly after 1200 s and the backoff |
| `Watchdog.StartsAreSpaced` | deploy_assets/extensions/empirical/utils/wrds_watchdog.py:336-358 | Two start_services runs are at least 300 s apart unless the first was at tick time 0.0 |
| `Watchdog.SpacingExactly` | deploy_assets/extensions/empirical/utils/wrds_watchdog.py:336-337 | After a start at time t the spacing is guaranteed exactly when t is not 0.0 |
| `Watchdog.IdleSince` | deploy_assets/extensions/empirical/utils/wrds_watchdog.py:590-604 | The idle clock is the first of the unbroken run of ticks without a launcher |
| `Framing.HeaderRoundTrip` | deploy_assets/extensions/empirical/utils/wrds_server.py:1694-1695 | The 64-bit header and its number determine each other, both ways, the most significant byte first |
| `Framing.FramePrefixFree` | deploy_assets/extensions/empirical/utils/wrds_server.py:1869-1892 | No frame is a prefix of another: a byte stream has one first frame |
| `Framing.RecvExact` | deploy_assets/extensions/empirical/utils/wrds_server.py:1666-1681 | Exactly the bytes asked for, or an error that reports how many were read, fewer than asked |
| `Framing.RecvFrame` | deploy_assets/extensions/empirical/utils/wrds_server.py:1694-1709 | Exactly one payload leaves the inbox, within the limit, or an error; on a socket that does not fail the outcome is determined by the bytes |
| `Framing.SendResponseFrame` | deploy_assets/extensions/empirical/utils/wrds_server.py:1862-1892 | However the socket splits, the bytes that escaped are a prefix of the one frame, of exactly the reported length; success means all of it |
| `Framing.PayloadOrError` | deploy_assets/extensions/empirical/utils/wrds_server.py:1862-1892 | Any part of a frame that escapes, any part of that that arrives: a receiver that completes a frame has the payload and nothing is left over |
| `Framing.TryRequest` | deploy_assets/extensions/empirical/utils/wrds_server.py:1684-1829 | The try block, with both its sends: any exception but a write error leaves it before a byte has escaped; otherwise what escaped is the request's own frame, whole or cut short |
| `Framing.HandleClient` | deploy_assets/extensions/empirical/utils/wrds_server.py:1684-1853 | Only an exception before the first byte is reported in a second send; so at most one response frame is started, the request's own or the report of its exception, and the socket is closed |
| `Framing.ReplyBusyAndClose` | deploy_assets/extensions/empirical/utils/wrds_server.py:1962-2000 | Only a busy-aware client gets a frame, and on a calm socket every such client gets the whole of it; the reply slot is given back exactly once on every path |
| `Relay.Exchange` | deploy_assets/extensions/empirical/utils/wrds_query_bridge.py:388-416 | One request frame out, one bounded response frame in, or the very error that the socket raised, an early close, or a size out of bounds; the upstream socket is closed |
| `Relay.TryRequest` | deploy_assets/extensions/empirical/utils/wrds_query_bridge.py:354-422 | Each of the bridge's conditions is refused with its own frame and nothing reaches the daemon; after an exchange the verdict is unavailable exactly when it failed with FileNotFoundError, ConnectionError or TimeoutError, and an exception leaves before a byte has escaped downstream |
| `Relay.TryRelay` | deploy_assets/extensions/empirical/utils/wrds_query_bridge.py:336-422 | The whole try block: a wrong preface gets a frame and no slot, every authenticated client is tried for a slot once, a missing slot is reported as busy, each refusal names the first condition that failed, and nothing reaches the daemon unless preface, slot, token, command and protocol were right |
| `Relay.RelayClient` | deploy_assets/extensions/empirical/utils/wrds_query_bridge.py:336-443 | At most one downstream frame over all eight sends: the daemon's payload or the report of the verdict; the query slot is given back exactly as often as taken, the auth slot exactly once |
| `Relay.TwoHops` | deploy_assets/extensions/empirical/utils/wrds_query_bridge.py:388-422 | Across both hops: a frame completed by the client is the daemon's payload or the bridge's own report, never a truncation or splice |
| `Budgets.StatedTimeoutsAgree` | deploy_assets/extensions/empirical/utils/wrds_client.py:132-143 | For every stated timeout that the daemon accepts, its integer deadline is at most the waiter's and less than a second shorter |
| `Budgets.SlowestFirstByte` | deploy_assets/extensions/empirical/utils/wrds_server.py:1507-1566 | Over every timeline, the first byte comes within 195 s plus the execution budget plus what the untimed primitives take |
| `Budgets.SlowestIsAttained` | deploy_assets/extensions/empirical/utils/wrds_server.py:1507-1566 | That bound is attained |
| `Budgets.NestingExactly` | deploy_assets/extensions/empirical/utils/wrds_client.py:152-165 | The client outwaits every daemon answer exactly when the untimed primitives take at most ten seconds more than the two execution budgets differ |
| `Budgets.QueriesAreOutwaited` | deploy_assets/extensions/empirical/utils/wrds_client.py:152-165 | A query with a stated timeout is always outwaited with ten seconds to spare |
| `Budgets.OtherCommandsExactly` | deploy_assets/extensions/empirical/utils/wrds_client.py:132-165 | Any other command is outwaited exactly when its caller's fallback is at least 290 s plus the untimed part |
| `Budgets.BridgeNestingExactly` | deploy_assets/extensions/empirical/utils/wrds_query_bridge.py:186-204 | The client outwaits bridge setup, the bridge's wait and the longest transfer exactly when sending the request on takes at most one second more than the budgets differ |
| `Budgets.BridgeWaitsAsLong` | deploy_assets/extensions/empirical/utils/wrds_query_bridge.py:186-204 | A stated timeout gives client and bridge the same wait |
| `Budgets.ProbeNestingExactly` | deploy_assets/extensions/empirical/utils/wrds_server.py:1568-1601 | The watchdog's 180 s outwait a recovering health probe exactly when nothing untimed, the request frame included, takes any time |
| `Budgets.LoginWindowExactly` | deploy_assets/extensions/empirical/utils/wrds_server.py:1448-1505 | Over every timeline of a command: it can spend its login at exactly the moments from its start to one second before its deadline, moved by the time that disposal takes; the window is the one in which recovery may compute its connect budget |
| `Budgets.LateLoginExactly` | deploy_assets/extensions/empirical/utils/wrds_server.py:1448-1475 | No command logs in after its own deadline exactly when closing and disposing of the old pool takes at most one second |
| `BusyRetry.Client.CheckedRequestOnce` | deploy_assets/extensions/empirical/utils/wrds_client.py:565-604 | Only busy is ever re-sent; each wait is within 0.6 to 1.4 of its delay (5 s, half as much again each time, at most 60 s) and only the last may be cut short by the budget; at most B/3 + 2 rounds; WrdsBusyTimeout exactly when the last answer is busy, and then the whole budget has passed |
| `BusyRetry.Client.CheckedRequest` | deploy_assets/extensions/empirical/utils/wrds_client.py:545-562 | Started over at most three times, each time after a dropped endpoint and a completed repair; nothing else is started over |
| `Sections.SplitSlice` | deploy_assets/extensions/empirical/utils/spec_audit_scope.py:207-207 | Consecutive lines, joined and split again (Python line terminators), are the same lines |
| `Sections.SplitLinesExactly` | deploy_assets/extensions/empirical/utils/spec_audit_scope.py:118-145 | What the lines are: each ends with its terminator, "\r\n" being one, nothing else ends a line, and only the last may go without |
| `Sections.MarkerExactly` | deploy_assets/extensions/empirical/utils/spec_audit_scope.py:129-131 | A fence marker is three or more backticks or tildes after any indentation, with its kind and its length |
| `Sections.FenceExactly` | deploy_assets/extensions/empirical/utils/spec_audit_scope.py:129-138 | A line is inside a fence exactly when an earlier unfenced line opened it and no line since is a marker of its kind that is at least as long |
| `Sections.HeadingExactly` | deploy_assets/extensions/empirical/utils/spec_audit_scope.py:139-142 | A heading is that many hashes and a blank, indented by at most three |
| `Sections.TitleExactly` | deploy_assets/extensions/empirical/utils/spec_audit_scope.py:139-142 | Its title is all that follows the hashes, but for the blanks around it |
| `Sections.Group` | deploy_assets/extensions/empirical/utils/spec_audit_scope.py:118-145 | The first loop yields the titles and the line slices between consecutive unfenced headings |
| `Sections.Address` | deploy_assets/extensions/empirical/utils/spec_audit_scope.py:146-151 | The second loop gives every section the key that its title's occurrence number determines |
| `Sections.SplitSections` | deploy_assets/extensions/empirical/utils/spec_audit_scope.py:118-151 | The method computes the specification that the theorems are about |
| `Sections.Lossless` | deploy_assets/extensions/empirical/utils/spec_audit_scope.py:118-151 | Concatenating the sections of any text at any level gives the text back |
| `Sections.FenceRestarts` | deploy_assets/extensions/empirical/utils/spec_audit_scope.py:129-138 | A section read alone is in the same fences, line by line, as within its document |
| `Sections.NestedSplit` | deploy_assets/extensions/empirical/utils/spec_audit_scope.py:204-208 | Splitting a section's text at the next level starts a part exactly at the unfenced headings of the whole document |
| `Sections.SectionsStartAtHeadings` | deploy_assets/extensions/empirical/utils/spec_audit_scope.py:139-142 | A section starts at an unfenced heading of its level and has no other one |
| `Sections.CutsMeaning` | deploy_assets/extensions/empirical/utils/spec_audit_scope.py:139-142 | The cuts are exactly the unfenced headings, in increasing order |
| `Sections.AddressableExactly` | deploy_assets/extensions/empirical/utils/spec_audit_scope.py:146-151 | For every text: all section keys are distinct exactly when no heading is spelled like the numbered repetition of another |
| `Sections.SharedKey` | deploy_assets/extensions/empirical/utils/spec_audit_scope.py:146-151 | The failing family as texts: headings t, t and t#2 give two sections one key |
| `Sections.SplitOfWritten` | deploy_assets/extensions/empirical/utils/spec_audit_scope.py:118-151 | Conversely to Lossless: a document written from a preamble and any list of sections splits into exactly these; the bodies may hold fenced blocks with lines that look like headings, as long as they are closed |
| `Sections.FencedStays` | deploy_assets/extensions/empirical/utils/spec_audit_scope.py:129-138 | A fenced block whose lines look like headings, whatever they are, stays in one section |
| `CarryDiff.DocumentSections` | deploy_assets/extensions/empirical/utils/spec_audit_scope.py:190-218 | For every text, the two tables of its outline: sections by key, and parts by composite key, repeats numbered across parents |
| `CarryDiff.Compare` | deploy_assets/extensions/empirical/utils/spec_audit_scope.py:314-339 | For every two texts, exactly the blocking sections and the changed parts of their tables |
| `CarryDiff.DiffAccounts` | deploy_assets/extensions/empirical/utils/spec_audit_scope.py:314-339 | When no heading's composite prefix runs into another's, every non-blind section that differs blocks, or keeps its preamble and has every differing part listed |
| `CarryDiff.ListedDiffers` | deploy_assets/extensions/empirical/utils/spec_audit_scope.py:324-338 | Nothing is listed but parts that differ, of sections that are not blind |
| `CarryDiff.BlockingDiffers` | deploy_assets/extensions/empirical/utils/spec_audit_scope.py:324-338 | Nothing blocks but sections that differ, are not blind, and lack parts on a side or differ in their preamble |
| `CarryDiff.NothingFound` | deploy_assets/extensions/empirical/utils/spec_audit_scope.py:314-339 | When nothing blocks and nothing is listed, every non-blind section is the same up to the order of its parts |
| `CarryDiff.PlainRevisions` | deploy_assets/extensions/empirical/utils/spec_audit_scope.py:314-339 | For every two texts whose level-2 headings are free of " / " and whose headings do not end in # and a number: every difference outside the blind sections blocks or is listed, and when nothing is found nothing but the order of parts differs |
| `CarryDiff.AccountsExactly` | deploy_assets/extensions/empirical/utils/spec_audit_scope.py:324-338 | Over all pairs of texts with given headings and any blind sections, every difference is accounted for exactly when the composite prefixes are prefix-free |
| `CarryDiff.HiddenChange` | deploy_assets/extensions/empirical/utils/spec_audit_scope.py:324-338 | The failing family as texts: for any two headings whose composite prefixes run into each other (such as "A" and "A /") the lines under the first change, and nothing blocks or is listed |
| `CarryDiff.PlainHeadingsAreSeparate` | deploy_assets/extensions/empirical/utils/spec_audit_scope.py:324-325 | Headings without " / ", also after adding a blank, are prefix-free |
| `CarryDiff.SubsHold` | deploy_assets/extensions/empirical/utils/spec_audit_scope.py:204-217 | The composite table holds exactly each section's own parts |
| `CarryDiff.OutlineWellFormed` | deploy_assets/extensions/empirical/utils/spec_audit_scope.py:190-218 | A text without numbered look-alike headings gives the well-formed outline that the diff theorems need |
| `Names.NamesReadBack` | deploy_assets/extensions/empirical/utils/empirical_input_manifest.py:105-182 | Every valid analysis name and sibling name decodes to its own analysis and role |
| `Names.NamesExactly` | deploy_assets/extensions/empirical/utils/empirical_input_manifest.py:105-182 | A file name reads as an analysis, or as a sibling in a role, exactly when it is the name of that one |
| `Names.ValidExactly` | deploy_assets/extensions/empirical/utils/empirical_input_manifest.py:34-34 | The names that an analysis can have: the plain one, _v and a label, _a and a number, perhaps with an underscore and a label |
| `Manifest.HeadlineEntries` | deploy_assets/extensions/empirical/utils/empirical_input_manifest.py:292-334 | Accepted exactly when every headline row is complete and ids are distinct; at most eight are kept, in order |
| `Manifest.BuildManifest` | deploy_assets/extensions/empirical/utils/empirical_input_manifest.py:337-371 | Succeeds exactly when code, headline section, verifier namespace and verifier are readable, and binds exactly those |
| `Manifest.FinalizePass` | deploy_assets/extensions/empirical/utils/empirical_input_manifest.py:514-694 | A PASS is produced exactly when the bound inputs are readable and stable across the run and every headline is reproduced within tolerance by a described path; then every replicated value is within 1, 0.005 or 0.05 of the reported one, or within 0.01 or 0.005 of its size, by its class; every PASS produced is accepted by both validators |
| `Manifest.WithinMeans` | deploy_assets/extensions/empirical/utils/empirical_input_manifest.py:38-44 | The tolerance gate in plain arithmetic, class by class |
| `Manifest.ReproducedExactly` | deploy_assets/extensions/empirical/utils/empirical_input_manifest.py:607-694 | With the evidence complete, the loop succeeds exactly when every headline is within that arithmetic |
| `Manifest.AcceptedExactly` | deploy_assets/extensions/empirical/utils/empirical_input_manifest.py:374-511 | What the validators accept, all of it and nothing else: a finalized PASS, a well-formed manifest under its own digest, one truthful claim for each headline in order, and the digest of the very numbers that the verifier printed |
| `Manifest.CompareResult` | deploy_assets/extensions/empirical/utils/empirical_input_manifest.py:697-745 | A comparison is given exactly for an accepted, finalized PASS of the required analysis on a readable project, and reads UNCHANGED exactly when that PASS binds the present inputs |
| `Manifest.ProducedPassCompares` | deploy_assets/extensions/empirical/utils/empirical_input_manifest.py:724-745 | UNCHANGED exactly while the bound code, headline section and verifier are what they were, and exactly when no difference is listed; the listed files are exactly those that differ |
| `Manifest.FinalizeThenCompare` | deploy_assets/extensions/empirical/utils/empirical_input_manifest.py:514-745 | Finalizing and then comparing never fails on the validators, and reads UNCHANGED exactly while the inputs are those before finalization |
| `Manifest.AcceptedMeansReproduced` | deploy_assets/extensions/empirical/utils/empirical_input_manifest.py:435-511 | An accepted result has, for every headline in order, a run value within the tolerance of its class |
| `Manifest.SameDigestSameInputs` | deploy_assets/extensions/empirical/utils/empirical_input_manifest.py:355-371 | Combined digests agree exactly when all bound inputs do |
| `Ownership.ReadReceipt` | deploy_assets/extensions/empirical/utils/empirical_input_manifest.py:808-902 | A receipt is accepted exactly when it owns at most one analysis, nothing reserved, and everything it owns is intact and declared |
| `Ownership.KindMeans` | deploy_assets/extensions/empirical/utils/empirical_input_manifest.py:838-862 | What a receipt may list under the reserved stem: an analysis, its execution summary, or what lies in a directory that only shares the stem |
| `Ownership.ReceiptExactly` | deploy_assets/extensions/empirical/utils/empirical_input_manifest.py:808-902 | The conditions on one receipt, by the paths and records that it lists |
| `Ownership.ResolveLifecycle` | deploy_assets/extensions/empirical/utils/empirical_input_manifest.py:797-933 | Succeeds exactly when the registry is consistent (no analysis with two receipts, no file with two owners), and then says exactly who declares what |
| `Ownership.DeclaredExactly` | deploy_assets/extensions/empirical/utils/empirical_input_manifest.py:903-933 | What a receipt declares for its analysis: itself, its plan, its results and its execution summaries, each in its own role |
| `Ownership.Examine` | deploy_assets/extensions/empirical/utils/empirical_input_manifest.py:985-1071 | An entry is an error exactly when it is none of: owned analysis, declared sibling, unbound plan, referenced directory |
| `Ownership.AccountedExactly` | deploy_assets/extensions/empirical/utils/empirical_input_manifest.py:985-1071 | Both ways, for every consistent registry: which entries are accounted for, by what is on disk and in the receipts, and which are reported as plans of nobody's |
| `Ownership.CheckAll` | deploy_assets/extensions/empirical/utils/empirical_input_manifest.py:936-1177 | UNCHANGED exactly when the registry is consistent, every entry is accounted for, every non-retired analysis has a stored PASS that binds its present inputs and no verifier artifact is an orphan |
| `Ownership.UnchangedExactly` | deploy_assets/extensions/empirical/utils/empirical_input_manifest.py:1074-1102 | The analyses that must compare unchanged are those on disk that a receipt owns and has not retired |
| `Ownership.UnchangedMeansOwned` | deploy_assets/extensions/empirical/utils/empirical_input_manifest.py:936-1177 | Then every entry is an intact analysis of exactly one receipt, a sibling that this receipt declares in exactly its role, a reported plan of nobody's, or a referenced directory |
| `Ownership.UnchangedMeansReproduced` | deploy_assets/extensions/empirical/utils/empirical_input_manifest.py:1074-1102 | For such an analysis, each headline that its report makes now was reproduced by the stored run within the tolerance of its class |
| `Ownership.CheckVerifiers` | deploy_assets/extensions/empirical/utils/empirical_input_manifest.py:1110-1171 | No orphan is listed exactly when every verifier result and script belongs to a listed analysis |
| `DigestBinding.ReferenceMap` | deploy_assets/extensions/empirical/utils/construction_guard.py:193-221 | A name maps to a digest exactly when that is the only digest recorded for it, a path winning over base names; ambiguous exactly when several are |
| `DigestBinding.OrderIrrelevant` | deploy_assets/extensions/empirical/utils/construction_guard.py:193-221 | The map is the same for every order of the records |
| `DigestBinding.ResolvedOrAmbiguous` | deploy_assets/extensions/empirical/utils/construction_guard.py:193-221 | Resolved and ambiguous names are disjoint and together are all recorded names |
| `DigestBinding.ReferenceColumns` | deploy_assets/extensions/empirical/utils/construction_guard.py:453-473 | Exactly the columns that refer to files by enough resolved names, one of them not a bare number |
| `DigestBinding.RowReferences` | deploy_assets/extensions/empirical/utils/construction_guard.py:476-493 | A row's digest sets are exactly those of the inputs and artifacts that its reference columns name |
| `DigestBinding.CheckColumn` | deploy_assets/extensions/empirical/utils/construction_guard.py:496-644 | The verdict and binding of a column are determined by what each claimed cell is bound to |
| `DigestBinding.VerdictExactly` | deploy_assets/extensions/empirical/utils/construction_guard.py:496-644 | A column passes exactly when the row of every claimed digest names a file with that digest, row-scoped exactly when those are inputs; it fails exactly when, not derived, some row names only other files, or none while the digest is that of no file |
| `DigestBinding.CountsCover` | deploy_assets/extensions/empirical/utils/construction_guard.py:526-550 | The claimed cells are the sum of the three reported counts and the mismatched cells; PASS exactly when all are bound |
| `DigestBinding.PassIsBound` | deploy_assets/extensions/empirical/utils/construction_guard.py:496-644 | When a column passes, every claimed digest is that of a declared file which the same row names: an input if row-scoped, an artifact if self-manifest |
| `DigestBinding.CheckTable` | deploy_assets/extensions/empirical/utils/construction_guard.py:496-644 | A table has a finding for each digest column and for no other, each judged against the maps and rows of that same table |
| `Includes.ResolvesExactly` | deploy_assets/scripts/agent_body_loader.py:66-103 | For every fragment directory, circular or not: expansion succeeds exactly when every include chain from the body is complete and at most sixteen deep |
| `Includes.CirclesRefused` | deploy_assets/scripts/agent_body_loader.py:76-92 | A body from which a circle can be reached is refused |
| `Includes.ExpansionIsSubstitution` | deploy_assets/scripts/agent_body_loader.py:66-103 | A successful expansion is sixteen rounds of plain one-level substitution |
| `Includes.ExpansionOfParts` | deploy_assets/scripts/agent_body_loader.py:66-103 | Parts of a body expand one by one |
| `Includes.ExpansionOfToken` | deploy_assets/scripts/agent_body_loader.py:66-103 | Text and keys stay as they are, and an include becomes the expansion of its fragment |
| `Includes.Resolve` | deploy_assets/scripts/agent_body_loader.py:66-103 | What comes out holds no include |
| `Includes.ApplyVocab` | deploy_assets/scripts/agent_body_loader.py:217-235 | Succeeds exactly when every key is known, replaces exactly the keys, and otherwise names exactly the missing ones |
| `Includes.LoadBody` | deploy_assets/scripts/agent_body_loader.py:167-175 | Includes first, vocabulary second: succeeds exactly when the chains are bounded and the expanded body's keys are known; then it is the expanded body, with each key replaced by its word if there is a vocabulary |

## Left out

* The released-client compatibility guard, older latch files and the legacy TCP refusal loop: bound to particular releases and platforms. One durable latch is modelled.
* How the scan recognises a daemon (user, interpreter, arguments, `ps`): it sees every live daemon of this protocol, lists the table in one step and looks at each entry in a step of its own. A daemon in another pid namespace or started in a way that the scan does not recognise is not part of this model. The second scan, and the refusal of foreign network namespaces, appear only as steps that may refuse.
* Operating-system checks (owner, mode, symbolic links) and the birth-token test for recycled pids: a process is a number that is never reused.
* How a report's headline section and its tagged rows are recognised in the text: any function of the text is allowed.
* The text of messages and log lines, JSON and hashing: a digest stands for what it is the digest of, a parsed value for its text.
* Floating-point rounding: times, tolerances and reported values are reals, except where the code takes a floor or an integer.
* `WRDS_AUTO_RELOGIN` is taken not to change during the life of a daemon.
* An unbounded busy-wait budget (`inf`), which the client accepts as a way to wait for ever.
* The wait for the watchdog inside `wrds_await_service` and the watchdog's own singleton file: only the outcome of the wait is modelled.
* The deadline of each socket operation: a socket of the model may time out at any step, or is calm and never does.
* The response-preparation worker and its semaphore: only what it hands back (bytes, or an exception before the first byte) is modelled.
* An exception other than an `OSError` in the middle of sending a frame (`MemoryError`, say): the code would report it in a second frame.
* Bytes that are not UTF-8 in a percent-encoded child: children are byte sequences, and replacement characters are not modelled.
* Paths that are spelled with redundant separators, and a stage directory that is itself missing, unreadable or not a directory: paths are lists of names and directories are listings.
* The order in which `carry_diff`, `compare_result` and the digest findings list names.
* Which headings are blind to the carry diff: any predicate of the heading is allowed.
* The lookup order of body files, vocabulary merging and agent metadata: each follows from one line of code.
* Locator, constancy and coverage warnings, census carrying, data downloaders, transforms and assemblers: simple tests or input and output.
- CarryDiff.DiffAccounts: the order of a section's parts is not compared, because the code does not compare it.
- CarryDiff.AccountsExactly: ranges over texts in which no heading is spelled like the numbered repetition of another, because only then does a key name one section.
- Budgets.SlowestFirstByte: a database call is taken to end when its own timeout does, though the server-side timeout bounds each statement and not the transfer of its rows.
- LoginProtocol.LoginBudget: counts logins of processes that follow this protocol; a login made by any other program is not part of this model.
- WaitIdle.QuiescentMeansSettled: is about the full check; with `--status-only` the ledger is not consulted and only the idle tree is seen.
