/**
 `wait-idle`: the polling loop that decides when a parent session and its background
 children are quiescent. Each sample is whatever one poll observed; samples may end.
 */
module WaitIdle {
  import opened Basics
  import opened GenerationTokens
  import opened BackgroundLedger

  type SessionId = seq<byte>

  datatype Status = IdleStatus | ErrorStatus | Active | Invalid

  /** One poll: the parent's messages, its children, the status table, and whether the
      deadline had passed when the sample was judged. */
  datatype Sample = Sample(
    history: seq<Message>, children: seq<SessionId>, statuses: map<SessionId, Status>, expired: bool)

  datatype Query = Query(parent: SessionId, statusOnly: bool, stableSamples: int, after: int, generations: set<string>)

  /** Exit 0, exit 3 and exit 2 with the index of the deciding sample; Polling when the
      samples end first. */
  datatype Exit = Quiescent(at: nat) | TimedOut(at: nat) | Broken(at: nat) | BadGeneration | Polling

  // --- One sample ----------------------------------------------------------------

  predicate StatusesValid(ids: seq<SessionId>, statuses: map<SessionId, Status>) {
    forall id | id in ids :: id in statuses ==> !statuses[id].Invalid?
  }

  /** `_busy_tree`: the parent and its children that are neither idle, failed nor unknown. */
  method BusyTree(parent: SessionId, s: Sample) returns (r: Option<seq<SessionId>>)
    ensures r.Some? <==> StatusesValid([parent] + s.children, s.statuses)
    ensures r.Some? ==> forall id :: id in r.value <==>
      id in [parent] + s.children && id in s.statuses && s.statuses[id].Active?
  {
    var ids := [parent] + s.children;
    if !StatusesValid(ids, s.statuses) {
      return None;
    }
    var busy: seq<SessionId> := [];
    var i := 0;
    while i < |ids|
      invariant 0 <= i <= |ids|
      invariant forall id :: id in busy <==> id in ids[..i] && id in s.statuses && s.statuses[id].Active?
    {
      if ids[i] in s.statuses && s.statuses[ids[i]].Active? {
        busy := busy + [ids[i]];
      }
      i := i + 1;
    }
    assert ids[..i] == ids;
    return Some(busy);
  }

  ghost predicate IdleTree(parent: SessionId, s: Sample) {
    forall id | id in [parent] + s.children && id in s.statuses :: !s.statuses[id].Active?
  }

  ghost predicate Readable(q: Query, s: Sample) {
    && StatusesValid([q.parent] + s.children, s.statuses)
    && (q.statusOnly || (0 <= q.after <= |s.history| && WellFormedFrom(s.history, q.after)))
  }

  /** What a readable sample shows of the ledger. */
  ghost function Observed(q: Query, s: Sample): Ledger {
    if q.statusOnly || !(0 <= q.after <= |s.history|) then Ledger({}, {}, {}) else LedgerOf(s.history, q.after)
  }

  // --- The run of samples ----------------------------------------------------------

  /** The generations required before sample k is judged: those asked for, and every
      launch any earlier sample showed. */
  ghost function Known(q: Query, samples: seq<Sample>, k: nat): set<string>
    requires k <= |samples|
  {
    if k == 0 then q.generations else Known(q, samples, k - 1) + Observed(q, samples[k - 1]).launched
  }

  lemma {:induction false} KnownExactly(q: Query, samples: seq<Sample>, k: nat, g: string)
    requires k <= |samples|
    ensures g in Known(q, samples, k) <==>
      g in q.generations || exists j :: 0 <= j < k && g in Observed(q, samples[j]).launched
  {
    hide Observed;
    if k > 0 {
      KnownExactly(q, samples, k - 1, g);
    }
  }

  /** Sample k shows an idle tree, nothing new, and everything required settled. */
  ghost predicate Quiet(q: Query, samples: seq<Sample>, k: nat)
    requires k < |samples|
  {
    IdleTree(q.parent, samples[k]) && (q.statusOnly || Calm(Observed(q, samples[k]), Known(q, samples, k)))
  }

  ghost predicate Calm(seen: Ledger, known: set<string>) {
    seen.launched <= known <= seen.settled && known <= seen.notified
  }

  /** How many samples, up to but not including k, were quiet without interruption. */
  ghost function Streak(q: Query, samples: seq<Sample>, k: nat): nat
    requires k <= |samples|
  {
    if k == 0 || !Quiet(q, samples, k - 1) then 0 else Streak(q, samples, k - 1) + 1
  }

  ghost predicate AllQuiet(q: Query, samples: seq<Sample>, from: nat, end: nat)
    requires end <= |samples|
  {
    forall i | from <= i < end :: Quiet(q, samples, i)
  }

  lemma AllQuietStep(q: Query, samples: seq<Sample>, from: nat, end: nat)
    requires from < end <= |samples|
    ensures AllQuiet(q, samples, from, end) <==> AllQuiet(q, samples, from, end - 1) && Quiet(q, samples, end - 1)
  {
  }

  lemma {:induction false} StreakMeans(q: Query, samples: seq<Sample>, k: nat, n: nat)
    requires k <= |samples|
    ensures Streak(q, samples, k) >= n <==> n <= k && AllQuiet(q, samples, k - n, k)
  {
    if k > 0 && n > 0 {
      StreakMeans(q, samples, k - 1, n - 1);
      if n <= k {
        AllQuietStep(q, samples, k - n, k);
      }
    }
  }

  /** Sample k is readable and neither ends the wait nor runs out of time. */
  ghost predicate Continues(q: Query, samples: seq<Sample>, k: nat)
    requires k < |samples|
  {
    Readable(q, samples[k]) && Streak(q, samples, k + 1) < Max(1, q.stableSamples) && !samples[k].expired
  }

  ghost predicate AllContinue(q: Query, samples: seq<Sample>, k: nat)
    requires k <= |samples|
  {
    forall i | 0 <= i < k :: Continues(q, samples, i)
  }

  predicate GenerationsValid(generations: set<string>) {
    forall g | g in generations :: GenerationChild(g).Some?
  }

  /** The exit code, decided by the first sample that is unreadable, completes the
      streak, or finds the deadline passed. */
  ghost predicate ExitSpec(q: Query, samples: seq<Sample>, exit: Exit) {
    match exit
    case BadGeneration => !GenerationsValid(q.generations)
    case Broken(at) =>
      GenerationsValid(q.generations) && at < |samples| && AllContinue(q, samples, at) && !Readable(q, samples[at])
    case Quiescent(at) =>
      && GenerationsValid(q.generations) && at < |samples| && AllContinue(q, samples, at) && Readable(q, samples[at])
      && Streak(q, samples, at + 1) >= Max(1, q.stableSamples)
    case TimedOut(at) =>
      && GenerationsValid(q.generations) && at < |samples| && AllContinue(q, samples, at) && Readable(q, samples[at])
      && Streak(q, samples, at + 1) < Max(1, q.stableSamples) && samples[at].expired
    case Polling => GenerationsValid(q.generations) && AllContinue(q, samples, |samples|)
  }

  /** One poll judged against what is required so far. */
  method Judge(q: Query, samples: seq<Sample>, k: nat, required: set<string>)
    returns (readable: bool, required': set<string>, quiet: bool)
    requires k < |samples| && (q.statusOnly || required == Known(q, samples, k))
    ensures readable <==> Readable(q, samples[k])
    ensures readable && !q.statusOnly ==> required' == Known(q, samples, k + 1)
    ensures readable ==> (quiet <==> Quiet(q, samples, k))
  {
    var s := samples[k];
    required', quiet := required, false;
    var growth: set<string>, missing: set<string>, unsettled: set<string> := {}, {}, {};
    if !q.statusOnly {
      var state := BackgroundState(s.history, q.after);
      if state.Err? {
        return false, required, false;
      }
      growth := state.value.launched - required;
      required' := required + growth;
      missing := required' - state.value.notified;
      unsettled := required' - state.value.settled;
    }
    var busy := BusyTree(q.parent, s);
    if busy.None? {
      return false, required, false;
    }
    assert IdleTree(q.parent, s) <==> busy.value == [] by {
      if busy.value != [] {
        assert busy.value[0] in busy.value;
      }
    }
    return true, required', busy.value == [] && missing == {} && unsettled == {} && growth == {};
  }

  lemma StreakStep(q: Query, samples: seq<Sample>, k: nat, quiet: bool)
    requires k < |samples| && (quiet <==> Quiet(q, samples, k))
    ensures Streak(q, samples, k + 1) == if quiet then Streak(q, samples, k) + 1 else 0
  {
  }

  lemma ContinueStep(q: Query, samples: seq<Sample>, k: nat)
    requires k < |samples| && AllContinue(q, samples, k) && Continues(q, samples, k)
    ensures AllContinue(q, samples, k + 1)
  {
  }

  lemma PollStart(q: Query, samples: seq<Sample>)
    ensures AllContinue(q, samples, 0) && Streak(q, samples, 0) == 0
    ensures q.statusOnly || Known(q, samples, 0) == q.generations
  {
  }

  /** `cmd_wait_idle`. */
  method Poll(q: Query, samples: seq<Sample>) returns (exit: Exit)
    ensures ExitSpec(q, samples, exit)
  {
    hide Known, Streak, AllContinue, Quiet, Readable, GenerationsValid, GenerationChild;
    if !GenerationsValid(q.generations) {
      return BadGeneration;
    }
    var required := q.generations;
    var stable := 0;
    var k := 0;
    PollStart(q, samples);
    while k < |samples|
      invariant 0 <= k <= |samples| && AllContinue(q, samples, k)
      invariant q.statusOnly || required == Known(q, samples, k)
      invariant stable == Streak(q, samples, k)
    {
      var readable, required', quiet := Judge(q, samples, k, required);
      if !readable {
        return Broken(k);
      }
      StreakStep(q, samples, k, quiet);
      required := required';
      if quiet {
        stable := stable + 1;
        if stable >= q.stableSamples {
          return Quiescent(k);
        }
      } else {
        stable := 0;
      }
      if samples[k].expired {
        return TimedOut(k);
      }
      ContinueStep(q, samples, k);
      k := k + 1;
    }
    return Polling;
  }

  // --- Main results ------------------------------------------------------------------

  /** Samples decide the exit: no two exits meet the specification. */
  lemma ExitDetermined(q: Query, samples: seq<Sample>, a: Exit, b: Exit)
    requires ExitSpec(q, samples, a) && ExitSpec(q, samples, b)
    ensures a == b
  {
    hide Continues, Readable, Streak, GenerationsValid;
    var i := if a.Polling? then |samples| else if a.BadGeneration? then 0 else a.at;
    var j := if b.Polling? then |samples| else if b.BadGeneration? then 0 else b.at;
    if i < j {
      Ends(q, samples, a, i);
    } else if j < i {
      Ends(q, samples, b, j);
    }
  }

  /** The deciding sample does not continue the wait. */
  lemma Ends(q: Query, samples: seq<Sample>, exit: Exit, at: nat)
    requires ExitSpec(q, samples, exit) && at < |samples|
    requires exit == Quiescent(at) || exit == TimedOut(at) || exit == Broken(at)
    ensures !Continues(q, samples, at)
  {
    hide Readable, Streak, GenerationsValid, AllContinue;
  }

  /** Exit 0 means that each of the last `stableSamples` polls saw an idle tree, no new
      launch, and every generation asked for or ever discovered settled; in particular
      nothing launched is still pending. */
  lemma QuiescentMeansSettled(q: Query, samples: seq<Sample>, at: nat)
    requires ExitSpec(q, samples, Quiescent(at)) && !q.statusOnly
    ensures Max(1, q.stableSamples) <= at + 1
    ensures forall i | at + 1 - Max(1, q.stableSamples) <= i <= at ::
      AllSettled(q, samples, i) && Known(q, samples, i) == Known(q, samples, at)
  {
    var n := Max(1, q.stableSamples);
    StreakMeans(q, samples, at + 1, n);
    forall i | at + 1 - n <= i <= at
      ensures AllSettled(q, samples, i) && Observed(q, samples[i]).launched <= Known(q, samples, i)
    {
      assert Quiet(q, samples, i);
    }
    KnownStable(q, samples, at + 1 - n, at);
  }

  /** Exit 0, with or without the ledger, means that in each of those polls neither the parent
      nor any of its children was at work. */
  lemma QuiescentMeansIdle(q: Query, samples: seq<Sample>, at: nat, i: nat, id: SessionId)
    requires ExitSpec(q, samples, Quiescent(at)) && at + 1 - Max(1, q.stableSamples) <= i <= at
    requires (id == q.parent || id in samples[i].children) && id in samples[i].statuses
    ensures samples[i].statuses[id] == IdleStatus || samples[i].statuses[id] == ErrorStatus
  {
    hide Calm, Known, WellFormedFrom;
    var n := Max(1, q.stableSamples);
    StreakMeans(q, samples, at + 1, n);
    assert Quiet(q, samples, i);
    assert i < at ==> Continues(q, samples, i);
    assert id in [q.parent] + samples[i].children;
  }

  predicate AtRest(parent: SessionId, s: Sample) {
    forall id | id in s.statuses && (id == parent || id in s.children) ::
      s.statuses[id] == IdleStatus || s.statuses[id] == ErrorStatus
  }

  /** The converse: once the tree has been at rest for that many polls with nothing new and
      everything settled, the wait is over with exit 0, at that poll or before. */
  lemma SettledMeansQuiescent(q: Query, samples: seq<Sample>, at: nat, exit: Exit)
    requires ExitSpec(q, samples, exit) && GenerationsValid(q.generations)
    requires at < |samples| && Max(1, q.stableSamples) <= at + 1
    requires forall i | 0 <= i <= at :: Readable(q, samples[i]) && (i < at ==> !samples[i].expired)
    requires forall i | at + 1 - Max(1, q.stableSamples) <= i <= at ::
      && AtRest(q.parent, samples[i])
      && (q.statusOnly || Observed(q, samples[i]).launched <= Known(q, samples, i) <= Observed(q, samples[i]).settled)
    ensures exit.Quiescent? && exit.at <= at
  {
    hide ExitSpec, Streak, Known, WellFormedFrom;
    var n := Max(1, q.stableSamples);
    forall i | at + 1 - n <= i <= at
      ensures Quiet(q, samples, i)
    {
      if !q.statusOnly {
        MatchedAreLaunched(Events(samples[i].history, q.after, |samples[i].history|), samples[i].history);
      }
    }
    StreakMeans(q, samples, at + 1, n);
    LongStreakEnds(q, samples, at, exit);
  }

  lemma LongStreakEnds(q: Query, samples: seq<Sample>, at: nat, exit: Exit)
    requires ExitSpec(q, samples, exit) && GenerationsValid(q.generations)
    requires at < |samples| && Streak(q, samples, at + 1) >= Max(1, q.stableSamples)
    requires forall i | 0 <= i <= at :: Readable(q, samples[i]) && (i < at ==> !samples[i].expired)
    ensures exit.Quiescent? && exit.at <= at
  {
    hide Readable, Streak, GenerationsValid;
    assert !Continues(q, samples, at);
  }

  ghost predicate AllSettled(q: Query, samples: seq<Sample>, i: nat)
    requires i < |samples|
  {
    && IdleTree(q.parent, samples[i])
    && Known(q, samples, i) <= Observed(q, samples[i]).settled
    && Pending(Observed(q, samples[i])) == {}
  }

  /** `_pending_children`. */
  ghost function Pending(ledger: Ledger): set<string> {
    ledger.launched - ledger.settled
  }

  lemma {:induction false} KnownStable(q: Query, samples: seq<Sample>, from: nat, at: nat)
    requires from <= at < |samples|
    requires forall i | from <= i <= at :: Observed(q, samples[i]).launched <= Known(q, samples, i)
    ensures forall i | from <= i <= at :: Known(q, samples, i) == Known(q, samples, at)
    decreases at
  {
    if from < at {
      KnownStable(q, samples, from, at - 1);
      var k := at - 1;
      assert Observed(q, samples[k]).launched <= Known(q, samples, k);
      assert Known(q, samples, at) == Known(q, samples, k);
    }
  }

  /** A settled generation's launch comes before its own notification, and that before
      a completed or failed assistant message. */
  lemma SettledMeans(ms: seq<Message>, after: nat, name: string) returns (x: nat, y: nat, answer: nat)
    requires after <= |ms| && name in LedgerOf(ms, after).settled
    ensures var events := Events(ms, after, |ms|);
      && x < y < |events| && MatchedBy(events, x, y)
      && Name(events[x]) == name && events[y].Note? && events[y].child == events[x].child
      && events[x].message <= events[y].message < answer < |ms| && ms[answer].info == Info(Assistant, Ended)
  {
    hide Open, Balance, Events, Name;
    var events := Events(ms, after, |ms|);
    x, y :| x < |events| && y < |events| && MatchedBy(events, x, y) &&
            AnsweredAfter(ms, events[y].message) && Name(events[x]) == name;
    answer :| events[y].message < answer < |ms| && Completes(ms[answer]);
    MatchedChild(events, x, y);
    EventsSorted(ms, after, |ms|);
  }

  ghost predicate Sorted(es: seq<Event>) {
    forall x, y | 0 <= x < y < |es| :: es[x].message <= es[y].message
  }

  lemma SortedConcat(a: seq<Event>, b: seq<Event>, last: nat)
    requires Sorted(a) && (forall e | e in a :: e.message < last) && (forall e | e in b :: e.message == last)
    ensures Sorted(a + b)
  {
    forall x, y | 0 <= x < y < |a + b|
      ensures (a + b)[x].message <= (a + b)[y].message
    {
      assert x < |a| ==> a[x] in a;
      assert y >= |a| ==> b[y - |a|] in b;
      assert x >= |a| ==> b[x - |a|] in b;
    }
  }

  lemma {:induction false} EventsSorted(ms: seq<Message>, from: nat, end: nat)
    requires from <= end <= |ms|
    ensures Sorted(Events(ms, from, end))
  {
    if from < end {
      var m := ms[end - 1];
      EventsSorted(ms, from, end - 1);
      EventsShape(ms, from, end - 1);
      MessageEventsShape(m, end - 1, |m.parts|);
      SortedConcat(Events(ms, from, end - 1), MessageEvents(m, end - 1, |m.parts|), end - 1);
    }
  }
}
