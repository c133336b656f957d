/**
 The ledger of background generations read off a parent session's message history.

 The program pairs each completion notification with the newest unmatched launch of
 that child, using one stack per child in a single pass. The specification below uses
 no stack: a launch is notified by the first later event at which the notifications of
 its child, counted from the launch on, outnumber the launches.
 */
module BackgroundLedger {
  import opened Basics
  import opened GenerationTokens

  datatype Role = User | Assistant | OtherRole

  datatype Completion = Unfinished | Ended | BadTiming

  datatype Info = BadInfo | Info(role: Role, end: Completion)

  /** A part's tool side: `metadata.background` is true only for Background. */
  datatype Task = NoTask | BadTask | Foreground | Background(child: Child)

  /** A part's text side: everything but NoNote is marked synthetic. */
  datatype Text = NoNote | BadNote | PlainNote | TaskResult(child: Child)

  datatype Part = Part(task: Task, text: Text)

  datatype Message = Message(info: Info, parts: seq<Part>)

  datatype Ledger = Ledger(launched: set<string>, notified: set<string>, settled: set<string>)

  datatype LedgerError = InvalidBaseline | HistoryShrank | InvalidMessage

  predicate WellFormedPart(role: Role, part: Part) {
    && !part.task.BadTask?
    && (part.task.Background? ==> part.task.child != [])
    && !part.text.BadNote?
    && (part.text.NoNote? || role.User?)
  }

  predicate WellFormed(m: Message) {
    && m.info.Info?
    && !(m.info.role.Assistant? && m.info.end.BadTiming?)
    && forall p | p in m.parts :: WellFormedPart(m.info.role, p)
  }

  predicate Completes(m: Message) {
    m.info.Info? && m.info.role.Assistant? && m.info.end.Ended?
  }

  /** Which messages are refused: those with unreadable parts, and those in which anyone but the
      user reports a result. */
  lemma RefusedExactly(m: Message)
    ensures !WellFormed(m) <==>
      || m.info == BadInfo || m.info == Info(Assistant, BadTiming)
      || exists p :: p in m.parts && (p.task == BadTask || p.task == Background([]) || p.text == BadNote ||
                                      (p.text != NoNote && m.info.role != User))
  {
  }

  // --- Events ----------------------------------------------------------------

  datatype Event = Launch(child: Child, message: nat, part: nat) | Note(child: Child, message: nat)

  function PartEvents(part: Part, message: nat, index: nat): seq<Event> {
    (if part.task.Background? then [Launch(part.task.child, message, index)] else []) +
    (if part.text.TaskResult? then [Note(part.text.child, message)] else [])
  }

  function MessageEvents(m: Message, message: nat, count: nat): seq<Event>
    requires count <= |m.parts|
  {
    if count == 0 then []
    else MessageEvents(m, message, count - 1) + PartEvents(m.parts[count - 1], message, count - 1)
  }

  /** The events of messages `from` up to, not including, `end`. */
  function Events(ms: seq<Message>, from: nat, end: nat): seq<Event>
    requires from <= end <= |ms|
  {
    if from == end then []
    else Events(ms, from, end - 1) + MessageEvents(ms[end - 1], end - 1, |ms[end - 1].parts|)
  }

  function Name(e: Event): string
    requires e.Launch?
  {
    Token(e.child, e.message, e.part)
  }

  // --- Specification: which launch a notification belongs to ---------------------

  function Weight(e: Event, child: Child): int {
    if e.child != child then 0 else if e.Note? then 1 else -1
  }

  /** Notifications minus launches of `child` among events a up to, not including, b. */
  function Balance(events: seq<Event>, child: Child, a: nat, b: nat): int
    requires a <= b <= |events|
  {
    if a == b then 0 else Balance(events, child, a, b - 1) + Weight(events[b - 1], child)
  }

  /** Launch x has not been outnumbered by any event before position n. */
  ghost predicate Open(events: seq<Event>, x: nat, n: nat)
    requires x < |events| && n <= |events|
  {
    forall z | x < z <= n :: Covered(events, x, z)
  }

  predicate Covered(events: seq<Event>, x: nat, z: nat)
    requires x < z <= |events|
  {
    Balance(events, events[x].child, x + 1, z) <= 0
  }

  /** Event y is the notification of launch x. */
  ghost predicate MatchedBy(events: seq<Event>, x: nat, y: nat) {
    && x < y < |events| && events[x].Launch? && Open(events, x, y)
    && Balance(events, events[x].child, x + 1, y + 1) == 1
  }

  ghost predicate AnsweredAfter(ms: seq<Message>, message: nat) {
    exists m | message < m < |ms| :: Completes(ms[m])
  }

  ghost function LaunchedSet(events: seq<Event>): set<string> {
    set x | 0 <= x < |events| && events[x].Launch? :: Name(events[x])
  }

  ghost function NotifiedSet(events: seq<Event>): set<string> {
    set x, y | 0 <= x < |events| && 0 <= y < |events| && MatchedBy(events, x, y) :: Name(events[x])
  }

  ghost function SettledSet(events: seq<Event>, ms: seq<Message>): set<string> {
    set x, y | 0 <= x < |events| && 0 <= y < |events| && MatchedBy(events, x, y) &&
               AnsweredAfter(ms, events[y].message) :: Name(events[x])
  }

  /** The ledger of the messages from `after` on. */
  ghost function LedgerOf(ms: seq<Message>, after: nat): Ledger
    requires after <= |ms|
  {
    var events := Events(ms, after, |ms|);
    Ledger(LaunchedSet(events), NotifiedSet(events), SettledSet(events, ms))
  }

  // --- The stack computes it ---------------------------------------------------

  /** The unmatched launches of `child` after n events, oldest first. */
  function Stack(events: seq<Event>, child: Child, n: nat): seq<nat>
    requires n <= |events|
  {
    if n == 0 then []
    else
      var s := Stack(events, child, n - 1);
      var e := events[n - 1];
      if e.child != child then s
      else if e.Launch? then s + [n - 1]
      else if s == [] then s else s[..|s| - 1]
  }

  /** Position k of a stack: an open launch of the child, as deep as the balance since says. */
  ghost predicate Sits(events: seq<Event>, child: Child, n: nat, s: seq<nat>, k: nat)
    requires n <= |events|
  {
    && k < |s| && s[k] < n && events[s[k]].Launch? && events[s[k]].child == child
    && Open(events, s[k], n) && Balance(events, child, s[k] + 1, n) == k + 1 - |s|
  }

  ghost predicate StackSpec(events: seq<Event>, child: Child, n: nat, s: seq<nat>)
    requires n <= |events|
  {
    && (forall k: nat | k < |s| :: Sits(events, child, n, s, k))
    && (forall x | 0 <= x < n && events[x].Launch? && events[x].child == child && Open(events, x, n) :: x in s)
  }

  lemma OpenStep(events: seq<Event>, x: nat, n: nat)
    requires x < n < |events|
    ensures Open(events, x, n + 1) <==>
            Open(events, x, n) && Balance(events, events[x].child, x + 1, n + 1) <= 0
  {
    if Open(events, x, n + 1) {
      assert Covered(events, x, n + 1);
    }
  }

  lemma OpenFresh(events: seq<Event>, m: nat)
    requires m < |events|
    ensures Open(events, m, m + 1) && Balance(events, events[m].child, m + 1, m + 1) == 0
  {
  }

  /** What event m leaves on a child's stack, or puts on it, is open and as deep as it should be. */
  lemma StackSound(events: seq<Event>, child: Child, m: nat, s: seq<nat>, k: nat)
    requires m < |events| && s == Stack(events, child, m) && k < |Stack(events, child, m + 1)|
    requires k < |s| ==> Sits(events, child, m, s, k)
    ensures Sits(events, child, m + 1, Stack(events, child, m + 1), k)
  {
    hide Open;
    if k < |s| {
      assert Balance(events, child, s[k] + 1, m + 1) == Balance(events, child, s[k] + 1, m) + Weight(events[m], child);
      OpenStep(events, s[k], m);
    } else {
      OpenFresh(events, m);
    }
  }

  lemma StackComplete(events: seq<Event>, child: Child, m: nat, s: seq<nat>, k: nat)
    requires m < |events| && s == Stack(events, child, m) && Sits(events, child, m, s, k)
    requires Open(events, s[k], m + 1)
    ensures s[k] in Stack(events, child, m + 1)
  {
    OpenStep(events, s[k], m);
    assert k < |s| - 1 ==> s[k] == s[..|s| - 1][k];
  }

  /** The stack holds exactly the open launches, and the balance since each one says
      how many lie above it. */
  lemma {:induction false} StackIsOpen(events: seq<Event>, child: Child, n: nat)
    requires n <= |events|
    ensures StackSpec(events, child, n, Stack(events, child, n))
  {
    if n > 0 {
      hide Open, Sits;
      var m := n - 1;
      var s, t := Stack(events, child, m), Stack(events, child, n);
      StackIsOpen(events, child, m);
      forall x | 0 <= x < n && events[x].Launch? && events[x].child == child && Open(events, x, n)
        ensures x in t
      {
        if x < m {
          OpenStep(events, x, m);
          var k :| 0 <= k < |s| && s[k] == x;
          StackComplete(events, child, m, s, k);
        }
      }
      forall k: nat | k < |t|
        ensures Sits(events, child, n, t, k)
      {
        StackSound(events, child, m, s, k);
      }
    }
  }

  /** A notification goes to the top of its child's stack, and to nothing else. */
  lemma NoteTakesTop(events: seq<Event>, x: nat, y: nat)
    requires y < |events|
    ensures MatchedBy(events, x, y) <==>
      var s := Stack(events, events[y].child, y);
      events[y].Note? && s != [] && x == s[|s| - 1]
  {
    var child := events[y].child;
    var s := Stack(events, child, y);
    StackIsOpen(events, child, y);
    assert s != [] ==> Sits(events, child, y, s, |s| - 1);
    if MatchedBy(events, x, y) {
      StackIsOpen(events, events[x].child, y);
      var t := Stack(events, events[x].child, y);
      var k: nat :| k < |t| && t[k] == x;
      assert Sits(events, events[x].child, y, t, k);
    }
  }

  lemma MatchedChild(events: seq<Event>, x: nat, y: nat)
    requires MatchedBy(events, x, y)
    ensures events[y].Note? && events[y].child == events[x].child
  {
    NoteTakesTop(events, x, y);
    var s := Stack(events, events[y].child, y);
    StackIsOpen(events, events[y].child, y);
    assert Sits(events, events[y].child, y, s, |s| - 1);
  }

  // --- The program -------------------------------------------------------------

  function NameAt(events: seq<Event>, x: nat): string {
    if x < |events| && events[x].Launch? then Name(events[x]) else ""
  }

  function Names(events: seq<Event>, positions: seq<nat>): seq<string> {
    seq(|positions|, k requires 0 <= k < |positions| => NameAt(events, positions[k]))
  }

  /** The launch named `name` is notified by one of the first n events, in `message`. */
  ghost predicate NotedAt(events: seq<Event>, n: nat, name: string, message: nat) {
    exists x: nat, y: nat | MatchedBy(events, x, y) :: y < n && Name(events[x]) == name && events[y].message == message
  }

  function Pending(unmatched: map<Child, seq<string>>, child: Child): seq<string> {
    if child in unmatched then unmatched[child] else []
  }

  /** The names pending for every child are those on its specification stack. */
  ghost predicate Stacked(events: seq<Event>, n: nat, unmatched: map<Child, seq<string>>)
    requires n <= |events|
  {
    forall c :: Pending(unmatched, c) == Names(events, Stack(events, c, n))
  }

  ghost predicate Noted(events: seq<Event>, n: nat, notifiedAt: map<string, nat>) {
    forall t, m :: (t in notifiedAt && notifiedAt[t] == m) <==> NotedAt(events, n, t, m)
  }

  ghost predicate DistinctNames(events: seq<Event>) {
    forall x, y | 0 <= x < |events| && 0 <= y < |events| && events[x].Launch? && events[y].Launch? &&
                  Name(events[x]) == Name(events[y]) :: x == y
  }

  lemma LaunchStacked(events: seq<Event>, n: nat, unmatched: map<Child, seq<string>>)
    requires n < |events| && events[n].Launch? && Stacked(events, n, unmatched)
    ensures var c := events[n].child;
      Stacked(events, n + 1, unmatched[c := Pending(unmatched, c) + [Name(events[n])]])
  {
    var d, n' := events[n].child, n + 1;
    var after := unmatched[d := Pending(unmatched, d) + [Name(events[n])]];
    forall c
      ensures Pending(after, c) == Names(events, Stack(events, c, n'))
    {
      var s := Stack(events, c, n);
      assert Pending(unmatched, c) == Names(events, s);
      if c == d {
        assert Stack(events, c, n') == s + [n];
        assert Names(events, s + [n]) == Names(events, s) + [Name(events[n])];
      }
    }
  }

  /** An event that notifies nothing leaves everything noted. */
  lemma NoMatchNoted(events: seq<Event>, n: nat, notifiedAt: map<string, nat>)
    requires n < |events| && Noted(events, n, notifiedAt)
    requires forall x: nat :: !MatchedBy(events, x, n)
    ensures Noted(events, n + 1, notifiedAt)
  {
    hide MatchedBy;
    var n' := n + 1;
    forall t, m
      ensures NotedAt(events, n', t, m) <==> NotedAt(events, n, t, m)
    {
    }
  }

  lemma LaunchNoted(events: seq<Event>, n: nat, notifiedAt: map<string, nat>)
    requires n < |events| && events[n].Launch? && Noted(events, n, notifiedAt)
    ensures Noted(events, n + 1, notifiedAt)
  {
    hide Noted, MatchedBy;
    forall x: nat
      ensures !MatchedBy(events, x, n)
    {
      NoteTakesTop(events, x, n);
    }
    NoMatchNoted(events, n, notifiedAt);
  }

  lemma NoteStacked(events: seq<Event>, n: nat, unmatched: map<Child, seq<string>>)
    requires n < |events| && events[n].Note? && Stacked(events, n, unmatched)
    ensures var c := events[n].child; var p := Pending(unmatched, c);
      Stacked(events, n + 1, if p == [] then unmatched else unmatched[c := p[..|p| - 1]])
  {
    var d, n' := events[n].child, n + 1;
    var p := Pending(unmatched, d);
    var after := if p == [] then unmatched else unmatched[d := p[..|p| - 1]];
    forall c
      ensures Pending(after, c) == Names(events, Stack(events, c, n'))
    {
      var s := Stack(events, c, n);
      assert Pending(unmatched, c) == Names(events, s);
      if c == d && p != [] {
        assert Stack(events, c, n') == s[..|s| - 1];
        assert Names(events, s[..|s| - 1]) == Names(events, s)[..|s| - 1];
      }
    }
  }

  /** A launch has at most one notification. */
  lemma MatchUnique(events: seq<Event>, x: nat, y: nat, z: nat)
    requires MatchedBy(events, x, y) && MatchedBy(events, x, z)
    ensures y == z
  {
    assert !Covered(events, x, y + 1) && !Covered(events, x, z + 1);
  }

  /** When event n notifies launch `top`, its name gets that message, and no other changes. */
  lemma NotedAtNext(events: seq<Event>, n: nat, top: nat, t: string, m: nat)
    requires n < |events| && DistinctNames(events)
    requires forall x: nat :: MatchedBy(events, x, n) <==> x == top
    ensures top < n && events[top].Launch?
    ensures NotedAt(events, n + 1, t, m) <==>
      if t == Name(events[top]) then m == events[n].message else NotedAt(events, n, t, m)
  {
    hide Open, Token;
    assert MatchedBy(events, top, n);
    if NotedAt(events, n + 1, t, m) {
      var x: nat, y: nat :| MatchedBy(events, x, y) && y < n + 1 && Name(events[x]) == t && events[y].message == m;
      if t == Name(events[top]) {
        assert x == top;
        MatchUnique(events, top, y, n);
      }
    }
  }

  lemma NoteNoted(events: seq<Event>, n: nat, unmatched: map<Child, seq<string>>, notifiedAt: map<string, nat>)
    requires n < |events| && events[n].Note? && DistinctNames(events)
    requires Stacked(events, n, unmatched) && Noted(events, n, notifiedAt)
    ensures var p := Pending(unmatched, events[n].child);
      Noted(events, n + 1, if p == [] then notifiedAt else notifiedAt[p[|p| - 1] := events[n].message])
  {
    hide MatchedBy, NotedAt, Stack, Token, DistinctNames;
    var s := Stack(events, events[n].child, n);
    var p := Pending(unmatched, events[n].child);
    assert p == Names(events, s);
    forall x: nat
      ensures MatchedBy(events, x, n) <==> s != [] && x == s[|s| - 1]
    {
      NoteTakesTop(events, x, n);
    }
    if s == [] {
      NoMatchNoted(events, n, notifiedAt);
    } else {
      var top, n' := s[|s| - 1], n + 1;
      forall t, m
        ensures NotedAt(events, n', t, m) <==>
          if t == p[|p| - 1] then m == events[n].message else NotedAt(events, n, t, m)
      {
        NotedAtNext(events, n, top, t, m);
      }
    }
  }

  // --- Where each event sits -----------------------------------------------------

  /** Launches come in the order of their message and part. */
  ghost predicate InOrder(es: seq<Event>) {
    forall x, y | 0 <= x < y < |es| && es[x].Launch? && es[y].Launch? :: Before(es[x], es[y])
  }

  predicate Before(d: Event, e: Event)
    requires d.Launch? && e.Launch?
  {
    d.message < e.message || (d.message == e.message && d.part < e.part)
  }

  lemma InOrderConcat(a: seq<Event>, b: seq<Event>)
    requires InOrder(a) && InOrder(b)
    requires forall d, e | d in a && e in b && d.Launch? && e.Launch? :: Before(d, e)
    ensures InOrder(a + b)
  {
    var c := a + b;
    forall x, y | 0 <= x < y < |c| && c[x].Launch? && c[y].Launch?
      ensures Before(c[x], c[y])
    {
      if x < |a| <= y {
        assert c[x] in a && c[y] in b;
      } else if y < |a| {
        assert c[x] == a[x] && c[y] == a[y];
      } else {
        assert c[x] == b[x - |a|] && c[y] == b[y - |a|];
      }
    }
  }

  lemma InOrderNone()
    ensures InOrder([])
  {
  }

  lemma InOrderDistinct(es: seq<Event>)
    requires InOrder(es)
    ensures DistinctNames(es)
  {
    forall x, y | 0 <= x < |es| && 0 <= y < |es| && es[x].Launch? && es[y].Launch? && Name(es[x]) == Name(es[y])
      ensures x == y
    {
      TokenInjective(es[x].child, es[x].message, es[x].part, es[y].child, es[y].message, es[y].part);
    }
  }

  lemma PartEventsShape(part: Part, message: nat, index: nat)
    ensures var es := PartEvents(part, message, index);
      InOrder(es) && forall e | e in es :: e.message == message && (e.Launch? ==> e.part == index)
  {
  }

  lemma {:induction false} MessageEventsShape(m: Message, message: nat, count: nat)
    requires count <= |m.parts|
    ensures var es := MessageEvents(m, message, count);
      InOrder(es) && forall e | e in es :: e.message == message && (e.Launch? ==> e.part < count)
  {
    hide InOrder, PartEvents;
    if count == 0 {
      InOrderNone();
    } else {
      var before, own := MessageEvents(m, message, count - 1), PartEvents(m.parts[count - 1], message, count - 1);
      MessageEventsShape(m, message, count - 1);
      PartEventsShape(m.parts[count - 1], message, count - 1);
      InOrderConcat(before, own);
    }
  }

  lemma {:induction false} MessageEventsPrefix(m: Message, message: nat, count: nat)
    requires count <= |m.parts|
    ensures MessageEvents(m, message, count) <= MessageEvents(m, message, |m.parts|)
    decreases |m.parts| - count
  {
    if count < |m.parts| {
      MessageEventsPrefix(m, message, count + 1);
    }
  }

  ghost predicate Between(es: seq<Event>, from: nat, end: nat) {
    InOrder(es) && forall e | e in es :: from <= e.message < end
  }

  lemma BetweenConcat(a: seq<Event>, b: seq<Event>, from: nat, end: nat)
    requires from < end && Between(a, from, end - 1) && InOrder(b) && forall e | e in b :: e.message == end - 1
    ensures Between(a + b, from, end)
  {
    InOrderConcat(a, b);
  }

  lemma BetweenNone(from: nat)
    ensures Between([], from, from)
  {
  }

  lemma {:induction false} EventsShape(ms: seq<Message>, from: nat, end: nat)
    requires from <= end <= |ms|
    ensures Between(Events(ms, from, end), from, end)
  {
    hide Between, InOrder, MessageEvents;
    if from == end {
      BetweenNone(from);
    } else {
      EventsShape(ms, from, end - 1);
      var a, b := Events(ms, from, end - 1), MessageEvents(ms[end - 1], end - 1, |ms[end - 1].parts|);
      MessageEventsShape(ms[end - 1], end - 1, |ms[end - 1].parts|);
      BetweenConcat(a, b, from, end);
      assert Events(ms, from, end) == a + b;
    }
  }

  lemma PrefixOfConcat(p: seq<Event>, a: seq<Event>, b: seq<Event>)
    requires p <= a
    ensures p <= a + b
  {
  }

  lemma {:induction false} EventsPrefix(ms: seq<Message>, from: nat, mid: nat, end: nat)
    requires from <= mid <= end <= |ms|
    ensures Events(ms, from, mid) <= Events(ms, from, end)
    decreases end
  {
    if mid < end {
      var m := ms[end - 1];
      EventsPrefix(ms, from, mid, end - 1);
      PrefixOfConcat(Events(ms, from, mid), Events(ms, from, end - 1), MessageEvents(m, end - 1, |m.parts|));
    }
  }

  /** The events before part j of message i, and those of the part itself. */
  lemma PartPosition(ms: seq<Message>, from: nat, i: nat, j: nat)
    requires from <= i < |ms| && j < |ms[i].parts|
    ensures var n := |Events(ms, from, i)| + |MessageEvents(ms[i], i, j)|;
      var es := PartEvents(ms[i].parts[j], i, j);
      var all := Events(ms, from, |ms|);
      n + |es| <= |all| && all[n..n + |es|] == es
  {
    MessageEventsPrefix(ms[i], i, j + 1);
    EventsPrefix(ms, from, i + 1, |ms|);
    var n := |Events(ms, from, i)| + |MessageEvents(ms[i], i, j)|;
    var es := PartEvents(ms[i].parts[j], i, j);
    var upTo := Events(ms, from, i) + MessageEvents(ms[i], i, j + 1);
    assert upTo <= Events(ms, from, i + 1);
    assert upTo[n..n + |es|] == es;
  }

  // --- The program ----------------------------------------------------------------

  /** The loop's variables. */
  datatype Pass = Pass(launched: set<string>, unmatched: map<Child, seq<string>>, notifiedAt: map<string, nat>)

  /** What the loop does with one event. */
  function Feed(pass: Pass, e: Event): Pass {
    match e
    case Launch(child, message, part) =>
      Pass(pass.launched + {Token(child, message, part)},
           pass.unmatched[child := Pending(pass.unmatched, child) + [Token(child, message, part)]],
           pass.notifiedAt)
    case Note(child, message) =>
      var candidates := Pending(pass.unmatched, child);
      if candidates == [] then pass
      else Pass(pass.launched, pass.unmatched[child := candidates[..|candidates| - 1]],
                pass.notifiedAt[candidates[|candidates| - 1] := message])
  }

  function Replay(events: seq<Event>, n: nat): Pass
    requires n <= |events|
  {
    if n == 0 then Pass({}, map[], map[]) else Feed(Replay(events, n - 1), events[n - 1])
  }

  ghost predicate Listed(events: seq<Event>, n: nat, launched: set<string>)
    requires n <= |events|
  {
    launched == set x | 0 <= x < n && events[x].Launch? :: Name(events[x])
  }

  lemma FeedListed(events: seq<Event>, n: nat, pass: Pass)
    requires n < |events| && Listed(events, n, pass.launched)
    ensures Listed(events, n + 1, Feed(pass, events[n]).launched)
  {
  }

  lemma FeedStacked(events: seq<Event>, n: nat, pass: Pass)
    requires n < |events| && Stacked(events, n, pass.unmatched)
    ensures Stacked(events, n + 1, Feed(pass, events[n]).unmatched)
  {
    if events[n].Launch? {
      LaunchStacked(events, n, pass.unmatched);
    } else {
      NoteStacked(events, n, pass.unmatched);
    }
  }

  lemma FeedNoted(events: seq<Event>, n: nat, pass: Pass)
    requires n < |events| && DistinctNames(events)
    requires Stacked(events, n, pass.unmatched) && Noted(events, n, pass.notifiedAt)
    ensures Noted(events, n + 1, Feed(pass, events[n]).notifiedAt)
  {
    if events[n].Launch? {
      LaunchNoted(events, n, pass.notifiedAt);
    } else {
      NoteNoted(events, n, pass.unmatched, pass.notifiedAt);
    }
  }

  /** After n events the variables hold what the specification says. */
  lemma {:induction false} ReplayTracks(events: seq<Event>, n: nat)
    requires n <= |events| && DistinctNames(events)
    ensures Listed(events, n, Replay(events, n).launched)
    ensures Stacked(events, n, Replay(events, n).unmatched)
    ensures Noted(events, n, Replay(events, n).notifiedAt)
  {
    hide Feed, Token, DistinctNames;
    if n > 0 {
      ReplayTracks(events, n - 1);
      FeedListed(events, n - 1, Replay(events, n - 1));
      FeedStacked(events, n - 1, Replay(events, n - 1));
      FeedNoted(events, n - 1, Replay(events, n - 1));
    }
  }

  /** What the loop does with one part: its launch, then its notification. */
  function FeedPart(pass: Pass, part: Part, message: nat, index: nat): Pass {
    var launched :=
      if part.task.Background? then Feed(pass, Launch(part.task.child, message, index)) else pass;
    if part.text.TaskResult? then Feed(launched, Note(part.text.child, message)) else launched
  }

  lemma ReplayPart(events: seq<Event>, n: nat, part: Part, message: nat, index: nat, pass: Pass)
    requires var es := PartEvents(part, message, index); n + |es| <= |events| && events[n..n + |es|] == es
    requires pass == Replay(events, n)
    ensures FeedPart(pass, part, message, index) == Replay(events, n + |PartEvents(part, message, index)|)
  {
    hide Feed, Token;
    var es := PartEvents(part, message, index);
    assert |es| >= 1 ==> events[n] == es[0];
    assert |es| == 2 ==> events[n + 1] == es[1];
  }

  /** The variables before part j of message i of a pass that began at `after`. */
  function Sofar(ms: seq<Message>, after: nat, i: nat, j: nat): Pass
    requires after <= i <= |ms| && (j == 0 || (i < |ms| && j <= |ms[i].parts|))
    decreases i, j
  {
    if j > 0 then FeedPart(Sofar(ms, after, i, j - 1), ms[i].parts[j - 1], i, j - 1)
    else if i == after then Pass({}, map[], map[])
    else Sofar(ms, after, i - 1, |ms[i - 1].parts|)
  }

  /** How many events precede part j of message i. */
  function Offset(ms: seq<Message>, after: nat, i: nat, j: nat): nat
    requires after <= i <= |ms| && (j == 0 || (i < |ms| && j <= |ms[i].parts|))
  {
    |Events(ms, after, i)| + if j == 0 then 0 else |MessageEvents(ms[i], i, j)|
  }

  lemma OffsetPart(ms: seq<Message>, after: nat, i: nat, j: nat)
    requires after <= i < |ms| && j < |ms[i].parts|
    ensures var all := Events(ms, after, |ms|); var n := Offset(ms, after, i, j);
      var es := PartEvents(ms[i].parts[j], i, j);
      Offset(ms, after, i, j + 1) == n + |es| <= |all| && all[n..n + |es|] == es
  {
    PartPosition(ms, after, i, j);
  }

  lemma OffsetMessage(ms: seq<Message>, after: nat, i: nat)
    requires after <= i < |ms|
    ensures Offset(ms, after, i + 1, 0) == Offset(ms, after, i, |ms[i].parts|)
  {
    assert MessageEvents(ms[i], i, 0) == [];
    assert Events(ms, after, i + 1) == Events(ms, after, i) + MessageEvents(ms[i], i, |ms[i].parts|);
  }

  ghost predicate Replayed(ms: seq<Message>, after: nat, i: nat, j: nat)
    requires after <= i <= |ms| && (j == 0 || (i < |ms| && j <= |ms[i].parts|))
  {
    var all, n := Events(ms, after, |ms|), Offset(ms, after, i, j);
    n <= |all| && Sofar(ms, after, i, j) == Replay(all, n)
  }

  lemma ReplayedPart(ms: seq<Message>, after: nat, i: nat, j: nat)
    requires after <= i < |ms| && j < |ms[i].parts| && Replayed(ms, after, i, j)
    ensures Replayed(ms, after, i, j + 1)
  {
    hide Events, MessageEvents, PartEvents, Replay, FeedPart, Offset;
    var all, n, part := Events(ms, after, |ms|), Offset(ms, after, i, j), ms[i].parts[j];
    OffsetPart(ms, after, i, j);
    ReplayPart(all, n, part, i, j, Sofar(ms, after, i, j));
  }

  /** The nested loops replay the flat sequence of events. */
  lemma {:induction false} SofarReplays(ms: seq<Message>, after: nat, i: nat, j: nat)
    requires after <= i <= |ms| && (j == 0 || (i < |ms| && j <= |ms[i].parts|))
    ensures Replayed(ms, after, i, j)
    decreases i, j
  {
    if j > 0 {
      SofarReplays(ms, after, i, j - 1);
      ReplayedPart(ms, after, i, j - 1);
    } else if i > after {
      SofarReplays(ms, after, i - 1, |ms[i - 1].parts|);
      OffsetMessage(ms, after, i - 1);
    }
  }

  /** The parts of one message. */
  method ReadMessage(ms: seq<Message>, i: nat, pass: Pass, ghost after: nat) returns (pass': Pass)
    requires after <= i < |ms| && pass == Sofar(ms, after, i, 0)
    ensures pass' == Sofar(ms, after, i + 1, 0)
  {
    pass' := pass;
    var j := 0;
    while j < |ms[i].parts|
      invariant 0 <= j <= |ms[i].parts|
      invariant pass' == Sofar(ms, after, i, j)
    {
      pass' := FeedPart(pass', ms[i].parts[j], i, j);
      j := j + 1;
    }
  }

  ghost predicate WellFormedFrom(ms: seq<Message>, from: nat) {
    forall i | from <= i < |ms| :: WellFormed(ms[i])
  }

  /** `_background_state`: one pass, one stack per child, and exactly the specified ledger. */
  method BackgroundState(ms: seq<Message>, after: int) returns (r: Result<Ledger, LedgerError>)
    ensures after < 0 ==> r == Err(InvalidBaseline)
    ensures after > |ms| ==> r == Err(HistoryShrank)
    ensures 0 <= after <= |ms| ==>
      r == if WellFormedFrom(ms, after) then Ok(LedgerOf(ms, after)) else Err(InvalidMessage)
  {
    if after < 0 {
      return Err(InvalidBaseline);
    } else if after > |ms| {
      return Err(HistoryShrank);
    }
    var pass, completed: set<nat>, i: nat := Pass({}, map[], map[]), {}, after;
    while i < |ms|
      invariant after <= i <= |ms|
      invariant forall m | after <= m < i :: WellFormed(ms[m])
      invariant pass == Sofar(ms, after, i, 0)
      invariant forall m :: m in completed <==> after <= m < i && Completes(ms[m])
    {
      if !WellFormed(ms[i]) {
        return Err(InvalidMessage);
      }
      if Completes(ms[i]) {
        completed := completed + {i};
      }
      pass := ReadMessage(ms, i, pass, after);
      i := i + 1;
    }
    var settled := set t | t in pass.notifiedAt && exists m | m in completed :: m > pass.notifiedAt[t];
    PassIsSpec(ms, after, pass, completed, settled);
    return Ok(Ledger(pass.launched, pass.notifiedAt.Keys, settled));
  }

  lemma PassIsSpec(ms: seq<Message>, after: nat, pass: Pass, completed: set<nat>, settled: set<string>)
    requires after <= |ms| && pass == Sofar(ms, after, |ms|, 0)
    requires forall m :: m in completed <==> after <= m < |ms| && Completes(ms[m])
    requires settled == set t | t in pass.notifiedAt && exists m | m in completed :: m > pass.notifiedAt[t]
    ensures Ledger(pass.launched, pass.notifiedAt.Keys, settled) == LedgerOf(ms, after)
  {
    var events := Events(ms, after, |ms|);
    EventsShape(ms, after, |ms|);
    InOrderDistinct(events);
    SofarReplays(ms, after, |ms|, 0);
    ReplayTracks(events, |events|);
    NotifiedIsSpec(events, pass.notifiedAt);
    SettledIsSpec(ms, after, pass.notifiedAt, completed, settled);
  }

  lemma NotifiedIsSpec(events: seq<Event>, notifiedAt: map<string, nat>)
    requires Noted(events, |events|, notifiedAt)
    ensures notifiedAt.Keys == NotifiedSet(events)
  {
    forall t
      ensures t in notifiedAt <==> t in NotifiedSet(events)
    {
      if t in notifiedAt {
        assert NotedAt(events, |events|, t, notifiedAt[t]);
      }
      if t in NotifiedSet(events) {
        var x, y :| 0 <= x < |events| && 0 <= y < |events| && MatchedBy(events, x, y) && Name(events[x]) == t;
        assert NotedAt(events, |events|, t, events[y].message);
      }
    }
  }

  lemma SettledIsSpec(ms: seq<Message>, after: nat, notifiedAt: map<string, nat>, completed: set<nat>,
                      settled: set<string>)
    requires after <= |ms|
    requires Noted(Events(ms, after, |ms|), |Events(ms, after, |ms|)|, notifiedAt)
    requires forall m :: m in completed <==> after <= m < |ms| && Completes(ms[m])
    requires settled == set t | t in notifiedAt && exists m | m in completed :: m > notifiedAt[t]
    ensures settled == SettledSet(Events(ms, after, |ms|), ms)
  {
    var events := Events(ms, after, |ms|);
    EventsShape(ms, after, |ms|);
    forall t
      ensures t in settled <==> t in SettledSet(events, ms)
    {
      if t in settled {
        var m :| m in completed && m > notifiedAt[t];
        assert NotedAt(events, |events|, t, notifiedAt[t]);
      }
      if t in SettledSet(events, ms) {
        var x, y :| 0 <= x < |events| && 0 <= y < |events| && MatchedBy(events, x, y) &&
                    AnsweredAfter(ms, events[y].message) && Name(events[x]) == t;
        assert NotedAt(events, |events|, t, events[y].message);
        var m :| events[y].message < m < |ms| && Completes(ms[m]);
        assert events[y] in events && m in completed;
      }
    }
  }

  // --- The events of a history -------------------------------------------------------

  /** How many launches and task results come before part j of message m. */
  function Earlier(ms: seq<Message>, from: nat, m: nat, j: nat): nat
    requires from <= m <= |ms| && (j == 0 || (m < |ms| && j <= |ms[m].parts|))
    decreases m, j
  {
    if j > 0 then
      var part := ms[m].parts[j - 1];
      Earlier(ms, from, m, j - 1) + (if part.task.Background? then 1 else 0) + (if part.text.TaskResult? then 1 else 0)
    else if m == from then 0
    else Earlier(ms, from, m - 1, |ms[m - 1].parts|)
  }

  lemma {:induction false} EarlierIsOffset(ms: seq<Message>, from: nat, m: nat, j: nat)
    requires from <= m <= |ms| && (j == 0 || (m < |ms| && j <= |ms[m].parts|))
    ensures Earlier(ms, from, m, j) == Offset(ms, from, m, j)
    decreases m, j
  {
    hide Events, MessageEvents;
    if j > 0 {
      EarlierIsOffset(ms, from, m, j - 1);
      OffsetPart(ms, from, m, j - 1);
    } else if m > from {
      EarlierIsOffset(ms, from, m - 1, |ms[m - 1].parts|);
      OffsetMessage(ms, from, m - 1);
    } else {
      assert Offset(ms, from, m, 0) == 0 by {
        OffsetStart(ms, from);
      }
    }
  }

  lemma OffsetStart(ms: seq<Message>, from: nat)
    requires from <= |ms|
    ensures Offset(ms, from, from, 0) == 0
  {
  }

  /** Main result: what the events of a history are. In the order of the messages and of their
      parts, each background task is one launch and each task result one notification, the
      launch of a part before its notification, and there is nothing else. */
  lemma EventsExactly(ms: seq<Message>, from: nat, m: nat, j: nat)
    requires from <= m < |ms| && j < |ms[m].parts|
    ensures var (all, part, n, next) :=
        (Events(ms, from, |ms|), ms[m].parts[j], Earlier(ms, from, m, j), Earlier(ms, from, m, j + 1));
      && n <= next <= |all|
      && (part.task.Background? ==> n < next && all[n] == Launch(part.task.child, m, j))
      && (part.text.TaskResult? ==> n < next && all[next - 1] == Note(part.text.child, m))
      && (part.task.Background? && part.text.TaskResult? ==> n < next - 1)
    ensures |Events(ms, from, |ms|)| == Earlier(ms, from, |ms|, 0)
  {
    hide Events, MessageEvents;
    EarlierIsOffset(ms, from, m, j);
    OffsetPart(ms, from, m, j);
    EarlierIsOffset(ms, from, |ms|, 0);
    var (all, n, es) := (Events(ms, from, |ms|), Offset(ms, from, m, j), PartEvents(ms[m].parts[j], m, j));
    assert forall k | 0 <= k < |es| :: all[n + k] == all[n..n + |es|][k] == es[k];
    assert es != [] ==> all[n + 0] == es[0] && all[n + (|es| - 1)] == es[|es| - 1];
  }

  /** A launch is an event exactly when that part of that message is a background task. */
  lemma LaunchesExactly(ms: seq<Message>, from: nat, c: Child, m: nat, j: nat)
    requires from <= |ms|
    ensures Launch(c, m, j) in Events(ms, from, |ms|) <==>
      from <= m < |ms| && j < |ms[m].parts| && ms[m].parts[j].task == Background(c)
  {
    InEvents(ms, from, |ms|, Launch(c, m, j));
    if from <= m < |ms| {
      InMessage(ms[m], m, |ms[m].parts|, Launch(c, m, j));
    }
  }

  lemma {:induction false} InMessage(m: Message, message: nat, count: nat, e: Event)
    requires count <= |m.parts|
    ensures e in MessageEvents(m, message, count) <==>
      exists j | 0 <= j < count :: e in PartEvents(m.parts[j], message, j)
  {
    hide PartEvents;
    if count > 0 {
      InMessage(m, message, count - 1, e);
    }
  }

  lemma {:induction false} InEvents(ms: seq<Message>, from: nat, end: nat, e: Event)
    requires from <= end <= |ms|
    ensures e in Events(ms, from, end) <==>
      from <= e.message < end && e in MessageEvents(ms[e.message], e.message, |ms[e.message].parts|)
  {
    hide MessageEvents;
    if from < end {
      InEvents(ms, from, end - 1, e);
      MessageEventsShape(ms[end - 1], end - 1, |ms[end - 1].parts|);
    }
  }

  /** How many of the parts are a task result of the child. */
  function Results(parts: seq<Part>, c: Child): nat {
    if parts == [] then 0
    else Results(parts[..|parts| - 1], c) + if parts[|parts| - 1].text == TaskResult(c) then 1 else 0
  }

  /** A message notifies a child as often as it has a task result of it. */
  lemma NotesCounted(ms: seq<Message>, from: nat, c: Child, m: nat)
    requires from <= |ms|
    ensures multiset(Events(ms, from, |ms|))[Note(c, m)] == if from <= m < |ms| then Results(ms[m].parts, c) else 0
  {
    NotesInEvents(ms, from, |ms|, c, m);
    if from <= m < |ms| {
      NotesInMessage(ms[m], m, |ms[m].parts|, c);
      assert ms[m].parts[..|ms[m].parts|] == ms[m].parts;
    }
  }

  lemma PartNotes(part: Part, message: nat, index: nat, c: Child)
    ensures multiset(PartEvents(part, message, index))[Note(c, message)] == if part.text == TaskResult(c) then 1 else 0
  {
  }

  lemma {:induction false} NotesInMessage(m: Message, message: nat, count: nat, c: Child)
    requires count <= |m.parts|
    ensures multiset(MessageEvents(m, message, count))[Note(c, message)] == Results(m.parts[..count], c)
  {
    hide PartEvents;
    if count > 0 {
      var upto := m.parts[..count];
      NotesInMessage(m, message, count - 1, c);
      PartNotes(m.parts[count - 1], message, count - 1, c);
      assert upto[..|upto| - 1] == m.parts[..count - 1] && upto[|upto| - 1] == m.parts[count - 1];
    }
  }

  lemma {:induction false} NotesInEvents(ms: seq<Message>, from: nat, end: nat, c: Child, m: nat)
    requires from <= end <= |ms|
    ensures multiset(Events(ms, from, end))[Note(c, m)] ==
      if from <= m < end then multiset(MessageEvents(ms[m], m, |ms[m].parts|))[Note(c, m)] else 0
  {
    hide MessageEvents;
    if from < end {
      NotesInEvents(ms, from, end - 1, c, m);
      var last := MessageEvents(ms[end - 1], end - 1, |ms[end - 1].parts|);
      MessageEventsShape(ms[end - 1], end - 1, |ms[end - 1].parts|);
      if m != end - 1 {
        assert Note(c, m) !in last;
        assert Note(c, m) !in multiset(last);
      }
      InEvents(ms, from, end - 1, Note(c, m));
    }
  }

  // --- When everything settles ---------------------------------------------------------

  /** Gives every launch a later notification of its child, and no two the same one. */
  ghost predicate Pairs(events: seq<Event>, f: nat -> nat) {
    && (forall x: nat | x < |events| && events[x].Launch? :: Pair(events, x, f(x)))
    && forall x: nat, y: nat | x < y < |events| && events[x].Launch? && events[y].Launch? :: f(x) != f(y)
  }

  predicate Pair(events: seq<Event>, x: nat, y: nat)
    requires x < |events|
  {
    x < y < |events| && events[y].Note? && events[y].child == events[x].child
  }

  ghost function LaunchesOf(events: seq<Event>, c: Child, a: nat): set<nat> {
    set x: nat | a <= x < |events| && events[x].Launch? && events[x].child == c
  }

  ghost function NotesOf(events: seq<Event>, c: Child, a: nat): set<nat> {
    set x: nat | a <= x < |events| && events[x].Note? && events[x].child == c
  }

  lemma {:induction false} BalanceFront(events: seq<Event>, c: Child, a: nat, b: nat)
    requires a < b <= |events|
    ensures Balance(events, c, a, b) == Weight(events[a], c) + Balance(events, c, a + 1, b)
    decreases b
  {
    if a + 1 < b {
      BalanceFront(events, c, a, b - 1);
    }
  }

  lemma LaunchCount(events: seq<Event>, c: Child, a: nat)
    requires a < |events|
    ensures |LaunchesOf(events, c, a)| == |LaunchesOf(events, c, a + 1)| +
      if events[a].Launch? && events[a].child == c then 1 else 0
  {
    var l := LaunchesOf(events, c, a + 1);
    if events[a].Launch? && events[a].child == c {
      assert LaunchesOf(events, c, a) == l + {a};
    } else {
      assert LaunchesOf(events, c, a) == l;
    }
  }

  lemma NoteCount(events: seq<Event>, c: Child, a: nat)
    requires a < |events|
    ensures |NotesOf(events, c, a)| == |NotesOf(events, c, a + 1)| +
      if events[a].Note? && events[a].child == c then 1 else 0
  {
    var n := NotesOf(events, c, a + 1);
    if events[a].Note? && events[a].child == c {
      assert NotesOf(events, c, a) == n + {a};
    } else {
      assert NotesOf(events, c, a) == n;
    }
  }

  /** The balance to the end counts notifications against launches. */
  lemma {:induction false} BalanceCounts(events: seq<Event>, c: Child, a: nat)
    requires a <= |events|
    ensures Balance(events, c, a, |events|) == |NotesOf(events, c, a)| - |LaunchesOf(events, c, a)|
    decreases |events| - a
  {
    if a == |events| {
      assert LaunchesOf(events, c, a) == {} && NotesOf(events, c, a) == {};
    } else {
      hide Balance, LaunchesOf, NotesOf;
      BalanceCounts(events, c, a + 1);
      BalanceFront(events, c, a, |events|);
      LaunchCount(events, c, a);
      NoteCount(events, c, a);
    }
  }

  lemma {:induction false} InjectionCounts(s: set<nat>, t: set<nat>, f: nat -> nat)
    requires forall x | x in s :: f(x) in t
    requires forall x, y | x in s && y in s && x < y :: f(x) != f(y)
    ensures |s| <= |t|
  {
    if s != {} {
      var x :| x in s;
      InjectionCounts(s - {x}, t - {f(x)}, f);
    }
  }

  /** A balance that ends above 0 was 1 at its first positive moment. */
  lemma {:induction false} FirstPositive(events: seq<Event>, x: nat, b: nat) returns (y: nat)
    requires x < b < |events| + 1 && events[x].Launch?
    requires Balance(events, events[x].child, x + 1, b) > 0
    ensures y < b && MatchedBy(events, x, y)
    decreases b
  {
    var c := events[x].child;
    if z: nat :| x < z < b && !Covered(events, x, z) {
      y := FirstPositive(events, x, z);
    } else {
      y := b - 1;
      assert Balance(events, c, x + 1, b) == Balance(events, c, x + 1, y) + Weight(events[y], c);
      assert x < y && Covered(events, x, y);
    }
  }

  /** When every launch has a notification of its own, the matching finds one for each. */
  lemma AllNotified(events: seq<Event>, f: nat -> nat, x: nat) returns (y: nat)
    requires Pairs(events, f) && x < |events| && events[x].Launch?
    ensures MatchedBy(events, x, y)
  {
    var c := events[x].child;
    var (l, n) := (LaunchesOf(events, c, x), NotesOf(events, c, x));
    forall z | z in l
      ensures f(z) in n
    {
      assert Pair(events, z, f(z));
    }
    InjectionCounts(l, n, f);
    BalanceCounts(events, c, x);
    BalanceFront(events, c, x, |events|);
    y := FirstPositive(events, x, |events|);
  }

  /** A part of a message. */
  datatype Place = Place(message: nat, part: nat)

  predicate Within(ms: seq<Message>, from: nat, p: Place) {
    from <= p.message < |ms| && p.part < |ms[p.message].parts|
  }

  predicate LaunchesAt(ms: seq<Message>, from: nat, p: Place) {
    Within(ms, from, p) && ms[p.message].parts[p.part].task.Background?
  }

  predicate AnswersAt(ms: seq<Message>, from: nat, p: Place, c: Child) {
    Within(ms, from, p) && ms[p.message].parts[p.part].text == TaskResult(c)
  }

  predicate NotBefore(p: Place, q: Place) {
    p.message < q.message || (p.message == q.message && p.part <= q.part)
  }

  /** Gives every launch a task result of its child that does not come before it, and no two
      launches the same one. */
  ghost predicate OwnResults(ms: seq<Message>, from: nat, own: map<Place, Place>) {
    && (forall p | LaunchesAt(ms, from, p) :: p in own && OwnResult(ms, from, p, own[p]))
    && forall p, q | p in own && q in own && own[p] == own[q] :: p == q
  }

  predicate OwnResult(ms: seq<Message>, from: nat, p: Place, q: Place)
    requires LaunchesAt(ms, from, p)
  {
    NotBefore(p, q) && AnswersAt(ms, from, q, ms[p.message].parts[p.part].task.child)
  }

  lemma {:induction false} EarlierGrows(ms: seq<Message>, from: nat, m: nat, j: nat, m': nat, j': nat)
    requires from <= m <= m' <= |ms| && (m == m' ==> j <= j')
    requires (j == 0 || (m < |ms| && j <= |ms[m].parts|)) && (j' == 0 || (m' < |ms| && j' <= |ms[m'].parts|))
    ensures Earlier(ms, from, m, j) <= Earlier(ms, from, m', j')
    decreases m', j'
  {
    if m != m' || j != j' {
      if j' > 0 {
        EarlierGrows(ms, from, m, j, m', j' - 1);
      } else {
        EarlierGrows(ms, from, m, j, m' - 1, |ms[m' - 1].parts|);
      }
    }
  }

  /** Where the notification of a task result is among the events. */
  function NotePosition(ms: seq<Message>, from: nat, q: Place): int
    requires Within(ms, from, q)
  {
    Earlier(ms, from, q.message, q.part + 1) - 1
  }

  lemma NotePositionsDiffer(ms: seq<Message>, from: nat, c: Child, q: Place, c': Child, q': Place)
    requires AnswersAt(ms, from, q, c) && AnswersAt(ms, from, q', c')
    requires NotePosition(ms, from, q) == NotePosition(ms, from, q')
    ensures q == q'
  {
    hide Earlier;
    EventsExactly(ms, from, q.message, q.part);
    EventsExactly(ms, from, q'.message, q'.part);
    if q != q' {
      if NotBefore(q, q') {
        EarlierGrows(ms, from, q.message, q.part + 1, q'.message, q'.part);
      } else {
        EarlierGrows(ms, from, q'.message, q'.part + 1, q.message, q.part);
      }
    }
  }

  /** The launch at x and the notification that its own result makes. */
  lemma ResultPairs(ms: seq<Message>, from: nat, x: nat, q: Place)
    requires from <= |ms|
    requires var events := Events(ms, from, |ms|);
      && x < |events| && events[x].Launch?
      && AnswersAt(ms, from, q, events[x].child) && NotBefore(Place(events[x].message, events[x].part), q)
    ensures LaunchesAt(ms, from, Place(Events(ms, from, |ms|)[x].message, Events(ms, from, |ms|)[x].part))
    ensures NotePosition(ms, from, q) >= 0 && Pair(Events(ms, from, |ms|), x, NotePosition(ms, from, q))
  {
    hide Events, Earlier, Name;
    var events := Events(ms, from, |ms|);
    var (c, m, j) := (events[x].child, events[x].message, events[x].part);
    assert events[x] == Launch(c, m, j) && events[x] in events;
    LaunchesExactly(ms, from, c, m, j);
    EventsExactly(ms, from, m, j);
    EventsExactly(ms, from, q.message, q.part);
    LaunchOnce(ms, from, x, Earlier(ms, from, m, j));
    if Place(m, j) != q {
      EarlierGrows(ms, from, m, j + 1, q.message, q.part);
    }
  }

  lemma LaunchOnce(ms: seq<Message>, from: nat, x: nat, y: nat)
    requires from <= |ms|
    requires var events := Events(ms, from, |ms|);
      x < |events| && y < |events| && events[x].Launch? && events[x] == events[y]
    ensures x == y
  {
    hide Events;
    EventsShape(ms, from, |ms|);
  }

  function PlaceOf(e: Event): Place
    requires e.Launch?
  {
    Place(e.message, e.part)
  }

  lemma OwnPair(ms: seq<Message>, from: nat, own: map<Place, Place>, x: nat)
    requires from <= |ms| && OwnResults(ms, from, own)
    requires x < |Events(ms, from, |ms|)| && Events(ms, from, |ms|)[x].Launch?
    ensures var (events, e) := (Events(ms, from, |ms|), Events(ms, from, |ms|)[x]);
      && PlaceOf(e) in own && AnswersAt(ms, from, own[PlaceOf(e)], e.child)
      && NotePosition(ms, from, own[PlaceOf(e)]) >= 0
      && Pair(events, x, NotePosition(ms, from, own[PlaceOf(e)]))
  {
    hide Events, Earlier, NotePosition;
    var events := Events(ms, from, |ms|);
    var (c, m, j) := (events[x].child, events[x].message, events[x].part);
    assert events[x] == Launch(c, m, j) && events[x] in events;
    LaunchesExactly(ms, from, c, m, j);
    assert LaunchesAt(ms, from, Place(m, j)) && OwnResult(ms, from, Place(m, j), own[Place(m, j)]);
    ResultPairs(ms, from, x, own[Place(m, j)]);
  }

  /** Which event the own result of the launch at x is. */
  ghost function NoteFor(ms: seq<Message>, from: nat, own: map<Place, Place>, x: nat): nat
    requires from <= |ms|
  {
    var events := Events(ms, from, |ms|);
    if x < |events| && events[x].Launch? && PlaceOf(events[x]) in own && Within(ms, from, own[PlaceOf(events[x])])
    then Max(0, NotePosition(ms, from, own[PlaceOf(events[x])]))
    else 0
  }

  lemma NotesForDiffer(ms: seq<Message>, from: nat, own: map<Place, Place>, x: nat, y: nat)
    requires from <= |ms| && OwnResults(ms, from, own) && x < y < |Events(ms, from, |ms|)|
    requires Events(ms, from, |ms|)[x].Launch? && Events(ms, from, |ms|)[y].Launch?
    ensures NoteFor(ms, from, own, x) != NoteFor(ms, from, own, y)
  {
    hide Events, Earlier, NotePosition, Pair, OwnResults;
    var (d, e) := (Events(ms, from, |ms|)[x], Events(ms, from, |ms|)[y]);
    OwnPair(ms, from, own, x);
    OwnPair(ms, from, own, y);
    if NoteFor(ms, from, own, x) == NoteFor(ms, from, own, y) {
      NotePositionsDiffer(ms, from, d.child, own[PlaceOf(d)], e.child, own[PlaceOf(e)]);
      OwnInjective(ms, from, own, PlaceOf(d), PlaceOf(e));
      SamePlace(ms, from, x, y);
    }
  }

  lemma OwnInjective(ms: seq<Message>, from: nat, own: map<Place, Place>, p: Place, q: Place)
    requires OwnResults(ms, from, own) && p in own && q in own && own[p] == own[q]
    ensures p == q
  {
  }

  /** The own results of the launches pair up their events. */
  lemma ResultsPair(ms: seq<Message>, from: nat, own: map<Place, Place>) returns (f: nat -> nat)
    requires from <= |ms| && OwnResults(ms, from, own)
    ensures Pairs(Events(ms, from, |ms|), f)
  {
    hide Events, NoteFor, Pair, OwnResults;
    var events := Events(ms, from, |ms|);
    f := x => NoteFor(ms, from, own, x);
    forall x: nat | x < |events| && events[x].Launch?
      ensures Pair(events, x, f(x))
    {
      NoteForIs(ms, from, own, x);
    }
    forall x: nat, y: nat | x < y < |events| && events[x].Launch? && events[y].Launch?
      ensures f(x) != f(y)
    {
      NotesForDiffer(ms, from, own, x, y);
    }
  }

  lemma NoteForIs(ms: seq<Message>, from: nat, own: map<Place, Place>, x: nat)
    requires from <= |ms| && OwnResults(ms, from, own)
    requires x < |Events(ms, from, |ms|)| && Events(ms, from, |ms|)[x].Launch?
    ensures Pair(Events(ms, from, |ms|), x, NoteFor(ms, from, own, x))
  {
    hide Events, Earlier, NotePosition, Pair, OwnResults;
    OwnPair(ms, from, own, x);
  }

  lemma SamePlace(ms: seq<Message>, from: nat, x: nat, y: nat)
    requires from <= |ms|
    requires var events := Events(ms, from, |ms|);
      && x < |events| && y < |events| && events[x].Launch? && events[y].Launch?
      && events[x].message == events[y].message && events[x].part == events[y].part
    ensures x == y
  {
    hide Events;
    EventsShape(ms, from, |ms|);
  }

  lemma {:induction false} EventsOfPrefix(ms: seq<Message>, from: nat, end: nat, n: nat)
    requires from <= end <= n <= |ms|
    ensures Events(ms[..n], from, end) == Events(ms, from, end)
    decreases end
  {
    if from < end {
      EventsOfPrefix(ms, from, end - 1, n);
    }
  }

  lemma {:induction false} BalancePrefix(pre: seq<Event>, all: seq<Event>, c: Child, a: nat, b: nat)
    requires pre <= all && a <= b <= |pre|
    ensures Balance(pre, c, a, b) == Balance(all, c, a, b)
  {
    if a < b {
      BalancePrefix(pre, all, c, a, b - 1);
    }
  }

  lemma MatchPrefix(pre: seq<Event>, all: seq<Event>, x: nat, y: nat)
    requires pre <= all && MatchedBy(pre, x, y)
    ensures MatchedBy(all, x, y) && all[x] == pre[x] && all[y] == pre[y]
  {
    forall z | x < z <= y
      ensures Covered(all, x, z)
    {
      assert Covered(pre, x, z);
      BalancePrefix(pre, all, pre[x].child, x + 1, z);
    }
    BalancePrefix(pre, all, pre[x].child, x + 1, y + 1);
  }

  /** Main result: when every launch has its own later task result and a completed or failed
      assistant message follows them all, every generation has settled. */
  lemma EverythingSettles(ms: seq<Message>, from: nat, own: map<Place, Place>, last: nat)
    requires from <= last < |ms| && ms[last].info == Info(Assistant, Ended)
    requires OwnResults(ms[..last], from, own)
    requires forall p | LaunchesAt(ms, from, p) :: p.message < last
    ensures var l := LedgerOf(ms, from); l.notified == l.launched && l.settled == l.launched
  {
    hide Open, Balance, Token;
    var (before, all) := (Events(ms, from, last), Events(ms, from, |ms|));
    EventsOfPrefix(ms, from, last, last);
    EventsPrefix(ms, from, last, |ms|);
    EventsShape(ms, from, last);
    var f := ResultsPair(ms[..last], from, own);
    forall x: nat | x < |all| && all[x].Launch?
      ensures Name(all[x]) in NotifiedSet(all) && Name(all[x]) in SettledSet(all, ms)
    {
      var (c, m, j) := (all[x].child, all[x].message, all[x].part);
      LaunchIsBefore(ms, from, last, x);
      var y := AllNotified(before, f, x);
      MatchPrefix(before, all, x, y);
      assert before[y] in before && AnsweredAfter(ms, all[y].message);
    }
    MatchedAreLaunched(all, ms);
  }

  lemma LaunchIsBefore(ms: seq<Message>, from: nat, last: nat, x: nat)
    requires from <= last <= |ms| && x < |Events(ms, from, |ms|)| && Events(ms, from, |ms|)[x].Launch?
    requires forall p | LaunchesAt(ms, from, p) :: p.message < last
    ensures x < |Events(ms, from, last)| && Events(ms, from, last)[x] == Events(ms, from, |ms|)[x]
  {
    hide Events;
    var (before, all) := (Events(ms, from, last), Events(ms, from, |ms|));
    var (c, m, j) := (all[x].child, all[x].message, all[x].part);
    assert all[x] == Launch(c, m, j) && all[x] in all;
    LaunchesExactly(ms, from, c, m, j);
    assert LaunchesAt(ms, from, Place(m, j));
    EventsSplit(ms, from, last, |ms|);
    EventsShape(ms, last, |ms|);
    LateInRest(before, Events(ms, last, |ms|), last, |ms|, x);
  }

  lemma LateInRest(a: seq<Event>, b: seq<Event>, last: nat, end: nat, x: nat)
    requires Between(b, last, end) && x < |a + b| && (a + b)[x].message < last
    ensures x < |a| && (a + b)[x] == a[x]
  {
    assert forall e | e in b :: e.message >= last;
  }

  lemma MatchedAreLaunched(events: seq<Event>, ms: seq<Message>)
    ensures SettledSet(events, ms) <= NotifiedSet(events) <= LaunchedSet(events)
  {
    hide Open, Balance, Token;
  }

  // --- Main results ---------------------------------------------------------------

  /** Two launches never share a notification. */
  lemma NotificationsDistinct(events: seq<Event>, x: nat, x': nat, y: nat)
    requires MatchedBy(events, x, y) && MatchedBy(events, x', y)
    ensures x == x'
  {
    NoteTakesTop(events, x, y);
    NoteTakesTop(events, x', y);
  }

  lemma {:induction false} EventsSplit(ms: seq<Message>, from: nat, mid: nat, end: nat)
    requires from <= mid <= end <= |ms|
    ensures Events(ms, from, end) == Events(ms, from, mid) + Events(ms, mid, end)
    decreases end
  {
    if mid < end {
      EventsSplit(ms, from, mid, end - 1);
    }
  }

  lemma {:induction false} BalanceShift(before: seq<Event>, events: seq<Event>, child: Child, a: nat, b: nat)
    requires a <= b <= |events|
    ensures Balance(before + events, child, |before| + a, |before| + b) == Balance(events, child, a, b)
  {
    if a < b {
      BalanceShift(before, events, child, a, b - 1);
    }
  }

  /** What a notification answers does not depend on anything before the launch. */
  lemma MatchShift(before: seq<Event>, events: seq<Event>, x: nat, y: nat)
    requires x < |events|
    ensures MatchedBy(before + events, |before| + x, |before| + y) <==> MatchedBy(events, x, y)
  {
    var all, k := before + events, |before|;
    if x < y < |events| && events[x].Launch? {
      var kx := k + x;
      forall z: nat | x < z <= |events|
        ensures Covered(all, kx, k + z) <==> Covered(events, x, z)
      {
        BalanceShift(before, events, events[x].child, x + 1, z);
      }
      BalanceShift(before, events, events[x].child, x + 1, y + 1);
      if Open(events, x, y) {
        forall z | kx < z <= k + y
          ensures Covered(all, kx, z)
        {
          assert Covered(events, x, z - k);
        }
      }
      if Open(all, kx, k + y) {
        forall z | x < z <= y
          ensures Covered(events, x, z)
        {
          assert Covered(all, kx, k + z);
        }
      }
    }
  }

  /** The message that launched a named generation. */
  function LaunchMessage(name: string): int {
    if Decode(name).Some? then Decode(name).value.message else -1
  }

  /** The names launched at or after the baseline. */
  ghost function Since(names: set<string>, after: nat): set<string> {
    set t | t in names && LaunchMessage(t) >= after
  }

  ghost predicate NamesDecode(es: seq<Event>) {
    forall e | e in es && e.Launch? :: LaunchMessage(Name(e)) == e.message
  }

  lemma NamesDecodeConcat(a: seq<Event>, b: seq<Event>)
    requires NamesDecode(a) && NamesDecode(b)
    ensures NamesDecode(a + b)
  {
  }

  lemma NamesDecodeNone()
    ensures NamesDecode([])
  {
  }

  lemma {:induction false} WellFormedChildren(ms: seq<Message>, from: nat, end: nat)
    requires from <= end <= |ms| && WellFormedFrom(ms, from)
    ensures NamesDecode(Events(ms, from, end))
    decreases end
  {
    hide NamesDecode, MessageEvents, WellFormed;
    if from == end {
      NamesDecodeNone();
    } else {
      var m := ms[end - 1];
      WellFormedChildren(ms, from, end - 1);
      WellFormedParts(m, end - 1, |m.parts|);
      NamesDecodeConcat(Events(ms, from, end - 1), MessageEvents(m, end - 1, |m.parts|));
    }
  }

  lemma PartDecodes(role: Role, part: Part, message: nat, index: nat)
    requires WellFormedPart(role, part)
    ensures NamesDecode(PartEvents(part, message, index))
  {
    hide Decode, Token;
    if part.task.Background? {
      DecodeToken(part.task.child, message, index);
    }
  }

  lemma {:induction false} WellFormedParts(m: Message, message: nat, count: nat)
    requires count <= |m.parts| && WellFormed(m)
    ensures NamesDecode(MessageEvents(m, message, count))
  {
    hide NamesDecode, WellFormedPart, PartEvents;
    if count == 0 {
      NamesDecodeNone();
    } else {
      var part := m.parts[count - 1];
      WellFormedParts(m, message, count - 1);
      assert WellFormedPart(m.info.role, part);
      PartDecodes(m.info.role, part, message, count - 1);
      NamesDecodeConcat(MessageEvents(m, message, count - 1), PartEvents(part, message, count - 1));
    }
  }

  /** Main result: for every well-formed history and every baseline, reading only the
      suffix gives exactly the full ledger restricted to the generations launched since. */
  lemma BaselineIndependence(ms: seq<Message>, after: nat)
    requires after <= |ms| && WellFormedFrom(ms, 0)
    ensures var full := LedgerOf(ms, 0);
      LedgerOf(ms, after) ==
      Ledger(Since(full.launched, after), Since(full.notified, after), Since(full.settled, after))
  {
    var before, events, all := Events(ms, 0, after), Events(ms, after, |ms|), Events(ms, 0, |ms|);
    EventsSplit(ms, 0, after, |ms|);
    EventsShape(ms, 0, after);
    EventsShape(ms, after, |ms|);
    WellFormedChildren(ms, 0, |ms|);
    forall x: nat | x < |all|
      ensures all[x].Launch? ==> LaunchMessage(Name(all[x])) == all[x].message
      ensures all[x].message >= after <==> x >= |before|
    {
      assert all[x] in all && (if x < |before| then all[x] in before else all[x] in events);
    }
    var recent := (t: string) => LaunchMessage(t) >= after;
    assert SplitsAt(before, events, recent);
    SuffixLaunched(before, events, recent);
    SuffixNotified(before, events, recent);
    SuffixSettled(ms, before, events, recent);
  }

  /** Exactly the launches of the suffix are recent. */
  ghost predicate SplitsAt(before: seq<Event>, events: seq<Event>, recent: string -> bool) {
    forall x: nat | x < |before + events| && (before + events)[x].Launch? ::
      recent(Name((before + events)[x])) <==> x >= |before|
  }

  lemma SuffixLaunched(before: seq<Event>, events: seq<Event>, recent: string -> bool)
    requires SplitsAt(before, events, recent)
    ensures LaunchedSet(events) == set t | t in LaunchedSet(before + events) && recent(t)
  {
    var all := before + events;
    forall t | t in LaunchedSet(events)
      ensures t in LaunchedSet(all) && recent(t)
    {
      var x :| 0 <= x < |events| && events[x].Launch? && Name(events[x]) == t;
      assert all[|before| + x] == events[x];
    }
    forall t | t in LaunchedSet(all) && recent(t)
      ensures t in LaunchedSet(events)
    {
      var x :| 0 <= x < |all| && all[x].Launch? && Name(all[x]) == t;
      assert events[x - |before|] == all[x];
    }
  }

  lemma SuffixNotified(before: seq<Event>, events: seq<Event>, recent: string -> bool)
    requires SplitsAt(before, events, recent)
    ensures NotifiedSet(events) == set t | t in NotifiedSet(before + events) && recent(t)
  {
    hide Open, Balance, Token;
    var all := before + events;
    forall t | t in NotifiedSet(events)
      ensures t in NotifiedSet(all) && recent(t)
    {
      var x, y :| 0 <= x < |events| && 0 <= y < |events| && MatchedBy(events, x, y) && Name(events[x]) == t;
      MatchShift(before, events, x, y);
      assert all[|before| + x] == events[x];
    }
    forall t | t in NotifiedSet(all) && recent(t)
      ensures t in NotifiedSet(events)
    {
      var x, y :| 0 <= x < |all| && 0 <= y < |all| && MatchedBy(all, x, y) && Name(all[x]) == t;
      MatchShift(before, events, x - |before|, y - |before|);
    }
  }

  lemma SuffixSettled(ms: seq<Message>, before: seq<Event>, events: seq<Event>, recent: string -> bool)
    requires SplitsAt(before, events, recent)
    ensures SettledSet(events, ms) == set t | t in SettledSet(before + events, ms) && recent(t)
  {
    hide Open, Balance, Token;
    var all := before + events;
    forall t | t in SettledSet(events, ms)
      ensures t in SettledSet(all, ms) && recent(t)
    {
      var x, y :| 0 <= x < |events| && 0 <= y < |events| && MatchedBy(events, x, y) &&
                  AnsweredAfter(ms, events[y].message) && Name(events[x]) == t;
      MatchShift(before, events, x, y);
      assert all[|before| + x] == events[x] && all[|before| + y] == events[y];
    }
    forall t | t in SettledSet(all, ms) && recent(t)
      ensures t in SettledSet(events, ms)
    {
      var x, y :| 0 <= x < |all| && 0 <= y < |all| && MatchedBy(all, x, y) &&
                  AnsweredAfter(ms, all[y].message) && Name(all[x]) == t;
      MatchShift(before, events, x - |before|, y - |before|);
    }
  }
}
