/**
 Who owns the artifacts of the empirical stage: what the registered receipts declare,
 and the check that every file named like an analysis is accounted for.
 */
module Ownership {
  import opened Basics
  import opened Names
  import M = Manifest

  /** The parts of a path relative to the project. */
  type Path = seq<string>

  const STAGE: Path := ["output", "stage3a"]

  function InStage(name: string): Path {
    STAGE + [name]
  }

  /** A recorded file, and whether its current bytes still match the record. */
  datatype Recorded = Recorded(path: Path, intact: bool)

  datatype Receipt = Receipt(
    path: Path, retired: bool, artifacts: seq<Recorded>, plan: Recorded, bundle: Recorded,
    executionSummaries: seq<Path>, referenced: set<Path>, supersedesAgree: bool)

  // --- One receipt ----------------------------------------------------------------------

  datatype ArtifactKind = AnalysisFile(analysis: Analysis) | ExecutionFile | Reserved | Ordinary

  function KindOf(path: Path): ArtifactKind {
    if |path| < 3 || path[..2] != STAGE || !(STEM <= path[2]) then Ordinary
    else if |path| == 3 && AnalysisOf(path[2]).Some? then AnalysisFile(AnalysisOf(path[2]).value)
    else if |path| == 3 && SiblingOf(path[2]).Some? && SiblingOf(path[2]).value.role.ExecutionRole? then ExecutionFile
    else if |path| >= 4 && SharedStem(path[2]) then Ordinary
    else Reserved
  }

  /** The names under the stage directory that belong to one analysis. */
  ghost predicate OfAnalysis(name: string) {
    exists a, role :: NamedFor(name, a, role)
  }

  predicate NamedFor(name: string, a: Analysis, role: Role) {
    ValidAnalysis(a) && (name == AnalysisName(a) || name == SiblingName(Sibling(a, role)))
  }

  lemma StagePath(path: Path)
    ensures |path| >= 3 && path[..2] == STAGE ==> (|path| == 3 <==> path == InStage(path[2]))
    ensures forall name :: path == InStage(name) ==> |path| == 3 && path[..2] == STAGE && path[2] == name
  {
  }

  /** A shared stem is one that no analysis or sibling has. */
  lemma SharedExactly(name: string)
    ensures SharedStem(name) <==> STEM <= name && !OfAnalysis(name)
    ensures AnalysisOf(name).Some? || SiblingOf(name).Some? <==> OfAnalysis(name)
  {
    hide ValidAnalysis, Middle;
    if AnalysisOf(name).Some? {
      NamesExactly(name, AnalysisOf(name).value, PlanRole);
      assert NamedFor(name, AnalysisOf(name).value, PlanRole);
    }
    if SiblingOf(name).Some? {
      var s := SiblingOf(name).value;
      NamesExactly(name, s.analysis, s.role);
      assert NamedFor(name, s.analysis, s.role);
    }
    if OfAnalysis(name) {
      var a, role :| NamedFor(name, a, role);
      NamesExactly(name, a, role);
    }
  }

  lemma ExecutionExactly(name: string)
    ensures SiblingOf(name).Some? && SiblingOf(name).value.role.ExecutionRole? <==>
      exists b :: ValidAnalysis(b) && name == SiblingName(Sibling(b, ExecutionRole))
    ensures SiblingOf(name).Some? && SiblingOf(name).value.role.ExecutionRole? ==> AnalysisOf(name).None?
  {
    hide ValidAnalysis, Middle;
    if SiblingOf(name).Some? {
      var s := SiblingOf(name).value;
      NamesExactly(name, s.analysis, s.role);
      NeverBoth(name);
    }
    forall b | ValidAnalysis(b) && name == SiblingName(Sibling(b, ExecutionRole))
      ensures SiblingOf(name) == Some(Sibling(b, ExecutionRole))
    {
      NamesExactly(name, b, ExecutionRole);
    }
  }

  /** What a receipt may list under the reserved stem: an analysis itself, its execution
      summary, or what lies in a directory that only shares the stem. */
  lemma KindMeans(path: Path, a: Analysis)
    ensures KindOf(path) == AnalysisFile(a) <==> ValidAnalysis(a) && path == InStage(AnalysisName(a))
    ensures KindOf(path).ExecutionFile? <==>
      exists b :: ValidAnalysis(b) && path == InStage(SiblingName(Sibling(b, ExecutionRole)))
    ensures KindOf(path).Reserved? <==>
      && |path| >= 3 && path[..2] == STAGE && STEM <= path[2]
      && !KindOf(path).AnalysisFile? && !KindOf(path).ExecutionFile?
      && (|path| == 3 || OfAnalysis(path[2]))
  {
    hide ValidAnalysis, Middle, OfAnalysis, AnalysisOf, SiblingOf, SharedStem, InStage;
    StagePath(path);
    StemsBegin(a);
    if |path| >= 3 {
      NamesExactly(path[2], a, ExecutionRole);
      ExecutionExactly(path[2]);
      SharedExactly(path[2]);
    }
    forall b | ValidAnalysis(b) && path == InStage(SiblingName(Sibling(b, ExecutionRole)))
      ensures KindOf(path).ExecutionFile?
    {
      StemsBegin(b);
    }
  }

  lemma StemsBegin(a: Analysis)
    ensures STEM <= AnalysisName(a) && forall role :: STEM <= SiblingName(Sibling(a, role))
  {
    forall role
      ensures STEM <= SiblingName(Sibling(a, role))
    {
      assert SiblingName(Sibling(a, role))[..|STEM|] == STEM;
    }
    assert AnalysisName(a)[..|STEM|] == STEM;
  }

  function Kinds(artifacts: seq<Recorded>): seq<ArtifactKind> {
    seq(|artifacts|, i requires 0 <= i < |artifacts| => KindOf(artifacts[i].path))
  }

  /** Nothing reserved, and no analysis but the one at `at`, among the first n. */
  predicate OnlyAnalysis(kinds: seq<ArtifactKind>, n: nat, at: Option<nat>)
    requires n <= |kinds|
  {
    && (forall k | 0 <= k < n :: !kinds[k].Reserved?)
    && (at.Some? ==> at.value < n)
    && (forall k | 0 <= k < n :: kinds[k].AnalysisFile? <==> at == Some(k))
  }

  function Count(paths: seq<Path>, path: Path): nat {
    multiset(paths)[path]
  }

  /** The execution summaries of an owned analysis are its own, declared once, and intact. */
  predicate ExecutionOk(r: Receipt, a: Analysis, x: Recorded) {
    KindOf(x.path).ExecutionFile? ==>
      && x.path == InStage(SiblingName(Sibling(a, ExecutionRole)))
      && Count(r.executionSummaries, x.path) == 1 && x.intact
  }

  /** What a receipt must be for the lifecycle to accept it; `at` is its analysis, if any. */
  predicate ReceiptAt(r: Receipt, at: Option<nat>) {
    && r.supersedesAgree && OnlyAnalysis(Kinds(r.artifacts), |r.artifacts|, at)
    && (at.Some? ==>
          && r.artifacts[at.value].intact && r.plan.intact && r.bundle.intact
          && forall i | 0 <= i < |r.artifacts| :: ExecutionOk(r, Kinds(r.artifacts)[at.value].analysis, r.artifacts[i]))
  }

  function AnalysisAt(r: Receipt, at: Option<nat>): Option<Analysis>
    requires ReceiptAt(r, at)
  {
    if at.None? then None else Some(Kinds(r.artifacts)[at.value].analysis)
  }

  ghost predicate ReceiptOk(r: Receipt, owned: Option<Analysis>) {
    exists at :: ReceiptAt(r, at) && owned == AnalysisAt(r, at)
  }

  /** The artifact loop: nothing in the reserved namespace, and at most one analysis. */
  method FindAnalysis(kinds: seq<ArtifactKind>) returns (ok: bool, at: Option<nat>)
    ensures ok ==> OnlyAnalysis(kinds, |kinds|, at)
    ensures !ok ==> forall at :: !OnlyAnalysis(kinds, |kinds|, at)
  {
    at := None;
    var i := 0;
    while i < |kinds|
      invariant 0 <= i <= |kinds| && OnlyAnalysis(kinds, i, at)
    {
      if kinds[i].Reserved? || (kinds[i].AnalysisFile? && at.Some?) {
        return false, None;
      }
      if kinds[i].AnalysisFile? {
        at := Some(i);
      }
      i := i + 1;
    }
    ok := true;
  }

  /** One receipt, as far as it can be judged alone. */
  method ReadReceipt(r: Receipt) returns (ok: bool, owned: Option<Analysis>)
    ensures ok ==> ReceiptOk(r, owned)
    ensures !ok ==> forall o :: !ReceiptOk(r, o)
  {
    var single, at := FindAnalysis(Kinds(r.artifacts));
    ok := single && ReceiptAt(r, at);
    owned := if ok then AnalysisAt(r, at) else None;
    if single {
      forall at' | ReceiptAt(r, at')
        ensures at' == at
      {
        OneAnalysis(Kinds(r.artifacts), at, at');
      }
    }
  }

  lemma OneAnalysis(kinds: seq<ArtifactKind>, x: Option<nat>, y: Option<nat>)
    requires OnlyAnalysis(kinds, |kinds|, x) && OnlyAnalysis(kinds, |kinds|, y)
    ensures x == y
  {
  }

  /** These paths name this analysis, or its execution summary. */
  predicate NamesIt(path: Path, a: Analysis) {
    ValidAnalysis(a) && path == InStage(AnalysisName(a))
  }

  predicate NamesRun(path: Path, a: Analysis) {
    ValidAnalysis(a) && path == InStage(SiblingName(Sibling(a, ExecutionRole)))
  }

  /** Record i is the intact analysis file, and no other record is one. */
  ghost predicate OwnsAt(r: Receipt, a: Analysis, i: nat) {
    && i < |r.artifacts| && NamesIt(r.artifacts[i].path, a) && r.artifacts[i].intact
    && forall j, b | 0 <= j < |r.artifacts| && NamesIt(r.artifacts[j].path, b) :: j == i
  }

  ghost predicate ExecutionsOwned(r: Receipt, a: Analysis) {
    forall x, b | x in r.artifacts && NamesRun(x.path, b) ::
      b == a && x.intact && Count(r.executionSummaries, x.path) == 1
  }

  /** What the files of a receipt must be. */
  ghost predicate Proper(r: Receipt, owned: Option<Analysis>) {
    && r.supersedesAgree && (forall x | x in r.artifacts :: !KindOf(x.path).Reserved?)
    && match owned
       case None => forall x, a | x in r.artifacts :: !NamesIt(x.path, a)
       case Some(a) =>
         (exists i: nat :: OwnsAt(r, a, i)) && r.plan.intact && r.bundle.intact && ExecutionsOwned(r, a)
  }

  lemma KindsMean(path: Path)
    ensures forall a :: KindOf(path) == AnalysisFile(a) <==> NamesIt(path, a)
    ensures KindOf(path).ExecutionFile? <==> exists b :: NamesRun(path, b)
  {
    hide KindOf, ValidAnalysis, InStage;
    forall a
      ensures KindOf(path) == AnalysisFile(a) <==> NamesIt(path, a)
    {
      KindMeans(path, a);
    }
    KindMeans(path, "");
    assert forall b :: NamesRun(path, b) <==>
      ValidAnalysis(b) && path == InStage(SiblingName(Sibling(b, ExecutionRole)));
  }

  lemma ExecutionOf(path: Path, a: Analysis, b: Analysis)
    requires NamesRun(path, b)
    ensures path == InStage(SiblingName(Sibling(a, ExecutionRole))) <==> a == b
  {
    hide ValidAnalysis;
    StagePath(path);
    if path == InStage(SiblingName(Sibling(a, ExecutionRole))) {
      SameMiddle(STEM, a, b, Ending(ExecutionRole));
    }
  }

  lemma SameMiddle(stem: string, a: string, b: string, ending: string)
    requires stem + a + ending == stem + b + ending
    ensures a == b
  {
    MiddleOf(stem, a, ending);
    MiddleOf(stem, b, ending);
  }

  lemma ExecutionsExactly(r: Receipt, a: Analysis)
    ensures ExecutionsOwned(r, a) <==> forall i | 0 <= i < |r.artifacts| :: ExecutionOk(r, a, r.artifacts[i])
  {
    hide KindOf, NamesRun, InStage, Count;
    forall x: Recorded
      ensures ExecutionOk(r, a, x) <==>
        forall b | NamesRun(x.path, b) :: b == a && x.intact && Count(r.executionSummaries, x.path) == 1
    {
      KindsMean(x.path);
      forall b | NamesRun(x.path, b)
        ensures x.path == InStage(SiblingName(Sibling(a, ExecutionRole))) <==> a == b
      {
        ExecutionOf(x.path, a, b);
      }
    }
    assert forall i | 0 <= i < |r.artifacts| :: r.artifacts[i] in r.artifacts;
  }

  lemma OnlyExactly(r: Receipt, at: Option<nat>)
    ensures OnlyAnalysis(Kinds(r.artifacts), |r.artifacts|, at) <==>
      && (forall x | x in r.artifacts :: !KindOf(x.path).Reserved?)
      && (at.Some? ==> at.value < |r.artifacts|)
      && forall k | 0 <= k < |r.artifacts| :: (exists a :: NamesIt(r.artifacts[k].path, a)) <==> at == Some(k)
  {
    hide KindOf, NamesIt;
    forall k | 0 <= k < |r.artifacts|
      ensures Kinds(r.artifacts)[k].AnalysisFile? <==> exists a :: NamesIt(r.artifacts[k].path, a)
    {
      KindsMean(r.artifacts[k].path);
      assert Kinds(r.artifacts)[k].AnalysisFile? ==>
        KindOf(r.artifacts[k].path) == AnalysisFile(Kinds(r.artifacts)[k].analysis);
    }
    assert forall k | 0 <= k < |r.artifacts| :: r.artifacts[k] in r.artifacts;
  }

  /** What the lifecycle accepts in one receipt: nothing under a reserved name, and either no
      analysis, or one and no other, with its plan, its results and its own execution summaries
      intact and each summary declared once. */
  lemma ReceiptExactly(r: Receipt, owned: Option<Analysis>)
    ensures ReceiptOk(r, owned) <==> Proper(r, owned)
  {
    hide KindOf, NamesIt, OnlyAnalysis, ExecutionOk, ExecutionsOwned;
    if ReceiptOk(r, owned) {
      var at :| ReceiptAt(r, at) && owned == AnalysisAt(r, at);
      ReceiptIsProper(r, at);
    }
    if Proper(r, owned) {
      ProperIsReceipt(r, owned);
    }
  }

  lemma ReceiptIsProper(r: Receipt, at: Option<nat>)
    requires ReceiptAt(r, at)
    ensures Proper(r, AnalysisAt(r, at))
  {
    hide KindOf, NamesIt, OnlyAnalysis, ExecutionOk, ExecutionsOwned;
    OnlyExactly(r, at);
    if at.None? {
      forall x, a | x in r.artifacts
        ensures !NamesIt(x.path, a)
      {
        var k :| 0 <= k < |r.artifacts| && r.artifacts[k] == x;
      }
    } else {
      var a := AnalysisAt(r, at).value;
      assert Kinds(r.artifacts)[at.value].AnalysisFile? by {
        KindsMean(r.artifacts[at.value].path);
      }
      KindsMean(r.artifacts[at.value].path);
      ExecutionsExactly(r, a);
      assert OwnsAt(r, a, at.value);
    }
  }

  lemma ProperIsReceipt(r: Receipt, owned: Option<Analysis>)
    requires Proper(r, owned)
    ensures ReceiptOk(r, owned)
  {
    hide KindOf, NamesIt, OnlyAnalysis, ExecutionOk, ExecutionsOwned;
    if owned.None? {
      forall k | 0 <= k < |r.artifacts|
        ensures !exists a :: NamesIt(r.artifacts[k].path, a)
      {
        assert r.artifacts[k] in r.artifacts;
      }
      OnlyExactly(r, None);
      assert ReceiptAt(r, None);
    } else {
      var i: nat :| OwnsAt(r, owned.value, i);
      OnlyExactly(r, Some(i));
      KindsMean(r.artifacts[i].path);
      ExecutionsExactly(r, owned.value);
      assert ReceiptAt(r, Some(i)) && AnalysisAt(r, Some(i)) == owned;
    }
  }

  // --- All receipts ------------------------------------------------------------------------

  datatype Owner = Owner(analysis: Analysis, role: Role)

  function Executions(artifacts: seq<Recorded>): seq<(Path, Role)> {
    if artifacts == [] then []
    else Executions(artifacts[..|artifacts| - 1]) +
         if KindOf(artifacts[|artifacts| - 1].path).ExecutionFile?
         then [(artifacts[|artifacts| - 1].path, ExecutionRole)] else []
  }

  /** The result files of a receipt that owns an analysis, each in its role. */
  function Results(r: Receipt): seq<(Path, Role)> {
    [(r.path, ReceiptRole), (r.plan.path, PlanRole), (r.bundle.path, BundleRole)] + Executions(r.artifacts)
  }

  predicate Holds(m: map<Path, Owner>, path: Path, o: Owner) {
    path in m && m[path] == o
  }

  predicate Either(m: map<Path, Owner>, results: seq<(Path, Role)>, a: Analysis, path: Path, o: Owner) {
    Holds(m, path, o) || (o.analysis == a && (path, o.role) in results)
  }

  ghost predicate Tracks(m: map<Path, Owner>, declared: map<Path, Owner>, results: seq<(Path, Role)>, a: Analysis) {
    forall path, o :: Holds(m, path, o) <==> Either(declared, results, a, path, o)
  }

  lemma TracksStep(m: map<Path, Owner>, declared: map<Path, Owner>, results: seq<(Path, Role)>, a: Analysis,
                   path: Path, role: Role)
    requires Tracks(m, declared, results, a) && (path !in m || m[path] == Owner(a, role))
    ensures Tracks(m[path := Owner(a, role)], declared, results + [(path, role)], a)
  {
    var m' := m[path := Owner(a, role)];
    forall p, o
      ensures Holds(m', p, o) <==> Either(declared, results + [(path, role)], a, p, o)
    {
      assert Holds(m', p, o) <==> Holds(m, p, o) || (p == path && o == Owner(a, role));
      assert (p, o.role) in results + [(path, role)] <==> (p, o.role) in results || (p == path && o.role == role);
    }
  }

  /** Adds the results of one receipt; two owners of one file are refused. */
  method Declare(declared: map<Path, Owner>, results: seq<(Path, Role)>, a: Analysis)
    returns (r: Option<map<Path, Owner>>)
    ensures r.Some? ==> Tracks(r.value, declared, results, a)
    ensures r.None? ==>
      exists path, o, o' :: o != o' && Either(declared, results, a, path, o) && Either(declared, results, a, path, o')
  {
    var m := declared;
    var i := 0;
    while i < |results|
      invariant 0 <= i <= |results| && Tracks(m, declared, results[..i], a)
    {
      var (path, role) := results[i];
      if path in m && m[path] != Owner(a, role) {
        assert Holds(m, path, m[path]) && Either(declared, results[..i], a, path, m[path]);
        assert (path, m[path].role) in results[..i] ==> (path, m[path].role) in results;
        assert Either(declared, results, a, path, m[path]);
        assert (path, role) in results && Either(declared, results, a, path, Owner(a, role));
        return None;
      }
      TracksStep(m, declared, results[..i], a, path, role);
      assert results[..i + 1] == results[..i] + [(path, role)];
      m := m[path := Owner(a, role)];
      i := i + 1;
    }
    assert results[..i] == results;
    return Some(m);
  }

  /** Receipt i, with its analysis, declares this file to this owner. */
  predicate DeclaredBy(receipts: seq<Receipt>, owned: seq<Option<Analysis>>, i: nat, path: Path, o: Owner) {
    i < |owned| <= |receipts| && owned[i] == Some(o.analysis) && (path, o.role) in Results(receipts[i])
  }

  ghost predicate Declared(receipts: seq<Receipt>, owned: seq<Option<Analysis>>, path: Path, o: Owner) {
    exists i: nat :: DeclaredBy(receipts, owned, i, path, o)
  }

  /** The file that plays this role in a receipt. */
  ghost predicate InRole(r: Receipt, path: Path, role: Role) {
    match role
    case ReceiptRole => path == r.path
    case PlanRole => path == r.plan.path
    case BundleRole => path == r.bundle.path
    case ExecutionRole => (exists x :: x in r.artifacts && x.path == path) && exists b :: NamesRun(path, b)
  }

  lemma {:induction false} ExecutionsAre(artifacts: seq<Recorded>, path: Path, role: Role)
    ensures (path, role) in Executions(artifacts) <==>
      role.ExecutionRole? && KindOf(path).ExecutionFile? && exists x :: x in artifacts && x.path == path
  {
    hide KindOf;
    if artifacts != [] {
      var front, last := artifacts[..|artifacts| - 1], artifacts[|artifacts| - 1];
      ExecutionsAre(front, path, role);
      assert artifacts == front + [last];
    }
  }

  /** What a receipt declares for its analysis: itself, its plan, its results and its execution
      summaries, each in its own role. */
  lemma DeclaredExactly(receipts: seq<Receipt>, owned: seq<Option<Analysis>>, path: Path, o: Owner)
    requires |owned| == |receipts|
    ensures Declared(receipts, owned, path, o) <==>
      exists i :: 0 <= i < |owned| && owned[i] == Some(o.analysis) && InRole(receipts[i], path, o.role)
  {
    hide Results, KindOf, NamesRun, InRole;
    forall i | 0 <= i < |receipts|
      ensures (path, o.role) in Results(receipts[i]) <==> InRole(receipts[i], path, o.role)
    {
      ResultsAre(receipts[i], path, o.role);
    }
    if Declared(receipts, owned, path, o) {
      var i: nat :| DeclaredBy(receipts, owned, i, path, o);
      assert InRole(receipts[i], path, o.role);
    }
    forall i: nat | i < |owned| && owned[i] == Some(o.analysis) && InRole(receipts[i], path, o.role)
      ensures Declared(receipts, owned, path, o)
    {
      assert DeclaredBy(receipts, owned, i, path, o);
    }
  }

  lemma ResultsAre(r: Receipt, path: Path, role: Role)
    ensures (path, role) in Results(r) <==> InRole(r, path, role)
  {
    hide KindOf, NamesRun;
    ExecutionsAre(r.artifacts, path, role);
    KindsMean(path);
  }

  ghost predicate AllOk(receipts: seq<Receipt>, owned: seq<Option<Analysis>>) {
    && |owned| <= |receipts|
    && (forall i | 0 <= i < |owned| :: ReceiptOk(receipts[i], owned[i]))
    && (forall i, j | 0 <= i < j < |owned| :: owned[i].Some? ==> owned[i] != owned[j])
  }

  /** Every receipt is sound, no analysis has two, and no file has two owners. */
  ghost predicate Consistent(receipts: seq<Receipt>, owned: seq<Option<Analysis>>) {
    && |owned| == |receipts| && AllOk(receipts, owned)
    && (forall path, o, o' | Declared(receipts, owned, path, o) && Declared(receipts, owned, path, o') :: o == o')
  }

  datatype Lifecycle = Lifecycle(retired: map<Analysis, bool>, declared: map<Path, Owner>, referenced: set<Path>)

  ghost predicate ReferencedBy(receipts: seq<Receipt>, n: nat, path: Path)
    requires n <= |receipts|
  {
    exists i :: 0 <= i < n && path in receipts[i].referenced
  }

  ghost predicate LifecycleOf(receipts: seq<Receipt>, owned: seq<Option<Analysis>>, l: Lifecycle) {
    && |owned| <= |receipts|
    && (forall a :: a in l.retired <==> Some(a) in owned)
    && (forall i | 0 <= i < |owned| && owned[i].Some? ::
          owned[i].value in l.retired && l.retired[owned[i].value] == receipts[i].retired)
    && (forall path, o :: Holds(l.declared, path, o) <==> Declared(receipts, owned, path, o))
    && (forall path :: path in l.referenced <==> ReferencedBy(receipts, |owned|, path))
  }

  lemma OwnerDetermined(r: Receipt, x: Option<Analysis>, y: Option<Analysis>)
    requires ReceiptOk(r, x) && ReceiptOk(r, y)
    ensures x == y
  {
    var i :| ReceiptAt(r, i) && x == AnalysisAt(r, i);
    var j :| ReceiptAt(r, j) && y == AnalysisAt(r, j);
    OneAnalysis(Kinds(r.artifacts), i, j);
  }

  lemma {:induction false} DeclaredStep(receipts: seq<Receipt>, owned: seq<Option<Analysis>>, next: Option<Analysis>,
                                        path: Path, o: Owner)
    requires |owned| < |receipts|
    ensures Declared(receipts, owned + [next], path, o) <==>
      Declared(receipts, owned, path, o) || (next == Some(o.analysis) && (path, o.role) in Results(receipts[|owned|]))
  {
    var more := owned + [next];
    if Declared(receipts, owned, path, o) {
      var i: nat :| DeclaredBy(receipts, owned, i, path, o);
      assert DeclaredBy(receipts, more, i, path, o);
    }
    if next == Some(o.analysis) && (path, o.role) in Results(receipts[|owned|]) {
      assert DeclaredBy(receipts, more, |owned|, path, o);
    }
    if Declared(receipts, more, path, o) {
      var i: nat :| DeclaredBy(receipts, more, i, path, o);
      assert i < |owned| ==> DeclaredBy(receipts, owned, i, path, o);
    }
  }

  /** One more receipt, with what the step finds for it. */
  ghost predicate Extends(l: Lifecycle, r: Receipt, owned: Option<Analysis>, l': Lifecycle) {
    && l'.referenced == l.referenced + r.referenced
    && match owned
       case None => l' == l.(referenced := l'.referenced)
       case Some(a) =>
         && a !in l.retired && l'.retired == l.retired[a := r.retired]
         && Tracks(l'.declared, l.declared, Results(r), a)
  }

  lemma DeclaredStays(receipts: seq<Receipt>, owned: seq<Option<Analysis>>, l: Lifecycle, next: Option<Analysis>,
                      l': Lifecycle)
    requires |owned| < |receipts| && Extends(l, receipts[|owned|], next, l')
    requires forall path, o :: Holds(l.declared, path, o) <==> Declared(receipts, owned, path, o)
    ensures forall path, o :: Holds(l'.declared, path, o) <==> Declared(receipts, owned + [next], path, o)
  {
    forall path, o
      ensures Holds(l'.declared, path, o) <==> Declared(receipts, owned + [next], path, o)
    {
      DeclaredStep(receipts, owned, next, path, o);
      assert next.Some? ==>
        (Holds(l'.declared, path, o) <==> Either(l.declared, Results(receipts[|owned|]), next.value, path, o));
    }
  }

  lemma ReferencedStays(receipts: seq<Receipt>, n: nat, path: Path)
    requires n < |receipts|
    ensures ReferencedBy(receipts, n + 1, path) <==> ReferencedBy(receipts, n, path) || path in receipts[n].referenced
  {
  }

  lemma LifecycleStep(receipts: seq<Receipt>, owned: seq<Option<Analysis>>, l: Lifecycle, next: Option<Analysis>,
                      l': Lifecycle)
    requires |owned| < |receipts| && LifecycleOf(receipts, owned, l)
    requires ReceiptOk(receipts[|owned|], next) && Extends(l, receipts[|owned|], next, l')
    ensures LifecycleOf(receipts, owned + [next], l')
  {
    hide Holds, Declared, ReceiptOk, Tracks, ReferencedBy;
    DeclaredStays(receipts, owned, l, next, l');
    forall path
      ensures path in l'.referenced <==> ReferencedBy(receipts, |owned + [next]|, path)
    {
      ReferencedStays(receipts, |owned|, path);
    }
    assert forall a :: Some(a) in owned + [next] <==> Some(a) in owned || next == Some(a);
  }

  /** Adds one receipt, or refuses it. */
  method AddReceipt(l: Lifecycle, r: Receipt) returns (next: Option<Lifecycle>, owned: Option<Analysis>, sound: bool)
    ensures sound ==> ReceiptOk(r, owned)
    ensures !sound ==> next.None? && forall o :: !ReceiptOk(r, o)
    ensures next.Some? ==> sound && Extends(l, r, owned, next.value)
    ensures sound && next.None? ==>
      owned.Some? && (owned.value in l.retired || Clash(l.declared, Results(r), owned.value))
  {
    sound, owned := ReadReceipt(r);
    if !sound {
      return None, owned, false;
    }
    var referenced := l.referenced + r.referenced;
    if owned.None? {
      return Some(l.(referenced := referenced)), owned, true;
    } else if owned.value in l.retired {
      return None, owned, true;
    }
    var declared := Declare(l.declared, Results(r), owned.value);
    next := if declared.None? then None
            else Some(Lifecycle(l.retired[owned.value := r.retired], declared.value, referenced));
  }

  /** A file would get two owners. */
  ghost predicate Clash(m: map<Path, Owner>, results: seq<(Path, Role)>, a: Analysis) {
    exists path, o, o' :: o != o' && Either(m, results, a, path, o) && Either(m, results, a, path, o')
  }

  lemma PrefixForced(receipts: seq<Receipt>, owned: seq<Option<Analysis>>, all: seq<Option<Analysis>>)
    requires AllOk(receipts, owned) && Consistent(receipts, all)
    ensures owned == all[..|owned|]
  {
    forall i | 0 <= i < |owned|
      ensures owned[i] == all[i]
    {
      OwnerDetermined(receipts[i], owned[i], all[i]);
    }
  }

  /** A receipt that cannot be added makes the whole registry inconsistent. */
  lemma ClashRefutes(receipts: seq<Receipt>, owned: seq<Option<Analysis>>, l: Lifecycle, next: Option<Analysis>,
                     all: seq<Option<Analysis>>)
    requires |owned| < |receipts| && AllOk(receipts, owned) && LifecycleOf(receipts, owned, l)
    requires ReceiptOk(receipts[|owned|], next) && next.Some?
    requires next.value in l.retired || Clash(l.declared, Results(receipts[|owned|]), next.value)
    ensures !Consistent(receipts, all)
  {
    if Consistent(receipts, all) {
      var n := |owned|;
      PrefixForced(receipts, owned, all);
      OwnerDetermined(receipts[n], next, all[n]);
      if next.value !in l.retired {
        var path, o, o' :| o != o' && Either(l.declared, Results(receipts[n]), next.value, path, o) &&
                           Either(l.declared, Results(receipts[n]), next.value, path, o');
        EitherDeclared(receipts, owned, l, next, all, path, o);
        EitherDeclared(receipts, owned, l, next, all, path, o');
      }
    }
  }

  lemma EitherDeclared(receipts: seq<Receipt>, owned: seq<Option<Analysis>>, l: Lifecycle, next: Option<Analysis>,
                       all: seq<Option<Analysis>>, path: Path, o: Owner)
    requires |owned| < |receipts| == |all| && owned == all[..|owned|] && all[|owned|] == next && next.Some?
    requires LifecycleOf(receipts, owned, l)
    requires Either(l.declared, Results(receipts[|owned|]), next.value, path, o)
    ensures Declared(receipts, all, path, o)
  {
    if Holds(l.declared, path, o) {
      var i: nat :| DeclaredBy(receipts, owned, i, path, o);
      assert DeclaredBy(receipts, all, i, path, o);
    } else {
      assert DeclaredBy(receipts, all, |owned|, path, o);
    }
  }

  lemma NeedsOk(receipts: seq<Receipt>, all: seq<Option<Analysis>>, i: nat)
    requires i < |receipts| && Consistent(receipts, all)
    ensures ReceiptOk(receipts[i], all[i])
  {
  }

  lemma ReceiptRefutes(receipts: seq<Receipt>, owned: seq<Option<Analysis>>, l: Lifecycle, next: Option<Analysis>,
                       sound: bool)
    requires |owned| < |receipts| && AllOk(receipts, owned) && LifecycleOf(receipts, owned, l)
    requires if sound then ReceiptOk(receipts[|owned|], next) && next.Some? &&
                          (next.value in l.retired || Clash(l.declared, Results(receipts[|owned|]), next.value))
             else forall o :: !ReceiptOk(receipts[|owned|], o)
    ensures forall all :: !Consistent(receipts, all)
  {
    forall all
      ensures !Consistent(receipts, all)
    {
      if sound {
        ClashRefutes(receipts, owned, l, next, all);
      }
      if Consistent(receipts, all) {
        NeedsOk(receipts, all, |owned|);
      }
    }
  }

  lemma AllOkStep(receipts: seq<Receipt>, owned: seq<Option<Analysis>>, next: Option<Analysis>)
    requires |owned| < |receipts| && AllOk(receipts, owned) && ReceiptOk(receipts[|owned|], next)
    requires next.Some? ==> next !in owned
    ensures AllOk(receipts, owned + [next])
  {
  }

  lemma LifecycleConsistent(receipts: seq<Receipt>, owned: seq<Option<Analysis>>, l: Lifecycle)
    requires |owned| == |receipts| && AllOk(receipts, owned) && LifecycleOf(receipts, owned, l)
    ensures Consistent(receipts, owned)
  {
    forall path, o, o' | Declared(receipts, owned, path, o) && Declared(receipts, owned, path, o')
      ensures o == o'
    {
      assert Holds(l.declared, path, o) && Holds(l.declared, path, o');
    }
  }

  /** `_analysis_lifecycle`: who owns what, exactly when the registry is consistent. */
  method ResolveLifecycle(receipts: seq<Receipt>) returns (r: Option<Lifecycle>, owned: seq<Option<Analysis>>)
    ensures r.Some? ==> Consistent(receipts, owned) && LifecycleOf(receipts, owned, r.value)
    ensures r.None? ==> forall all :: !Consistent(receipts, all)
  {
    var l := Lifecycle(map[], map[], {});
    owned := [];
    var i := 0;
    while i < |receipts|
      invariant 0 <= i == |owned| <= |receipts|
      invariant AllOk(receipts, owned) && LifecycleOf(receipts, owned, l)
    {
      var next, o, sound := AddReceipt(l, receipts[i]);
      if next.None? {
        ReceiptRefutes(receipts, owned, l, o, sound);
        return None, owned;
      }
      AllOkStep(receipts, owned, o);
      LifecycleStep(receipts, owned, l, o, next.value);
      owned := owned + [o];
      l := next.value;
      i := i + 1;
    }
    LifecycleConsistent(receipts, owned, l);
    return Some(l), owned;
  }

  // --- The stage directory ------------------------------------------------------------------

  datatype FileKind = Regular | Directory | Link | Special | Unreadable

  datatype File = File(name: string, kind: FileKind)

  predicate OwnedAnalysis(l: Lifecycle, f: File) {
    f.kind.Regular? && AnalysisOf(f.name).Some? && SiblingOf(f.name).None? && AnalysisOf(f.name).value in l.retired
  }

  predicate DeclaredSibling(l: Lifecycle, f: File) {
    && f.kind.Regular? && SiblingOf(f.name).Some?
    && Holds(l.declared, InStage(f.name), Owner(SiblingOf(f.name).value.analysis, SiblingOf(f.name).value.role))
  }

  predicate UnboundPlan(l: Lifecycle, f: File) {
    && f.kind.Regular? && SiblingOf(f.name).Some? && SiblingOf(f.name).value.role.PlanRole?
    && InStage(f.name) !in l.declared && InStage(f.name) !in l.referenced
  }

  predicate Beneath(path: Path, name: string) {
    |path| >= 4 && path[..3] == InStage(name)
  }

  predicate DeclaredDirectory(l: Lifecycle, f: File) {
    f.kind.Directory? && SharedStem(f.name) && exists path :: path in l.referenced && Beneath(path, f.name)
  }

  predicate Accounted(l: Lifecycle, f: File) {
    OwnedAnalysis(l, f) || DeclaredSibling(l, f) || UnboundPlan(l, f) || DeclaredDirectory(l, f)
  }

  datatype Finding = IsAnalysis(analysis: Analysis) | Passed | Warned | Bad

  /** One entry that shares the analysis stem. */
  method Examine(l: Lifecycle, f: File) returns (r: Finding)
    requires STEM <= f.name
    ensures r.Bad? <==> !Accounted(l, f)
    ensures r.Warned? <==> UnboundPlan(l, f)
    ensures r.IsAnalysis? <==> OwnedAnalysis(l, f)
    ensures r.IsAnalysis? ==> AnalysisOf(f.name) == Some(r.analysis)
  {
    var sibling := SiblingOf(f.name);
    if sibling.Some? {
      if !f.kind.Regular? {
        return Bad;
      }
      var path := InStage(f.name);
      if path !in l.declared && sibling.value.role.PlanRole? && path !in l.referenced {
        return Warned;
      }
      return if Holds(l.declared, path, Owner(sibling.value.analysis, sibling.value.role)) then Passed else Bad;
    }
    if f.kind.Directory? && SharedStem(f.name) && exists path :: path in l.referenced && Beneath(path, f.name) {
      return Passed;
    }
    var a := AnalysisOf(f.name);
    if a.None? || !f.kind.Regular? || a.value !in l.retired {
      return Bad;
    }
    return IsAnalysis(a.value);
  }

  /** What the comparison of an analysis reads: the project, and the stored results. */
  datatype Project = Project(reader: M.Reader, files: M.Project, results: map<Analysis, M.Stored>)

  function Stored(x: Project, a: Analysis): Option<M.Stored> {
    if a in x.results then Some(x.results[a]) else None
  }

  /** `compare_result` reports UNCHANGED for the analysis. */
  ghost predicate ComparesUnchanged(x: Project, a: Analysis) {
    M.StillCovers(x.reader, x.files, Stored(x, a), a)
  }

  datatype Verification = Absent | NotADirectory | Unlistable | Listed(entries: seq<File>)

  /** The stage directory and its verification directory, as they are listed. */
  datatype Stage = Stage(entries: seq<File>, verification: Verification)

  datatype Report = Report(good: bool, analyses: seq<Analysis>, warnings: seq<string>, errors: seq<string>)

  predicate Overlooked(l: Lifecycle, f: File) {
    STEM <= f.name && !Accounted(l, f)
  }

  predicate NamesAnalysis(l: Lifecycle, f: File, a: Analysis) {
    STEM <= f.name && OwnedAnalysis(l, f) && AnalysisOf(f.name) == Some(a)
  }

  predicate Warns(l: Lifecycle, f: File, w: string) {
    STEM <= f.name && UnboundPlan(l, f) && f.name == w
  }

  ghost predicate StageListed(l: Lifecycle, entries: seq<File>, r: Report) {
    && (r.errors == [] <==> forall f | f in entries :: !Overlooked(l, f))
    && (forall a :: a in r.analyses <==> exists f :: f in entries && NamesAnalysis(l, f, a))
    && (forall w :: w in r.warnings <==> exists f :: f in entries && Warns(l, f, w))
  }

  function WithFinding(r: Report, f: File, finding: Finding): Report {
    match finding
    case IsAnalysis(a) => r.(analyses := r.analyses + [a])
    case Warned => r.(warnings := r.warnings + [f.name])
    case Bad => r.(errors := r.errors + [f.name])
    case Passed => r
  }

  lemma ListedStep(l: Lifecycle, entries: seq<File>, r: Report, f: File, finding: Finding)
    requires StageListed(l, entries, r)
    requires finding.Bad? <==> Overlooked(l, f)
    requires forall w :: finding.Warned? && f.name == w <==> Warns(l, f, w)
    requires forall a :: finding == IsAnalysis(a) <==> NamesAnalysis(l, f, a)
    ensures StageListed(l, entries + [f], WithFinding(r, f, finding))
  {
    var r' := WithFinding(r, f, finding);
    assert f in entries + [f];
    forall w
      ensures w in r'.warnings <==> exists g :: g in entries + [f] && Warns(l, g, w)
    {
      assert w in r'.warnings <==> w in r.warnings || Warns(l, f, w);
    }
  }

  lemma NothingListed(l: Lifecycle)
    ensures StageListed(l, [], Report(true, [], [], []))
  {
  }

  /** The first loop of `check-all`. */
  method ListStage(l: Lifecycle, entries: seq<File>) returns (r: Report)
    ensures StageListed(l, entries, r)
  {
    hide StageListed, WithFinding, OwnedAnalysis, Accounted, UnboundPlan;
    r := Report(true, [], [], []);
    NothingListed(l);
    assert entries[..0] == [];
    var i := 0;
    while i < |entries|
      invariant 0 <= i <= |entries| && StageListed(l, entries[..i], r)
    {
      var finding := Passed;
      if STEM <= entries[i].name {
        finding := Examine(l, entries[i]);
      }
      ListedStep(l, entries[..i], r, entries[i], finding);
      assert entries[..i + 1] == entries[..i] + [entries[i]];
      r := WithFinding(r, entries[i], finding);
      i := i + 1;
    }
    assert entries[..i] == entries;
  }

  /** The verdict on every listed analysis that is not retired. */
  ghost predicate AllUnchanged(l: Lifecycle, analyses: seq<Analysis>, x: Project) {
    forall a | a in analyses :: (a in l.retired && l.retired[a]) || ComparesUnchanged(x, a)
  }

  /** The loop over the analyses: a comparison that raises is not unchanged either. */
  method CompareAll(l: Lifecycle, analyses: seq<Analysis>, x: Project) returns (ok: bool)
    requires forall a | a in analyses :: a in l.retired
    ensures ok <==> AllUnchanged(l, analyses, x)
  {
    ok := true;
    var i := 0;
    while i < |analyses|
      invariant 0 <= i <= |analyses| && (ok <==> AllUnchanged(l, analyses[..i], x))
    {
      assert analyses[..i + 1] == analyses[..i] + [analyses[i]];
      if !l.retired[analyses[i]] {
        var comparison := M.CompareResult(x.reader, x.files, Stored(x, analyses[i]), Some(analyses[i]));
        ok := ok && comparison.Some? && comparison.value.same;
      }
      i := i + 1;
    }
    assert analyses[..i] == analyses;
  }

  /** A result file is that of a listed analysis, or the candidate for it. */
  predicate ResultOk(analyses: seq<Analysis>, f: File) {
    f.kind.Regular? && exists a :: a in analyses && (f.name == VerifyResult(a) || f.name == PassCandidate(a))
  }

  predicate ScriptOk(analyses: seq<Analysis>, f: File) {
    || (f.kind.Directory? && f.name == "__pycache__")
    || (f.kind.Regular? && IsVerifier(f.name) && exists a :: a in analyses && f.name == VerifyScript(a))
  }

  /** Every result and every script is that of a listed analysis. */
  ghost predicate VerifiersOk(analyses: seq<Analysis>, stage: Stage) {
    && (forall f | f in stage.entries && "empirics_verify_result" <= f.name ::
          f.kind == Regular && exists a :: a in analyses && IsResult(f.name, a))
    && stage.verification != NotADirectory && stage.verification != Unlistable
    && (stage.verification.Listed? ==> forall f | f in stage.verification.entries ::
          || f == File("__pycache__", Directory)
          || (f.kind == Regular && exists a :: a in analyses && IsScript(f.name, a)))
  }

  predicate IsResult(name: string, a: Analysis) {
    || name == "empirics_verify_result" + a + ".json" || name == "empirics_verify_result" + a + ".json.candidate"
  }

  predicate IsScript(name: string, a: Analysis) {
    ValidAnalysis(a) && name == "empirics_verify" + a + ".py"
  }

  lemma ScriptMeans(analyses: seq<Analysis>, f: File)
    ensures ResultOk(analyses, f) <==> f.kind == Regular && exists a :: a in analyses && IsResult(f.name, a)
    ensures ScriptOk(analyses, f) <==>
      f == File("__pycache__", Directory) || (f.kind == Regular && exists a :: a in analyses && IsScript(f.name, a))
  {
    hide ValidAnalysis;
    forall a
      ensures f.name == VerifyResult(a) || f.name == PassCandidate(a) <==> IsResult(f.name, a)
      ensures f.name == VerifyScript(a) && IsVerifier(f.name) <==> IsScript(f.name, a)
    {
      MiddleOf(VERIFIER_STEM, a, ".py");
      assert ".json" + ".candidate" == ".json.candidate";
      assert VerifyResult(a) + ".candidate" == RESULT_STEM + a + (".json" + ".candidate");
    }
  }

  method Orphans(entries: seq<File>, fits: File -> bool) returns (orphans: seq<string>)
    ensures orphans == [] <==> forall f | f in entries :: fits(f)
  {
    orphans := [];
    var i := 0;
    while i < |entries|
      invariant 0 <= i <= |entries| && (orphans == [] <==> forall f | f in entries[..i] :: fits(f))
    {
      assert entries[..i + 1] == entries[..i] + [entries[i]];
      if !fits(entries[i]) {
        orphans := orphans + [entries[i].name];
      }
      i := i + 1;
    }
    assert entries[..i] == entries;
  }

  method CheckVerifiers(analyses: seq<Analysis>, stage: Stage) returns (orphans: seq<string>)
    ensures orphans == [] <==> VerifiersOk(analyses, stage)
  {
    forall f
      ensures ResultOk(analyses, f) <==> f.kind == Regular && exists a :: a in analyses && IsResult(f.name, a)
      ensures ScriptOk(analyses, f) <==>
        f == File("__pycache__", Directory) || (f.kind == Regular && exists a :: a in analyses && IsScript(f.name, a))
    {
      ScriptMeans(analyses, f);
    }
    hide ResultOk, ScriptOk, IsResult, IsScript;
    orphans := Orphans(stage.entries, (f: File) => RESULT_STEM <= f.name ==> ResultOk(analyses, f));
    match stage.verification {
      case Absent =>
      case NotADirectory => orphans := orphans + ["verification"];
      case Unlistable => orphans := orphans + ["verification"];
      case Listed(entries) =>
        var more := Orphans(entries, (f: File) => ScriptOk(analyses, f));
        orphans := orphans + more;
    }
  }

  /** `_check_all_locked`; None when there is nothing to check. `resolved` tells whether the
      registry is consistent, and `listed` is what the stage directory holds. */
  method CheckAll(receipts: seq<Receipt>, stage: Stage, x: Project)
    returns (r: Option<Report>, resolved: bool, l: Lifecycle, owned: seq<Option<Analysis>>, listed: Report)
    ensures resolved ==>
      Consistent(receipts, owned) && LifecycleOf(receipts, owned, l) && StageListed(l, stage.entries, listed)
    ensures !resolved ==> forall all :: !Consistent(receipts, all)
    ensures r.None? <==> resolved && listed.analyses == [] && listed.errors == []
    ensures r.Some? ==>
      (r.value.good <==>
        resolved && listed.errors == [] && AllUnchanged(l, listed.analyses, x) && VerifiersOk(listed.analyses, stage))
    ensures r.Some? && resolved ==> r.value.analyses == listed.analyses && r.value.warnings == listed.warnings
    ensures r.Some? ==>
      (r.value.errors == [] <==> resolved && listed.errors == [] && VerifiersOk(listed.analyses, stage))
  {
    var lifecycle;
    lifecycle, owned := ResolveLifecycle(receipts);
    resolved, l, listed := lifecycle.Some?, Lifecycle(map[], map[], {}), Report(false, [], [], []);
    if lifecycle.None? {
      r := Some(Report(false, [], [], ["process_log/results_registry.json"]));
      return;
    }
    l := lifecycle.value;
    var found := ListStage(lifecycle.value, stage.entries);
    listed := found;
    if found.analyses == [] && found.errors == [] {
      r := None;
      return;
    }
    var same := CompareAll(lifecycle.value, found.analyses, x);
    var orphans := CheckVerifiers(found.analyses, stage);
    var good := found.errors == [] && same && orphans == [];
    r := Some(Report(good, found.analyses, found.warnings, found.errors + orphans));
  }

  lemma AnalysisNamed(name: string)
    requires AnalysisOf(name).Some?
    ensures name == AnalysisName(AnalysisOf(name).value)
  {
    var a := AnalysisOf(name).value;
    assert name == name[..|STEM|] + a + name[|name| - 3..];
  }

  /** An owner's receipt lists the analysis file itself, and its current bytes match. */
  lemma OwnerListsFile(r: Receipt, a: Analysis)
    requires ReceiptOk(r, Some(a))
    ensures Recorded(InStage(AnalysisName(a)), true) in r.artifacts
  {
    var at: Option<nat> :| ReceiptAt(r, at) && Some(a) == AnalysisAt(r, at);
    var x := r.artifacts[at.value];
    assert KindOf(x.path) == AnalysisFile(a);
    AnalysisNamed(x.path[2]);
    assert x.path == x.path[..2] + [x.path[2]];
    assert x in r.artifacts;
  }

  /** Receipt i, and no other, owns the analysis, with intact bytes. */
  ghost predicate OwnedOnceBy(receipts: seq<Receipt>, owned: seq<Option<Analysis>>, a: Analysis, i: nat) {
    && i < |owned| == |receipts| && owned[i] == Some(a)
    && Recorded(InStage(AnalysisName(a)), true) in receipts[i].artifacts
    && forall j | 0 <= j < |owned| && owned[j] == Some(a) :: j == i
  }

  ghost predicate Fits(r: Receipt, x: Project, f: File, a: Analysis) {
    AnalysisOf(f.name) == Some(a) && (r.retired || ComparesUnchanged(x, a))
  }

  ghost predicate OwnedOnce(receipts: seq<Receipt>, owned: seq<Option<Analysis>>, x: Project, f: File) {
    f.kind.Regular? && exists a, i: nat :: OwnedOnceBy(receipts, owned, a, i) && Fits(receipts[i], x, f, a)
  }

  ghost predicate DeclaredInRole(receipts: seq<Receipt>, owned: seq<Option<Analysis>>, f: File) {
    && f.kind.Regular?
    && exists s :: SiblingOf(f.name) == Some(s) && Declared(receipts, owned, InStage(f.name), Owner(s.analysis, s.role))
  }

  ghost predicate ReportedPlan(receipts: seq<Receipt>, owned: seq<Option<Analysis>>, r: Report, f: File) {
    && f.kind.Regular? && f.name in r.warnings
    && SiblingOf(f.name).Some? && SiblingOf(f.name).value.role.PlanRole?
    && !ReferencedBy(receipts, |receipts|, InStage(f.name))
    && forall o :: !Declared(receipts, owned, InStage(f.name), o)
  }

  ghost predicate ReferencedDirectory(receipts: seq<Receipt>, f: File) {
    f.kind.Directory? && exists path :: ReferencedBy(receipts, |receipts|, path) && Beneath(path, f.name)
  }

  /** Main result: when everything reads UNCHANGED, an entry that shares the analysis stem is
      an intact analysis of exactly one receipt, which compares unchanged unless retired; a
      sibling that this analysis' receipt declares in exactly its role; a reported plan of
      nobody's; or a directory that some receipt refers into. */
  lemma UnchangedMeansOwned(receipts: seq<Receipt>, stage: Stage, x: Project,
                            l: Lifecycle, owned: seq<Option<Analysis>>, r: Report, f: File)
    requires Consistent(receipts, owned) && LifecycleOf(receipts, owned, l)
    requires StageListed(l, stage.entries, r) && r.errors == [] && AllUnchanged(l, r.analyses, x)
    requires f in stage.entries && STEM <= f.name
    ensures OwnedOnce(receipts, owned, x, f) || DeclaredInRole(receipts, owned, f) ||
            ReportedPlan(receipts, owned, r, f) || ReferencedDirectory(receipts, f)
  {
    assert !Overlooked(l, f);
    if OwnedAnalysis(l, f) {
      assert NamesAnalysis(l, f, AnalysisOf(f.name).value);
      AnalysisIsOwnedOnce(receipts, x, l, owned, r, f);
    } else if DeclaredSibling(l, f) {
      var s := SiblingOf(f.name).value;
      assert Declared(receipts, owned, InStage(f.name), Owner(s.analysis, s.role));
    } else if UnboundPlan(l, f) {
      assert Warns(l, f, f.name);
      forall o
        ensures !Declared(receipts, owned, InStage(f.name), o)
      {
        assert !Holds(l.declared, InStage(f.name), o);
      }
    } else {
      var path :| path in l.referenced && Beneath(path, f.name);
      assert ReferencedBy(receipts, |owned|, path);
    }
  }

  lemma AnalysisIsOwnedOnce(receipts: seq<Receipt>, x: Project,
                            l: Lifecycle, owned: seq<Option<Analysis>>, r: Report, f: File)
    requires Consistent(receipts, owned) && LifecycleOf(receipts, owned, l) && AllUnchanged(l, r.analyses, x)
    requires OwnedAnalysis(l, f) && AnalysisOf(f.name).value in r.analyses
    ensures OwnedOnce(receipts, owned, x, f)
  {
    var a := AnalysisOf(f.name).value;
    assert Some(a) in owned;
    var i :| 0 <= i < |owned| && owned[i] == Some(a);
    OwnerListsFile(receipts[i], a);
    assert OwnedOnceBy(receipts, owned, a, i);
  }

  /** The four accounts of an entry, each by what is on disk and in the receipts. */
  ghost predicate IsOwned(owned: seq<Option<Analysis>>, f: File) {
    f.kind == Regular && exists a :: ValidAnalysis(a) && f.name == AnalysisName(a) && Some(a) in owned
  }

  ghost predicate IsSiblingOf(f: File, a: Analysis, role: Role) {
    f.kind == Regular && ValidAnalysis(a) && f.name == SiblingName(Sibling(a, role))
  }

  ghost predicate IsDeclared(receipts: seq<Receipt>, owned: seq<Option<Analysis>>, f: File) {
    exists a, role :: IsSiblingOf(f, a, role) && Declared(receipts, owned, InStage(f.name), Owner(a, role))
  }

  ghost predicate IsUnboundPlan(receipts: seq<Receipt>, owned: seq<Option<Analysis>>, f: File) {
    && (exists a :: IsSiblingOf(f, a, PlanRole))
    && !ReferencedBy(receipts, |receipts|, InStage(f.name))
    && forall o :: !Declared(receipts, owned, InStage(f.name), o)
  }

  ghost predicate IsReferredInto(receipts: seq<Receipt>, f: File) {
    && f.kind == Directory && STEM <= f.name && !OfAnalysis(f.name)
    && exists path :: ReferencedBy(receipts, |receipts|, path) && |path| > 3 && path[..3] == InStage(f.name)
  }

  lemma SiblingsMean(f: File)
    ensures forall a, role ::
      f.kind.Regular? && SiblingOf(f.name) == Some(Sibling(a, role)) <==> IsSiblingOf(f, a, role)
  {
    hide ValidAnalysis, SiblingOf;
    forall a, role
      ensures f.kind.Regular? && SiblingOf(f.name) == Some(Sibling(a, role)) <==> IsSiblingOf(f, a, role)
    {
      NamesExactly(f.name, a, role);
    }
  }

  /** Main result: which entries are accounted for, and which of them are reported as plans of
      nobody's: both ways, for every consistent registry. */
  lemma AccountedExactly(receipts: seq<Receipt>, owned: seq<Option<Analysis>>, l: Lifecycle, f: File)
    requires |owned| == |receipts| && LifecycleOf(receipts, owned, l)
    ensures UnboundPlan(l, f) <==> IsUnboundPlan(receipts, owned, f)
    ensures Accounted(l, f) <==>
      || IsOwned(owned, f) || IsDeclared(receipts, owned, f)
      || IsUnboundPlan(receipts, owned, f) || IsReferredInto(receipts, f)
  {
    OwnedMeans(receipts, owned, l, f);
    DeclaredMeans(receipts, owned, l, f);
    UnboundMeans(receipts, owned, l, f);
    ReferredMeans(receipts, owned, l, f);
  }

  lemma OwnedMeans(receipts: seq<Receipt>, owned: seq<Option<Analysis>>, l: Lifecycle, f: File)
    requires LifecycleOf(receipts, owned, l)
    ensures OwnedAnalysis(l, f) <==> IsOwned(owned, f)
  {
    hide ValidAnalysis, AnalysisOf, SiblingOf;
    NeverBoth(f.name);
    forall a
      ensures AnalysisOf(f.name) == Some(a) <==> ValidAnalysis(a) && f.name == AnalysisName(a)
    {
      NamesExactly(f.name, a, PlanRole);
    }
  }

  lemma DeclaredMeans(receipts: seq<Receipt>, owned: seq<Option<Analysis>>, l: Lifecycle, f: File)
    requires LifecycleOf(receipts, owned, l)
    ensures DeclaredSibling(l, f) <==> IsDeclared(receipts, owned, f)
  {
    hide SiblingOf, Declared, Holds, IsSiblingOf;
    SiblingsMean(f);
    if DeclaredSibling(l, f) {
      var s := SiblingOf(f.name).value;
      assert IsSiblingOf(f, s.analysis, s.role);
    }
  }

  lemma UnboundMeans(receipts: seq<Receipt>, owned: seq<Option<Analysis>>, l: Lifecycle, f: File)
    requires |owned| == |receipts| && LifecycleOf(receipts, owned, l)
    ensures UnboundPlan(l, f) <==> IsUnboundPlan(receipts, owned, f)
  {
    hide SiblingOf, Declared, IsSiblingOf;
    SiblingsMean(f);
    var path := InStage(f.name);
    if SiblingOf(f.name).Some? {
      var s := SiblingOf(f.name).value;
      assert s == Sibling(s.analysis, s.role);
    }
    assert path in l.declared ==> Holds(l.declared, path, l.declared[path]);
    assert forall o :: Holds(l.declared, path, o) <==> Declared(receipts, owned, path, o);
  }

  lemma ReferredMeans(receipts: seq<Receipt>, owned: seq<Option<Analysis>>, l: Lifecycle, f: File)
    requires |owned| == |receipts| && LifecycleOf(receipts, owned, l)
    ensures DeclaredDirectory(l, f) <==> IsReferredInto(receipts, f)
  {
    hide SharedStem, OfAnalysis, ReferencedBy;
    SharedExactly(f.name);
    forall path
      ensures path in l.referenced && Beneath(path, f.name) <==>
        ReferencedBy(receipts, |receipts|, path) && |path| > 3 && path[..3] == InStage(f.name)
    {
    }
  }

  /** Which analyses must compare unchanged: those on disk that a receipt owns, unless that
      receipt has retired them. */
  lemma UnchangedExactly(receipts: seq<Receipt>, owned: seq<Option<Analysis>>, l: Lifecycle, entries: seq<File>,
                         r: Report, x: Project)
    requires Consistent(receipts, owned) && LifecycleOf(receipts, owned, l) && StageListed(l, entries, r)
    ensures AllUnchanged(l, r.analyses, x) <==> forall i, f ::
      0 <= i < |owned| && f in entries && LiveAt(receipts, owned, i, f) ==> ComparesUnchanged(x, owned[i].value)
  {
    hide ComparesUnchanged, ReceiptOk, Declared, Holds, ReferencedBy;
    if AllUnchanged(l, r.analyses, x) {
      forall i, f | 0 <= i < |owned| && f in entries && LiveAt(receipts, owned, i, f)
        ensures ComparesUnchanged(x, owned[i].value)
      {
        LiveIsListed(receipts, owned, l, i, f);
      }
    }
    if forall i, f :: 0 <= i < |owned| && f in entries && LiveAt(receipts, owned, i, f) ==>
         ComparesUnchanged(x, owned[i].value)
    {
      forall a | a in r.analyses
        ensures (a in l.retired && l.retired[a]) || ComparesUnchanged(x, a)
      {
        var f :| f in entries && NamesAnalysis(l, f, a);
        var i :| 0 <= i < |owned| && owned[i] == Some(a);
        NamesExactly(f.name, a, PlanRole);
        assert receipts[i].retired || LiveAt(receipts, owned, i, f);
      }
    }
  }

  /** The file of an analysis that receipt i owns and has not retired. */
  ghost predicate LiveAt(receipts: seq<Receipt>, owned: seq<Option<Analysis>>, i: nat, f: File)
    requires i < |owned| == |receipts|
  {
    && owned[i].Some? && !receipts[i].retired && f.kind == Regular
    && ValidAnalysis(owned[i].value) && f.name == AnalysisName(owned[i].value)
  }

  lemma LiveIsListed(receipts: seq<Receipt>, owned: seq<Option<Analysis>>, l: Lifecycle, i: nat, f: File)
    requires i < |owned| == |receipts| && LifecycleOf(receipts, owned, l) && LiveAt(receipts, owned, i, f)
    ensures var a := owned[i].value; NamesAnalysis(l, f, a) && a in l.retired && !l.retired[a]
  {
    hide ValidAnalysis, Declared, Holds, ReferencedBy;
    NamesExactly(f.name, owned[i].value, PlanRole);
    NeverBoth(f.name);
    StemsBegin(owned[i].value);
  }

  /** What UNCHANGED is worth for a live analysis: each headline that its report makes now was
      reproduced by the stored run, within the tolerance of its class. */
  lemma UnchangedMeansReproduced(x: Project, a: Analysis, i: nat)
    requires ComparesUnchanged(x, a)
    requires i < |M.EntriesOf(x.reader.rows(M.InputsOf(x.reader, x.files, a).value.headline))|
    ensures var e := M.EntriesOf(x.reader.rows(M.InputsOf(x.reader, x.files, a).value.headline))[i];
      var run := x.results[a].run;
      && e.reported.Finite? && e.tolerance.Some? && run.RunDigest? && i < |run.claims|
      && run.claims[i].0 == e.claimId && M.Close(e.tolerance.value, e.reported.value, run.claims[i].1)
  {
    M.AcceptedMeansReproduced(x.results[a], x.results[a].manifest.contents.entries, i);
  }
}
