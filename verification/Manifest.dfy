/**
 The replication manifest of one empirical analysis: how a PASS is produced, what its
 validator accepts, and when a stored PASS still covers the project.

 A digest is the value that it is the digest of, so equal digests mean equal content.
 None stands for a ManifestError.
 */
module Manifest {
  import opened Basics
  import opened Names

  const MAX_CLAIMS := 8
  const SMALLEST := 0.000000000000001

  datatype ToleranceClass = ReturnsSpreadsCoefficients | Moments | Counts | BoundedStatistics | TStatistics

  datatype Measure = Relative | Absolute

  datatype PathClass =
    | DifferentMergeKey | DifferentAggregationOrder | RawSourceNotCache | AlternativeEstimatorPackage
    | NoAlternativePathExists

  /** A JSON value where a finite number is wanted. */
  datatype Value = Finite(value: real) | NotFinite

  function MeasureOf(c: ToleranceClass): Measure {
    if c.Counts? || c.BoundedStatistics? || c.TStatistics? then Absolute else Relative
  }

  function LimitOf(c: ToleranceClass): real {
    match c
    case ReturnsSpreadsCoefficients => 0.01
    case Moments => 0.005
    case Counts => 1.0
    case BoundedStatistics => 0.005
    case TStatistics => 0.05
  }

  // --- Headline claims ------------------------------------------------------------------

  /** A row marked as a headline: what its tags say, where they say it. */
  datatype Row = Row(claimId: Option<string>, text: string, reported: Option<Value>, tolerance: Option<ToleranceClass>)

  datatype Entry = Entry(claimId: string, text: string, reported: Value, tolerance: Option<ToleranceClass>)

  predicate GoodEntries(entries: seq<Entry>) {
    && entries != []
    && (forall e | e in entries :: e.text != "" && e.reported.Finite? && e.tolerance.Some?)
    && (forall i, j | 0 <= i < j < |entries| :: entries[i].claimId != entries[j].claimId)
  }

  predicate GoodRow(row: Row) {
    row.claimId.Some? && row.text != "" && row.reported.Some? && row.reported.value.Finite? && row.tolerance.Some?
  }

  ghost predicate DistinctRows(rows: seq<Row>) {
    forall i, j | 0 <= i < j < |rows| :: rows[i].claimId != rows[j].claimId
  }

  function EntryOf(row: Row): Entry
    requires GoodRow(row)
  {
    Entry(row.claimId.value, row.text, row.reported.value, row.tolerance)
  }

  /** `_headline_entries`: every row must be complete, though only eight are kept. */
  method HeadlineEntries(rows: seq<Row>) returns (r: Option<seq<Entry>>)
    ensures r.Some? <==> rows != [] && (forall row | row in rows :: GoodRow(row)) && DistinctRows(rows)
    ensures r.Some? ==> GoodEntries(r.value) && |r.value| == if |rows| < 8 then |rows| else 8
    ensures r.Some? ==> forall i | 0 <= i < |r.value| ::
      && Some(r.value[i].claimId) == rows[i].claimId && r.value[i].text == rows[i].text != ""
      && Some(r.value[i].reported) == rows[i].reported && r.value[i].reported != NotFinite
      && r.value[i].tolerance == rows[i].tolerance != None
    ensures r.Some? ==> forall i | 0 <= i < |r.value| :: r.value[i] == EntryOf(rows[i])
  {
    var entries: seq<Entry> := [];
    var seen: set<string> := {};
    var i := 0;
    while i < |rows|
      invariant 0 <= i <= |rows| && |entries| == i
      invariant forall j | 0 <= j < i :: GoodRow(rows[j]) && entries[j] == EntryOf(rows[j])
      invariant forall id :: id in seen <==> exists j :: 0 <= j < i && rows[j].claimId == Some(id)
      invariant DistinctRows(rows[..i])
    {
      var row := rows[i];
      if !GoodRow(row) || row.claimId.value in seen {
        assert row in rows;
        return None;
      }
      seen := seen + {row.claimId.value};
      entries := entries + [EntryOf(row)];
      i := i + 1;
    }
    assert rows[..i] == rows;
    return if entries == [] then None else Some(entries[..Min(MAX_CLAIMS, |entries|)]);
  }

  // --- Manifests --------------------------------------------------------------------------

  /** The files that a manifest of an analysis covers. */
  datatype Project = Project(
    code: map<string, string>, reports: map<Analysis, string>, verifiers: map<Analysis, string>, cleanVerifiers: bool)

  /** How a report is read: its "Headline claims" section, and the headline rows of that. */
  datatype Reader = Reader(section: string -> Option<string>, rows: string -> seq<Row>)

  datatype Digest = Digest(content: string) | MalformedDigest

  datatype Contents = Contents(
    code: map<string, Digest>, analysis: Analysis, headline: Digest, entries: seq<Entry>,
    verifierPath: string, verifier: Digest)

  /** The combined digest is that of the contents. */
  datatype Combined = Combined(contents: Contents) | MalformedCombined

  datatype Manifest = Manifest(supported: bool, contents: Contents, combined: Combined)

  ghost function Headline(reader: Reader, p: Project, a: Analysis): Option<string> {
    if a in p.reports then reader.section(p.reports[a]) else None
  }

  /** The inputs that a manifest binds: code, headline section, verifier. */
  datatype Inputs = Inputs(code: map<string, string>, headline: string, verifier: string)

  ghost function InputsOf(reader: Reader, p: Project, a: Analysis): Option<Inputs> {
    if ValidAnalysis(a) && p.code != map[] && Headline(reader, p, a).Some? && p.cleanVerifiers && a in p.verifiers &&
       ReadableRows(reader.rows(Headline(reader, p, a).value))
    then Some(Inputs(p.code, Headline(reader, p, a).value, p.verifiers[a]))
    else None
  }

  ghost predicate ReadableRows(rows: seq<Row>) {
    rows != [] && (forall row | row in rows :: GoodRow(row)) && DistinctRows(rows)
  }

  /** A manifest built from these inputs. */
  ghost predicate Binds(m: Manifest, reader: Reader, a: Analysis, inputs: Inputs) {
    && m.supported && m.combined == Combined(m.contents)
    && m.contents.code.Keys == inputs.code.Keys
    && (forall path | path in inputs.code :: m.contents.code[path] == Digest(inputs.code[path]))
    && ValidAnalysis(a) && m.contents.analysis == a && m.contents.headline == Digest(inputs.headline)
    && m.contents.verifierPath == VerifyScript(a) && m.contents.verifier == Digest(inputs.verifier)
    && GoodEntries(m.contents.entries) && m.contents.entries == EntriesOf(reader.rows(inputs.headline))
  }

  ghost function EntriesOf(rows: seq<Row>): seq<Entry> {
    seq(Min(MAX_CLAIMS, |rows|), i requires 0 <= i < |rows| =>
      if GoodRow(rows[i]) then EntryOf(rows[i]) else Entry("", "", NotFinite, None))
  }

  /** `build_manifest`. */
  method BuildManifest(reader: Reader, p: Project, a: Analysis) returns (r: Option<Manifest>)
    ensures r.Some? <==> InputsOf(reader, p, a).Some?
    ensures r.Some? ==> Binds(r.value, reader, a, InputsOf(reader, p, a).value)
  {
    if !ValidAnalysis(a) || p.code == map[] || a !in p.reports || !p.cleanVerifiers || a !in p.verifiers {
      return None;
    }
    var section := reader.section(p.reports[a]);
    if section.None? {
      return None;
    }
    var entries := HeadlineEntries(reader.rows(section.value));
    if entries.None? {
      return None;
    }
    var files := map path | path in p.code :: Digest(p.code[path]);
    var contents := Contents(files, a, Digest(section.value), entries.value, VerifyScript(a), Digest(p.verifiers[a]));
    return Some(Manifest(true, contents, Combined(contents)));
  }

  /** `_validate_manifest`. */
  predicate ValidManifest(m: Manifest) {
    && m.supported && m.contents.code != map[]
    && (forall path | path in m.contents.code :: m.contents.code[path].Digest?)
    && GoodEntries(m.contents.entries)
    && ValidAnalysis(m.contents.analysis) && m.contents.verifierPath == VerifyScript(m.contents.analysis)
    && m.contents.headline.Digest? && m.contents.verifier.Digest?
    && m.combined == Combined(m.contents)
  }

  // --- Results ------------------------------------------------------------------------------

  datatype Claim = Claim(
    claimId: string, text: string, reported: Value, replicated: Value, relativeDelta: Value, agree: bool,
    toleranceClass: Option<ToleranceClass>, tolerance: Value, measure: Option<Measure>,
    pathClass: Option<PathClass>, description: string)

  /** The digest of the verifier's own output. */
  datatype RunDigest = RunDigest(claims: seq<(string, real)>) | MalformedRun

  datatype Stored = Stored(
    pass: bool, finalized: bool, run: RunDigest, manifest: Manifest, claims: seq<Claim>, warnings: Option<seq<string>>)

  function Abs(x: real): real {
    if x < 0.0 then -x else x
  }

  function RelativeDelta(reported: real, replicated: real): real {
    Abs(replicated - reported) / (if Abs(reported) < SMALLEST then SMALLEST else Abs(reported))
  }

  predicate Within(reported: real, replicated: real, c: ToleranceClass) {
    (if MeasureOf(c).Relative? then RelativeDelta(reported, replicated) else Abs(replicated - reported)) <= LimitOf(c)
  }

  /** The tolerance of each class, in plain arithmetic: how far a replicated value may be from
      the reported one. */
  predicate Close(c: ToleranceClass, reported: real, replicated: real) {
    match c
    case Counts => reported - 1.0 <= replicated <= reported + 1.0
    case BoundedStatistics => reported - 0.005 <= replicated <= reported + 0.005
    case TStatistics => reported - 0.05 <= replicated <= reported + 0.05
    case ReturnsSpreadsCoefficients => Abs(replicated - reported) <= 0.01 * Scale(reported)
    case Moments => Abs(replicated - reported) <= 0.005 * Scale(reported)
  }

  function Scale(reported: real): (r: real)
    ensures r >= 0.000000000000001 && r >= reported && r >= -reported
    ensures r == 0.000000000000001 || r == reported || r == -reported
  {
    if Abs(reported) < SMALLEST then SMALLEST else Abs(reported)
  }

  /** The run's number for a headline is within the tolerance of its class. */
  predicate Meets(e: Entry, run: RunClaim) {
    && e.tolerance.Some? && e.reported.Finite? && run.replicated.Finite?
    && Close(e.tolerance.value, e.reported.value, run.replicated.value)
  }

  lemma Quotient(d: real, m: real, limit: real)
    requires m > 0.0
    ensures d / m <= limit <==> d <= limit * m
  {
    assert d == (d / m) * m;
    if d / m <= limit {
      assert (limit - d / m) * m >= 0.0;
    } else {
      assert (d / m - limit) * m > 0.0;
    }
  }

  /** Main result: the gate of `finalize_pass` and of the validator is that arithmetic. */
  lemma WithinMeans(reported: real, replicated: real, c: ToleranceClass)
    ensures Within(reported, replicated, c) <==> Close(c, reported, replicated)
  {
    Quotient(Abs(replicated - reported), Scale(reported), LimitOf(c));
  }

  predicate ValidClaim(c: Claim, e: Entry) {
    && c.claimId == e.claimId && c.text == e.text && c.agree && c.pathClass.Some? && c.description != ""
    && c.reported.Finite? && c.replicated.Finite? && c.reported == e.reported
    && c.relativeDelta == Finite(RelativeDelta(c.reported.value, c.replicated.value))
    && c.toleranceClass.Some? && c.toleranceClass == e.tolerance
    && c.measure == Some(MeasureOf(c.toleranceClass.value)) && c.tolerance == Finite(LimitOf(c.toleranceClass.value))
    && Within(c.reported.value, c.replicated.value, c.toleranceClass.value)
  }

  function RunOf(claims: seq<Claim>): seq<(string, real)>
    requires forall c | c in claims :: c.replicated.Finite?
  {
    seq(|claims|, i requires 0 <= i < |claims| => (claims[i].claimId, claims[i].replicated.value))
  }

  /** `_validate_pass_claims`. */
  predicate ValidClaims(s: Stored, entries: seq<Entry>) {
    && s.claims != [] && |s.claims| == |entries|
    && (forall i | 0 <= i < |entries| :: ValidClaim(s.claims[i], entries[i]))
    && s.warnings.Some?
    && (forall c | c in s.claims :: c.replicated.Finite?) && s.run == RunDigest(RunOf(s.claims))
  }

  // --- Producing a PASS ---------------------------------------------------------------------

  datatype RunClaim = RunClaim(claimId: Option<string>, replicated: Value)

  datatype Evidence = Evidence(claimId: Option<string>, pathClass: Option<PathClass>, description: string)

  datatype Candidate = Candidate(evidence: seq<Evidence>, warnings: seq<string>)

  /** The verifier reproduces one headline, by a path that the candidate describes. */
  predicate Reproduces(e: Entry, run: RunClaim, evidence: Evidence) {
    && Described(e, run, evidence)
    && Within(e.reported.value, run.replicated.value, e.tolerance.value)
  }

  /** The run has a number for the headline, and the candidate says by which path. */
  predicate Described(e: Entry, run: RunClaim, evidence: Evidence) {
    && run.claimId == Some(e.claimId) && evidence.claimId == Some(e.claimId)
    && run.replicated.Finite? && evidence.pathClass.Some? && evidence.description != ""
    && e.reported.Finite? && e.tolerance.Some?
  }

  ghost predicate AllReproduced(entries: seq<Entry>, run: seq<RunClaim>, evidence: seq<Evidence>) {
    && |run| == |evidence| == |entries|
    && forall i | 0 <= i < |entries| :: Reproduces(entries[i], run[i], evidence[i])
  }

  predicate SameIds(entries: seq<Entry>, run: seq<RunClaim>, evidence: seq<Evidence>) {
    && |run| == |evidence| == |entries|
    && forall i | 0 <= i < |entries| ::
         run[i].claimId == Some(entries[i].claimId) && evidence[i].claimId == Some(entries[i].claimId)
  }

  function ClaimOf(e: Entry, run: RunClaim, evidence: Evidence): (c: Claim)
    requires Reproduces(e, run, evidence)
    ensures ValidClaim(c, e) && c.replicated == run.replicated
  {
    var measure := MeasureOf(e.tolerance.value);
    Claim(e.claimId, e.text, e.reported, run.replicated, Finite(RelativeDelta(e.reported.value, run.replicated.value)),
          true, e.tolerance, Finite(LimitOf(e.tolerance.value)), Some(measure),
          evidence.pathClass, evidence.description)
  }

  /** The loop of `finalize_pass`. */
  method BuildClaims(entries: seq<Entry>, run: seq<RunClaim>, evidence: seq<Evidence>)
    returns (claims: Option<seq<Claim>>, canonical: seq<(string, real)>)
    requires GoodEntries(entries)
    ensures claims.Some? <==> AllReproduced(entries, run, evidence)
    ensures claims.Some? ==>
      && |claims.value| == |entries|
      && (forall i | 0 <= i < |entries| ::
            ValidClaim(claims.value[i], entries[i]) && claims.value[i].replicated == run[i].replicated)
      && |canonical| == |entries|
      && (forall i | 0 <= i < |entries| :: canonical[i] == (entries[i].claimId, run[i].replicated.value))
  {
    canonical := [];
    if !SameIds(entries, run, evidence) {
      return None, canonical;
    }
    var built: seq<Claim> := [];
    var i := 0;
    while i < |entries|
      invariant 0 <= i <= |entries| && |built| == |canonical| == i
      invariant forall j | 0 <= j < i ::
        Reproduces(entries[j], run[j], evidence[j]) && built[j] == ClaimOf(entries[j], run[j], evidence[j])
      invariant forall j | 0 <= j < i :: canonical[j] == (entries[j].claimId, run[j].replicated.value)
    {
      assert entries[i] in entries;
      if !Reproduces(entries[i], run[i], evidence[i]) {
        return None, canonical;
      }
      canonical := canonical + [(entries[i].claimId, run[i].replicated.value)];
      built := built + [ClaimOf(entries[i], run[i], evidence[i])];
      i := i + 1;
    }
    return Some(built), canonical;
  }

  /** `finalize_pass`, from reading the candidate to the result it writes. The verifier's run
      turns `before` into `after`; None stands for a malformed candidate or run. A PASS is
      produced exactly when the bound inputs are readable and stable and every headline is
      reproduced, and every PASS it produces is one that the validators accept. */
  method FinalizePass(reader: Reader, before: Project, after: Project, a: Analysis,
                      candidate: Option<Candidate>, run: Option<seq<RunClaim>>) returns (r: Option<Stored>)
    ensures r.Some? <==>
      && candidate.Some? && run.Some?
      && InputsOf(reader, before, a).Some? && InputsOf(reader, after, a) == InputsOf(reader, before, a)
      && AllReproduced(EntriesOf(reader.rows(InputsOf(reader, after, a).value.headline)),
                       run.value, candidate.value.evidence)
    ensures r.Some? ==>
      && r.value.pass && r.value.finalized
      && Binds(r.value.manifest, reader, a, InputsOf(reader, after, a).value)
      && ValidManifest(r.value.manifest) && ValidClaims(r.value, r.value.manifest.contents.entries)
      && r.value.warnings == Some(candidate.value.warnings)
    ensures r.Some? ==>
      var entries := r.value.manifest.contents.entries;
      && |run.value| == |entries|
      && forall i | 0 <= i < |entries| :: Meets(entries[i], run.value[i])
  {
    if candidate.None? {
      return None;
    }
    var first := BuildManifest(reader, before, a);
    if first.None? || run.None? {
      return None;
    }
    var manifest := BuildManifest(reader, after, a);
    if manifest.None? {
      return None;
    }
    SameDigestSameInputs(reader, a, first.value, InputsOf(reader, before, a).value,
                         manifest.value, InputsOf(reader, after, a).value);
    if manifest.value.combined != first.value.combined {
      return None;
    }
    var entries := manifest.value.contents.entries;
    var claims, canonical := BuildClaims(entries, run.value, candidate.value.evidence);
    if claims.None? {
      return None;
    }
    r := Some(Stored(true, true, RunDigest(canonical), manifest.value, claims.value, Some(candidate.value.warnings)));
    forall c | c in claims.value
      ensures c.replicated.Finite?
    {
      var i :| 0 <= i < |claims.value| && claims.value[i] == c;
      assert ValidClaim(claims.value[i], entries[i]);
    }
    assert canonical == RunOf(claims.value);
    forall i | 0 <= i < |entries|
      ensures Meets(entries[i], run.value[i])
    {
      assert Reproduces(entries[i], run.value[i], candidate.value.evidence[i]);
      WithinMeans(entries[i].reported.value, run.value[i].replicated.value, entries[i].tolerance.value);
    }
  }

  /** Combined digests agree exactly when every bound input does. */
  lemma SameDigestSameInputs(reader: Reader, a: Analysis, m: Manifest, x: Inputs, n: Manifest, y: Inputs)
    requires Binds(m, reader, a, x) && Binds(n, reader, a, y)
    ensures m.combined == n.combined <==> x == y
  {
    if x == y {
      assert m.contents.code == n.contents.code;
    }
    if m.combined == n.combined {
      forall path | path in x.code
        ensures x.code[path] == y.code[path]
      {
        assert m.contents.code[path] == n.contents.code[path];
      }
      assert x.code == y.code;
    }
  }

  // --- Checking a stored result ----------------------------------------------------------------

  datatype Comparison = Comparison(same: bool, changedFiles: set<string>, headlineChanged: bool, verifierChanged: bool)

  /** A finalized PASS that the validators accept. */
  ghost predicate Accepted(s: Stored) {
    s.pass && s.finalized && ValidManifest(s.manifest) && ValidClaims(s, s.manifest.contents.entries)
  }

  /** The stored result is an accepted PASS of this analysis that binds its present inputs. */
  ghost predicate StillCovers(reader: Reader, now: Project, stored: Option<Stored>, a: Analysis) {
    && stored.Some? && Accepted(stored.value)
    && InputsOf(reader, now, a).Some? && Binds(stored.value.manifest, reader, a, InputsOf(reader, now, a).value)
  }

  /** `compare_result`. The list of changed files is a set here. */
  method CompareResult(reader: Reader, now: Project, stored: Option<Stored>, required: Option<Analysis>)
    returns (r: Option<Comparison>)
    ensures r.Some? <==>
      && stored.Some? && Accepted(stored.value)
      && (required.Some? ==> stored.value.manifest.contents.analysis == required.value)
      && InputsOf(reader, now, stored.value.manifest.contents.analysis).Some?
    ensures required.Some? ==>
      (r.Some? && r.value.same <==> StillCovers(reader, now, stored, required.value))
    ensures r.Some? ==> exists current ::
      && Binds(current, reader, stored.value.manifest.contents.analysis,
               InputsOf(reader, now, stored.value.manifest.contents.analysis).value)
      && r.value == Compared(stored.value.manifest, current)
  {
    if stored.None? || !stored.value.pass || !stored.value.finalized {
      return None;
    }
    var expected := stored.value.manifest;
    if !ValidManifest(expected) || !ValidClaims(stored.value, expected.contents.entries) ||
       (required.Some? && expected.contents.analysis != required.value)
    {
      return None;
    }
    var current := BuildManifest(reader, now, expected.contents.analysis);
    if current.None? {
      return None;
    }
    var a := expected.contents.analysis;
    SameMeansBound(reader, a, expected, current.value, InputsOf(reader, now, a).value);
    return Some(Compared(expected, current.value));
  }

  /** Two valid manifests have one combined digest exactly when they bind the same inputs. */
  lemma SameMeansBound(reader: Reader, a: Analysis, expected: Manifest, current: Manifest, inputs: Inputs)
    requires ValidManifest(expected) && Binds(current, reader, a, inputs)
    ensures Compared(expected, current).same <==> Binds(expected, reader, a, inputs)
  {
    if Binds(expected, reader, a, inputs) {
      assert expected.contents.code == current.contents.code;
    }
  }

  function FileDigest(m: Manifest, path: string): Option<Digest> {
    if path in m.contents.code then Some(m.contents.code[path]) else None
  }

  function Compared(expected: Manifest, current: Manifest): Comparison {
    Comparison(
      expected.combined == current.combined,
      (set path | path in expected.contents.code.Keys + current.contents.code.Keys
                  && FileDigest(expected, path) != FileDigest(current, path)),
      expected.contents.headline != current.contents.headline,
      expected.contents.verifier != current.contents.verifier)
  }

  /** Main result: every PASS that `finalize_pass` writes is accepted when it is read back,
      and reads as unchanged exactly while code, headline section and verifier are what
      they were; any of them missing or unreadable is an error, never UNCHANGED. */
  lemma ProducedPassCompares(reader: Reader, a: Analysis, s: Stored, bound: Inputs, current: Manifest, inputs: Inputs)
    requires Binds(s.manifest, reader, a, bound) && Binds(current, reader, a, inputs)
    ensures var c := Compared(s.manifest, current);
      && (c.same <==> inputs == bound)
      && (c.same <==> c.changedFiles == {} && !c.headlineChanged && !c.verifierChanged)
      && (forall path :: path in c.changedFiles <==>
            FileOf(bound, path) != FileOf(inputs, path))
  {
    SameDigestSameInputs(reader, a, s.manifest, bound, current, inputs);
    var c := Compared(s.manifest, current);
    forall path: string
      ensures path in c.changedFiles <==> FileOf(bound, path) != FileOf(inputs, path)
    {
    }
    if c.changedFiles == {} {
      forall path: string
        ensures FileOf(bound, path) == FileOf(inputs, path)
      {
        assert path !in c.changedFiles;
      }
      SameFiles(bound, inputs);
    }
  }

  function FileOf(i: Inputs, path: string): Option<string> {
    if path in i.code then Some(i.code[path]) else None
  }

  lemma SameFiles(x: Inputs, y: Inputs)
    requires forall path :: FileOf(x, path) == FileOf(y, path)
    ensures x.code == y.code
  {
    forall path: string
      ensures path in x.code <==> path in y.code
      ensures path in x.code ==> x.code[path] == y.code[path]
    {
      assert FileOf(x, path) == FileOf(y, path);
    }
  }

  /** A life of a result: finalized on one state of the project, compared on another. */
  method FinalizeThenCompare(reader: Reader, before: Project, after: Project, later: Project, a: Analysis,
                             candidate: Option<Candidate>, run: Option<seq<RunClaim>>)
    returns (r: Option<Comparison>, written: bool)
    ensures written && InputsOf(reader, later, a).Some? ==>
      r.Some? && (r.value.same <==> InputsOf(reader, later, a) == InputsOf(reader, before, a))
    ensures r.Some? ==> written && InputsOf(reader, later, a).Some?
  {
    var stored := FinalizePass(reader, before, after, a, candidate, run);
    written := stored.Some?;
    r := CompareResult(reader, later, stored, Some(a));
    if r.Some? {
      ghost var current :| Binds(current, reader, a, InputsOf(reader, later, a).value) &&
                     r.value == Compared(stored.value.manifest, current);
      ProducedPassCompares(reader, a, stored.value, InputsOf(reader, after, a).value,
                           current, InputsOf(reader, later, a).value);
    }
  }

  /** What the validator's acceptance is worth: every headline of the manifest, in order, has
      a claim that was reproduced within the tolerance of its class. */
  lemma AcceptedMeansReproduced(s: Stored, entries: seq<Entry>, i: nat)
    requires GoodEntries(entries) && ValidClaims(s, entries) && i < |entries|
    ensures entries[i].reported.Finite? && entries[i].tolerance.Some? && s.run.RunDigest? && i < |s.run.claims|
    ensures s.run.claims[i].0 == entries[i].claimId
    ensures Close(entries[i].tolerance.value, entries[i].reported.value, s.run.claims[i].1)
  {
    assert ValidClaim(s.claims[i], entries[i]);
    WithinMeans(entries[i].reported.value, s.run.claims[i].1, entries[i].tolerance.value);
  }

  /** How each class is measured, and its limit. */
  predicate Tabled(c: ToleranceClass, measure: Measure, limit: real) {
    match c
    case Counts => measure == Absolute && limit == 1.0
    case BoundedStatistics => measure == Absolute && limit == 0.005
    case TStatistics => measure == Absolute && limit == 0.05
    case ReturnsSpreadsCoefficients => measure == Relative && limit == 0.01
    case Moments => measure == Relative && limit == 0.005
  }

  /** A claim that says of its headline what is so. */
  predicate Truthful(c: Claim, e: Entry) {
    && c.claimId == e.claimId && c.text == e.text && c.reported == e.reported && c.toleranceClass == e.tolerance
    && c.agree && c.pathClass.Some? && c.description != ""
    && c.reported.Finite? && c.replicated.Finite? && c.relativeDelta.Finite? && c.tolerance.Finite?
    && c.toleranceClass.Some? && c.measure.Some?
    && c.relativeDelta.value * Scale(c.reported.value) == Abs(c.replicated.value - c.reported.value)
    && Tabled(c.toleranceClass.value, c.measure.value, c.tolerance.value)
    && Close(c.toleranceClass.value, c.reported.value, c.replicated.value)
  }

  lemma QuotientIs(d: real, x: real, m: real)
    requires m > 0.0
    ensures d == x / m <==> d * m == x
  {
    assert x == (x / m) * m;
    assert d * m == x ==> d == (d * m) / m;
  }

  lemma TruthfulExactly(c: Claim, e: Entry)
    ensures ValidClaim(c, e) <==> Truthful(c, e)
  {
    if c.reported.Finite? && c.replicated.Finite? {
      if c.relativeDelta.Finite? {
        QuotientIs(c.relativeDelta.value, Abs(c.replicated.value - c.reported.value), Scale(c.reported.value));
      }
      if c.toleranceClass.Some? {
        WithinMeans(c.reported.value, c.replicated.value, c.toleranceClass.value);
      }
    }
  }

  /** Main result: what the validators accept, all of it and nothing else: a finalized PASS
      whose manifest is well formed and under its own digest, with one truthful claim for each
      headline in order, and the digest of the very numbers that the verifier printed. */
  lemma AcceptedExactly(s: Stored)
    ensures Accepted(s) <==>
      && s.pass && s.finalized && s.warnings.Some?
      && s.manifest.supported && s.manifest.combined == Combined(s.manifest.contents)
      && var m := s.manifest.contents;
         && m.code != map[] && (forall path | path in m.code :: m.code[path] != MalformedDigest)
         && m.headline != MalformedDigest && m.verifier != MalformedDigest
         && ValidAnalysis(m.analysis) && m.verifierPath == "empirics_verify" + m.analysis + ".py"
         && m.entries != [] && |s.claims| == |m.entries|
         && (forall i, j | 0 <= i < j < |m.entries| :: m.entries[i].claimId != m.entries[j].claimId)
         && (forall i | 0 <= i < |m.entries| :: m.entries[i].text != "" && Truthful(s.claims[i], m.entries[i]))
         && s.run.RunDigest? && |s.run.claims| == |s.claims|
         && forall i | 0 <= i < |s.claims| ::
              s.run.claims[i].0 == s.claims[i].claimId && Finite(s.run.claims[i].1) == s.claims[i].replicated
  {
    hide ValidAnalysis, ValidClaim, Truthful;
    var entries := s.manifest.contents.entries;
    forall i | 0 <= i < |entries| && i < |s.claims|
      ensures ValidClaim(s.claims[i], entries[i]) <==> Truthful(s.claims[i], entries[i])
    {
      TruthfulExactly(s.claims[i], entries[i]);
    }
    if |s.claims| == |entries| && forall i | 0 <= i < |entries| :: Truthful(s.claims[i], entries[i]) {
      EntriesTold(s.claims, entries);
      RunIs(s);
    }
  }

  lemma EntriesTold(claims: seq<Claim>, entries: seq<Entry>)
    requires |claims| == |entries| && forall i | 0 <= i < |entries| :: Truthful(claims[i], entries[i])
    ensures forall c | c in claims :: c.replicated.Finite?
    ensures GoodEntries(entries) <==>
      && entries != [] && (forall i | 0 <= i < |entries| :: entries[i].text != "")
      && (forall i, j | 0 <= i < j < |entries| :: entries[i].claimId != entries[j].claimId)
  {
    forall c | c in claims
      ensures c.replicated.Finite?
    {
      var i :| 0 <= i < |claims| && claims[i] == c;
      assert Truthful(claims[i], entries[i]);
    }
    forall e | e in entries
      ensures e.reported.Finite? && e.tolerance.Some?
    {
      var i :| 0 <= i < |entries| && entries[i] == e;
      assert Truthful(claims[i], entries[i]);
    }
    assert forall i | 0 <= i < |entries| :: entries[i] in entries;
  }

  lemma RunIs(s: Stored)
    requires forall c | c in s.claims :: c.replicated.Finite?
    ensures s.run == RunDigest(RunOf(s.claims)) <==>
      && s.run.RunDigest? && |s.run.claims| == |s.claims|
      && forall i | 0 <= i < |s.claims| ::
           s.run.claims[i].0 == s.claims[i].claimId && Finite(s.run.claims[i].1) == s.claims[i].replicated
  {
    if s.run.RunDigest? && |s.run.claims| == |s.claims| && forall i | 0 <= i < |s.claims| ::
         s.run.claims[i].0 == s.claims[i].claimId && Finite(s.run.claims[i].1) == s.claims[i].replicated
    {
      assert s.run.claims == RunOf(s.claims);
    }
  }

  /** A run that misses one headline by more than its tolerance gets no PASS, however good the
      rest is; and with the evidence complete, only that can be missing. */
  lemma ReproducedExactly(entries: seq<Entry>, run: seq<RunClaim>, evidence: seq<Evidence>)
    requires |run| == |evidence| == |entries| && GoodEntries(entries)
    requires forall i | 0 <= i < |entries| :: Described(entries[i], run[i], evidence[i])
    ensures AllReproduced(entries, run, evidence) <==> forall i | 0 <= i < |entries| :: Meets(entries[i], run[i])
  {
    forall i | 0 <= i < |entries|
      ensures Reproduces(entries[i], run[i], evidence[i]) <==> Meets(entries[i], run[i])
    {
      assert Described(entries[i], run[i], evidence[i]);
      WithinMeans(entries[i].reported.value, run[i].replicated.value, entries[i].tolerance.value);
    }
  }
}
