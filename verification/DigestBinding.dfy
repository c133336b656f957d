/**
 Binding of claimed content digests to the sources that the same row names: the map from
 names to digests, the digests each row may claim, and the verdict on a column.
 */
module DigestBinding {
  import opened Basics

  type Digest = string

  /** A fingerprinted file of the receipt. */
  datatype File = File(path: string, digest: Digest)

  const MIN_CELLS := 8
  const MIN_RESOLVED := 8

  // --- Names that identify one file ---------------------------------------------------------

  /** The digests recorded for a name: of the files with that path, or when no file has it as
      a path, of the files with that base name. */
  ghost predicate Recorded(files: seq<File>, base: string -> string, name: string, digest: Digest) {
    if IsPath(files, name) then File(name, digest) in files
    else exists f :: f in files && base(f.path) == name && f.digest == digest
  }

  ghost predicate IsPath(files: seq<File>, name: string) {
    exists f :: f in files && f.path == name
  }

  ghost predicate Unique(files: seq<File>, base: string -> string, name: string, digest: Digest) {
    Recorded(files, base, name, digest) && forall d | Recorded(files, base, name, d) :: d == digest
  }

  ghost predicate Conflicting(files: seq<File>, base: string -> string, name: string) {
    exists d, d' :: d != d' && Recorded(files, base, name, d) && Recorded(files, base, name, d')
  }

  datatype References = References(digests: map<string, Digest>, ambiguous: set<string>)

  ghost predicate IsReferenceMap(files: seq<File>, base: string -> string, r: References) {
    && (forall name, d :: name in r.digests && r.digests[name] == d <==> Unique(files, base, name, d))
    && (forall name :: name in r.ambiguous <==> Conflicting(files, base, name))
  }

  function Add(m: map<string, set<Digest>>, name: string, d: Digest): map<string, set<Digest>> {
    m[name := (if name in m then m[name] else {}) + {d}]
  }

  predicate In(m: map<string, set<Digest>>, name: string, d: Digest) {
    name in m && d in m[name]
  }

  ghost predicate Grouped(files: seq<File>, key: string -> string, m: map<string, set<Digest>>) {
    && (forall name | name in m :: m[name] != {})
    && (forall name, d :: In(m, name, d) <==> exists f :: f in files && key(f.path) == name && f.digest == d)
  }

  lemma GroupedStep(files: seq<File>, key: string -> string, m: map<string, set<Digest>>, f: File)
    requires Grouped(files, key, m)
    ensures Grouped(files + [f], key, Add(m, key(f.path), f.digest))
  {
    var m' := Add(m, key(f.path), f.digest);
    forall name, d
      ensures In(m', name, d) <==> exists g :: g in files + [f] && key(g.path) == name && g.digest == d
    {
      assert In(m', name, d) <==> In(m, name, d) || (name == key(f.path) && d == f.digest);
      assert f in files + [f];
    }
  }

  ghost predicate Same(r: References, r0: References, name: string) {
    && (name in r.digests <==> name in r0.digests) && (name in r0.digests ==> r.digests[name] == r0.digests[name])
    && (name in r.ambiguous <==> name in r0.ambiguous)
  }

  ghost predicate Resolved(r: References, name: string, digests: set<Digest>) {
    && (forall d :: name in r.digests && r.digests[name] == d <==> digests == {d})
    && (name in r.ambiguous <==> |digests| != 1)
  }

  lemma OnlyElement(s: set<Digest>, d: Digest)
    requires |s| == 1 && d in s
    ensures s == {d}
  {
    assert |s - {d}| == 0;
  }

  method ResolveOne(name: string, digests: set<Digest>, r0: References) returns (r: References)
    requires name !in r0.digests && name !in r0.ambiguous
    ensures Resolved(r, name, digests)
    ensures forall other | other != name :: Same(r, r0, other)
  {
    if |digests| == 1 {
      var d :| d in digests;
      OnlyElement(digests, d);
      r := r0.(digests := r0.digests[name := d]);
    } else {
      r := r0.(ambiguous := r0.ambiguous + {name});
    }
  }

  /** The names outside `todo` are resolved, and nothing is said of the others yet. */
  ghost predicate Resolving(m: map<string, set<Digest>>, done: set<string>, r0: References, r: References) {
    && (forall name | name !in done :: Same(r, r0, name))
    && forall name | name in done && name in m :: Resolved(r, name, m[name])
  }

  lemma NotYet(m: map<string, set<Digest>>, done: set<string>, r0: References, r: References, name: string)
    requires Resolving(m, done, r0, r) && name !in done && name !in r0.digests && name !in r0.ambiguous
    ensures name !in r.digests && name !in r.ambiguous
  {
    assert Same(r, r0, name);
  }

  lemma ResolvingStep(m: map<string, set<Digest>>, done: set<string>, name: string, r0: References, r: References,
                      next: References)
    requires name in m && name !in done && Resolving(m, done, r0, r)
    requires Resolved(next, name, m[name]) && forall other | other != name :: Same(next, r, other)
    ensures Resolving(m, done + {name}, r0, next)
  {
    forall other | other !in done + {name}
      ensures Same(next, r0, other)
    {
      assert Same(next, r, other) && Same(r, r0, other);
    }
    forall other | other in done + {name} && other in m
      ensures Resolved(next, other, m[other])
    {
      if other != name {
        assert Resolved(r, other, m[other]) && Same(next, r, other);
      }
    }
  }

  lemma ResolvingNone(m: map<string, set<Digest>>, done: set<string>, r0: References)
    requires done == {}
    ensures Resolving(m, done, r0, r0)
  {
  }

  lemma Shrink(names: set<string>, todo: set<string>, name: string)
    requires name in todo && todo <= names
    ensures names - (todo - {name}) == (names - todo) + {name}
  {
  }

  /** Sorts names into those with one digest and those with several. */
  method Resolve(m: map<string, set<Digest>>, skip: set<string>, r0: References) returns (r: References)
    requires forall name | name in m && name !in skip :: name !in r0.digests && name !in r0.ambiguous
    ensures Resolving(m, m.Keys - skip, r0, r)
  {
    hide Same, Resolved, Resolving;
    ghost var names := m.Keys - skip;
    var todo := m.Keys - skip;
    r := r0;
    ResolvingNone(m, names - todo, r0);
    while todo != {}
      invariant todo <= names && Resolving(m, names - todo, r0, r)
      decreases |todo|
    {
      var name :| name in todo;
      NotYet(m, names - todo, r0, r, name);
      var next := ResolveOne(name, m[name], r);
      ResolvingStep(m, names - todo, name, r0, r, next);
      Shrink(names, todo, name);
      todo, r := todo - {name}, next;
    }
    assert names - todo == names;
  }

  /** What the digests grouped under a name say about it. */
  lemma GroupMeans(digests: set<Digest>, files: seq<File>, base: string -> string, name: string, r: References)
    requires digests != {} && Resolved(r, name, digests)
    requires forall d :: d in digests <==> Recorded(files, base, name, d)
    ensures forall d :: name in r.digests && r.digests[name] == d <==> Unique(files, base, name, d)
    ensures name in r.ambiguous <==> Conflicting(files, base, name)
  {
    var d0 :| d0 in digests;
    forall d
      ensures digests == {d} <==> Unique(files, base, name, d)
    {
    }
    if |digests| == 1 {
      OnlyElement(digests, d0);
    } else {
      assert digests != {d0};
      var d1 :| d1 in digests && d1 != d0;
      assert Recorded(files, base, name, d0) && Recorded(files, base, name, d1);
    }
  }

  lemma GroupsMean(files: seq<File>, base: string -> string,
                   byPath: map<string, set<Digest>>, byBase: map<string, set<Digest>>,
                   r: References, name: string)
    requires Grouped(files, path => path, byPath) && Grouped(files, base, byBase)
    requires name in byPath ==> Resolved(r, name, byPath[name])
    requires name in byBase && name !in byPath ==> Resolved(r, name, byBase[name])
    requires name !in byPath && name !in byBase ==> name !in r.digests && name !in r.ambiguous
    ensures forall d :: name in r.digests && r.digests[name] == d <==> Unique(files, base, name, d)
    ensures name in r.ambiguous <==> Conflicting(files, base, name)
  {
    PathGroup(files, byPath, name);
    BaseGroup(files, base, byBase, name);
    if name in byPath {
      forall d
        ensures d in byPath[name] <==> Recorded(files, base, name, d)
      {
        assert In(byPath, name, d) <==> File(name, d) in files;
      }
      GroupMeans(byPath[name], files, base, name, r);
    } else if name in byBase {
      forall d
        ensures d in byBase[name] <==> Recorded(files, base, name, d)
      {
        assert In(byBase, name, d) <==> d in byBase[name];
      }
      GroupMeans(byBase[name], files, base, name, r);
    }
  }

  lemma PathGroup(files: seq<File>, m: map<string, set<Digest>>, name: string)
    requires Grouped(files, path => path, m)
    ensures name in m <==> IsPath(files, name)
    ensures forall d :: In(m, name, d) <==> File(name, d) in files
  {
    forall d
      ensures In(m, name, d) <==> File(name, d) in files
    {
      if In(m, name, d) {
        var f :| f in files && f.path == name && f.digest == d;
        assert f == File(name, d);
      }
    }
    if name in m {
      var d :| d in m[name];
      assert In(m, name, d);
    }
    if IsPath(files, name) {
      var f :| f in files && f.path == name;
      assert In(m, name, f.digest);
    }
  }

  lemma BaseGroup(files: seq<File>, base: string -> string, m: map<string, set<Digest>>, name: string)
    requires Grouped(files, base, m)
    ensures name in m <==> exists f :: f in files && base(f.path) == name
  {
    if name in m {
      var d :| d in m[name];
      assert In(m, name, d);
    }
    if exists f :: f in files && base(f.path) == name {
      var f :| f in files && base(f.path) == name;
      assert In(m, name, f.digest);
    }
  }

  /** The first loop: digests by path and by base name. */
  method Group(files: seq<File>, base: string -> string)
    returns (byPath: map<string, set<Digest>>, byBase: map<string, set<Digest>>)
    ensures Grouped(files, path => path, byPath) && Grouped(files, base, byBase)
  {
    byPath, byBase := map[], map[];
    var i := 0;
    while i < |files|
      invariant 0 <= i <= |files|
      invariant Grouped(files[..i], path => path, byPath) && Grouped(files[..i], base, byBase)
    {
      var f := files[i];
      GroupedStep(files[..i], path => path, byPath, f);
      GroupedStep(files[..i], base, byBase, f);
      assert files[..i + 1] == files[..i] + [f];
      byPath, byBase := Add(byPath, f.path, f.digest), Add(byBase, base(f.path), f.digest);
      i := i + 1;
    }
    assert files[..i] == files;
  }

  /** `_reference_map`, in two passes: a path wins over the base name of another file. */
  method ReferenceMap(files: seq<File>, base: string -> string) returns (r: References)
    ensures IsReferenceMap(files, base, r)
  {
    var byPath, byBase := Group(files, base);
    var paths := Resolve(byPath, {}, References(map[], {}));
    assert forall name | name !in byPath :: Same(paths, References(map[], {}), name);
    r := Resolve(byBase, byPath.Keys, paths);
    forall name: string
      ensures forall d :: name in r.digests && r.digests[name] == d <==> Unique(files, base, name, d)
      ensures name in r.ambiguous <==> Conflicting(files, base, name)
    {
      if name in byPath {
        assert Resolved(paths, name, byPath[name]) && Same(r, paths, name);
      } else {
        assert Same(paths, References(map[], {}), name);
        assert if name in byBase then Resolved(r, name, byBase[name]) else Same(r, paths, name);
      }
      GroupsMean(files, base, byPath, byBase, r, name);
    }
  }

  lemma SameRecorded(files: seq<File>, files': seq<File>, base: string -> string, name: string, d: Digest)
    requires forall f :: f in files <==> f in files'
    ensures Recorded(files, base, name, d) <==> Recorded(files', base, name, d)
  {
  }

  lemma SameUnique(files: seq<File>, files': seq<File>, base: string -> string, name: string, d: Digest)
    requires forall f :: f in files <==> f in files'
    requires Unique(files, base, name, d)
    ensures Unique(files', base, name, d)
  {
    SameRecorded(files, files', base, name, d);
    forall e | Recorded(files', base, name, e)
      ensures e == d
    {
      SameRecorded(files, files', base, name, e);
    }
  }

  lemma SameConflict(files: seq<File>, files': seq<File>, base: string -> string, name: string)
    requires forall f :: f in files <==> f in files'
    requires Conflicting(files, base, name)
    ensures Conflicting(files', base, name)
  {
    var d, d' :| d != d' && Recorded(files, base, name, d) && Recorded(files, base, name, d');
    SameRecorded(files, files', base, name, d);
    SameRecorded(files, files', base, name, d');
  }

  /** Main result: the order in which the receipt lists its records cannot matter. */
  lemma OrderIrrelevant(files: seq<File>, files': seq<File>, base: string -> string, r: References, r': References)
    requires forall f :: f in files <==> f in files'
    requires IsReferenceMap(files, base, r) && IsReferenceMap(files', base, r')
    ensures r == r'
  {
    forall name: string
      ensures name in r.digests ==> name in r'.digests && r'.digests[name] == r.digests[name]
      ensures name in r'.digests ==> name in r.digests
      ensures name in r.ambiguous <==> name in r'.ambiguous
    {
      if name in r.digests {
        SameUnique(files, files', base, name, r.digests[name]);
      }
      if name in r'.digests {
        SameUnique(files', files, base, name, r'.digests[name]);
      }
      if name in r.ambiguous {
        SameConflict(files, files', base, name);
      }
      if name in r'.ambiguous {
        SameConflict(files', files, base, name);
      }
    }
  }

  /** A name is resolved or ambiguous or neither, never both. */
  lemma ResolvedOrAmbiguous(files: seq<File>, base: string -> string, r: References, name: string)
    requires IsReferenceMap(files, base, r)
    ensures !(name in r.digests && name in r.ambiguous)
    ensures name in r.digests || name in r.ambiguous <==> exists d :: Recorded(files, base, name, d)
  {
    if name in r.digests {
      assert Unique(files, base, name, r.digests[name]);
    }
    if exists d :: Recorded(files, base, name, d) {
      var d :| Recorded(files, base, name, d);
      if name !in r.ambiguous {
        assert Unique(files, base, name, d);
      }
    }
  }

  // --- Rows ---------------------------------------------------------------------------------

  /** A table cell: its stripped text, the digest when the whole of it is one, and whether it
      is a bare integer. A blank cell has no text. */
  datatype Cell = Cell(name: string, digest: Option<Digest>, integer: bool)

  datatype Column = Column(name: string, cells: seq<Cell>)

  datatype Evidence = Evidence(inputs: map<string, Digest>, artifacts: map<string, Digest>, all: set<Digest>)

  function Names(cells: seq<Cell>): set<string> {
    set c | c in cells && c.name != "" :: c.name
  }

  /** A column that refers to files: one name that could only be a file's, and enough of them. */
  predicate Refers(e: Evidence, c: Column) {
    var resolved := Names(c.cells) * (e.inputs.Keys + e.artifacts.Keys);
    && (exists cell :: cell in c.cells && cell.name in resolved && !cell.integer)
    && (2 * |resolved| >= |Names(c.cells)| || |resolved| >= MIN_RESOLVED)
  }

  method Select(columns: seq<Column>, fits: Column -> bool) returns (r: seq<Column>)
    ensures forall c :: c in r <==> c in columns && fits(c)
  {
    r := [];
    var i := 0;
    while i < |columns|
      invariant 0 <= i <= |columns|
      invariant forall c :: c in r <==> c in columns[..i] && fits(c)
    {
      assert columns[..i + 1] == columns[..i] + [columns[i]];
      if fits(columns[i]) {
        r := r + [columns[i]];
      }
      i := i + 1;
    }
    assert columns[..i] == columns;
  }

  /** `_reference_columns`. */
  method ReferenceColumns(e: Evidence, columns: seq<Column>) returns (r: seq<Column>)
    ensures forall c :: c in r <==> c in columns && Refers(e, c)
  {
    r := Select(columns, c => Refers(e, c));
  }

  /** Row `row` of some reference column names a file of this map, with this digest. */
  ghost predicate CellNames(c: Column, m: map<string, Digest>, row: nat, d: Digest) {
    row < |c.cells| && c.cells[row].name in m && m[c.cells[row].name] == d
  }

  ghost predicate RowNames(columns: seq<Column>, m: map<string, Digest>, row: nat, d: Digest) {
    exists c :: c in columns && CellNames(c, m, row, d)
  }

  ghost predicate RowsOf(columns: seq<Column>, m: map<string, Digest>, rows: seq<set<Digest>>) {
    forall row: nat, d | row < |rows| :: d in rows[row] <==> RowNames(columns, m, row, d)
  }

  function AddAt(rows: seq<set<Digest>>, m: map<string, Digest>, row: nat, name: string): (r: seq<set<Digest>>)
    ensures |r| == |rows|
  {
    if row < |rows| && name in m then rows[row := rows[row] + {m[name]}] else rows
  }

  /** One column's contribution, up to its first n cells. */
  ghost predicate RowsWith(columns: seq<Column>, c: Column, n: nat, m: map<string, Digest>, rows: seq<set<Digest>>) {
    forall row: nat, d | row < |rows| :: d in rows[row] <==>
      RowNames(columns, m, row, d) || (row < n && CellNames(c, m, row, d))
  }

  /** `_row_reference_digests`. */
  method RowReferences(columns: seq<Column>, e: Evidence, count: nat)
    returns (inputs: seq<set<Digest>>, artifacts: seq<set<Digest>>)
    ensures |inputs| == |artifacts| == count
    ensures RowsOf(columns, e.inputs, inputs) && RowsOf(columns, e.artifacts, artifacts)
  {
    inputs, artifacts := seq(count, i => {}), seq(count, i => {});
    var k := 0;
    while k < |columns|
      invariant 0 <= k <= |columns| && |inputs| == |artifacts| == count
      invariant RowsOf(columns[..k], e.inputs, inputs) && RowsOf(columns[..k], e.artifacts, artifacts)
    {
      var c := columns[k];
      var i := 0;
      while i < |c.cells| && i < count
        invariant 0 <= i <= |c.cells| && i <= count && |inputs| == |artifacts| == count
        invariant RowsWith(columns[..k], c, i, e.inputs, inputs) && RowsWith(columns[..k], c, i, e.artifacts, artifacts)
      {
        inputs := AddAt(inputs, e.inputs, i, c.cells[i].name);
        artifacts := AddAt(artifacts, e.artifacts, i, c.cells[i].name);
        i := i + 1;
      }
      RowsJoin(columns, k, i, e.inputs, inputs);
      RowsJoin(columns, k, i, e.artifacts, artifacts);
      k := k + 1;
    }
    assert columns[..k] == columns;
  }

  lemma RowsJoin(columns: seq<Column>, k: nat, n: nat, m: map<string, Digest>, rows: seq<set<Digest>>)
    requires k < |columns| && RowsWith(columns[..k], columns[k], n, m, rows)
    requires n >= |columns[k].cells| || n >= |rows|
    ensures RowsOf(columns[..k + 1], m, rows)
  {
    assert columns[..k + 1] == columns[..k] + [columns[k]];
    forall row: nat, d | row < |rows|
      ensures d in rows[row] <==> RowNames(columns[..k + 1], m, row, d)
    {
      assert RowNames(columns[..k + 1], m, row, d) <==>
        RowNames(columns[..k], m, row, d) || CellNames(columns[k], m, row, d) by {
        assert columns[k] in columns[..k + 1];
      }
    }
  }

  // --- The verdict on a column -----------------------------------------------------------------

  /** What a claimed digest is bound to: an input of its row, else an artifact of its row, else
      nothing although the row names something, else nothing because the row names nothing. */
  datatype Bound = ToInput | ToArtifact | Unbound | Unnamed

  datatype Binding = SetMembership | Partial | RowScoped | SelfManifest | Mixed

  datatype Verdict = Pass | Warn | Fail

  datatype Finding = Finding(
    column: string, verdict: Verdict, binding: Binding, cells: nat, toInput: nat, toArtifact: nat, unnamed: nat,
    mismatched: set<Digest>, unresolved: set<Digest>, plain: int)

  type Claim = (nat, Digest)

  function Claims(cells: seq<Cell>, n: nat): (claims: seq<Claim>)
    requires n <= |cells|
  {
    if n == 0 then []
    else Claims(cells, n - 1) +
         if cells[n - 1].name != "" && cells[n - 1].digest.Some? then [(n - 1, cells[n - 1].digest.value)] else []
  }

  lemma {:induction false} ClaimsAre(cells: seq<Cell>, n: nat, i: nat, d: Digest)
    requires n <= |cells|
    ensures (i, d) in Claims(cells, n) <==> i < n && cells[i].name != "" && cells[i].digest == Some(d)
  {
    if n > 0 {
      ClaimsAre(cells, n - 1, i, d);
    }
  }

  function RowAt(rows: seq<set<Digest>>, i: nat): set<Digest> {
    if i < |rows| then rows[i] else {}
  }

  function BoundOf(inputs: seq<set<Digest>>, artifacts: seq<set<Digest>>, c: Claim): Bound {
    if c.1 in RowAt(inputs, c.0) then ToInput
    else if c.1 in RowAt(artifacts, c.0) then ToArtifact
    else if RowAt(inputs, c.0) + RowAt(artifacts, c.0) != {} then Unbound
    else Unnamed
  }

  function Tally(bounds: seq<Bound>, b: Bound): nat {
    if bounds == [] then 0 else Tally(bounds[..|bounds| - 1], b) + if bounds[|bounds| - 1] == b then 1 else 0
  }

  function BoundsOf(inputs: seq<set<Digest>>, artifacts: seq<set<Digest>>, claims: seq<Claim>): seq<Bound> {
    seq(|claims|, i requires 0 <= i < |claims| => BoundOf(inputs, artifacts, claims[i]))
  }

  lemma {:induction false} TallyAll(bounds: seq<Bound>)
    ensures Tally(bounds, ToInput) + Tally(bounds, ToArtifact) + Tally(bounds, Unbound) +
            Tally(bounds, Unnamed) == |bounds|
  {
    if bounds != [] {
      TallyAll(bounds[..|bounds| - 1]);
    }
  }

  lemma {:induction false} TallyZero(bounds: seq<Bound>, b: Bound)
    ensures Tally(bounds, b) == 0 <==> b !in bounds
  {
    if bounds != [] {
      TallyZero(bounds[..|bounds| - 1], b);
      assert bounds == bounds[..|bounds| - 1] + [bounds[|bounds| - 1]];
    }
  }

  function Present(cells: seq<Cell>): nat {
    if cells == [] then 0 else Present(cells[..|cells| - 1]) + if cells[|cells| - 1].name != "" then 1 else 0
  }

  /** Enough of the column's cells are digests. */
  predicate IsDigestColumn(claims: nat, present: nat) {
    claims > 0 && (2 * claims >= present || claims >= MIN_CELLS)
  }

  ghost predicate Unresolved(e: Evidence, claims: seq<Claim>, bounds: seq<Bound>)
    requires |bounds| == |claims|
  {
    exists i :: 0 <= i < |claims| && bounds[i].Unnamed? && claims[i].1 !in e.all
  }

  /** The column's verdict, by what its claims are bound to. */
  ghost predicate Judged(e: Evidence, derived: bool, claims: seq<Claim>, bounds: seq<Bound>, f: Finding)
    requires |bounds| == |claims|
  {
    && (f.verdict.Pass? <==> Tally(bounds, Unbound) == 0 && Tally(bounds, Unnamed) == 0)
    && (f.verdict.Fail? <==> !derived && (Tally(bounds, Unbound) > 0 || Unresolved(e, claims, bounds)))
    && (f.verdict.Pass? ==>
          && (f.binding.RowScoped? <==> Tally(bounds, ToArtifact) == 0)
          && (f.binding.SelfManifest? <==> Tally(bounds, ToInput) == 0)
          && (f.binding.Mixed? <==> Tally(bounds, ToInput) > 0 && Tally(bounds, ToArtifact) > 0))
    && (f.binding.SetMembership? <==> Tally(bounds, Unnamed) == |claims|)
    && (f.binding.Partial? <==> 0 < Tally(bounds, Unnamed) < |claims|)
    && f.cells == |claims| && f.toInput == Tally(bounds, ToInput) && f.toArtifact == Tally(bounds, ToArtifact)
    && f.unnamed == Tally(bounds, Unnamed)
  }

  datatype Counts = Counts(toInput: nat, toArtifact: nat, unnamed: nat, namedInput: nat, namedArtifact: nat,
                           mismatched: seq<Digest>, unresolved: set<Digest>)

  ghost predicate Counted(e: Evidence, claims: seq<Claim>, bounds: seq<Bound>, c: Counts)
    requires |bounds| == |claims|
  {
    && c.toInput == Tally(bounds, ToInput) && c.toArtifact == Tally(bounds, ToArtifact)
    && c.unnamed == Tally(bounds, Unnamed) && |c.mismatched| == Tally(bounds, Unbound)
    && (c.unresolved != {} <==> Unresolved(e, claims, bounds))
  }

  /** One more claimed cell. */
  ghost predicate OneMore(e: Evidence, c: Counts, claim: Claim, b: Bound, c': Counts) {
    && c'.toInput == c.toInput + (if b.ToInput? then 1 else 0)
    && c'.toArtifact == c.toArtifact + (if b.ToArtifact? then 1 else 0)
    && c'.unnamed == c.unnamed + (if b.Unnamed? then 1 else 0)
    && |c'.mismatched| == |c.mismatched| + (if b.Unbound? then 1 else 0)
    && c'.unresolved == c.unresolved + (if b.Unnamed? && claim.1 !in e.all then {claim.1} else {})
  }

  lemma CountsStep(e: Evidence, claims: seq<Claim>, bounds: seq<Bound>, c: Counts, claim: Claim, b: Bound, c': Counts)
    requires |bounds| == |claims| && Counted(e, claims, bounds, c) && OneMore(e, c, claim, b, c')
    ensures Counted(e, claims + [claim], bounds + [b], c')
  {
    assert (bounds + [b])[..|bounds|] == bounds;
    var n := |bounds|;
    if b.Unnamed? && claim.1 !in e.all {
      assert claim.1 in c'.unresolved;
      assert (bounds + [b])[n].Unnamed? && (claims + [claim])[n].1 !in e.all;
    } else if Unresolved(e, claims, bounds) {
      var i :| 0 <= i < n && bounds[i].Unnamed? && claims[i].1 !in e.all;
      assert (bounds + [b])[i].Unnamed? && (claims + [claim])[i].1 !in e.all;
    }
  }

  method CountOne(e: Evidence, c: Counts, claim: Claim, inputs: seq<set<Digest>>, artifacts: seq<set<Digest>>)
    returns (r: Counts)
    ensures OneMore(e, c, claim, BoundOf(inputs, artifacts, claim), r)
  {
    var (fromInputs, fromArtifacts) := (RowAt(inputs, claim.0), RowAt(artifacts, claim.0));
    r := c.(namedInput := c.namedInput + if fromInputs != {} then 1 else 0,
            namedArtifact := c.namedArtifact + if fromArtifacts != {} then 1 else 0);
    if fromInputs != {} || fromArtifacts != {} {
      if claim.1 in fromInputs {
        r := r.(toInput := r.toInput + 1);
      } else if claim.1 in fromArtifacts {
        r := r.(toArtifact := r.toArtifact + 1);
      } else {
        r := r.(mismatched := r.mismatched + [claim.1]);
      }
    } else {
      r := r.(unnamed := r.unnamed + 1);
      if claim.1 !in e.all {
        r := r.(unresolved := r.unresolved + {claim.1});
      }
    }
  }

  /** The loop over the claimed cells. */
  method CountBounds(e: Evidence, claims: seq<Claim>, inputs: seq<set<Digest>>, artifacts: seq<set<Digest>>)
    returns (c: Counts)
    ensures Counted(e, claims, BoundsOf(inputs, artifacts, claims), c)
  {
    c := Counts(0, 0, 0, 0, 0, [], {});
    var i := 0;
    while i < |claims|
      invariant 0 <= i <= |claims|
      invariant Counted(e, claims[..i], BoundsOf(inputs, artifacts, claims[..i]), c)
    {
      var next := CountOne(e, c, claims[i], inputs, artifacts);
      var bounds := BoundsOf(inputs, artifacts, claims[..i]);
      CountsStep(e, claims[..i], bounds, c, claims[i], BoundOf(inputs, artifacts, claims[i]), next);
      assert claims[..i + 1] == claims[..i] + [claims[i]];
      assert BoundsOf(inputs, artifacts, claims[..i + 1]) == bounds + [BoundOf(inputs, artifacts, claims[i])];
      c := next;
      i := i + 1;
    }
    assert claims[..i] == claims;
  }

  /** `check_digest_provenance`, for one column. */
  method CheckColumn(e: Evidence, derived: bool, column: Column, inputs: seq<set<Digest>>, artifacts: seq<set<Digest>>)
    returns (r: Option<Finding>)
    ensures var claims := Claims(column.cells, |column.cells|);
      && (r.Some? <==> |claims| > 0 && (2 * |claims| >= Present(column.cells) || |claims| >= 8))
      && (r.Some? ==>
            r.value.column == column.name && Judged(e, derived, claims, BoundsOf(inputs, artifacts, claims), r.value))
  {
    var claims := Claims(column.cells, |column.cells|);
    if !IsDigestColumn(|claims|, Present(column.cells)) {
      return None;
    }
    var c := CountBounds(e, claims, inputs, artifacts);
    ghost var bounds := BoundsOf(inputs, artifacts, claims);
    TallyAll(bounds);
    TallyZero(bounds, Unnamed);
    assert Unresolved(e, claims, bounds) ==> Unnamed in bounds;
    var binding;
    if c.unnamed == |claims| {
      binding := SetMembership;
    } else if c.unnamed > 0 {
      binding := Partial;
    } else {
      var fromSources, fromArtifacts := c.toInput, c.toArtifact;
      if c.toInput == 0 && c.toArtifact == 0 {
        fromSources, fromArtifacts := c.namedInput, c.namedArtifact;
      }
      binding := if fromArtifacts == 0 then RowScoped else if fromSources == 0 then SelfManifest else Mixed;
    }
    var verdict;
    if c.mismatched == [] && c.unresolved == {} {
      verdict := if binding.RowScoped? || binding.SelfManifest? || binding.Mixed? then Pass else Warn;
    } else {
      verdict := if derived then Warn else Fail;
    }
    r := Some(Finding(column.name, verdict, binding, |claims|, c.toInput, c.toArtifact, c.unnamed,
                      (set d | d in c.mismatched), c.unresolved, Present(column.cells) - |claims|));
  }

  // --- What a PASS is worth ------------------------------------------------------------------

  predicate CellIs(c: Column, row: nat, names: set<string>) {
    row < |c.cells| && c.cells[row].name in names
  }

  /** In this row, a reference column names the file, by its path or its base name. */
  ghost predicate RowNamesFile(columns: seq<Column>, base: string -> string, files: seq<File>, row: nat, f: File) {
    f in files && exists c :: c in columns && CellIs(c, row, {f.path, base(f.path)})
  }

  lemma NamedFile(columns: seq<Column>, base: string -> string, files: seq<File>, r: References, row: nat, d: Digest)
    requires IsReferenceMap(files, base, r) && RowNames(columns, r.digests, row, d)
    ensures exists f :: RowNamesFile(columns, base, files, row, f) && f.digest == d
  {
    var c :| c in columns && CellNames(c, r.digests, row, d);
    var name := c.cells[row].name;
    assert Unique(files, base, name, d);
    if IsPath(files, name) {
      assert CellIs(c, row, {name, base(name)});
      assert RowNamesFile(columns, base, files, row, File(name, d));
    } else {
      var f :| f in files && base(f.path) == name && f.digest == d;
      assert CellIs(c, row, {f.path, base(f.path)});
      assert RowNamesFile(columns, base, files, row, f);
    }
  }

  /** Everything that one table's check has in hand. */
  ghost predicate Checked(e: Evidence, base: string -> string, inputFiles: seq<File>, artifactFiles: seq<File>,
                          refs: seq<Column>, inputs: seq<set<Digest>>, artifacts: seq<set<Digest>>,
                          derived: bool, column: Column, f: Finding) {
    && (exists r :: IsReferenceMap(inputFiles, base, r) && r.digests == e.inputs)
    && (exists r :: IsReferenceMap(artifactFiles, base, r) && r.digests == e.artifacts)
    && RowsOf(refs, e.inputs, inputs) && RowsOf(refs, e.artifacts, artifacts)
    && var claims := Claims(column.cells, |column.cells|);
       && IsDigestColumn(|claims|, Present(column.cells))
       && Judged(e, derived, claims, BoundsOf(inputs, artifacts, claims), f)
  }

  /** Main result: when a digest column passes, every digest that a cell claims is the digest
      of a declared file which that cell's own row names: an input when the verdict is
      row-scoped, an artifact of the build when it is a self-manifest. */
  lemma PassIsBound(e: Evidence, base: string -> string, inputFiles: seq<File>, artifactFiles: seq<File>,
                    refs: seq<Column>, inputs: seq<set<Digest>>, artifacts: seq<set<Digest>>,
                    derived: bool, column: Column, f: Finding, row: nat, d: Digest)
    requires Checked(e, base, inputFiles, artifactFiles, refs, inputs, artifacts, derived, column, f) && f.verdict.Pass?
    requires row < |column.cells| && column.cells[row].name != "" && column.cells[row].digest == Some(d)
    ensures f.binding.RowScoped? || f.binding.SelfManifest? || f.binding.Mixed?
    ensures (exists x :: RowNamesFile(refs, base, inputFiles, row, x) && x.digest == d) || !f.binding.RowScoped?
    ensures (exists x :: RowNamesFile(refs, base, artifactFiles, row, x) && x.digest == d) || !f.binding.SelfManifest?
    ensures || (exists x :: RowNamesFile(refs, base, inputFiles, row, x) && x.digest == d)
            || (exists x :: RowNamesFile(refs, base, artifactFiles, row, x) && x.digest == d)
  {
    var claims := Claims(column.cells, |column.cells|);
    var bounds := BoundsOf(inputs, artifacts, claims);
    ClaimsAre(column.cells, |column.cells|, row, d);
    var k :| 0 <= k < |claims| && claims[k] == (row, d);
    assert bounds[k] == BoundOf(inputs, artifacts, (row, d)) && bounds[k] in bounds;
    TallyZero(bounds, ToInput);
    TallyZero(bounds, ToArtifact);
    TallyZero(bounds, Unbound);
    TallyZero(bounds, Unnamed);
    TallyAll(bounds);
    if bounds[k].ToInput? {
      var r :| IsReferenceMap(inputFiles, base, r) && r.digests == e.inputs;
      NamedFile(refs, base, inputFiles, r, row, d);
    } else {
      var r :| IsReferenceMap(artifactFiles, base, r) && r.digests == e.artifacts;
      NamedFile(refs, base, artifactFiles, r, row, d);
    }
  }

  predicate Claimed(column: Column, row: nat, d: Digest) {
    row < |column.cells| && column.cells[row].name != "" && column.cells[row].digest == Some(d)
  }

  lemma TallyMeans(column: Column, inputs: seq<set<Digest>>, artifacts: seq<set<Digest>>, b: Bound)
    ensures Tally(BoundsOf(inputs, artifacts, Claims(column.cells, |column.cells|)), b) > 0 <==>
      exists row: nat, d :: Claimed(column, row, d) && BoundOf(inputs, artifacts, (row, d)) == b
  {
    hide BoundOf, Tally;
    var claims := Claims(column.cells, |column.cells|);
    var bounds := BoundsOf(inputs, artifacts, claims);
    TallyZero(bounds, b);
    if b in bounds {
      var k :| 0 <= k < |bounds| && bounds[k] == b;
      var (row, d) := claims[k];
      assert (row, d) in claims;
      ClaimsAre(column.cells, |column.cells|, row, d);
      assert Claimed(column, row, d);
    }
    forall row: nat, d | Claimed(column, row, d) && BoundOf(inputs, artifacts, (row, d)) == b
      ensures b in bounds
    {
      ClaimsAre(column.cells, |column.cells|, row, d);
      var k :| 0 <= k < |claims| && claims[k] == (row, d);
      assert bounds[k] == b;
    }
  }

  /** The row names some file of these. */
  ghost predicate RowNamesAny(columns: seq<Column>, e: Evidence, row: nat) {
    exists d :: RowNames(columns, e.inputs, row, d) || RowNames(columns, e.artifacts, row, d)
  }

  lemma BoundExactly(refs: seq<Column>, e: Evidence, inputs: seq<set<Digest>>, artifacts: seq<set<Digest>>,
                     row: nat, d: Digest)
    requires RowsOf(refs, e.inputs, inputs) && RowsOf(refs, e.artifacts, artifacts)
    requires row < |inputs| && row < |artifacts|
    ensures BoundOf(inputs, artifacts, (row, d)).ToInput? <==> RowNames(refs, e.inputs, row, d)
    ensures BoundOf(inputs, artifacts, (row, d)).ToArtifact? <==>
      !RowNames(refs, e.inputs, row, d) && RowNames(refs, e.artifacts, row, d)
    ensures BoundOf(inputs, artifacts, (row, d)).Unnamed? <==> !RowNamesAny(refs, e, row)
  {
    hide RowNames;
    if RowNamesAny(refs, e, row) {
      var x :| RowNames(refs, e.inputs, row, x) || RowNames(refs, e.artifacts, row, x);
      assert x in inputs[row] || x in artifacts[row];
    } else {
      assert forall x :: x !in inputs[row] && x !in artifacts[row];
    }
  }

  ghost predicate RowBinds(refs: seq<Column>, e: Evidence, row: nat, d: Digest) {
    RowNames(refs, e.inputs, row, d) || RowNames(refs, e.artifacts, row, d)
  }

  /** Main result: what a verdict means. A column passes exactly when the row of every claimed
      digest names a file with that digest, and is row-scoped exactly when those are inputs. It
      fails exactly when, in a column that is not derived, the row of a claimed digest names
      only other files, or none while the digest is that of no file at all. */
  lemma VerdictExactly(refs: seq<Column>, e: Evidence, inputs: seq<set<Digest>>, artifacts: seq<set<Digest>>,
                       derived: bool, column: Column, f: Finding)
    requires RowsOf(refs, e.inputs, inputs) && RowsOf(refs, e.artifacts, artifacts)
    requires |column.cells| <= |inputs| == |artifacts|
    requires var claims := Claims(column.cells, |column.cells|);
      Judged(e, derived, claims, BoundsOf(inputs, artifacts, claims), f)
    ensures f.verdict.Pass? <==> forall row: nat, d | Claimed(column, row, d) :: RowBinds(refs, e, row, d)
    ensures f.verdict.Pass? ==>
      (f.binding.RowScoped? <==> forall row: nat, d | Claimed(column, row, d) :: RowNames(refs, e.inputs, row, d))
    ensures f.verdict.Fail? <==> !derived && exists row: nat, d ::
      Claimed(column, row, d) && !RowBinds(refs, e, row, d) && (RowNamesAny(refs, e, row) || d !in e.all)
  {
    hide RowsOf, RowNames, BoundOf, BoundsOf, Tally, RowNamesAny, Unresolved;
    var claims := Claims(column.cells, |column.cells|);
    TallyMeans(column, inputs, artifacts, ToInput);
    TallyMeans(column, inputs, artifacts, ToArtifact);
    TallyMeans(column, inputs, artifacts, Unbound);
    TallyMeans(column, inputs, artifacts, Unnamed);
    UnresolvedMeans(column, e, inputs, artifacts);
    forall row: nat, d | Claimed(column, row, d)
      ensures var b := BoundOf(inputs, artifacts, (row, d));
        && (b.ToInput? <==> RowNames(refs, e.inputs, row, d))
        && (b.ToArtifact? <==> !RowNames(refs, e.inputs, row, d) && RowNames(refs, e.artifacts, row, d))
        && (b.Unnamed? <==> !RowNamesAny(refs, e, row))
    {
      BoundExactly(refs, e, inputs, artifacts, row, d);
    }
  }

  lemma UnresolvedMeans(column: Column, e: Evidence, inputs: seq<set<Digest>>, artifacts: seq<set<Digest>>)
    ensures var claims := Claims(column.cells, |column.cells|);
      Unresolved(e, claims, BoundsOf(inputs, artifacts, claims)) <==> exists row: nat, d ::
        Claimed(column, row, d) && BoundOf(inputs, artifacts, (row, d)).Unnamed? && d !in e.all
  {
    hide BoundOf;
    var claims := Claims(column.cells, |column.cells|);
    var bounds := BoundsOf(inputs, artifacts, claims);
    if Unresolved(e, claims, bounds) {
      var k :| 0 <= k < |claims| && bounds[k].Unnamed? && claims[k].1 !in e.all;
      var (row, d) := claims[k];
      assert (row, d) in claims;
      ClaimsAre(column.cells, |column.cells|, row, d);
      assert Claimed(column, row, d) && BoundOf(inputs, artifacts, (row, d)).Unnamed? && d !in e.all;
    }
    forall row: nat, d | Claimed(column, row, d) && BoundOf(inputs, artifacts, (row, d)).Unnamed? && d !in e.all
      ensures Unresolved(e, claims, bounds)
    {
      ClaimsAre(column.cells, |column.cells|, row, d);
      var k :| 0 <= k < |claims| && claims[k] == (row, d);
      assert bounds[k].Unnamed? && claims[k].1 !in e.all;
    }
  }

  /** The three counts of a finding and the mismatched cells cover its claimed cells, each once. */
  lemma CountsCover(e: Evidence, derived: bool, claims: seq<Claim>, bounds: seq<Bound>, f: Finding)
    requires |bounds| == |claims| && Judged(e, derived, claims, bounds, f)
    ensures f.toInput + f.toArtifact + f.unnamed + Tally(bounds, Unbound) == f.cells
    ensures f.verdict.Pass? <==> f.toInput + f.toArtifact == f.cells
  {
    TallyAll(bounds);
  }

  /** One table: reference columns, the digests each row names, and a finding for each digest
      column and for no other. */
  method CheckTable(inputFiles: seq<File>, artifactFiles: seq<File>, all: set<Digest>, base: string -> string,
                    columns: seq<Column>, count: nat, derived: string -> bool)
    returns (findings: seq<Finding>, e: Evidence, refs: seq<Column>,
             inputs: seq<set<Digest>>, artifacts: seq<set<Digest>>)
    ensures forall c :: c in refs <==> c in columns && Refers(e, c)
    ensures forall f | f in findings ::
      exists c :: c in columns && Found(e, base, inputFiles, artifactFiles, refs, inputs, artifacts, derived, c, f)
    ensures forall c | c in columns && HoldsDigests(c) ::
      exists f :: f in findings && Found(e, base, inputFiles, artifactFiles, refs, inputs, artifacts, derived, c, f)
  {
    var inputMap := ReferenceMap(inputFiles, base);
    var artifactMap := ReferenceMap(artifactFiles, base);
    e := Evidence(inputMap.digests, artifactMap.digests, all);
    refs := ReferenceColumns(e, columns);
    inputs, artifacts := RowReferences(refs, e, count);
    findings := [];
    var i := 0;
    while i < |columns|
      invariant 0 <= i <= |columns|
      invariant forall f | f in findings ::
        exists c :: c in columns && Found(e, base, inputFiles, artifactFiles, refs, inputs, artifacts, derived, c, f)
      invariant forall c | c in columns[..i] && HoldsDigests(c) ::
        exists f :: f in findings && Found(e, base, inputFiles, artifactFiles, refs, inputs, artifacts, derived, c, f)
    {
      var c := columns[i];
      assert columns[..i + 1] == columns[..i] + [c];
      var f := CheckColumn(e, derived(c.name), c, inputs, artifacts);
      if f.Some? {
        assert Found(e, base, inputFiles, artifactFiles, refs, inputs, artifacts, derived, c, f.value);
        findings := findings + [f.value];
      }
      i := i + 1;
    }
    assert columns[..i] == columns;
  }

  predicate HoldsDigests(c: Column) {
    IsDigestColumn(|Claims(c.cells, |c.cells|)|, Present(c.cells))
  }

  /** This is the finding for that column. */
  ghost predicate Found(e: Evidence, base: string -> string, inputFiles: seq<File>, artifactFiles: seq<File>,
                        refs: seq<Column>, inputs: seq<set<Digest>>, artifacts: seq<set<Digest>>,
                        derived: string -> bool, c: Column, f: Finding) {
    && f.column == c.name
    && Checked(e, base, inputFiles, artifactFiles, refs, inputs, artifacts, derived(c.name), c, f)
  }
}
