/**
 What changed between two revisions of a specification: sections whose change refuses
 every carried-over result, and changed parts of the sections that keep their preamble.
 Digests are taken as injective, so texts stand for their digests.
 */
module CarryDiff {
  import opened Basics
  import opened Sections

  /** A level-2 section with its level-3 parts; the document preamble has none. */
  datatype Entry = Entry(key: string, text: string, parts: seq<Section>)

  type Outline = seq<Entry>

  const SLASH := " / "

  function OutlineOf(text: string): Outline {
    var sections := Split(text, 2);
    seq(|sections|, k requires 0 <= k < |sections| =>
      Entry(sections[k].key, sections[k].text, if k == 0 then [] else Split(sections[k].text, 3)))
  }

  // --- Digest tables --------------------------------------------------------------------

  function Dict(r: seq<Section>): map<string, string> {
    if r == [] then map[] else Dict(r[..|r| - 1])[r[|r| - 1].key := r[|r| - 1].text]
  }

  function Composites(e: Entry): seq<Section> {
    if |e.parts| <= 1 then []
    else seq(|e.parts|, i requires 0 <= i < |e.parts| => Section(e.key + SLASH + e.parts[i].key, e.parts[i].text))
  }

  function Raw(o: Outline): seq<Section> {
    if o == [] then [] else Raw(o[..|o| - 1]) + Composites(o[|o| - 1])
  }

  function KeysOf(r: seq<Section>): seq<string> {
    seq(|r|, i requires 0 <= i < |r| => r[i].key)
  }

  /** A composite key that repeats carries its number, like a repeated heading. */
  function Subsections(o: Outline): seq<Section> {
    var raw := Raw(o);
    seq(|raw|, i requires 0 <= i < |raw| => Section(Key(KeysOf(raw), i), raw[i].text))
  }

  function TopLevel(o: Outline): seq<Section> {
    seq(|o|, i requires 0 <= i < |o| => Section(o[i].key, o[i].text))
  }

  /** `document_sections` at depth 3. */
  datatype Tables = Tables(sections: map<string, string>, subs: map<string, string>)

  function TablesOf(o: Outline): Tables {
    Tables(Dict(TopLevel(o)), Dict(Subsections(o)))
  }

  /** What the numbering loop has produced for these composite keys. */
  ghost predicate Numbering(raw: seq<Section>, subs: seq<Section>, seen: map<string, nat>) {
    && |subs| == |raw| && Seen(seen, KeysOf(raw), |raw|)
    && forall j | 0 <= j < |raw| :: subs[j] == Section(Key(KeysOf(raw), j), raw[j].text)
  }

  function Next(subs: seq<Section>, seen: map<string, nat>, x: Section): seq<Section> {
    var count := SeenTimes(seen, x.key) + 1;
    subs + [Section(if count > 1 then Numbered(x.key, count) else x.key, x.text)]
  }

  lemma KeyStable(keys: seq<string>, x: string, j: nat)
    requires j < |keys|
    ensures Key(keys + [x], j) == Key(keys, j)
  {
    assert (keys + [x])[..j] == keys[..j];
  }

  lemma KeyOfNext(keys: seq<string>, x: string, seen: map<string, nat>)
    requires Seen(seen, keys, |keys|)
    ensures SeenTimes(seen, x) + 1 == Occurrence(keys + [x], |keys|)
    ensures Seen(seen[x := SeenTimes(seen, x) + 1], keys + [x], |keys| + 1)
  {
    var more := keys + [x];
    assert more[..|keys|] == keys == keys[..|keys|];
    SeenStep(seen, more, |keys|);
  }

  lemma NumberingStep(raw: seq<Section>, subs: seq<Section>, seen: map<string, nat>, x: Section)
    requires Numbering(raw, subs, seen)
    ensures Numbering(raw + [x], Next(subs, seen, x), seen[x.key := SeenTimes(seen, x.key) + 1])
  {
    var (keys, more) := (KeysOf(raw), KeysOf(raw + [x]));
    assert more == keys + [x.key];
    KeyOfNext(keys, x.key, seen);
    forall j: nat | j < |raw|
      ensures Next(subs, seen, x)[j] == Section(Key(more, j), (raw + [x])[j].text)
    {
      KeyStable(keys, x.key, j);
    }
  }

  /** The inner loop of `document_sections`: one section's parts under composite keys. */
  method AddParts(key: string, parts: seq<Section>, ghost raw: seq<Section>, subs0: seq<Section>,
                  seen0: map<string, nat>)
    returns (subs: seq<Section>, seen: map<string, nat>)
    requires |parts| > 1 && Numbering(raw, subs0, seen0)
    ensures Numbering(raw + Composites(Entry(key, "", parts)), subs, seen)
  {
    hide Numbering, Next;
    subs, seen := subs0, seen0;
    ghost var mine, sofar := Composites(Entry(key, "", parts)), raw;
    var i := 0;
    while i < |parts|
      invariant 0 <= i <= |parts| && sofar == raw + mine[..i] && Numbering(sofar, subs, seen)
    {
      var x := Section(key + SLASH + parts[i].key, parts[i].text);
      NumberingStep(sofar, subs, seen, x);
      assert mine[..i + 1] == mine[..i] + [x];
      subs, seen, sofar := Next(subs, seen, x), seen[x.key := SeenTimes(seen, x.key) + 1], sofar + [x];
      i := i + 1;
    }
    assert mine[..i] == mine;
  }

  lemma NumberingMeans(o: Outline, subs: seq<Section>, seen: map<string, nat>)
    requires Numbering(Raw(o), subs, seen)
    ensures subs == Subsections(o)
  {
  }

  lemma RawStep(o: Outline, k: nat)
    requires k < |o|
    ensures Raw(o[..k + 1]) == Raw(o[..k]) + Composites(Entry(o[k].key, "", o[k].parts))
  {
    assert o[..k + 1][..k] == o[..k];
    assert Composites(Entry(o[k].key, "", o[k].parts)) == Composites(o[k]);
  }

  lemma RawStart(o: Outline)
    requires o != [] && o[0].parts == []
    ensures Raw(o[..1]) == [] && Numbering([], [], map[])
  {
    RawStep(o, 0);
    assert KeysOf([]) == [];
  }

  /** One section, split at level 3. */
  method NumberSection(section: Section, ghost raw: seq<Section>, subs0: seq<Section>, seen0: map<string, nat>)
    returns (subs: seq<Section>, seen: map<string, nat>)
    requires Numbering(raw, subs0, seen0)
    ensures Numbering(raw + Composites(Entry(section.key, "", Split(section.text, 3))), subs, seen)
  {
    var parts := SplitSections(section.text, 3);
    if |parts| > 1 {
      subs, seen := AddParts(section.key, parts, raw, subs0, seen0);
    } else {
      subs, seen := subs0, seen0;
      assert raw + Composites(Entry(section.key, "", parts)) == raw;
    }
  }

  /** The outer loop: every section but the preamble. */
  method NumberParts(sections: seq<Section>, ghost o: Outline) returns (subs: seq<Section>)
    requires sections == TopLevel(o) && o != [] && o[0].parts == []
    requires forall k | 0 < k < |o| :: o[k].parts == Split(o[k].text, 3)
    ensures subs == Subsections(o)
  {
    subs := [];
    var seen: map<string, nat> := map[];
    RawStart(o);
    var k := 1;
    while k < |sections|
      invariant 1 <= k <= |sections| && Numbering(Raw(o[..k]), subs, seen)
    {
      RawStep(o, k);
      subs, seen := NumberSection(sections[k], Raw(o[..k]), subs, seen);
      k := k + 1;
    }
    assert o[..k] == o;
    NumberingMeans(o, subs, seen);
  }

  lemma TopOfText(text: string)
    ensures Split(text, 2) == TopLevel(OutlineOf(text))
  {
  }

  /** `document_sections` at depth 3, with the texts in place of their digests. */
  method DocumentSections(text: string) returns (t: Tables)
    ensures t == TablesOf(OutlineOf(text))
  {
    var sections := SplitSections(text, 2);
    TopOfText(text);
    var subs := NumberParts(sections, OutlineOf(text));
    t := Tables(Dict(sections), Dict(subs));
  }

  // --- The diff -------------------------------------------------------------------------

  function Get(m: map<string, string>, key: string): Option<string> {
    if key in m then Some(m[key]) else None
  }

  function Children(subs: map<string, string>, key: string): map<string, string> {
    map k | k in subs && key + SLASH <= k :: subs[k]
  }

  predicate Differs(a: Tables, b: Tables, key: string) {
    Get(a.sections, key) != Get(b.sections, key)
  }

  predicate Refused(a: Tables, b: Tables, key: string) {
    var (kidsA, kidsB) := (Children(a.subs, key), Children(b.subs, key));
    || key !in a.sections || key !in b.sections || kidsA == map[] || kidsB == map[]
    || Get(kidsA, key + SLASH + PREAMBLE) != Get(kidsB, key + SLASH + PREAMBLE)
  }

  function ChangedParts(a: Tables, b: Tables, key: string): set<string> {
    var (kidsA, kidsB) := (Children(a.subs, key), Children(b.subs, key));
    set k | k in kidsA.Keys + kidsB.Keys && k != key + SLASH + PREAMBLE && Get(kidsA, k) != Get(kidsB, k)
  }

  datatype Diff = Diff(blocking: set<string>, changed: set<string>)

  predicate Blocks(a: Tables, b: Tables, blind: string -> bool, key: string) {
    !blind(key) && Differs(a, b, key) && Refused(a, b, key)
  }

  predicate Lists(a: Tables, b: Tables, blind: string -> bool, key: string, x: string) {
    !blind(key) && Differs(a, b, key) && !Refused(a, b, key) && x in ChangedParts(a, b, key)
  }

  /** The order in which `carry_diff` lists its findings is not modelled. */
  ghost predicate IsDiff(a: Tables, b: Tables, blind: string -> bool, keys: set<string>, d: Diff) {
    && (forall k :: k in d.blocking <==> k in keys && Blocks(a, b, blind, k))
    && (forall x :: x in d.changed <==> exists k :: k in keys && Lists(a, b, blind, k, x))
  }

  lemma DiffStep(a: Tables, b: Tables, blind: string -> bool, done: set<string>, d: Diff, key: string)
    requires IsDiff(a, b, blind, done, d)
    ensures Blocks(a, b, blind, key) ==> IsDiff(a, b, blind, done + {key}, d.(blocking := d.blocking + {key}))
    ensures !Blocks(a, b, blind, key) && Differs(a, b, key) && !blind(key) ==>
      IsDiff(a, b, blind, done + {key}, d.(changed := d.changed + ChangedParts(a, b, key)))
    ensures blind(key) || !Differs(a, b, key) ==> IsDiff(a, b, blind, done + {key}, d)
  {
    hide Refused, Differs;
    assert forall x :: x in ChangedParts(a, b, key) && !blind(key) && Differs(a, b, key) && !Refused(a, b, key) ==>
      Lists(a, b, blind, key, x);
  }

  /** The loop of `carry_diff`. */
  method CompareTables(a: Tables, b: Tables, blind: string -> bool) returns (d: Diff)
    ensures IsDiff(a, b, blind, a.sections.Keys + b.sections.Keys, d)
  {
    hide Refused, ChangedParts, Differs;
    var todo, done := a.sections.Keys + b.sections.Keys, {};
    d := Diff({}, {});
    while todo != {}
      invariant todo + done == a.sections.Keys + b.sections.Keys
      invariant IsDiff(a, b, blind, done, d)
      decreases |todo|
    {
      var key :| key in todo;
      DiffStep(a, b, blind, done, d, key);
      todo, done := todo - {key}, done + {key};
      if blind(key) || !Differs(a, b, key) {
        continue;
      }
      if Refused(a, b, key) {
        d := d.(blocking := d.blocking + {key});
      } else {
        d := d.(changed := d.changed + ChangedParts(a, b, key));
      }
    }
    assert done == a.sections.Keys + b.sections.Keys;
  }

  ghost predicate DiffOf(a: Outline, b: Outline, blind: string -> bool, d: Diff) {
    var (before, after) := (TablesOf(a), TablesOf(b));
    IsDiff(before, after, blind, before.sections.Keys + after.sections.Keys, d)
  }

  /** `carry_diff`. */
  method Compare(before: string, after: string, blind: string -> bool) returns (d: Diff)
    ensures DiffOf(OutlineOf(before), OutlineOf(after), blind, d)
  {
    var a := DocumentSections(before);
    var b := DocumentSections(after);
    d := CompareTables(a, b, blind);
  }

  // --- What it accounts for -----------------------------------------------------------------

  ghost predicate WellFormed(o: Outline) {
    && (forall i, j | 0 <= i < j < |o| :: o[i].key != o[j].key)
    && forall e | e in o :: SoundEntry(e)
  }

  ghost predicate SoundEntry(e: Entry) {
    e.parts == [] || (Distinct(e.parts) && e.parts[0].key == PREAMBLE && Joined(e.parts) == e.text)
  }

  /** No section's prefix of composite keys is a prefix of another's. */
  ghost predicate Separate(keys: set<string>) {
    forall k, k' | k in keys && k' in keys && k + SLASH <= k' + SLASH :: k == k'
  }

  ghost function Keys(o: Outline): set<string> {
    set e | e in o :: e.key
  }

  function Lookup(o: Outline, key: string): (r: Option<Entry>)
    ensures r.Some? ==> r.value in o && r.value.key == key
    ensures r.None? ==> forall e | e in o :: e.key != key
  {
    if o == [] then None
    else if o[|o| - 1].key == key then Some(o[|o| - 1])
    else Lookup(o[..|o| - 1], key)
  }

  function Text(e: Option<Entry>): Option<string> {
    if e.Some? then Some(e.value.text) else None
  }

  /** The text of one part, for a section that has parts at all. */
  function PartText(e: Entry, part: string): Option<string> {
    if |e.parts| > 1 then Get(Dict(e.parts), part) else None
  }

  /** A difference is accounted for when the section blocks, or when both revisions have it
      in parts, with one preamble, and every part that differs is listed. */
  ghost predicate Accounted(a: Outline, b: Outline, d: Diff, key: string) {
    || key in d.blocking
    || (&& Lookup(a, key).Some? && Lookup(b, key).Some?
        && var (x, y) := (Lookup(a, key).value, Lookup(b, key).value);
           && |x.parts| > 1 && |y.parts| > 1
           && PartText(x, PREAMBLE) == PartText(y, PREAMBLE)
           && forall part | part != PREAMBLE && PartText(x, part) != PartText(y, part) ::
             key + SLASH + part in d.changed)
  }

  lemma {:induction false} DictHolds(r: seq<Section>, x: Section)
    requires Distinct(r)
    ensures x in r <==> Get(Dict(r), x.key) == Some(x.text)
  {
    if r != [] {
      var front, last := r[..|r| - 1], r[|r| - 1];
      DictHolds(front, x);
      assert r == front + [last];
      assert last.key == x.key ==> x !in front;
    }
  }

  lemma {:induction false} RawHolds(o: Outline, x: Section)
    ensures x in Raw(o) <==> exists e :: e in o && x in Composites(e)
  {
    if o != [] {
      RawHolds(o[..|o| - 1], x);
      assert o == o[..|o| - 1] + [o[|o| - 1]];
    }
  }

  lemma CompositeHolds(e: Entry, x: Section)
    requires x in Composites(e)
    ensures exists p :: p in e.parts && x == Section(e.key + SLASH + p.key, p.text)
    ensures |e.parts| > 1
  {
    var i :| 0 <= i < |Composites(e)| && Composites(e)[i] == x;
    assert e.parts[i] in e.parts;
  }

  lemma CompositeOf(e: Entry, p: Section)
    requires |e.parts| > 1 && p in e.parts
    ensures Section(e.key + SLASH + p.key, p.text) in Composites(e)
  {
    var i :| 0 <= i < |e.parts| && e.parts[i] == p;
    assert Composites(e)[i] == Section(e.key + SLASH + p.key, p.text);
  }

  /** Equal composite keys of separate sections are the same part of the same section. */
  lemma SplitComposite(k: string, part: string, k': string, part': string, keys: set<string>)
    requires Separate(keys) && k in keys && k' in keys
    requires k + SLASH <= k' + SLASH + part'
    ensures k == k'
    ensures k + SLASH + part == k' + SLASH + part' ==> part == part'
  {
    var s := k' + SLASH + part';
    assert (k' + SLASH) <= s;
    assert k + SLASH == s[..|k| + 3] && k' + SLASH == s[..|k'| + 3];
    assert k + SLASH <= k' + SLASH || k' + SLASH <= k + SLASH;
    if k + SLASH + part == s {
      assert part == (k + SLASH + part)[|k| + 3..] && part' == s[|k'| + 3..];
    }
  }

  lemma CompositesDistinct(e: Entry)
    requires e.parts == [] || Distinct(e.parts)
    ensures Distinct(Composites(e))
  {
    var c := Composites(e);
    forall i, j | 0 <= i < j < |c|
      ensures c[i].key != c[j].key
    {
      assert c[i].key[|e.key| + 3..] == e.parts[i].key && c[j].key[|e.key| + 3..] == e.parts[j].key;
    }
  }

  lemma {:induction false} RawDistinct(o: Outline, keys: set<string>)
    requires WellFormed(o) && Keys(o) <= keys && Separate(keys)
    ensures Distinct(Raw(o))
  {
    if o != [] {
      var front, last := o[..|o| - 1], o[|o| - 1];
      assert o == front + [last];
      RawDistinct(front, keys);
      assert SoundEntry(last);
      CompositesDistinct(last);
      forall x, y | x in Raw(front) && y in Composites(last)
        ensures x.key != y.key
      {
        RawHolds(front, x);
        var e :| e in front && x in Composites(e);
        CompositeHolds(e, x);
        CompositeHolds(last, y);
        var p :| p in e.parts && x == Section(e.key + SLASH + p.key, p.text);
        var q :| q in last.parts && y == Section(last.key + SLASH + q.key, q.text);
        assert e.key in keys && last.key in keys && e.key != last.key;
        if x.key == y.key {
          SplitComposite(e.key, p.key, last.key, q.key, keys);
        }
      }
    }
  }

  lemma SubsectionsAreRaw(o: Outline)
    requires Distinct(Raw(o))
    ensures Subsections(o) == Raw(o)
  {
    var raw := Raw(o);
    forall i | 0 <= i < |raw|
      ensures Key(KeysOf(raw), i) == raw[i].key
    {
      assert KeysOf(raw)[i] !in KeysOf(raw)[..i];
      assert KeysOf(raw)[i] !in multiset(KeysOf(raw)[..i]);
    }
  }

  lemma LookupIs(o: Outline, e: Entry)
    requires WellFormed(o) && e in o
    ensures Lookup(o, e.key) == Some(e)
  {
  }

  function PartOf(o: Outline, key: string, part: string): Option<string> {
    if Lookup(o, key).Some? then PartText(Lookup(o, key).value, part) else None
  }

  /** With separate headings, the composite table holds exactly each section's own parts. */
  lemma SubsHold(o: Outline, keys: set<string>, key: string, part: string)
    requires WellFormed(o) && Keys(o) <= keys && Separate(keys) && key in keys
    ensures Get(TablesOf(o).subs, key + SLASH + part) == PartOf(o, key, part)
  {
    RawDistinct(o, keys);
    SubsectionsAreRaw(o);
    var name := key + SLASH + part;
    forall t: string
      ensures Get(TablesOf(o).subs, name) == Some(t) <==> PartOf(o, key, part) == Some(t)
    {
      DictHolds(Raw(o), Section(name, t));
      SubHolds(o, keys, key, part, t);
    }
    assert Get(TablesOf(o).subs, name).Some? ==> PartOf(o, key, part) == Some(Get(TablesOf(o).subs, name).value);
  }

  lemma SubHolds(o: Outline, keys: set<string>, key: string, part: string, t: string)
    requires WellFormed(o) && Keys(o) <= keys && Separate(keys) && key in keys
    ensures Section(key + SLASH + part, t) in Raw(o) <==> PartOf(o, key, part) == Some(t)
  {
    var x := Section(key + SLASH + part, t);
    RawHolds(o, x);
    if x in Raw(o) {
      var e :| e in o && x in Composites(e);
      CompositeHolds(e, x);
      var p :| p in e.parts && x == Section(e.key + SLASH + p.key, p.text);
      assert e.key in keys;
      SplitComposite(key, part, e.key, p.key, keys);
      LookupIs(o, e);
      DictHolds(e.parts, p);
    } else if PartOf(o, key, part) == Some(t) {
      var e := Lookup(o, key).value;
      DictHolds(e.parts, Section(part, t));
      CompositeOf(e, Section(part, t));
      assert false;
    }
  }

  lemma TopHolds(o: Outline, key: string)
    requires WellFormed(o)
    ensures Get(TablesOf(o).sections, key) == Text(Lookup(o, key))
  {
    var top := TopLevel(o);
    assert Distinct(top);
    forall t: string
      ensures Get(Dict(top), key) == Some(t) <==> Text(Lookup(o, key)) == Some(t)
    {
      DictHolds(top, Section(key, t));
      if Section(key, t) in top {
        var i :| 0 <= i < |top| && top[i] == Section(key, t);
        assert o[i] in o;
        LookupIs(o, o[i]);
      }
      if Text(Lookup(o, key)) == Some(t) {
        var i :| 0 <= i < |o| && o[i] == Lookup(o, key).value;
        assert top[i] == Section(key, t);
      }
    }
    assert Get(Dict(top), key).Some? ==> Text(Lookup(o, key)) == Some(Get(Dict(top), key).value);
  }

  predicate InParts(o: Outline, key: string) {
    Lookup(o, key).Some? && |Lookup(o, key).value.parts| > 1
  }

  /** A section's children are its own parts. */
  lemma ChildrenHold(o: Outline, keys: set<string>, key: string, part: string)
    requires WellFormed(o) && Keys(o) <= keys && Separate(keys) && key in keys
    ensures Get(Children(TablesOf(o).subs, key), key + SLASH + part) == PartOf(o, key, part)
  {
    SubsHold(o, keys, key, part);
    assert key + SLASH <= key + SLASH + part;
  }

  lemma ChildrenExist(o: Outline, keys: set<string>, key: string)
    requires WellFormed(o) && Keys(o) <= keys && Separate(keys) && key in keys
    ensures Children(TablesOf(o).subs, key) != map[] <==> InParts(o, key)
  {
    var kids := Children(TablesOf(o).subs, key);
    if InParts(o, key) {
      var parts := Lookup(o, key).value.parts;
      DictHolds(parts, parts[0]);
      ChildrenHold(o, keys, key, parts[0].key);
      assert key + SLASH + parts[0].key in kids;
    }
    if kids != map[] {
      var x :| x in kids;
      var part := x[|key + SLASH|..];
      assert x == key + SLASH + part;
      ChildrenHold(o, keys, key, part);
    }
  }

  /** Main result: when no heading's composite prefix runs into another's, every section
      that differs and is not blind is accounted for. */
  lemma DiffAccounts(a: Outline, b: Outline, blind: string -> bool, d: Diff, key: string)
    requires WellFormed(a) && WellFormed(b) && Separate(Keys(a) + Keys(b)) && DiffOf(a, b, blind, d)
    requires !blind(key) && Text(Lookup(a, key)) != Text(Lookup(b, key))
    ensures Accounted(a, b, d, key)
  {
    assert key in Keys(a) + Keys(b);
    var keys := Keys(a) + Keys(b);
    var (before, after) := (TablesOf(a), TablesOf(b));
    TopHolds(a, key);
    TopHolds(b, key);
    ChildrenExist(a, keys, key);
    ChildrenExist(b, keys, key);
    ChildrenHold(a, keys, key, PREAMBLE);
    ChildrenHold(b, keys, key, PREAMBLE);
    assert Blocks(before, after, blind, key) <==> Refused(before, after, key);
    if !Refused(before, after, key) {
      assert PartOf(a, key, PREAMBLE) == PartOf(b, key, PREAMBLE);
      forall part | part != PREAMBLE && PartOf(a, key, part) != PartOf(b, key, part)
        ensures key + SLASH + part in d.changed
      {
        var x := key + SLASH + part;
        assert x[|key + SLASH|..] == part;
        ChildrenHold(a, keys, key, part);
        ChildrenHold(b, keys, key, part);
        assert Get(Children(before.subs, key), x) != Get(Children(after.subs, key), x);
        assert Lists(before, after, blind, key, x);
      }
    }
  }

  lemma SectionsHold(o: Outline, key: string)
    requires WellFormed(o)
    ensures key in TablesOf(o).sections <==> key in Keys(o)
  {
    TopHolds(o, key);
    if Lookup(o, key).Some? {
      assert Lookup(o, key).value in o;
    }
  }

  /** Nothing is listed but parts that differ, of sections that are not blind. */
  lemma ListedDiffers(a: Outline, b: Outline, blind: string -> bool, d: Diff, x: string)
    returns (key: string, part: string)
    requires WellFormed(a) && WellFormed(b) && Separate(Keys(a) + Keys(b)) && DiffOf(a, b, blind, d)
    requires x in d.changed
    ensures x == key + SLASH + part && !blind(key) && part != PREAMBLE
    ensures PartOf(a, key, part) != PartOf(b, key, part)
  {
    hide WellFormed, Separate, TablesOf, PartOf;
    var (before, after) := (TablesOf(a), TablesOf(b));
    key :| key in before.sections.Keys + after.sections.Keys && Lists(before, after, blind, key, x);
    part := x[|key + SLASH|..];
    assert x == key + SLASH + part;
    SectionsHold(a, key);
    SectionsHold(b, key);
    ChildrenHold(a, Keys(a) + Keys(b), key, part);
    ChildrenHold(b, Keys(a) + Keys(b), key, part);
  }

  /** Nothing blocks but sections that differ, are not blind, and differ outside their parts. */
  lemma BlockingDiffers(a: Outline, b: Outline, blind: string -> bool, d: Diff, key: string)
    requires WellFormed(a) && WellFormed(b) && Separate(Keys(a) + Keys(b)) && DiffOf(a, b, blind, d)
    requires key in d.blocking
    ensures !blind(key) && Text(Lookup(a, key)) != Text(Lookup(b, key))
    ensures !InParts(a, key) || !InParts(b, key) || PartOf(a, key, PREAMBLE) != PartOf(b, key, PREAMBLE)
  {
    hide WellFormed, Separate, TablesOf, PartOf;
    var keys := Keys(a) + Keys(b);
    TopHolds(a, key);
    TopHolds(b, key);
    SectionsHold(a, key);
    SectionsHold(b, key);
    ChildrenExist(a, keys, key);
    ChildrenExist(b, keys, key);
    ChildrenHold(a, keys, key, PREAMBLE);
    ChildrenHold(b, keys, key, PREAMBLE);
    if InParts(a, key) && InParts(b, key) {
      assert key in TablesOf(a).sections && key in TablesOf(b).sections by {
        assert Lookup(a, key).Some? && Lookup(b, key).Some?;
      }
    }
  }

  lemma {:induction false} DistinctMultiset(r: seq<Section>, x: Section)
    requires Distinct(r)
    ensures multiset(r)[x] == if x in r then 1 else 0
  {
    if r != [] {
      var front, last := r[..|r| - 1], r[|r| - 1];
      assert r == front + [last];
      DistinctMultiset(front, x);
    }
  }

  lemma SamePartsSameMultiset(p: seq<Section>, q: seq<Section>)
    requires Distinct(p) && Distinct(q)
    requires forall k :: Get(Dict(p), k) == Get(Dict(q), k)
    ensures multiset(p) == multiset(q)
  {
    forall x: Section
      ensures multiset(p)[x] == multiset(q)[x]
    {
      DictHolds(p, x);
      DictHolds(q, x);
      DistinctMultiset(p, x);
      DistinctMultiset(q, x);
    }
  }

  /** When nothing blocks and nothing is listed, every section that is not blind is the
      same, up to the order of its parts. */
  lemma NothingFound(a: Outline, b: Outline, blind: string -> bool, d: Diff, key: string)
    requires WellFormed(a) && WellFormed(b) && Separate(Keys(a) + Keys(b)) && DiffOf(a, b, blind, d)
    requires d == Diff({}, {}) && key in Keys(a) + Keys(b) && !blind(key)
    ensures Lookup(a, key).Some? && Lookup(b, key).Some?
    ensures SameUpToOrder(Lookup(a, key).value, Lookup(b, key).value)
  {
    if Text(Lookup(a, key)) != Text(Lookup(b, key)) {
      DiffAccounts(a, b, blind, d, key);
      var (x, y) := (Lookup(a, key).value, Lookup(b, key).value);
      forall part
        ensures Get(Dict(x.parts), part) == Get(Dict(y.parts), part)
      {
        assert PartText(x, part) == PartText(y, part);
      }
      SamePartsSameMultiset(x.parts, y.parts);
    }
  }

  // --- Over texts -------------------------------------------------------------------------------

  /** No heading is spelled like the numbered repetition of another, at either level. */
  ghost predicate Addressable(text: string) {
    Unnumbered(text, 2) && forall section | section in Split(text, 2) :: Unnumbered(section.text, 3)
  }

  /** What the diff needs of an outline holds of every such text's. */
  lemma OutlineWellFormed(text: string)
    requires Addressable(text)
    ensures WellFormed(OutlineOf(text))
  {
    hide Unnumbered;
    var sections, o := Split(text, 2), OutlineOf(text);
    AddressableExactly(text, 2);
    forall k | 0 <= k < |o|
      ensures SoundEntry(o[k])
    {
      assert sections[k] in sections;
      SplitSound(sections[k]);
    }
    assert forall i, j | 0 <= i < j < |o| :: sections[i].key != sections[j].key;
  }

  lemma SplitSound(section: Section)
    requires Unnumbered(section.text, 3)
    ensures SoundEntry(Entry(section.key, section.text, Split(section.text, 3)))
  {
    hide Unnumbered;
    AddressableExactly(section.text, 3);
    Lossless(section.text, 3);
    UniqueTitles([PREAMBLE]);
  }

  predicate SlashAt(s: string, i: nat) {
    i + 3 <= |s| && s[i..i + 3] == SLASH
  }

  /** Free of " / ", also when a blank is added: what a writer of headings can check. */
  predicate Plain(key: string) {
    forall i: nat | i < |key| :: !SlashAt(key + " ", i)
  }

  lemma SlashInside(k: string, k': string)
    requires k != k' && k + SLASH <= k' + SLASH
    ensures !Plain(k')
  {
    var (s, n) := (k' + SLASH, |k|);
    assert k == (k + SLASH)[..n] == s[..n];
    assert (k + SLASH)[n..n + 3] == SLASH;
    assert s[n..n + 3] == SLASH && s[n] == ' ' && s[n + 1] == '/';
    assert (k' + " ")[n..n + 3] == s[n..n + 3];
    assert SlashAt(k' + " ", n);
  }

  lemma PlainHeadingsAreSeparate(keys: set<string>)
    requires forall k | k in keys :: Plain(k)
    ensures Separate(keys)
  {
    forall k, k' | k in keys && k' in keys && k + SLASH <= k' + SLASH
      ensures k == k'
    {
      if k != k' {
        SlashInside(k, k');
      }
    }
  }

  lemma PlainNumbered(title: string, n: nat)
    requires Plain(title)
    ensures Plain(Numbered(title, n))
  {
    var s := Numbered(title, n) + " ";
    forall i: nat | i < |s| - 1
      ensures !SlashAt(s, i)
    {
      if SlashAt(s, i) {
        SlashWithin(title, n, i);
      }
    }
  }

  lemma SlashWithin(title: string, n: nat, i: nat)
    requires SlashAt(Numbered(title, n) + " ", i)
    ensures SlashAt(title + " ", i)
  {
    var s := Numbered(title, n) + " ";
    assert s[i] == s[i..i + 3][0] && s[i + 1] == s[i..i + 3][1] && s[i + 2] == s[i..i + 3][2];
    var m := if i > |title| then i else if i + 2 < |title| then i else |title|;
    if i + 2 >= |title| {
      NumberTail(title, n, m);
    }
    assert s[i..i + 3] == (title + " ")[i..i + 3];
  }

  /** What a writer of headings can check of a document. */
  ghost predicate PlainlyHeaded(text: string) {
    && (forall t | t in Headings(text, 2) :: Plain(t) && !EndsInNumber(t))
    && forall section, t | section in Split(text, 2) && t in Headings(section.text, 3) :: !EndsInNumber(t)
  }

  lemma PlainKeys(text: string)
    requires PlainlyHeaded(text)
    ensures Addressable(text) && forall k | k in Keys(OutlineOf(text)) :: Plain(k)
  {
    hide Plain, EndsInNumber, Titles, Unnumbered, Split, Key, Occurrence;
    NoneNumbered(text, 2);
    forall section | section in Split(text, 2)
      ensures Unnumbered(section.text, 3)
    {
      NoneNumbered(section.text, 3);
    }
    forall e | e in OutlineOf(text)
      ensures Plain(e.key)
    {
      var k: nat :| k < |OutlineOf(text)| && OutlineOf(text)[k] == e;
      PlainKey(text, k);
    }
  }

  lemma PlainKey(text: string, k: nat)
    requires k < |OutlineOf(text)| && forall t | t in Headings(text, 2) :: Plain(t)
    ensures Plain(OutlineOf(text)[k].key)
  {
    hide Plain, Titles;
    var titles := Headings(text, 2);
    assert OutlineOf(text)[k].key == Key(titles, k) && titles[k] in titles;
    PlainNumbered(titles[k], Occurrence(titles, k));
  }

  lemma NoneNumbered(text: string, level: nat)
    requires forall t | t in Headings(text, level) :: !EndsInNumber(t)
    ensures Unnumbered(text, level)
  {
    hide EndsInNumber, Impersonates, Titles;
    var titles := Headings(text, level);
    forall i, j | 0 <= i < |titles| && 0 <= j < |titles|
      ensures !Impersonates(titles, i, j)
    {
      assert titles[i] in titles;
      if Impersonates(titles, i, j) {
        ImpersonatorEnds(titles, i, j);
      }
    }
  }

  ghost predicate SameUpToOrder(x: Entry, y: Entry) {
    || x.text == y.text
    || (multiset(x.parts) == multiset(y.parts) && Joined(x.parts) == x.text && Joined(y.parts) == y.text)
  }

  /** Main result: between two revisions whose level-2 headings are free of " / " and whose
      headings do not end in "#" and a number, every difference outside the blind sections
      blocks or is listed; and when nothing is found, nothing but the order of parts differs. */
  lemma PlainRevisions(before: string, after: string, blind: string -> bool, d: Diff, key: string)
    requires PlainlyHeaded(before) && PlainlyHeaded(after)
    requires DiffOf(OutlineOf(before), OutlineOf(after), blind, d) && !blind(key)
    ensures var (a, b) := (OutlineOf(before), OutlineOf(after));
      && (Text(Lookup(a, key)) != Text(Lookup(b, key)) ==> Accounted(a, b, d, key))
      && (d == Diff({}, {}) && key in Keys(a) + Keys(b) ==>
            && Lookup(a, key).Some? && Lookup(b, key).Some?
            && SameUpToOrder(Lookup(a, key).value, Lookup(b, key).value))
  {
    hide OutlineOf, WellFormed, Plain, DiffOf, Accounted, SameUpToOrder, Separate;
    var (a, b) := (OutlineOf(before), OutlineOf(after));
    PlainKeys(before);
    PlainKeys(after);
    OutlineWellFormed(before);
    OutlineWellFormed(after);
    PlainHeadingsAreSeparate(Keys(a) + Keys(b));
    if Text(Lookup(a, key)) != Text(Lookup(b, key)) {
      DiffAccounts(a, b, blind, d, key);
    }
    if d == Diff({}, {}) && key in Keys(a) + Keys(b) {
      NothingFound(a, b, blind, d, key);
    }
  }

  // --- Exactly which headings it accounts for ---------------------------------------------------

  predicate NeverBlind(key: string) {
    false
  }

  /** An outline in which only the last section is in parts. */
  ghost predicate LastInParts(o: Outline, front: Outline, last: Entry) {
    && o == front + [last] && WellFormed(o) && |last.parts| > 1
    && forall e | e in front :: |e.parts| <= 1
  }

  /** Two outlines alike in all but the text of section `k`. */
  ghost predicate AlikeBut(a: Outline, b: Outline, k: string) {
    && |a| == |b|
    && forall i | 0 <= i < |a| :: a[i].key == b[i].key && (a[i].key != k ==> a[i].text == b[i].text)
  }

  lemma {:induction false} NoComposites(o: Outline)
    requires forall e | e in o :: |e.parts| <= 1
    ensures Raw(o) == []
  {
    if o != [] {
      NoComposites(o[..|o| - 1]);
      assert o[|o| - 1] in o;
    }
  }

  /** Its composite table is that of the last section. */
  lemma LastSubs(o: Outline, front: Outline, last: Entry)
    requires LastInParts(o, front, last)
    ensures TablesOf(o).subs == Dict(Composites(last))
    ensures last.key + SLASH + PREAMBLE in TablesOf(o).subs
  {
    assert o[..|o| - 1] == front && o[|o| - 1] == last;
    NoComposites(front);
    assert Raw(o) == [] + Composites(last) == Composites(last);
    assert last in o && SoundEntry(last);
    CompositesDistinct(last);
    SubsectionsAreRaw(o);
    assert Composites(last)[0].key == last.key + SLASH + PREAMBLE;
    assert Composites(last)[0] in Composites(last);
    DictHolds(Composites(last), Composites(last)[0]);
  }

  lemma {:induction false} AlikeTexts(a: Outline, b: Outline, k: string, key: string)
    requires AlikeBut(a, b, k) && key != k
    ensures Text(Lookup(a, key)) == Text(Lookup(b, key))
  {
    if a != [] {
      AlikeTexts(a[..|a| - 1], b[..|b| - 1], k, key);
    }
  }

  /** Two revisions with the same parts list nothing, and refuse no section that has them. */
  lemma NothingListed(a: Tables, b: Tables, k: string)
    requires a.subs == b.subs && Children(a.subs, k) != map[] && k in a.sections && k in b.sections
    requires forall key | key != k :: !Differs(a, b, key)
    ensures IsDiff(a, b, NeverBlind, a.sections.Keys + b.sections.Keys, Diff({}, {}))
  {
    assert !Refused(a, b, k) && ChangedParts(a, b, k) == {};
  }

  /** When the prefix of `k` runs into that of the last section, a change of `k` is not seen. */
  lemma ChangeUnseen(a: Outline, fa: Outline, b: Outline, fb: Outline, last: Entry, k: string)
    requires LastInParts(a, fa, last) && LastInParts(b, fb, last) && AlikeBut(a, b, k)
    requires Lookup(a, k).Some? && Lookup(b, k).Some? && k + SLASH <= last.key + SLASH
    ensures DiffOf(a, b, NeverBlind, Diff({}, {}))
  {
    hide WellFormed, Dict, Composites, Lookup, AlikeBut, TablesOf;
    LastSubs(a, fa, last);
    LastSubs(b, fb, last);
    var (before, after) := (TablesOf(a), TablesOf(b));
    assert k + SLASH <= last.key + SLASH <= last.key + SLASH + PREAMBLE;
    assert last.key + SLASH + PREAMBLE in Children(before.subs, k);
    TopHolds(a, k);
    TopHolds(b, k);
    forall key | key != k
      ensures !Differs(before, after, key)
    {
      AlikeTexts(a, b, k, key);
      TopHolds(a, key);
      TopHolds(b, key);
    }
    NothingListed(before, after, k);
  }

  // The texts in which a change stays hidden: a section without parts, and after it one with
  // parts whose composite keys begin alike. The document's own preamble can be the first.

  const SUB := Heading("S", 3)

  predicate Filler(line: string) {
    PlainLine(line, 2) && PlainLine(line, 3)
  }

  function HidingPre(k: string, line: string): seq<string> {
    if k == PREAMBLE then [line] else []
  }

  function HidingChapters(k: string, k': string, line: string): seq<Chapter> {
    if k == PREAMBLE then [Chapter(k', [SUB])] else [Chapter(k, [line]), Chapter(k', [SUB])]
  }

  function HidingText(k: string, k': string, line: string): string {
    Concat(Write(HidingPre(k, line), HidingChapters(k, k', line), 2))
  }

  function HidingFront(k: string, line: string): Outline {
    if k == PREAMBLE then [Entry(PREAMBLE, line, [])]
    else
      var own := Heading(k, 2) + line;
      [Entry(PREAMBLE, "", []), Entry(k, own, [Section(PREAMBLE, own)])]
  }

  function HidingLast(k': string): Entry {
    var own := Heading(k', 2);
    Entry(k', own + SUB, [Section(PREAMBLE, own), Section("S", SUB)])
  }

  lemma SubReads()
    ensures CleanTitle("S") && PlainLine(SUB, 2)
  {
    assert CleanTitle("S");
    HeadingReads("S", 3);
  }

  lemma ConcatTwo(x: string, y: string)
    ensures Concat([x]) == x && Concat([x, y]) == x + y && Concat([]) == []
  {
    assert [x, y][1..] == [y] && [y][1..] == [] && [x][1..] == [];
  }

  /** A section in which nothing is a heading of the next level has a preamble only. */
  lemma PartlessPlain(lines: seq<string>)
    requires forall i | 0 <= i < |lines| :: PlainLine(lines[i], 3)
    ensures Split(Concat(lines), 3) == [Section(PREAMBLE, Concat(lines))] && Unnumbered(Concat(lines), 3)
  {
    hide Split, Concat, Unnumbered, Closed, PlainLine;
    PlainIsClosed(lines, 3);
    Partless(lines, 3);
  }

  lemma LastParts(k': string)
    requires CleanTitle(k')
    ensures Split(HidingLast(k').text, 3) == HidingLast(k').parts && Unnumbered(HidingLast(k').text, 3)
  {
    hide Split, Concat, Write, Unnumbered, Writable, TitlesOf, BodiesOf, Heading;
    var own := Heading(k', 2);
    OneSub(k');
    ConcatTwo(own, SUB);
    ConcatTwo(SUB, SUB);
    SplitOfDistinct([own], [Chapter("S", [])], 3);
  }

  lemma OneSub(k': string)
    requires CleanTitle(k')
    ensures var (own, chapters) := ([Heading(k', 2)], [Chapter("S", [])]);
      && Writable(own, chapters, 3) && Write(own, chapters, 3) == [Heading(k', 2), SUB]
      && TitlesOf(chapters) == [PREAMBLE, "S"] && PREAMBLE != "S"
      && BodiesOf(own, chapters, 3) == [own, [SUB]]
  {
    hide CleanTitle, CleanLine, Heading, IsHeading, Closed;
    HeadingReads(k', 2);
    SubReads();
    PlainIsClosed([Heading(k', 2)], 3);
    PlainIsClosed([], 3);
    var chapters := [Chapter("S", [])];
    assert chapters[..0] == [] && ChapterLines(chapters[0], 3) == [SUB];
    assert |PREAMBLE| > |"S"|;
  }

  ghost predicate HidesWell(k: string, k': string, line: string) {
    CleanTitle(k) && CleanTitle(k') && k' != k && k' != PREAMBLE && Filler(line)
  }

  lemma FrontParts(k: string, line: string)
    requires CleanTitle(k) && k != PREAMBLE && Filler(line)
    ensures var own := Heading(k, 2) + line;
      Split(own, 3) == [Section(PREAMBLE, own)] && Unnumbered(own, 3)
  {
    hide Split, Concat, CleanTitle, CleanLine, Heading, Unnumbered;
    HeadingReads(k, 2);
    ConcatTwo(Heading(k, 2), line);
    PartlessPlain([Heading(k, 2), line]);
  }

  /** The sections of such a text. */
  lemma HidingSections(k: string, k': string, line: string)
    requires HidesWell(k, k', line)
    ensures Split(HidingText(k, k', line), 2) == TopLevel(HidingFront(k, line) + [HidingLast(k')])
    ensures Unnumbered(HidingText(k, k', line), 2)
  {
    hide Split, Concat, CleanTitle, PlainLine, Heading, Unnumbered, Write, Closed, TitlesOf, BodiesOf;
    SubReads();
    PlainIsClosed([line], 2);
    PlainIsClosed([SUB], 2);
    PlainIsClosed([], 2);
    ConcatTwo(Heading(k, 2), line);
    ConcatTwo(Heading(k', 2), SUB);
    ConcatTwo(line, line);
    assert [Heading(k', 2)] + [SUB] == [Heading(k', 2), SUB];
    assert [Heading(k, 2)] + [line] == [Heading(k, 2), line];
    var last := Section(k', Heading(k', 2) + SUB);
    if k == PREAMBLE {
      OneChapter([line], k', [SUB]);
      assert TopLevel(HidingFront(k, line) + [HidingLast(k')]) == [Section(PREAMBLE, line), last];
    } else {
      TwoChapters(k, [line], k', [SUB]);
      assert TopLevel(HidingFront(k, line) + [HidingLast(k')]) ==
             [Section(PREAMBLE, ""), Section(k, Heading(k, 2) + line), last];
    }
  }

  lemma OneChapter(pre: seq<string>, k: string, body: seq<string>)
    requires k != PREAMBLE && Writable(pre, [Chapter(k, body)], 2)
    ensures var text := Concat(Write(pre, [Chapter(k, body)], 2));
      && Split(text, 2) == [Section(PREAMBLE, Concat(pre)), Section(k, Concat([Heading(k, 2)] + body))]
      && Unnumbered(text, 2)
  {
    hide Split, Concat, Heading, Unnumbered, Write, Writable, Numbered;
    var chapters := [Chapter(k, body)];
    assert TitlesOf(chapters) == [PREAMBLE, k] && BodiesOf(pre, chapters, 2) == [pre, [Heading(k, 2)] + body];
    SplitOfDistinct(pre, chapters, 2);
  }

  lemma TwoChapters(k: string, body: seq<string>, k': string, body': seq<string>)
    requires k != PREAMBLE && k' != PREAMBLE && k != k' && Writable([], [Chapter(k, body), Chapter(k', body')], 2)
    ensures var text := Concat(Write([], [Chapter(k, body), Chapter(k', body')], 2));
      && Split(text, 2) == [Section(PREAMBLE, Concat([])), Section(k, Concat([Heading(k, 2)] + body)),
                            Section(k', Concat([Heading(k', 2)] + body'))]
      && Unnumbered(text, 2)
  {
    hide Split, Concat, Heading, Unnumbered, Write, Writable, Numbered;
    var chapters := [Chapter(k, body), Chapter(k', body')];
    assert TitlesOf(chapters) == [PREAMBLE, k, k'];
    assert BodiesOf([], chapters, 2) == [[], [Heading(k, 2)] + body, [Heading(k', 2)] + body'];
    SplitOfDistinct([], chapters, 2);
  }

  /** The outline of such a text. */
  lemma HidingOutline(k: string, k': string, line: string)
    requires HidesWell(k, k', line)
    ensures OutlineOf(HidingText(k, k', line)) == HidingFront(k, line) + [HidingLast(k')]
    ensures Addressable(HidingText(k, k', line))
  {
    hide Split, HidingText, Unnumbered, CleanTitle, PlainLine, Heading;
    HidingSections(k, k', line);
    LastParts(k');
    if k == PREAMBLE {
      PartlessPlain([line]);
      ConcatTwo(line, line);
    } else {
      FrontParts(k, line);
      PartlessPlain([]);
      ConcatTwo(line, line);
    }
  }

  lemma HidingOutlineIs(k: string, k': string, line: string)
    requires HidesWell(k, k', line)
    ensures var (o, front, last) := (OutlineOf(HidingText(k, k', line)), HidingFront(k, line), HidingLast(k'));
      && LastInParts(o, front, last) && Keys(o) == {PREAMBLE, k, k'}
      && Lookup(o, k) == Some(front[|front| - 1]) && |front[|front| - 1].parts| <= 1
  {
    hide WellFormed, OutlineOf, HidingText, Heading, Addressable;
    var (o, front, last) := (OutlineOf(HidingText(k, k', line)), HidingFront(k, line), HidingLast(k'));
    HidingOutline(k, k', line);
    OutlineWellFormed(HidingText(k, k', line));
    assert front[|front| - 1] in o && last in o;
    LookupIs(o, front[|front| - 1]);
    assert o == if k == PREAMBLE then [front[0], last] else [front[0], front[1], last];
  }

  /** The failing family, as texts: with headings "A" and "A /", a change of the lines under
      "A" neither blocks nor is listed. */
  lemma HiddenChange(k: string, k': string) returns (before: string, after: string)
    requires CleanTitle(k) && CleanTitle(k') && k != k' && k + SLASH <= k' + SLASH
    ensures before == HidingText(k, k', "x\n") && after == HidingText(k, k', "z\n")
    ensures Addressable(before) && Addressable(after)
    ensures var (a, b) := (OutlineOf(before), OutlineOf(after));
      && Keys(a) == Keys(b) == {PREAMBLE, k, k'} && DiffOf(a, b, NeverBlind, Diff({}, {}))
      && Text(Lookup(a, k)) != Text(Lookup(b, k)) && !Accounted(a, b, Diff({}, {}), k)
  {
    hide OutlineOf, HidingText, Heading, Addressable, DiffOf, CleanTitle, AlikeBut, LastInParts;
    before, after := HidingText(k, k', "x\n"), HidingText(k, k', "z\n");
    PreambleApart(k, k');
    Fillers();
    HidingOutline(k, k', "x\n");
    HidingOutline(k, k', "z\n");
    HidingOutlineIs(k, k', "x\n");
    HidingOutlineIs(k, k', "z\n");
    HidingAlike(k, "x\n", "z\n", HidingLast(k'));
    ChangeUnseen(OutlineOf(before), HidingFront(k, "x\n"), OutlineOf(after), HidingFront(k, "z\n"), HidingLast(k'), k);
  }

  lemma HidingAlike(k: string, line: string, line': string, last: Entry)
    requires line != line' && last.key != k
    ensures var (fa, fb) := (HidingFront(k, line), HidingFront(k, line'));
      AlikeBut(fa + [last], fb + [last], k) && fa[|fa| - 1].text != fb[|fb| - 1].text
  {
    hide Heading;
    var n := |Heading(k, 2)|;
    assert (Heading(k, 2) + line)[n..] == line && (Heading(k, 2) + line')[n..] == line';
  }

  /** No other prefix runs into the preamble's. */
  lemma PreambleApart(k: string, k': string)
    requires k != k' && k + SLASH <= k' + SLASH
    ensures k' != PREAMBLE
  {
    SlashInside(k, k');
    var s := PREAMBLE + " ";
    forall i: nat | i + 3 <= |s|
      ensures !SlashAt(s, i)
    {
      assert s[i..i + 3][1] == s[i + 1];
    }
  }

  lemma Fillers()
    ensures Filler("x\n") && Filler("z\n")
  {
  }

  ghost predicate Compared(before: string, after: string, keys: set<string>, blind: string -> bool, d: Diff) {
    && Addressable(before) && Addressable(after)
    && Keys(OutlineOf(before)) + Keys(OutlineOf(after)) <= keys
    && DiffOf(OutlineOf(before), OutlineOf(after), blind, d)
  }

  ghost predicate AlwaysAccounts(keys: set<string>) {
    forall before, after, blind, d, key | Compared(before, after, keys, blind, d) && !blind(key) ::
      Text(Lookup(OutlineOf(before), key)) != Text(Lookup(OutlineOf(after), key)) ==>
        Accounted(OutlineOf(before), OutlineOf(after), d, key)
  }

  /** Main result: over all pairs of texts with headings among these, every difference is
      accounted for exactly when no heading's composite prefix runs into another's. */
  lemma AccountsExactly(keys: set<string>)
    requires PREAMBLE in keys && forall k | k in keys :: CleanTitle(k)
    ensures AlwaysAccounts(keys) <==> Separate(keys)
  {
    hide OutlineOf, Addressable, DiffOf, Accounted, CleanTitle, WellFormed, Lookup;
    if Separate(keys) {
      forall before, after, blind, d, key | Compared(before, after, keys, blind, d) && !blind(key)
        ensures Text(Lookup(OutlineOf(before), key)) != Text(Lookup(OutlineOf(after), key)) ==>
          Accounted(OutlineOf(before), OutlineOf(after), d, key)
      {
        OutlineWellFormed(before);
        OutlineWellFormed(after);
        if Text(Lookup(OutlineOf(before), key)) != Text(Lookup(OutlineOf(after), key)) {
          DiffAccounts(OutlineOf(before), OutlineOf(after), blind, d, key);
        }
      }
    } else {
      var k, k' :| k in keys && k' in keys && k + SLASH <= k' + SLASH && k != k';
      var before, after := HiddenChange(k, k');
      assert Compared(before, after, keys, NeverBlind, Diff({}, {})) && !NeverBlind(k);
    }
  }
}
