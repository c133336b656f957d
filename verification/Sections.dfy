/**
 Splitting a Markdown specification into its level-2 sections, and each of those into
 its level-3 parts, without losing a character and without taking a line inside a
 fenced code block for a heading.
 */
module Sections {
  import opened Basics
  import opened GenerationTokens

  // --- Lines -------------------------------------------------------------------------

  /** What ends a line for Python's `splitlines`. */
  predicate EndsLine(c: char) {
    '\n' <= c <= '\r' || '\U{1C}' <= c <= '\U{1E}' || c == '\U{85}' || c == '\U{2028}' || c == '\U{2029}'
  }

  /** What Python's `strip` removes. */
  predicate IsSpace(c: char) {
    || '\t' <= c <= '\r' || '\U{1C}' <= c <= ' ' || c == '\U{85}' || c == '\U{A0}' || c == '\U{1680}'
    || '\U{2000}' <= c <= '\U{200A}' || c == '\U{2028}' || c == '\U{2029}' || c == '\U{202F}' || c == '\U{205F}'
    || c == '\U{3000}'
  }

  /** The length of the first line, with its terminator. */
  function FirstLine(text: string): (n: nat)
    requires text != []
    ensures 0 < n <= |text|
  {
    if EndsLine(text[0]) then if text[0] == '\r' && |text| > 1 && text[1] == '\n' then 2 else 1
    else if |text| == 1 then 1
    else 1 + FirstLine(text[1..])
  }

  function Concat(lines: seq<string>): string {
    if lines == [] then [] else lines[0] + Concat(lines[1..])
  }

  /** `splitlines(keepends=True)`. */
  function SplitLines(text: string): (lines: seq<string>)
    ensures Concat(lines) == text
    decreases |text|
  {
    if text == [] then [] else [text[..FirstLine(text)]] + SplitLines(text[FirstLine(text)..])
  }

  /** One line with its terminator, which is the last character or a "\r\n" pair. */
  predicate OneLine(line: string) {
    && line != []
    && forall k | 0 <= k < |line| - 1 :: EndsLine(line[k]) ==> k == |line| - 2 && line[k] == '\r' && line[k + 1] == '\n'
  }

  lemma {:induction false} FirstIsLine(text: string)
    requires text != []
    ensures OneLine(text[..FirstLine(text)])
    ensures FirstLine(text) < |text| ==>
      && EndsLine(text[FirstLine(text) - 1])
      && !(text[FirstLine(text) - 1] == '\r' && text[FirstLine(text)] == '\n')
  {
    if !EndsLine(text[0]) && |text| > 1 {
      FirstIsLine(text[1..]);
      var n := FirstLine(text);
      assert text[..n] == [text[0]] + text[1..][..n - 1];
    }
  }

  /** What the lines of a text are: terminators end lines and nothing else does, a "\r\n" pair is
      one terminator, and only the last line may go without. */
  lemma {:induction false} SplitLinesExactly(text: string, i: nat)
    requires i < |SplitLines(text)|
    ensures var (lines, line) := (SplitLines(text), SplitLines(text)[i]);
      && OneLine(line)
      && (i + 1 < |lines| ==>
            && EndsLine(line[|line| - 1]) && lines[i + 1] != []
            && !(line[|line| - 1] == '\r' && lines[i + 1][0] == '\n'))
    decreases |text|
  {
    hide OneLine, Concat;
    FirstIsLine(text);
    var rest := text[FirstLine(text)..];
    if i > 0 {
      SplitLinesExactly(rest, i - 1);
    } else if rest != [] {
      assert SplitLines(rest)[0] == rest[..FirstLine(rest)] && SplitLines(text)[1] == SplitLines(rest)[0];
      assert SplitLines(rest)[0][0] == rest[0];
    }
  }

  lemma {:induction false} FirstLineLocal(text: string, n: nat)
    requires text != [] && FirstLine(text) <= n <= |text|
    ensures FirstLine(text[..n]) == FirstLine(text)
  {
    if !EndsLine(text[0]) && |text| > 1 {
      assert n >= 2;
      FirstLineLocal(text[1..], n - 1);
      assert text[..n][1..] == text[1..][..n - 1];
    }
  }

  lemma Associative(a: string, b: string, c: string)
    ensures a + (b + c) == (a + b) + c
  {
  }

  lemma {:induction false} ConcatAppend(a: seq<string>, b: seq<string>)
    ensures Concat(a + b) == Concat(a) + Concat(b)
  {
    if a == [] {
      assert a + b == b;
    } else {
      calc {
        Concat(a + b);
      ==
        (a + b)[0] + Concat((a + b)[1..]);
      ==  { assert (a + b)[0] == a[0] && (a + b)[1..] == a[1..] + b; }
        a[0] + Concat(a[1..] + b);
      ==  { ConcatAppend(a[1..], b); }
        a[0] + (Concat(a[1..]) + Concat(b));
      ==  { Associative(a[0], Concat(a[1..]), Concat(b)); }
        Concat(a) + Concat(b);
      }
    }
  }

  /** The first line is the same whatever is left of the lines after it. */
  lemma SplitCons(text: string, more: string)
    requires text != [] && more <= text[FirstLine(text)..]
    ensures SplitLines(text[..FirstLine(text)] + more) == [text[..FirstLine(text)]] + SplitLines(more)
  {
    var n := FirstLine(text);
    var joined := text[..n] + more;
    assert joined == text[..|joined|];
    FirstLineLocal(text, |joined|);
    assert joined[..n] == text[..n] && joined[n..] == more;
  }

  lemma {:induction false} ConcatPrefix(lines: seq<string>, j: nat)
    requires j <= |lines|
    ensures Concat(lines[..j]) <= Concat(lines)
  {
    ConcatAppend(lines[..j], lines[j..]);
    assert lines[..j] + lines[j..] == lines;
  }

  /** Any run of consecutive lines, joined again, splits into the same lines. */
  lemma {:induction false} SplitPrefix(text: string, j: nat)
    requires j <= |SplitLines(text)|
    ensures SplitLines(Concat(SplitLines(text)[..j])) == SplitLines(text)[..j]
    decreases |text|
  {
    if j > 0 {
      var first, rest := text[..FirstLine(text)], text[FirstLine(text)..];
      SplitPrefix(rest, j - 1);
      ConcatPrefix(SplitLines(rest), j - 1);
      SplitCons(text, Concat(SplitLines(rest)[..j - 1]));
      assert SplitLines(text)[..j] == [first] + SplitLines(rest)[..j - 1];
    }
  }

  lemma {:induction false} SplitSlice(text: string, i: nat, j: nat)
    requires i <= j <= |SplitLines(text)|
    ensures SplitLines(Concat(SplitLines(text)[i..j])) == SplitLines(text)[i..j]
    decreases |text|
  {
    hide FirstLine, Concat;
    var lines := SplitLines(text);
    if i == 0 {
      SplitPrefix(text, j);
      assert lines[0..j] == lines[..j];
    } else {
      var rest := text[FirstLine(text)..];
      SplitSlice(rest, i - 1, j - 1);
      assert lines[i..j] == SplitLines(rest)[i - 1..j - 1];
    }
  }

  // --- Fences and headings -------------------------------------------------------------

  datatype Fence = Fence(mark: char, width: nat)

  function LStrip(s: string): (r: string)
    ensures r == [] || !IsSpace(r[0])
  {
    if s != [] && IsSpace(s[0]) then LStrip(s[1..]) else s
  }

  function RStrip(s: string): (r: string)
    ensures r == [] || !IsSpace(r[|r| - 1])
  {
    if s != [] && IsSpace(s[|s| - 1]) then RStrip(s[..|s| - 1]) else s
  }

  function DropLineEnds(s: string): (r: string)
    ensures r <= s
    ensures forall i | |r| <= i < |s| :: s[i] == '\r' || s[i] == '\n'
  {
    if s != [] && (s[|s| - 1] == '\r' || s[|s| - 1] == '\n') then DropLineEnds(s[..|s| - 1]) else s
  }

  function RunLength(s: string, mark: char): nat {
    if s != [] && s[0] == mark then 1 + RunLength(s[1..], mark) else 0
  }

  /** Three or more backticks, or three or more tildes, after any indentation. */
  function Marker(line: string): Option<Fence> {
    var s := LStrip(line);
    if RunLength(s, '`') >= 3 then Some(Fence('`', RunLength(s, '`')))
    else if RunLength(s, '~') >= 3 then Some(Fence('~', RunLength(s, '~')))
    else None
  }

  /** A fence is closed by a marker of its own kind that is at least as long. */
  function NextFence(fence: Option<Fence>, line: string): Option<Fence> {
    var marker := Marker(line);
    if marker.None? then fence
    else if fence.None? then marker
    else if marker.value.mark == fence.value.mark && marker.value.width >= fence.value.width then None
    else fence
  }

  /** The marker of this line ends that fence. */
  predicate Closes(line: string, f: Fence) {
    Marker(line).Some? && Marker(line).value.mark == f.mark && Marker(line).value.width >= f.width
  }

  predicate IsHeading(line: string, level: nat) {
    var s := LStrip(line);
    Marker(line).None? && RunLength(s, '#') == level < |s| && s[level] == ' ' && |line| - |s| <= 3
  }

  function Title(line: string, level: nat): string
    requires IsHeading(line, level)
  {
    RStrip(LStrip(DropLineEnds(LStrip(line))[level + 1..]))
  }

  predicate Blank(s: string) {
    forall i | 0 <= i < |s| :: IsSpace(s[i])
  }

  function Repeat(c: char, n: nat): string {
    seq(n, _ => c)
  }

  lemma {:induction false} StripSplits(s: string)
    ensures |LStrip(s)| <= |s| && s == s[..|s| - |LStrip(s)|] + LStrip(s) && Blank(s[..|s| - |LStrip(s)|])
  {
    hide IsSpace;
    if s != [] && IsSpace(s[0]) {
      StripSplits(s[1..]);
      var n := |s| - |LStrip(s)|;
      assert s[..n] == [s[0]] + s[1..][..n - 1];
    }
  }

  lemma {:induction false} StripOf(indent: string, rest: string)
    requires Blank(indent) && rest != [] && !IsSpace(rest[0])
    ensures LStrip(indent + rest) == rest
  {
    if indent == [] {
      assert indent + rest == rest;
    } else {
      StripOf(indent[1..], rest);
      assert (indent + rest)[1..] == indent[1..] + rest;
    }
  }

  lemma {:induction false} RunSplits(s: string, c: char)
    ensures RunLength(s, c) <= |s| && s[..RunLength(s, c)] == Repeat(c, RunLength(s, c))
    ensures RunLength(s, c) < |s| ==> s[RunLength(s, c)] != c
  {
    if s != [] && s[0] == c {
      RunSplits(s[1..], c);
    }
  }

  lemma {:induction false} RunOf(c: char, n: nat, rest: string)
    requires rest == [] || rest[0] != c
    ensures RunLength(Repeat(c, n) + rest, c) == n
  {
    if n > 0 {
      RunOf(c, n - 1, rest);
      assert (Repeat(c, n) + rest)[1..] == Repeat(c, n - 1) + rest;
    } else {
      assert Repeat(c, 0) + rest == rest;
    }
  }

  /** A run of one mark after blanks, and what follows it. */
  ghost predicate Marked(line: string, c: char, n: nat, indent: string, rest: string) {
    line == indent + (Repeat(c, n) + rest) && Blank(indent) && (rest == [] || rest[0] != c)
  }

  /** Every line is marked by any character, perhaps not at all. */
  lemma MarkedBy(line: string, c: char) returns (indent: string, rest: string)
    ensures var s := LStrip(line);
      && Marked(line, c, RunLength(s, c), indent, rest) && |indent| == |line| - |s|
      && s == Repeat(c, RunLength(s, c)) + rest
  {
    hide LStrip, RunLength, IsSpace;
    var s := LStrip(line);
    StripSplits(line);
    RunSplits(s, c);
    indent, rest := line[..|line| - |s|], s[RunLength(s, c)..];
    assert s == Repeat(c, RunLength(s, c)) + rest;
  }

  lemma MarkedReads(line: string, c: char, n: nat, indent: string, rest: string)
    requires Marked(line, c, n, indent, rest) && n > 0 && !IsSpace(c)
    ensures LStrip(line) == Repeat(c, n) + rest && |line| - |LStrip(line)| == |indent|
    ensures RunLength(LStrip(line), c) == n && forall d | d != c :: RunLength(LStrip(line), d) == 0
  {
    var run := Repeat(c, n) + rest;
    assert run[0] == c;
    StripOf(indent, run);
    RunOf(c, n, rest);
  }

  /** What a fence marker is: at least three backticks, or at least three tildes, after any
      indentation. */
  lemma MarkerExactly(line: string, c: char, n: nat)
    ensures Marker(line) == Some(Fence(c, n)) <==>
      n >= 3 && (c == '`' || c == '~') && exists indent, rest :: Marked(line, c, n, indent, rest)
  {
    hide Marked, RunLength, LStrip;
    if Marker(line) == Some(Fence(c, n)) {
      var indent, rest := MarkedBy(line, c);
    }
    forall indent, rest | n >= 3 && (c == '`' || c == '~') && Marked(line, c, n, indent, rest)
      ensures Marker(line) == Some(Fence(c, n))
    {
      MarkedReads(line, c, n, indent, rest);
    }
  }

  /** What a heading is: that many hashes and a blank, indented by at most three blanks. */
  lemma HeadingExactly(line: string, level: nat)
    requires level > 0
    ensures IsHeading(line, level) <==>
      exists indent, rest :: Marked(line, '#', level, indent, rest) && |indent| <= 3 && rest != [] && rest[0] == ' '
  {
    hide Marked, RunLength, LStrip;
    if IsHeading(line, level) {
      var indent, rest := MarkedBy(line, '#');
      assert LStrip(line)[level] == rest[0];
    }
    forall indent, rest | Marked(line, '#', level, indent, rest) && |indent| <= 3 && rest != [] && rest[0] == ' '
      ensures IsHeading(line, level)
    {
      MarkedReads(line, '#', level, indent, rest);
      assert (Repeat('#', level) + rest)[level] == rest[0];
    }
  }

  lemma {:induction false} RStripSplits(s: string)
    ensures RStrip(s) <= s && Blank(s[|RStrip(s)|..])
  {
    if s != [] && IsSpace(s[|s| - 1]) {
      RStripSplits(s[..|s| - 1]);
    }
  }

  predicate Trimmed(s: string) {
    s != [] ==> !IsSpace(s[0]) && !IsSpace(s[|s| - 1])
  }

  lemma Strips(s: string) returns (before: string, after: string)
    ensures s == before + (RStrip(LStrip(s)) + after) && Blank(before) && Blank(after) && Trimmed(RStrip(LStrip(s)))
  {
    hide LStrip, RStrip, IsSpace;
    var left := LStrip(s);
    StripSplits(s);
    RStripSplits(left);
    before, after := s[..|s| - |left|], left[|RStrip(left)|..];
    assert left == RStrip(left) + after;
  }

  lemma WithoutLineEnd(s: string, level: nat, rest: string) returns (end: string)
    requires s == Repeat('#', level) + rest && rest != [] && rest[0] == ' '
    ensures |DropLineEnds(s)| > level && Blank(end) && rest == [' '] + (DropLineEnds(s)[level + 1..] + end)
  {
    hide DropLineEnds;
    var bare := DropLineEnds(s);
    assert s[level] == ' ' && |bare| > level;
    end := s[|bare|..];
    assert s == bare + end && rest == s[level..];
  }

  /** What a title is: all that follows the hashes, but for the blanks around it. */
  lemma TitleExactly(line: string, level: nat) returns (indent: string, before: string, after: string)
    requires level > 0 && IsHeading(line, level)
    ensures line == indent + (Repeat('#', level) + (before + (Title(line, level) + after)))
    ensures Blank(indent) && Blank(before) && Blank(after) && before != [] && Trimmed(Title(line, level))
  {
    hide LStrip, RStrip, DropLineEnds, Trimmed, RunLength, IsSpace;
    var rest;
    indent, rest := MarkedBy(line, '#');
    assert rest[0] == LStrip(line)[level] == ' ';
    var end := WithoutLineEnd(LStrip(line), level, rest);
    var lead, trail := Strips(DropLineEnds(LStrip(line))[level + 1..]);
    before, after := [' '] + lead, trail + end;
    BlankParts(lead, trail, end);
    assert rest == before + (Title(line, level) + after);
  }

  lemma BlankParts(lead: string, trail: string, end: string)
    requires Blank(lead) && Blank(trail) && Blank(end)
    ensures Blank([' '] + lead) && Blank(trail + end)
  {
  }

  // --- Sections ------------------------------------------------------------------------

  /** The fence that line i of a document is in. */
  function FenceAt(lines: seq<string>, i: nat): Option<Fence>
    requires i <= |lines|
  {
    if i == 0 then None else NextFence(FenceAt(lines, i - 1), lines[i - 1])
  }

  /** Line m opens fence f, and no line between it and line i closes that. */
  ghost predicate OpenSince(lines: seq<string>, m: nat, i: nat, f: Fence)
    requires m < i <= |lines|
  {
    FenceAt(lines, m).None? && Marker(lines[m]) == Some(f) && forall k | m < k < i :: !Closes(lines[k], f)
  }

  /** Main result: a line is in a fence exactly when an unfenced line before it carries that
      marker and no line between them has a marker of its kind at least as wide. */
  lemma {:induction false} FenceExactly(lines: seq<string>, i: nat, f: Fence)
    requires i <= |lines|
    ensures FenceAt(lines, i) == Some(f) <==> exists m: nat :: m < i && OpenSince(lines, m, i, f)
  {
    hide Marker;
    if i > 0 {
      FenceExactly(lines, i - 1, f);
      if FenceAt(lines, i) == Some(f) {
        if FenceAt(lines, i - 1).None? {
          assert OpenSince(lines, i - 1, i, f);
        } else {
          var m: nat :| m < i - 1 && OpenSince(lines, m, i - 1, f);
          assert OpenSince(lines, m, i, f);
        }
      }
      forall m: nat | m < i && OpenSince(lines, m, i, f)
        ensures FenceAt(lines, i) == Some(f)
      {
        if m < i - 1 {
          assert OpenSince(lines, m, i - 1, f);
        }
      }
    }
  }

  /** Line i starts a section: a heading outside every fence. */
  predicate Opens(lines: seq<string>, i: nat, level: nat)
    requires i < |lines|
  {
    FenceAt(lines, i).None? && IsHeading(lines[i], level)
  }

  /** All lines before n that start a section, in order. */
  function Cuts(lines: seq<string>, level: nat, n: nat): seq<nat>
    requires n <= |lines|
  {
    if n == 0 then [] else Cuts(lines, level, n - 1) + if Opens(lines, n - 1, level) then [n - 1] else []
  }

  lemma {:induction false} CutsMeaning(lines: seq<string>, level: nat, n: nat)
    requires n <= |lines|
    ensures var cuts := Cuts(lines, level, n);
      && (forall i: nat :: i in cuts <==> i < n && Opens(lines, i, level))
      && (forall k | 0 <= k < |cuts| :: cuts[k] < n)
      && (forall j, k | 0 <= j < k < |cuts| :: cuts[j] < cuts[k])
  {
    hide Opens;
    if n > 0 {
      CutsMeaning(lines, level, n - 1);
      var before, cuts := Cuts(lines, level, n - 1), Cuts(lines, level, n);
      assert before <= cuts && |cuts| <= |before| + 1;
      assert |cuts| > |before| ==> cuts[|before|] == n - 1;
    }
  }

  /** Where section k of the first n lines begins and ends; section 0 is the preamble. */
  function Start(cuts: seq<nat>, k: nat): nat
    requires k <= |cuts|
  {
    if k == 0 then 0 else cuts[k - 1]
  }

  function End(cuts: seq<nat>, n: nat, k: nat): nat
    requires k <= |cuts|
  {
    if k < |cuts| then cuts[k] else n
  }

  /** How many sections follow the preamble. */
  function Count(lines: seq<string>, level: nat): nat {
    |Cuts(lines, level, |lines|)|
  }

  function From(lines: seq<string>, level: nat, k: nat): (i: nat)
    requires k <= Count(lines, level)
    ensures if k == 0 then i == 0 else i < |lines| && Opens(lines, i, level)
  {
    CutsMeaning(lines, level, |lines|);
    var cuts := Cuts(lines, level, |lines|);
    assert k > 0 ==> cuts[k - 1] in cuts;
    Start(cuts, k)
  }

  function To(lines: seq<string>, level: nat, k: nat): (j: nat)
    requires k <= Count(lines, level)
    ensures From(lines, level, k) <= j <= |lines|
    ensures j == if k < Count(lines, level) then From(lines, level, k + 1) else |lines|
  {
    CutsMeaning(lines, level, |lines|);
    End(Cuts(lines, level, |lines|), |lines|, k)
  }

  function SectionLines(lines: seq<string>, level: nat, k: nat): (r: seq<string>)
    requires k <= Count(lines, level)
  {
    lines[From(lines, level, k)..To(lines, level, k)]
  }

  const PREAMBLE := "(preamble)"

  /** The raw titles, in order. */
  function Titles(lines: seq<string>, level: nat, n: nat): (titles: seq<string>)
    requires n <= |lines|
    ensures |titles| == |Cuts(lines, level, n)| + 1 && titles[0] == PREAMBLE
  {
    if n == 0 then [PREAMBLE]
    else Titles(lines, level, n - 1) + if Opens(lines, n - 1, level) then [Title(lines[n - 1], level)] else []
  }

  /** How often title k has occurred up to and including k. */
  function Occurrence(titles: seq<string>, k: nat): (n: nat)
    requires k < |titles|
    ensures n >= 1
  {
    multiset(titles[..k])[titles[k]] + 1
  }

  function Numbered(title: string, n: nat): string {
    title + "#" + Dec(n)
  }

  /** A repeated title carries its number. */
  function Key(titles: seq<string>, k: nat): string
    requires k < |titles|
  {
    if Occurrence(titles, k) == 1 then titles[k] else Numbered(titles[k], Occurrence(titles, k))
  }

  datatype Section = Section(key: string, text: string)

  /** Every section with its key and its text. */
  function Split(text: string, level: nat): (r: seq<Section>)
    ensures var lines := SplitLines(text); |r| == |Titles(lines, level, |lines|)|
  {
    var lines := SplitLines(text);
    var titles := Titles(lines, level, |lines|);
    seq(|titles|, k requires 0 <= k < |titles| =>
      Section(Key(titles, k), Concat(SectionLines(lines, level, k))))
  }

  /** One line: the fence after it, and whether it starts a section. */
  method Read(line: string, level: nat, before: Option<Fence>) returns (fence: Option<Fence>, opens: bool)
    ensures fence == NextFence(before, line) && (opens <==> before.None? && IsHeading(line, level))
  {
    fence, opens := before, false;
    var marker := Marker(line);
    if marker.Some? {
      if fence.None? {
        fence := marker;
      } else if marker.value.mark == fence.value.mark && marker.value.width >= fence.value.width {
        fence := None;
      }
    } else {
      opens := fence.None? && IsHeading(line, level);
    }
  }

  ghost predicate SliceAt(lines: seq<string>, cuts: seq<nat>, n: nat, body: seq<string>, k: nat)
    requires k <= |cuts|
  {
    Start(cuts, k) <= End(cuts, n, k) <= n <= |lines| && body == lines[Start(cuts, k)..End(cuts, n, k)]
  }

  ghost predicate Sliced(lines: seq<string>, cuts: seq<nat>, n: nat, bodies: seq<seq<string>>) {
    && n <= |lines| && |bodies| == |cuts| + 1
    && forall k: nat | k < |bodies| :: SliceAt(lines, cuts, n, bodies[k], k)
  }

  /** A new section starts empty. */
  lemma SlicedOpen(lines: seq<string>, cuts: seq<nat>, n: nat, bodies: seq<seq<string>>)
    requires Sliced(lines, cuts, n, bodies) && n < |lines|
    ensures Sliced(lines, cuts + [n], n, bodies + [[]])
  {
    forall k: nat | k < |bodies| + 1
      ensures SliceAt(lines, cuts + [n], n, (bodies + [[]])[k], k)
    {
      if k < |bodies| {
        assert SliceAt(lines, cuts, n, bodies[k], k);
        assert Start(cuts + [n], k) == Start(cuts, k) && End(cuts + [n], n, k) == End(cuts, n, k);
      }
    }
  }

  function WithLine(bodies: seq<seq<string>>, line: string): seq<seq<string>>
    requires bodies != []
  {
    bodies[|bodies| - 1 := bodies[|bodies| - 1] + [line]]
  }

  /** A line goes to the last section. */
  lemma SlicedLine(lines: seq<string>, cuts: seq<nat>, n: nat, bodies: seq<seq<string>>)
    requires Sliced(lines, cuts, n, bodies) && n < |lines|
    ensures Sliced(lines, cuts, n + 1, WithLine(bodies, lines[n]))
  {
    forall k: nat | k < |bodies|
      ensures SliceAt(lines, cuts, n + 1, WithLine(bodies, lines[n])[k], k)
    {
      assert SliceAt(lines, cuts, n, bodies[k], k);
      if k == |bodies| - 1 {
        assert lines[Start(cuts, k)..n] + [lines[n]] == lines[Start(cuts, k)..n + 1];
      }
    }
  }

  /** What the loop has built from the first n lines. */
  ghost predicate Grouped(lines: seq<string>, level: nat, n: nat, titles: seq<string>, bodies: seq<seq<string>>) {
    n <= |lines| && titles == Titles(lines, level, n) && Sliced(lines, Cuts(lines, level, n), n, bodies)
  }

  lemma GroupedNone(lines: seq<string>, level: nat)
    ensures Grouped(lines, level, 0, [PREAMBLE], [[]])
  {
    hide Opens, Title;
    var bodies: seq<seq<string>> := [[]];
    assert Cuts(lines, level, 0) == [] && Titles(lines, level, 0) == [PREAMBLE];
    assert lines[0..0] == [] && SliceAt(lines, [], 0, bodies[0], 0);
  }

  lemma GroupedStep(lines: seq<string>, level: nat, n: nat, titles: seq<string>, bodies: seq<seq<string>>)
    requires Grouped(lines, level, n, titles, bodies) && n < |lines|
    ensures Opens(lines, n, level) ==>
      Grouped(lines, level, n + 1, titles + [Title(lines[n], level)], WithLine(bodies + [[]], lines[n]))
    ensures !Opens(lines, n, level) ==> Grouped(lines, level, n + 1, titles, WithLine(bodies, lines[n]))
  {
    var cuts := Cuts(lines, level, n);
    if Opens(lines, n, level) {
      SlicedOpen(lines, cuts, n, bodies);
      SlicedLine(lines, cuts + [n], n, bodies + [[]]);
      assert Cuts(lines, level, n + 1) == cuts + [n];
    } else {
      SlicedLine(lines, cuts, n, bodies);
      assert Cuts(lines, level, n + 1) == cuts + [] == cuts;
      assert Titles(lines, level, n + 1) == titles + [] == titles;
    }
  }

  lemma GroupedDone(lines: seq<string>, level: nat, titles: seq<string>, bodies: seq<seq<string>>, k: nat)
    requires Grouped(lines, level, |lines|, titles, bodies) && k < |bodies|
    ensures titles == Titles(lines, level, |lines|)
    ensures |bodies| == Count(lines, level) + 1 && bodies[k] == SectionLines(lines, level, k)
  {
    assert SliceAt(lines, Cuts(lines, level, |lines|), |lines|, bodies[k], k);
  }

  /** The first loop of `split_sections`. */
  method Group(lines: seq<string>, level: nat) returns (titles: seq<string>, bodies: seq<seq<string>>)
    ensures titles == Titles(lines, level, |lines|) && |bodies| == Count(lines, level) + 1
    ensures forall k | 0 <= k < |bodies| :: bodies[k] == SectionLines(lines, level, k)
  {
    hide Grouped, NextFence, IsHeading;
    titles, bodies := [PREAMBLE], [[]];
    var fence: Option<Fence> := None;
    GroupedNone(lines, level);
    var i := 0;
    while i < |lines|
      invariant 0 <= i <= |lines| && fence == FenceAt(lines, i)
      invariant bodies != [] && Grouped(lines, level, i, titles, bodies)
    {
      var next, opens := Read(lines[i], level, fence);
      GroupedStep(lines, level, i, titles, bodies);
      if opens {
        titles, bodies := titles + [Title(lines[i], level)], bodies + [[]];
      }
      bodies := WithLine(bodies, lines[i]);
      fence, i := next, i + 1;
    }
    GroupedDone(lines, level, titles, bodies, 0);
    forall k | 0 <= k < |bodies|
      ensures bodies[k] == SectionLines(lines, level, k)
    {
      GroupedDone(lines, level, titles, bodies, k);
    }
  }

  function SeenTimes(seen: map<string, nat>, title: string): nat {
    if title in seen then seen[title] else 0
  }

  ghost predicate Seen(seen: map<string, nat>, titles: seq<string>, k: nat)
    requires k <= |titles|
  {
    forall t :: SeenTimes(seen, t) == multiset(titles[..k])[t]
  }

  lemma SeenStep(seen: map<string, nat>, titles: seq<string>, k: nat)
    requires k < |titles| && Seen(seen, titles, k)
    ensures SeenTimes(seen, titles[k]) + 1 == Occurrence(titles, k)
    ensures Seen(seen[titles[k] := Occurrence(titles, k)], titles, k + 1)
  {
    assert titles[..k + 1] == titles[..k] + [titles[k]];
    assert SeenTimes(seen, titles[k]) == multiset(titles[..k])[titles[k]];
  }

  /** The second loop: numbers repeated titles and joins the lines. */
  method Address(titles: seq<string>, bodies: seq<seq<string>>) returns (r: seq<Section>)
    requires |bodies| == |titles|
    ensures |r| == |titles|
    ensures forall k | 0 <= k < |r| :: r[k] == Section(Key(titles, k), Concat(bodies[k]))
  {
    hide Concat, Numbered, Occurrence;
    var seen: map<string, nat> := map[];
    r := [];
    var k := 0;
    while k < |titles|
      invariant 0 <= k <= |titles| && |r| == k && Seen(seen, titles, k)
      invariant forall j | 0 <= j < k :: r[j] == Section(Key(titles, j), Concat(bodies[j]))
    {
      SeenStep(seen, titles, k);
      var count := SeenTimes(seen, titles[k]) + 1;
      seen := seen[titles[k] := count];
      r := r + [Section(if count > 1 then Numbered(titles[k], count) else titles[k], Concat(bodies[k]))];
      k := k + 1;
    }
  }

  /** `split_sections`. */
  method SplitSections(text: string, level: nat) returns (r: seq<Section>)
    ensures r == Split(text, level)
  {
    var titles, bodies := Group(SplitLines(text), level);
    r := Address(titles, bodies);
  }

  // --- Nothing is lost, and nothing fenced is a heading ----------------------------------

  function Joined(r: seq<Section>): string {
    if r == [] then [] else Joined(r[..|r| - 1]) + r[|r| - 1].text
  }

  lemma JoinedStep(lines: seq<string>, mid: nat, end: nat, r: seq<Section>, k: nat)
    requires mid <= end <= |lines| && k < |r|
    requires Joined(r[..k]) == Concat(lines[..mid]) && r[k].text == Concat(lines[mid..end])
    ensures Joined(r[..k + 1]) == Concat(lines[..end])
  {
    hide Concat;
    ConcatAppend(lines[..mid], lines[mid..end]);
    assert lines[..mid] + lines[mid..end] == lines[..end];
    assert r[..k + 1][..k] == r[..k];
  }

  lemma JoinedNone(lines: seq<string>, r: seq<Section>)
    ensures Joined(r[..0]) == Concat(lines[..0]) == []
  {
    assert r[..0] == [] && lines[..0] == [];
  }

  lemma {:induction false} JoinedUpTo(lines: seq<string>, level: nat, r: seq<Section>, k: nat)
    requires k < |r| == Count(lines, level) + 1
    requires forall i | 0 <= i < |r| :: r[i].text == Concat(SectionLines(lines, level, i))
    ensures Joined(r[..k + 1]) == Concat(lines[..To(lines, level, k)])
  {
    hide Concat, Joined, From, To;
    if k == 0 {
      JoinedNone(lines, r);
    } else {
      JoinedUpTo(lines, level, r, k - 1);
    }
    assert r[k].text == Concat(SectionLines(lines, level, k));
    JoinedStep(lines, From(lines, level, k), To(lines, level, k), r, k);
  }

  /** Main result: the sections, put together again, are the text. */
  lemma Lossless(text: string, level: nat)
    ensures Joined(Split(text, level)) == text
  {
    hide Concat, Joined, SplitLines, Titles, Key;
    var lines, r := SplitLines(text), Split(text, level);
    JoinedUpTo(lines, level, r, Count(lines, level));
    assert lines[..|lines|] == lines;
    assert r[..|r|] == r;
  }

  /** A section starts outside every fence, so its own lines, read alone, are in the same
      fences as within the document. */
  lemma {:induction false} FenceRestarts(lines: seq<string>, level: nat, k: nat, j: nat)
    requires k <= Count(lines, level) && j <= |SectionLines(lines, level, k)|
    ensures FenceAt(SectionLines(lines, level, k), j) == FenceAt(lines, From(lines, level, k) + j)
  {
    hide From, To, NextFence;
    if j > 0 {
      FenceRestarts(lines, level, k, j - 1);
      assert SectionLines(lines, level, k)[j - 1] == lines[From(lines, level, k) + j - 1];
    }
  }

  /** A section's text splits into the lines it came from. */
  lemma SectionResplits(text: string, level: nat, k: nat)
    requires k < |Split(text, level)|
    ensures SplitLines(Split(text, level)[k].text) == SectionLines(SplitLines(text), level, k)
  {
    SplitSlice(text, From(SplitLines(text), level, k), To(SplitLines(text), level, k));
  }

  /** Line j of a list starts a section just where line i of another does. */
  predicate SameOpening(own: seq<string>, j: nat, lines: seq<string>, i: nat, level: nat) {
    j < |own| && i < |lines| && own[j] == lines[i] && (Opens(own, j, level) <==> Opens(lines, i, level))
  }

  lemma OpensWithin(lines: seq<string>, level: nat, inner: nat, k: nat, j: nat)
    requires k <= Count(lines, level) && j < |SectionLines(lines, level, k)|
    ensures SameOpening(SectionLines(lines, level, k), j, lines, From(lines, level, k) + j, inner)
  {
    hide FenceAt, IsHeading, From, To;
    FenceRestarts(lines, level, k, j);
  }

  /** Main result: splitting a section's text at the next level starts a part exactly at
      the lines that are headings of that level outside every fence of the whole document. */
  lemma NestedSplit(text: string, level: nat, inner: nat, k: nat, own: seq<string>, j: nat)
    requires k < |Split(text, level)| && own == SplitLines(Split(text, level)[k].text) && j < |own|
    ensures SameOpening(own, j, SplitLines(text), From(SplitLines(text), level, k) + j, inner)
  {
    hide FenceAt, Opens, SplitLines, Split, SectionLines;
    SectionResplits(text, level, k);
    OpensWithin(SplitLines(text), level, inner, k, j);
  }

  /** Every section but the preamble starts with its own heading, outside every fence, and
      no later line of it is such a heading. */
  lemma SectionsStartAtHeadings(lines: seq<string>, level: nat, k: nat, j: nat)
    requires 0 < k <= Count(lines, level) && j < |SectionLines(lines, level, k)|
    ensures Opens(lines, From(lines, level, k) + j, level) <==> j == 0
  {
    hide FenceAt, IsHeading, Cuts;
    var cuts := Cuts(lines, level, |lines|);
    CutsMeaning(lines, level, |lines|);
    var i := From(lines, level, k) + j;
    if j > 0 {
      forall m | 0 <= m < |cuts|
        ensures cuts[m] != i
      {
        assert m < k ==> cuts[m] <= cuts[k - 1];
        assert m > k ==> cuts[m] >= cuts[k];
      }
      assert i !in cuts;
    }
  }

  // --- Addresses -----------------------------------------------------------------------

  lemma LastHash(t: string, n: nat)
    ensures var s := Numbered(t, n); s[|t|] == '#' && forall i | |t| < i < |s| :: s[i] != '#'
  {
    var (s, d) := (Numbered(t, n), Dec(n));
    forall i | |t| < i < |s|
      ensures s[i] != '#'
    {
      assert s[i] == d[i - |t| - 1] && d[i - |t| - 1] in d;
    }
  }

  /** What numbering appends is "#" and digits. */
  lemma NumberTail(title: string, n: nat, i: nat)
    requires |title| <= i < |Numbered(title, n)|
    ensures var c := Numbered(title, n)[i]; c == '#' || '0' <= c <= '9'
  {
    hide Dec;
    assert i > |title| ==> Numbered(title, n)[i] in Dec(n);
  }

  lemma NumberedInjective(t: string, n: nat, t': string, n': nat)
    requires Numbered(t, n) == Numbered(t', n')
    ensures t == t' && n == n'
  {
    LastHash(t, n);
    LastHash(t', n');
    var s := Numbered(t, n);
    assert t == s[..|t|] && t' == s[..|t'|];
    assert Dec(n) == s[|t| + 1..] && Dec(n') == s[|t'| + 1..];
    NumOfDec(n);
    NumOfDec(n');
  }

  lemma OccurrencesGrow(titles: seq<string>, i: nat, j: nat)
    requires i < j < |titles| && titles[i] == titles[j]
    ensures Occurrence(titles, i) < Occurrence(titles, j)
  {
    assert titles[..j] == titles[..i] + [titles[i]] + titles[i + 1..j];
  }

  lemma {:induction false} FirstOccurrence(titles: seq<string>, i: nat) returns (first: nat)
    requires i < |titles|
    ensures first <= i && titles[first] == titles[i] && Occurrence(titles, first) == 1
  {
    first := i;
    if Occurrence(titles, i) != 1 {
      assert titles[i] in multiset(titles[..i]);
      var j :| 0 <= j < i && titles[..i][j] == titles[i];
      first := FirstOccurrence(titles, j);
    }
  }

  /** Title i is written like the number that repetition gives to title j. */
  predicate Impersonates(titles: seq<string>, i: nat, j: nat)
    requires i < |titles| && j < |titles|
  {
    Occurrence(titles, j) > 1 && titles[i] == Numbered(titles[j], Occurrence(titles, j))
  }

  predicate SameKey(titles: seq<string>, i: nat, j: nat)
    requires i < |titles| && j < |titles|
  {
    Key(titles, i) == Key(titles, j)
  }

  /** Every section is addressable exactly when no heading is spelled like the numbered
      repetition of another: with "A", "A" and "A#2", two sections share a key. */
  lemma KeysUniqueExactly(titles: seq<string>)
    ensures (forall i, j | 0 <= i < j < |titles| :: !SameKey(titles, i, j)) <==>
            (forall i, j | 0 <= i < |titles| && 0 <= j < |titles| :: !Impersonates(titles, i, j))
  {
    forall i: nat, j: nat | i < |titles| && j < |titles| && Impersonates(titles, i, j)
      ensures exists a, b :: 0 <= a < b < |titles| && SameKey(titles, a, b)
    {
      var first := FirstOccurrence(titles, i);
      assert SameKey(titles, first, j) && first != j;
      assert if first < j then SameKey(titles, first, j) else SameKey(titles, j, first);
    }
    forall i: nat, j: nat | i < j < |titles| && SameKey(titles, i, j)
      ensures Impersonates(titles, i, j) || Impersonates(titles, j, i)
    {
      DistinctUnlessImpersonated(titles, i, j);
    }
  }

  lemma DistinctUnlessImpersonated(titles: seq<string>, i: nat, j: nat)
    requires i < j < |titles| && SameKey(titles, i, j)
    ensures Impersonates(titles, i, j) || Impersonates(titles, j, i)
  {
    var (n, m) := (Occurrence(titles, i), Occurrence(titles, j));
    if titles[i] == titles[j] {
      OccurrencesGrow(titles, i, j);
    }
    if n > 1 && m > 1 {
      NumberedInjective(titles[i], n, titles[j], m);
    }
  }

  /** The titles of a text at one level, the preamble's first. */
  function Headings(text: string, level: nat): (titles: seq<string>)
    ensures |titles| == |Split(text, level)|
  {
    Titles(SplitLines(text), level, |SplitLines(text)|)
  }

  /** No heading of the text is spelled like the numbered repetition of another. */
  ghost predicate Unnumbered(text: string, level: nat) {
    var titles := Headings(text, level);
    forall i, j | 0 <= i < |titles| && 0 <= j < |titles| :: !Impersonates(titles, i, j)
  }

  ghost predicate Distinct(r: seq<Section>) {
    forall i, j | 0 <= i < j < |r| :: r[i].key != r[j].key
  }

  /** Main result: every section of a text has its own key exactly when no heading is
      spelled like the numbered repetition of another. */
  lemma AddressableExactly(text: string, level: nat)
    ensures Distinct(Split(text, level)) <==> Unnumbered(text, level)
  {
    hide Impersonates, Key, Titles;
    var titles, r := Headings(text, level), Split(text, level);
    KeysUniqueExactly(titles);
    assert forall k | 0 <= k < |r| :: r[k].key == Key(titles, k);
    KeyedDistinct(titles, r);
  }

  lemma KeyedDistinct(titles: seq<string>, r: seq<Section>)
    requires |r| == |titles| && forall k | 0 <= k < |r| :: r[k].key == Key(titles, k)
    ensures Distinct(r) <==> forall i, j | 0 <= i < j < |titles| :: !SameKey(titles, i, j)
  {
    hide Key;
    if Distinct(r) {
      forall i, j | 0 <= i < j < |titles|
        ensures !SameKey(titles, i, j)
      {
        assert r[i].key != r[j].key;
      }
    } else {
      var i, j :| 0 <= i < j < |r| && r[i].key == r[j].key;
      assert SameKey(titles, i, j);
    }
  }

  /** Ends in "#" and digits: what a writer of headings can check. */
  predicate EndsInNumber(title: string) {
    exists i: nat :: i + 1 < |title| && title[i] == '#' && AllDigits(title[i + 1..])
  }

  lemma UniqueTitles(titles: seq<string>)
    requires forall i, j | 0 <= i < j < |titles| :: titles[i] != titles[j]
    ensures forall k | 0 <= k < |titles| :: Occurrence(titles, k) == 1 && Key(titles, k) == titles[k]
  {
    forall k | 0 <= k < |titles|
      ensures Occurrence(titles, k) == 1
    {
      assert titles[k] !in titles[..k];
      assert titles[k] !in multiset(titles[..k]);
    }
  }

  lemma ImpersonatorEnds(titles: seq<string>, i: nat, j: nat)
    requires i < |titles| && j < |titles| && Impersonates(titles, i, j)
    ensures EndsInNumber(titles[i])
  {
    var (t, m, n) := (titles[i], |titles[j]|, Dec(Occurrence(titles, j)));
    assert t == titles[j] + ['#'] + n;
    assert t[m] == '#' && t[m + 1..] == n;
  }

  // --- Every list of sections is the split of a text -------------------------------------

  /** A line as `splitlines` leaves it, ended by a newline. */
  predicate CleanLine(line: string) {
    line != [] && line[|line| - 1] == '\n' && forall i | 0 <= i < |line| - 1 :: !EndsLine(line[i])
  }

  /** A title that a heading line can carry. */
  predicate CleanTitle(title: string) {
    LStrip(title) == title && RStrip(title) == title && forall i | 0 <= i < |title| :: !EndsLine(title[i])
  }

  lemma {:induction false} FirstOfClean(line: string, rest: string)
    requires CleanLine(line)
    ensures FirstLine(line + rest) == |line|
  {
    if |line| > 1 {
      FirstOfClean(line[1..], rest);
      assert (line + rest)[1..] == line[1..] + rest;
    }
  }

  lemma {:induction false} SplitClean(lines: seq<string>)
    requires forall i | 0 <= i < |lines| :: CleanLine(lines[i])
    ensures SplitLines(Concat(lines)) == lines
  {
    if lines != [] {
      var rest := Concat(lines[1..]);
      FirstOfClean(lines[0], rest);
      SplitClean(lines[1..]);
      assert (lines[0] + rest)[..|lines[0]|] == lines[0] && (lines[0] + rest)[|lines[0]|..] == rest;
    }
  }

  function Heading(title: string, level: nat): string {
    Repeat('#', level) + [' '] + title + ['\n']
  }

  /** A heading line reads as the heading it was written as, and as no other. */
  lemma HeadingReads(title: string, level: nat)
    requires CleanTitle(title) && level > 0
    ensures CleanLine(Heading(title, level)) && Marker(Heading(title, level)).None?
    ensures IsHeading(Heading(title, level), level) && Title(Heading(title, level), level) == title
    ensures forall other: nat | other != level :: !IsHeading(Heading(title, level), other)
  {
    var h := Heading(title, level);
    assert h[0] == '#' && LStrip(h) == h;
    RunOf('#', level, [' '] + title + ['\n']);
    assert h == Repeat('#', level) + ([' '] + title + ['\n']);
    var bare := h[..|h| - 1];
    assert bare[|bare| - 1] == if title == [] then ' ' else title[|title| - 1];
    assert DropLineEnds(h) == DropLineEnds(bare) == bare;
    assert bare[level + 1..] == title;
  }

  /** One section to be written: its title, and the lines under its heading. */
  datatype Chapter = Chapter(title: string, body: seq<string>)

  /** Lines that close every fence they open and start no section; a fenced line may look like
      a heading. */
  ghost predicate Closed(body: seq<string>, level: nat) {
    && (forall i | 0 <= i < |body| :: CleanLine(body[i]))
    && FenceAt(body, |body|).None?
    && forall i | 0 <= i < |body| :: !Opens(body, i, level)
  }

  ghost predicate Writable(pre: seq<string>, chapters: seq<Chapter>, level: nat) {
    && level > 0 && Closed(pre, level)
    && forall k | 0 <= k < |chapters| :: WritableChapter(chapters[k], level)
  }

  ghost predicate WritableChapter(c: Chapter, level: nat) {
    CleanTitle(c.title) && Closed(c.body, level)
  }

  predicate PlainLine(line: string, level: nat) {
    CleanLine(line) && Marker(line).None? && !IsHeading(line, level)
  }

  lemma PlainIsClosed(body: seq<string>, level: nat)
    requires forall i | 0 <= i < |body| :: PlainLine(body[i], level)
    ensures Closed(body, level)
  {
    hide CleanLine, Marker, IsHeading;
    NoFence(body, |body|);
  }

  lemma {:induction false} NoFence(lines: seq<string>, n: nat)
    requires n <= |lines| && forall i | 0 <= i < n :: Marker(lines[i]).None?
    ensures FenceAt(lines, n).None?
  {
    if n > 0 {
      NoFence(lines, n - 1);
    }
  }

  /** Inside a fenced block anything may stand that does not close it. */
  lemma FencedIsClosed(fence: string, inner: seq<string>, level: nat)
    requires CleanLine(fence) && Marker(fence).Some?
    requires forall i | 0 <= i < |inner| :: CleanLine(inner[i]) && !Closes(inner[i], Marker(fence).value)
    ensures Closed([fence] + inner + [fence], level)
  {
    hide CleanLine, Marker;
    var body := [fence] + inner + [fence];
    forall i | 1 <= i < |body|
      ensures FenceAt(body, i) == Marker(fence)
    {
      InsideFence(body, fence, i);
    }
    assert FenceAt(body, 0).None?;
    assert FenceAt(body, |body|) == NextFence(Marker(fence), fence);
  }

  lemma {:induction false} InsideFence(body: seq<string>, fence: string, i: nat)
    requires 1 <= i <= |body| && body[0] == fence && Marker(fence).Some?
    requires forall k | 1 <= k < i :: !Closes(body[k], Marker(fence).value)
    ensures FenceAt(body, i) == Marker(fence)
  {
    hide Marker;
    if i == 1 {
      assert FenceAt(body, 0).None?;
    } else {
      InsideFence(body, fence, i - 1);
    }
  }

  function ChapterLines(c: Chapter, level: nat): seq<string> {
    [Heading(c.title, level)] + c.body
  }

  /** The lines of a document with this preamble and these sections. */
  function Write(pre: seq<string>, chapters: seq<Chapter>, level: nat): seq<string> {
    if chapters == [] then pre
    else Write(pre, chapters[..|chapters| - 1], level) + ChapterLines(chapters[|chapters| - 1], level)
  }

  function TitlesOf(chapters: seq<Chapter>): seq<string> {
    [PREAMBLE] + seq(|chapters|, k requires 0 <= k < |chapters| => chapters[k].title)
  }

  function BodiesOf(pre: seq<string>, chapters: seq<Chapter>, level: nat): seq<seq<string>> {
    [pre] + seq(|chapters|, k requires 0 <= k < |chapters| => ChapterLines(chapters[k], level))
  }

  lemma {:induction false} WriteClean(pre: seq<string>, chapters: seq<Chapter>, level: nat, i: nat)
    requires Writable(pre, chapters, level) && i < |Write(pre, chapters, level)|
    ensures CleanLine(Write(pre, chapters, level)[i])
  {
    hide CleanLine, CleanTitle, Heading, Opens;
    if chapters != [] {
      var front, last := chapters[..|chapters| - 1], chapters[|chapters| - 1];
      var n := |Write(pre, front, level)|;
      assert WritableChapter(last, level);
      if i < n {
        WriteClean(pre, front, level, i);
      } else if i == n {
        HeadingReads(last.title, level);
      }
    }
  }

  /** From an unfenced line on, the fences are those of the lines alone. */
  lemma {:induction false} FenceShift(lines: seq<string>, n: nat, body: seq<string>, k: nat)
    requires n <= |lines| && body <= lines[n..] && k <= |body| && FenceAt(lines, n).None?
    ensures FenceAt(lines, n + k) == FenceAt(body, k)
  {
    hide NextFence;
    if k > 0 {
      FenceShift(lines, n, body, k - 1);
      assert lines[n + k - 1] == body[k - 1];
    }
  }

  lemma ClosedShift(lines: seq<string>, level: nat, n: nat, body: seq<string>)
    requires n <= |lines| && body <= lines[n..] && FenceAt(lines, n).None? && Closed(body, level)
    ensures FenceAt(lines, n + |body|).None?
    ensures forall i | n <= i < n + |body| :: !Opens(lines, i, level)
  {
    hide NextFence, CleanLine, IsHeading;
    FenceShift(lines, n, body, |body|);
    forall i | n <= i < n + |body|
      ensures !Opens(lines, i, level)
    {
      FenceShift(lines, n, body, i - n);
      assert lines[i] == body[i - n] && !Opens(body, i - n, level);
    }
  }

  /** Lines that open nothing are all added to the last section. */
  lemma {:induction false} GroupedPlain(lines: seq<string>, level: nat, n: nat, more: seq<string>,
                                        titles: seq<string>, bodies: seq<seq<string>>)
    requires n <= |lines| && more <= lines[n..]
    requires Grouped(lines, level, n, titles, bodies) && bodies != []
    requires forall i | n <= i < n + |more| :: !Opens(lines, i, level)
    ensures Grouped(lines, level, n + |more|, titles, bodies[|bodies| - 1 := bodies[|bodies| - 1] + more])
    decreases |more|
  {
    hide Grouped, Opens;
    var last := bodies[|bodies| - 1];
    if more == [] {
      assert last + more == last && bodies[|bodies| - 1 := last] == bodies;
    } else {
      assert lines[n] == more[0] && !Opens(lines, n, level);
      GroupedStep(lines, level, n, titles, bodies);
      var next := WithLine(bodies, lines[n]);
      assert more[1..] <= lines[n + 1..];
      GroupedPlain(lines, level, n + 1, more[1..], titles, next);
      assert last + [more[0]] + more[1..] == last + more;
      assert next[|next| - 1 := last + more] == bodies[|bodies| - 1 := last + more];
    }
  }

  lemma GroupedHeading(lines: seq<string>, level: nat, n: nat, c: Chapter, titles: seq<string>,
                       bodies: seq<seq<string>>)
    requires Grouped(lines, level, n, titles, bodies) && bodies != [] && n < |lines|
    requires level > 0 && CleanTitle(c.title) && FenceAt(lines, n).None? && lines[n] == Heading(c.title, level)
    ensures Grouped(lines, level, n + 1, titles + [c.title], bodies + [[lines[n]]])
  {
    hide Grouped, Heading, IsHeading, Title, FenceAt, Marker, LStrip, RStrip;
    HeadingReads(c.title, level);
    assert Opens(lines, n, level);
    GroupedStep(lines, level, n, titles, bodies);
    assert (bodies + [[]])[|bodies|] == [] && [] + [lines[n]] == [lines[n]];
    assert WithLine(bodies + [[]], lines[n]) == bodies + [[lines[n]]];
  }

  lemma ChapterAt(lines: seq<string>, n: nat, c: Chapter, level: nat)
    requires n <= |lines| && ChapterLines(c, level) <= lines[n..]
    ensures |ChapterLines(c, level)| == 1 + |c.body|
    ensures n < |lines| && lines[n] == Heading(c.title, level) && c.body <= lines[n + 1..]
  {
    hide Heading;
    var own := ChapterLines(c, level);
    assert lines[n] == own[0] && own[1..] == c.body;
    assert lines[n + 1..] == lines[n..][1..];
  }

  lemma GroupedChapter(lines: seq<string>, level: nat, n: nat, c: Chapter, titles: seq<string>,
                       bodies: seq<seq<string>>)
    requires n <= |lines| && ChapterLines(c, level) <= lines[n..]
    requires Grouped(lines, level, n, titles, bodies) && bodies != []
    requires level > 0 && WritableChapter(c, level) && FenceAt(lines, n).None?
    ensures Grouped(lines, level, n + |ChapterLines(c, level)|, titles + [c.title], bodies + [ChapterLines(c, level)])
  {
    hide Grouped, Heading, NextFence, Opens, Closed, CleanTitle;
    var own := ChapterLines(c, level);
    ChapterAt(lines, n, c, level);
    GroupedHeading(lines, level, n, c, titles, bodies);
    AfterHeading(lines, n, c.title, level);
    ClosedShift(lines, level, n + 1, c.body);
    var next := bodies + [[own[0]]];
    GroupedPlain(lines, level, n + 1, c.body, titles + [c.title], next);
    assert [own[0]] + c.body == own && next[|next| - 1 := own] == bodies + [own];
  }

  lemma AfterHeading(lines: seq<string>, n: nat, title: string, level: nat)
    requires n < |lines| && FenceAt(lines, n).None? && lines[n] == Heading(title, level)
    requires CleanTitle(title) && level > 0
    ensures FenceAt(lines, n + 1).None?
  {
    HeadingReads(title, level);
  }

  lemma {:induction false} WriteUnfenced(lines: seq<string>, pre: seq<string>, chapters: seq<Chapter>, level: nat)
    requires Writable(pre, chapters, level) && Write(pre, chapters, level) <= lines
    ensures FenceAt(lines, |Write(pre, chapters, level)|).None?
    decreases |chapters|
  {
    hide NextFence, Opens, Closed, CleanTitle, Heading, ChapterLines;
    if chapters == [] {
      ClosedShift(lines, level, 0, pre);
    } else {
      var front, last := chapters[..|chapters| - 1], chapters[|chapters| - 1];
      var before, own := Write(pre, front, level), ChapterLines(last, level);
      PrefixRest(before, own, lines);
      WriteUnfenced(lines, pre, front, level);
      assert WritableChapter(last, level);
      ChapterAt(lines, |before|, last, level);
      AfterHeading(lines, |before|, last.title, level);
      ClosedShift(lines, level, |before| + 1, last.body);
    }
  }

  lemma GroupedPre(lines: seq<string>, pre: seq<string>, level: nat)
    requires Writable(pre, [], level) && pre <= lines
    ensures Grouped(lines, level, |pre|, TitlesOf([]), BodiesOf(pre, [], level))
  {
    hide Grouped, Opens, Closed;
    ClosedShift(lines, level, 0, pre);
    GroupedNone(lines, level);
    var bodies: seq<seq<string>> := [[]];
    GroupedPlain(lines, level, 0, pre, [PREAMBLE], bodies);
    assert |bodies| == 1 && bodies[0] == [] && bodies[0] + pre == pre && bodies[0 := pre] == [pre];
    assert TitlesOf([]) == [PREAMBLE] && BodiesOf(pre, [], level) == [pre];
  }

  lemma PrefixRest(a: seq<string>, b: seq<string>, lines: seq<string>)
    requires a + b <= lines
    ensures a <= lines && b <= lines[|a|..]
  {
    assert lines[..|a|] == a && lines[|a|..][..|b|] == b;
  }

  lemma LastBody(pre: seq<string>, chapters: seq<Chapter>, level: nat)
    requires chapters != []
    ensures var (front, last) := (chapters[..|chapters| - 1], chapters[|chapters| - 1]);
      && TitlesOf(front) + [last.title] == TitlesOf(chapters) && BodiesOf(pre, front, level) != []
      && BodiesOf(pre, front, level) + [ChapterLines(last, level)] == BodiesOf(pre, chapters, level)
  {
    hide ChapterLines;
  }

  lemma {:induction false} WriteGrouped(lines: seq<string>, pre: seq<string>, chapters: seq<Chapter>, level: nat)
    requires Writable(pre, chapters, level) && Write(pre, chapters, level) <= lines
    ensures Grouped(lines, level, |Write(pre, chapters, level)|, TitlesOf(chapters), BodiesOf(pre, chapters, level))
  {
    if chapters == [] {
      GroupedPre(lines, pre, level);
    } else {
      hide Grouped, ChapterLines, FenceAt, WritableChapter, Closed, TitlesOf, BodiesOf;
      var front, last := chapters[..|chapters| - 1], chapters[|chapters| - 1];
      var before := Write(pre, front, level);
      PrefixRest(before, ChapterLines(last, level), lines);
      WriteGrouped(lines, pre, front, level);
      WriteUnfenced(lines, pre, front, level);
      assert WritableChapter(last, level);
      LastBody(pre, chapters, level);
      GroupedChapter(lines, level, |before|, last, TitlesOf(front), BodiesOf(pre, front, level));
    }
  }

  /** Main result: a document written from a preamble and any list of sections splits into
      exactly these, so nothing about a list of titles keeps it from being a document's. */
  lemma SplitOfWritten(pre: seq<string>, chapters: seq<Chapter>, level: nat)
    requires Writable(pre, chapters, level)
    ensures Headings(Concat(Write(pre, chapters, level)), level) == TitlesOf(chapters)
    ensures var r := Split(Concat(Write(pre, chapters, level)), level);
      && |r| == |chapters| + 1
      && forall k | 0 <= k < |r| ::
           r[k] == Section(Key(TitlesOf(chapters), k), Concat(BodiesOf(pre, chapters, level)[k]))
  {
    var lines := Write(pre, chapters, level);
    forall i | 0 <= i < |lines|
      ensures CleanLine(lines[i])
    {
      WriteClean(pre, chapters, level, i);
    }
    SplitClean(lines);
    WriteGrouped(lines, pre, chapters, level);
    forall k | 0 <= k < |chapters| + 1
      ensures SectionLines(lines, level, k) == BodiesOf(pre, chapters, level)[k]
    {
      GroupedDone(lines, level, TitlesOf(chapters), BodiesOf(pre, chapters, level), k);
    }
  }

  lemma NoChapters(lines: seq<string>, level: nat)
    requires level > 0 && Closed(lines, level)
    ensures Writable(lines, [], level) && Write(lines, [], level) == lines
    ensures TitlesOf([]) == [PREAMBLE] && BodiesOf(lines, [], level) == [lines]
  {
    hide Closed;
  }

  /** Lines that start no section stay in one piece. */
  lemma Partless(lines: seq<string>, level: nat)
    requires level > 0 && Closed(lines, level)
    ensures Split(Concat(lines), level) == [Section(PREAMBLE, Concat(lines))] && Unnumbered(Concat(lines), level)
  {
    hide Split, Concat, Write, Unnumbered, Writable, TitlesOf, BodiesOf, Closed;
    NoChapters(lines, level);
    SplitOfDistinct(lines, [], level);
  }

  /** In particular a fenced block, whatever its lines look like. */
  lemma FencedStays(fence: string, inner: seq<string>, level: nat)
    requires level > 0 && CleanLine(fence) && Marker(fence).Some?
    requires forall i | 0 <= i < |inner| :: CleanLine(inner[i]) && !Closes(inner[i], Marker(fence).value)
    ensures var block := Concat([fence] + inner + [fence]); Split(block, level) == [Section(PREAMBLE, block)]
  {
    hide CleanLine, Marker, Split, Concat, Closed, Unnumbered;
    FencedIsClosed(fence, inner, level);
    Partless([fence] + inner + [fence], level);
  }

  /** With different titles, the keys are the titles. */
  lemma SplitOfDistinct(pre: seq<string>, chapters: seq<Chapter>, level: nat)
    requires Writable(pre, chapters, level)
    requires forall i, j | 0 <= i < j <= |chapters| :: TitlesOf(chapters)[i] != TitlesOf(chapters)[j]
    ensures var r := Split(Concat(Write(pre, chapters, level)), level);
      && |r| == |chapters| + 1
      && forall k | 0 <= k < |r| ::
           r[k] == Section(TitlesOf(chapters)[k], Concat(BodiesOf(pre, chapters, level)[k]))
    ensures Unnumbered(Concat(Write(pre, chapters, level)), level)
  {
    hide Split, Concat, Write, Key, Occurrence, TitlesOf, BodiesOf, Writable;
    SplitOfWritten(pre, chapters, level);
    UniqueTitles(TitlesOf(chapters));
  }

  /** The failing family of texts: a heading that comes twice, and one spelled like its repetition. */
  lemma SharedKey(title: string, level: nat) returns (text: string)
    requires CleanTitle(title) && title != PREAMBLE && level > 0
    ensures text == Heading(title, level) + Heading(title, level) + Heading(title + "#2", level)
    ensures |Split(text, level)| == 4 && Split(text, level)[2].key == Split(text, level)[3].key == title + "#2"
  {
    hide Concat, Write, Heading, Key, Split, Dec;
    var (twice, once) := (Chapter(title, []), Chapter(Numbered(title, 2), []));
    var chapters := [twice, twice, once];
    NumberedClean(title, 2);
    text := Concat(Write([], chapters, level));
    SplitOfWritten([], chapters, level);
    ThreeHeadings(twice, twice, once, level);
    SharedTitles(title);
    SecondName(title);
    assert TitlesOf(chapters) == [PREAMBLE, title, title, Numbered(title, 2)];
  }

  lemma SecondName(title: string)
    ensures Numbered(title, 2) == title + "#2"
  {
    assert Dec(2) == "2";
  }

  lemma NumberedClean(title: string, n: nat)
    requires CleanTitle(title)
    ensures CleanTitle(Numbered(title, n))
  {
    var s := Numbered(title, n);
    forall i | |title| <= i < |s|
      ensures !EndsLine(s[i]) && !IsSpace(s[i])
    {
      NumberTail(title, n, i);
    }
    assert s[0] == if title == [] then '#' else title[0];
  }

  lemma ThreeHeadings(a: Chapter, b: Chapter, c: Chapter, level: nat)
    requires a.body == b.body == c.body == []
    ensures Concat(Write([], [a, b, c], level)) ==
            Heading(a.title, level) + Heading(b.title, level) + Heading(c.title, level)
  {
    hide Heading, Concat;
    var (x, y, z) := (Heading(a.title, level), Heading(b.title, level), Heading(c.title, level));
    assert [a, b, c][..2] == [a, b] && [a, b][..1] == [a] && [a][..0] == [];
    assert Write([], [a], level) == [x];
    assert Write([], [a, b], level) == [x, y];
    assert Write([], [a, b, c], level) == [x, y, z];
    ConcatThree(x, y, z);
  }

  lemma ConcatThree(x: string, y: string, z: string)
    ensures Concat([x, y, z]) == x + y + z
  {
    assert [z][1..] == [] && Concat([z]) == z;
    assert [y, z][1..] == [z] && Concat([y, z]) == y + z;
    assert [x, y, z][1..] == [y, z] && x + (y + z) == x + y + z;
  }

  lemma SharedTitles(title: string)
    requires title != PREAMBLE
    ensures var titles := [PREAMBLE, title, title, Numbered(title, 2)];
      Key(titles, 2) == Key(titles, 3) == Numbered(title, 2)
  {
    var again := Numbered(title, 2);
    var titles := [PREAMBLE, title, title, again];
    assert titles[..2] == [PREAMBLE, title] && titles[..3] == [PREAMBLE, title, title];
    LastHash(title, 2);
    assert again != PREAMBLE && again != title;
  }
}
