/** The names of one empirical analysis and of the artifacts that belong to it. */
module Names {
  import opened Basics

  const STEM := "empirical_analysis"
  const VERIFIER_STEM := "empirics_verify"
  const RESULT_STEM := "empirics_verify_result"

  /** An analysis is named by what follows the stem in its file name. */
  type Analysis = string

  predicate Alnum(c: char) {
    'A' <= c <= 'Z' || 'a' <= c <= 'z' || '0' <= c <= '9'
  }

  predicate Label(s: string) {
    s != "" && Alnum(s[0]) && forall c | c in s :: Alnum(c) || c == '_' || c == '.' || c == '-'
  }

  function Digits(s: string): (n: nat)
    ensures n <= |s|
  {
    if s != "" && '0' <= s[0] <= '9' then 1 + Digits(s[1..]) else 0
  }

  /** An attempt number, then perhaps an underscore and a label. */
  predicate Attempt(s: string) {
    var n := Digits(s);
    n > 0 && (n == |s| || (s[n] == '_' && Label(s[n + 1..])))
  }

  /** Empty, "_v" and a label, or "_a" and an attempt. */
  predicate ValidAnalysis(a: Analysis) {
    a == "" || (|a| > 2 && a[0] == '_' && ((a[1] == 'v' && Label(a[2..])) || (a[1] == 'a' && Attempt(a[2..]))))
  }

  lemma {:induction false} DigitsAre(s: string)
    ensures forall i | 0 <= i < Digits(s) :: '0' <= s[i] <= '9'
    ensures Digits(s) < |s| ==> !('0' <= s[Digits(s)] <= '9')
  {
    if s != "" && '0' <= s[0] <= '9' {
      DigitsAre(s[1..]);
    }
  }

  predicate AllDigits(s: string) {
    forall c | c in s :: '0' <= c <= '9'
  }

  /** A number, and perhaps a label after an underscore. */
  ghost predicate NumberedBy(s: string, number: string, tail: string) {
    s == number + tail && number != "" && AllDigits(number) && (tail == "" || (tail[0] == '_' && Label(tail[1..])))
  }

  lemma AttemptExactly(s: string)
    ensures Attempt(s) <==> exists number, tail :: NumberedBy(s, number, tail)
  {
    DigitsAre(s);
    var n := Digits(s);
    if Attempt(s) {
      assert NumberedBy(s, s[..n], s[n..]);
    }
    forall number, tail | NumberedBy(s, number, tail)
      ensures number == s[..n] && tail == s[n..]
    {
      assert forall i | 0 <= i < |number| :: s[i] == number[i] && number[i] in number;
      assert tail != "" ==> s[|number|] == '_';
    }
  }

  /** Which names an analysis can have: the plain one, versions with a label, and attempts. */
  lemma ValidExactly(a: Analysis)
    ensures ValidAnalysis(a) <==>
      || a == ""
      || (exists word :: a == "_v" + word && Label(word))
      || exists number, tail :: a == "_a" + number + tail && NumberedBy(number + tail, number, tail)
  {
    hide Attempt, Label, NumberedBy;
    if |a| > 2 {
      AttemptExactly(a[2..]);
      assert a[0] == '_' && a[1] == 'v' ==> a == "_v" + a[2..];
      if a[0] == '_' && a[1] == 'a' && Attempt(a[2..]) {
        var number, tail :| NumberedBy(a[2..], number, tail);
        WholeOf(a[2..], number, tail);
        assert a == "_a" + number + tail;
      }
    }
    forall word | a == "_v" + word && Label(word)
      ensures ValidAnalysis(a)
    {
      LabelsHold(word);
      assert a[2..] == word;
    }
    forall number, tail | a == "_a" + number + tail && NumberedBy(number + tail, number, tail)
      ensures ValidAnalysis(a)
    {
      WholeOf(number + tail, number, tail);
      assert a[2..] == number + tail;
    }
  }

  lemma WholeOf(s: string, number: string, tail: string)
    requires NumberedBy(s, number, tail)
    ensures s == number + tail && s != ""
  {
  }

  lemma LabelsHold(word: string)
    requires Label(word)
    ensures word != ""
  {
  }

  predicate EndsWith(s: string, suffix: string) {
    |s| >= |suffix| && s[|s| - |suffix|..] == suffix
  }

  /** What stands between a stem and an ending. */
  function Middle(name: string, stem: string, ending: string): Option<string> {
    if |name| >= |stem| + |ending| && stem <= name && EndsWith(name, ending)
    then Some(name[|stem|..|name| - |ending|])
    else None
  }

  function AnalysisOf(name: string): Option<Analysis> {
    var a := Middle(name, STEM, ".md");
    if a.Some? && ValidAnalysis(a.value) then a else None
  }

  predicate IsVerifier(name: string) {
    var a := Middle(name, VERIFIER_STEM, ".py");
    a.Some? && ValidAnalysis(a.value)
  }

  datatype Role = ReceiptRole | PlanRole | BundleRole | ExecutionRole

  datatype Sibling = Sibling(analysis: Analysis, role: Role)

  function Ending(role: Role): string {
    match role
    case ReceiptRole => "_results.receipt.json"
    case PlanRole => "_results.plan.json"
    case BundleRole => "_results.json"
    case ExecutionRole => "_execution.json"
  }

  /** The first ending that fits decides the role. */
  function RoleOf(name: string): Option<Role> {
    if EndsWith(name, Ending(ReceiptRole)) then Some(ReceiptRole)
    else if EndsWith(name, Ending(PlanRole)) then Some(PlanRole)
    else if EndsWith(name, Ending(BundleRole)) then Some(BundleRole)
    else if EndsWith(name, Ending(ExecutionRole)) then Some(ExecutionRole)
    else None
  }

  function SiblingOf(name: string): Option<Sibling> {
    var role := RoleOf(name);
    if role.None? then None
    else
      var a := Middle(name, STEM, Ending(role.value));
      if a.Some? && ValidAnalysis(a.value) then Some(Sibling(a.value, role.value)) else None
  }

  /** Shares the stem, but could not be taken for an analysis or a sibling. */
  predicate SharedStem(name: string) {
    STEM <= name && AnalysisOf(name).None? && SiblingOf(name).None?
  }

  function AnalysisName(a: Analysis): string {
    STEM + a + ".md"
  }

  function SiblingName(s: Sibling): string {
    STEM + s.analysis + Ending(s.role)
  }

  function VerifyScript(a: Analysis): string {
    VERIFIER_STEM + a + ".py"
  }

  function VerifyResult(a: Analysis): string {
    RESULT_STEM + a + ".json"
  }

  function PassCandidate(a: Analysis): string {
    VerifyResult(a) + ".candidate"
  }

  lemma MiddleOf(stem: string, a: string, ending: string)
    ensures Middle(stem + a + ending, stem, ending) == Some(a)
  {
    var name := stem + a + ending;
    assert name[..|stem|] == stem;
    assert name[|name| - |ending|..] == ending;
    assert name[|stem|..|name| - |ending|] == a;
  }

  /** The names of distinct analyses and roles are distinct: each is read back. */
  lemma NamesReadBack(a: Analysis, role: Role)
    requires ValidAnalysis(a)
    ensures AnalysisOf(AnalysisName(a)) == Some(a) && IsVerifier(VerifyScript(a))
    ensures SiblingOf(SiblingName(Sibling(a, role))) == Some(Sibling(a, role))
  {
    MiddleOf(STEM, a, ".md");
    MiddleOf(VERIFIER_STEM, a, ".py");
    MiddleOf(STEM, a, Ending(role));
    OnlyRole(SiblingName(Sibling(a, role)), role);
  }

  lemma OnlyRole(name: string, role: Role)
    requires EndsWith(name, Ending(role))
    ensures RoleOf(name) == Some(role)
  {
    forall other | other != role
      ensures !EndsWith(name, Ending(other))
    {
      EndingsDiffer(name, role, other);
    }
  }

  function Tenth(role: Role): char {
    match role
    case ReceiptRole => 'c'
    case PlanRole => '.'
    case BundleRole => 's'
    case ExecutionRole => 'u'
  }

  lemma TenthFromEnd(name: string, role: Role)
    requires EndsWith(name, Ending(role))
    ensures |name| >= 10 && name[|name| - 10] == Tenth(role)
  {
    var ending := Ending(role);
    assert name[|name| - 10] == name[|name| - |ending|..][|ending| - 10];
  }

  /** The tenth character from the end tells the four endings apart. */
  lemma EndingsDiffer(name: string, role: Role, other: Role)
    requires EndsWith(name, Ending(role)) && role != other
    ensures !EndsWith(name, Ending(other))
  {
    TenthFromEnd(name, role);
    if EndsWith(name, Ending(other)) {
      TenthFromEnd(name, other);
    }
  }

  lemma MiddleIs(name: string, stem: string, ending: string, a: string)
    requires Middle(name, stem, ending) == Some(a)
    ensures name == stem + a + ending
  {
    assert name == name[..|stem|] + name[|stem|..|name| - |ending|] + name[|name| - |ending|..];
  }

  /** A name reads as an analysis or a sibling exactly when it is the name of that one. */
  lemma NamesExactly(name: string, a: Analysis, role: Role)
    ensures AnalysisOf(name) == Some(a) <==> ValidAnalysis(a) && name == AnalysisName(a)
    ensures SiblingOf(name) == Some(Sibling(a, role)) <==> ValidAnalysis(a) && name == SiblingName(Sibling(a, role))
  {
    if AnalysisOf(name) == Some(a) {
      MiddleIs(name, STEM, ".md", a);
    }
    if SiblingOf(name) == Some(Sibling(a, role)) {
      MiddleIs(name, STEM, Ending(role), a);
    }
    if ValidAnalysis(a) {
      NamesReadBack(a, role);
    }
  }

  lemma LastOf(name: string, ending: string)
    requires EndsWith(name, ending) && ending != ""
    ensures name != "" && name[|name| - 1] == ending[|ending| - 1]
  {
    assert name[|name| - 1] == name[|name| - |ending|..][|ending| - 1];
  }

  lemma NeverBoth(name: string)
    ensures AnalysisOf(name).None? || SiblingOf(name).None?
  {
    if AnalysisOf(name).Some? {
      LastOf(name, ".md");
      forall role | EndsWith(name, Ending(role))
        ensures false
      {
        LastOf(name, Ending(role));
      }
    }
  }
}
