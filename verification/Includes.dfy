/**
 Agent bodies with fragment includes and vocabulary keys. A body is the list of its
 directives and of the texts between them, so text that includes bring together can never
 form a new directive.
 */
module Includes {
  import opened Basics

  const MAX_INCLUDE_DEPTH := 16

  type Id = string

  datatype Token = Text(text: string) | Key(key: string) | Include(id: Id)

  type Body = seq<Token>

  /** The fragments that exist. The directory may include itself in circles. */
  type Fragments = map<Id, Body>

  // --- Includes ---------------------------------------------------------------------------

  /** `_resolve_includes`; None stands for a cycle, a missing fragment or too deep a chain. */
  function Resolve(dir: Fragments, body: Body, stack: seq<Id>): (r: Option<Body>)
    ensures r.Some? ==> Flat(r.value)
    decreases MAX_INCLUDE_DEPTH + 1 - |stack|, |body|
  {
    if |stack| > MAX_INCLUDE_DEPTH then None
    else if body == [] then Some([])
    else
      var last := body[|body| - 1];
      var front := Resolve(dir, body[..|body| - 1], stack);
      if front.None? then None
      else if !last.Include? then Some(front.value + [last])
      else if last.id in stack || last.id !in dir then None
      else
        var inner := Resolve(dir, dir[last.id], stack + [last.id]);
        if inner.None? then None else Some(front.value + inner.value)
  }

  /** No include is left. */
  predicate Flat(body: Body) {
    forall t | t in body :: !t.Include?
  }

  /** A chain of includes: each fragment is included by the one before it, the first by the
      body itself. */
  predicate IsChain(dir: Fragments, body: Body, ids: seq<Id>) {
    && (ids != [] ==> Include(ids[0]) in body)
    && forall k | 0 <= k < |ids| - 1 :: ids[k] in dir && Include(ids[k + 1]) in dir[ids[k]]
  }

  /** Every chain is complete and at most so long. */
  ghost predicate Bounded(dir: Fragments, body: Body, depth: int) {
    forall ids: seq<Id> | IsChain(dir, body, ids) && ids != [] :: |ids| <= depth && ids[|ids| - 1] in dir
  }

  lemma {:induction false} ResolvedIsBounded(dir: Fragments, body: Body, stack: seq<Id>, ids: seq<Id>)
    requires Resolve(dir, body, stack).Some? && IsChain(dir, body, ids) && ids != []
    ensures |stack| + |ids| <= MAX_INCLUDE_DEPTH && ids[|ids| - 1] in dir
    decreases |ids|, |body|
  {
    var front, last := body[..|body| - 1], body[|body| - 1];
    assert body == front + [last];
    if Include(ids[0]) in front {
      ResolvedIsBounded(dir, front, stack, ids);
    } else if |ids| > 1 {
      ResolvedIsBounded(dir, dir[ids[0]], stack + [ids[0]], ids[1..]);
    }
  }

  // --- Circles ----------------------------------------------------------------------------

  /** Position k of the endless walk that goes round from position n - 1 back to i. */
  function Walk(n: nat, i: nat, k: nat): (p: nat)
    requires i < n
    ensures p < n
  {
    if k < n then k else Walk(n, i, k - (n - i))
  }

  lemma {:induction false} WalkSteps(n: nat, i: nat, k: nat)
    requires i < n
    ensures Walk(n, i, k + 1) == if Walk(n, i, k) == n - 1 then i else Walk(n, i, k) + 1
  {
    if k >= n {
      WalkSteps(n, i, k - (n - i));
    } else if k == n - 1 {
      assert Walk(n, i, n) == Walk(n, i, i) == i;
    }
  }

  /** A chain that returns to one of its own fragments can go round as often as one likes. */
  lemma CircleIsEndless(dir: Fragments, body: Body, ids: seq<Id>, i: nat, length: nat) returns (chain: seq<Id>)
    requires i < |ids| && IsChain(dir, body, ids + [ids[i]])
    ensures |chain| == length && IsChain(dir, body, chain)
  {
    var n := |ids|;
    var closed := ids + [ids[i]];
    chain := seq(length, k requires 0 <= k < length => ids[Walk(n, i, k)]);
    assert length > 0 ==> chain[0] == closed[0];
    forall k | 0 <= k < |chain| - 1
      ensures chain[k] in dir && Include(chain[k + 1]) in dir[chain[k]]
    {
      WalkSteps(n, i, k);
      var p := Walk(n, i, k);
      assert chain[k] == closed[p] && chain[k + 1] == closed[p + 1];
    }
  }

  /** The body of the fragment that a chain ends in. */
  predicate EndsIn(dir: Fragments, root: Body, chain: seq<Id>, body: Body) {
    if chain == [] then body == root else chain[|chain| - 1] in dir && body == dir[chain[|chain| - 1]]
  }

  lemma LongerChain(dir: Fragments, root: Body, chain: seq<Id>, body: Body, id: Id)
    requires IsChain(dir, root, chain) && EndsIn(dir, root, chain, body) && Include(id) in body
    ensures IsChain(dir, root, chain + [id])
  {
    var longer := chain + [id];
    forall k | 0 <= k < |longer| - 1
      ensures longer[k] in dir && Include(longer[k + 1]) in dir[longer[k]]
    {
      assert longer[k] == chain[k];
    }
  }

  /** A refusal always has a reason that can be pointed at in the fragments themselves. */
  lemma {:induction false} RefusedIsUnbounded(dir: Fragments, root: Body, chain: seq<Id>, body: Body, part: Body)
    requires IsChain(dir, root, chain) && EndsIn(dir, root, chain, body) && part <= body
    requires |chain| <= MAX_INCLUDE_DEPTH + 1 && Resolve(dir, part, chain).None?
    ensures !Bounded(dir, root, MAX_INCLUDE_DEPTH)
    decreases MAX_INCLUDE_DEPTH + 1 - |chain|, |part|
  {
    if |chain| > MAX_INCLUDE_DEPTH {
      return;
    }
    var front, last := part[..|part| - 1], part[|part| - 1];
    if Resolve(dir, front, chain).None? {
      RefusedIsUnbounded(dir, root, chain, body, front);
      return;
    }
    assert last in body;
    LongerChain(dir, root, chain, body, last.id);
    if last.id in chain {
      var i :| 0 <= i < |chain| && chain[i] == last.id;
      var long := CircleIsEndless(dir, root, chain, i, MAX_INCLUDE_DEPTH + 1);
    } else if last.id !in dir {
      assert (chain + [last.id])[|chain|] == last.id;
    } else {
      RefusedIsUnbounded(dir, root, chain + [last.id], dir[last.id], dir[last.id]);
    }
  }

  /** Main result: for every directory, circular or not, a body expands exactly when every
      chain of includes that starts in it is complete and at most sixteen deep. */
  lemma ResolvesExactly(dir: Fragments, body: Body)
    ensures Resolve(dir, body, []).Some? <==> Bounded(dir, body, MAX_INCLUDE_DEPTH)
  {
    if Resolve(dir, body, []).Some? {
      forall ids: seq<Id> | IsChain(dir, body, ids) && ids != []
        ensures |ids| <= MAX_INCLUDE_DEPTH && ids[|ids| - 1] in dir
      {
        ResolvedIsBounded(dir, body, [], ids);
      }
    } else {
      RefusedIsUnbounded(dir, body, [], body, body);
    }
  }

  /** In particular nothing that can reach a circle expands. */
  lemma CirclesRefused(dir: Fragments, body: Body, ids: seq<Id>, i: nat)
    requires i < |ids| && IsChain(dir, body, ids + [ids[i]])
    ensures Resolve(dir, body, []).None?
  {
    var long := CircleIsEndless(dir, body, ids, i, MAX_INCLUDE_DEPTH + 1);
    ResolvesExactly(dir, body);
  }

  // --- What an expansion is ------------------------------------------------------------------

  /** Replaces every include by its fragment, once and at one level. */
  function Substitute(dir: Fragments, body: Body): Body {
    if body == [] then []
    else
      var last := body[|body| - 1];
      Substitute(dir, body[..|body| - 1]) + if last.Include? && last.id in dir then dir[last.id] else [last]
  }

  function Repeated(dir: Fragments, body: Body, n: nat): Body
    decreases n
  {
    if n == 0 then body else Repeated(dir, Substitute(dir, body), n - 1)
  }

  lemma {:induction false} SubstituteAppend(dir: Fragments, a: Body, b: Body)
    ensures Substitute(dir, a + b) == Substitute(dir, a) + Substitute(dir, b)
  {
    if b == [] {
      assert a + b == a;
    } else {
      SubstituteAppend(dir, a, b[..|b| - 1]);
      assert (a + b)[..|a + b| - 1] == a + b[..|b| - 1];
    }
  }

  lemma {:induction false} RepeatedAppend(dir: Fragments, a: Body, b: Body, n: nat)
    ensures Repeated(dir, a + b, n) == Repeated(dir, a, n) + Repeated(dir, b, n)
    decreases n
  {
    if n > 0 {
      SubstituteAppend(dir, a, b);
      RepeatedAppend(dir, Substitute(dir, a), Substitute(dir, b), n - 1);
    }
  }

  lemma {:induction false} RepeatedEmpty(dir: Fragments, n: nat)
    ensures Repeated(dir, [], n) == []
  {
    if n > 0 {
      RepeatedEmpty(dir, n - 1);
    }
  }

  lemma {:induction false} RepeatedToken(dir: Fragments, t: Token, n: nat)
    requires n > 0
    ensures Repeated(dir, [t], n) == Repeated(dir, if t.Include? && t.id in dir then dir[t.id] else [t], n - 1)
  {
    assert [t][..0] == [];
    assert Substitute(dir, [t]) == if t.Include? && t.id in dir then dir[t.id] else [t];
  }

  lemma {:induction false} RepeatedText(dir: Fragments, t: Token, n: nat)
    requires !t.Include?
    ensures Repeated(dir, [t], n) == [t]
  {
    if n > 0 {
      RepeatedToken(dir, t, n);
      RepeatedText(dir, t, n - 1);
    }
  }

  /** Main result: an expansion is plain substitution, carried on until nothing changes. */
  lemma {:induction false} ExpansionIsSubstitution(dir: Fragments, body: Body, stack: seq<Id>, n: nat)
    requires Resolve(dir, body, stack).Some? && n + |stack| >= MAX_INCLUDE_DEPTH
    ensures Repeated(dir, body, n) == Resolve(dir, body, stack).value
    decreases n, |body|
  {
    hide Repeated, Flat, Substitute;
    if body == [] {
      RepeatedEmpty(dir, n);
    } else {
      var front, last := body[..|body| - 1], body[|body| - 1];
      assert body == front + [last];
      ExpansionIsSubstitution(dir, front, stack, n);
      RepeatedAppend(dir, front, [last], n);
      if !last.Include? {
        RepeatedText(dir, last, n);
      } else {
        RepeatedToken(dir, last, n);
        ExpansionIsSubstitution(dir, dir[last.id], stack + [last.id], n - 1);
      }
    }
  }

  /** Bounded chains of a part, and of an included fragment, are bounded. */
  lemma BoundedParts(dir: Fragments, a: Body, b: Body)
    requires Bounded(dir, a + b, MAX_INCLUDE_DEPTH)
    ensures Bounded(dir, a, MAX_INCLUDE_DEPTH) && Bounded(dir, b, MAX_INCLUDE_DEPTH)
  {
    forall ids: seq<Id> | IsChain(dir, a, ids) && ids != []
      ensures |ids| <= MAX_INCLUDE_DEPTH && ids[|ids| - 1] in dir
    {
      assert IsChain(dir, a + b, ids);
    }
    forall ids: seq<Id> | IsChain(dir, b, ids) && ids != []
      ensures |ids| <= MAX_INCLUDE_DEPTH && ids[|ids| - 1] in dir
    {
      assert IsChain(dir, a + b, ids);
    }
  }

  lemma BoundedFragment(dir: Fragments, id: Id)
    requires Bounded(dir, [Include(id)], MAX_INCLUDE_DEPTH)
    ensures id in dir && Bounded(dir, dir[id], MAX_INCLUDE_DEPTH)
  {
    assert IsChain(dir, [Include(id)], [id]);
    forall ids: seq<Id> | IsChain(dir, dir[id], ids) && ids != []
      ensures |ids| <= MAX_INCLUDE_DEPTH && ids[|ids| - 1] in dir
    {
      var longer := [id] + ids;
      forall k | 0 <= k < |longer| - 1
        ensures longer[k] in dir && Include(longer[k + 1]) in dir[longer[k]]
      {
        assert k > 0 ==> longer[k] == ids[k - 1] && longer[k + 1] == ids[k];
      }
      assert IsChain(dir, [Include(id)], longer) && longer[|longer| - 1] == ids[|ids| - 1];
    }
  }

  /** Main result: what expansion does. Parts expand one by one, text and keys stay as they
      are, and an include becomes the expansion of its fragment. */
  lemma ExpansionOfParts(dir: Fragments, a: Body, b: Body)
    requires Resolve(dir, a + b, []).Some?
    ensures Resolve(dir, a, []).Some? && Resolve(dir, b, []).Some?
    ensures Resolve(dir, a + b, []).value == Resolve(dir, a, []).value + Resolve(dir, b, []).value
  {
    ResolvesExactly(dir, a + b);
    BoundedParts(dir, a, b);
    ResolvesExactly(dir, a);
    ResolvesExactly(dir, b);
    ExpansionIsSubstitution(dir, a + b, [], MAX_INCLUDE_DEPTH);
    ExpansionIsSubstitution(dir, a, [], MAX_INCLUDE_DEPTH);
    ExpansionIsSubstitution(dir, b, [], MAX_INCLUDE_DEPTH);
    RepeatedAppend(dir, a, b, MAX_INCLUDE_DEPTH);
  }

  lemma ExpansionOfToken(dir: Fragments, t: Token)
    requires Resolve(dir, [t], []).Some?
    ensures if t.Include? then t.id in dir && Resolve(dir, [t], []) == Resolve(dir, dir[t.id], [])
            else Resolve(dir, [t], []) == Some([t])
  {
    ResolvesExactly(dir, [t]);
    ExpansionIsSubstitution(dir, [t], [], MAX_INCLUDE_DEPTH + 1);
    if t.Include? {
      BoundedFragment(dir, t.id);
      ResolvesExactly(dir, dir[t.id]);
      ExpansionIsSubstitution(dir, dir[t.id], [], MAX_INCLUDE_DEPTH);
      RepeatedToken(dir, t, MAX_INCLUDE_DEPTH + 1);
    } else {
      RepeatedText(dir, t, MAX_INCLUDE_DEPTH + 1);
    }
  }

  // --- Vocabulary ------------------------------------------------------------------------------

  type Vocab = map<string, string>

  ghost predicate Covered(body: Body, vocab: Vocab) {
    forall t | t in body && t.Key? :: t.key in vocab
  }

  function Worded(t: Token, vocab: Vocab): Token {
    if t.Key? && t.key in vocab then Text(vocab[t.key]) else t
  }

  /** `_apply_vocab`: every missing key is collected before the body is refused. */
  method ApplyVocab(body: Body, vocab: Vocab) returns (r: Option<Body>, missing: seq<string>)
    ensures r.Some? <==> Covered(body, vocab)
    ensures r.Some? ==> |r.value| == |body| && forall i | 0 <= i < |body| :: r.value[i] == Worded(body[i], vocab)
    ensures forall key :: key in missing <==> Key(key) in body && key !in vocab
  {
    var rendered: Body := [];
    missing := [];
    var i := 0;
    while i < |body|
      invariant 0 <= i <= |body| && |rendered| == i
      invariant forall j | 0 <= j < i :: rendered[j] == Worded(body[j], vocab)
      invariant forall key :: key in missing <==> Key(key) in body[..i] && key !in vocab
    {
      assert body[..i + 1] == body[..i] + [body[i]];
      if body[i].Key? && body[i].key !in vocab {
        missing := missing + [body[i].key];
      }
      rendered := rendered + [Worded(body[i], vocab)];
      i := i + 1;
    }
    assert body[..i] == body;
    if missing != [] {
      assert missing[0] in missing;
      return None, missing;
    }
    forall t | t in body && t.Key?
      ensures t.key in vocab
    {
      assert t == Key(t.key);
    }
    return Some(rendered), missing;
  }

  /** `load_body`, once its source is found: includes first, so that a fragment's keys take
      the calling agent's vocabulary; a body that comes out holds text alone. */
  method LoadBody(dir: Fragments, body: Body, vocab: Option<Vocab>) returns (r: Option<Body>)
    ensures r.Some? <==>
      && Bounded(dir, body, MAX_INCLUDE_DEPTH)
      && (vocab.Some? ==> Covered(Repeated(dir, body, MAX_INCLUDE_DEPTH), vocab.value))
    ensures r.Some? && vocab.None? ==> r.value == Repeated(dir, body, MAX_INCLUDE_DEPTH)
    ensures r.Some? && vocab.Some? ==>
      var expanded := Repeated(dir, body, MAX_INCLUDE_DEPTH);
      && |r.value| == |expanded|
      && forall i | 0 <= i < |expanded| :: r.value[i].Text? && r.value[i] ==
           if expanded[i].Key? then Text(vocab.value[expanded[i].key]) else expanded[i]
  {
    hide Resolve, Repeated, Bounded;
    ResolvesExactly(dir, body);
    var resolved := Resolve(dir, body, []);
    if resolved.None? {
      return None;
    }
    ExpansionIsSubstitution(dir, body, [], MAX_INCLUDE_DEPTH);
    if vocab.None? {
      return resolved;
    }
    var missing;
    r, missing := ApplyVocab(resolved.value, vocab.value);
  }
}
