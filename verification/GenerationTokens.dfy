/**
 Names of background generations: message index, part index, and the child session
 percent-encoded (section 2.1 of RFC 3986). A name decodes to exactly the launch that
 made it, so distinct launches never share one.

 A session identifier is the sequence of its UTF-8 bytes.
 */
module GenerationTokens {
  import opened Basics

  type Child = seq<byte>

  // --- Decimal numbers -------------------------------------------------------

  predicate IsDigit(c: char) {
    '0' <= c <= '9'
  }

  predicate AllDigits(s: string) {
    forall c | c in s :: IsDigit(c)
  }

  function Dec(n: nat): (s: string)
    ensures s != [] && AllDigits(s)
  {
    if n < 10 then ['0' + n as char] else Dec(n / 10) + ['0' + (n % 10) as char]
  }

  function Num(s: string): nat
    requires AllDigits(s)
  {
    if s == [] then 0
    else
      var last := s[|s| - 1];
      assert last in s;
      10 * Num(s[..|s| - 1]) + (last - '0') as nat
  }

  lemma {:induction false} NumOfDec(n: nat)
    ensures Num(Dec(n)) == n
  {
    if n >= 10 {
      NumOfDec(n / 10);
      assert Dec(n)[..|Dec(n)| - 1] == Dec(n / 10);
    }
  }

  // --- Percent encoding ------------------------------------------------------

  predicate Unreserved(b: byte) {
    0x41 <= b <= 0x5A || 0x61 <= b <= 0x7A || 0x30 <= b <= 0x39 || b in {0x5F, 0x2E, 0x2D, 0x7E}
  }

  function HexDigit(d: int): char
    requires 0 <= d < 16
  {
    if d < 10 then '0' + d as char else 'A' + (d - 10) as char
  }

  function HexValue(c: char): (r: Option<int>)
    ensures r.Some? ==> 0 <= r.value < 16
  {
    if '0' <= c <= '9' then Some((c - '0') as int)
    else if 'A' <= c <= 'F' then Some((c - 'A') as int + 10)
    else if 'a' <= c <= 'f' then Some((c - 'a') as int + 10)
    else None
  }

  function QuoteByte(b: byte): string {
    if Unreserved(b) then [b as char] else ['%', HexDigit(b / 16), HexDigit(b % 16)]
  }

  /** `urllib.parse.quote(child, safe='')`. */
  function Quote(child: Child): string {
    if child == [] then [] else QuoteByte(child[0]) + Quote(child[1..])
  }

  function Utf8(c: char): seq<byte> {
    var n := c as int;
    if n < 0x80 then [n]
    else if n < 0x800 then [0xC0 + n / 0x40, 0x80 + n % 0x40]
    else if n < 0x10000 then [0xE0 + n / 0x1000, 0x80 + n / 0x40 % 0x40, 0x80 + n % 0x40]
    else [0xF0 + n / 0x40000, 0x80 + n / 0x1000 % 0x40, 0x80 + n / 0x40 % 0x40, 0x80 + n % 0x40]
  }

  predicate Escape(s: string) {
    |s| >= 3 && s[0] == '%' && HexValue(s[1]).Some? && HexValue(s[2]).Some?
  }

  /** `urllib.parse.unquote`: a percent sign that starts no escape stands for itself. */
  function Unquote(s: string): Child {
    if s == [] then []
    else if Escape(s) then
      [16 * HexValue(s[1]).value + HexValue(s[2]).value] + Unquote(s[3..])
    else Utf8(s[0]) + Unquote(s[1..])
  }

  lemma {:induction false} UnquoteOfQuote(child: Child)
    ensures Unquote(Quote(child)) == child
    ensures ':' !in Quote(child)
    ensures child != [] ==> Quote(child) != []
  {
    hide Unquote, QuoteByte;
    if child == [] {
      UnquoteNothing();
    } else {
      UnquoteOfQuote(child[1..]);
      UnquoteByte(child[0], Quote(child[1..]));
      assert child == [child[0]] + child[1..];
    }
  }

  lemma UnquoteNothing()
    ensures Quote([]) == [] && Unquote([]) == []
  {
  }

  lemma UnquoteByte(b: byte, rest: string)
    ensures Unquote(QuoteByte(b) + rest) == [b] + Unquote(rest)
    ensures ':' !in QuoteByte(b) && QuoteByte(b) != []
  {
    var s := QuoteByte(b) + rest;
    if Unreserved(b) {
      assert s[0] == b as char && s[1..] == rest;
    } else {
      assert b == 16 * (b / 16) + b % 16;
      assert s[3..] == rest;
      HexRoundTrip(b / 16);
      HexRoundTrip(b % 16);
    }
  }

  const HEX := "0123456789ABCDEF"

  lemma QuoteCons(b: byte, rest: Child)
    ensures Quote([b] + rest) == QuoteByte(b) + Quote(rest)
  {
    hide QuoteByte;
    assert ([b] + rest)[1..] == rest;
  }

  lemma {:induction false} QuoteAppend(a: Child, b: Child)
    ensures Quote(a + b) == Quote(a) + Quote(b)
  {
    hide QuoteByte, Quote;
    if a == [] {
      UnquoteNothing();
      assert a + b == b;
    } else {
      QuoteAppend(a[1..], b);
      QuoteCons(a[0], a[1..] + b);
      QuoteCons(a[0], a[1..]);
      assert a + b == [a[0]] + (a[1..] + b) && a == [a[0]] + a[1..];
    }
  }

  lemma QuoteOne(b: byte)
    ensures Quote([b]) == QuoteByte(b)
  {
    assert [b][1..] == [] && Quote([]) == [];
  }

  lemma HexOf(d: int)
    requires 0 <= d < 16
    ensures HexDigit(d) == HEX[d]
  {
  }

  /** What encoding does to each byte: letters, digits and four marks stay, anything else becomes
      a percent sign and two upper-case hexadecimal digits. */
  lemma QuoteExactly(a: Child, b: byte)
    ensures var c := b as char;
      Quote(a + [b]) == Quote(a) +
        if 'A' <= c <= 'Z' || 'a' <= c <= 'z' || '0' <= c <= '9' || c in "_.-~" then [c]
        else ['%', HEX[b / 16], HEX[b % 16]]
  {
    hide Quote;
    QuoteAppend(a, [b]);
    QuoteOne(b);
    HexOf(b / 16);
    HexOf(b % 16);
  }

  lemma HexRoundTrip(d: int)
    requires 0 <= d < 16
    ensures HexValue(HexDigit(d)) == Some(d) && HexDigit(d) != ':'
  {
  }

  // --- Generation names ------------------------------------------------------

  /** `_generation_token`. */
  function Token(child: Child, message: nat, part: nat): string {
    Dec(message) + "." + Dec(part) + ":" + Quote(child)
  }

  /** The text before and after the first `mark`. */
  function Partition(s: string, mark: char): Option<(string, string)> {
    if s == [] then None
    else if s[0] == mark then Some(([], s[1..]))
    else
      var rest := Partition(s[1..], mark);
      if rest.None? then None else Some(([s[0]] + rest.value.0, rest.value.1))
  }

  lemma {:induction false} PartitionAt(head: string, mark: char, tail: string)
    requires mark !in head
    ensures Partition(head + [mark] + tail, mark) == Some((head, tail))
  {
    var s := head + [mark] + tail;
    if head == [] {
      assert s[1..] == tail;
    } else {
      assert s[1..] == head[1..] + [mark] + tail;
      PartitionAt(head[1..], mark, tail);
      assert head == [head[0]] + head[1..];
    }
  }

  datatype Generation = Generation(message: nat, part: nat, child: Child)

  /** What a name stands for; None is the ValueError of `_generation_child`. */
  function Decode(token: string): Option<Generation> {
    var outer := Partition(token, ':');
    if outer.None? || outer.value.1 == [] then None
    else
      var inner := Partition(outer.value.0, '.');
      if inner.None? || inner.value.0 == [] || inner.value.1 == [] ||
         !AllDigits(inner.value.0) || !AllDigits(inner.value.1) then None
      else Some(Generation(Num(inner.value.0), Num(inner.value.1), Unquote(outer.value.1)))
  }

  /** `_generation_child`. */
  function GenerationChild(token: string): Option<Child> {
    var g := Decode(token);
    if g.None? || g.value.child == [] then None else Some(g.value.child)
  }

  /** Two numbers, a dot between them, and an encoded child after the first colon. */
  ghost predicate Spelled(token: string, message: string, part: string, child: string) {
    && token == message + "." + part + ":" + child && message != "" && part != "" && child != ""
    && AllDigits(message) && AllDigits(part)
  }

  lemma {:induction false} PartitionSplits(s: string, mark: char)
    requires Partition(s, mark).Some?
    ensures s == Partition(s, mark).value.0 + [mark] + Partition(s, mark).value.1
  {
    if s[0] != mark {
      PartitionSplits(s[1..], mark);
    }
  }

  /** Which names are names of generations at all, and what each of them means. */
  lemma DecodeExactly(token: string)
    ensures Decode(token).Some? <==> exists message, part, child :: Spelled(token, message, part, child)
    ensures forall message, part, child | Spelled(token, message, part, child) ::
      Decode(token) == Some(Generation(Num(message), Num(part), Unquote(child)))
  {
    hide Partition, Num, Unquote;
    if Decode(token).Some? {
      PartitionSplits(token, ':');
      var (prefix, child) := Partition(token, ':').value;
      PartitionSplits(prefix, '.');
      var (message, part) := Partition(prefix, '.').value;
      assert Spelled(token, message, part, child);
    }
    forall message, part, child | Spelled(token, message, part, child)
      ensures Decode(token) == Some(Generation(Num(message), Num(part), Unquote(child)))
    {
      DecodeSpelled(token, message, part, child);
    }
  }

  lemma DecodeSpelled(token: string, message: string, part: string, child: string)
    requires Spelled(token, message, part, child)
    ensures Decode(token) == Some(Generation(Num(message), Num(part), Unquote(child)))
  {
    hide Partition, Num, Unquote;
    assert token == (message + "." + part) + [':'] + child;
    assert ':' !in message + "." + part;
    PartitionAt(message + "." + part, ':', child);
    PartitionAt(message, '.', part);
  }

  /** A launch's name decodes to that launch, for every child and position. */
  lemma DecodeToken(child: Child, message: nat, part: nat)
    requires child != []
    ensures Decode(Token(child, message, part)) == Some(Generation(message, part, child))
    ensures GenerationChild(Token(child, message, part)) == Some(child)
  {
    UnquoteOfQuote(child);
    SplitToken(child, message, part);
  }

  /** Distinct launches have distinct names, whatever their children. */
  lemma TokenInjective(child: Child, message: nat, part: nat, child': Child, message': nat, part': nat)
    requires Token(child, message, part) == Token(child', message', part')
    ensures (child, message, part) == (child', message', part')
  {
    SplitToken(child, message, part);
    SplitToken(child', message', part');
  }

  lemma SplitToken(child: Child, message: nat, part: nat)
    ensures var prefix := Dec(message) + "." + Dec(part);
      && Partition(Token(child, message, part), ':') == Some((prefix, Quote(child)))
      && Partition(prefix, '.') == Some((Dec(message), Dec(part)))
      && Num(Dec(message)) == message && Num(Dec(part)) == part
      && Unquote(Quote(child)) == child
  {
    var prefix := Dec(message) + "." + Dec(part);
    UnquoteOfQuote(child);
    NumOfDec(message);
    NumOfDec(part);
    assert Token(child, message, part) == prefix + [':'] + Quote(child);
    PartitionAt(prefix, ':', Quote(child));
    PartitionAt(Dec(message), '.', Dec(part));
  }
}
