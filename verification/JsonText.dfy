/**
JSON as the catalogue generator prints it, without spaces and in ASCII, and the
bracket scanner that must find again exactly what was printed (section 7 of
RFC 8259 for the escapes).
*/
module JsonText {
  import opened Tables

  datatype Json =
    | Null | Truth(b: bool) | Number(n: int) | Text(text: string)
    | List(items: Items) | Object(members: Members)
  datatype Items = NoItems | Item(first: Json, rest: Items)
  datatype Members = NoMembers | Member(name: string, value: Json, rest: Members)

  // --- printing -------------------------------------------------------------

  type Digit = d: int | 0 <= d < 16
  type Quad = q: int | 0 <= q < 0x1_0000

  function Hex(d: Digit): char { if d < 10 then '0' + d as char else 'a' + (d - 10) as char }

  function Hex4(n: Quad): string { [Hex(n / 0x1000), Hex(n / 0x100 % 0x10), Hex(n / 0x10 % 0x10), Hex(n % 0x10)] }

  function UnicodeEscape(n: Quad): string { "\\u" + Hex4(n) }

  function Escape(c: char): string
  {
    if c == '"' then "\\\""
    else if c == '\\' then "\\\\"
    else if c == '\n' then "\\n"
    else if c == '\r' then "\\r"
    else if c == '\t' then "\\t"
    else if c == '\U{8}' then "\\b"
    else if c == '\U{c}' then "\\f"
    else if ' ' <= c <= '~' then [c]
    else if c as int < 0x1_0000 then UnicodeEscape(c as int)
    else
      var v := c as int - 0x1_0000;
      UnicodeEscape(0xD800 + v / 0x400) + UnicodeEscape(0xDC00 + v % 0x400)
  }

  function EscapeAll(s: string): string { if s == [] then [] else Escape(s[0]) + EscapeAll(s[1..]) }

  function Quote(s: string): string { "\"" + EscapeAll(s) + "\"" }

  function Decimal(n: nat): string
  {
    if n < 10 then ['0' + n as char] else Decimal(n / 10) + ['0' + (n % 10) as char]
  }

  function Print(v: Json): string
  {
    match v
    case Null => "null"
    case Truth(b) => if b then "true" else "false"
    case Number(n) => if n < 0 then "-" + Decimal(-n) else Decimal(n)
    case Text(s) => Quote(s)
    case List(items) => "[" + PrintItems(items) + "]"
    case Object(members) => "{" + PrintMembers(members) + "}"
  }

  function PrintItems(items: Items): string
  {
    match items
    case NoItems => ""
    case Item(first, rest) => if rest.NoItems? then Print(first) else Print(first) + "," + PrintItems(rest)
  }

  function PrintMembers(members: Members): string
  {
    match members
    case NoMembers => ""
    case Member(name, value, rest) =>
      var pair := Quote(name) + ":" + Print(value);
      if rest.NoMembers? then pair else pair + "," + PrintMembers(rest)
  }

  // --- scanning -------------------------------------------------------------

  datatype Scan = Scan(depth: int, inString: bool, escaped: bool)

  const Begin := Scan(0, false, false)

  function Step(s: Scan, c: char): Scan
  {
    if s.inString then
      if s.escaped then s.(escaped := false)
      else if c == '\\' then s.(escaped := true)
      else if c == '"' then s.(inString := false)
      else s
    else if c == '"' then s.(inString := true)
    else if c == '[' || c == '{' then s.(depth := s.depth + 1)
    else if c == ']' || c == '}' then s.(depth := s.depth - 1)
    else s
  }

  /** The bracket that brings the depth back to nothing. */
  predicate Ends(s: Scan, c: char) { !s.inString && (c == ']' || c == '}') && s.depth == 1 }

  function After(s: Scan, text: string): Scan
    decreases |text|
  {
    if text == [] then s else After(Step(s, text[0]), text[1..])
  }

  /** How much of the text the scanner takes, from state `s`. */
  function Extent(s: Scan, text: string): Option<nat>
    decreases |text|
  {
    if text == [] then None
    else if Ends(s, text[0]) then Some(1)
    else
      var more :- Extent(Step(s, text[0]), text[1..]);
      Some(more + 1)
  }

  predicate HasAt(src: string, part: string, i: nat) { i + |part| <= |src| && src[i..i + |part|] == part }

  ghost predicate FirstAt(src: string, part: string, i: nat)
  {
    HasAt(src, part, i) && forall k :: 0 <= k < i ==> !HasAt(src, part, k)
  }

  method IndexOf(src: string, part: string) returns (r: Option<nat>)
    ensures r.Some? ==> FirstAt(src, part, r.value)
    ensures r.None? ==> forall k: nat :: !HasAt(src, part, k)
  {
    var i := 0;
    while i + |part| <= |src|
      invariant forall k :: 0 <= k < i ==> !HasAt(src, part, k)
    {
      if src[i..i + |part|] == part {
        return Some(i);
      }
      i := i + 1;
    }
    return None;
  }

  datatype Span = Span(from: nat, to: nat)

  ghost predicate LiteralAt(src: string, decl: string, span: Span)
  {
    && span.from >= |decl| && FirstAt(src, decl, span.from - |decl|) && span.from <= span.to <= |src|
    && Extent(Begin, src[span.from..]) == Some(span.to - span.from)
  }

  /** The bounds of the literal that follows the first `decl`; None where the script stops: there is none, or it has no
      end. */
  method Literal(src: string, decl: string) returns (r: Option<Span>)
    ensures r.Some? ==> LiteralAt(src, decl, r.value)
    ensures r.None? ==> forall span :: !LiteralAt(src, decl, span)
  {
    var at := IndexOf(src, decl);
    if at == None {
      return None;
    }
    var i := at.value + |decl|;
    var j := i;
    var s := Begin;
    while j < |src|
      invariant i <= j <= |src|
      invariant Extent(Begin, src[i..]) == LaterExtent(j - i, Extent(s, src[j..]))
    {
      ghost var rest := src[j..];
      assert rest[0] == src[j] && rest[1..] == src[j + 1..];
      if Ends(s, src[j]) {
        return Some(Span(i, j + 1));
      }
      s := Step(s, src[j]);
      j := j + 1;
    }
    assert src[j..] == [];
    forall span ensures !LiteralAt(src, decl, span) {
      OnlyOneFirst(src, decl, at.value);
    }
    return None;
  }

  function LaterExtent(taken: nat, more: Option<nat>): Option<nat>
  {
    if more.Some? then Some(taken + more.value) else None
  }

  lemma OnlyOneFirst(src: string, part: string, i: nat)
    requires FirstAt(src, part, i)
    ensures forall k: nat :: FirstAt(src, part, k) ==> k == i
  {
  }

  /** Position `k` of the text holds a closing bracket outside strings, and by then as many have closed as opened. */
  ghost predicate Shuts(s: Scan, text: string, k: nat)
  {
    k < |text| && !After(s, text[..k]).inString && text[k] in {']', '}'} && After(s, text[..k + 1]).depth == 0
  }

  lemma ShutsLater(s: Scan, text: string, k: nat)
    requires text != []
    ensures Shuts(s, text, k + 1) <==> Shuts(Step(s, text[0]), text[1..], k)
  {
    if k + 1 < |text| {
      assert text[..k + 1][1..] == text[1..][..k] && text[..k + 2][1..] == text[1..][..k + 1];
    }
  }

  /** The scanner takes the text up to the first bracket that shuts it, and nothing when none does. */
  lemma {:induction false} ExtentMeans(s: Scan, text: string)
    ensures Extent(s, text) == None ==> forall k: nat :: !Shuts(s, text, k)
    ensures Extent(s, text).Some? ==>
      var n := Extent(s, text).value;
      n > 0 && Shuts(s, text, n - 1) && forall k: nat :: k < n - 1 ==> !Shuts(s, text, k)
    decreases |text|
  {
    if text != [] {
      var rest := text[1..];
      assert text[..0] == [] && text[..1] == [text[0]] && [text[0]][1..] == [];
      assert After(s, text[..0]) == s && After(s, [text[0]]) == Step(s, text[0]);
      assert Shuts(s, text, 0) <==> Ends(s, text[0]);
      ExtentMeans(Step(s, text[0]), rest);
      forall k: nat | k > 0 ensures Shuts(s, text, k) <==> Shuts(Step(s, text[0]), rest, k - 1) {
        ShutsLater(s, text, k - 1);
      }
    }
  }

  // --- concatenation --------------------------------------------------------

  lemma {:induction false} AfterConcat(s: Scan, a: string, b: string)
    ensures After(s, a + b) == After(After(s, a), b)
    decreases |a|
  {
    if a == [] {
      assert a + b == b;
    } else {
      assert (a + b)[1..] == a[1..] + b;
      AfterConcat(Step(s, a[0]), a[1..], b);
    }
  }

  lemma {:induction false} ExtentConcat(s: Scan, a: string, b: string)
    ensures Extent(s, a).Some? ==> Extent(s, a + b) == Extent(s, a)
    ensures Extent(s, a).None? ==> Extent(s, a + b) == LaterExtent(|a|, Extent(After(s, a), b))
    decreases |a|
  {
    if a == [] {
      assert a + b == b;
    } else {
      assert (a + b)[1..] == a[1..] + b;
      ExtentConcat(Step(s, a[0]), a[1..], b);
    }
  }

  /** Scanning the text from `s` comes to `t` without meeting the end. */
  ghost predicate Passes(s: Scan, text: string, t: Scan) { After(s, text) == t && Extent(s, text) == None }

  lemma PassesConcat(s: Scan, a: string, t: Scan, b: string, u: Scan)
    requires Passes(s, a, t) && Passes(t, b, u)
    ensures Passes(s, a + b, u)
  {
    AfterConcat(s, a, b);
    ExtentConcat(s, a, b);
  }

  lemma PassesOne(s: Scan, c: char)
    requires !Ends(s, c)
    ensures Passes(s, [c], Step(s, c))
  {
    assert [c][1..] == [];
  }

  // --- what is printed is passed over ---------------------------------------

  /** Characters that mean nothing to the scanner. */
  predicate Quiet(c: char) { c != '"' && c != '\\' && c != '[' && c != '{' && c != ']' && c != '}' }

  lemma {:induction false} QuietPasses(s: Scan, text: string)
    requires !s.escaped && forall k :: 0 <= k < |text| ==> Quiet(text[k])
    ensures Passes(s, text, s)
  {
    if text != [] {
      QuietPasses(s, text[1..]);
    }
  }

  lemma HexIsQuiet(d: Digit)
    ensures Quiet(Hex(d))
  {
  }

  /** A backslash and the character it guards. */
  lemma GuardedPasses(s: Scan, c: char)
    requires s.inString && !s.escaped
    ensures Passes(s, ['\\', c], s)
  {
    PassesOne(s, '\\');
    PassesOne(s.(escaped := true), c);
    PassesConcat(s, ['\\'], s.(escaped := true), [c], s);
    assert ['\\'] + [c] == ['\\', c];
  }

  lemma UnicodePasses(s: Scan, n: Quad)
    requires s.inString && !s.escaped
    ensures Passes(s, UnicodeEscape(n), s)
  {
    HexIsQuiet(n / 0x1000);
    HexIsQuiet(n / 0x100 % 0x10);
    HexIsQuiet(n / 0x10 % 0x10);
    HexIsQuiet(n % 0x10);
    GuardedPasses(s, 'u');
    QuietPasses(s, Hex4(n));
    PassesConcat(s, ['\\', 'u'], s, Hex4(n), s);
  }

  lemma EscapePasses(s: Scan, c: char)
    requires s.inString && !s.escaped
    ensures Passes(s, Escape(c), s)
  {
    var e := Escape(c);
    if |e| == 1 {
      PassesOne(s, c);
    } else if |e| == 2 {
      GuardedPasses(s, e[1]);
      assert e == ['\\', e[1]];
    } else if c as int < 0x1_0000 {
      UnicodePasses(s, c as int);
    } else {
      var v := c as int - 0x1_0000;
      UnicodePasses(s, 0xD800 + v / 0x400);
      UnicodePasses(s, 0xDC00 + v % 0x400);
      PassesConcat(s, UnicodeEscape(0xD800 + v / 0x400), s, UnicodeEscape(0xDC00 + v % 0x400), s);
    }
  }

  lemma {:induction false} EscapeAllPasses(s: Scan, text: string)
    requires s.inString && !s.escaped
    ensures Passes(s, EscapeAll(text), s)
  {
    if text != [] {
      EscapePasses(s, text[0]);
      EscapeAllPasses(s, text[1..]);
      PassesConcat(s, Escape(text[0]), s, EscapeAll(text[1..]), s);
    }
  }

  /** Whatever quotes, backslashes or brackets a string holds, its quoted form opens and closes nothing. */
  lemma QuotePasses(s: Scan, text: string)
    requires !s.inString && !s.escaped
    ensures Passes(s, Quote(text), s)
  {
    var inside := s.(inString := true);
    PassesOne(s, '"');
    EscapeAllPasses(inside, text);
    PassesConcat(s, "\"", inside, EscapeAll(text), inside);
    PassesOne(inside, '"');
    PassesConcat(s, "\"" + EscapeAll(text), inside, "\"", s);
  }

  lemma {:induction false} DecimalIsQuiet(n: nat)
    ensures forall k :: 0 <= k < |Decimal(n)| ==> Quiet(Decimal(n)[k])
  {
    if n >= 10 {
      DecimalIsQuiet(n / 10);
    }
  }

  lemma OpenAndClose(s: Scan, open: char, inner: string, close: char)
    requires !s.inString && !s.escaped && s.depth >= 1 && (open == '[' || open == '{') && (close == ']' || close == '}')
    requires Passes(s.(depth := s.depth + 1), inner, s.(depth := s.depth + 1))
    ensures Passes(s, [open] + inner + [close], s)
  {
    var deeper := s.(depth := s.depth + 1);
    PassesOne(s, open);
    PassesConcat(s, [open], deeper, inner, deeper);
    PassesOne(deeper, close);
    PassesConcat(s, [open] + inner, deeper, [close], s);
  }

  lemma {:induction false} PrintPasses(s: Scan, v: Json)
    requires !s.inString && !s.escaped && s.depth >= 1
    ensures Passes(s, Print(v), s)
    decreases v
  {
    match v
    case Null => QuietPasses(s, Print(v));
    case Truth(b) => QuietPasses(s, Print(v));
    case Number(n) =>
      DecimalIsQuiet(if n < 0 then -n else n);
      QuietPasses(s, Print(v));
    case Text(text) => QuotePasses(s, text);
    case List(items) =>
      ItemsPass(s.(depth := s.depth + 1), items);
      OpenAndClose(s, '[', PrintItems(items), ']');
    case Object(members) =>
      MembersPass(s.(depth := s.depth + 1), members);
      OpenAndClose(s, '{', PrintMembers(members), '}');
  }

  lemma {:induction false} ItemsPass(s: Scan, items: Items)
    requires !s.inString && !s.escaped && s.depth >= 1
    ensures Passes(s, PrintItems(items), s)
    decreases items
  {
    match items
    case NoItems =>
    case Item(first, rest) =>
      PrintPasses(s, first);
      if !rest.NoItems? {
        PassesOne(s, ',');
        ItemsPass(s, rest);
        PassesConcat(s, Print(first), s, ",", s);
        PassesConcat(s, Print(first) + ",", s, PrintItems(rest), s);
      }
  }

  lemma {:induction false} MembersPass(s: Scan, members: Members)
    requires !s.inString && !s.escaped && s.depth >= 1
    ensures Passes(s, PrintMembers(members), s)
    decreases members
  {
    match members
    case NoMembers =>
    case Member(name, value, rest) =>
      var pair := Quote(name) + ":" + Print(value);
      QuotePasses(s, name);
      PassesOne(s, ':');
      PassesConcat(s, Quote(name), s, ":", s);
      PrintPasses(s, value);
      PassesConcat(s, Quote(name) + ":", s, Print(value), s);
      if !rest.NoMembers? {
        PassesOne(s, ',');
        MembersPass(s, rest);
        PassesConcat(s, pair, s, ",", s);
        PassesConcat(s, pair + ",", s, PrintMembers(rest), s);
      }
  }

  lemma OuterExtent(open: char, inner: string, close: char, rest: string)
    requires (open == '[' || open == '{') && (close == ']' || close == '}')
    requires Passes(Scan(1, false, false), inner, Scan(1, false, false))
    ensures Extent(Begin, [open] + inner + [close] + rest) == Some(|inner| + 2)
  {
    var one := Scan(1, false, false);
    PassesOne(Begin, open);
    PassesConcat(Begin, [open], one, inner, one);
    var tail := [close] + rest;
    ExtentConcat(Begin, [open] + inner, tail);
    assert [open] + inner + [close] + rest == [open] + inner + tail;
    assert Ends(one, tail[0]);
  }

  /** Scanning undoes printing: before any text at all, the scanner takes exactly the array or object that was
      printed. */
  lemma ScanUndoesPrint(v: Json, rest: string)
    requires v.List? || v.Object?
    ensures Extent(Begin, Print(v) + rest) == Some(|Print(v)|)
  {
    match v
    case List(items) =>
      ItemsPass(Scan(1, false, false), items);
      OuterExtent('[', PrintItems(items), ']', rest);
    case Object(members) =>
      MembersPass(Scan(1, false, false), members);
      OuterExtent('{', PrintMembers(members), '}', rest);
  }
}
