/**
Reading JSON back: what was printed is what is read, however deep the value
and whatever characters its strings hold (sections 2 to 7 of RFC 8259).
*/
module JsonReader {
  import opened Tables
  import opened JsonText

  datatype Read<T> = Read(value: T, rest: string)

  function HexValue(c: char): Option<Digit>
  {
    if '0' <= c <= '9' then Some(c as int - '0' as int)
    else if 'a' <= c <= 'f' then Some(c as int - 'a' as int + 10)
    else if 'A' <= c <= 'F' then Some(c as int - 'A' as int + 10)
    else None
  }

  function Hex4Value(t: string): Option<Quad>
  {
    if |t| < 4 then None
    else
      var a :- HexValue(t[0]);
      var b :- HexValue(t[1]);
      var c :- HexValue(t[2]);
      var d :- HexValue(t[3]);
      Some(a * 0x1000 + b * 0x100 + c * 0x10 + d)
  }

  /** A high surrogate followed by the escape of a low one is one character; a surrogate by itself is none. */
  function ReadUnicode(t: string): Option<Read<char>>
  {
    var n :- Hex4Value(t);
    if n < 0xD800 || n >= 0xE000 then Some(Read(n as char, t[4..]))
    else if n < 0xDC00 && |t| >= 10 && t[4] == '\\' && t[5] == 'u' then
      var low :- Hex4Value(t[6..]);
      if 0xDC00 <= low < 0xE000 then Some(Read((0x1_0000 + (n - 0xD800) * 0x400 + (low - 0xDC00)) as char, t[10..]))
      else None
    else None
  }

  /** One character of a string, escaped or not. */
  function ReadChar(t: string): Option<Read<char>>
    requires t != []
  {
    if t[0] != '\\' then if t[0] < ' ' || t[0] == '"' then None else Some(Read(t[0], t[1..]))
    else if |t| < 2 then None
    else if t[1] == '"' || t[1] == '\\' || t[1] == '/' then Some(Read(t[1], t[2..]))
    else if t[1] == 'n' then Some(Read('\n', t[2..]))
    else if t[1] == 'r' then Some(Read('\r', t[2..]))
    else if t[1] == 't' then Some(Read('\t', t[2..]))
    else if t[1] == 'b' then Some(Read('\U{8}', t[2..]))
    else if t[1] == 'f' then Some(Read('\U{c}', t[2..]))
    else if t[1] == 'u' then ReadUnicode(t[2..])
    else None
  }

  function ReadBody(t: string): Option<Read<string>>
    decreases |t|
  {
    if t == [] then None
    else if t[0] == '"' then Some(Read([], t[1..]))
    else
      var c :- ReadChar(t);
      if |c.rest| >= |t| then None
      else
        var more :- ReadBody(c.rest);
        Some(Read([c.value] + more.value, more.rest))
  }

  function ReadString(t: string): Option<Read<string>>
  {
    if t == [] || t[0] != '"' then None else ReadBody(t[1..])
  }

  predicate IsDigit(c: char) { '0' <= c <= '9' }

  /** The number whose digits so far come to `n`. */
  function ReadDigits(t: string, n: nat): Read<nat>
    decreases |t|
  {
    if t == [] || !IsDigit(t[0]) then Read(n, t) else ReadDigits(t[1..], 10 * n + (t[0] as int - '0' as int))
  }

  function ReadNumber(t: string): Option<Read<Json>>
  {
    if t == [] then None
    else if t[0] == '-' then
      if |t| < 2 || !IsDigit(t[1]) then None
      else
        var r := ReadDigits(t[1..], 0);
        var n: int := r.value;
        Some(Read(Number(-n), r.rest))
    else if !IsDigit(t[0]) then None
    else
      var r := ReadDigits(t, 0);
      Some(Read(Number(r.value), r.rest))
  }

  function ReadWord(t: string, word: string, v: Json): Option<Read<Json>>
  {
    if IsPrefix(word, t) then Some(Read(v, t[|word|..])) else None
  }

  /** One value, and what follows it. */
  function ReadValue(t: string): Option<Read<Json>>
    decreases |t|, 0
  {
    if t == [] then None
    else if t[0] == '"' then
      var s :- ReadString(t);
      Some(Read(Text(s.value), s.rest))
    else if t[0] == '[' then
      if |t| >= 2 && t[1] == ']' then Some(Read(List(NoItems), t[2..]))
      else
        var r :- ReadItems(t[1..]);
        Some(Read(List(r.value), r.rest))
    else if t[0] == '{' then
      if |t| >= 2 && t[1] == '}' then Some(Read(Object(NoMembers), t[2..]))
      else
        var r :- ReadMembers(t[1..]);
        Some(Read(Object(r.value), r.rest))
    else if t[0] == 'n' then ReadWord(t, "null", Null)
    else if t[0] == 't' then ReadWord(t, "true", Truth(true))
    else if t[0] == 'f' then ReadWord(t, "false", Truth(false))
    else ReadNumber(t)
  }

  /** The items up to the closing bracket, once one is expected. */
  function ReadItems(t: string): Option<Read<Items>>
    decreases |t|, 1
  {
    var v :- ReadValue(t);
    if v.rest == [] || |v.rest| > |t| then None
    else if v.rest[0] == ']' then Some(Read(Item(v.value, NoItems), v.rest[1..]))
    else if v.rest[0] == ',' then
      var more :- ReadItems(v.rest[1..]);
      Some(Read(Item(v.value, more.value), more.rest))
    else None
  }

  function ReadMembers(t: string): Option<Read<Members>>
    decreases |t|, 1
  {
    var name :- ReadString(t);
    if name.rest == [] || name.rest[0] != ':' || |name.rest| > |t| then None
    else
      var v :- ReadValue(name.rest[1..]);
      if v.rest == [] || |v.rest| > |t| then None
      else if v.rest[0] == '}' then Some(Read(Member(name.value, v.value, NoMembers), v.rest[1..]))
      else if v.rest[0] == ',' then
        var more :- ReadMembers(v.rest[1..]);
        Some(Read(Member(name.value, v.value, more.value), more.rest))
      else None
  }

  /** The value a text holds, when that is all it holds. */
  function ReadJson(t: string): Option<Json>
  {
    var r :- ReadValue(t);
    if r.rest == [] then Some(r.value) else None
  }

  function Texts(items: Items): Option<seq<string>>
  {
    match items
    case NoItems => Some([])
    case Item(Text(s), rest) =>
      var more :- Texts(rest);
      Some([s] + more)
    case Item(_, _) => None
  }

  /** The array of strings a literal holds. */
  function Parse(t: string): Option<seq<string>>
  {
    match ReadJson(t)
    case Some(List(items)) => Texts(items)
    case _ => None
  }

  function Strings(keys: seq<string>): Items
  {
    if keys == [] then NoItems else Item(Text(keys[0]), Strings(keys[1..]))
  }

  function PrintStrings(keys: seq<string>): string { Print(List(Strings(keys))) }

  // --- reading undoes printing ----------------------------------------------

  lemma HexReads(d: Digit)
    ensures HexValue(Hex(d)) == Some(d)
  {
  }

  lemma HexDigits(n: Quad)
    ensures n == n / 0x1000 * 0x1000 + n / 0x100 % 0x10 * 0x100 + n / 0x10 % 0x10 * 0x10 + n % 0x10
  {
    var a := n / 0x10;
    var b := a / 0x10;
    assert b == n / 0x100 && b / 0x10 == n / 0x1000;
    assert n == 0x10 * a + n % 0x10 && a == 0x10 * b + a % 0x10 && b == 0x10 * (b / 0x10) + b % 0x10;
  }

  lemma FourRead(t: string, a: Digit, b: Digit, c: Digit, d: Digit)
    requires |t| >= 4 && t[0] == Hex(a) && t[1] == Hex(b) && t[2] == Hex(c) && t[3] == Hex(d)
    ensures Hex4Value(t) == Some(a * 0x1000 + b * 0x100 + c * 0x10 + d)
  {
    HexReads(a);
    HexReads(b);
    HexReads(c);
    HexReads(d);
  }

  lemma Hex4Reads(n: Quad, rest: string)
    ensures Hex4Value(Hex4(n) + rest) == Some(n)
  {
    HexDigits(n);
    FourRead(Hex4(n) + rest, n / 0x1000, n / 0x100 % 0x10, n / 0x10 % 0x10, n % 0x10);
  }

  lemma PlainUnicodeReads(c: char, rest: string)
    requires c as int < 0x1_0000
    ensures ReadChar(UnicodeEscape(c as int) + rest) == Some(Read(c, rest))
  {
    var n := c as int;
    var t := UnicodeEscape(n) + rest;
    assert t[2..] == Hex4(n) + rest;
    Hex4Reads(n, rest);
    assert t[2..][4..] == rest;
  }

  lemma SurrogatesRead(t: string, high: Quad, low: Quad)
    requires |t| >= 10 && Hex4Value(t) == Some(high) && t[4] == '\\' && t[5] == 'u' && Hex4Value(t[6..]) == Some(low)
    requires 0xD800 <= high < 0xDC00 <= low < 0xE000
    ensures ReadUnicode(t) == Some(Read((0x1_0000 + (high - 0xD800) * 0x400 + (low - 0xDC00)) as char, t[10..]))
  {
  }

  lemma PairText(high: Quad, low: Quad, rest: string, t: string)
    requires t == UnicodeEscape(high) + UnicodeEscape(low) + rest
    ensures |t| >= 12 && t[0] == '\\' && t[1] == 'u' && t[2..][4] == '\\' && t[2..][5] == 'u'
    ensures Hex4Value(t[2..]) == Some(high) && Hex4Value(t[2..][6..]) == Some(low) && t[2..][10..] == rest
  {
    assert t[2..] == Hex4(high) + (UnicodeEscape(low) + rest);
    Hex4Reads(high, UnicodeEscape(low) + rest);
    assert t[2..][6..] == Hex4(low) + rest;
    Hex4Reads(low, rest);
  }

  lemma PairReads(c: char, rest: string)
    requires c as int >= 0x1_0000
    ensures ReadChar(Escape(c) + rest) == Some(Read(c, rest))
  {
    var v := c as int - 0x1_0000;
    var high, low := 0xD800 + v / 0x400, 0xDC00 + v % 0x400;
    var t := Escape(c) + rest;
    PairText(high, low, rest, t);
    SurrogatesRead(t[2..], high, low);
    assert v == v / 0x400 * 0x400 + v % 0x400;
  }

  lemma EscapeReads(c: char, rest: string)
    ensures Escape(c)[0] != '"' && ReadChar(Escape(c) + rest) == Some(Read(c, rest))
  {
    var t := Escape(c) + rest;
    if |Escape(c)| == 1 {
      assert t[1..] == rest;
    } else if |Escape(c)| == 2 {
      assert t[2..] == rest;
    } else if c as int < 0x1_0000 {
      PlainUnicodeReads(c, rest);
    } else {
      PairReads(c, rest);
    }
  }

  lemma {:induction false} BodyReads(s: string, rest: string)
    ensures ReadBody(EscapeAll(s) + "\"" + rest) == Some(Read(s, rest))
  {
    if s == [] {
      assert EscapeAll(s) + "\"" + rest == "\"" + rest && ("\"" + rest)[1..] == rest;
    } else {
      var more := EscapeAll(s[1..]) + "\"" + rest;
      assert EscapeAll(s) + "\"" + rest == Escape(s[0]) + more;
      BodyReads(s[1..], rest);
      OneMoreRead(s[0], more, s[1..], rest);
      assert [s[0]] + s[1..] == s;
    }
  }

  lemma OneMoreRead(c: char, more: string, tail: string, rest: string)
    requires ReadBody(more) == Some(Read(tail, rest))
    ensures ReadBody(Escape(c) + more) == Some(Read([c] + tail, rest))
  {
    var t := Escape(c) + more;
    EscapeReads(c, more);
    assert t[0] == Escape(c)[0] && |more| < |t|;
  }

  lemma StringReads(s: string, rest: string)
    ensures ReadString(Quote(s) + rest) == Some(Read(s, rest))
  {
    BodyReads(s, rest);
    AfterQuote(EscapeAll(s), rest);
  }

  lemma AfterQuote(body: string, rest: string)
    ensures ("\"" + body + "\"" + rest)[1..] == body + "\"" + rest
  {
  }

  lemma {:induction false} DigitsRead(n: nat, rest: string)
    ensures ReadDigits(Decimal(n) + rest, 0) == ReadDigits(rest, n)
    ensures IsDigit(Decimal(n)[0])
  {
    if n >= 10 {
      var last := ['0' + (n % 10) as char];
      DigitsRead(n / 10, last + rest);
      assert Decimal(n) + rest == Decimal(n / 10) + (last + rest);
      assert (last + rest)[1..] == rest;
    } else {
      assert (Decimal(n) + rest)[1..] == rest;
    }
  }

  /** No digit goes on from here. */
  predicate Stops(rest: string) { rest == [] || !IsDigit(rest[0]) }

  lemma NumberReads(n: int, rest: string)
    requires Stops(rest)
    ensures ReadValue(Print(Number(n)) + rest) == Some(Read(Number(n), rest))
    ensures Print(Number(n))[0] == '-' || IsDigit(Print(Number(n))[0])
  {
    var digits := Decimal(if n < 0 then -n else n);
    DigitsRead(if n < 0 then -n else n, rest);
    if n < 0 {
      assert (Print(Number(n)) + rest)[1..] == digits + rest;
    }
  }

  lemma PrintStarts(v: Json)
    ensures Print(v) != [] && Print(v)[0] != ']'
  {
    if v.Number? {
      NumberReads(v.n, []);
    }
  }

  lemma WordReads(word: string, rest: string)
    ensures IsPrefix(word, word + rest) && (word + rest)[|word|..] == rest
  {
  }

  lemma AtomReads(v: Json, rest: string)
    requires Stops(rest) && !v.List? && !v.Object?
    ensures ReadValue(Print(v) + rest) == Some(Read(v, rest))
  {
    match v
    case Null => WordReads("null", rest);
    case Truth(b) => WordReads(Print(v), rest);
    case Number(n) => NumberReads(n, rest);
    case Text(s) => StringReads(s, rest);
  }

  lemma Bracketed(open: char, inner: string, rest: string)
    ensures ([open] + inner + rest)[1..] == inner + rest
    ensures |inner| == 1 ==> ([open] + inner + rest)[2..] == rest
  {
  }

  lemma ListReads(items: Items, rest: string)
    requires items.Item? ==>
      && PrintItems(items) != [] && PrintItems(items)[0] != ']'
      && ReadItems(PrintItems(items) + "]" + rest) == Some(Read(items, rest))
    ensures ReadValue(Print(List(items)) + rest) == Some(Read(List(items), rest))
  {
    Bracketed('[', PrintItems(items) + "]", rest);
    assert Print(List(items)) == "[" + (PrintItems(items) + "]");
  }

  lemma ObjectReads(members: Members, rest: string)
    requires members.Member? ==> ReadMembers(PrintMembers(members) + "}" + rest) == Some(Read(members, rest))
    ensures ReadValue(Print(Object(members)) + rest) == Some(Read(Object(members), rest))
  {
    Bracketed('{', PrintMembers(members) + "}", rest);
    assert Print(Object(members)) == "{" + (PrintMembers(members) + "}");
    assert members.Member? ==> PrintMembers(members) != [] && PrintMembers(members)[0] == '"';
  }

  lemma {:induction false} ValueReads(v: Json, rest: string)
    requires Stops(rest)
    ensures ReadValue(Print(v) + rest) == Some(Read(v, rest))
    decreases v
  {
    match v
    case List(items) =>
      if items.Item? {
        PrintStarts(items.first);
        ItemsRead(items, rest);
      }
      ListReads(items, rest);
    case Object(members) =>
      if members.Member? {
        MembersRead(members, rest);
      }
      ObjectReads(members, rest);
    case _ => AtomReads(v, rest);
  }

  lemma ItemRead(t: string, v: Json, c: char, more: string, items: Items, rest: string)
    requires ReadValue(t) == Some(Read(v, [c] + more)) && |more| < |t|
    requires if c == ']' then items.NoItems? && rest == more else c == ',' && ReadItems(more) == Some(Read(items, rest))
    ensures ReadItems(t) == Some(Read(Item(v, items), rest))
  {
    assert ([c] + more)[1..] == more;
  }

  lemma {:induction false} ItemsRead(items: Items, rest: string)
    requires items.Item?
    ensures ReadItems(PrintItems(items) + "]" + rest) == Some(Read(items, rest))
    decreases items
  {
    var t := PrintItems(items) + "]" + rest;
    if items.rest.NoItems? {
      assert t == Print(items.first) + ("]" + rest);
      ValueReads(items.first, "]" + rest);
      PrintStarts(items.first);
      ItemRead(t, items.first, ']', rest, NoItems, rest);
    } else {
      var more := PrintItems(items.rest) + "]" + rest;
      assert t == Print(items.first) + ("," + more);
      ValueReads(items.first, "," + more);
      ItemsRead(items.rest, rest);
      ItemRead(t, items.first, ',', more, items.rest, rest);
    }
  }

  lemma MemberRead(t: string, name: string, value: string, v: Json, c: char, more: string, members: Members,
                   rest: string)
    requires t == Quote(name) + (":" + value) && ReadValue(value) == Some(Read(v, [c] + more)) && |more| < |value|
    requires
      if c == '}' then members.NoMembers? && rest == more
      else c == ',' && ReadMembers(more) == Some(Read(members, rest))
    ensures ReadMembers(t) == Some(Read(Member(name, v, members), rest))
  {
    StringReads(name, ":" + value);
    assert (":" + value)[1..] == value && ([c] + more)[1..] == more;
  }

  lemma LastPair(name: string, value: string, rest: string)
    ensures name + ":" + value + "}" + rest == name + (":" + (value + ("}" + rest)))
  {
  }

  lemma FirstPair(name: string, value: string, more: string, rest: string)
    ensures name + ":" + value + "," + more + "}" + rest == name + (":" + (value + ("," + (more + "}" + rest))))
  {
  }

  lemma MembersText(members: Members, rest: string)
    requires members.Member?
    ensures
      var after := if members.rest.NoMembers? then "}" + rest else "," + (PrintMembers(members.rest) + "}" + rest);
      PrintMembers(members) + "}" + rest == Quote(members.name) + (":" + (Print(members.value) + after))
  {
    var name, value := Quote(members.name), Print(members.value);
    if members.rest.NoMembers? {
      LastPair(name, value, rest);
    } else {
      FirstPair(name, value, PrintMembers(members.rest), rest);
    }
  }

  lemma {:induction false} MembersRead(members: Members, rest: string)
    requires members.Member?
    ensures ReadMembers(PrintMembers(members) + "}" + rest) == Some(Read(members, rest))
    decreases members
  {
    var t := PrintMembers(members) + "}" + rest;
    MembersText(members, rest);
    PrintStarts(members.value);
    if members.rest.NoMembers? {
      ValueReads(members.value, "}" + rest);
      MemberRead(t, members.name, Print(members.value) + ("}" + rest), members.value, '}', rest, NoMembers, rest);
    } else {
      var more := PrintMembers(members.rest) + "}" + rest;
      ValueReads(members.value, "," + more);
      MembersRead(members.rest, rest);
      MemberRead(t, members.name, Print(members.value) + ("," + more), members.value, ',', more, members.rest, rest);
    }
  }

  /** Reading undoes printing, for every value. */
  lemma ReadUndoesPrint(v: Json)
    ensures ReadJson(Print(v)) == Some(v)
  {
    ValueReads(v, []);
    assert Print(v) + [] == Print(v);
  }

  lemma {:induction false} TextsOfStrings(keys: seq<string>)
    ensures Texts(Strings(keys)) == Some(keys)
  {
    if keys != [] {
      TextsOfStrings(keys[1..]);
      assert [keys[0]] + keys[1..] == keys;
    }
  }

  /** Reading an array of strings back gives the strings that were printed, every character of them. */
  lemma ParseUndoesPrint(keys: seq<string>)
    ensures Parse(PrintStrings(keys)) == Some(keys)
  {
    ReadUndoesPrint(List(Strings(keys)));
    TextsOfStrings(keys);
  }
}
