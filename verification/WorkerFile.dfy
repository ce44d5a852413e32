/**
The file the worker serves: two literals in it are rewritten, the catalogue
printed anew and the list of implemented features narrowed to those the
catalogue still has. Everything else stays as it is.
*/
module WorkerFile {
  import opened Tables
  import opened JsonText
  import opened JsonReader

  const ROLES := "export const CATALOG_ROLES: CatalogRole[] = "
  const EXPORT := "export const "
  const IMPLEMENTED := "IMPLEMENTED_FEATURES"
  const OFTYPE := ": ReadonlySet<string>"
  const NEWSET := " = new Set("
  const FEATURES := EXPORT + IMPLEMENTED + OFTYPE + NEWSET

  /** What the catalogue comes to: the text to serve, and the keys of its features. */
  datatype Catalogue = Catalogue(printed: Json, live: set<string>)

  predicate Printable(c: Catalogue) { c.printed.List? }

  function Replace(src: string, span: Span, text: string): string
    requires span.from <= span.to <= |src|
  {
    src[..span.from] + text + src[span.to..]
  }

  function Live(c: Catalogue): string -> bool { (k: string) => k in c.live }

  /** None where the script stops before it writes: a literal is missing or has no end, or the list cannot be read. */
  method WriteWorker(src: string, c: Catalogue) returns (r: Option<string>)
    requires Printable(c)
    ensures r.Some? ==> Written(src, c, r.value)
    ensures r.None? ==> forall out :: !Written(src, c, out)
  {
    var a := Literal(src, ROLES);
    if a == None {
      return None;
    }
    var first := Replace(src, a.value, Print(c.printed));
    var b := Literal(first, FEATURES);
    if b == None {
      forall out ensures !Written(src, c, out) { OneSpan(src, ROLES, a.value); }
      return None;
    }
    var impl := Parse(first[b.value.from..b.value.to]);
    if impl == None {
      forall out ensures !Written(src, c, out) { OneSpan(src, ROLES, a.value); OneSpan(first, FEATURES, b.value); }
      return None;
    }
    var kept: seq<string> := [];
    for k := 0 to |impl.value|
      invariant kept == Where(impl.value[..k], Live(c))
    {
      assert impl.value[..k + 1][..k] == impl.value[..k];
      if impl.value[k] in c.live {
        kept := kept + [impl.value[k]];
      }
    }
    assert impl.value[..|impl.value|] == impl.value;
    var out := Replace(first, b.value, PrintStrings(kept));
    assert Rewrites(src, c, a.value, first, b.value, impl.value, out);
    return Some(out);
  }

  ghost predicate Rewrites(src: string, c: Catalogue, a: Span, first: string, b: Span, impl: seq<string>, out: string)
  {
    && LiteralAt(src, ROLES, a) && first == Replace(src, a, Print(c.printed))
    && LiteralAt(first, FEATURES, b) && Parse(first[b.from..b.to]) == Some(impl)
    && out == Replace(first, b, PrintStrings(Where(impl, Live(c))))
  }

  ghost predicate Written(src: string, c: Catalogue, out: string)
  {
    exists a, first, b, impl :: Rewrites(src, c, a, first, b, impl, out)
  }

  lemma OneSpan(src: string, decl: string, span: Span)
    requires LiteralAt(src, decl, span)
    ensures forall other :: LiteralAt(src, decl, other) ==> other == span
  {
    forall other | LiteralAt(src, decl, other) ensures other == span {
      OnlyOneFirst(src, decl, span.from - |decl|);
    }
  }

  // --- where a declaration is found -----------------------------------------

  predicate Bracketless(part: string) { '[' !in part && ']' !in part && '{' !in part && '}' !in part }

  lemma CharOf(text: string, part: string, k: nat, p: nat)
    requires HasAt(text, part, k) && k <= p < k + |part|
    ensures text[p] == part[p - k] && text[p] in part
  {
    assert text[k..k + |part|][p - k] == text[p];
  }

  /** Text without brackets, found in text that holds a printed array, lies before the array, inside it or after it. */
  lemma NotAcross(head: string, list: string, tail: string, part: string, k: nat)
    requires list != [] && list[0] == '[' && list[|list| - 1] == ']' && Bracketless(part) && part != []
    requires HasAt(head + list + tail, part, k)
    ensures k + |part| <= |head| || (|head| <= k && k + |part| <= |head| + |list|) || |head| + |list| <= k
  {
    if k < |head| < k + |part| {
      CharOf(head + list + tail, part, k, |head|);
    } else if k < |head| + |list| < k + |part| {
      CharOf(head + list + tail, part, k, |head| + |list| - 1);
    }
  }

  lemma FoundInHead(head: string, rest: string, other: string, part: string, k: nat)
    requires HasAt(head + rest, part, k) && k + |part| <= |head|
    ensures HasAt(head + other, part, k)
  {
    assert (head + rest)[k..k + |part|] == head[k..k + |part|] == (head + other)[k..k + |part|];
  }

  /** Replacing what follows the first `decl` leaves `decl` first where it was. */
  lemma FirstStays(head: string, rest: string, other: string, decl: string)
    requires |head| >= |decl| && FirstAt(head + rest, decl, |head| - |decl|)
    ensures FirstAt(head + other, decl, |head| - |decl|)
  {
    FoundInHead(head, rest, other, decl, |head| - |decl|);
    forall k: nat | k < |head| - |decl| ensures !HasAt(head + other, decl, k) {
      if HasAt(head + other, decl, k) {
        FoundInHead(head, other, rest, decl, k);
      }
    }
  }

  /** Printing an array anew finds exactly it again, after the same declaration. */
  lemma LiteralAgain(head: string, rest: string, tail: string, decl: string, v: Json, span: Span)
    requires v.List? && |head| >= |decl| && FirstAt(head + rest, decl, |head| - |decl|)
    requires span == Span(|head|, |head| + |Print(v)|)
    ensures LiteralAt(head + Print(v) + tail, decl, span)
  {
    var src := head + Print(v) + tail;
    assert src == head + (Print(v) + tail);
    FirstStays(head, rest, Print(v) + tail, decl);
    assert src[span.from..] == Print(v) + tail;
    ScanUndoesPrint(v, tail);
  }

  ghost predicate Holds(text: string, part: string) { exists k: nat :: HasAt(text, part, k) }

  lemma PrintedIsArray(v: Json)
    requires v.List?
    ensures Print(v) != [] && Print(v)[0] == '[' && Print(v)[|Print(v)| - 1] == ']'
  {
  }

  lemma Joined(a: string, b: string)
    requires Bracketless(a) && Bracketless(b)
    ensures Bracketless(a + b)
  {
  }

  lemma FirstWords()
    ensures Bracketless(EXPORT) && Bracketless(NEWSET)
  {
  }

  lemma NameWords()
    ensures Bracketless(IMPLEMENTED)
  {
  }

  lemma TypeWords()
    ensures Bracketless(OFTYPE)
  {
  }

  lemma FeaturesBracketless()
    ensures Bracketless(FEATURES) && FEATURES != []
  {
    FirstWords();
    NameWords();
    TypeWords();
    Joined(EXPORT, IMPLEMENTED);
    Joined(EXPORT + IMPLEMENTED, OFTYPE);
    Joined(EXPORT + IMPLEMENTED + OFTYPE, NEWSET);
  }

  lemma FoundInTail(head: string, other: string, tail: string, part: string, k: nat)
    requires HasAt(head + tail, part, k) && k >= |head|
    ensures HasAt(other + tail, part, k - |head| + |other|)
  {
    var j := k - |head| + |other|;
    assert (head + tail)[k..k + |part|] == tail[k - |head|..k - |head| + |part|] == (other + tail)[j..j + |part|];
  }

  lemma FoundInMiddle(head: string, middle: string, tail: string, part: string, k: nat)
    requires |head| <= k && k + |part| <= |head| + |middle|
    ensures HasAt(head + middle + tail, part, k) <==> HasAt(middle, part, k - |head|)
  {
    assert (head + middle + tail)[k..k + |part|] == middle[k - |head|..k - |head| + |part|];
  }

  /** Where the list's declaration is first found once the catalogue `old'` has been replaced by `list`. */
  lemma FirstMoves(head: string, old': string, list: string, tail: string, part: string, k: nat)
    requires list != [] && list[0] == '[' && list[|list| - 1] == ']' && Bracketless(part) && part != []
    requires FirstAt(head + old' + tail, part, k) && k >= |head| + |old'|
    ensures FirstAt(head + list + tail, part, k - |old'| + |list|) <==> !Holds(list, part)
  {
    var k2 := k - |old'| + |list|;
    FoundInTail(head + old', head + list, tail, part, k);
    if Holds(list, part) {
      var j: nat :| HasAt(list, part, j);
      FoundInMiddle(head, list, tail, part, |head| + j);
      assert HasAt(head + list + tail, part, |head| + j);
    } else {
      forall j: nat | j < k2 ensures !HasAt(head + list + tail, part, j) {
        if HasAt(head + list + tail, part, j) {
          NotAcross(head, list, tail, part, j);
          if j + |part| <= |head| {
            assert head + list + tail == head + (list + tail) && head + old' + tail == head + (old' + tail);
            FoundInHead(head, list + tail, old' + tail, part, j);
          } else if j + |part| <= |head| + |list| {
            FoundInMiddle(head, list, tail, part, j);
          } else {
            FoundInTail(head + list, head + old', tail, part, j);
          }
        }
      }
    }
  }

  // --- text outside the two literals ----------------------------------------

  /** The list's literal in the file, as the run will find it after the catalogue has been replaced. */
  function Moved(span: Span, a: Span, size: nat): Span
    requires a.from <= a.to <= span.from <= span.to
  {
    Span(span.from - (a.to - a.from) + size, span.to - (a.to - a.from) + size)
  }

  /** A text whose piece at `a` has been replaced, read around a later piece. */
  lemma AroundLater(src: string, a: Span, text: string, b: Span, first: string, b1: Span)
    requires a.from <= a.to <= b.from <= b.to <= |src| && first == Replace(src, a, text) && b1 == Moved(b, a, |text|)
    ensures b1.to <= |first| && first[b1.from..b1.to] == src[b.from..b.to] && first[b1.to..] == src[b.to..]
    ensures first[b1.from..] == src[b.from..]
    ensures first[..b1.from] == src[..a.from] + text + src[a.to..b.from]
  {
  }

  lemma InThree(src: string, a: Span, text: string)
    requires a.from <= a.to <= |src|
    ensures src == src[..a.from] + src[a.from..a.to] + src[a.to..]
    ensures Replace(src, a, text) == src[..a.from] + text + src[a.to..]
  {
  }

  lemma DeclarationMoves(src: string, v: Json, a: Span, k: nat, first: string)
    requires v.List? && a.from <= a.to <= k <= |src| && FirstAt(src, FEATURES, k) && first == Replace(src, a, Print(v))
    ensures FirstAt(first, FEATURES, k - (a.to - a.from) + |Print(v)|) <==> !Holds(Print(v), FEATURES)
  {
    PrintedIsArray(v);
    FeaturesBracketless();
    InThree(src, a, Print(v));
    FirstMoves(src[..a.from], src[a.from..a.to], Print(v), src[a.to..], FEATURES, k);
  }

  /** The run rewrites the file's own list exactly when the new catalogue nowhere spells the list's declaration. */
  lemma FindsTheList(src: string, c: Catalogue, a: Span, b: Span, first: string, b1: Span)
    requires Printable(c) && LiteralAt(src, FEATURES, b) && a.from <= a.to <= b.from - |FEATURES|
    requires first == Replace(src, a, Print(c.printed)) && b1 == Moved(b, a, |Print(c.printed)|)
    ensures LiteralAt(first, FEATURES, b1) <==> !Holds(Print(c.printed), FEATURES)
  {
    DeclarationMoves(src, c.printed, a, b.from - |FEATURES|, first);
    AroundLater(src, a, Print(c.printed), b, first, b1);
  }

  lemma Rejoined(src: string, a: Span, text: string, b: Span, first: string, b1: Span, list: string, out: string)
    requires a.from <= a.to <= b.from <= b.to <= |src| && first == Replace(src, a, text) && b1 == Moved(b, a, |text|)
    requires b1.to <= |first| && out == Replace(first, b1, list)
    ensures out == src[..a.from] + text + src[a.to..b.from] + list + src[b.to..]
  {
    AroundLater(src, a, text, b, first, b1);
  }

  /** Text outside the two literals is unchanged: the file becomes itself with the catalogue printed in place of the
      first and the features still live, in the order they stood, in place of the second. */
  lemma OutsideUnchanged(src: string, c: Catalogue, a: Span, b: Span, impl: seq<string>, out: string)
    requires Printable(c) && LiteralAt(src, ROLES, a) && LiteralAt(src, FEATURES, b) && b.from - |FEATURES| >= a.to
    requires !Holds(Print(c.printed), FEATURES) && Parse(src[b.from..b.to]) == Some(impl) && Written(src, c, out)
    ensures out
      == src[..a.from] + Print(c.printed) + src[a.to..b.from] + PrintStrings(Where(impl, Live(c))) + src[b.to..]
  {
    var a1, first, b1, impl1 :| Rewrites(src, c, a1, first, b1, impl1, out);
    OneSpan(src, ROLES, a1);
    var b2 := Moved(b, a, |Print(c.printed)|);
    FindsTheList(src, c, a, b, first, b2);
    OneSpan(first, FEATURES, b1);
    AroundLater(src, a, Print(c.printed), b, first, b2);
    Rejoined(src, a, Print(c.printed), b, first, b1, PrintStrings(Where(impl, Live(c))), out);
  }

  /** What is kept is the implemented features that are still live, none added, their order kept. */
  lemma Narrowed(impl: seq<string>, c: Catalogue)
    ensures |Where(impl, Live(c))| <= |impl|
    ensures forall k :: k in Where(impl, Live(c)) <==> k in impl && k in c.live
  {
    WhereIn(impl, Live(c));
  }

  // --- the second run -------------------------------------------------------

  lemma WrittenOnce(src: string, c: Catalogue, out: string, other: string)
    requires Written(src, c, out) && Written(src, c, other)
    ensures out == other
  {
    var a, first, b, impl :| Rewrites(src, c, a, first, b, impl, out);
    var a1, first1, b1, impl1 :| Rewrites(src, c, a1, first1, b1, impl1, other);
    OneSpan(src, ROLES, a);
    OneSpan(first, FEATURES, b);
  }

  lemma RolesAgain(first: string, c: Catalogue, src: string, a: Span, b: Span, more: string)
    requires Printable(c) && LiteralAt(src, ROLES, a) && first == Replace(src, a, Print(c.printed))
    requires a.from + |Print(c.printed)| <= b.from <= |first|
    ensures LiteralAt(first[..b.from] + more, ROLES, Span(a.from, a.from + |Print(c.printed)|))
  {
    var size := |Print(c.printed)|;
    var head := src[..a.from];
    assert src == head + src[a.from..];
    var rest := first[a.from + size..b.from] + more;
    LiteralAgain(head, src[a.from..], rest, ROLES, c.printed, Span(a.from, a.from + size));
    assert first[..b.from] + more == head + Print(c.printed) + rest;
  }

  lemma {:induction false} StillLive(impl: seq<string>, c: Catalogue)
    ensures Where(Where(impl, Live(c)), Live(c)) == Where(impl, Live(c))
  {
    WhereIn(impl, Live(c));
    WhereAll(Where(impl, Live(c)), Live(c));
  }

  lemma ReplaceBySame(src: string, a: Span)
    requires a.from <= a.to <= |src|
    ensures Replace(src, a, src[a.from..a.to]) == src
  {
  }

  lemma ListAgain(first: string, b: Span, kept: seq<string>, out: string, b2: Span)
    requires LiteralAt(first, FEATURES, b) && out == Replace(first, b, PrintStrings(kept))
    requires b2 == Span(b.from, b.from + |PrintStrings(kept)|)
    ensures LiteralAt(out, FEATURES, b2) && out[b2.from..b2.to] == PrintStrings(kept)
    ensures out[..b.from] == first[..b.from]
  {
    assert first == first[..b.from] + first[b.from..];
    LiteralAgain(first[..b.from], first[b.from..], first[b.to..], FEATURES, List(Strings(kept)), b2);
  }

  lemma CatalogueAgain(src: string, c: Catalogue, a: Span, first: string, b: Span, more: string, out: string, a2: Span)
    requires Printable(c) && LiteralAt(src, ROLES, a) && first == Replace(src, a, Print(c.printed))
    requires a.from + |Print(c.printed)| <= b.from <= |first| && out == first[..b.from] + more
    requires a2 == Span(a.from, a.from + |Print(c.printed)|)
    ensures LiteralAt(out, ROLES, a2) && out[a2.from..a2.to] == Print(c.printed)
  {
    RolesAgain(first, c, src, a, b, more);
    assert out[a2.from..a2.to] == first[a2.from..a2.to];
  }

  /** With the list after the catalogue, as in the file, a second run writes what is already there. */
  lemma SecondRunIsNoChange(src: string, c: Catalogue, a: Span, first: string, b: Span, impl: seq<string>, out: string)
    requires Printable(c) && Rewrites(src, c, a, first, b, impl, out)
    requires a.from + |Print(c.printed)| <= b.from - |FEATURES|
    ensures Written(out, c, out)
  {
    var kept := Where(impl, Live(c));
    var a2 := Span(a.from, a.from + |Print(c.printed)|);
    var b2 := Span(b.from, b.from + |PrintStrings(kept)|);
    CatalogueAgain(src, c, a, first, b, PrintStrings(kept) + first[b.to..], out, a2);
    ListAgain(first, b, kept, out, b2);
    ReplaceBySame(out, a2);
    ReplaceBySame(out, b2);
    ParseUndoesPrint(kept);
    StillLive(impl, c);
    assert Rewrites(out, c, a2, out, b2, kept, out);
  }

  // --- a catalogue that hides the list --------------------------------------

  /** Characters that are printed as they are. */
  predicate Bare(c: char) { ' ' <= c <= '~' && c != '"' && c != '\\' }

  lemma BareEscaped(c: char)
    requires Bare(c)
    ensures Escape(c) == [c]
  {
  }

  lemma EscapedFirst(text: string)
    requires text != [] && Escape(text[0]) == [text[0]] && EscapeAll(text[1..]) == text[1..]
    ensures EscapeAll(text) == text
  {
    assert text == [text[0]] + text[1..];
  }

  lemma {:induction false} BarePrinted(text: string)
    requires forall c :: c in text ==> Bare(c)
    ensures EscapeAll(text) == text
  {
    if text != [] {
      BareEscaped(text[0]);
      BarePrinted(text[1..]);
      EscapedFirst(text);
    }
  }

  lemma FirstWordsBare()
    ensures forall c :: c in EXPORT ==> Bare(c)
    ensures forall c :: c in NEWSET ==> Bare(c)
  {
  }

  lemma NameWordsBare()
    ensures forall c :: c in IMPLEMENTED ==> Bare(c)
  {
  }

  lemma TypeWordsBare()
    ensures forall c :: c in OFTYPE ==> Bare(c)
  {
  }

  /** A catalogue with a feature whose text spells the list's declaration. */
  const Spelling := Catalogue(List(Item(Text(FEATURES), NoItems)), {})

  lemma OneText(text: string)
    requires EscapeAll(text) == text
    ensures Print(List(Item(Text(text), NoItems))) == "[\"" + text + "\"]"
  {
    assert PrintItems(Item(Text(text), NoItems)) == Print(Text(text)) == Quote(text);
  }

  lemma SpellingHolds()
    ensures Printable(Spelling) && Holds(Print(Spelling.printed), FEATURES)
  {
    FirstWordsBare();
    NameWordsBare();
    TypeWordsBare();
    BarePrinted(FEATURES);
    OneText(FEATURES);
    assert HasAt("[\"" + FEATURES + "\"]", FEATURES, 2);
  }

  /** The smallest file with both literals, each empty. */
  const Smallest := ROLES + "[]" + FEATURES + "[]"

  lemma EmptyArray(rest: string)
    ensures Extent(Begin, "[]" + rest) == Some(2)
  {
    ScanUndoesPrint(List(NoItems), rest);
    assert Print(List(NoItems)) == "[]";
  }

  lemma SmallestLiterals(a: Span, b: Span)
    requires a == Span(|ROLES|, |ROLES| + 2) && b == Span(a.to + |FEATURES|, a.to + |FEATURES| + 2)
    ensures LiteralAt(Smallest, ROLES, a) && LiteralAt(Smallest, FEATURES, b)
  {
    assert Smallest[a.from..] == "[]" + (FEATURES + "[]");
    EmptyArray(FEATURES + "[]");
    assert HasAt(Smallest, ROLES, 0);
    assert Smallest[b.from..] == "[]" + "";
    EmptyArray("");
    assert HasAt(Smallest, FEATURES, a.to);
    FeaturesBracketless();
    forall k: nat | k < a.to ensures !HasAt(Smallest, FEATURES, k) {
      if HasAt(Smallest, FEATURES, k) {
        assert Smallest[a.to - 1] == ']';
        CharOf(Smallest, FEATURES, k, a.to - 1);
      }
    }
  }

  /** Over that file the run loses the list: after the catalogue is written its declaration is found inside the
      catalogue. */
  lemma ListHidden(a: Span, b: Span, first: string)
    requires a == Span(|ROLES|, |ROLES| + 2) && b == Span(a.to + |FEATURES|, a.to + |FEATURES| + 2)
    requires first == Replace(Smallest, a, Print(Spelling.printed))
    ensures LiteralAt(Smallest, ROLES, a) && LiteralAt(Smallest, FEATURES, b)
    ensures !LiteralAt(first, FEATURES, Moved(b, a, |Print(Spelling.printed)|))
  {
    SmallestLiterals(a, b);
    SpellingHolds();
    FindsTheList(Smallest, Spelling, a, b, first, Moved(b, a, |Print(Spelling.printed)|));
  }
}
