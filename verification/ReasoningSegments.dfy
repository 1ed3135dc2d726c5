/** Which characters are reasoning, read off the stream itself: what stands behind an opening
    tag and before the next closing tag. */
module ReasoningSegments {
  import opened Strings
  import opened Reasoning
  import opened ReasoningStream

  /** What stands between two delimiters: `s`, behind the message marker if `marked`. */
  datatype Part = Part(marked: bool, s: string) {
    function Shown(): string {
      if marked then MESSAGE + s else s
    }
  }

  /** The parts with opening and closing tags in turn before them; the first tag opens if
      `opening`. */
  function Written(pair: Pair, parts: seq<Part>, opening: bool): string {
    if parts == [] then ""
    else (if opening then pair.open else pair.close) + parts[0].Shown() + Written(pair, parts[1..], !opening)
  }

  /** The characters of every second part, the first one included if `first`. */
  function Alternate(parts: seq<Part>, first: bool): string {
    if parts == [] then "" else (if first then parts[0].s else "") + Alternate(parts[1..], !first)
  }

  ghost predicate Has(s: string, d: string) {
    exists i: nat :: OccursAt(s, d, i)
  }

  /** No part holds the tag that ends it, and a part said to be unmarked is. */
  ghost predicate TagFree(pair: Pair, parts: seq<Part>, opening: bool) {
    parts != [] ==>
      && !Has(parts[0].s, if opening then pair.close else pair.open)
      && (parts[0].marked || !(MESSAGE <= parts[0].s))
      && TagFree(pair, parts[1..], !opening)
  }

  /** `text` with no opening tag of the family, then the parts, reasoning first. */
  ghost predicate Segmented(f: Family, pair: Pair, text: string, parts: seq<Part>) {
    && pair in Pairs(f)
    && (forall p :: p in Pairs(f) ==> !Has(text, p.open))
    && TagFree(pair, parts, true)
  }

  predicate NoMarker(parts: seq<Part>) {
    forall k :: 0 <= k < |parts| ==> !parts[k].marked
  }

  // ---- one part ------------------------------------------------------------------------

  /** What the splitter yields of its buffer, the final flush included. */
  function Yield(p: Parser): seq<Piece> {
    var r := Drain(p, true);
    r.out + PieceOf(r.parser.inReason, r.parser.buf)
  }

  lemma SidesAppend(a: seq<Piece>, b: seq<Piece>)
    ensures ReasoningOf(a + b) == ReasoningOf(a) + ReasoningOf(b) && TextOf(a + b) == TextOf(a) + TextOf(b)
  {
    hide Flatten, OfKind;
    FlattenAppend(a, b);
    KindsOfPieces(a);
    KindsOfPieces(b);
    KindsOfPieces(a + b);
    OfKindAppend(Flatten(a), Flatten(b), true);
    OfKindAppend(Flatten(a), Flatten(b), false);
  }

  lemma SidesOfPiece(inReason: bool, s: string)
    ensures ReasoningOf(PieceOf(inReason, s)) == (if inReason then s else "")
    ensures TextOf(PieceOf(inReason, s)) == (if inReason then "" else s)
  {
    if s != "" {
      assert PieceOf(inReason, s)[1..] == [];
    }
  }

  /** A delimiter behind a text without one is the next delimiter. */
  lemma NextTag(p: Parser, pair: Pair, s: string, x: string)
    requires p.Valid() && pair in p.pairs && (p.tags.Some? ==> p.tags.value == pair)
    requires p.buf == s + (Needle(p.inReason, pair) + x) && NoneIn(s, p.Live())
    ensures Scan(p) == Some((|s|, pair))
  {
    var n := Needle(p.inReason, pair);
    OccursAtShift(s, n + x, n, 0);
    forall k, j: nat | 0 <= k < |p.Live()| && j < |s|
      ensures !OccursAt(p.buf, p.Live()[k], j)
    {
      var d := p.Live()[k];
      assert !OccursAt(s, d, j);
      if OccursAt(p.buf, d, j) {
        TagsDoNotOverlap(p.buf, d, j, n, |s|);
        OccursAtAppend(s, n + x, d, j);
        assert false;
      }
    }
    NextIsScan(p, |s|, pair);
  }

  lemma YieldFound(p: Parser, pair: Pair, s: string, x: string)
    requires Scan(p) == Some((|s|, pair)) && p.buf == s + (Needle(p.inReason, pair) + x)
    ensures After(p, |s|, pair, true) == Parser(p.pairs, !p.inReason, StripMessage(x), Some(pair))
    ensures After(p, |s|, pair, false) == Parser(p.pairs, !p.inReason, x, Some(pair))
    ensures var rest := Yield(After(p, |s|, pair, true));
            && ReasoningOf(Yield(p)) == (if p.inReason then s else "") + ReasoningOf(rest)
            && TextOf(Yield(p)) == (if p.inReason then "" else s) + TextOf(rest)
  {
    hide Scan, Drain, ReasoningOf, TextOf, StripMessage;
    var next := After(p, |s|, pair, true);
    DrainFound(p, true, |s|, pair);
    var r := Drain(next, true);
    var flush := PieceOf(r.parser.inReason, r.parser.buf);
    assert p.buf[..|s|] == s && p.buf[|s| + |Needle(p.inReason, pair)|..] == x;
    assert Yield(p) == PieceOf(p.inReason, s) + Yield(next);
    SidesAppend(PieceOf(p.inReason, s), Yield(next));
    SidesOfPiece(p.inReason, s);
  }

  lemma YieldNone(p: Parser)
    requires Scan(p).None?
    ensures ReasoningOf(Yield(p)) == (if p.inReason then p.buf else "")
    ensures TextOf(Yield(p)) == (if p.inReason then "" else p.buf)
  {
    hide Scan, ReasoningOf, TextOf, KeepLen;
    var cut := |p.buf| - KeepLen(p.buf, p.Live());
    SidesAppend(PieceOf(p.inReason, p.buf[..cut]), PieceOf(p.inReason, p.buf[cut..]));
    SidesOfPiece(p.inReason, p.buf[..cut]);
    SidesOfPiece(p.inReason, p.buf[cut..]);
  }

  /** A tag behind a text never completes the marker. */
  lemma NoMarkerAcross(s: string, d: string, x: string)
    requires IsTag(d) && !(MESSAGE <= s)
    ensures !(MESSAGE <= s + (d + x))
  {
    var w := s + (d + x);
    if |MESSAGE| <= |s| {
      assert w[..|MESSAGE|] == s[..|MESSAGE|];
    } else if s != "" {
      PrefixAt(MESSAGE, w, |s|);
    } else {
      PrefixAt(MESSAGE, w, 1);
      PrefixAt(MESSAGE, w, 2);
    }
  }

  lemma PrefixAt(s: string, w: string, k: nat)
    requires k < |s| && k < |w|
    ensures s <= w ==> s[k] == w[k]
  {
  }

  lemma WrittenNone(pair: Pair, opening: bool)
    ensures Written(pair, [], opening) == ""
  {
  }

  lemma WrittenFirst(pair: Pair, parts: seq<Part>, opening: bool)
    requires parts != []
    ensures Written(pair, parts, opening)
         == Needle(!opening, pair) + (parts[0].Shown() + Written(pair, parts[1..], !opening))
  {
    hide Part.Shown;
    var (d, x, y) := (Needle(!opening, pair), parts[0].Shown(), Written(pair, parts[1..], !opening));
    assert d + x + y == d + (x + y);
  }

  /** Behind a delimiter: the marker is there exactly if the part is marked, and removing it
      leaves the part. */
  lemma Behind(part: Part, pair: Pair, rest: seq<Part>, opening: bool)
    requires part.marked || !(MESSAGE <= part.s)
    ensures var x := part.Shown() + Written(pair, rest, opening);
            && (MESSAGE <= x <==> part.marked)
            && StripMessage(x) == part.s + Written(pair, rest, opening)
  {
    var y := Written(pair, rest, opening);
    if part.marked {
      assert part.Shown() + y == MESSAGE + (part.s + y);
    } else if rest == [] {
      assert part.s + y == part.s;
    } else {
      WrittenFirst(pair, rest, opening);
      NoMarkerAcross(part.s, Needle(!opening, pair), rest[0].Shown() + Written(pair, rest[1..], !opening));
    }
  }

  lemma NoneOfOne(s: string, d: string)
    requires !Has(s, d)
    ensures NoneIn(s, [d])
  {
  }

  // ---- all parts ------------------------------------------------------------------------

  /** A buffer with `s` and then parts: `s` and every second part come out on the side the
      splitter is on, the other parts on the other side. */
  lemma {:induction false} YieldParts(p: Parser, pair: Pair, s: string, parts: seq<Part>)
    requires p.Valid() && pair in p.pairs && (p.tags.Some? ==> p.tags.value == pair)
    requires p.buf == s + Written(pair, parts, !p.inReason) && NoneIn(s, p.Live())
    requires TagFree(pair, parts, !p.inReason)
    ensures ReasoningOf(Yield(p)) == (if p.inReason then s else "") + Alternate(parts, !p.inReason)
    ensures TextOf(Yield(p)) == (if p.inReason then "" else s) + Alternate(parts, p.inReason)
    decreases |parts|
  {
    hide Scan, Yield, ReasoningOf, TextOf, NoneIn, StripMessage, Part.Shown;
    if parts == [] {
      WrittenNone(pair, !p.inReason);
      assert p.buf == s;
      NoTag(p);
      YieldNone(p);
    } else {
      var rest := Written(pair, parts[1..], p.inReason);
      WrittenFirst(pair, parts, !p.inReason);
      NextTag(p, pair, s, parts[0].Shown() + rest);
      YieldFound(p, pair, s, parts[0].Shown() + rest);
      Behind(parts[0], pair, parts[1..], p.inReason);
      var next := Parser(p.pairs, !p.inReason, parts[0].s + rest, Some(pair));
      NoneOfOne(parts[0].s, Needle(next.inReason, pair));
      YieldParts(next, pair, parts[0].s, parts[1..]);
    }
  }

  lemma NoTag(p: Parser)
    requires p.Valid() && NoneIn(p.buf, p.Live())
    ensures Scan(p).None?
  {
    ScanIsNext(p);
    if Scan(p).Some? {
      var k := LiveHas(p, Scan(p).value.1);
      assert false;
    }
  }

  lemma {:induction false} FreeExactly(p: Parser, pair: Pair, s: string, parts: seq<Part>)
    requires p.Valid() && pair in p.pairs && (p.tags.Some? ==> p.tags.value == pair)
    requires p.buf == s + Written(pair, parts, !p.inReason) && NoneIn(s, p.Live())
    requires TagFree(pair, parts, !p.inReason)
    ensures StripFree(p) <==> NoMarker(parts)
    decreases |parts|
  {
    hide Scan, NoneIn, StripMessage, Part.Shown, Yield, ReasoningOf, TextOf;
    if parts == [] {
      WrittenNone(pair, !p.inReason);
      assert p.buf == s;
      NoTag(p);
    } else {
      var rest := Written(pair, parts[1..], p.inReason);
      WrittenFirst(pair, parts, !p.inReason);
      NextTag(p, pair, s, parts[0].Shown() + rest);
      YieldFound(p, pair, s, parts[0].Shown() + rest);
      Behind(parts[0], pair, parts[1..], p.inReason);
      if !parts[0].marked {
        var next := After(p, |s|, pair, false);
        UnmarkedShown(parts[0]);
        NoneOfOne(parts[0].s, Needle(next.inReason, pair));
        FreeExactly(next, pair, parts[0].s, parts[1..]);
        assert parts == [parts[0]] + parts[1..];
      }
    }
  }

  lemma UnmarkedShown(part: Part)
    requires !part.marked
    ensures part.Shown() == part.s
  {
  }

  // ---- the whole stream -------------------------------------------------------------------

  lemma StartParts(f: Family, pair: Pair, text: string, parts: seq<Part>)
    requires Segmented(f, pair, text, parts)
    ensures var p := Fresh(f).Plus(text + Written(pair, parts, true));
            p.Valid() && p.buf == text + Written(pair, parts, true) && NoneIn(text, p.Live())
  {
    FamiliesAreGood(f);
    hide Pairs, Written;
    var p := Fresh(f).Plus(text + Written(pair, parts, true));
    forall k, j: nat | 0 <= k < |p.Live()|
      ensures !OccursAt(text, p.Live()[k], j)
    {
      assert p.Live()[k] == Pairs(f)[k].open && Pairs(f)[k] in Pairs(f);
    }
  }

  /** Pushed whole, a stream yields the parts behind opening tags as reasoning and the rest as
      text, without the tags and without a marker directly behind a tag. */
  lemma PushedWhole(f: Family, pair: Pair, text: string, parts: seq<Part>)
    requires Segmented(f, pair, text, parts)
    ensures ParseStream(f, [text + Written(pair, parts, true)])
         == (Alternate(parts, true), text + Alternate(parts, false))
  {
    hide Pairs, Written, Alternate, TagFree, Drain, ReasoningOf, TextOf, Scan;
    var s := text + Written(pair, parts, true);
    var p := Fresh(f);
    StartParts(f, pair, text, parts);
    YieldParts(p.Plus(s), pair, text, parts);
    RunOne(p, s);
    if s == "" {
      assert p.Plus(s) == p;
      ScanEmpty(p);
      EmptyDrain(p);
    }
    assert "" + Alternate(parts, true) == Alternate(parts, true);
    assert Output(f, [s]) == Yield(p.Plus(s));
  }

  lemma EmptyDrain(p: Parser)
    requires p.buf == "" && Scan(p).None?
    ensures Drain(p, true) == Drained(p, [])
  {
  }

  /** With no marker behind a tag, that is the split of every way of cutting the stream; with a
      marker, the cuts matter. */
  lemma SplitByTags(f: Family, pair: Pair, text: string, parts: seq<Part>)
    requires Segmented(f, pair, text, parts)
    ensures var s := text + Written(pair, parts, true);
      && (CutsDoNotMatter(f, s) <==> NoMarker(parts))
      && (NoMarker(parts) ==> forall chunks: seq<string> ::
            Concat(chunks) == s ==> ParseStream(f, chunks) == (Alternate(parts, true), text + Alternate(parts, false)))
  {
    hide Pairs, Written, Alternate, TagFree, ParseStream, StripFree, Fresh, NoneIn, Segmented, Concat;
    var s := text + Written(pair, parts, true);
    var p := Fresh(f).Plus(s);
    StartParts(f, pair, text, parts);
    StartPair(f, pair, text, parts, s);
    FreeExactly(p, pair, text, parts);
    CutsMatterExactly(f, s);
    PushedWhole(f, pair, text, parts);
    RunOne(Fresh(f), s);
  }

  lemma StartPair(f: Family, pair: Pair, text: string, parts: seq<Part>, s: string)
    requires Segmented(f, pair, text, parts)
    ensures var p := Fresh(f).Plus(s);
            pair in p.pairs && p.tags.None? && !p.inReason && TagFree(pair, parts, true)
  {
    hide Pairs, TagFree;
  }

  /** Text before the first occurrence of `d` has none. */
  lemma NoneInFront(s: string, d: string, i: nat)
    requires i <= |s| && forall j: nat :: j < i ==> !OccursAt(s, d, j)
    requires d != ""
    ensures !Has(s[..i], d)
  {
    forall j: nat
      ensures !OccursAt(s[..i], d, j)
    {
      if j + |d| <= i {
        assert s == s[..i] + s[i..];
        OccursAtAppend(s[..i], s[i..], d, j);
      }
    }
  }

  lemma CutAt(s: string, d: string, i: nat)
    requires OccursAt(s, d, i)
    ensures s == s[..i] + (d + s[i + |d|..])
  {
  }

  lemma FirstPart(pair: Pair, part: Part, rest: seq<Part>, opening: bool, y: string)
    requires y == Written(pair, rest, !opening) && TagFree(pair, rest, !opening)
    requires !Has(part.s, Needle(opening, pair)) && (part.marked || !(MESSAGE <= part.s))
    ensures TagFree(pair, [part] + rest, opening)
    ensures Needle(!opening, pair) + (part.Shown() + y) == Written(pair, [part] + rest, opening)
  {
    hide Part.Shown, Has;
    assert ([part] + rest)[1..] == rest;
    WrittenFirst(pair, [part] + rest, opening);
  }

  lemma {:induction false} IntoParts(pair: Pair, x: string, opening: bool) returns (parts: seq<Part>)
    ensures TagFree(pair, parts, opening) && Needle(!opening, pair) + x == Written(pair, parts, opening)
    decreases |x|
  {
    hide Find, Written, TagFree, Has, OccursAt, Part.Shown;
    var marked := MESSAGE <= x;
    var s := if marked then x[|MESSAGE|..] else x;
    var d := Needle(opening, pair);
    FindIsFirst(s, d);
    var i := if Find(s, d).Some? then Find(s, d).value else |s|;
    NoneInFront(s, d, i);
    var part := Part(marked, s[..i]);
    var rest, y := [], "";
    if Find(s, d).Some? {
      rest := IntoParts(pair, s[i + |d|..], !opening);
      CutAt(s, d, i);
      y := d + s[i + |d|..];
    } else {
      NoParts(pair, !opening);
    }
    FirstPart(pair, part, rest, opening, y);
    ShownBefore(part, s, y, x);
    parts := [part] + rest;
  }

  lemma ShownBefore(part: Part, s: string, y: string, x: string)
    requires s == part.s + y && x == if part.marked then MESSAGE + s else s
    ensures x == part.Shown() + y
  {
  }

  lemma NoParts(pair: Pair, opening: bool)
    ensures TagFree(pair, [], opening) && Written(pair, [], opening) == ""
  {
  }

  lemma NoOpens(f: Family, s: string, i: nat)
    requires i <= |s| && NoneBefore(s, Opens(Pairs(f)), i)
    ensures forall p :: p in Pairs(f) ==> !Has(s[..i], p.open)
  {
    hide Pairs, Has;
    forall p | p in Pairs(f)
      ensures !Has(s[..i], p.open)
    {
      var k :| 0 <= k < |Pairs(f)| && Pairs(f)[k] == p;
      assert Opens(Pairs(f))[k] == p.open;
      NoneInFront(s, p.open, i);
    }
  }

  /** Every stream has such a form. */
  lemma EveryStream(f: Family, s: string) returns (pair: Pair, text: string, parts: seq<Part>)
    ensures Segmented(f, pair, text, parts) && s == text + Written(pair, parts, true)
  {
    hide FindOpen, TagFree, Written, Opens, Has;
    FindOpenIsFirst(s, Pairs(f));
    if FindOpen(s, Pairs(f)).None? {
      pair, text, parts := Pairs(f)[0], s, [];
      NoParts(pair, true);
      NoOpens(f, s, |s|);
      assert s[..|s|] == s;
    } else {
      var i: nat := FindOpen(s, Pairs(f)).value.0;
      pair := FindOpen(s, Pairs(f)).value.1;
      text := s[..i];
      parts := IntoParts(pair, s[i + |pair.open|..], true);
      CutAt(s, pair.open, i);
      NoOpens(f, s, i);
    }
  }
}
