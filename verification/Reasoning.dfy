/** The streaming splitter of model text into reasoning and answer. */
module Reasoning {
  import opened Strings

  datatype Family = Auto | XmlThink | Harmony | Gemma

  /** What the proofs use about a delimiter: its only `<` is the first character,
      and it does not begin like the message marker. */
  predicate IsTag(d: string) {
    && 3 <= |d| && d[0] == '<'
    && (forall k :: 0 < k < |d| ==> d[k] != '<')
    && !(d[1] == '|' && d[2] == 'm')
  }

  type Tag = d: string | IsTag(d) witness "<x>"

  /** An opening tag and its closing tag. */
  datatype Pair = Pair(open: Tag, close: Tag)

  function Pairs(f: Family): seq<Pair> {
    match f
    case Auto => [
      Pair("<think>", "</think>"),
      Pair("<|channel|>analysis", "<|channel|>final"),
      Pair("<start_of_thought>", "<end_of_thought>"),
      Pair("<|channel|>thought", "<|channel|>response")]
    case XmlThink => [Pair("<think>", "</think>")]
    case Harmony => [Pair("<|channel|>analysis", "<|channel|>final")]
    case Gemma => [
      Pair("<start_of_thought>", "<end_of_thought>"),
      Pair("<|channel|>thought", "<|channel|>response")]
  }

  const MESSAGE := "<|message|>"

  datatype Piece = ReasoningPiece(s: string) | TextPiece(s: string)

  /** The parser's fields. `pairs` is the tag table of its family; the tags in use,
      open and close, are always set together. */
  datatype Parser = Parser(pairs: seq<Pair>, inReason: bool, buf: string, tags: Option<Pair>) {
    ghost predicate Valid() {
      && GoodTable(pairs)
      && (tags.Some? ==> tags.value in pairs)
      && (inReason ==> tags.Some?)
    }

    /** The delimiters that may come next. */
    function Live(): seq<string> {
      if tags.Some? then [Needle(inReason, tags.value)] else Opens(pairs)
    }

    function Plus(b: string): Parser {
      this.(buf := buf + b)
    }

    /** Held text is a strict prefix of a delimiter that may come next. */
    ghost predicate Holding() {
      buf == "" || exists d :: d in Live() && |buf| < |d| && buf == d[..|buf|]
    }
  }

  function Fresh(f: Family): Parser {
    Parser(Pairs(f), false, "", None)
  }

  function Needle(inReason: bool, pair: Pair): Tag {
    if inReason then pair.close else pair.open
  }

  function Opens(pairs: seq<Pair>): seq<string> {
    seq(|pairs|, k requires 0 <= k < |pairs| => pairs[k].open)
  }

  /** No opening tag begins another one. */
  ghost predicate GoodTable(pairs: seq<Pair>) {
    forall j, k {:trigger OccursAt(pairs[k].open, pairs[j].open, 0)} ::
      0 <= j < |pairs| && 0 <= k < |pairs| && OccursAt(pairs[k].open, pairs[j].open, 0) ==> j == k
  }

  lemma FamiliesAreGood(f: Family)
    ensures GoodTable(Pairs(f))
  {
    var pairs := Pairs(f);
    forall j, k | 0 <= j < |pairs| && 0 <= k < |pairs| && OccursAt(pairs[k].open, pairs[j].open, 0)
      ensures j == k
    {
      OpensPrefixFree(f, j, k);
    }
  }

  lemma OpensPrefixFree(f: Family, j: nat, k: nat)
    requires j < |Pairs(f)| && k < |Pairs(f)| && OccursAt(Pairs(f)[k].open, Pairs(f)[j].open, 0)
    ensures j == k
  {
    var (a, b) := (Pairs(f)[j].open, Pairs(f)[k].open);
    assert a[1] == b[0..|a|][1] == b[1];
    if f.Auto? {
      assert Pairs(f)[1].open[11] == 'a' && Pairs(f)[3].open[11] == 't';
      assert |a| > 11 ==> a[11] == b[0..|a|][11] == b[11];
    }
  }

  // ---- finding the next delimiter --------------------------------------------

  /** No needle stands in `s` before offset `i`. */
  ghost predicate NoneBefore(s: string, needles: seq<string>, i: nat) {
    forall k, j: nat :: 0 <= k < |needles| && j < i ==> !OccursAt(s, needles[k], j)
  }

  ghost predicate NoneIn(s: string, needles: seq<string>) {
    forall k, j: nat :: 0 <= k < |needles| ==> !OccursAt(s, needles[k], j)
  }

  function FindOpen(buf: string, pairs: seq<Pair>): (best: Option<(nat, Pair)>)
    ensures best.Some? ==> best.value.0 + |best.value.1.open| <= |buf|
  {
    if pairs == [] then None
    else
      var n := |pairs| - 1;
      NextOpen(buf, pairs[n], FindOpen(buf, pairs[..n]))
  }

  /** One pass of `find_open`. */
  function NextOpen(buf: string, pair: Pair, best: Option<(nat, Pair)>): Option<(nat, Pair)> {
    var f := Find(buf, pair.open);
    if f.Some? && (best.None? || f.value < best.value.0) then Some((f.value, pair)) else best
  }

  lemma {:induction false} FindOpenIsFirst(buf: string, pairs: seq<Pair>)
    ensures match FindOpen(buf, pairs)
            case None => NoneIn(buf, Opens(pairs))
            case Some((i, pair)) => pair in pairs && OccursAt(buf, pair.open, i) && NoneBefore(buf, Opens(pairs), i)
  {
    if pairs != [] {
      var n := |pairs| - 1;
      FindIsFirst(buf, pairs[n].open);
      FindOpenIsFirst(buf, pairs[..n]);
      hide Find, OccursAt;
      assert Opens(pairs) == Opens(pairs[..n]) + [pairs[n].open];
    }
  }

  /** Offset and tag pair of the next delimiter in the buffer. */
  function Scan(p: Parser): (r: Option<(nat, Pair)>)
    ensures r.Some? ==> r.value.0 + |Needle(p.inReason, r.value.1)| <= |p.buf|
  {
    match p.tags
    case Some(pair) =>
      (match Find(p.buf, Needle(p.inReason, pair))
       case Some(i) => Some((i, pair))
       case None => None)
    case None => if p.inReason then None else FindOpen(p.buf, p.pairs)
  }

  ghost predicate IsNext(p: Parser, i: nat, pair: Pair) {
    && pair in p.pairs
    && (p.tags.Some? ==> pair == p.tags.value)
    && OccursAt(p.buf, Needle(p.inReason, pair), i)
    && NoneBefore(p.buf, p.Live(), i)
  }

  lemma ScanIsNext(p: Parser)
    requires p.Valid()
    ensures match Scan(p)
            case None => NoneIn(p.buf, p.Live())
            case Some((i, pair)) => IsNext(p, i, pair)
  {
    if p.tags.None? {
      FindOpenIsFirst(p.buf, p.pairs);
    } else {
      FindIsFirst(p.buf, Needle(p.inReason, p.tags.value));
    }
  }

  lemma LiveHas(p: Parser, pair: Pair) returns (k: nat)
    requires p.Valid() && pair in p.pairs && (p.tags.Some? ==> pair == p.tags.value)
    ensures k < |p.Live()| && p.Live()[k] == Needle(p.inReason, pair)
  {
    if p.tags.Some? {
      k := 0;
    } else {
      k :| 0 <= k < |p.pairs| && p.pairs[k] == pair;
    }
  }

  lemma NextIsScan(p: Parser, i: nat, pair: Pair)
    requires p.Valid() && IsNext(p, i, pair)
    ensures Scan(p) == Some((i, pair))
  {
    ScanIsNext(p);
    var k := LiveHas(p, pair);
    var (i', pair') := Scan(p).value;
    var k' := LiveHas(p, pair');
    assert i == i';
    if p.tags.None? {
      SamePlace(p, i, pair, pair');
    }
  }

  lemma SamePlace(p: Parser, i: nat, a: Pair, b: Pair)
    requires GoodTable(p.pairs) && a in p.pairs && b in p.pairs
    requires OccursAt(p.buf, a.open, i) && OccursAt(p.buf, b.open, i)
    ensures a == b
  {
    if |a.open| <= |b.open| {
      assert a.open == p.buf[i..i + |b.open|][..|a.open|];
      assert OccursAt(b.open, a.open, 0);
    } else {
      assert b.open == p.buf[i..i + |a.open|][..|b.open|];
      assert OccursAt(a.open, b.open, 0);
    }
  }

  /** Delimiters never overlap: the later one would put a `<` inside the earlier one. */
  lemma TagsDoNotOverlap(s: string, d: string, j: nat, n: string, i: nat)
    requires IsTag(d) && IsTag(n) && j < i && OccursAt(s, d, j) && OccursAt(s, n, i)
    ensures j + |d| <= i
  {
    assert s[i] == n[0];
    assert forall k :: 0 <= k < |d| ==> s[j + k] == d[k];
  }

  /** A delimiter that was found stays the next one whatever is appended. */
  lemma ScanAppend(p: Parser, b: string)
    requires p.Valid() && Scan(p).Some?
    ensures Scan(p.Plus(b)) == Scan(p)
  {
    var (i, pair) := Scan(p).value;
    var n := Needle(p.inReason, pair);
    ScanIsNext(p);
    OccursAtAppend(p.buf, b, n, i);
    forall k, j: nat | 0 <= k < |p.Live()| && j < i
      ensures !OccursAt(p.buf + b, p.Live()[k], j)
    {
      var d := p.Live()[k];
      assert !OccursAt(p.buf, d, j);
      if OccursAt(p.buf + b, d, j) {
        TagsDoNotOverlap(p.buf + b, d, j, n, i);
        OccursAtAppend(p.buf, b, d, j);
        assert false;
      }
    }
    assert p.Plus(b).Live() == p.Live();
    NextIsScan(p.Plus(b), i, pair);
  }

  // ---- what may be held -------------------------------------------------------

  predicate AnyStartsWithTail(buf: string, needles: seq<string>, n: nat) {
    exists k :: 0 <= k < |needles| && TailIsPrefix(buf, needles[k], n)
  }

  function LongestTail(buf: string, needles: seq<string>, n: nat): (m: nat)
    requires n <= |buf|
    ensures m <= n && (m > 0 ==> AnyStartsWithTail(buf, needles, m))
    ensures forall j: nat :: m < j <= n ==> !AnyStartsWithTail(buf, needles, j)
  {
    if n == 0 then 0 else if AnyStartsWithTail(buf, needles, n) then n else LongestTail(buf, needles, n - 1)
  }

  /** The number of characters `emit_safe` keeps. */
  function KeepLen(buf: string, needles: seq<string>): (keep: nat)
    ensures keep <= |buf|
  {
    var n := LongestTail(buf, needles, |buf|);
    if n > 0 && exists k :: 0 <= k < |needles| && |needles[k]| > n && TailIsPrefix(buf, needles[k], n) then n else 0
  }

  /** `keep` is the longest tail that is a strict prefix of a needle. */
  ghost predicate IsKeep(buf: string, needles: seq<string>, keep: nat) {
    && keep <= |buf|
    && (keep > 0 ==> exists k :: 0 <= k < |needles| && keep < |needles[k]| && TailIsPrefix(buf, needles[k], keep))
    && forall k, n: nat :: 0 <= k < |needles| && keep < n < |needles[k]| ==> !TailIsPrefix(buf, needles[k], n)
  }

  lemma KeepUnique(buf: string, needles: seq<string>, a: nat, b: nat)
    requires IsKeep(buf, needles, a) && IsKeep(buf, needles, b)
    ensures a == b
  {
  }

  lemma KeepLenIsKeep(buf: string, needles: seq<string>)
    requires NoneIn(buf, needles)
    ensures IsKeep(buf, needles, KeepLen(buf, needles))
  {
    forall k, n: nat | 0 <= k < |needles| && TailIsPrefix(buf, needles[k], n)
      ensures n < |needles[k]|
    {
      if n == |needles[k]| {
        assert !OccursAt(buf, needles[k], |buf| - n);
        FullTailOccurs(buf, needles[k]);
        assert false;
      }
    }
    forall k, m: nat | 0 <= k < |needles| && KeepLen(buf, needles) < m < |needles[k]|
      ensures !TailIsPrefix(buf, needles[k], m)
    {
      if TailIsPrefix(buf, needles[k], m) {
        assert AnyStartsWithTail(buf, needles, m);
      }
    }
  }

  // ---- draining the buffer ----------------------------------------------------

  function PieceOf(inReason: bool, s: string): seq<Piece> {
    if s == "" then [] else [if inReason then ReasoningPiece(s) else TextPiece(s)]
  }

  function StripMessage(s: string): string {
    if MESSAGE <= s then s[|MESSAGE|..] else s
  }

  datatype Drained = Drained(parser: Parser, out: seq<Piece>)

  /** The state after a delimiter has been consumed. */
  function After(p: Parser, i: nat, pair: Pair, strip: bool): (q: Parser)
    requires i + |Needle(p.inReason, pair)| <= |p.buf|
    ensures |q.buf| < |p.buf|
  {
    var rest := p.buf[i + |Needle(p.inReason, pair)|..];
    Parser(p.pairs, !p.inReason, if strip then StripMessage(rest) else rest, Some(pair))
  }

  /** The loop of `push`. With `strip` false the message marker gets no special treatment. */
  function Drain(p: Parser, strip: bool): Drained
    decreases |p.buf|
  {
    match Scan(p)
    case None =>
      var cut := |p.buf| - KeepLen(p.buf, p.Live());
      Drained(p.(buf := p.buf[cut..]), PieceOf(p.inReason, p.buf[..cut]))
    case Some((i, pair)) =>
      var rest := Drain(After(p, i, pair, strip), strip);
      Drained(rest.parser, PieceOf(p.inReason, p.buf[..i]) + rest.out)
  }

  lemma AfterValid(p: Parser, strip: bool)
    requires p.Valid() && Scan(p).Some?
    ensures After(p, Scan(p).value.0, Scan(p).value.1, strip).Valid()
  {
    ScanIsNext(p);
  }

  /** Draining leaves nothing to find and holds only the beginning of a live delimiter;
      no empty piece comes out. */
  lemma {:induction false} DrainHolds(p: Parser, strip: bool)
    requires p.Valid()
    ensures var r := Drain(p, strip);
            && r.parser.Valid() && r.parser.pairs == p.pairs
            && Scan(r.parser).None? && r.parser.Holding()
            && forall x :: x in r.out ==> x.s != ""
    decreases |p.buf|
  {
    match Scan(p)
    case None => HeldIsDrained(p);
    case Some((i, pair)) =>
      AfterValid(p, strip);
      DrainHolds(After(p, i, pair, strip), strip);
  }

  lemma HeldIsDrained(p: Parser)
    requires p.Valid() && Scan(p).None?
    ensures var q := p.(buf := p.buf[|p.buf| - KeepLen(p.buf, p.Live())..]);
            Scan(q).None? && q.Holding()
  {
    var keep := KeepLen(p.buf, p.Live());
    var q := p.(buf := p.buf[|p.buf| - keep..]);
    ScanIsNext(p);
    KeepLenIsKeep(p.buf, p.Live());
    assert p.buf == p.buf[..|p.buf| - keep] + q.buf;
    assert q.Live() == p.Live();
    if Scan(q).Some? {
      ScanIsNext(q);
      var (i, pair) := Scan(q).value;
      var k := LiveHas(q, pair);
      assert !OccursAt(p.buf, p.Live()[k], |p.buf| - keep + i);
      OccursAtShift(p.buf[..|p.buf| - keep], q.buf, q.Live()[k], i);
      assert false;
    }
    if keep > 0 {
      var k :| 0 <= k < |p.Live()| && keep < |p.Live()[k]| && TailIsPrefix(p.buf, p.Live()[k], keep);
      assert q.buf == p.Live()[k][..|q.buf|];
    }
  }

  // ---- the output as tagged characters ------------------------------------------

  /** A character of the output and whether it is reasoning. */
  type Tagged = (bool, char)

  function Mark(inReason: bool, s: string): seq<Tagged> {
    seq(|s|, k requires 0 <= k < |s| => (inReason, s[k]))
  }

  function Flatten(out: seq<Piece>): seq<Tagged> {
    if out == [] then []
    else Mark(out[0].ReasoningPiece?, out[0].s) + Flatten(out[1..])
  }

  lemma {:induction false} FlattenAppend(a: seq<Piece>, b: seq<Piece>)
    ensures Flatten(a + b) == Flatten(a) + Flatten(b)
  {
    if a == [] {
      assert a + b == b;
    } else {
      hide Mark;
      FlattenAppend(a[1..], b);
      assert (a + b)[1..] == a[1..] + b && (a + b)[0] == a[0];
    }
  }

  lemma FlattenPiece(inReason: bool, s: string)
    ensures Flatten(PieceOf(inReason, s)) == Mark(inReason, s)
  {
    if s != "" {
      assert PieceOf(inReason, s)[1..] == [];
    }
  }

  lemma FlattenFirst(inReason: bool, s: string, rest: seq<Piece>)
    ensures Flatten(PieceOf(inReason, s) + rest) == Mark(inReason, s) + Flatten(rest)
  {
    FlattenAppend(PieceOf(inReason, s), rest);
    FlattenPiece(inReason, s);
  }

  // ---- cutting the stream anywhere makes no difference -----------------------------

  /** `w` is `q` with `e` put in front, and no delimiter starts in `e`. */
  ghost predicate Fronted(w: Parser, e: string, q: Parser) {
    w == q.(buf := e + q.buf) && NoneBefore(w.buf, w.Live(), |e|)
  }

  lemma FrontedFound(w: Parser, e: string, q: Parser, i: nat, pair: Pair)
    requires w.Valid() && q.Valid() && Fronted(w, e, q) && Scan(q) == Some((i, pair))
    ensures Scan(w) == Some((|e| + i, pair))
  {
    ScanIsNext(q);
    assert q.Live() == w.Live();
    OccursAtShift(e, q.buf, Needle(q.inReason, pair), i);
    NoneBeforeShift(e, q.buf, q.Live(), i);
    NextIsScan(w, |e| + i, pair);
  }

  lemma NoneBeforeShift(e: string, s: string, needles: seq<string>, i: nat)
    requires NoneBefore(e + s, needles, |e|) && NoneBefore(s, needles, i)
    ensures NoneBefore(e + s, needles, |e| + i)
  {
    forall k, j: nat | 0 <= k < |needles| && j < |e| + i
      ensures !OccursAt(e + s, needles[k], j)
    {
      if |e| <= j {
        OccursAtShift(e, s, needles[k], j - |e|);
      }
    }
  }

  lemma FrontedNone(w: Parser, e: string, q: Parser)
    requires w.Valid() && q.Valid() && Fronted(w, e, q) && Scan(q).None?
    ensures Scan(w).None?
  {
    ScanIsNext(q);
    ScanIsNext(w);
    forall k, j: nat | 0 <= k < |w.Live()|
      ensures !OccursAt(w.buf, w.Live()[k], j)
    {
      if |e| <= j {
        OccursAtShift(e, q.buf, w.Live()[k], j - |e|);
      }
    }
    if Scan(w).Some? {
      var k := LiveHas(w, Scan(w).value.1);
      assert false;
    }
  }

  /** With nothing found in the buffer, no delimiter starts before the held tail. */
  lemma HeldFronts(p: Parser, b: string)
    requires p.Valid() && Scan(p).None?
    ensures var cut := |p.buf| - KeepLen(p.buf, p.Live());
            Fronted(p.Plus(b), p.buf[..cut], p.(buf := p.buf[cut..]).Plus(b))
  {
    var cut := |p.buf| - KeepLen(p.buf, p.Live());
    ScanIsNext(p);
    KeepLenIsKeep(p.buf, p.Live());
    assert p.buf + b == p.buf[..cut] + (p.buf[cut..] + b);
    assert p.Plus(b).Live() == p.Live();
    forall k, j: nat | 0 <= k < |p.Live()| && j < cut
      ensures !OccursAt(p.buf + b, p.Live()[k], j)
    {
      var d := p.Live()[k];
      assert !OccursAt(p.buf, d, j);
      if OccursAt(p.buf + b, d, j) {
        if j + |d| <= |p.buf| {
          OccursAtAppend(p.buf, b, d, j);
          assert false;
        } else {
          assert !TailIsPrefix(p.buf, d, |p.buf| - j);
          StraddlingLeavesPrefix(p.buf, b, d, j);
          assert false;
        }
      }
    }
  }

  lemma KeepHeld(buf: string, h: string, b: string, needles: seq<string>)
    requires |h| <= |buf| && h == buf[|buf| - |h|..] && IsKeep(buf, needles, |h|)
    requires NoneIn(h + b, needles) && NoneIn(buf + b, needles)
    ensures KeepLen(buf + b, needles) == KeepLen(h + b, needles)
  {
    KeepLenIsKeep(h + b, needles);
    KeepLenIsKeep(buf + b, needles);
    var keep := KeepLen(h + b, needles);
    var e := buf[..|buf| - |h|];
    assert buf + b == e + (h + b);
    if keep > 0 {
      var k :| 0 <= k < |needles| && keep < |needles[k]| && TailIsPrefix(h + b, needles[k], keep);
      TailPrefixLocal(e, h + b, needles[k], keep);
    }
    forall k, n: nat | 0 <= k < |needles| && keep < n < |needles[k]|
      ensures !TailIsPrefix(buf + b, needles[k], n)
    {
      var d := needles[k];
      if TailIsPrefix(buf + b, d, n) {
        assert !TailIsPrefix(h + b, d, n);
        if n <= |h + b| {
          TailPrefixLocal(e, h + b, d, n);
          assert false;
        } else {
          assert !TailIsPrefix(buf, d, n - |b|);
          TailPrefixBack(buf, b, d, n);
          assert false;
        }
      }
    }
    KeepUnique(buf + b, needles, KeepLen(buf + b, needles), keep);
  }

  lemma KeepFronted(p: Parser, b: string)
    requires p.Valid() && Scan(p).None?
    requires Scan(p.(buf := p.buf[|p.buf| - KeepLen(p.buf, p.Live())..]).Plus(b)).None? && Scan(p.Plus(b)).None?
    ensures KeepLen(p.buf[|p.buf| - KeepLen(p.buf, p.Live())..] + b, p.Live()) == KeepLen(p.buf + b, p.Live())
  {
    var h := p.buf[|p.buf| - KeepLen(p.buf, p.Live())..];
    ScanIsNext(p);
    ScanIsNext(p.Plus(b));
    ScanIsNext(p.(buf := h).Plus(b));
    assert p.(buf := h).Plus(b).Live() == p.Live() == p.Plus(b).Live();
    KeepLenIsKeep(p.buf, p.Live());
    KeepHeld(p.buf, h, b, p.Live());
  }

  /** Text put in front that starts no delimiter comes out in front: of the piece `x`
      that is first anyway. */
  lemma DrainFronted(w: Parser, e: string, q: Parser) returns (x: string, rest: seq<Piece>)
    requires w.Valid() && q.Valid() && Fronted(w, e, q)
    requires Scan(q).None? ==> KeepLen(w.buf, w.Live()) == KeepLen(q.buf, q.Live())
    ensures Drain(w, false).parser == Drain(q, false).parser
    ensures Drain(w, false).out == PieceOf(q.inReason, e + x) + rest
    ensures Drain(q, false).out == PieceOf(q.inReason, x) + rest
  {
    if Scan(q).Some? {
      var (i, pair) := Scan(q).value;
      FrontedFound(w, e, q, i, pair);
      x, rest := FrontedRest(w, e, q, i, pair);
    } else {
      FrontedNone(w, e, q);
      x, rest := FrontedHold(w, e, q);
    }
  }

  lemma FrontedRest(w: Parser, e: string, q: Parser, i: nat, pair: Pair) returns (x: string, rest: seq<Piece>)
    requires w == q.(buf := e + q.buf) && Scan(q) == Some((i, pair)) && Scan(w) == Some((|e| + i, pair))
    ensures Drain(w, false).parser == Drain(q, false).parser
    ensures Drain(w, false).out == PieceOf(q.inReason, e + x) + rest
    ensures Drain(q, false).out == PieceOf(q.inReason, x) + rest
  {
    hide Scan, KeepLen;
    x, rest := q.buf[..i], Drain(After(q, i, pair, false), false).out;
    FrontedAfter(w, e, q, i, pair);
    DrainFound(w, false, |e| + i, pair);
    DrainFound(q, false, i, pair);
  }

  lemma FrontedAfter(w: Parser, e: string, q: Parser, i: nat, pair: Pair)
    requires w == q.(buf := e + q.buf) && i + |Needle(q.inReason, pair)| <= |q.buf|
    ensures After(w, |e| + i, pair, false) == After(q, i, pair, false)
    ensures w.buf[..|e| + i] == e + q.buf[..i]
  {
    SliceFronted(e, q.buf, i);
    SliceFronted(e, q.buf, i + |Needle(q.inReason, pair)|);
  }

  lemma DrainFound(p: Parser, strip: bool, i: nat, pair: Pair)
    requires Scan(p) == Some((i, pair))
    ensures Drain(p, strip).parser == Drain(After(p, i, pair, strip), strip).parser
    ensures Drain(p, strip).out == PieceOf(p.inReason, p.buf[..i]) + Drain(After(p, i, pair, strip), strip).out
  {
  }

  lemma FrontedHold(w: Parser, e: string, q: Parser) returns (x: string, rest: seq<Piece>)
    requires w == q.(buf := e + q.buf) && Scan(q).None? && Scan(w).None?
    requires KeepLen(w.buf, w.Live()) == KeepLen(q.buf, q.Live())
    ensures Drain(w, false).parser == Drain(q, false).parser
    ensures Drain(w, false).out == PieceOf(q.inReason, e + x) + rest
    ensures Drain(q, false).out == PieceOf(q.inReason, x) + rest
  {
    hide Scan, KeepLen, LongestTail;
    var cut := |q.buf| - KeepLen(q.buf, q.Live());
    SliceFronted(e, q.buf, cut);
    x, rest := q.buf[..cut], [];
  }

  lemma FlattenFronted(inReason: bool, e: string, x: string, rest: seq<Piece>)
    ensures Flatten(PieceOf(inReason, e + x) + rest)
         == Flatten(PieceOf(inReason, e)) + Flatten(PieceOf(inReason, x) + rest)
  {
    FlattenFirst(inReason, e + x, rest);
    FlattenFirst(inReason, x, rest);
    FlattenPiece(inReason, e);
    assert Mark(inReason, e + x) == Mark(inReason, e) + Mark(inReason, x);
  }

  /** Draining, appending and draining again is draining the whole, for the parser
      without marker stripping: same state, and the same characters with the same tags. */
  lemma {:induction false} DrainAppend(p: Parser, b: string)
    requires p.Valid()
    ensures Drain(p.Plus(b), false).parser == Drain(Drain(p, false).parser.Plus(b), false).parser
    ensures Flatten(Drain(p.Plus(b), false).out)
         == Flatten(Drain(p, false).out) + Flatten(Drain(Drain(p, false).parser.Plus(b), false).out)
    decreases |p.buf|
  {
    hide Flatten, Scan;
    if Scan(p).Some? {
      var (i, pair) := Scan(p).value;
      ScanAppend(p, b);
      AfterValid(p, false);
      var next := After(p, i, pair, false);
      DrainAppend(next, b);
      AppendFound(p, b, i, pair);
    } else {
      DrainAppendHeld(p, b);
    }
  }

  lemma AppendFound(p: Parser, b: string, i: nat, pair: Pair)
    requires Scan(p) == Some((i, pair)) && Scan(p.Plus(b)) == Some((i, pair))
    requires var next := After(p, i, pair, false);
             && Drain(next.Plus(b), false).parser == Drain(Drain(next, false).parser.Plus(b), false).parser
             && Flatten(Drain(next.Plus(b), false).out)
             == Flatten(Drain(next, false).out) + Flatten(Drain(Drain(next, false).parser.Plus(b), false).out)
    ensures Drain(p.Plus(b), false).parser == Drain(Drain(p, false).parser.Plus(b), false).parser
    ensures Flatten(Drain(p.Plus(b), false).out)
         == Flatten(Drain(p, false).out) + Flatten(Drain(Drain(p, false).parser.Plus(b), false).out)
  {
    hide Scan, Flatten, KeepLen;
    var next := After(p, i, pair, false);
    AppendAfter(p, b, i, pair);
    FlattenFirst(p.inReason, p.buf[..i], Drain(next, false).out);
    FlattenFirst(p.inReason, p.buf[..i], Drain(next.Plus(b), false).out);
  }

  lemma AppendAfter(p: Parser, b: string, i: nat, pair: Pair)
    requires i + |Needle(p.inReason, pair)| <= |p.buf|
    ensures After(p.Plus(b), i, pair, false) == After(p, i, pair, false).Plus(b)
    ensures p.Plus(b).buf[..i] == p.buf[..i]
  {
    SliceAppended(p.buf, b, i);
    SliceAppended(p.buf, b, i + |Needle(p.inReason, pair)|);
  }

  lemma DrainAppendHeld(p: Parser, b: string)
    requires p.Valid() && Scan(p).None?
    ensures Drain(p.Plus(b), false).parser == Drain(Drain(p, false).parser.Plus(b), false).parser
    ensures Flatten(Drain(p.Plus(b), false).out)
         == Flatten(Drain(p, false).out) + Flatten(Drain(Drain(p, false).parser.Plus(b), false).out)
  {
    hide Scan, Flatten;
    var cut := |p.buf| - KeepLen(p.buf, p.Live());
    var q := p.(buf := p.buf[cut..]).Plus(b);
    HeldFronts(p, b);
    if Scan(q).None? {
      FrontedNone(p.Plus(b), p.buf[..cut], q);
      KeepFronted(p, b);
    }
    var x, rest := DrainFronted(p.Plus(b), p.buf[..cut], q);
    FlattenFronted(p.inReason, p.buf[..cut], x, rest);
  }
}
