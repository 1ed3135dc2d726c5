/** The splitter over a stream that arrives in chunks: when, exactly, the cuts do not matter. */
module ReasoningStream {
  import opened Strings
  import opened Reasoning

  /** One `push`. */
  function Push(p: Parser, chunk: string): Drained {
    if chunk == "" then Drained(p, []) else Drain(p.Plus(chunk), true)
  }

  function Run(p: Parser, chunks: seq<string>): Drained {
    if chunks == [] then Drained(p, [])
    else
      var n := |chunks| - 1;
      var r := Run(p, chunks[..n]);
      var s := Push(r.parser, chunks[n]);
      Drained(s.parser, r.out + s.out)
  }

  /** Everything a stream yields, the final flush included. */
  function Output(f: Family, chunks: seq<string>): seq<Piece> {
    var r := Run(Fresh(f), chunks);
    r.out + PieceOf(r.parser.inReason, r.parser.buf)
  }

  function ReasoningOf(out: seq<Piece>): string {
    if out == [] then ""
    else (if out[0].ReasoningPiece? then out[0].s else "") + ReasoningOf(out[1..])
  }

  function TextOf(out: seq<Piece>): string {
    if out == [] then ""
    else (if out[0].TextPiece? then out[0].s else "") + TextOf(out[1..])
  }

  /** `parse_stream`: all reasoning and all text. */
  function ParseStream(f: Family, chunks: seq<string>): (string, string) {
    (ReasoningOf(Output(f, chunks)), TextOf(Output(f, chunks)))
  }

  /** The guard of the branch that removes the message marker is false after every
      delimiter the splitter consumes. */
  ghost predicate StripFree(p: Parser)
    decreases |p.buf|
  {
    match Scan(p)
    case None => true
    case Some((i, pair)) =>
      var next := After(p, i, pair, false);
      !(MESSAGE <= next.buf) && StripFree(next)
  }

  /** Between two pushes: nothing left to find, everything held must be held. */
  ghost predicate Settled(p: Parser) {
    p.Valid() && Drain(p, false) == Drained(p, [])
  }

  lemma FreshIsSettled(f: Family)
    ensures Settled(Fresh(f))
  {
    hide Pairs;
    FamiliesAreGood(f);
    ScanEmpty(Fresh(f));
  }

  lemma ScanEmpty(p: Parser)
    requires p.buf == ""
    ensures Scan(p).None?
  {
  }

  // ---- streams without the marker after a delimiter -------------------------------

  lemma {:induction false} FreeMeansSame(p: Parser)
    requires StripFree(p)
    ensures Drain(p, true) == Drain(p, false)
    decreases |p.buf|
  {
    hide Scan, KeepLen;
    if Scan(p).Some? {
      FreeMeansSame(After(p, Scan(p).value.0, Scan(p).value.1, false));
    }
  }

  /** Both parts of a marker-free stream are marker-free. */
  lemma {:induction false} FreeParts(p: Parser, b: string)
    requires p.Valid() && StripFree(p.Plus(b))
    ensures StripFree(p) && StripFree(Drain(p, false).parser.Plus(b))
    decreases |p.buf|
  {
    if Scan(p).Some? {
      var (i, pair) := Scan(p).value;
      ScanAppend(p, b);
      AppendAfter(p, b, i, pair);
      AfterValid(p, false);
      FreePartsNext(p, b, i, pair);
    } else {
      FreePartsHeld(p, b);
    }
  }

  lemma FreePartsNext(p: Parser, b: string, i: nat, pair: Pair)
    requires Scan(p) == Some((i, pair)) && Scan(p.Plus(b)) == Some((i, pair))
    requires After(p, i, pair, false).Valid() && StripFree(p.Plus(b))
    requires After(p.Plus(b), i, pair, false) == After(p, i, pair, false).Plus(b)
    ensures StripFree(p) && StripFree(Drain(p, false).parser.Plus(b))
    decreases |p.buf|, 0
  {
    hide Scan, KeepLen;
    var next := After(p, i, pair, false);
    assert StripFree(next.Plus(b)) && !(MESSAGE <= next.buf + b);
    FreeParts(next, b);
    DrainFound(p, false, i, pair);
  }

  lemma FreePartsHeld(p: Parser, b: string)
    requires p.Valid() && Scan(p).None? && StripFree(p.Plus(b))
    ensures StripFree(Drain(p, false).parser.Plus(b))
  {
    hide Scan, KeepLen, StripFree, Fronted;
    var cut := |p.buf| - KeepLen(p.buf, p.Live());
    var q := p.(buf := p.buf[cut..]).Plus(b);
    HeldFronts(p, b);
    FreeFronted(p.Plus(b), p.buf[..cut], q);
  }

  lemma FreeFronted(w: Parser, e: string, q: Parser)
    requires w.Valid() && q.Valid() && Fronted(w, e, q) && StripFree(w)
    ensures StripFree(q)
  {
    hide Scan, KeepLen, NoneBefore;
    if Scan(q).Some? {
      var (i, pair) := Scan(q).value;
      FrontedFound(w, e, q, i, pair);
      FrontedAfter(w, e, q, i, pair);
      hide After, Fronted;
    }
  }

  /** However a marker-free stream is cut, the splitter ends in the state, and gives the
      tagged characters, of the stream taken whole. */
  lemma {:induction false} RunIsWhole(p: Parser, chunks: seq<string>)
    requires Settled(p) && StripFree(p.Plus(Concat(chunks)))
    ensures Run(p, chunks).parser == Drain(p.Plus(Concat(chunks)), false).parser
    ensures Flatten(Run(p, chunks).out) == Flatten(Drain(p.Plus(Concat(chunks)), false).out)
  {
    hide StripFree, Drain, Flatten;
    if chunks == [] {
      assert p.Plus("") == p;
    } else {
      var n := |chunks| - 1;
      var (init, last) := (chunks[..n], chunks[n]);
      var whole := p.Plus(Concat(init));
      assert whole.Plus(last) == p.Plus(Concat(chunks));
      FreeParts(whole, last);
      RunIsWhole(p, init);
      RunStep(whole, last, Run(p, init), Push(Run(p, init).parser, last));
    }
  }

  lemma RunStep(whole: Parser, last: string, r: Drained, s: Drained)
    requires whole.Valid() && s == Push(r.parser, last)
    requires StripFree(Drain(whole, false).parser.Plus(last))
    requires r.parser == Drain(whole, false).parser && Flatten(r.out) == Flatten(Drain(whole, false).out)
    ensures s.parser == Drain(whole.Plus(last), false).parser
    ensures Flatten(r.out + s.out) == Flatten(Drain(whole.Plus(last), false).out)
  {
    hide Drain, Flatten, StripFree;
    FlattenAppend(r.out, s.out);
    if last == "" {
      assert whole.Plus(last) == whole;
      FlattenNil();
    } else {
      FreeMeansSame(r.parser.Plus(last));
      DrainAppend(whole, last);
    }
  }

  lemma FlattenNil()
    ensures Flatten([]) == []
  {
  }

  /** Pushing `a` and then `b` is pushing `a + b`. */
  lemma PushPush(p: Parser, a: string, b: string)
    requires Settled(p) && StripFree(p.Plus(a + b))
    ensures Push(Push(p, a).parser, b).parser == Push(p, a + b).parser
    ensures Flatten(Push(p, a).out + Push(Push(p, a).parser, b).out) == Flatten(Push(p, a + b).out)
  {
    hide Drain, Flatten, StripFree, Push;
    RunTwo(p, a, b);
    RunOne(p, a + b);
    RunIsWhole(p, [a, b]);
    RunIsWhole(p, [a + b]);
  }

  lemma RunOne(p: Parser, a: string)
    ensures Run(p, [a]) == Push(p, a) && Concat([a]) == a
  {
    hide Push;
    assert [a][..0] == [];
    assert Run(p, []) == Drained(p, []);
    assert [] + Push(p, a).out == Push(p, a).out;
    ConcatSnoc([], a);
    assert [] + [a] == [a];
  }

  lemma RunTwo(p: Parser, a: string, b: string)
    ensures Run(p, [a, b]).parser == Push(Push(p, a).parser, b).parser && Concat([a, b]) == a + b
    ensures Run(p, [a, b]).out == Push(p, a).out + Push(Push(p, a).parser, b).out
  {
    hide Push;
    RunOne(p, a);
    assert [a, b][..1] == [a];
  }

  /** After any run the splitter is settled again: what it holds is a strict prefix of a
      delimiter that may come next. */
  lemma {:induction false} RunHolds(p: Parser, chunks: seq<string>)
    requires p.Valid() && Scan(p).None? && p.Holding()
    ensures var q := Run(p, chunks).parser;
            q.Valid() && q.pairs == p.pairs && Scan(q).None? && q.Holding()
  {
    hide Drain, Scan;
    if chunks != [] {
      var n := |chunks| - 1;
      RunHolds(p, chunks[..n]);
      if chunks[n] != "" {
        DrainHolds(Run(p, chunks[..n]).parser.Plus(chunks[n]), true);
      }
    }
  }

  // ---- one character at a time the marker is never stripped -------------------------

  function Singles(s: string): seq<string> {
    seq(|s|, k requires 0 <= k < |s| => [s[k]])
  }

  lemma {:induction false} ConcatSingles(s: string)
    ensures Concat(Singles(s)) == s
  {
    if s != "" {
      var n := |s| - 1;
      ConcatSingles(s[..n]);
      assert Singles(s) == Singles(s[..n]) + [[s[n]]];
      ConcatSnoc(Singles(s[..n]), [s[n]]);
    }
  }

  /** A delimiter completed by the last character leaves nothing behind it. */
  lemma LastCharCompletes(q: Parser, c: char)
    requires q.Valid() && Scan(q).None?
    ensures Drain(q.Plus([c]), true) == Drain(q.Plus([c]), false)
  {
    var w := q.Plus([c]);
    if Scan(w).Some? {
      var (i, pair) := Scan(w).value;
      ScanIsNext(q);
      ScanIsNext(w);
      var k := LiveHas(w, pair);
      assert q.Live() == w.Live();
      assert !OccursAt(q.buf, q.Live()[k], i);
      if i + |Needle(w.inReason, pair)| <= |q.buf| {
        OccursAtAppend(q.buf, [c], q.Live()[k], i);
        assert false;
      }
      assert After(w, i, pair, true) == After(w, i, pair, false);
      ScanEmpty(After(w, i, pair, false));
      DrainFound(w, true, i, pair);
      DrainFound(w, false, i, pair);
    }
  }

  lemma {:induction false} SinglesNeverStrip(p: Parser, s: string)
    requires Settled(p) && Scan(p).None?
    ensures Run(p, Singles(s)).parser == Drain(p.Plus(s), false).parser
    ensures Flatten(Run(p, Singles(s)).out) == Flatten(Drain(p.Plus(s), false).out)
  {
    hide Drain, Flatten, Scan;
    if s == "" {
      assert p.Plus("") == p;
    } else {
      var n := |s| - 1;
      var (init, c) := (s[..n], s[n]);
      SinglesNeverStrip(p, init);
      assert Singles(s)[..n] == Singles(init) && Singles(s)[n] == [c];
      var whole := p.Plus(init);
      assert whole.Plus([c]) == p.Plus(s);
      DrainHolds(whole, false);
      var r := Run(p, Singles(init));
      LastCharCompletes(r.parser, c);
      DrainAppend(whole, [c]);
      FlattenAppend(r.out, Push(r.parser, [c]).out);
    }
  }

  // ---- taken whole, each marker after a delimiter is lost ----------------------------

  /** Characters that come out, the held ones included. */
  function Total(p: Parser, strip: bool): nat {
    |Flatten(Drain(p, strip).out)| + |Drain(p, strip).parser.buf|
  }

  lemma NoTagInMessage(x: string, d: string, j: nat)
    requires IsTag(d) && j < |MESSAGE|
    ensures !OccursAt(MESSAGE + x, d, j)
  {
    if OccursAt(MESSAGE + x, d, j) {
      assert false;
    }
  }

  lemma NoTailFromMessage(x: string, d: string, n: nat)
    requires IsTag(d) && |x| < n <= |MESSAGE + x|
    ensures !TailIsPrefix(MESSAGE + x, d, n)
  {
    var s := MESSAGE + x;
    if TailIsPrefix(s, d, n) {
      TailIndex(s, d, n, 0);
      if n == |s| {
        TailIndex(s, d, n, 1);
        TailIndex(s, d, n, 2);
      }
      assert false;
    }
  }

  lemma KeepAfterMessage(x: string, needles: seq<string>)
    requires forall k :: 0 <= k < |needles| ==> IsTag(needles[k])
    requires NoneIn(x, needles) && NoneIn(MESSAGE + x, needles)
    ensures KeepLen(MESSAGE + x, needles) == KeepLen(x, needles)
  {
    KeepLenIsKeep(x, needles);
    KeepLenIsKeep(MESSAGE + x, needles);
    var keep := KeepLen(x, needles);
    if keep > 0 {
      var k :| 0 <= k < |needles| && keep < |needles[k]| && TailIsPrefix(x, needles[k], keep);
      TailPrefixLocal(MESSAGE, x, needles[k], keep);
    }
    forall k, n: nat | 0 <= k < |needles| && keep < n < |needles[k]|
      ensures !TailIsPrefix(MESSAGE + x, needles[k], n)
    {
      assert !TailIsPrefix(x, needles[k], n);
      if n <= |x| {
        TailPrefixLocal(MESSAGE, x, needles[k], n);
      } else if n <= |MESSAGE + x| {
        NoTailFromMessage(x, needles[k], n);
      }
    }
    KeepUnique(MESSAGE + x, needles, KeepLen(MESSAGE + x, needles), keep);
  }

  /** Without stripping, a marker in front comes out as it is and changes nothing else. */
  lemma MessagePasses(b: Parser)
    requires b.Valid()
    ensures Total(b.(buf := MESSAGE + b.buf), false) == |MESSAGE| + Total(b, false)
  {
    hide Drain, Flatten, KeepLen, Scan;
    var w := b.(buf := MESSAGE + b.buf);
    assert w.Live() == b.Live();
    forall k, j: nat | 0 <= k < |w.Live()| && j < |MESSAGE|
      ensures !OccursAt(w.buf, w.Live()[k], j)
    {
      NoTagInMessage(b.buf, w.Live()[k], j);
    }
    if Scan(b).None? {
      FrontedNone(w, MESSAGE, b);
      ScanIsNext(b);
      ScanIsNext(w);
      KeepAfterMessage(b.buf, b.Live());
    }
    var x, rest := DrainFronted(w, MESSAGE, b);
    FlattenFronted(b.inReason, MESSAGE, x, rest);
    FlattenPiece(b.inReason, MESSAGE);
    MarkLength(b.inReason, MESSAGE);
  }

  lemma MarkLength(inReason: bool, s: string)
    ensures |Mark(inReason, s)| == |s|
  {
  }

  /** Stripping never lets more characters through, and fewer as soon as it happens once. */
  lemma {:induction false} StripLosesCharacters(p: Parser)
    requires p.Valid()
    ensures Total(p, true) <= Total(p, false)
    ensures !StripFree(p) ==> Total(p, true) < Total(p, false)
    decreases |p.buf|
  {
    hide Drain, Flatten, Scan, KeepLen;
    if Scan(p).None? {
      DrainNone(p);
    } else {
      var (i, pair) := Scan(p).value;
      var next := After(p, i, pair, false);
      var taken := After(p, i, pair, true);
      AfterValid(p, false);
      AfterValid(p, true);
      StripLosesCharacters(taken);
      TotalFound(p, true, i, pair);
      TotalFound(p, false, i, pair);
      if MESSAGE <= next.buf {
        assert next == taken.(buf := MESSAGE + taken.buf);
        MessagePasses(taken);
      }
    }
  }

  lemma DrainNone(p: Parser)
    requires Scan(p).None?
    ensures StripFree(p) && Drain(p, true) == Drain(p, false)
  {
  }

  lemma TotalFound(p: Parser, strip: bool, i: nat, pair: Pair)
    requires Scan(p) == Some((i, pair))
    ensures Total(p, strip) == i + Total(After(p, i, pair, strip), strip)
  {
    hide Drain, Flatten, Scan, KeepLen, Mark;
    DrainFound(p, strip, i, pair);
    FlattenFirst(p.inReason, p.buf[..i], Drain(After(p, i, pair, strip), strip).out);
    MarkLength(p.inReason, p.buf[..i]);
  }

  // ---- the exact condition ------------------------------------------------------------

  lemma {:induction false} ProjectionsFromFlatten(a: seq<Piece>, b: seq<Piece>)
    requires Flatten(a) == Flatten(b)
    ensures ReasoningOf(a) == ReasoningOf(b) && TextOf(a) == TextOf(b)
  {
    KindsOfPieces(a);
    KindsOfPieces(b);
  }

  /** The characters of one kind, in order. */
  function OfKind(t: seq<Tagged>, reasoning: bool): string {
    if t == [] then ""
    else (if t[0].0 == reasoning then [t[0].1] else "") + OfKind(t[1..], reasoning)
  }

  lemma {:induction false} OfKindAppend(a: seq<Tagged>, b: seq<Tagged>, reasoning: bool)
    ensures OfKind(a + b, reasoning) == OfKind(a, reasoning) + OfKind(b, reasoning)
  {
    if a == [] {
      assert a + b == b;
    } else {
      OfKindAppend(a[1..], b, reasoning);
      assert (a + b)[1..] == a[1..] + b && (a + b)[0] == a[0];
      var first := if a[0].0 == reasoning then [a[0].1] else "";
      var (x, y) := (OfKind(a[1..], reasoning), OfKind(b, reasoning));
      assert first + (x + y) == (first + x) + y;
    }
  }

  lemma {:induction false} OfKindMark(inReason: bool, s: string, reasoning: bool)
    ensures OfKind(Mark(inReason, s), reasoning) == if inReason == reasoning then s else ""
  {
    if s != "" {
      OfKindMark(inReason, s[1..], reasoning);
      assert Mark(inReason, s)[1..] == Mark(inReason, s[1..]);
      assert s == [s[0]] + s[1..];
    }
  }

  lemma {:induction false} KindsOfPieces(out: seq<Piece>)
    ensures ReasoningOf(out) == OfKind(Flatten(out), true)
    ensures TextOf(out) == OfKind(Flatten(out), false)
    ensures |ReasoningOf(out)| + |TextOf(out)| == |Flatten(out)|
  {
    if out != [] {
      KindsOfPieces(out[1..]);
      var x := out[0];
      OfKindMark(x.ReasoningPiece?, x.s, true);
      OfKindMark(x.ReasoningPiece?, x.s, false);
      OfKindAppend(Mark(x.ReasoningPiece?, x.s), Flatten(out[1..]), true);
      OfKindAppend(Mark(x.ReasoningPiece?, x.s), Flatten(out[1..]), false);
    }
  }

  /** Every way of cutting `s` splits into the same reasoning and the same text. */
  ghost predicate CutsDoNotMatter(f: Family, s: string) {
    forall c1: seq<string>, c2: seq<string> ::
      Concat(c1) == s && Concat(c2) == s ==> ParseStream(f, c1) == ParseStream(f, c2)
  }

  lemma OutputFlatten(f: Family, chunks: seq<string>)
    ensures var r := Run(Fresh(f), chunks);
            Flatten(Output(f, chunks)) == Flatten(r.out) + Mark(r.parser.inReason, r.parser.buf)
  {
    var r := Run(Fresh(f), chunks);
    FlattenAppend(r.out, PieceOf(r.parser.inReason, r.parser.buf));
    FlattenPiece(r.parser.inReason, r.parser.buf);
  }

  lemma FreeImpliesCutsDoNotMatter(f: Family, s: string)
    requires StripFree(Fresh(f).Plus(s))
    ensures CutsDoNotMatter(f, s)
  {
    hide Run, Flatten, Drain, StripFree, Output, ReasoningOf, TextOf, Pairs;
    FreshIsSettled(f);
    forall c1: seq<string>, c2: seq<string> | Concat(c1) == s && Concat(c2) == s
      ensures ParseStream(f, c1) == ParseStream(f, c2)
    {
      RunIsWhole(Fresh(f), c1);
      RunIsWhole(Fresh(f), c2);
      OutputFlatten(f, c1);
      OutputFlatten(f, c2);
      ProjectionsFromFlatten(Output(f, c1), Output(f, c2));
    }
  }

  lemma StripMakesCutsMatter(f: Family, s: string)
    requires !StripFree(Fresh(f).Plus(s))
    ensures ParseStream(f, [s]) != ParseStream(f, Singles(s))
  {
    hide Run, Flatten, Drain, StripFree, Output, ReasoningOf, TextOf, Mark, Pairs;
    var p := Fresh(f);
    FreshIsSettled(f);
    if s == "" {
      assert p.Plus(s) == p;
      ScanEmpty(p);
      DrainNone(p);
      assert false;
    } else {
      ScanEmpty(p);
      FamiliesAreGood(f);
      StripLosesCharacters(p.Plus(s));
      SinglesNeverStrip(p, s);
      RunOne(p, s);
      OutputFlatten(f, [s]);
      OutputFlatten(f, Singles(s));
      KindsOfPieces(Output(f, [s]));
      KindsOfPieces(Output(f, Singles(s)));
      MarkLength(Run(p, [s]).parser.inReason, Run(p, [s]).parser.buf);
      MarkLength(Run(p, Singles(s)).parser.inReason, Run(p, Singles(s)).parser.buf);
    }
  }

  /** The split does not depend on where the stream is cut exactly when no message marker
      directly follows a consumed delimiter. */
  lemma CutsMatterExactly(f: Family, s: string)
    ensures CutsDoNotMatter(f, s) <==> StripFree(Fresh(f).Plus(s))
  {
    hide ParseStream, StripFree;
    if StripFree(Fresh(f).Plus(s)) {
      FreeImpliesCutsDoNotMatter(f, s);
    } else {
      StripMakesCutsMatter(f, s);
      RunOne(Fresh(f), s);
      ConcatSingles(s);
    }
  }

  /** A concrete stream that the cuts do change. */
  lemma MarkerExample()
    ensures !StripFree(Fresh(Harmony).Plus("<|channel|>analysis" + MESSAGE))
  {
    var p := Fresh(Harmony).Plus("<|channel|>analysis" + MESSAGE);
    var pair := Pairs(Harmony)[0];
    FamiliesAreGood(Harmony);
    assert p.buf[0..|pair.open|] == pair.open;
    assert OccursAt(p.buf, pair.open, 0);
    assert pair in p.pairs;
    NextIsScan(p, 0, pair);
    assert After(p, 0, pair, false).buf == MESSAGE;
  }
}
