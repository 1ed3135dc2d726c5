/** What the caller of a generation sees: the events against the text of the model. */
module CallerView {
  import opened Strings
  import opened GreedySpec
  import opened GreedyTheorems
  import R = Reasoning
  import Stream = ReasoningStream
  import Segments = ReasoningSegments

  /** The answer: the strings of the text events, in order. */
  function AnswerText(evs: seq<Event>): string {
    if evs == [] then ""
    else AnswerText(evs[..|evs| - 1]) + if evs[|evs| - 1].TextEvent? then evs[|evs| - 1].s else ""
  }

  /** The shown reasoning: the strings of the reasoning events, in order. */
  function ShownReasoning(evs: seq<Event>): string {
    if evs == [] then ""
    else ShownReasoning(evs[..|evs| - 1]) + if evs[|evs| - 1].ReasoningEvent? then evs[|evs| - 1].s else ""
  }

  /** The characters of both kinds of events as they come, reasoning marked `true`. */
  function Characters(evs: seq<Event>): seq<R.Tagged> {
    if evs == [] then []
    else
      var last := evs[|evs| - 1];
      Characters(evs[..|evs| - 1])
      + if last.TextEvent? then R.Mark(false, last.s) else if last.ReasoningEvent? then R.Mark(true, last.s) else []
  }

  predicate IsContent(e: Event) {
    (e.TextEvent? || e.ReasoningEvent?) && e.s != ""
  }

  // ---- the events of pieces ---------------------------------------------------------------

  lemma ViewSnoc(evs: seq<Event>, e: Event)
    ensures AnswerText(evs + [e]) == AnswerText(evs) + if e.TextEvent? then e.s else ""
    ensures ShownReasoning(evs + [e]) == ShownReasoning(evs) + if e.ReasoningEvent? then e.s else ""
    ensures Characters(evs + [e])
         == Characters(evs)
            + if e.TextEvent? then R.Mark(false, e.s) else if e.ReasoningEvent? then R.Mark(true, e.s) else []
  {
    assert (evs + [e])[..|evs|] == evs;
  }

  lemma PieceEvents(env: Env, x: R.Piece)
    ensures x.s == "" || (x.ReasoningPiece? && !env.showReasoning) ==> EventsOf(env, [x]) == []
    ensures x.s != "" && x.ReasoningPiece? && env.showReasoning ==> EventsOf(env, [x]) == [ReasoningEvent(x.s)]
    ensures x.s != "" && x.TextPiece? ==> EventsOf(env, [x]) == [TextEvent(x.s)]
  {
    assert [x][1..] == [];
    assert EventsOf(env, [x]) == EventOf(env, x) + EventsOf(env, []);
  }

  lemma PiecesSnoc(pieces: seq<R.Piece>, x: R.Piece)
    ensures Stream.TextOf(pieces + [x]) == Stream.TextOf(pieces) + if x.TextPiece? then x.s else ""
    ensures Stream.ReasoningOf(pieces + [x]) == Stream.ReasoningOf(pieces) + if x.ReasoningPiece? then x.s else ""
    ensures R.Flatten(pieces + [x]) == R.Flatten(pieces) + R.Mark(x.ReasoningPiece?, x.s)
  {
    hide R.Mark;
    Segments.SidesAppend(pieces, [x]);
    R.FlattenAppend(pieces, [x]);
    assert [x][1..] == [];
  }

  lemma {:induction false} ViewOfPieces(env: Env, pieces: seq<R.Piece>)
    ensures var evs := EventsOf(env, pieces);
      && AnswerText(evs) == Stream.TextOf(pieces)
      && ShownReasoning(evs) == (if env.showReasoning then Stream.ReasoningOf(pieces) else "")
      && (env.showReasoning ==> Characters(evs) == R.Flatten(pieces))
  {
    hide Stream.TextOf, Stream.ReasoningOf, R.Flatten, AnswerText, ShownReasoning, Characters, EventsOf, R.Mark;
    if pieces == [] {
      ViewNil(env);
    } else {
      var (init, x) := (pieces[..|pieces| - 1], pieces[|pieces| - 1]);
      assert pieces == init + [x];
      ViewOfPieces(env, init);
      PiecesSnoc(init, x);
      EventsAppend(env, init, [x]);
      PieceEvents(env, x);
      if EventsOf(env, [x]) == [] {
        assert EventsOf(env, init) + [] == EventsOf(env, init);
        MarkNil(x);
      } else {
        ViewSnoc(EventsOf(env, init), EventsOf(env, [x])[0]);
      }
    }
  }

  lemma MarkNil(x: R.Piece)
    ensures x.s == "" ==> R.Mark(x.ReasoningPiece?, x.s) == []
  {
  }

  lemma ViewNil(env: Env)
    ensures EventsOf(env, []) == [] && R.Flatten([]) == [] && Characters([]) == []
    ensures Stream.TextOf([]) == "" && Stream.ReasoningOf([]) == ""
    ensures AnswerText([]) == "" && ShownReasoning([]) == ""
  {
  }

  lemma {:induction false} OnlyContent(env: Env, pieces: seq<R.Piece>)
    ensures forall e :: e in EventsOf(env, pieces) ==> IsContent(e) && (e.ReasoningEvent? ==> env.showReasoning)
  {
    if pieces != [] {
      OnlyContent(env, pieces[1..]);
    }
  }

  // ---- the whole generation ----------------------------------------------------------------

  /** The events of a generation: first non-empty strings, whose text is the text of the split
      and whose reasoning is its reasoning if that is shown, in the order of the model's
      output; then the usage and the reason. */
  lemma CallerSees(env: Env)
    ensures var f := Finish(env, Start(env), []);
            var evs := Future(env, Start(env));
      && AnswerText(evs) == Stream.TextOf(AllPieces(env, f))
      && ShownReasoning(evs) == (if env.showReasoning then Stream.ReasoningOf(AllPieces(env, f)) else "")
      && (env.showReasoning ==> Characters(evs) == R.Flatten(AllPieces(env, f)))
      && |evs| >= 2
      && (forall k :: 0 <= k < |evs| - 2 ==>
           IsContent(evs[k]) && (evs[k].ReasoningEvent? ==> env.showReasoning))
      && evs[|evs| - 2] == Usage(|env.prompt|, |f.out.toks|, f.out.reasoningTokens)
      && evs[|evs| - 1] == Done(f.reason)
  {
    hide Finish, Future, AllPieces, EventsOf, GreedyTokens, EndsFor, ReleasedRight, Observed, Concat, IsContent;
    hide AnswerText, ShownReasoning, Characters, R.Mark;
    var f := Finish(env, Start(env), []);
    var pieces := AllPieces(env, f);
    var (x, usage, done) := (EventsOf(env, pieces), Closing(env, f)[0], Closing(env, f)[1]);
    WholeGeneration(env);
    assert Future(env, Start(env)) == x + [usage] + [done];
    ViewOfPieces(env, pieces);
    OnlyContent(env, pieces);
    ViewSnoc(x, usage);
    ViewSnoc(x + [usage], done);
  }

  /** In terms of the released text: without a marker behind a tag, the answer is what stands
      outside the think blocks, and the shown reasoning what stands inside. */
  lemma CallerSeesSegments(env: Env, pair: R.Pair, text: string, parts: seq<Segments.Part>)
    requires Segments.Segmented(env.family, pair, text, parts) && Segments.NoMarker(parts)
    requires var f := Finish(env, Start(env), []);
             Concat(f.fed) + f.out.pending == text + Segments.Written(pair, parts, true)
    ensures var evs := Future(env, Start(env));
      && AnswerText(evs) == text + Segments.Alternate(parts, false)
      && ShownReasoning(evs) == (if env.showReasoning then Segments.Alternate(parts, true) else "")
  {
    hide Finish, Future, Segments.Segmented, Segments.Written, Segments.Alternate, Segments.NoMarker;
    hide Stream.Output, Stream.TextOf, Stream.ReasoningOf, Concat, AnswerText, ShownReasoning, Characters;
    hide Stream.CutsDoNotMatter;
    var f := Finish(env, Start(env), []);
    CallerSees(env);
    ConcatSnoc(f.fed, f.out.pending);
    Segments.SplitByTags(env.family, pair, text, parts);
    assert Stream.ParseStream(env.family, f.fed + [f.out.pending]).0 == Segments.Alternate(parts, true);
  }
}
