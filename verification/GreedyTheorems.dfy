/** What greedy decoding delivers, said without its steps: which tokens, which text, which
    events, and how many reasoning tokens. */
module GreedyTheorems {
  import opened Strings
  import opened StopFilter
  import opened Ngram
  import opened GreedySpec
  import R = Reasoning
  import Stream = ReasoningStream
  import B = Budget

  datatype Step = Ended(o: Out, reason: StopReason) | Continues(o: Out, emit: string)

  function OneStep(env: Env, o: Out): Step {
    if |o.toks| >= env.maxTokens then Ended(o, MaxTokens)
    else
      var t := Greedy(env.model(env.prompt + o.toks));
      if env.Ends(t) then Ended(o, Eos)
      else
        var o' := Take(env, o, t);
        match SplitOf(o'.pending, env.stops)
        case Emit(emit, keep) => Continues(Release(o', emit, keep), emit)
        case Stop(before, m) => Ended(o'.(pending := before), StopString(m))
  }

  /** Where a generation ends: the last output state (its `pending` is what is flushed), the
      reason, and all strings given to the splitter before, in order. */
  datatype Final = Final(out: Out, reason: StopReason, fed: seq<string>)

  function Finish(env: Env, o: Out, fed: seq<string>): Final
    decreases if |o.toks| < env.maxTokens then env.maxTokens - |o.toks| else 0
  {
    match OneStep(env, o)
    case Ended(o', reason) => Final(o', reason, fed)
    case Continues(o', emit) => Finish(env, o', fed + [emit])
  }

  /** The text of some tokens, decoded one after another. */
  function Decoded(env: Env, toks: seq<Token>): string {
    if toks == [] then ""
    else
      var n := |toks| - 1;
      Decoded(env, toks[..n]) + env.piece(toks[..n], toks[n])
  }

  lemma DecodedSnoc(env: Env, toks: seq<Token>, t: Token)
    ensures Decoded(env, toks + [t]) == Decoded(env, toks) + env.piece(toks, t)
  {
    assert (toks + [t])[..|toks|] == toks;
  }

  // ---- the tokens ---------------------------------------------------------------------

  /** Every token is the model's greedy choice after the prompt and the tokens before it,
      and none of them ends the generation. */
  ghost predicate GreedyTokens(env: Env, toks: seq<Token>) {
    forall k :: 0 <= k < |toks| ==> toks[k] == Greedy(env.model(env.prompt + toks[..k])) && !env.Ends(toks[k])
  }

  ghost predicate EndsFor(env: Env, toks: seq<Token>, reason: StopReason) {
    match reason
    case MaxTokens => |toks| == env.maxTokens
    case Eos => |toks| < env.maxTokens && env.Ends(Greedy(env.model(env.prompt + toks)))
    case StopString(_) => 0 < |toks| <= env.maxTokens
  }

  lemma GreedySnoc(env: Env, toks: seq<Token>, t: Token)
    requires GreedyTokens(env, toks) && t == Greedy(env.model(env.prompt + toks)) && !env.Ends(t)
    ensures GreedyTokens(env, toks + [t])
  {
    hide Greedy;
    var next := toks + [t];
    forall k | 0 <= k < |next|
      ensures next[k] == Greedy(env.model(env.prompt + next[..k])) && !env.Ends(next[k])
    {
      assert next[..k] == toks[..k];
      assert toks[..|toks|] == toks;
    }
  }

  lemma {:induction false} FinishTokens(env: Env, o: Out, fed: seq<string>)
    requires GreedyTokens(env, o.toks) && |o.toks| <= env.maxTokens
    ensures var f := Finish(env, o, fed);
            GreedyTokens(env, f.out.toks) && EndsFor(env, f.out.toks, f.reason)
    decreases env.maxTokens - |o.toks|
  {
    hide Greedy, SplitOf, Stream.Push, GreedyTokens;
    if |o.toks| < env.maxTokens {
      var t := Greedy(env.model(env.prompt + o.toks));
      if !env.Ends(t) {
        GreedySnoc(env, o.toks, t);
        var step := OneStep(env, o);
        if step.Continues? {
          FinishTokens(env, step.o, fed + [step.emit]);
        }
      }
    }
  }

  // ---- the text -------------------------------------------------------------------------

  /** The released text against the whole decoded text: up to the earliest stop of the whole,
      which is not there before the last token; or all of it, and it contains no stop. */
  ghost predicate ReleasedRight(env: Env, toks: seq<Token>, released: string, reason: StopReason) {
    var whole := Decoded(env, toks);
    match reason
    case StopString(m) =>
      && toks != [] && !HasStop(Decoded(env, toks[..|toks| - 1]), env.stops)
      && released <= whole && IsBest(whole, env.stops, Some((|released|, m)))
    case _ => released == whole && !HasStop(whole, env.stops)
  }

  lemma {:induction false} FinishText(env: Env, o: Out, fed: seq<string>)
    requires Clean(Concat(fed), o.pending, env.stops) && Concat(fed) + o.pending == Decoded(env, o.toks)
    ensures var f := Finish(env, o, fed);
            ReleasedRight(env, f.out.toks, Concat(f.fed) + f.out.pending, f.reason)
    decreases if |o.toks| < env.maxTokens then env.maxTokens - |o.toks| else 0
  {
    hide Greedy, SplitOf, Stream.Push, Concat, Decoded, IsBest;
    var step := OneStep(env, o);
    if |o.toks| < env.maxTokens {
      var t := Greedy(env.model(env.prompt + o.toks));
      if !env.Ends(t) {
        var piece := env.piece(o.toks, t);
        DecodedSnoc(env, o.toks, t);
        PieceStep(Concat(fed), o.pending, piece, env.stops);
        if step.Continues? {
          ConcatSnoc(fed, step.emit);
          FinishText(env, step.o, fed + [step.emit]);
        } else {
          assert (o.toks + [t])[..|o.toks|] == o.toks;
        }
      }
    }
  }

  /** A stop in a prefix is a stop in the whole: no earlier piece could have completed one. */
  lemma StopsStay(a: string, b: string, stops: seq<string>)
    requires HasStop(a, stops)
    ensures HasStop(a + b, stops)
  {
    var i: nat :| StopAt(a, stops, i);
    var k :| 0 <= k < |stops| && stops[k] != "" && OccursAt(a, stops[k], i);
    OccursAtAppend(a, b, stops[k], i);
    assert StopAt(a + b, stops, i);
  }

  // ---- the events -----------------------------------------------------------------------

  lemma {:induction false} EventsAppend(env: Env, a: seq<R.Piece>, b: seq<R.Piece>)
    ensures EventsOf(env, a + b) == EventsOf(env, a) + EventsOf(env, b)
  {
    if a == [] {
      assert a + b == b;
    } else {
      EventsAppend(env, a[1..], b);
      assert (a + b)[1..] == a[1..] + b;
    }
  }

  /** All pieces of a finished generation: those of the strings fed and of the flushed rest. */
  function AllPieces(env: Env, f: Final): seq<R.Piece> {
    Stream.Output(env.family, f.fed + [f.out.pending])
  }

  function Closing(env: Env, f: Final): seq<Event> {
    [Usage(|env.prompt|, |f.out.toks|, f.out.reasoningTokens), Done(f.reason)]
  }

  lemma RunSnoc(p: R.Parser, fed: seq<string>, s: string)
    ensures Stream.Run(p, fed + [s]).parser == Stream.Push(Stream.Run(p, fed).parser, s).parser
    ensures Stream.Run(p, fed + [s]).out == Stream.Run(p, fed).out + Stream.Push(Stream.Run(p, fed).parser, s).out
  {
    hide Stream.Push;
    assert (fed + [s])[..|fed|] == fed;
  }

  lemma {:induction false} FinishEvents(env: Env, o: Out, fed: seq<string>)
    requires o.parser == Stream.Run(R.Fresh(env.family), fed).parser
    ensures EventsOf(env, Stream.Run(R.Fresh(env.family), fed).out) + Future(env, o)
         == EventsOf(env, AllPieces(env, Finish(env, o, fed))) + Closing(env, Finish(env, o, fed))
    decreases if |o.toks| < env.maxTokens then env.maxTokens - |o.toks| else 0
  {
    hide Greedy, SplitOf, Stream.Push, Stream.Run, AllPieces, Terminal, EventsOf, R.Fresh;
    var p := R.Fresh(env.family);
    var step := OneStep(env, o);
    match step
    case Ended(o', reason) =>
      TerminalEvents(env, o', reason, fed);
    case Continues(o', emit) =>
      RunSnoc(p, fed, emit);
      EventsAppend(env, Stream.Run(p, fed).out, Stream.Push(o.parser, emit).out);
      FinishEvents(env, o', fed + [emit]);
      var (a, b) := (EventsOf(env, Stream.Run(p, fed).out), EventsOf(env, Stream.Push(o.parser, emit).out));
      var c := Future(env, o');
      assert a + (b + c) == (a + b) + c;
  }

  lemma TerminalEvents(env: Env, o: Out, reason: StopReason, fed: seq<string>)
    requires o.parser == Stream.Run(R.Fresh(env.family), fed).parser
    ensures EventsOf(env, Stream.Run(R.Fresh(env.family), fed).out) + Terminal(env, o, reason)
         == EventsOf(env, AllPieces(env, Final(o, reason, fed))) + Closing(env, Final(o, reason, fed))
  {
    hide Stream.Push, Stream.Run, EventsOf, R.Fresh, R.PieceOf;
    var p := R.Fresh(env.family);
    var d := Stream.Push(o.parser, o.pending);
    var (a, b, c) := (Stream.Run(p, fed).out, d.out, R.PieceOf(d.parser.inReason, d.parser.buf));
    RunSnoc(p, fed, o.pending);
    EventsAppend(env, a + b, c);
    EventsAppend(env, a, b);
    assert AllPieces(env, Final(o, reason, fed)) == (a + b) + c;
    var (x, y, z, e) := (EventsOf(env, a), EventsOf(env, b), EventsOf(env, c), Closing(env, Final(o, reason, fed)));
    assert x + (y + z + e) == x + y + z + e;
  }

  // ---- the reasoning-token count -----------------------------------------------------------

  /** What the counter observes after each string fed to the splitter. */
  function Observed(f: R.Family, fed: seq<string>): seq<B.Seen> {
    if fed == [] then []
    else
      var parser := Stream.Run(R.Fresh(f), fed).parser;
      Observed(f, fed[..|fed| - 1]) + [B.Seen(parser.inReason, parser.buf != "")]
  }

  lemma {:induction false} ObservedLength(f: R.Family, fed: seq<string>)
    ensures |Observed(f, fed)| == |fed|
  {
    hide Stream.Run;
    if fed != [] {
      ObservedLength(f, fed[..|fed| - 1]);
    }
  }

  ghost predicate Counts(env: Env, o: Out, fed: seq<string>) {
    && o.parser == Stream.Run(R.Fresh(env.family), fed).parser
    && o.counter == B.RunClock(B.COUNTER, Observed(env.family, fed))
    && o.reasoningTokens == B.Tally(B.COUNTER, Observed(env.family, fed))
  }

  lemma ReleaseCounts(env: Env, o: Out, fed: seq<string>, emit: string, keep: string)
    requires Counts(env, o, fed)
    ensures Counts(env, Release(o, emit, keep), fed + [emit])
  {
    hide Stream.Push, Stream.Run, R.Fresh;
    var next := Release(o, emit, keep);
    RunSnoc(R.Fresh(env.family), fed, emit);
    var seen := B.Seen(next.parser.inReason, next.parser.buf != "");
    var before := Observed(env.family, fed);
    var after := Observed(env.family, fed + [emit]);
    assert (fed + [emit])[..|fed|] == fed;
    assert after == before + [seen];
    assert after[..|after| - 1] == before;
  }

  lemma {:induction false} FinishCounts(env: Env, o: Out, fed: seq<string>)
    requires Counts(env, o, fed) && |fed| == |o.toks|
    ensures var f := Finish(env, o, fed);
            && f.out.reasoningTokens == B.Tally(B.COUNTER, Observed(env.family, f.fed))
            && |f.fed| <= |f.out.toks|
    decreases if |o.toks| < env.maxTokens then env.maxTokens - |o.toks| else 0
  {
    hide Greedy, SplitOf, Stream.Push, Stream.Run, B.Tally, B.RunClock, Observed, R.Fresh, Release;
    if |o.toks| < env.maxTokens {
      var t := Greedy(env.model(env.prompt + o.toks));
      if !env.Ends(t) {
        var o' := Take(env, o, t);
        var split := SplitOf(o'.pending, env.stops);
        if split.Emit? {
          ReleaseCounts(env, o', fed, split.emit, split.keep);
          ReleaseKeepsTokens(o', split.emit, split.keep);
          FinishCounts(env, Release(o', split.emit, split.keep), fed + [split.emit]);
        }
      }
    }
  }

  lemma ReleaseKeepsTokens(o: Out, emit: string, keep: string)
    ensures Release(o, emit, keep).toks == o.toks
  {
  }

  // ---- all together ------------------------------------------------------------------------

  /** A generation, for any model, prompt, stop set and limit: its tokens are greedy and end
      for the stated reason; its text is the decoded text cut at the earliest stop; its events
      are the split of that text, then the usage and the reason; and the usage counts the
      tokens seen inside think blocks. */
  lemma WholeGeneration(env: Env)
    ensures var f := Finish(env, Start(env), []);
            && GreedyTokens(env, f.out.toks) && EndsFor(env, f.out.toks, f.reason)
            && ReleasedRight(env, f.out.toks, Concat(f.fed) + f.out.pending, f.reason)
            && Future(env, Start(env)) == EventsOf(env, AllPieces(env, f)) + Closing(env, f)
            && (|f.out.toks| < B.U32_MAX ==>
                 f.out.reasoningTokens == B.InsidePairs(Observed(env.family, f.fed)))
  {
    hide Finish, Future, ReleasedRight, EndsFor, Stream.Output, R.Fresh, B.Tally, B.InsidePairs, Observed;
    var o := Start(env);
    StartFacts(env);
    FinishTokens(env, o, []);
    FinishText(env, o, []);
    FinishEvents(env, o, []);
    FinishCounts(env, o, []);
    var f := Finish(env, o, []);
    ObservedLength(env.family, f.fed);
    if |f.out.toks| < B.U32_MAX {
      B.TallyIsInsidePairs(Observed(env.family, f.fed));
    }
    assert [] + Future(env, o) == Future(env, o);
  }

  lemma StartFacts(env: Env)
    ensures var o := Start(env);
            && GreedyTokens(env, o.toks) && Counts(env, o, [])
            && Clean(Concat([]), o.pending, env.stops) && Concat([]) + o.pending == Decoded(env, o.toks)
            && Stream.Run(R.Fresh(env.family), []) == R.Drained(R.Fresh(env.family), [])
            && EventsOf(env, []) == []
  {
    hide R.Fresh, Greedy;
    CleanStart(env.stops);
  }

  /** With no message marker behind a delimiter of the released text, the reasoning and the
      answer the caller gets are those of the released text taken whole. */
  lemma SplitOfReleasedText(env: Env)
    ensures var f := Finish(env, Start(env), []);
            var released := Concat(f.fed) + f.out.pending;
            Stream.StripFree(R.Fresh(env.family).Plus(released)) ==>
              && Stream.ReasoningOf(AllPieces(env, f)) == Stream.ParseStream(env.family, [released]).0
              && Stream.TextOf(AllPieces(env, f)) == Stream.ParseStream(env.family, [released]).1
  {
    hide Finish, R.Fresh, Stream.StripFree, Stream.Output, Stream.ReasoningOf, Stream.TextOf;
    var f := Finish(env, Start(env), []);
    var released := Concat(f.fed) + f.out.pending;
    Stream.CutsMatterExactly(env.family, released);
    ConcatSnoc(f.fed, f.out.pending);
    ConcatSnoc([], released);
    assert [] + [released] == [released];
    assert Concat([released]) == released;
  }

  /** The decoded text of the first tokens begins the whole. */
  lemma {:induction false} DecodedGrows(env: Env, toks: seq<Token>, k: nat)
    requires k <= |toks|
    ensures Decoded(env, toks[..k]) <= Decoded(env, toks)
  {
    if k < |toks| {
      var n := |toks| - 1;
      DecodedGrows(env, toks[..n], k);
      assert toks[..n][..k] == toks[..k];
    } else {
      assert toks[..k] == toks;
    }
  }

  lemma BestHasStop(s: string, stops: seq<string>, pos: nat, m: string)
    requires IsBest(s, stops, Some((pos, m)))
    ensures HasStop(s, stops)
  {
    var k :| 0 <= k < |stops| && stops[k] == m && m != "" && OccursAt(s, m, pos);
    assert StopAt(s, stops, pos);
  }

  lemma NoStopBefore(env: Env, toks: seq<Token>, k: nat)
    requires k <= |toks| && !HasStop(Decoded(env, toks), env.stops)
    ensures !HasStop(Decoded(env, toks[..k]), env.stops)
  {
    hide HasStop, Decoded;
    DecodedGrows(env, toks, k);
    var (a, whole) := (Decoded(env, toks[..k]), Decoded(env, toks));
    assert whole == a + whole[|a|..];
    if HasStop(a, env.stops) {
      StopsStay(a, whole[|a|..], env.stops);
      assert false;
    }
  }

  /** Generation stops for a stop string at the first token that completes one, and for any
      other reason only while the text has none. */
  lemma StopsAtFirstToken(env: Env, k: nat)
    requires k <= |Finish(env, Start(env), []).out.toks|
    ensures var f := Finish(env, Start(env), []);
      HasStop(Decoded(env, f.out.toks[..k]), env.stops) <==> (f.reason.StopString? && k == |f.out.toks|)
  {
    hide Finish, HasStop, IsBest, Decoded, Future, EndsFor, GreedyTokens, AllPieces, Concat;
    WholeGeneration(env);
    var f := Finish(env, Start(env), []);
    var toks := f.out.toks;
    assert toks[..|toks|] == toks;
    match f.reason
    case StopString(m) =>
      if k == |toks| {
        BestHasStop(Decoded(env, toks), env.stops, |Concat(f.fed) + f.out.pending|, m);
      } else {
        NoStopBefore(env, toks[..|toks| - 1], k);
        assert toks[..|toks| - 1][..k] == toks[..k];
      }
    case _ => NoStopBefore(env, toks, k);
  }
}
