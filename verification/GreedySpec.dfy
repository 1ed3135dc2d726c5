/** Plain greedy decoding as a function: one token at a time, no drafts, no batches, no KV
    cache. It is what the decode loop must deliver whatever its options are. */
module GreedySpec {
  import opened StopFilter
  import opened Ngram
  import R = Reasoning
  import Stream = ReasoningStream
  import B = Budget

  datatype StopReason = Eos | MaxTokens | StopString(matched: string)

  datatype Event =
    | TextEvent(s: string)
    | ReasoningEvent(s: string)
    | Usage(promptTokens: nat, generatedTokens: nat, reasoningTokens: nat)
    | Done(reason: StopReason)

  /** What a generation is about. `model` gives the logits after a token prefix; `piece`
      gives the text of a token after the tokens decoded before it. */
  datatype Env = Env(
    model: seq<Token> -> seq<Logit>,
    piece: (seq<Token>, Token) -> string,
    eos: Token,
    ignoreEos: bool,
    prompt: seq<Token>,
    maxTokens: nat,
    stops: seq<string>,
    family: R.Family,
    showReasoning: bool)
  {
    predicate Ends(t: Token) {
      t == eos && !ignoreEos
    }
  }

  /** The output side of a generation: committed tokens, text withheld for stop matching,
      the splitter, and the reasoning-token counter with its total. */
  datatype Out = Out(
    toks: seq<Token>,
    pending: string,
    parser: R.Parser,
    counter: B.Clock,
    reasoningTokens: nat)

  function Start(env: Env): Out {
    Out([], "", R.Fresh(env.family), B.COUNTER, 0)
  }

  /** The events the caller sees of some pieces. */
  function EventsOf(env: Env, pieces: seq<R.Piece>): seq<Event> {
    if pieces == [] then []
    else EventOf(env, pieces[0]) + EventsOf(env, pieces[1..])
  }

  function EventOf(env: Env, p: R.Piece): seq<Event> {
    match p
    case TextPiece(s) => if s != "" then [TextEvent(s)] else []
    case ReasoningPiece(s) => if s != "" && env.showReasoning then [ReasoningEvent(s)] else []
  }

  /** The events of the terminal state reached with `o`. */
  function Terminal(env: Env, o: Out, reason: StopReason): seq<Event> {
    var d := Stream.Push(o.parser, o.pending);
    EventsOf(env, d.out) + EventsOf(env, R.PieceOf(d.parser.inReason, d.parser.buf))
    + [Usage(|env.prompt|, |o.toks|, o.reasoningTokens), Done(reason)]
  }

  /** The number of generated tokens that the closing events report. */
  function Reported(evs: seq<Event>): nat {
    if |evs| >= 2 && evs[|evs| - 2].Usage? then evs[|evs| - 2].generatedTokens else 0
  }

  /** `o` with the piece of token `t` added to the withheld text. */
  function Take(env: Env, o: Out, t: Token): Out {
    o.(toks := o.toks + [t], pending := o.pending + env.piece(o.toks, t))
  }

  /** `o` after `emit` went to the splitter and `keep` is withheld. */
  function Release(o: Out, emit: string, keep: string): Out {
    var parser := Stream.Push(o.parser, emit).parser;
    var counter := o.counter.Observe(B.Seen(parser.inReason, parser.buf != ""));
    Out(o.toks, keep, parser, counter,
        B.SaturatingAdd(o.reasoningTokens, B.Increase(o.counter.counted, counter.counted)))
  }

  /** All events from `o` on. */
  function Future(env: Env, o: Out): seq<Event>
    decreases if |o.toks| < env.maxTokens then env.maxTokens - |o.toks| else 0
  {
    if |o.toks| >= env.maxTokens then Terminal(env, o, MaxTokens)
    else
      var t := Greedy(env.model(env.prompt + o.toks));
      if env.Ends(t) then Terminal(env, o, Eos)
      else
        var o' := Take(env, o, t);
        match SplitOf(o'.pending, env.stops)
        case Emit(emit, keep) =>
          EventsOf(env, Stream.Push(o'.parser, emit).out) + Future(env, Release(o', emit, keep))
        case Stop(before, m) => Terminal(env, o'.(pending := before), StopString(m))
  }

  /** All tokens that are committed in the end, from `o` on. */
  function Answer(env: Env, o: Out): (toks: seq<Token>)
    ensures o.toks <= toks && (|o.toks| <= env.maxTokens ==> |toks| <= env.maxTokens)
    decreases if |o.toks| < env.maxTokens then env.maxTokens - |o.toks| else 0
  {
    if |o.toks| >= env.maxTokens then o.toks
    else
      var t := Greedy(env.model(env.prompt + o.toks));
      if env.Ends(t) then o.toks
      else
        var o' := Take(env, o, t);
        match SplitOf(o'.pending, env.stops)
        case Emit(emit, keep) => Answer(env, Release(o', emit, keep))
        case Stop(_, _) => o'.toks
  }
}
