/** How much context a generation needs, and where drafting needs more. */
module Capacity {
  import opened Ngram
  import opened GreedySpec
  import opened GreedyTheorems
  import opened Room
  import opened Strings
  import G = Generation
  import R = Reasoning
  import SF = StopFilter
  import Stream = ReasoningStream

  lemma {:induction false} AnswerIsFinish(env: Env, o: Out, fed: seq<string>)
    ensures Answer(env, o) == Finish(env, o, fed).out.toks
    decreases if |o.toks| < env.maxTokens then env.maxTokens - |o.toks| else 0
  {
    hide Greedy, SF.SplitOf, Stream.Push;
    match OneStep(env, o)
    case Ended(_, _) =>
    case Continues(next, emit) => AnswerIsFinish(env, next, fed + [emit]);
  }

  /** The answer is the tokens of the finished generation, and the usage event counts them. */
  lemma ReportedIsTokens(env: Env)
    ensures Answer(env, Start(env)) == Finish(env, Start(env), []).out.toks
    ensures Reported(Future(env, Start(env))) == |Answer(env, Start(env))|
  {
    hide Finish, Future, Answer, ReleasedRight, EndsFor, GreedyTokens, AllPieces;
    WholeGeneration(env);
    AnswerIsFinish(env, Start(env), []);
    var f := Finish(env, Start(env), []);
    var closing := Closing(env, f);
    assert Future(env, Start(env)) == EventsOf(env, AllPieces(env, f)) + closing && |closing| == 2;
  }

  /** The room behind the prompt: without drafts one cell for each token of the answer, with
      drafts never fewer, and never more than `maxTokens`. */
  lemma RoomNeeded(env: Env, draftN: nat, nBatch: nat)
    ensures var answer := Answer(env, Start(env));
      Cells(env, answer, 0, 0, nBatch) == |answer| <= Cells(env, answer, 0, draftN, nBatch) <= env.maxTokens
  {
    hide Answer, Cells;
    CellsBounds(env, Answer(env, Start(env)), 0, draftN, nBatch);
    CellsPlain(env, Answer(env, Start(env)), 0, nBatch);
  }

  /** A model that says 1 after four tokens, and 0, the end, ever after. */
  function OneThenEnd(toks: seq<Token>): seq<Logit> {
    if |toks| <= 4 then [Finite(0.0), Finite(1.0)] else [Finite(1.0), Finite(0.0)]
  }

  function OnesEnv(): Env {
    Env(OneThenEnd, (_, _) => "x", 0, false, [1, 1, 1, 1], 4, [], R.Auto, true)
  }

  lemma OnesChoice(toks: seq<Token>)
    ensures Greedy(OneThenEnd(toks)) == if |toks| <= 4 then 1 else 0
  {
    ArgmaxOfTwo(Finite(0.0), Finite(1.0));
    ArgmaxOfTwo(Finite(1.0), Finite(0.0));
  }

  lemma ArgmaxOfTwo(a: Logit, b: Logit)
    ensures Greedy([a, b]) == if b.Above(a) then 1 else 0
  {
    var (logits, i) := ([a, b], if b.Above(a) then 1 else 0);
    assert IsArgmax(logits, i);
    ArgmaxUnique(logits, Greedy(logits), i);
  }

  predicate EndsInOnes(hist: seq<Token>) {
    |hist| >= 3 && hist[|hist| - 3] == hist[|hist| - 2] == hist[|hist| - 1] == 1
  }

  lemma {:induction false} OnesDraft(hist: seq<Token>, max: nat)
    requires EndsInOnes(hist)
    ensures |Drafts(map[(1, 1, 1) := 1], hist, max)| == max
    decreases max
  {
    if max > 0 {
      OnesDraft(hist + [1], max - 1);
    }
  }

  lemma OnesSeen()
    ensures Seen([1, 1, 1, 1]) == map[(1, 1, 1) := 1]
  {
    assert Seen([1, 1, 1, 1][..3]) == map[];
  }

  /** The answer is the single token 1. */
  lemma OnesAnswer()
    ensures Answer(OnesEnv(), Start(OnesEnv())) == [1]
  {
    hide Finish, Future, Answer, ReleasedRight, EndsFor, AllPieces, Greedy, R.Fresh;
    var env := OnesEnv();
    WholeGeneration(env);
    ReportedIsTokens(env);
    var toks := Answer(env, Start(env));
    OnesChoice(env.prompt);
    assert env.prompt + [] == env.prompt;
    G.AnswerNext(env, Start(env));
    assert |toks| >= 2 ==> toks[1] == Greedy(OneThenEnd(env.prompt + toks[..1])) && toks[1] != 0;
    if |toks| >= 2 {
      OnesChoice(env.prompt + toks[..1]);
      assert false;
    }
  }

  /**
    In a context of five cells plain decoding of this model is done after one token and fits.
    With drafts the first batch already has four tokens, which do not fit after the prompt.
   */
  lemma DraftsCanOverrun()
    ensures var (env, answer) := (OnesEnv(), Answer(OnesEnv(), Start(OnesEnv())));
      |env.prompt| + Cells(env, answer, 0, 0, 512) <= 5 < |env.prompt| + Cells(env, answer, 0, 3, 512)
  {
    hide Answer, Greedy, Seen, OneThenEnd, Drafts, Cells, StandingPart;
    var env := OnesEnv();
    OnesAnswer();
    RoomNeeded(env, 3, 512);
    OnesSeen();
    assert [1][..0] == [] && env.prompt + [] == [1, 1, 1, 1];
    OnesDraft([1, 1, 1, 1] + [1], 3);
    CellsStep(env, [1], 0, 3, 512, 3);
  }

  /** So the same request is answered without drafts and refused with them. */
  method AnsweredOnlyWithoutDrafts() returns (plain: Option<seq<Event>>, drafted: Option<seq<Event>>)
    ensures plain == Some(Future(OnesEnv(), Start(OnesEnv()))) && drafted == None
  {
    hide Answer, Future, Cells;
    DraftsCanOverrun();
    plain := G.Generate(OnesEnv(), 5, 512, false, 3, false);
    drafted := G.Generate(OnesEnv(), 5, 512, true, 3, false);
  }
}
