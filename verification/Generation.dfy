/** The decode loop: chunked prefill, greedy sampling, n-gram drafts checked against the
    model's own choice, KV trimming, stop filtering, and the event queue. */
module Generation {
  import opened Strings
  import opened StopFilter
  import opened Ngram
  import opened GreedySpec
  import opened Room
  import R = Reasoning
  import Stream = ReasoningStream
  import S = Splitter
  import B = Budget

  datatype BatchEntry = BatchEntry(tok: Token, pos: int, wantLogits: bool)

  function Tokens(batch: seq<BatchEntry>): (r: seq<Token>)
    ensures |r| == |batch|
  {
    seq(|batch|, k requires 0 <= k < |batch| => batch[k].tok)
  }

  function BatchOf(toks: seq<Token>, pos: int, all: bool): (r: seq<BatchEntry>)
    ensures |r| == |toks| && Tokens(r) == toks
  {
    seq(|toks|, k requires 0 <= k < |toks| => BatchEntry(toks[k], pos + k, all || k == |toks| - 1))
  }

  /** The inference context: the cells of the KV cache, in order, and the logits of the
      entries of the last batch that asked for them. */
  class LlamaContext {
    const model: seq<Token> -> seq<Logit>
    const nCtx: nat
    var kv: seq<Token>
    var logits: map<int, seq<Logit>>

    constructor (model: seq<Token> -> seq<Logit>, nCtx: nat)
      ensures this.model == model && this.nCtx == nCtx && kv == [] && logits == map[]
    {
      this.model, this.nCtx := model, nCtx;
      kv, logits := [], map[];
    }

    /** Fails, changing nothing, exactly when the cells run out. A batch must continue the
        cached positions. */
    method Decode(batch: seq<BatchEntry>) returns (ok: bool)
      requires forall k :: 0 <= k < |batch| ==> batch[k].pos == |kv| + k
      modifies this
      ensures ok == (|old(kv)| + |batch| <= nCtx)
      ensures !ok ==> kv == old(kv) && logits == old(logits)
      ensures ok ==> kv == old(kv) + Tokens(batch)
      ensures ok ==> forall k :: k in logits <==> 0 <= k < |batch| && batch[k].wantLogits
      ensures ok ==> forall k :: k in logits ==> logits[k] == model(old(kv) + Tokens(batch)[..k + 1])
    {
      ok := |kv| + |batch| <= nCtx;
      if ok {
        logits := map k | 0 <= k < |batch| && batch[k].wantLogits :: model(kv + Tokens(batch)[..k + 1]);
        kv := kv + Tokens(batch);
      }
    }

    /** Feed `toks` at position `pos`, asking for the logits of all of them or of the last. */
    method Feed(toks: seq<Token>, pos: int, all: bool) returns (ok: bool)
      requires toks != [] && pos == |kv|
      modifies this
      ensures ok == (|old(kv)| + |toks| <= nCtx)
      ensures !ok ==> kv == old(kv) && logits == old(logits)
      ensures ok ==> kv == old(kv) + toks
      ensures ok && all ==> forall k :: 0 <= k < |toks| ==> k in logits && logits[k] == model(old(kv) + toks[..k + 1])
      ensures ok && !all ==> logits == map[|toks| - 1 := model(old(kv) + toks)]
    {
      ok := Decode(BatchOf(toks, pos, all));
      assert toks[..|toks|] == toks;
    }

    method ClearKv()
      modifies this
      ensures kv == [] && logits == map[]
    {
      kv, logits := [], map[];
    }

    /** Drop the cells from position `keep` on. */
    method TrimFrom(keep: nat)
      requires keep <= |kv|
      modifies this`kv
      ensures kv == old(kv)[..keep]
    {
      kv := kv[..keep];
    }

    /** Load the state that a prefill of `prompt` in chunks of `size` left behind. */
    method Restore(prompt: seq<Token>, size: nat)
      requires 0 < size && prompt != [] && |prompt| <= nCtx
      modifies this
      ensures kv == prompt && logits == map[LastChunk(|prompt|, size) - 1 := model(prompt)]
    {
      kv := prompt;
      logits := map[LastChunk(|prompt|, size) - 1 := model(prompt)];
    }
  }

  /** Length of the last chunk when `n` tokens are fed `size` at a time. */
  function LastChunk(n: nat, size: nat): (len: nat)
    requires 0 < size
    ensures len <= n && len <= size && (0 < n ==> 0 < len)
  {
    if n <= size then n else LastChunk(n - size, size)
  }

  function BatchSize(nBatch: nat): (size: nat)
    ensures 0 < size
  {
    if nBatch > 1 then nBatch else 1
  }

  /** The closed form used when the prefill is skipped. */
  function LastPrefillIdx(n: nat, nBatch: nat): int {
    var size := BatchSize(nBatch);
    if n == 0 then 0
    else
      var rem := n % size;
      var chunk := if rem == 0 then (if size < n then size else n) else rem;
      chunk - 1
  }

  /** It is the index the chunked prefill leaves. */
  lemma LastPrefillIdxIsLoop(n: nat, nBatch: nat)
    requires 0 < n
    ensures LastPrefillIdx(n, nBatch) == LastChunk(n, BatchSize(nBatch)) - 1
  {
    var size := BatchSize(nBatch);
    var k := LastChunkLeaves(n, size);
    var len := LastChunk(n, size);
    if len < size {
      Remainder(n, size, k, len);
    } else {
      Remainder(n, size, k + 1, 0);
    }
  }

  lemma {:induction false} LastChunkLeaves(n: nat, size: nat) returns (k: nat)
    requires 0 < size
    ensures n == k * size + LastChunk(n, size)
  {
    if n <= size {
      k := 0;
    } else {
      var k' := LastChunkLeaves(n - size, size);
      k := k' + 1;
      assert k * size == k' * size + size;
    }
  }

  lemma Remainder(n: nat, size: nat, q: nat, r: nat)
    requires 0 < size && r < size && n == q * size + r
    ensures n % size == r
  {
    var (q', r') := (n / size, n % size);
    Euclid(n, size);
    SameQuotient(size, q, r, q', r');
  }

  lemma Euclid(n: nat, size: nat)
    requires 0 < size
    ensures n == (n / size) * size + n % size && 0 <= n % size < size
  {
  }

  lemma SameQuotient(size: nat, q: int, r: nat, q': int, r': nat)
    requires r < size && r' < size && q * size + r == q' * size + r'
    ensures r == r'
  {
    assert (q - q') * size == r' - r;
    MultipleIsFar(q - q', size);
  }

  lemma MultipleIsFar(d: int, size: nat)
    ensures d >= 1 ==> d * size >= size
    ensures d <= -1 ==> d * size + size <= 0
  {
  }

  lemma {:induction false} LastChunkAfter(n: nat, size: nat, k: nat)
    requires 0 < size && k * size < n <= (k + 1) * size
    ensures LastChunk(n, size) == n - k * size
  {
    if k > 0 {
      assert (k - 1) * size == k * size - size;
      LastChunkAfter(n - size, size, k - 1);
    }
  }

  // ---- the generation ---------------------------------------------------------------

  datatype Item = End | Got(ev: Event) | Failed

  /** A fresh draft cache, which knows the prompt if drafting is on. */
  method CacheOf(ngram: bool, prompt: seq<Token>) returns (c: NgramCache)
    ensures fresh(c) && (ngram ==> c.entries == Seen(prompt))
  {
    c := new NgramCache();
    if ngram {
      c.Ingest(prompt);
    }
  }

  class Generation {
    const env: Env
    const ctx: LlamaContext
    const nBatch: nat
    const cacheHit: bool
    const reason: S.ReasoningParser
    const reasonCounter: B.BudgetClock
    /** Drafting is on; then `cache` and `hist` are in use. */
    const ngram: bool
    const draftN: nat
    const cache: NgramCache
    var hist: seq<Token>
    /** The sampler is alive until a terminal state is queued. */
    var sampling: bool
    var prefillChunk: nat
    var nPast: int
    var lastIdx: int
    /** The tokens the piece decoder has been fed. */
    var decoder: seq<Token>
    var generated: nat
    var pending: string
    var reasoningTokens: nat
    var ready: seq<Event>
    var terminal: seq<Event>

    function Output(): Out
      reads this`decoder, this`pending, this`reasoningTokens, reason, reasonCounter
    {
      Out(decoder, pending, reason.State(), reasonCounter.State(), reasoningTokens)
    }

    /** All events still to be delivered, according to plain greedy decoding. */
    ghost function Remaining(): seq<Event>
      reads this`decoder, this`pending, this`reasoningTokens, this`ready, this`terminal, this`sampling
      reads reason, reasonCounter
    {
      ready + terminal + if sampling then Future(env, Output()) else []
    }

    predicate PrefillDone()
      reads this`prefillChunk
    {
      cacheHit || prefillChunk * BatchSize(nBatch) >= |env.prompt|
    }

    /** The output side is consistent. */
    ghost predicate OutValid()
      reads this`decoder, this`generated, this`sampling, this`terminal, this`hist, reason, cache
    {
      && reason.Valid()
      && generated == |decoder|
      && (sampling ==> terminal == [])
      && (ngram ==> hist == env.prompt + decoder && cache.entries == Seen(hist))
    }

    /** The KV is the prompt and then `toks`, and the logits to sample from are the model's
        logits after exactly these. */
    ghost predicate KvHolds(toks: seq<Token>)
      reads this`nPast, this`lastIdx, ctx
    {
      && nPast == |ctx.kv| <= ctx.nCtx && ctx.kv == env.prompt + toks
      && lastIdx in ctx.logits && ctx.logits[lastIdx] == env.model(ctx.kv)
    }

    /** While sampling: during the prefill the KV holds the chunks fed so far; afterwards it
        holds the prompt and the committed tokens. */
    ghost predicate KvValid()
      reads this`nPast, this`lastIdx, this`prefillChunk, this`decoder, ctx
    {
      && env.prompt != [] && ctx.model == env.model
      && if PrefillDone() then KvHolds(decoder)
         else
           && nPast == |ctx.kv| <= ctx.nCtx && decoder == []
           && ctx.kv == env.prompt[..prefillChunk * BatchSize(nBatch)]
    }

    ghost predicate Valid()
      reads this, ctx, reason, cache
    {
      OutValid() && generated <= env.maxTokens && if sampling then KvValid() else |env.prompt| <= ctx.nCtx
    }

    /** All tokens committed in the end, according to plain greedy decoding. */
    ghost function Committed(): seq<Token>
      reads this`decoder, this`pending, this`reasoningTokens, this`sampling, reason, reasonCounter
    {
      if sampling then Answer(env, Output()) else decoder
    }

    function DraftLimit(): nat {
      if ngram then draftN else 0
    }

    /** There is room for the prompt and for every batch still to be decoded. */
    ghost predicate Fits()
      reads this`decoder, this`pending, this`reasoningTokens, this`sampling, reason, reasonCounter
    {
      |env.prompt| + Cells(env, Committed(), |decoder|, DraftLimit(), nBatch) <= ctx.nCtx
    }

    constructor (env: Env, ctx: LlamaContext, nBatch: nat, ngram: bool, draftN: nat, cacheHit: bool)
      requires env.prompt != [] && ctx.model == env.model
      requires cacheHit ==> (ctx.kv == env.prompt && |env.prompt| <= ctx.nCtx
        && ctx.logits == map[LastChunk(|env.prompt|, BatchSize(nBatch)) - 1 := env.model(env.prompt)])
      modifies ctx
      ensures Valid() && fresh(reason) && fresh(reasonCounter) && fresh(cache)
      ensures this.env == env && this.ctx == ctx && this.ngram == ngram && sampling && Output() == Start(env)
      ensures this.nBatch == nBatch && this.draftN == draftN
      ensures Remaining() == Future(env, Start(env))
    {
      hide Future, Answer, Seen, R.GoodTable, LastChunk, LastPrefillIdx, BatchSize, R.Pairs, R.Fresh;
      if !cacheHit {
        ctx.ClearKv();
      }
      this.env, this.ctx, this.nBatch, this.cacheHit := env, ctx, nBatch, cacheHit;
      this.ngram, this.draftN := ngram, draftN;
      reason := new S.ReasoningParser(env.family);
      reasonCounter := new B.BudgetClock(B.U32_MAX, 0);
      var c := CacheOf(ngram, env.prompt);
      cache := c;
      hist := env.prompt;
      sampling := true;
      prefillChunk := 0;
      nPast := if cacheHit then |env.prompt| else 0;
      lastIdx := if cacheHit then LastPrefillIdx(|env.prompt|, nBatch) else 0;
      decoder, generated, pending, reasoningTokens := [], 0, "", 0;
      ready, terminal := [], [];
      new;
      LastPrefillIdxIsLoop(|env.prompt|, nBatch);
      assert env.prompt + [] == env.prompt;
      assert OutValid() && KvValid();
      assert [] + [] + Future(env, Start(env)) == Future(env, Start(env));
    }

    /** Decode one prompt chunk. */
    method PrefillStep() returns (ok: bool)
      requires KvValid() && !PrefillDone()
      modifies ctx, this`nPast, this`lastIdx, this`prefillChunk
      ensures KvValid()
      ensures !ok ==> |env.prompt| > ctx.nCtx && prefillChunk == old(prefillChunk)
      ensures ok ==> prefillChunk == old(prefillChunk) + 1
      ensures ok && PrefillDone() ==>
        ctx.logits == map[LastChunk(|env.prompt|, BatchSize(nBatch)) - 1 := env.model(env.prompt)]
    {
      var size := BatchSize(nBatch);
      var start := prefillChunk * size;
      var end := if start + size < |env.prompt| then start + size else |env.prompt|;
      ok := ctx.Feed(env.prompt[start..end], nPast, false);
      if !ok {
        return;
      }
      nPast := nPast + (end - start);
      lastIdx := end - start - 1;
      prefillChunk := prefillChunk + 1;
      ChunksJoin(env.prompt, start, end);
      NextChunk(prefillChunk - 1, size);
      if PrefillDone() {
        LastChunkAfter(|env.prompt|, size, prefillChunk - 1);
      }
    }

    /** Pass a piece to the caller's queue. */
    method EnqueuePiece(p: R.Piece)
      modifies this`ready
      ensures ready == old(ready) + EventOf(env, p)
    {
      match p
      case TextPiece(s) =>
        if s != "" {
          ready := ready + [TextEvent(s)];
        }
      case ReasoningPiece(s) =>
        if s != "" && env.showReasoning {
          ready := ready + [ReasoningEvent(s)];
        }
    }

    method EnqueuePieces(pieces: seq<R.Piece>)
      modifies this`ready
      ensures ready == old(ready) + EventsOf(env, pieces)
    {
      for k := 0 to |pieces|
        invariant ready + EventsOf(env, pieces[k..]) == old(ready) + EventsOf(env, pieces)
      {
        assert pieces[k..][1..] == pieces[k + 1..];
        EnqueuePiece(pieces[k]);
      }
    }

    method EnqueueParsed(s: string)
      requires reason.Valid()
      modifies reason, this`ready
      ensures reason.Valid() && reason.State() == Stream.Push(old(reason.State()), s).parser
      ensures ready == old(ready) + EventsOf(env, Stream.Push(old(reason.State()), s).out)
    {
      if s == "" {
        return;
      }
      var pieces := reason.Push(s);
      EnqueuePieces(pieces);
    }

    /** Everything withheld goes through the splitter, and its held tail out with it. */
    method DrainToReady()
      requires reason.Valid()
      modifies reason, this`ready, this`pending
      ensures reason.Valid()
      ensures var d := Stream.Push(old(reason.State()), old(pending));
              ready == old(ready) + (EventsOf(env, d.out) + EventsOf(env, R.PieceOf(d.parser.inReason, d.parser.buf)))
    {
      hide Stream.Push, R.GoodTable, R.PieceOf, EventsOf;
      var text := pending;
      pending := "";
      EnqueueParsed(text);
      var pieces := reason.Flush();
      EnqueuePieces(pieces);
    }

    method QueueTerminal(why: StopReason)
      requires OutValid() && sampling
      modifies reason, this`ready, this`terminal, this`pending, this`sampling
      ensures OutValid() && !sampling
      ensures ready == [] && terminal == old(ready) + Terminal(env, old(Output()), why)
    {
      hide Stream.Push, R.GoodTable, R.PieceOf, EventsOf;
      DrainToReady();
      ready, terminal := [], ready + terminal;
      sampling := false;
      terminal := terminal + [Usage(|env.prompt|, generated, reasoningTokens), Done(why)];
    }

    method ObserveBudget()
      modifies reasonCounter, this`reasoningTokens
      ensures reasonCounter.State() == old(reasonCounter.State()).Observe(B.Seen(reason.inReason, reason.buf != ""))
      ensures reasoningTokens == B.SaturatingAdd(old(reasoningTokens),
                B.Increase(old(reasonCounter.counted), reasonCounter.counted))
    {
      var before := reasonCounter.counted;
      reasonCounter.Observe(reason.inReason, reason.HoldingPartial());
      reasoningTokens := B.SaturatingAdd(reasoningTokens, B.Increase(before, reasonCounter.counted));
    }

    /** Decode `t` to text, count it, and let the draft cache learn it. */
    method TakeToken(t: Token)
      requires OutValid() && sampling
      modifies cache, this`pending, this`decoder, this`generated, this`hist
      ensures OutValid() && Output() == Take(env, old(Output()), t) && generated == old(generated) + 1
    {
      hide R.GoodTable, Seen;
      var piece := env.piece(decoder, t);
      decoder := decoder + [t];
      generated := generated + 1;
      if ngram {
        cache.Learn(hist, t);
        hist := hist + [t];
      }
      pending := pending + piece;
    }

    /** Hand `emit` to the splitter, withhold `keep`, and count reasoning tokens. */
    method ReleaseText(emit: string, keep: string)
      requires OutValid() && sampling
      modifies reason, reasonCounter, this`ready, this`pending, this`reasoningTokens
      ensures OutValid() && Output() == Release(old(Output()), emit, keep)
      ensures ready == old(ready) + EventsOf(env, Stream.Push(old(reason.State()), emit).out)
    {
      hide Stream.Push, R.GoodTable;
      pending := keep;
      EnqueueParsed(emit);
      ObserveBudget();
    }

    /** Take a token that does not end the generation, and release the text it completes. */
    method AbsorbText(t: Token) returns (stopped: bool)
      requires OutValid() && sampling && t == Greedy(env.model(env.prompt + decoder))
      requires generated < env.maxTokens && !env.Ends(t)
      modifies reason, reasonCounter, cache, this`ready, this`terminal, this`pending, this`sampling,
               this`decoder, this`generated, this`hist, this`reasoningTokens
      ensures OutValid() && Remaining() == old(Remaining()) && Committed() == old(Committed())
      ensures stopped == !sampling
      ensures decoder == old(decoder) + [t]
    {
      hide Future, Answer, Stream.Push, R.GoodTable, S.ReasoningParser.Valid, Terminal, Seen, SplitOf, Greedy, Release;
      ghost var o := Output();
      TakeToken(t);
      var split := SplitEmit(pending, env.stops);
      match split
      case Emit(emit, keep) =>
        FutureEmit(env, o, t, emit, keep);
        ReleaseText(emit, keep);
        Requeued(old(ready), EventsOf(env, Stream.Push(Take(env, o, t).parser, emit).out), Future(env, Output()));
        stopped := false;
      case Stop(before, m) =>
        FutureStop(env, o, t, before, m);
        pending := before;
        QueueTerminal(StopString(m));
        Requeued(old(ready), terminal[|old(ready)|..], []);
        stopped := true;
    }

    /** Commit one token that is in the KV cache already. What is still to come, queued or
        not, is the same before and after. */
    method Absorb(t: Token) returns (stopped: bool)
      requires OutValid() && sampling && t == Greedy(env.model(env.prompt + decoder))
      requires generated < env.maxTokens || !env.Ends(t)
      modifies reason, reasonCounter, cache, this`ready, this`terminal, this`pending, this`sampling,
               this`decoder, this`generated, this`hist, this`reasoningTokens
      ensures OutValid() && Remaining() == old(Remaining()) && Committed() == old(Committed())
      ensures stopped == !sampling
      ensures old(generated) < env.maxTokens ==> generated <= env.maxTokens
      ensures !stopped ==> decoder == old(decoder) + [t]
      ensures |decoder| <= |old(decoder)| + 1
    {
      hide Future, Answer, Stream.Push, R.GoodTable, S.ReasoningParser.Valid, Terminal, Seen, SplitOf, Greedy, Release;
      ghost var o := Output();
      if env.Ends(t) {
        QueueTerminal(Eos);
        FutureEos(env, o);
        return true;
      }
      if generated >= env.maxTokens {
        QueueTerminal(MaxTokens);
        FutureMax(env, o);
        return true;
      }
      stopped := AbsorbText(t);
    }

    /** `tok` and the drafts after it; never more than may still be committed. */
    method DraftAfter(tok: Token) returns (batch: seq<Token>)
      requires OutValid() && generated < env.maxTokens
      ensures batch == DraftBatch(env, decoder, tok, DraftLimit(), nBatch)
    {
      batch := [tok];
      if ngram {
        var room := env.maxTokens - (generated + 1);
        var cap := if nBatch > 0 then nBatch - 1 else 0;
        var max := if room < draftN then room else draftN;
        var drafts := cache.Draft(hist + [tok], if max < cap then max else cap);
        batch := batch + drafts;
      }
    }

    /** How many tokens of the batch stand: each draft up to there is the model's choice. */
    method CountAccepted(batch: seq<Token>) returns (accepted: nat)
      requires batch != [] && forall k :: 0 <= k < |batch| ==> k in ctx.logits
      ensures 1 <= accepted <= |batch|
      ensures forall k :: 0 < k < accepted ==> batch[k] == Greedy(ctx.logits[k - 1])
      ensures accepted < |batch| ==> batch[accepted] != Greedy(ctx.logits[accepted - 1])
    {
      accepted := 1;
      for i := 0 to |batch| - 1
        invariant accepted == i + 1
        invariant forall k :: 0 < k < accepted ==> batch[k] == Greedy(ctx.logits[k - 1])
      {
        var best := ArgmaxI32(ctx.logits[i]);
        if best != batch[i + 1] {
          break;
        }
        accepted := accepted + 1;
      }
    }

    /** Decode `tok` and drafts in one batch, keep what the model agrees with, and trim the
        rest from the KV cache. */
    method DecodeBatch(tok: Token) returns (ok: bool, kept: seq<Token>)
      requires OutValid() && KvValid() && PrefillDone() && generated < env.maxTokens
      requires tok == Greedy(env.model(ctx.kv))
      modifies ctx, this`nPast, this`lastIdx
      ensures ok <==> |old(ctx.kv)| + |DraftBatch(env, decoder, tok, DraftLimit(), nBatch)| <= ctx.nCtx
      ensures !ok ==> KvValid()
      ensures ok ==> kept == StandingPart(env, decoder, DraftBatch(env, decoder, tok, DraftLimit(), nBatch))
      ensures ok ==> |kept| <= env.maxTokens - generated
      ensures ok ==> forall k :: 0 <= k < |kept| ==> kept[k] == Greedy(env.model(env.prompt + decoder + kept[..k]))
      ensures ok ==> KvHolds(decoder + kept)
    {
      hide Greedy, Seen, S.ReasoningParser.Valid, DraftBatch, DraftLimit, StandingPart, PrefillDone, BatchSize;
      var batch := DraftAfter(tok);
      ok := ctx.Feed(batch, nPast, true);
      if !ok {
        kept := [];
        return;
      }
      var accepted := CountAccepted(batch);
      kept := batch[..accepted];
      KeptStands(env, decoder, batch, accepted, ctx.logits);
      KeptPart(env.prompt, decoder, batch, accepted);
      if accepted < |batch| {
        ctx.TrimFrom(nPast + accepted);
      }
      nPast := nPast + accepted;
      lastIdx := accepted - 1;
    }

    /** The loop over the tokens that stand and are in the KV cache already. */
    method AbsorbAll(kept: seq<Token>) returns (stopped: bool)
      requires OutValid() && sampling && generated + |kept| <= env.maxTokens
      requires PrefillDone() && KvHolds(decoder + kept) && env.prompt != [] && ctx.model == env.model
      requires forall k :: 0 <= k < |kept| ==> kept[k] == Greedy(env.model(env.prompt + decoder + kept[..k]))
      modifies reason, reasonCounter, cache, this`ready, this`terminal, this`pending, this`sampling,
               this`decoder, this`generated, this`hist, this`reasoningTokens
      ensures Valid() && Remaining() == old(Remaining()) && Committed() == old(Committed())
      ensures stopped == !sampling
      ensures !stopped ==> decoder == old(decoder) + kept
      ensures |decoder| <= |old(decoder)| + |kept|
    {
      hide Greedy, Seen, S.ReasoningParser.Valid, Future, Answer, PrefillDone;
      assert |env.prompt| <= ctx.nCtx;
      ghost var d := decoder;
      for k := 0 to |kept|
        invariant OutValid() && sampling && Remaining() == old(Remaining()) && Committed() == old(Committed())
        invariant decoder == d + kept[..k]
      {
        CommittedSoFar(env.prompt, d, kept, k);
        stopped := Absorb(kept[k]);
        if stopped {
          return;
        }
      }
      CommittedSoFar(env.prompt, d, kept, |kept|);
      stopped := false;
    }

    /** Decode `tok` with drafts and commit all tokens that stand. */
    method CommitTokens(tok: Token) returns (ok: bool)
      requires Valid() && sampling && PrefillDone() && generated < env.maxTokens
      requires tok == Greedy(env.model(ctx.kv)) && !env.Ends(tok)
      modifies this, ctx, reason, reasonCounter, cache
      ensures Valid() && Remaining() == old(Remaining()) && prefillChunk == old(prefillChunk)
      ensures Fits() == old(Fits())
      ensures !ok ==> !Fits()
      ensures ok && sampling ==> generated > old(generated)
    {
      hide Greedy, Seen, S.ReasoningParser.Valid, Future, Answer, PrefillDone, BatchSize;
      hide DraftBatch, DraftLimit, StandingPart, Cells;
      ghost var (answer, p) := (Committed(), |decoder|);
      ghost var room := ctx.nCtx - |env.prompt|;
      ghost var batch := DraftBatch(env, decoder, tok, DraftLimit(), nBatch);
      ghost var next := p + |StandingPart(env, decoder, batch)|;
      AnswerNext(env, Output());
      CellsStep(env, answer, p, DraftLimit(), nBatch, room);
      assert Fits() <==> p + |batch| <= room && Cells(env, answer, next, DraftLimit(), nBatch) <= room;
      assert |ctx.kv| == |env.prompt| + p && ctx.model == env.model;
      var kept: seq<Token>;
      ok, kept := DecodeBatch(tok);
      if !ok {
        return;
      }
      assert p + |kept| == next && 0 <= p + |batch| <= room;
      CellsDone(env, answer, |answer|, DraftLimit(), nBatch);
      CellsDone(env, answer, next, DraftLimit(), nBatch);
      var stopped := AbsorbAll(kept);
      assert Cells(env, answer, |decoder|, DraftLimit(), nBatch) == Cells(env, answer, next, DraftLimit(), nBatch);
    }

    /** Sample the next token from the logits of the last decoded position and commit it. */
    method DecodeStep() returns (ok: bool)
      requires Valid() && sampling && PrefillDone()
      modifies this, ctx, reason, reasonCounter, cache
      ensures Valid() && Remaining() == old(Remaining()) && prefillChunk == old(prefillChunk)
      ensures Fits() == old(Fits())
      ensures !ok ==> !Fits()
      ensures ok && sampling ==> generated > old(generated)
    {
      hide Greedy, Seen, S.ReasoningParser.Valid, Future, Answer, Terminal, Stream.Push, Cells;
      ghost var o := Output();
      if generated >= env.maxTokens {
        QueueTerminal(MaxTokens);
        FutureMax(env, o);
        return true;
      }
      var tok := ArgmaxI32(ctx.logits[lastIdx]);
      if env.Ends(tok) {
        QueueTerminal(Eos);
        FutureEos(env, o);
        return true;
      }
      ok := CommitTokens(tok);
    }

    /** Serve a queued event, the terminal ones last. */
    method Pop() returns (item: Item)
      requires ready != [] || (terminal != [] && !sampling)
      modifies this`ready, this`terminal
      ensures item.Got? && old(Remaining()) == [item.ev] + Remaining()
      ensures terminal == [] || old(terminal) != []
    {
      hide Future;
      if ready != [] {
        item := Got(ready[0]);
        ready := ready[1..];
      } else {
        item := Got(terminal[0]);
        terminal := terminal[1..];
      }
    }

    /** The next event. Nothing is lost, added or reordered: what remained before is what is
        returned and then what remains. */
    method Next() returns (item: Item)
      requires Valid()
      modifies this, ctx, reason, reasonCounter, cache
      ensures Valid()
      ensures Fits() == old(Fits())
      ensures item.Failed? ==> !Fits() && Remaining() == old(Remaining())
      ensures item.End? ==> Fits() && old(Remaining()) == []
      ensures item.Got? ==> old(Remaining()) == [item.ev] + Remaining()
    {
      hide Seen, S.ReasoningParser.Valid, Future, Answer, BatchSize, Cells;
      while true
        invariant Valid() && Remaining() == old(Remaining()) && Fits() == old(Fits())
        decreases sampling, if PrefillDone() then 0 else |env.prompt| - prefillChunk, env.maxTokens - generated
      {
        if ready != [] || terminal != [] {
          item := Pop();
          return;
        }
        if !sampling {
          CellsDone(env, decoder, |decoder|, DraftLimit(), nBatch);
          return End;
        }
        if !PrefillDone() {
          ChunkBound(prefillChunk, BatchSize(nBatch), |env.prompt|);
          var ok := PrefillStep();
          if !ok {
            return Failed;
          }
          continue;
        }
        var ok := DecodeStep();
        if !ok {
          return Failed;
        }
      }
    }

    /** All events up to the end; it gets there exactly when every batch fits. */
    method Collect() returns (ok: bool, events: seq<Event>)
      requires Valid()
      modifies this, ctx, reason, reasonCounter, cache
      ensures ok ==> events == old(Remaining())
      ensures ok <==> old(Fits())
    {
      hide *;
      events := [];
      while true
        invariant Valid() && old(Remaining()) == events + Remaining() && Fits() == old(Fits())
        decreases |Remaining()|
      {
        var item := Next();
        match item
        case End => return true, events;
        case Got(ev) => events := events + [ev];
        case Failed => return false, events;
      }
    }
  }

  /** A whole generation, from a fresh context or from a restored prompt. For every model,
      prompt, batch size, draft length and with or without drafts, what comes out is what
      plain greedy decoding gives; and it comes out exactly when the prompt and each of the
      batches fit into the context. */
  method Generate(env: Env, nCtx: nat, nBatch: nat, ngram: bool, draftN: nat, cached: bool)
    returns (r: Option<seq<Event>>)
    requires env.prompt != [] && (cached ==> |env.prompt| <= nCtx)
    ensures r.Some? ==> r.value == Future(env, Start(env))
    ensures r.Some? <==>
      |env.prompt| + Cells(env, Answer(env, Start(env)), 0, if ngram then draftN else 0, nBatch) <= nCtx
  {
    hide Seen, S.ReasoningParser.Valid, Future, Answer, Start, Cells;
    var ctx := new LlamaContext(env.model, nCtx);
    if cached {
      ctx.Restore(env.prompt, BatchSize(nBatch));
    }
    var g := new Generation(env, ctx, nBatch, ngram, draftN, cached);
    StartHasNoTokens(env);
    var ok, events := g.Collect();
    r := if ok then Some(events) else None;
  }

  lemma StartHasNoTokens(env: Env)
    ensures Start(env).toks == []
  {
  }

  lemma ChunkBound(k: nat, size: nat, n: nat)
    requires 0 < size && k * size < n
    ensures k < n
  {
    assert k * size >= k;
  }

  lemma KeptPart(prompt: seq<Token>, toks: seq<Token>, batch: seq<Token>, accepted: nat)
    requires accepted <= |batch|
    ensures (prompt + toks + batch)[..|prompt + toks| + accepted] == prompt + (toks + batch[..accepted])
    ensures accepted == |batch| ==> prompt + toks + batch == prompt + (toks + batch[..accepted])
    ensures 0 < accepted ==> prompt + toks + batch[..accepted - 1 + 1] == prompt + (toks + batch[..accepted])
  {
  }

  /** What counting accepted is the part of the batch that stands, and all of it is greedy. */
  lemma KeptStands(env: Env, toks: seq<Token>, batch: seq<Token>, accepted: nat, logits: map<int, seq<Logit>>)
    requires 1 <= accepted <= |batch| && batch[0] == Greedy(env.model(env.prompt + toks))
    requires forall k :: 0 <= k < |batch| ==> k in logits && logits[k] == env.model(env.prompt + toks + batch[..k + 1])
    requires forall k :: 0 < k < accepted ==> batch[k] == Greedy(logits[k - 1])
    requires accepted < |batch| ==> batch[accepted] != Greedy(logits[accepted - 1])
    ensures batch[..accepted] == StandingPart(env, toks, batch)
    ensures forall k :: 0 <= k < accepted ==>
      batch[..accepted][k] == Greedy(env.model(env.prompt + toks + batch[..accepted][..k]))
  {
    hide Greedy, Standing;
    assert forall i :: 0 < i <= accepted ==> batch[..i] == batch[..i - 1 + 1];
    StandingIs(env, toks, batch, 1, accepted);
    forall k | 0 <= k < accepted
      ensures batch[k] == Greedy(env.model(env.prompt + toks + batch[..accepted][..k]))
    {
      assert batch[..accepted][..k] == batch[..k];
      if k == 0 {
        assert env.prompt + toks + batch[..0] == env.prompt + toks;
      }
    }
  }

  lemma CommittedSoFar(prompt: seq<Token>, d: seq<Token>, kept: seq<Token>, k: nat)
    requires k <= |kept|
    ensures prompt + (d + kept[..k]) == prompt + d + kept[..k]
    ensures k == 0 ==> d + kept[..k] == d
    ensures k == |kept| ==> kept[..k] == kept
    ensures k < |kept| ==> d + kept[..k + 1] == d + kept[..k] + [kept[k]]
  {
  }

  lemma Requeued(ready: seq<Event>, next: seq<Event>, rest: seq<Event>)
    ensures ready + [] + (next + rest) == (ready + next) + [] + rest
    ensures [] + (ready + next) + [] == ready + [] + next && (ready + next)[|ready|..] == next
  {
  }

  /** The sampled token is the answer's next. */
  lemma AnswerNext(env: Env, o: Out)
    requires |o.toks| < env.maxTokens && !env.Ends(Greedy(env.model(env.prompt + o.toks)))
    ensures var (answer, p) := (Answer(env, o), |o.toks|);
      p < |answer| && answer[..p] == o.toks && answer[p] == Greedy(env.model(env.prompt + o.toks))
  {
    hide Greedy, SplitOf, Stream.Push;
    var t := Greedy(env.model(env.prompt + o.toks));
    var o' := Take(env, o, t);
    assert o'.toks <= Answer(env, o);
    assert o'.toks[|o.toks|] == t;
  }

  lemma FutureMax(env: Env, o: Out)
    requires |o.toks| >= env.maxTokens
    ensures Future(env, o) == Terminal(env, o, MaxTokens)
    ensures Answer(env, o) == o.toks
  {
  }

  lemma FutureEos(env: Env, o: Out)
    requires |o.toks| < env.maxTokens && env.Ends(Greedy(env.model(env.prompt + o.toks)))
    ensures Future(env, o) == Terminal(env, o, Eos)
    ensures Answer(env, o) == o.toks
  {
  }

  lemma FutureEmit(env: Env, o: Out, t: Token, emit: string, keep: string)
    requires |o.toks| < env.maxTokens && t == Greedy(env.model(env.prompt + o.toks)) && !env.Ends(t)
    requires SplitOf(Take(env, o, t).pending, env.stops) == Emit(emit, keep)
    ensures Future(env, o) == EventsOf(env, Stream.Push(Take(env, o, t).parser, emit).out)
                            + Future(env, Release(Take(env, o, t), emit, keep))
    ensures Answer(env, o) == Answer(env, Release(Take(env, o, t), emit, keep))
  {
  }

  lemma FutureStop(env: Env, o: Out, t: Token, before: string, m: string)
    requires |o.toks| < env.maxTokens && t == Greedy(env.model(env.prompt + o.toks)) && !env.Ends(t)
    requires SplitOf(Take(env, o, t).pending, env.stops) == Stop(before, m)
    ensures Future(env, o) == Terminal(env, Take(env, o, t).(pending := before), StopString(m))
    ensures Answer(env, o) == o.toks + [t]
  {
  }

  lemma NextChunk(k: nat, size: nat)
    ensures (k + 1) * size == k * size + size
  {
  }

  lemma ChunksJoin(s: seq<Token>, start: nat, end: nat)
    requires start <= end <= |s|
    ensures s[..start] + s[start..end] == s[..end]
    ensures end == |s| ==> s[..end] == s + [] && s[..end] == s
  {
  }
}
