/** The cells that a generation with drafts needs: its batches, and how much of each stands. */
module Room {
  import opened Ngram
  import opened GreedySpec

  /** A token and the drafts the cache has for the text so far. */
  function DraftBatch(env: Env, toks: seq<Token>, tok: Token, draftN: nat, nBatch: nat): (batch: seq<Token>)
    ensures batch != [] && batch[0] == tok
    ensures |toks| < env.maxTokens ==> |toks| + |batch| <= env.maxTokens
    ensures |batch| <= 1 + draftN && (|batch| <= nBatch || |batch| == 1)
  {
    var room := if |toks| < env.maxTokens then env.maxTokens - (|toks| + 1) else 0;
    var cap := if nBatch > 0 then nBatch - 1 else 0;
    var max := if room < draftN then room else draftN;
    var hist := env.prompt + toks;
    [tok] + Drafts(Seen(hist), hist + [tok], if max < cap then max else cap)
  }

  /** Of the first `k` tokens of a batch, which stand, on to the first draft that is not the
      model's own choice: how many stand. */
  function Standing(env: Env, toks: seq<Token>, batch: seq<Token>, k: nat): (n: nat)
    requires 1 <= k <= |batch|
    ensures k <= n <= |batch|
    decreases |batch| - k
  {
    if k < |batch| && batch[k] == Greedy(env.model(env.prompt + toks + batch[..k])) then
      Standing(env, toks, batch, k + 1)
    else k
  }

  /** The part of a batch that stands. */
  function StandingPart(env: Env, toks: seq<Token>, batch: seq<Token>): (kept: seq<Token>)
    requires batch != []
    ensures kept != [] && kept[0] == batch[0]
  {
    batch[..Standing(env, toks, batch, 1)]
  }

  /** The most cells behind the prompt that any batch asks for, when `answer` is what will be
      committed and the next batch starts with its token `p`. */
  function Cells(env: Env, answer: seq<Token>, p: nat, draftN: nat, nBatch: nat): nat
    decreases |answer| - p
  {
    if p >= |answer| then 0
    else
      var batch := DraftBatch(env, answer[..p], answer[p], draftN, nBatch);
      Most(p + |batch|, Cells(env, answer, p + |StandingPart(env, answer[..p], batch)|, draftN, nBatch))
  }

  function Most(a: nat, b: nat): nat {
    if a < b then b else a
  }

  lemma {:induction false} StandingIs(env: Env, toks: seq<Token>, batch: seq<Token>, k: nat, n: nat)
    requires 1 <= k <= n <= |batch|
    requires forall i :: k <= i < n ==> batch[i] == Greedy(env.model(env.prompt + toks + batch[..i]))
    requires n < |batch| ==> batch[n] != Greedy(env.model(env.prompt + toks + batch[..n]))
    ensures Standing(env, toks, batch, k) == n
    decreases n - k
  {
    hide Greedy;
    if k < n {
      StandingIs(env, toks, batch, k + 1, n);
    }
  }

  /** All batches from `p` on fit exactly when the next one does and those after it do. */
  lemma CellsStep(env: Env, answer: seq<Token>, p: nat, draftN: nat, nBatch: nat, room: int)
    requires p < |answer|
    ensures var batch := DraftBatch(env, answer[..p], answer[p], draftN, nBatch);
      (Cells(env, answer, p, draftN, nBatch) <= room
       <==> (p + |batch| <= room
             && Cells(env, answer, p + |StandingPart(env, answer[..p], batch)|, draftN, nBatch) <= room))
  {
    hide DraftBatch, Standing;
  }

  lemma CellsDone(env: Env, answer: seq<Token>, p: nat, draftN: nat, nBatch: nat)
    ensures |answer| <= p ==> Cells(env, answer, p, draftN, nBatch) == 0
  {
  }

  /** Drafts never need less room than the tokens themselves, and never more than `maxTokens`. */
  lemma {:induction false} CellsBounds(env: Env, answer: seq<Token>, p: nat, draftN: nat, nBatch: nat)
    requires |answer| <= env.maxTokens
    ensures p < |answer| ==> |answer| <= Cells(env, answer, p, draftN, nBatch)
    ensures Cells(env, answer, p, draftN, nBatch) <= env.maxTokens
    decreases |answer| - p
  {
    hide DraftBatch, Standing;
    if p < |answer| {
      var batch := DraftBatch(env, answer[..p], answer[p], draftN, nBatch);
      CellsBounds(env, answer, p + |StandingPart(env, answer[..p], batch)|, draftN, nBatch);
    }
  }

  /** Without drafts every token of the answer needs its own cell and nothing else does. */
  lemma {:induction false} CellsPlain(env: Env, answer: seq<Token>, p: nat, nBatch: nat)
    requires p <= |answer|
    ensures Cells(env, answer, p, 0, nBatch) == if p == |answer| then 0 else |answer|
    decreases |answer| - p
  {
    if p < |answer| {
      var batch := DraftBatch(env, answer[..p], answer[p], 0, nBatch);
      assert batch == [answer[p]];
      CellsPlain(env, answer, p + 1, nBatch);
    }
  }
}
