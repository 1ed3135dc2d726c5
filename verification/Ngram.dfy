/** The trigram cache that proposes drafts, and the argmax that checks them. */
module Ngram {

  type Token = int
  type Trigram = (Token, Token, Token)

  /** A logit: a number or negative infinity (masked). */
  datatype Logit = NegInf | Finite(v: real) {
    predicate Above(other: Logit) {
      match (this, other)
      case (NegInf, _) => false
      case (Finite(_), NegInf) => true
      case (Finite(a), Finite(b)) => a > b
    }
  }

  /** The lowest index among the largest logits; 0 for an empty or fully masked row. */
  ghost predicate IsArgmax(logits: seq<Logit>, i: int) {
    if forall j :: 0 <= j < |logits| ==> logits[j].NegInf? then i == 0
    else
      && 0 <= i < |logits|
      && (forall j :: 0 <= j < |logits| ==> !logits[j].Above(logits[i]))
      && (forall j :: 0 <= j < i ==> logits[i].Above(logits[j]))
  }

  lemma ArgmaxUnique(logits: seq<Logit>, i: int, j: int)
    requires IsArgmax(logits, i) && IsArgmax(logits, j)
    ensures i == j
  {
  }

  /** The token greedy decoding picks. */
  function Greedy(logits: seq<Logit>): (i: int)
    ensures IsArgmax(logits, i)
  {
    assert logits[..|logits|] == logits;
    ArgmaxOf(logits, |logits|)
  }

  function ArgmaxOf(logits: seq<Logit>, n: nat): (i: int)
    requires n <= |logits|
    ensures IsArgmax(logits[..n], i)
  {
    if n == 0 then 0
    else
      var i := ArgmaxOf(logits, n - 1);
      var best := if i < n - 1 then logits[i] else NegInf;
      assert forall j :: 0 <= j < n - 1 ==> logits[..n][j] == logits[..n - 1][j];
      if logits[n - 1].Above(best) then n - 1 else i
  }

  method ArgmaxI32(logits: seq<Logit>) returns (bestI: int)
    ensures bestI == Greedy(logits)
  {
    bestI := 0;
    var bestV := NegInf;
    for i := 0 to |logits|
      invariant IsArgmax(logits[..i], bestI)
      invariant bestV == if bestI < i then logits[bestI] else NegInf
    {
      ghost var was := logits[..i];
      assert forall j :: 0 <= j < i ==> logits[..i + 1][j] == was[j];
      if logits[i].Above(bestV) {
        bestV := logits[i];
        bestI := i;
      }
    }
    assert logits[..|logits|] == logits;
    ArgmaxUnique(logits, bestI, Greedy(logits));
  }

  /** What the cache holds after seeing `toks` token by token. */
  function Seen(toks: seq<Token>): map<Trigram, Token> {
    var n := |toks|;
    if n < 4 then map[]
    else Seen(toks[..n - 1])[(toks[n - 4], toks[n - 3], toks[n - 2]) := toks[n - 1]]
  }

  predicate TrigramAt(toks: seq<Token>, key: Trigram, i: nat) {
    i + 3 < |toks| && (toks[i], toks[i + 1], toks[i + 2]) == key
  }

  /** `i` is where `key` stands last, among the places where a token follows. */
  ghost predicate LastAt(toks: seq<Token>, key: Trigram, i: nat) {
    TrigramAt(toks, key, i) && forall j: nat :: i < j ==> !TrigramAt(toks, key, j)
  }

  /** The cache maps a trigram to the token after its last occurrence, and knows no other trigram. */
  lemma {:induction false} SeenIsLastContinuation(toks: seq<Token>, key: Trigram)
    ensures key in Seen(toks) <==> exists i: nat :: TrigramAt(toks, key, i)
    ensures key in Seen(toks) ==> exists i: nat :: LastAt(toks, key, i) && Seen(toks)[key] == toks[i + 3]
  {
    var n := |toks|;
    if n >= 4 {
      var init := toks[..n - 1];
      SeenIsLastContinuation(init, key);
      assert forall i: nat :: i + 3 < n - 1 ==> (TrigramAt(init, key, i) <==> TrigramAt(toks, key, i));
      if TrigramAt(toks, key, n - 4) {
        assert LastAt(toks, key, n - 4);
      } else if key in Seen(init) {
        var i: nat :| LastAt(init, key, i) && Seen(init)[key] == init[i + 3];
        assert LastAt(toks, key, i);
      }
    }
  }

  /** Looking up trigrams one after another, at most `max` times. */
  function Drafts(m: map<Trigram, Token>, hist: seq<Token>, max: nat): (out: seq<Token>)
    ensures |out| <= max
    decreases max
  {
    var n := |hist|;
    if max == 0 || n < 3 || (hist[n - 3], hist[n - 2], hist[n - 1]) !in m then []
    else
      var next := m[(hist[n - 3], hist[n - 2], hist[n - 1])];
      [next] + Drafts(m, hist + [next], max - 1)
  }

  function LastThree(h: seq<Token>): Trigram
    requires |h| >= 3
  {
    (h[|h| - 3], h[|h| - 2], h[|h| - 1])
  }

  /** `t` followed where `key` stood last. */
  ghost predicate FollowedBy(toks: seq<Token>, key: Trigram, t: Token) {
    exists i: nat :: LastAt(toks, key, i) && toks[i + 3] == t
  }

  ghost predicate StoodBefore(toks: seq<Token>, key: Trigram) {
    exists i: nat :: TrigramAt(toks, key, i)
  }

  /** Each draft is the token that followed the last occurrence of the three tokens before it,
      and drafting ends only at `max` or where those three never stood before a token. */
  lemma {:induction false} DraftsFollow(toks: seq<Token>, hist: seq<Token>, max: nat, k: nat)
    requires k <= |Drafts(Seen(toks), hist, max)|
    ensures var out := Drafts(Seen(toks), hist, max);
            var h := hist + out[..k];
            && (k < |out| ==> |h| >= 3 && FollowedBy(toks, LastThree(h), out[k]))
            && (k == |out| < max && |h| >= 3 ==> !StoodBefore(toks, LastThree(h)))
    decreases max
  {
    hide Seen, FollowedBy, StoodBefore;
    var out := Drafts(Seen(toks), hist, max);
    if k > 0 {
      assert out[1..] == Drafts(Seen(toks), hist + [out[0]], max - 1);
      DraftsFollow(toks, hist + [out[0]], max - 1, k - 1);
      assert hist + out[..k] == hist + [out[0]] + out[1..][..k - 1];
    } else {
      assert hist + out[..0] == hist;
      if |hist| >= 3 {
        CacheKnows(toks, LastThree(hist));
      }
    }
  }

  lemma CacheKnows(toks: seq<Token>, key: Trigram)
    ensures key in Seen(toks) <==> StoodBefore(toks, key)
    ensures key in Seen(toks) ==> FollowedBy(toks, key, Seen(toks)[key])
  {
    SeenIsLastContinuation(toks, key);
  }

  class NgramCache {
    var entries: map<Trigram, Token>

    constructor ()
      ensures entries == map[]
    {
      entries := map[];
    }

    /** On a fresh cache, indexing all windows gives the same as learning token by token. */
    method Ingest(toks: seq<Token>)
      requires entries == map[]
      modifies this
      ensures entries == Seen(toks)
    {
      if |toks| < 4 {
        return;
      }
      for w := 0 to |toks| - 3
        invariant entries == Seen(toks[..w + 3])
      {
        ghost var upTo := toks[..w + 4];
        assert upTo[..w + 3] == toks[..w + 3];
        entries := entries[(toks[w], toks[w + 1], toks[w + 2]) := toks[w + 3]];
      }
      assert toks[..|toks|] == toks;
    }

    method Learn(hist: seq<Token>, next: Token)
      modifies this
      ensures old(entries) == Seen(hist) ==> entries == Seen(hist + [next])
      ensures entries == if |hist| < 3 then old(entries)
                         else old(entries)[(hist[|hist| - 3], hist[|hist| - 2], hist[|hist| - 1]) := next]
    {
      var n := |hist|;
      assert (hist + [next])[..n] == hist;
      if n < 3 {
        return;
      }
      entries := entries[(hist[n - 3], hist[n - 2], hist[n - 1]) := next];
    }

    method Draft(hist: seq<Token>, max: nat) returns (out: seq<Token>)
      ensures out == Drafts(entries, hist, max)
    {
      var h := hist;
      out := [];
      for k := 0 to max
        invariant h == hist + out
        invariant Drafts(entries, hist, max) == out + Drafts(entries, h, max - k)
      {
        var n := |h|;
        if n < 3 || (h[n - 3], h[n - 2], h[n - 1]) !in entries {
          break;
        }
        var next := entries[(h[n - 3], h[n - 2], h[n - 1])];
        out := out + [next];
        h := h + [next];
      }
    }
  }
}
