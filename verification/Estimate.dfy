/** KV-cache and compute-buffer estimates. Floating-point products are exact rationals here,
    and the cast to an integer is the floor. */
module Estimate {
  /** The model dimensions the estimates read. */
  datatype Shape = Shape(
    nLayer: nat, nEmbd: nat, nHead: nat, nHeadKv: nat, headDim: nat, nVocab: nat,
    slidingWindow: nat, kvLoraRank: nat)

  function KvBytesPerElement(kvType: string): (r: real)
    ensures r >= 0.0
  {
    match kvType
    case "f32" => 4.0
    case "f16" => 2.0
    case "bf16" => 2.0
    case "q8_0" => 34.0 / 32.0
    case "q4_0" => 18.0 / 32.0
    case "q4_1" => 20.0 / 32.0
    case "iq4_nl" => 18.0 / 32.0
    case _ => 0.0
  }

  /** Bytes of `ctx` tokens of `elements` elements each. */
  function TokenBytes(ctx: nat, elements: nat, bpe: real): (r: nat)
    requires bpe >= 0.0
  {
    var perToken := elements as real * bpe;
    assert perToken >= 0.0 by { ProductNonNegative(elements as real, bpe); }
    assert ctx as real * perToken >= 0.0 by { ProductNonNegative(ctx as real, perToken); }
    (ctx as real * perToken).Floor
  }

  lemma ProductNonNegative(x: real, y: real)
    requires x >= 0.0 && y >= 0.0
    ensures x * y >= 0.0
  {
  }

  predicate Windowed(s: Shape, ctx: nat) {
    s.kvLoraRank == 0 && 0 < s.slidingWindow < ctx
  }

  function LayerBytes(s: Shape, ctx: nat, bpe: real): nat
    requires bpe >= 0.0
  {
    if s.kvLoraRank > 0 then TokenBytes(ctx, 2 * (s.kvLoraRank + s.headDim), bpe)
    else TokenBytes(if Windowed(s, ctx) then s.slidingWindow else ctx, 2 * s.nHeadKv * s.headDim, bpe)
  }

  function KvBytes(s: Shape, ctx: nat, kvType: string): nat {
    s.nLayer * LayerBytes(s, ctx, KvBytesPerElement(kvType))
  }

  method EstimateKv(s: Shape, ctx: nat, kvType: string) returns (kvBytes: nat, perLayer: seq<nat>, nSwa: nat)
    ensures kvBytes == KvBytes(s, ctx, kvType)
    ensures |perLayer| == s.nLayer && forall b :: b in perLayer ==> b == LayerBytes(s, ctx, KvBytesPerElement(kvType))
    ensures nSwa == if Windowed(s, ctx) then s.nLayer else 0
  {
    var bpe := KvBytesPerElement(kvType);
    kvBytes, perLayer, nSwa := 0, [], 0;
    for layer := 0 to s.nLayer
      invariant kvBytes == layer * LayerBytes(s, ctx, bpe) && |perLayer| == layer
      invariant forall b :: b in perLayer ==> b == LayerBytes(s, ctx, bpe)
      invariant nSwa == if Windowed(s, ctx) then layer else 0
    {
      var bytes: nat;
      if s.kvLoraRank > 0 {
        bytes := TokenBytes(ctx, 2 * (s.kvLoraRank + s.headDim), bpe);
      } else {
        var eff := ctx;
        if 0 < s.slidingWindow < ctx {
          nSwa := nSwa + 1;
          eff := s.slidingWindow;
        }
        bytes := TokenBytes(eff, 2 * s.nHeadKv * s.headDim, bpe);
      }
      NextMultiple(layer, LayerBytes(s, ctx, bpe));
      kvBytes := kvBytes + bytes;
      perLayer := perLayer + [bytes];
    }
  }

  lemma NextMultiple(k: nat, x: nat)
    ensures (k + 1) * x == k * x + x
  {
  }

  lemma TokenBytesMonotone(c1: nat, c2: nat, elements: nat, bpe: real)
    requires c1 <= c2 && bpe >= 0.0
    ensures TokenBytes(c1, elements, bpe) <= TokenBytes(c2, elements, bpe)
  {
    var per := elements as real * bpe;
    ProductNonNegative(elements as real, bpe);
    ProductNonNegative((c2 - c1) as real, per);
    assert (c2 - c1) as real * per == c2 as real * per - c1 as real * per;
    FloorMonotone(c1 as real * per, c2 as real * per);
  }

  lemma FloorMonotone(x: real, y: real)
    requires x <= y
    ensures x.Floor <= y.Floor
  {
  }

  lemma ProductMonotone(a: nat, x: nat, b: nat, y: nat)
    requires a <= b && x <= y
    ensures a * x <= b * y
  {
    assert b * y - a * x == (b - a) * y + a * (y - x);
  }

  /** A shorter context never needs more KV bytes, sliding windows included. */
  lemma KvBytesMonotone(s: Shape, c1: nat, c2: nat, kvType: string)
    requires c1 <= c2
    ensures KvBytes(s, c1, kvType) <= KvBytes(s, c2, kvType)
  {
    hide TokenBytes;
    var bpe := KvBytesPerElement(kvType);
    var e1 := if Windowed(s, c1) then s.slidingWindow else c1;
    var e2 := if Windowed(s, c2) then s.slidingWindow else c2;
    TokenBytesMonotone(c1, c2, 2 * (s.kvLoraRank + s.headDim), bpe);
    TokenBytesMonotone(e1, e2, 2 * s.nHeadKv * s.headDim, bpe);
    ProductMonotone(s.nLayer, LayerBytes(s, c1, bpe), s.nLayer, LayerBytes(s, c2, bpe));
  }

  // ---- the compute buffer -------------------------------------------------------------

  function ComputeRaw(s: Shape, ubatch: nat): int
    requires s.nEmbd > 0
  {
    var bpe := 2;
    var ffnDim := s.nEmbd * 4;
    var activations := ubatch * s.nEmbd * bpe * 2;
    var matmulScratch := ubatch * s.nEmbd * 4 * s.nLayer;
    var attnScratch := ubatch * s.nHead * s.headDim * 2 * s.nLayer;
    var ffnScratch := ubatch * ffnDim * 2 * s.nLayer;
    var vocabSlice := ubatch * s.nVocab * bpe / s.nEmbd;
    activations + matmulScratch + attnScratch + ffnScratch + vocabSlice
  }

  /** With the safety factor of 1.15. */
  function ComputeBytes(s: Shape, ubatch: nat): (r: nat)
    requires s.nEmbd > 0
  {
    ComputeRawMonotone(s, 0, ubatch);
    ComputeRawZero(s);
    (ComputeRaw(s, ubatch) as real * 1.15).Floor
  }

  lemma ComputeRawZero(s: Shape)
    requires s.nEmbd > 0
    ensures ComputeRaw(s, 0) == 0
  {
  }

  lemma DivMonotone(x: nat, y: nat, d: nat)
    requires x <= y && d > 0
    ensures x / d <= y / d
  {
    if x / d > y / d {
      ProductMonotone(y / d + 1, d, x / d, d);
    }
  }

  lemma ComputeRawMonotone(s: Shape, u1: nat, u2: nat)
    requires u1 <= u2 && s.nEmbd > 0
    ensures ComputeRaw(s, u1) <= ComputeRaw(s, u2)
  {
    ScaledMonotone(u1, u2, s.nEmbd, 2, 2);
    ScaledMonotone(u1, u2, s.nEmbd, 4, s.nLayer);
    ScaledMonotone(u1, u2, s.nHead, s.headDim, 1);
    ScaledMonotone(u1 * s.nHead * s.headDim, u2 * s.nHead * s.headDim, 1, 2, s.nLayer);
    ScaledMonotone(u1, u2, s.nEmbd * 4, 2, s.nLayer);
    ScaledMonotone(u1, u2, s.nVocab, 2, 1);
    DivMonotone(u1 * s.nVocab * 2, u2 * s.nVocab * 2, s.nEmbd);
  }

  lemma ScaledMonotone(u1: nat, u2: nat, a: nat, b: nat, c: nat)
    requires u1 <= u2
    ensures 0 <= u1 * a * b * c <= u2 * a * b * c
  {
    ProductMonotone(u1, a, u2, a);
    ProductMonotone(u1 * a, b, u2 * a, b);
    ProductMonotone(u1 * a * b, c, u2 * a * b, c);
  }

  /** A smaller micro-batch never needs a larger compute buffer. */
  lemma ComputeBytesMonotone(s: Shape, u1: nat, u2: nat)
    requires u1 <= u2 && s.nEmbd > 0
    ensures ComputeBytes(s, u1) <= ComputeBytes(s, u2)
  {
    hide ComputeRaw;
    ComputeRawMonotone(s, u1, u2);
    FloorMonotone(ComputeRaw(s, u1) as real * 1.15, ComputeRaw(s, u2) as real * 1.15);
  }

  /** The largest micro-batch up to the vocabulary size and 32768 whose buffer fits; 1 when
      none does. */
  method RecommendUbatch(s: Shape, available: nat) returns (u: nat)
    requires s.nEmbd > 0
    ensures u == 1 || (1 < u <= s.nVocab && u <= 32768 && ComputeBytes(s, u) <= available)
    ensures forall v :: u < v <= s.nVocab && v <= 32768 ==> ComputeBytes(s, v) > available
  {
    hide ComputeBytes;
    var lo := 1;
    var hi := if s.nVocab < 32768 then s.nVocab else 32768;
    ghost var top := hi;
    while lo < hi
      invariant 1 <= lo && hi <= top && (lo <= hi || lo == 1)
      invariant lo == 1 || ComputeBytes(s, lo) <= available
      invariant forall v :: hi < v <= top && lo < v ==> ComputeBytes(s, v) > available
    {
      var mid := lo + (hi - lo + 1) / 2;
      if ComputeBytes(s, mid) <= available {
        lo := mid;
      } else {
        forall v | mid <= v <= top
          ensures ComputeBytes(s, v) > available
        {
          ComputeBytesMonotone(s, mid, v);
        }
        hi := mid - 1;
      }
    }
    u := lo;
  }

  // ---- the estimates in whole numbers -----------------------------------------------------

  /** Bytes of 32 elements. */
  function BlockBytes(kvType: string): nat {
    if kvType == "f32" then 128
    else if kvType == "f16" || kvType == "bf16" then 64
    else if kvType == "q8_0" then 34
    else if kvType == "q4_1" then 20
    else if kvType == "q4_0" || kvType == "iq4_nl" then 18
    else 0
  }

  lemma FloorOfRatio(x: nat, d: nat)
    requires d > 0
    ensures (x as real / d as real).Floor == x / d
  {
    var q := x / d;
    var f := (x as real / d as real).Floor;
    assert x == q * d + x % d;
    assert x as real == q as real * d as real + (x % d) as real;
    assert x as real / d as real == q as real + (x % d) as real / d as real;
    assert 0.0 <= (x % d) as real / d as real < 1.0;
  }

  lemma TokenBytesWhole(ctx: nat, elements: nat, kvType: string)
    ensures TokenBytes(ctx, elements, KvBytesPerElement(kvType)) == ctx * elements * BlockBytes(kvType) / 32
  {
    var (c, e, b) := (ctx as real, elements as real, BlockBytes(kvType) as real);
    assert KvBytesPerElement(kvType) == b / 32.0;
    assert c * (e * (b / 32.0)) == c * e * b / 32.0;
    assert (ctx * elements) as real == c * e;
    assert (ctx * elements * BlockBytes(kvType)) as real == c * e * b;
    FloorOfRatio(ctx * elements * BlockBytes(kvType), 32);
  }

  /** The cache in whole numbers: each layer holds a key and a value of every KV head for each
      token of the window, or with a compressed cache the latent and the rope part, in blocks of
      32 elements. */
  lemma KvWhole(s: Shape, ctx: nat, kvType: string)
    ensures KvBytes(s, ctx, kvType)
         == s.nLayer * (
              (if s.kvLoraRank > 0 then ctx * (2 * (s.kvLoraRank + s.headDim))
               else if s.slidingWindow == 0 || ctx <= s.slidingWindow then ctx * (2 * s.nHeadKv * s.headDim)
               else s.slidingWindow * (2 * s.nHeadKv * s.headDim))
              * BlockBytes(kvType) / 32)
  {
    hide TokenBytes, KvBytesPerElement;
    TokenBytesWhole(ctx, 2 * (s.kvLoraRank + s.headDim), kvType);
    TokenBytesWhole(ctx, 2 * s.nHeadKv * s.headDim, kvType);
    TokenBytesWhole(s.slidingWindow, 2 * s.nHeadKv * s.headDim, kvType);
  }

  /** The three caches of the repository's own tests: grouped heads, compressed, windowed. */
  lemma KvExamples()
    ensures KvBytes(Shape(24, 896, 14, 2, 64, 151936, 0, 0), 4096, "f16") == 2 * 24 * 4096 * 2 * 64 * 2
    ensures KvBytes(Shape(60, 7168, 128, 128, 128, 102400, 0, 512), 32768, "f16") == 60 * 32768 * 2 * (512 + 128) * 2
    ensures KvBytes(Shape(26, 3072, 16, 16, 192, 256000, 4096, 0), 32768, "f16") == 2 * 16 * 4096 * 192 * 2 * 26
  {
    hide KvBytes;
    KvWhole(Shape(24, 896, 14, 2, 64, 151936, 0, 0), 4096, "f16");
    KvWhole(Shape(60, 7168, 128, 128, 128, 102400, 0, 512), 32768, "f16");
    KvWhole(Shape(26, 3072, 16, 16, 192, 256000, 4096, 0), 32768, "f16");
  }

  /** The compute buffer in whole numbers: for each row of the micro-batch four bytes of
      activations per dimension, and per layer twelve bytes of scratch per dimension and two per
      head dimension, a slice of the vocabulary, and 15 percent on top. */
  lemma ComputeWhole(s: Shape, ubatch: nat)
    requires s.nEmbd > 0
    ensures ComputeBytes(s, ubatch)
         == 23 * (ubatch * (4 * s.nEmbd + s.nLayer * (12 * s.nEmbd + 2 * (s.nHead * s.headDim)))
                  + 2 * ubatch * s.nVocab / s.nEmbd) / 20
  {
    hide ComputeRaw;
    RawWhole(s, ubatch);
    SafetyWhole(ComputeRaw(s, ubatch));
  }

  lemma SafetyWhole(raw: nat)
    ensures (raw as real * 1.15).Floor == 23 * raw / 20
  {
    assert raw as real * 1.15 == (23 * raw) as real / 20.0;
    FloorOfRatio(23 * raw, 20);
  }

  lemma RawWhole(s: Shape, u: nat)
    requires s.nEmbd > 0
    ensures ComputeRaw(s, u)
         == u * (4 * s.nEmbd + s.nLayer * (12 * s.nEmbd + 2 * (s.nHead * s.headDim))) + 2 * u * s.nVocab / s.nEmbd
  {
    RawSum(u, s.nEmbd, s.nLayer, s.nHead * s.headDim, s.nHead, s.headDim);
    Reordered(u, s.nVocab);
  }

  lemma Reordered(u: nat, v: nat)
    ensures u * v * 2 == 2 * u * v
  {
  }

  lemma RawSum(u: nat, e: nat, l: nat, h: nat, heads: nat, dim: nat)
    requires h == heads * dim
    ensures u * e * 2 * 2 + u * e * 4 * l + u * heads * dim * 2 * l + u * (e * 4) * 2 * l
         == u * (4 * e + l * (12 * e + 2 * h))
  {
    assert u * heads * dim == u * h;
    assert l * (12 * e + 2 * h) == 12 * (l * e) + 2 * (l * h);
    assert u * (4 * e + l * (12 * e + 2 * h)) == 4 * (u * e) + 12 * (u * (l * e)) + 2 * (u * (l * h));
    assert u * e * l == u * (l * e) && u * h * l == u * (l * h);
  }
}
