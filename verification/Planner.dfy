/** The placement planner: which tensors go to the GPU, and whether the model fits. */
module Planner {
  import opened Estimate

  datatype Group = Expert | EmbedOut | Dense

  /** Lower is evicted first. */
  function EvictionPriority(g: Group): nat {
    match g
    case Expert => 0
    case EmbedOut => 1
    case Dense => 2
  }

  datatype Tensor = Tensor(name: string, bytes: nat, group: Group)

  datatype Placement = Placement(tensor: Tensor, onGpu: bool)

  datatype Config = Config(
    vram: nat, ram: nat, margin: nat, ubatch: nat, kvType: string, ctx: nat,
    mmproj: nat, lora: nat, encoder: nat)

  datatype Plan = Plan(
    gpuWeightBytes: nat, cpuWeightBytes: nat, computeBytes: nat, kvBytes: nat, gpuTotalBytes: nat,
    tensors: seq<Placement>, gpuLayers: nat, cpuLayers: nat, allOnGpu: bool, fits: bool)

  function Monus(a: nat, b: nat): nat {
    if a < b then 0 else a - b
  }

  function Reserved(s: Shape, c: Config): nat
    requires s.nEmbd > 0
  {
    ComputeBytes(s, c.ubatch) + KvBytes(s, c.ctx, c.kvType) + c.mmproj + c.lora + c.encoder
  }

  /** Bytes of weights that may go to the GPU. */
  function Budget(s: Shape, c: Config): nat
    requires s.nEmbd > 0
  {
    Monus(Monus(c.vram, c.margin), Reserved(s, c))
  }

  // ---- the order: dense first, experts last, larger first within a group --------------

  /** `a` may stand before `b`. */
  predicate Before(a: Tensor, b: Tensor) {
    || EvictionPriority(a.group) > EvictionPriority(b.group)
    || (a.group == b.group && a.bytes >= b.bytes)
  }

  ghost predicate Ordered(ts: seq<Tensor>) {
    ts == [] || ((forall t :: t in ts[1..] ==> Before(ts[0], t)) && Ordered(ts[1..]))
  }

  function Insert(t: Tensor, ts: seq<Tensor>): seq<Tensor> {
    if ts == [] then [t]
    else if Before(t, ts[0]) then [t] + ts
    else [ts[0]] + Insert(t, ts[1..])
  }

  /** The library sort, by that order. */
  function Sorted(ts: seq<Tensor>): seq<Tensor> {
    if ts == [] then [] else Insert(ts[0], Sorted(ts[1..]))
  }

  lemma {:induction false} InsertKeeps(t: Tensor, ts: seq<Tensor>)
    ensures multiset(Insert(t, ts)) == multiset(ts) + multiset{t} && Sum(Insert(t, ts)) == Sum(ts) + t.bytes
    ensures forall x :: x in Insert(t, ts) ==> x == t || x in ts
  {
    if ts != [] && !Before(t, ts[0]) {
      InsertKeeps(t, ts[1..]);
      var rest := Insert(t, ts[1..]);
      assert ([ts[0]] + rest)[1..] == rest;
      assert ts == [ts[0]] + ts[1..];
    } else {
      assert ([t] + ts)[1..] == ts;
    }
  }

  lemma {:induction false} InsertOrdered(t: Tensor, ts: seq<Tensor>)
    requires Ordered(ts)
    ensures Ordered(Insert(t, ts))
  {
    if ts != [] && !Before(t, ts[0]) {
      InsertOrdered(t, ts[1..]);
      InsertKeeps(t, ts[1..]);
      var rest := Insert(t, ts[1..]);
      assert ([ts[0]] + rest)[1..] == rest;
    } else {
      assert ([t] + ts)[1..] == ts;
      assert forall x :: x in ts ==> x == ts[0] || x in ts[1..];
    }
  }

  /** Sorting gives the same tensors in order. */
  lemma {:induction false} SortedIsOrdered(ts: seq<Tensor>)
    ensures Ordered(Sorted(ts)) && multiset(Sorted(ts)) == multiset(ts) && Sum(Sorted(ts)) == Sum(ts)
  {
    if ts != [] {
      hide Insert, Ordered;
      SortedIsOrdered(ts[1..]);
      InsertOrdered(ts[0], Sorted(ts[1..]));
      InsertKeeps(ts[0], Sorted(ts[1..]));
      FirstAndRest(ts);
    }
  }

  lemma FirstAndRest(ts: seq<Tensor>)
    requires ts != []
    ensures multiset(ts) == multiset(ts[1..]) + multiset{ts[0]}
  {
    assert ts == [ts[0]] + ts[1..];
  }

  // ---- filling the GPU ----------------------------------------------------------------

  /** Bytes placed when each tensor in turn is taken if it still fits. */
  function Filled(ts: seq<Tensor>, budget: nat): (r: nat)
    ensures r <= budget && r <= Sum(ts)
  {
    if ts == [] then 0
    else if ts[0].bytes <= budget then ts[0].bytes + Filled(ts[1..], budget - ts[0].bytes)
    else Filled(ts[1..], budget)
  }

  function Sum(ts: seq<Tensor>): nat {
    if ts == [] then 0 else ts[0].bytes + Sum(ts[1..])
  }

  function GpuBytes(ps: seq<Placement>): nat {
    if ps == [] then 0
    else GpuBytes(ps[..|ps| - 1]) + if ps[|ps| - 1].onGpu then ps[|ps| - 1].tensor.bytes else 0
  }

  function CpuBytes(ps: seq<Placement>): nat {
    if ps == [] then 0
    else CpuBytes(ps[..|ps| - 1]) + if ps[|ps| - 1].onGpu then 0 else ps[|ps| - 1].tensor.bytes
  }

  /** Each tensor is on the GPU exactly when it fitted at its turn. */
  ghost predicate GreedyPlacement(ps: seq<Placement>, budget: nat) {
    forall k :: 0 <= k < |ps| ==> (ps[k].onGpu <==> GpuBytes(ps[..k]) + ps[k].tensor.bytes <= budget)
  }

  function TensorsOf(ps: seq<Placement>): (r: seq<Tensor>)
    ensures |r| == |ps|
  {
    seq(|ps|, k requires 0 <= k < |ps| => ps[k].tensor)
  }

  /** The fill, tensor by tensor. */
  function Fill(ts: seq<Tensor>, budget: nat): (ps: seq<Placement>)
    ensures |ps| == |ts|
  {
    if ts == [] then []
    else
      var n := |ts| - 1;
      var init := Fill(ts[..n], budget);
      init + [Placement(ts[n], GpuBytes(init) + ts[n].bytes <= budget)]
  }

  /** The fill loop on the sorted vector. */
  method FillGpu(a: array<Placement>, ts: seq<Tensor>, budget: nat) returns (gpuBytes: nat)
    requires a.Length == |ts| && forall k :: 0 <= k < |ts| ==> a[k] == Placement(ts[k], false)
    modifies a
    ensures a[..] == Fill(ts, budget) && gpuBytes == GpuBytes(a[..])
  {
    hide GpuBytes;
    gpuBytes := 0;
    GpuBytesNil();
    for i := 0 to a.Length
      invariant forall k :: i <= k < a.Length ==> a[k] == Placement(ts[k], false)
      invariant a[..i] == Fill(ts[..i], budget) && gpuBytes == GpuBytes(a[..i])
    {
      ghost var done := a[..i];
      assert ts[..i + 1][..i] == ts[..i];
      if gpuBytes + a[i].tensor.bytes <= budget {
        a[i] := a[i].(onGpu := true);
        gpuBytes := gpuBytes + a[i].tensor.bytes;
      }
      assert a[..i + 1] == done + [a[i]];
      GpuBytesSnoc(done, a[i]);
    }
    assert a[..a.Length] == a[..] && ts[..|ts|] == ts;
  }

  lemma GpuBytesNil()
    ensures GpuBytes([]) == 0
  {
  }

  lemma GpuBytesSnoc(ps: seq<Placement>, p: Placement)
    ensures GpuBytes(ps + [p]) == GpuBytes(ps) + if p.onGpu then p.tensor.bytes else 0
  {
    assert (ps + [p])[..|ps|] == ps;
  }

  /** The fill loop does what its one-line description says. */
  lemma {:induction false} FillIsGreedy(ts: seq<Tensor>, budget: nat)
    ensures GreedyPlacement(Fill(ts, budget), budget) && TensorsOf(Fill(ts, budget)) == ts
    ensures GpuBytes(Fill(ts, budget)) == Filled(ts, budget)
    ensures GpuBytes(Fill(ts, budget)) + CpuBytes(Fill(ts, budget)) == Sum(ts)
  {
    hide GpuBytes;
    if ts == [] {
      GpuBytesNil();
    } else {
      var n := |ts| - 1;
      var init := Fill(ts[..n], budget);
      var last := Placement(ts[n], GpuBytes(init) + ts[n].bytes <= budget);
      FillIsGreedy(ts[..n], budget);
      assert ts == ts[..n] + [ts[n]];
      GreedySnoc(init, last, budget);
      TotalsSnoc(ts[..n], init, last, budget);
    }
  }

  lemma TotalsSnoc(ts: seq<Tensor>, ps: seq<Placement>, p: Placement, budget: nat)
    requires TensorsOf(ps) == ts && (p.onGpu <==> GpuBytes(ps) + p.tensor.bytes <= budget)
    requires GpuBytes(ps) == Filled(ts, budget) && GpuBytes(ps) + CpuBytes(ps) == Sum(ts)
    ensures TensorsOf(ps + [p]) == ts + [p.tensor]
    ensures GpuBytes(ps + [p]) == Filled(ts + [p.tensor], budget)
    ensures GpuBytes(ps + [p]) + CpuBytes(ps + [p]) == Sum(ts + [p.tensor])
  {
    GpuBytesSnoc(ps, p);
    FilledSnoc(ts, p.tensor, budget);
    SumSnoc(ts, p.tensor);
    assert (ps + [p])[..|ps|] == ps;
    hide GpuBytes, Filled, Sum;
  }

  lemma GreedySnoc(ps: seq<Placement>, p: Placement, budget: nat)
    requires GreedyPlacement(ps, budget) && (p.onGpu <==> GpuBytes(ps) + p.tensor.bytes <= budget)
    ensures GreedyPlacement(ps + [p], budget)
  {
    hide GpuBytes;
    var all := ps + [p];
    forall k | 0 <= k < |all|
      ensures all[k].onGpu <==> GpuBytes(all[..k]) + all[k].tensor.bytes <= budget
    {
      if k < |ps| {
        assert all[..k] == ps[..k];
      } else {
        assert all[..k] == ps;
      }
    }
  }

  lemma {:induction false} FilledSnoc(ts: seq<Tensor>, t: Tensor, budget: nat)
    ensures Filled(ts + [t], budget)
         == Filled(ts, budget) + if Filled(ts, budget) + t.bytes <= budget then t.bytes else 0
  {
    if ts == [] {
      assert ts + [t] == [t];
      assert [t][1..] == [];
    } else {
      assert (ts + [t])[1..] == ts[1..] + [t] && (ts + [t])[0] == ts[0];
      FilledSnoc(ts[1..], t, if ts[0].bytes <= budget then budget - ts[0].bytes else budget);
    }
  }

  lemma {:induction false} SumSnoc(ts: seq<Tensor>, t: Tensor)
    ensures Sum(ts + [t]) == Sum(ts) + t.bytes
  {
    if ts == [] {
      assert ts + [t] == [t];
    } else {
      SumSnoc(ts[1..], t);
      assert (ts + [t])[1..] == ts[1..] + [t];
    }
  }

  predicate AllOn(ps: seq<Placement>) {
    forall k :: 0 <= k < |ps| ==> ps[k].onGpu
  }

  lemma {:induction false} FilledAll(ts: seq<Tensor>, budget: nat)
    requires Sum(ts) <= budget
    ensures Filled(ts, budget) == Sum(ts)
  {
    if ts != [] {
      FilledAll(ts[1..], budget - ts[0].bytes);
    }
  }

  /** Everything is on the GPU exactly when everything fits the budget together. */
  lemma {:induction false} AllOnExactly(ts: seq<Tensor>, budget: nat)
    ensures AllOn(Fill(ts, budget)) <==> Sum(ts) <= budget
  {
    hide GpuBytes, Filled, Sum, AllOn, GreedyPlacement;
    if ts == [] {
      NothingIsOn();
    } else {
      var n := |ts| - 1;
      var (init, t) := (ts[..n], ts[n]);
      AllOnExactly(init, budget);
      FillIsGreedy(init, budget);
      assert ts == init + [t];
      SumSnoc(init, t);
      AllOnSnoc(Fill(init, budget), Placement(t, GpuBytes(Fill(init, budget)) + t.bytes <= budget));
      hide Fill;
      if Sum(init) <= budget {
        FilledAll(init, budget);
      }
    }
  }

  lemma NothingIsOn()
    ensures AllOn([]) && Sum([]) == 0
  {
  }

  lemma AllOnSnoc(ps: seq<Placement>, p: Placement)
    ensures AllOn(ps + [p]) <==> AllOn(ps) && p.onGpu
  {
    var all := ps + [p];
    assert all[|ps|] == p;
    assert forall k :: 0 <= k < |ps| ==> all[k] == ps[k];
  }

  method CountCpu(ps: seq<Placement>) returns (cpu: nat, all: bool)
    ensures cpu == CpuBytes(ps) && (all <==> AllOn(ps))
  {
    cpu, all := 0, true;
    for k := 0 to |ps|
      invariant cpu == CpuBytes(ps[..k]) && (all <==> AllOn(ps[..k]))
    {
      assert ps[..k + 1] == ps[..k] + [ps[k]];
      AllOnSnoc(ps[..k], ps[k]);
      if !ps[k].onGpu {
        cpu := cpu + ps[k].tensor.bytes;
        all := false;
      }
    }
    assert ps[..|ps|] == ps;
  }

  /** The tensors of the first layer, which stand for those of every layer. */
  predicate InBlockZero(t: Tensor) {
    "blk.0." <= t.name
  }

  /** There is a first layer and all of it is on the GPU. */
  predicate BlockZeroOnGpu(ps: seq<Placement>) {
    (exists k :: 0 <= k < |ps| && InBlockZero(ps[k].tensor))
    && forall k :: 0 <= k < |ps| && InBlockZero(ps[k].tensor) ==> ps[k].onGpu
  }

  /** Layers count as a whole, by the first: all on one side. */
  method CountLayers(ps: seq<Placement>, nLayer: nat) returns (gpu: nat, cpu: nat)
    ensures gpu + cpu == nLayer && (nLayer > 0 ==> (gpu == nLayer <==> BlockZeroOnGpu(ps)) && (gpu == 0 || cpu == 0))
  {
    var any, all := false, true;
    for k := 0 to |ps|
      invariant any <==> exists j :: 0 <= j < k && InBlockZero(ps[j].tensor)
      invariant all <==> forall j :: 0 <= j < k && InBlockZero(ps[j].tensor) ==> ps[j].onGpu
    {
      if InBlockZero(ps[k].tensor) {
        any, all := true, all && ps[k].onGpu;
      }
    }
    gpu, cpu := 0, 0;
    if nLayer > 0 {
      if any && all {
        gpu := nLayer;
      } else {
        cpu := nLayer;
      }
    }
  }

  /** The plan: its placements are the greedy fill of the sorted tensors, and its numbers are
      those of `PlanOf`. */
  method PlanPlacement(s: Shape, ts: seq<Tensor>, c: Config) returns (p: Plan)
    requires s.nEmbd > 0
    ensures p == PlanOf(s, ts, c)
    ensures GreedyPlacement(p.tensors, Budget(s, c)) && TensorsOf(p.tensors) == Sorted(ts)
    ensures p.gpuWeightBytes == GpuBytes(p.tensors) && p.cpuWeightBytes == CpuBytes(p.tensors)
    ensures p.gpuLayers + p.cpuLayers == s.nLayer
    ensures p.gpuLayers == if BlockZeroOnGpu(p.tensors) then s.nLayer else 0
  {
    hide ComputeBytes, KvBytes, GpuBytes, CpuBytes, Filled, Fill, Sum, Sorted, Ordered, TensorsOf;
    hide AllOn, GreedyPlacement, Monus, BlockZeroOnGpu;
    var compute := ComputeBytes(s, c.ubatch);
    var kv, _, _ := EstimateKv(s, c.ctx, c.kvType);
    var reserved := compute + kv + c.mmproj + c.lora + c.encoder;
    var budget := Monus(Monus(c.vram, c.margin), reserved);
    var sorted := Sorted(ts);
    var a := new Placement[|sorted|](k requires 0 <= k < |sorted| => Placement(sorted[k], false));
    var gpu := FillGpu(a, sorted, budget);
    var placed := a[..];
    var cpu, all := CountCpu(placed);
    var gpuTotal := gpu + compute + kv + c.mmproj + c.lora + c.encoder;
    var cpuNeed := cpu + if gpu == 0 then reserved else 0;
    var fits := (gpu == 0 || gpuTotal <= c.vram) && cpuNeed <= c.ram;
    var gpuLayers, cpuLayers := CountLayers(placed, s.nLayer);
    p := Plan(gpu, cpu, compute, kv, gpuTotal, placed, gpuLayers, cpuLayers, all, fits);
    SortedIsOrdered(ts);
    FillIsGreedy(sorted, budget);
    AllOnExactly(sorted, budget);
    GpuSideAlwaysFits(s, ts, c);
  }

  /** The plan's numbers, from the fill alone. */
  ghost function PlanOf(s: Shape, ts: seq<Tensor>, c: Config): Plan
    requires s.nEmbd > 0
  {
    SortedIsOrdered(ts);
    var gpu := Filled(Sorted(ts), Budget(s, c));
    var placed := Fill(Sorted(ts), Budget(s, c));
    var layers := if BlockZeroOnGpu(placed) then s.nLayer else 0;
    Plan(gpu, Sum(ts) - gpu, ComputeBytes(s, c.ubatch), KvBytes(s, c.ctx, c.kvType), gpu + Reserved(s, c),
         placed, layers, s.nLayer - layers, Sum(ts) <= Budget(s, c), Fits(s, ts, c))
  }

  /** The model fits: the CPU side alone decides, see `GpuSideAlwaysFits`. */
  ghost predicate Fits(s: Shape, ts: seq<Tensor>, c: Config)
    requires s.nEmbd > 0
  {
    var gpu := Filled(Sorted(ts), Budget(s, c));
    (Sum(ts) - gpu) + (if gpu == 0 then Reserved(s, c) else 0) <= c.ram
  }

  // ---- the order of the tensors does not matter -----------------------------------------

  function Erased(ts: seq<Tensor>): (r: seq<Tensor>)
    ensures |r| == |ts|
  {
    seq(|ts|, k requires 0 <= k < |ts| => ts[k].(name := ""))
  }

  lemma {:induction false} FilledErased(ts: seq<Tensor>, budget: nat)
    ensures Filled(Erased(ts), budget) == Filled(ts, budget) && Sum(Erased(ts)) == Sum(ts)
  {
    if ts != [] {
      assert Erased(ts)[1..] == Erased(ts[1..]);
      FilledErased(ts[1..], budget);
      if ts[0].bytes <= budget {
        FilledErased(ts[1..], budget - ts[0].bytes);
      }
    }
  }

  function Without(ts: seq<Tensor>, i: nat): (r: seq<Tensor>)
    requires i < |ts|
    ensures |r| == |ts| - 1
  {
    ts[..i] + ts[i + 1..]
  }

  lemma RemoveAt(b: seq<Tensor>, i: nat)
    requires i < |b|
    ensures multiset(b) == multiset(Without(b, i)) + multiset{b[i]}
  {
    assert b == b[..i] + [b[i]] + b[i + 1..];
  }

  lemma Cancel(x: multiset<Tensor>, y: multiset<Tensor>, t: Tensor)
    requires x + multiset{t} == y + multiset{t}
    ensures x == y
  {
    assert x == (x + multiset{t}) - multiset{t};
    assert y == (y + multiset{t}) - multiset{t};
  }

  lemma ErasedRemove(b: seq<Tensor>, i: nat)
    requires i < |b|
    ensures multiset(Erased(b)) == multiset(Erased(Without(b, i))) + multiset{b[i].(name := "")}
  {
    RemoveAt(Erased(b), i);
    assert Erased(Without(b, i)) == Without(Erased(b), i);
  }

  lemma FindIn(b: seq<Tensor>, t: Tensor) returns (i: nat)
    requires t in multiset(b)
    ensures i < |b| && b[i] == t
  {
    i :| 0 <= i < |b| && b[i] == t;
  }

  lemma {:induction false} ErasedPermutation(a: seq<Tensor>, b: seq<Tensor>)
    requires multiset(a) == multiset(b)
    ensures multiset(Erased(a)) == multiset(Erased(b))
    decreases |a|
  {
    hide Erased, Without;
    if a == [] {
      assert |b| == |multiset(b)| == 0;
    } else {
      assert a[0] in multiset(a);
      var i := FindIn(b, a[0]);
      RemoveAt(a, 0);
      RemoveAt(b, i);
      Cancel(multiset(Without(a, 0)), multiset(Without(b, i)), a[0]);
      ErasedPermutation(Without(a, 0), Without(b, i));
      ErasedRemove(a, 0);
      ErasedRemove(b, i);
    }
  }

  /** Tensors of the same group and size are the same tensor. */
  ghost predicate NoTies(ts: seq<Tensor>) {
    forall x, y :: x in ts && y in ts && x.group == y.group && x.bytes == y.bytes ==> x == y
  }

  lemma TailFacts(a: seq<Tensor>)
    requires a != [] && Ordered(a) && NoTies(a)
    ensures a == [a[0]] + a[1..] && multiset(a) == multiset(a[1..]) + multiset{a[0]}
    ensures Ordered(a[1..]) && NoTies(a[1..])
  {
    assert a == [a[0]] + a[1..];
  }

  /** Two ordered lists of the same tensors without ties are the same list. */
  lemma {:induction false} OrderedUnique(a: seq<Tensor>, b: seq<Tensor>)
    requires Ordered(a) && Ordered(b) && multiset(a) == multiset(b) && NoTies(a) && NoTies(b)
    ensures a == b
    decreases |a|
  {
    hide Ordered, NoTies;
    assert |b| == |multiset(b)| == |multiset(a)| == |a|;
    if a != [] {
      SameFirst(a, b);
      TailFacts(a);
      TailFacts(b);
      Cancel(multiset(a[1..]), multiset(b[1..]), a[0]);
      OrderedUnique(a[1..], b[1..]);
    }
  }

  lemma SameFirst(a: seq<Tensor>, b: seq<Tensor>)
    requires Ordered(a) && Ordered(b) && multiset(a) == multiset(b) && NoTies(a) && NoTies(b)
    requires a != [] && b != []
    ensures a[0] == b[0]
  {
    assert a[0] in multiset(b) && b[0] in multiset(a);
    HeadIsBefore(b, a[0]);
    HeadIsBefore(a, b[0]);
  }

  lemma HeadIsBefore(a: seq<Tensor>, t: Tensor)
    requires Ordered(a) && t in a
    ensures a[0] == t || Before(a[0], t)
  {
  }

  /** Any two orders of the same tensors fill the same number of bytes. */
  lemma OrderIrrelevant(a: seq<Tensor>, b: seq<Tensor>, budget: nat)
    requires multiset(a) == multiset(b)
    ensures Filled(Sorted(a), budget) == Filled(Sorted(b), budget) && Sum(a) == Sum(b)
  {
    var (x, y) := (Sorted(a), Sorted(b));
    SortedIsOrdered(a);
    SortedIsOrdered(b);
    ErasedPermutation(x, y);
    ErasedOrdered(x);
    ErasedOrdered(y);
    OrderedUnique(Erased(x), Erased(y));
    FilledErased(x, budget);
    FilledErased(y, budget);
  }

  lemma {:induction false} ErasedOrdered(ts: seq<Tensor>)
    requires Ordered(ts)
    ensures Ordered(Erased(ts)) && NoTies(Erased(ts))
  {
    if ts != [] {
      ErasedOrdered(ts[1..]);
      assert Erased(ts)[1..] == Erased(ts[1..]);
      forall e | e in Erased(ts[1..])
        ensures Before(Erased(ts)[0], e)
      {
        var k :| 0 <= k < |ts| - 1 && e == Erased(ts[1..])[k];
        assert ts[1..][k] in ts[1..];
      }
    }
  }

  // ---- more room never hurts --------------------------------------------------------------

  /** Skipping what does not fit is monotone in the room: an extra tensor taken early is
      larger than all the room there was without it. */
  lemma {:induction false} FilledMonotone(ts: seq<Tensor>, b1: nat, b2: nat)
    requires b1 <= b2
    ensures Filled(ts, b1) <= Filled(ts, b2)
  {
    if ts != [] {
      if ts[0].bytes <= b1 {
        FilledMonotone(ts[1..], b1 - ts[0].bytes, b2 - ts[0].bytes);
      } else if b2 < ts[0].bytes {
        FilledMonotone(ts[1..], b1, b2);
      }
    }
  }

  /** `c2` offers at least the room of `c1`: no less VRAM, no larger margin, context,
      micro-batch or reserved part. */
  predicate Roomier(c1: Config, c2: Config) {
    && c1.kvType == c2.kvType
    && c1.vram <= c2.vram && c1.margin >= c2.margin && c1.ctx >= c2.ctx && c1.ubatch >= c2.ubatch
    && c1.mmproj >= c2.mmproj && c1.lora >= c2.lora && c1.encoder >= c2.encoder
  }

  lemma RoomierReserved(s: Shape, c1: Config, c2: Config)
    requires s.nEmbd > 0 && Roomier(c1, c2)
    ensures Reserved(s, c1) >= Reserved(s, c2) && Budget(s, c1) <= Budget(s, c2)
  {
    ComputeBytesMonotone(s, c2.ubatch, c1.ubatch);
    KvBytesMonotone(s, c2.ctx, c1.ctx, c1.kvType);
  }

  /** GPU weight bytes never drop in a roomier configuration, in whatever order the tensors
      come. */
  lemma GpuBytesMonotone(s: Shape, ts1: seq<Tensor>, ts2: seq<Tensor>, c1: Config, c2: Config)
    requires s.nEmbd > 0 && Roomier(c1, c2) && multiset(ts1) == multiset(ts2)
    ensures PlanOf(s, ts1, c1).gpuWeightBytes <= PlanOf(s, ts2, c2).gpuWeightBytes
  {
    RoomierReserved(s, c1, c2);
    OrderIrrelevant(ts1, ts2, Budget(s, c2));
    FilledMonotone(Sorted(ts1), Budget(s, c1), Budget(s, c2));
  }

  /** A model that fits still fits in a roomier configuration with at least the RAM. */
  lemma FitsMonotone(s: Shape, ts1: seq<Tensor>, ts2: seq<Tensor>, c1: Config, c2: Config)
    requires s.nEmbd > 0 && Roomier(c1, c2) && c1.ram <= c2.ram && multiset(ts1) == multiset(ts2)
    ensures Fits(s, ts1, c1) ==> Fits(s, ts2, c2)
  {
    RoomierReserved(s, c1, c2);
    GpuBytesMonotone(s, ts1, ts2, c1, c2);
    OrderIrrelevant(ts1, ts2, Budget(s, c1));
  }

  /** When any weight byte is on the GPU the GPU side is within VRAM minus the margin: the
      test of the total against VRAM never decides. */
  lemma GpuSideAlwaysFits(s: Shape, ts: seq<Tensor>, c: Config)
    requires s.nEmbd > 0
    ensures var gpu := Filled(Sorted(ts), Budget(s, c));
            gpu > 0 ==> gpu + Reserved(s, c) <= Monus(c.vram, c.margin) <= c.vram
  {
  }
}
