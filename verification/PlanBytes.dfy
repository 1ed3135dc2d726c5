/** The plan against the bytes of the graphics card and of the machine: its numbers are sums,
    and no weight is placed that does not fit beside everything that is kept free. */
module PlanBytes {
  import opened Estimate
  import opened Planner

  /** What lies on the GPU besides the weights, by the plan's own numbers. */
  function Besides(p: Plan, c: Config): nat {
    p.computeBytes + p.kvBytes + c.mmproj + c.lora + c.encoder
  }

  /** With bytes to place, room below the saturating budget is room in VRAM. */
  lemma RoomIsVram(s: Shape, c: Config, x: nat)
    requires s.nEmbd > 0 && x > 0
    ensures x <= Budget(s, c)
        <==> x + (ComputeBytes(s, c.ubatch) + KvBytes(s, c.ctx, c.kvType) + c.mmproj + c.lora + c.encoder) + c.margin
             <= c.vram
  {
    hide ComputeBytes, KvBytes;
  }

  /** The numbers of a plan: every weight byte counts on one side, the total is the weights with
      what lies beside them, weights on the GPU leave the margin free, everything is there
      exactly when everything fits together, and the model fits exactly when RAM takes the
      rest. */
  lemma PlanAddsUp(s: Shape, ts: seq<Tensor>, c: Config)
    requires s.nEmbd > 0
    ensures var p := PlanOf(s, ts, c);
      && p.computeBytes == ComputeBytes(s, c.ubatch) && p.kvBytes == KvBytes(s, c.ctx, c.kvType)
      && p.gpuWeightBytes == GpuBytes(p.tensors) && p.cpuWeightBytes == CpuBytes(p.tensors)
      && p.gpuWeightBytes + p.cpuWeightBytes == Sum(ts)
      && p.gpuTotalBytes
         == p.gpuWeightBytes + p.computeBytes + p.kvBytes + c.mmproj + c.lora + c.encoder
      && (p.gpuWeightBytes > 0 ==> p.gpuTotalBytes + c.margin <= c.vram)
      && (p.allOnGpu <==> AllOn(p.tensors))
      && (p.allOnGpu <==> Sum(ts) == 0 || Sum(ts) + Besides(p, c) + c.margin <= c.vram)
      && (p.fits <==> p.cpuWeightBytes + (if p.gpuWeightBytes == 0 then Besides(p, c) else 0) <= c.ram)
  {
    hide ComputeBytes, KvBytes, Sorted, Filled, Sum, GpuBytes, CpuBytes, Fill, AllOn, BlockZeroOnGpu, Ordered;
    var (sorted, budget) := (Sorted(ts), Budget(s, c));
    SortedIsOrdered(ts);
    FillIsGreedy(sorted, budget);
    AllOnExactly(sorted, budget);
    if Sum(ts) > 0 {
      RoomIsVram(s, c, Sum(ts));
    }
    if Filled(sorted, budget) > 0 {
      RoomIsVram(s, c, Filled(sorted, budget));
    }
  }

  lemma {:induction false} FillBelow(ts: seq<Tensor>, budget: nat, k: nat)
    requires k <= |ts|
    ensures Fill(ts, budget)[..k] == Fill(ts[..k], budget) && GpuBytes(Fill(ts, budget)[..k]) <= budget
  {
    hide GpuBytes;
    if k < |ts| {
      FillBelow(ts[..|ts| - 1], budget, k);
      assert ts[..|ts| - 1][..k] == ts[..k];
    } else {
      assert ts[..k] == ts && Fill(ts, budget)[..k] == Fill(ts, budget);
      FillIsGreedy(ts, budget);
    }
  }

  /** A tensor with bytes is on the GPU exactly when at its turn, with what was placed before it
      and what lies beside the weights, it left the margin free; one without bytes always is. */
  lemma TurnExactly(s: Shape, ts: seq<Tensor>, c: Config, k: nat)
    requires s.nEmbd > 0 && k < |ts|
    ensures var p := PlanOf(s, ts, c);
      && |p.tensors| == |ts|
      && (p.tensors[k].onGpu
          <==> (p.tensors[k].tensor.bytes > 0 ==>
                 GpuBytes(p.tensors[..k]) + p.tensors[k].tensor.bytes + Besides(p, c) + c.margin <= c.vram))
  {
    hide ComputeBytes, KvBytes, Sorted, Filled, Sum, GpuBytes, CpuBytes, Fill, AllOn, BlockZeroOnGpu, Ordered, Fits;
    var (sorted, budget) := (Sorted(ts), Budget(s, c));
    SortedIsOrdered(ts);
    assert |sorted| == |multiset(sorted)| == |ts|;
    FillIsGreedy(sorted, budget);
    FillBelow(sorted, budget, k);
    var p := PlanOf(s, ts, c);
    assert p.tensors == Fill(sorted, budget);
    var x := GpuBytes(p.tensors[..k]) + p.tensors[k].tensor.bytes;
    if p.tensors[k].tensor.bytes > 0 {
      RoomIsVram(s, c, x);
    }
  }
}
