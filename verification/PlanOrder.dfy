/** What of a plan depends on the order in which the tensors come. */
module PlanOrder {
  import opened Estimate
  import opened Planner

  /** The numbers of a plan but for its layer counts. */
  predicate SameNumbers(p: Plan, q: Plan) {
    && p.gpuWeightBytes == q.gpuWeightBytes && p.cpuWeightBytes == q.cpuWeightBytes
    && p.computeBytes == q.computeBytes && p.kvBytes == q.kvBytes && p.gpuTotalBytes == q.gpuTotalBytes
    && p.allOnGpu == q.allOnGpu && p.fits == q.fits
  }

  /** In whatever order the tensors come, all byte numbers and both verdicts are the same. */
  lemma NumbersOrderFree(s: Shape, a: seq<Tensor>, b: seq<Tensor>, c: Config)
    requires s.nEmbd > 0 && multiset(a) == multiset(b)
    ensures SameNumbers(PlanOf(s, a, c), PlanOf(s, b, c))
  {
    hide Sorted, Filled, Sum, Fill;
    OrderIrrelevant(a, b, Budget(s, c));
  }

  /** Without ties the whole plan is the same, placements and layer counts included. */
  lemma PlanOrderFree(s: Shape, a: seq<Tensor>, b: seq<Tensor>, c: Config)
    requires s.nEmbd > 0 && multiset(a) == multiset(b) && NoTies(a)
    ensures PlanOf(s, a, c) == PlanOf(s, b, c)
  {
    hide Sorted, Filled, Sum, Fill, BlockZeroOnGpu;
    SortedIsOrdered(a);
    SortedIsOrdered(b);
    SameElements(a, Sorted(a));
    SameElements(a, Sorted(b));
    OrderedUnique(Sorted(a), Sorted(b));
    OrderIrrelevant(a, b, Budget(s, c));
  }

  lemma SameElements(a: seq<Tensor>, b: seq<Tensor>)
    requires multiset(a) == multiset(b) && NoTies(a)
    ensures NoTies(b)
  {
    assert forall t :: t in b <==> t in multiset(b);
    assert forall t :: t in a <==> t in multiset(a);
  }

  /** With a tie the layer counts follow the order: of two tensors of the same size the one
      that comes first is placed. */
  lemma LayersFollowOrder()
    ensures var (x, y) := (Tensor("blk.0.w", 3, Dense), Tensor("blk.1.w", 3, Dense));
      BlockZeroOnGpu(Fill(Sorted([x, y]), 5)) && !BlockZeroOnGpu(Fill(Sorted([y, x]), 5))
  {
    var (x, y) := (Tensor("blk.0.w", 3, Dense), Tensor("blk.1.w", 3, Dense));
    FirstIsPlaced(x, y);
    FirstIsPlaced(y, x);
    assert y.name[4] != "blk.0."[4];
    var (p, q) := ([Placement(x, true), Placement(y, false)], [Placement(y, true), Placement(x, false)]);
    assert InBlockZero(p[0].tensor) && InBlockZero(q[1].tensor);
  }

  lemma FirstIsPlaced(x: Tensor, y: Tensor)
    requires x.group == y.group == Dense && x.bytes == y.bytes == 3
    ensures Fill(Sorted([x, y]), 5) == [Placement(x, true), Placement(y, false)]
  {
    assert [x, y][1..] == [y] && [y][1..] == [];
    assert Sorted([y]) == [y] && Sorted([x, y]) == [x, y];
    assert [x][..0] == [] && [x, y][..1] == [x];
    GpuBytesNil();
    assert Fill([x], 5) == [Placement(x, true)];
    GpuBytesSnoc([], Placement(x, true));
    assert [] + [Placement(x, true)] == [Placement(x, true)];
  }
}
