/** Which groups of tensors give way, and when a group stays on the GPU although one of higher
    priority does not. */
module Eviction {
  import opened Estimate
  import opened Planner

  function If(c: bool, t: Tensor): seq<Tensor> {
    if c then [t] else []
  }

  /** The tensors of group `g`. */
  function Of(g: Group, ts: seq<Tensor>): seq<Tensor> {
    if ts == [] then []
    else If(ts[0].group == g, ts[0]) + Of(g, ts[1..])
  }

  /** The tensors that are filled before those of group `g`. */
  function Above(g: Group, ts: seq<Tensor>): seq<Tensor> {
    match g
    case Dense => []
    case EmbedOut => Of(Dense, ts)
    case Expert => Of(Dense, ts) + Of(EmbedOut, ts)
  }

  function Under(g: Group, ts: seq<Tensor>): seq<Tensor> {
    match g
    case Dense => Of(EmbedOut, ts) + Of(Expert, ts)
    case EmbedOut => Of(Expert, ts)
    case Expert => []
  }

  lemma {:induction false} OfIs(g: Group, ts: seq<Tensor>)
    ensures forall t :: t in Of(g, ts) <==> t in ts && t.group == g
  {
    if ts != [] {
      OfIs(g, ts[1..]);
      assert forall t :: t in ts <==> t == ts[0] || t in ts[1..];
    }
  }

  lemma {:induction false} OfNone(g: Group, ts: seq<Tensor>)
    requires forall t :: t in ts ==> t.group != g
    ensures Of(g, ts) == []
  {
    if ts != [] {
      assert ts[0] in ts;
      OfNone(g, ts[1..]);
    }
  }

  lemma GroupsFirst(t: Tensor, d: seq<Tensor>, e: seq<Tensor>, x: seq<Tensor>)
    requires t.group != Dense ==> d == []
    requires t.group == Expert ==> e == []
    ensures [t] + (d + e + x)
      == (If(t.group == Dense, t) + d) + (If(t.group == EmbedOut, t) + e) + (If(t.group == Expert, t) + x)
  {
  }

  /** An ordered list is its dense tensors, its tables and its experts, one behind the other. */
  lemma {:induction false} OrderedGroups(ts: seq<Tensor>)
    requires Ordered(ts)
    ensures ts == Of(Dense, ts) + Of(EmbedOut, ts) + Of(Expert, ts)
  {
    if ts != [] {
      var rest := ts[1..];
      OrderedGroups(rest);
      if ts[0].group != Dense {
        OfNone(Dense, rest);
      }
      if ts[0].group == Expert {
        OfNone(EmbedOut, rest);
      }
      var (d, e, x) := (Of(Dense, rest), Of(EmbedOut, rest), Of(Expert, rest));
      assert Of(Dense, ts) == If(ts[0].group == Dense, ts[0]) + d;
      assert Of(EmbedOut, ts) == If(ts[0].group == EmbedOut, ts[0]) + e;
      assert Of(Expert, ts) == If(ts[0].group == Expert, ts[0]) + x;
      GroupsFirst(ts[0], d, e, x);
      hide Ordered, Of;
      assert ts == [ts[0]] + rest;
    }
  }

  lemma AroundGroup(g: Group, ts: seq<Tensor>)
    requires Ordered(ts)
    ensures ts == Above(g, ts) + Of(g, ts) + Under(g, ts)
  {
    hide Of, Ordered;
    OrderedGroups(ts);
    Regroup(Of(Dense, ts), Of(EmbedOut, ts), Of(Expert, ts));
  }

  lemma Regroup(d: seq<Tensor>, e: seq<Tensor>, x: seq<Tensor>)
    ensures d + e + x == [] + d + (e + x) && d + e + x == d + e + x + []
  {
  }

  // ---- one tensor --------------------------------------------------------------------------

  /** Tensor `k` of `m`, which comes behind `a`, fits when its turn comes. */
  predicate Taken(a: seq<Tensor>, m: seq<Tensor>, k: nat, budget: nat)
    requires k < |m|
  {
    Filled(a + m[..k], budget) + m[k].bytes <= budget
  }

  /** Whether a tensor is placed depends on those before it alone. */
  lemma {:induction false} FillAt(ts: seq<Tensor>, k: nat, budget: nat)
    requires k < |ts|
    ensures Fill(ts, budget)[k] == Placement(ts[k], Filled(ts[..k], budget) + ts[k].bytes <= budget)
  {
    hide Filled;
    var n := |ts| - 1;
    if k < n {
      FillAt(ts[..n], k, budget);
      assert ts[..n][..k] == ts[..k];
    } else {
      FillIsGreedy(ts[..n], budget);
    }
  }

  lemma FillInside(a: seq<Tensor>, m: seq<Tensor>, r: seq<Tensor>, k: nat, budget: nat)
    requires k < |m|
    ensures Fill(a + m + r, budget)[|a| + k] == Placement(m[k], Taken(a, m, k, budget))
  {
    hide Fill, Filled;
    FillAt(a + m + r, |a| + k, budget);
    assert (a + m + r)[..|a| + k] == a + m[..k];
  }

  lemma {:induction false} FilledGrows(a: seq<Tensor>, b: seq<Tensor>, budget: nat)
    ensures Filled(a, budget) <= Filled(a + b, budget)
  {
    hide Filled;
    if b == [] {
      assert a + b == a;
    } else {
      var n := |b| - 1;
      FilledGrows(a, b[..n], budget);
      FilledSnoc(a + b[..n], b[n], budget);
      assert a + b == a + b[..n] + [b[n]];
    }
  }

  // ---- a stretch of tensors -------------------------------------------------------------------

  /** Tensors none of which is taken leave the room as it was. */
  lemma {:induction false} NoneTaken(a: seq<Tensor>, m: seq<Tensor>, k: nat, budget: nat)
    requires k <= |m| && forall j :: 0 <= j < k ==> !Taken(a, m, j, budget)
    ensures Filled(a + m[..k], budget) == Filled(a, budget)
  {
    hide Filled;
    if k == 0 {
      assert a + m[..0] == a;
    } else {
      NoneTaken(a, m, k - 1, budget);
      assert !Taken(a, m, k - 1, budget);
      FilledSnoc(a + m[..k - 1], m[k - 1], budget);
      assert a + m[..k] == a + m[..k - 1] + [m[k - 1]];
    }
  }

  /** Some tensor of a stretch is taken exactly when one fits what the tensors before it leave. */
  lemma SomeTaken(a: seq<Tensor>, m: seq<Tensor>, budget: nat)
    ensures (exists k :: 0 <= k < |m| && Taken(a, m, k, budget))
      <==> exists k :: 0 <= k < |m| && Filled(a, budget) + m[k].bytes <= budget
  {
    hide Filled;
    forall k | 0 <= k < |m| && Taken(a, m, k, budget)
      ensures Filled(a, budget) + m[k].bytes <= budget
    {
      FilledGrows(a, m[..k], budget);
    }
    if k :| 0 <= k < |m| && Filled(a, budget) + m[k].bytes <= budget {
      FirstTaken(a, m, k, budget);
    }
  }

  lemma FirstTaken(a: seq<Tensor>, m: seq<Tensor>, k: nat, budget: nat)
    requires k < |m| && Filled(a, budget) + m[k].bytes <= budget
    ensures exists j :: 0 <= j <= k && Taken(a, m, j, budget)
  {
    hide Filled;
    if forall j :: 0 <= j < k ==> !Taken(a, m, j, budget) {
      NoneTaken(a, m, k, budget);
      assert Taken(a, m, k, budget);
    }
  }

  /** All tensors of a stretch are taken exactly when they fit together. */
  lemma {:induction false} AllTaken(a: seq<Tensor>, m: seq<Tensor>, k: nat, budget: nat)
    requires k <= |m|
    ensures (forall j :: 0 <= j < k ==> Taken(a, m, j, budget)) <==> Filled(a, budget) + Sum(m[..k]) <= budget
    ensures Filled(a, budget) + Sum(m[..k]) <= budget ==> Filled(a + m[..k], budget) == Filled(a, budget) + Sum(m[..k])
  {
    hide Filled, Sum;
    if k == 0 {
      NothingFits(a, budget);
      assert a + m[..0] == a;
    } else {
      AllTaken(a, m, k - 1, budget);
      assert m[..k] == m[..k - 1] + [m[k - 1]] && a + m[..k] == a + m[..k - 1] + [m[k - 1]];
      SumSnoc(m[..k - 1], m[k - 1]);
      FilledSnoc(a + m[..k - 1], m[k - 1], budget);
      assert (forall j :: 0 <= j < k ==> Taken(a, m, j, budget))
        <==> (forall j :: 0 <= j < k - 1 ==> Taken(a, m, j, budget)) && Taken(a, m, k - 1, budget);
    }
  }

  lemma NothingFits(a: seq<Tensor>, budget: nat)
    ensures Sum([]) == 0 && Filled(a, budget) <= budget
  {
  }

  // ---- groups in a plan -----------------------------------------------------------------------

  /** Some tensor of group `g` is on the GPU. */
  predicate SomeOn(g: Group, ps: seq<Placement>) {
    exists k :: 0 <= k < |ps| && ps[k].tensor.group == g && ps[k].onGpu
  }

  /** Some tensor of group `g` is on the CPU. */
  predicate SomeOff(g: Group, ps: seq<Placement>) {
    exists k :: 0 <= k < |ps| && ps[k].tensor.group == g && !ps[k].onGpu
  }

  /** What the groups of higher priority leave for group `g`. */
  function Left(g: Group, ts: seq<Tensor>, budget: nat): nat {
    budget - Filled(Above(g, Sorted(ts)), budget)
  }

  /** Where the tensors of a group stand in the plan. */
  lemma GroupAt(g: Group, s: seq<Tensor>, budget: nat)
    requires Ordered(s)
    ensures |Fill(s, budget)| == |s| >= |Above(g, s)| + |Of(g, s)|
    ensures forall k :: 0 <= k < |Of(g, s)| ==>
      Fill(s, budget)[|Above(g, s)| + k] == Placement(Of(g, s)[k], Taken(Above(g, s), Of(g, s), k, budget))
    ensures forall i :: 0 <= i < |s| && Fill(s, budget)[i].tensor.group == g ==>
      |Above(g, s)| <= i < |Above(g, s)| + |Of(g, s)|
  {
    hide Fill, Taken, Filled, Ordered;
    var (a, m, r) := (Above(g, s), Of(g, s), Under(g, s));
    AroundGroup(g, s);
    forall k | 0 <= k < |m|
      ensures Fill(s, budget)[|a| + k] == Placement(m[k], Taken(a, m, k, budget))
    {
      FillInside(a, m, r, k, budget);
    }
    forall i | 0 <= i < |s| && Fill(s, budget)[i].tensor.group == g
      ensures |a| <= i < |a| + |m|
    {
      FillAt(s, i, budget);
      OutsideGroup(g, s, i);
    }
  }

  lemma OutsideGroup(g: Group, s: seq<Tensor>, i: nat)
    requires Ordered(s) && i < |s| && s[i].group == g
    ensures |Above(g, s)| <= i < |Above(g, s)| + |Of(g, s)|
  {
    AroundGroup(g, s);
    OthersAround(g, s);
    hide Of, Above, Under, Ordered;
    InTheMiddle(Above(g, s), Of(g, s), Under(g, s), i, g);
  }

  lemma OthersAround(g: Group, s: seq<Tensor>)
    ensures forall t :: t in Above(g, s) || t in Under(g, s) ==> t.group != g
  {
    hide Of;
    OfIs(Dense, s);
    OfIs(EmbedOut, s);
    OfIs(Expert, s);
  }

  lemma InTheMiddle(a: seq<Tensor>, m: seq<Tensor>, r: seq<Tensor>, i: nat, g: Group)
    requires forall t :: t in a || t in r ==> t.group != g
    requires i < |a + m + r| && (a + m + r)[i].group == g
    ensures |a| <= i < |a| + |m|
  {
    forall j | 0 <= j < |a|
      ensures (a + m + r)[j].group != g
    {
      assert a[j] in a;
    }
    forall j | |a| + |m| <= j < |a + m + r|
      ensures (a + m + r)[j].group != g
    {
      assert r[j - |a| - |m|] in r;
    }
  }

  lemma SortedHas(ts: seq<Tensor>)
    ensures Ordered(Sorted(ts)) && forall t :: t in Sorted(ts) <==> t in ts
  {
    hide Sorted;
    SortedIsOrdered(ts);
    assert forall t :: t in Sorted(ts) <==> t in multiset(Sorted(ts));
    assert forall t :: t in ts <==> t in multiset(ts);
  }

  lemma {:induction false} InsertOf(g: Group, t: Tensor, ts: seq<Tensor>)
    ensures Sum(Of(g, Insert(t, ts))) == Sum(Of(g, ts)) + if t.group == g then t.bytes else 0
  {
    if ts != [] && !Before(t, ts[0]) {
      InsertOf(g, t, ts[1..]);
      var rest := Insert(t, ts[1..]);
      assert ([ts[0]] + rest)[1..] == rest;
      OfFirst(g, ts[0], rest);
      OfFirst(g, ts[0], ts[1..]);
      assert ts == [ts[0]] + ts[1..];
    } else {
      OfFirst(g, t, ts);
    }
  }

  lemma OfFirst(g: Group, t: Tensor, ts: seq<Tensor>)
    ensures Sum(Of(g, [t] + ts)) == Sum(Of(g, ts)) + if t.group == g then t.bytes else 0
  {
    assert ([t] + ts)[1..] == ts;
    var rest := Of(g, ts);
    assert ([t] + rest)[1..] == rest && [] + rest == rest;
  }

  /** Sorting does not change what a group weighs. */
  lemma {:induction false} SortedOf(g: Group, ts: seq<Tensor>)
    ensures Sum(Of(g, Sorted(ts))) == Sum(Of(g, ts))
  {
    if ts != [] {
      SortedOf(g, ts[1..]);
      InsertOf(g, ts[0], Sorted(ts[1..]));
      OfFirst(g, ts[0], ts[1..]);
      assert ts == [ts[0]] + ts[1..];
    }
  }

  /** A tensor of group `g` is on the GPU exactly when one of them fits what is left for them. */
  lemma SomeOnExactly(g: Group, ts: seq<Tensor>, budget: nat)
    ensures SomeOn(g, Fill(Sorted(ts), budget))
      <==> exists t :: t in ts && t.group == g && t.bytes <= Left(g, ts, budget)
  {
    hide Sorted, Fill, Filled, Of, Above, Taken, Ordered;
    var s := Sorted(ts);
    var (a, m) := (Above(g, s), Of(g, s));
    SortedHas(ts);
    OfIs(g, s);
    GroupAt(g, s, budget);
    SomeTaken(a, m, budget);
    if i :| 0 <= i < |s| && Fill(s, budget)[i].tensor.group == g && Fill(s, budget)[i].onGpu {
      assert Taken(a, m, i - |a|, budget);
      var k :| 0 <= k < |m| && Filled(a, budget) + m[k].bytes <= budget;
      assert m[k] in m;
    }
    if t :| t in ts && t.group == g && t.bytes <= Left(g, ts, budget) {
      assert t in m;
      var j :| 0 <= j < |m| && m[j] == t;
      assert Filled(a, budget) + m[j].bytes <= budget;
      var k :| 0 <= k < |m| && Taken(a, m, k, budget);
      assert m[k] in m && Fill(s, budget)[|a| + k].onGpu;
    }
  }

  /** A tensor of group `g` is on the CPU exactly when together they do not fit what is left. */
  lemma SomeOffExactly(g: Group, ts: seq<Tensor>, budget: nat)
    ensures SomeOff(g, Fill(Sorted(ts), budget)) <==> Sum(Of(g, ts)) > Left(g, ts, budget)
  {
    hide Sorted, Fill, Filled, Of, Above, Taken, Ordered, Sum;
    var s := Sorted(ts);
    var (a, m) := (Above(g, s), Of(g, s));
    SortedHas(ts);
    SortedOf(g, ts);
    OfIs(g, s);
    GroupAt(g, s, budget);
    AllTaken(a, m, |m|, budget);
    assert m[..|m|] == m;
    if i :| 0 <= i < |s| && Fill(s, budget)[i].tensor.group == g && !Fill(s, budget)[i].onGpu {
      assert !Taken(a, m, i - |a|, budget);
    }
    if k :| 0 <= k < |m| && !Taken(a, m, k, budget) {
      assert m[k] in m && !Fill(s, budget)[|a| + k].onGpu;
    }
  }

  // ---- the documented priority --------------------------------------------------------------

  /** In the plan a tensor of group `low` is on the GPU while one of group `high` is not,
      exactly when those of `high` together exceed what is left for them, and some tensor of
      `low` fits what is left for its own group. */
  lemma PriorityBrokenExactly(s: Shape, ts: seq<Tensor>, c: Config, high: Group, low: Group)
    requires s.nEmbd > 0
    ensures var (ps, room) := (PlanOf(s, ts, c).tensors, Budget(s, c));
      (SomeOff(high, ps) && SomeOn(low, ps))
      <==> (Sum(Of(high, ts)) > Left(high, ts, room)
            && exists t :: t in ts && t.group == low && t.bytes <= Left(low, ts, room))
  {
    SomeOffExactly(high, ts, Budget(s, c));
    SomeOnExactly(low, ts, Budget(s, c));
  }

  /** For dense tensors the whole budget is left. So an expert is on the GPU while a dense
      tensor is not exactly when the dense tensors exceed the budget together and an expert
      fits what the other groups leave of it. */
  lemma ExpertBesideEvictedDenseExactly(s: Shape, ts: seq<Tensor>, c: Config)
    requires s.nEmbd > 0
    ensures var (ps, room) := (PlanOf(s, ts, c).tensors, Budget(s, c));
      (SomeOff(Dense, ps) && SomeOn(Expert, ps))
      <==> (Sum(Of(Dense, ts)) > room
            && exists t :: (t in ts && t.group == Expert
              && t.bytes <= room - Filled(Of(Dense, Sorted(ts)) + Of(EmbedOut, Sorted(ts)), room)))
  {
    hide Sorted, Filled, Of, Sum, Fill;
    PriorityBrokenExactly(s, ts, c, Dense, Expert);
    NothingFilled(Budget(s, c));
  }

  lemma NothingFilled(budget: nat)
    ensures Filled([], budget) == 0
  {
  }

  /** A dense tensor that does not fit is skipped, and an expert behind it is placed. */
  lemma ExpertBesideEvictedDense()
    ensures var (d, x) := (Tensor("blk.0.attn", 10, Dense), Tensor("blk.0.exps", 3, Expert));
      Fill(Sorted([x, d]), 5) == [Placement(d, false), Placement(x, true)]
  {
    var (d, x) := (Tensor("blk.0.attn", 10, Dense), Tensor("blk.0.exps", 3, Expert));
    assert [x, d][1..] == [d] && [d][1..] == [];
    assert Sorted([d]) == [d] && Insert(x, [d]) == [d] + Insert(x, []);
    assert Sorted([x, d]) == [d, x];
    assert [d, x][..0] == [] && [d, x][..1] == [d] && Filled([d], 5) == 0;
    FillAt([d, x], 0, 5);
    FillAt([d, x], 1, 5);
  }
}
