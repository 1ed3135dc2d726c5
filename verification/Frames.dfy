/** Choosing video frames: scene cuts first, then a uniform fill, or an even thinning. */
module Frames {
  import opened Sequences

  predicate NoRepeats(s: seq<nat>) {
    forall i, j :: 0 <= i < j < |s| ==> s[i] != s[j]
  }

  function Elements(s: seq<nat>): set<nat> {
    set x | x in s
  }

  /** The first frame, the last, and every frame after a distance at or over the threshold. */
  function Chosen(n: nat, distances: seq<real>, thresh: real): set<nat>
    requires n > 0
  {
    {0, n - 1} + set i | 0 <= i < |distances| && distances[i] >= thresh && i + 1 < n :: i + 1
  }

  function Spaced(k: nat, inner: nat, need: nat): nat
    requires need > 0
  {
    k * inner / need
  }

  /** First, last, and evenly spaced ones of the rest. */
  function Thin(c: seq<nat>, m: nat): seq<nat>
    requires 0 < m < |c|
  {
    if m == 1 then [c[0]]
    else [c[0]] + Middle(c, m - 2, m - 2) + [c[|c| - 1]]
  }

  /** The first `k` of `need` evenly spaced inner elements. */
  function Middle(c: seq<nat>, k: nat, need: nat): (r: seq<nat>)
    requires k <= need <= |c| - 2
    ensures |r| == k
  {
    if k == 0 then [] else (
      SpacedInside(k - 1, |c| - 2, need);
      Middle(c, k - 1, need) + [c[1 + Spaced(k - 1, |c| - 2, need)]])
  }

  lemma ProductGrows(a: nat, b: nat, d: nat)
    requires a <= b
    ensures a * d <= b * d
  {
  }

  lemma QuotientIs(a: nat, d: nat)
    requires d > 0
    ensures (a / d) * d <= a < (a / d) * d + d
  {
  }

  lemma SpacedInside(k: nat, inner: nat, need: nat)
    requires k < need <= inner
    ensures Spaced(k, inner, need) < inner
  {
    var a := k * inner;
    var q := a / need;
    QuotientIs(a, need);
    assert a < need * inner;
    if inner <= q {
      ProductGrows(inner, q, need);
      assert false;
    }
  }

  lemma SpacedGrows(k: nat, inner: nat, need: nat)
    requires 0 < need <= inner
    ensures Spaced(k, inner, need) < Spaced(k + 1, inner, need)
  {
    var (a, b) := (k * inner, (k + 1) * inner);
    assert b == a + inner;
    var (p, q) := (a / need, b / need);
    QuotientIs(a, need);
    QuotientIs(b, need);
    if q <= p {
      ProductGrows(q, p, need);
      assert false;
    }
  }

  /** Neighbouring positions are as far apart as any others, but for one. */
  lemma SpacedEvenly(k: nat, inner: nat, need: nat)
    requires 0 < need <= inner
    ensures inner / need <= Spaced(k + 1, inner, need) - Spaced(k, inner, need) <= inner / need + 1
  {
    var (a, b) := (k * inner, (k + 1) * inner);
    assert b == a + inner;
    var (p, q, d) := (a / need, b / need, inner / need);
    QuotientIs(a, need);
    QuotientIs(b, need);
    QuotientIs(inner, need);
    SumOfQuotients(p, q, d, need);
  }

  lemma SumOfQuotients(p: nat, q: nat, d: nat, need: nat)
    requires need > 0 && (p + d) * need < q * need + need && q * need < (p + d) * need + 2 * need
    ensures p + d <= q <= p + d + 1
  {
    if q < p + d {
      ProductGrows(q + 1, p + d, need);
      assert false;
    }
    if p + d + 2 <= q {
      ProductGrows(p + d + 2, q, need);
      assert false;
    }
  }

  /** The next frame of the uniform fill: the even position, or the first frame still free. */
  function NextFill(s: set<nat>, n: nat, m: nat): nat
    requires 0 < n && |s| < m
  {
    var even := Spaced(|s|, n - 1, m);
    if even !in s then even else FirstFree(s, n, 0)
  }

  function FirstFree(s: set<nat>, n: nat, i: nat): nat
    decreases n - i
  {
    if i >= n then n else if i !in s then i else FirstFree(s, n, i + 1)
  }

  function Below(n: nat): (r: set<nat>)
    ensures |r| == n && forall x: nat :: x in r <==> x < n
  {
    if n == 0 then {} else Below(n - 1) + {n - 1}
  }

  lemma EvenIsBelow(k: nat, n: nat, m: nat)
    requires k < m && 0 < n
    ensures Spaced(k, n - 1, m) < n
  {
    var a := k * (n - 1);
    ProductGrows(k, m, n - 1);
    QuotientIs(a, m);
    var q := a / m;
    assert m * (n - 1) == n * m - m;
    if n <= q {
      ProductGrows(n, q, m);
      assert false;
    }
  }

  lemma NextFillIsNew(s: set<nat>, n: nat, m: nat)
    requires |s| < m <= n && s <= Below(n)
    ensures NextFill(s, n, m) !in s && NextFill(s, n, m) < n
  {
    hide Spaced;
    EvenIsBelow(|s|, n, m);
    FirstFreeIs(s, n, 0);
    if FirstFree(s, n, 0) == n {
      AllTaken(s, n);
    }
  }

  /** The even position is the share of the frames that has been chosen; where it is taken, the
      next frame is the first one free. */
  lemma NextFillIs(s: set<nat>, n: nat, m: nat) returns (even: nat)
    requires |s| < m <= n && s <= Below(n)
    ensures even * m <= |s| * (n - 1) < even * m + m
    ensures even !in s ==> NextFill(s, n, m) == even
    ensures even in s ==> NextFill(s, n, m) !in s && forall x :: 0 <= x < NextFill(s, n, m) ==> x in s
  {
    even := Spaced(|s|, n - 1, m);
    QuotientIs(|s| * (n - 1), m);
    NextFillIsNew(s, n, m);
    FirstFreeIs(s, n, 0);
  }

  lemma AllTaken(s: set<nat>, n: nat)
    requires s <= Below(n) && forall x :: 0 <= x < n ==> x in s
    ensures |s| == n
  {
    assert s == Below(n);
  }

  lemma {:induction false} FirstFreeIs(s: set<nat>, n: nat, i: nat)
    requires i <= n
    ensures i <= FirstFree(s, n, i) <= n
    ensures FirstFree(s, n, i) < n ==> FirstFree(s, n, i) !in s
    ensures forall x :: i <= x < FirstFree(s, n, i) ==> x in s
    decreases n - i
  {
    if i < n && i in s {
      FirstFreeIs(s, n, i + 1);
    }
  }

  /** Fill up to `m` frames; what was chosen stays. */
  function Fill(s: set<nat>, n: nat, m: nat): (r: set<nat>)
    requires |s| <= m <= n && s <= Below(n)
    ensures s <= r <= Below(n) && |r| == m
    decreases m - |s|
  {
    if |s| == m then s
    else (
      NextFillIsNew(s, n, m);
      Fill(s + {NextFill(s, n, m)}, n, m))
  }

  // ---- sequences without repeats --------------------------------------------------------------

  lemma {:induction false} ElementsCount(s: seq<nat>)
    requires NoRepeats(s)
    ensures |Elements(s)| == |s|
  {
    if s != [] {
      var (front, last) := (s[..|s| - 1], s[|s| - 1]);
      ElementsCount(front);
      assert s == front + [last];
      assert Elements(s) == Elements(front) + {last};
    }
  }

  lemma IncreasingIsDetermined(a: seq<nat>, b: seq<nat>)
    requires Increasing(a) && Increasing(b) && Elements(a) == Elements(b)
    ensures a == b
  {
    assert forall k: nat :: k in a <==> k in Elements(a);
    assert forall k: nat :: k in b <==> k in Elements(b);
    IncreasingUnique(a, b);
  }

  lemma Pushed(s: seq<nat>, x: nat)
    requires NoRepeats(s) && x !in s
    ensures NoRepeats(s + [x]) && Elements(s + [x]) == Elements(s) + {x}
  {
  }

  lemma ElementsOfConcat(s: seq<nat>, t: seq<nat>)
    ensures Elements(s + t) == Elements(s) + Elements(t)
  {
  }

  function Insert(x: nat, s: seq<nat>): seq<nat> {
    if s == [] || x <= s[0] then [x] + s else [s[0]] + Insert(x, s[1..])
  }

  /** The library's sort. */
  function Sort(s: seq<nat>): seq<nat> {
    if s == [] then [] else Insert(s[|s| - 1], Sort(s[..|s| - 1]))
  }

  /** The library's `dedup`: of equal neighbours one stays. */
  function Dedup(s: seq<nat>): seq<nat> {
    if |s| < 2 then s else if s[0] == s[1] then Dedup(s[1..]) else [s[0]] + Dedup(s[1..])
  }

  lemma {:induction false} InsertIs(x: nat, s: seq<nat>)
    requires Increasing(s) && x !in s
    ensures Increasing(Insert(x, s)) && Elements(Insert(x, s)) == Elements(s) + {x}
  {
    if s == [] || x <= s[0] {
      assert Elements([x] + s) == Elements(s) + {x};
    } else {
      InsertIs(x, s[1..]);
      assert s == [s[0]] + s[1..];
      var r := Insert(x, s[1..]);
      forall k | 0 <= k < |r|
        ensures s[0] < r[k]
      {
        assert r[k] in Elements(r);
      }
      assert Elements([s[0]] + r) == {s[0]} + Elements(r);
      assert Elements(s) == {s[0]} + Elements(s[1..]);
    }
  }

  lemma {:induction false} SortIs(s: seq<nat>)
    requires NoRepeats(s)
    ensures Increasing(Sort(s)) && Elements(Sort(s)) == Elements(s)
  {
    if s != [] {
      var (front, last) := (s[..|s| - 1], s[|s| - 1]);
      SortIs(front);
      assert last !in Elements(front);
      assert last in Sort(front) ==> last in Elements(Sort(front));
      InsertIs(last, Sort(front));
      assert s == front + [last];
    }
  }

  lemma {:induction false} DedupIncreasing(s: seq<nat>)
    requires Increasing(s)
    ensures Dedup(s) == s
  {
    if |s| >= 2 {
      DedupIncreasing(s[1..]);
    }
  }

  // ---- thinning ---------------------------------------------------------------------------------

  lemma {:induction false} MiddleAt(c: seq<nat>, k: nat, need: nat, j: nat)
    requires j < k <= need <= |c| - 2
    ensures Spaced(j, |c| - 2, need) < |c| - 2
    ensures Middle(c, k, need)[j] == c[1 + Spaced(j, |c| - 2, need)]
  {
    SpacedInside(j, |c| - 2, need);
    if j < k - 1 {
      MiddleAt(c, k - 1, need, j);
    }
  }

  lemma {:induction false} MiddleIncreasing(c: seq<nat>, k: nat, need: nat)
    requires Increasing(c) && k <= need <= |c| - 2
    ensures Increasing(Middle(c, k, need))
    ensures forall x :: x in Middle(c, k, need) ==> x in c && c[0] < x < c[|c| - 1]
  {
    if k > 0 {
      MiddleIncreasing(c, k - 1, need);
      SpacedInside(k - 1, |c| - 2, need);
      if k > 1 {
        MiddleAt(c, k - 1, need, k - 2);
        SpacedGrows(k - 2, |c| - 2, need);
      }
    }
  }

  /** The evenly spaced positions never collide, so thinning keeps exactly as many as asked. */
  lemma ThinIs(c: seq<nat>, m: nat)
    requires Increasing(c) && 0 < m < |c|
    ensures Increasing(Thin(c, m)) && |Thin(c, m)| == m && Elements(Thin(c, m)) <= Elements(c)
    ensures Thin(c, m)[0] == c[0] && (m >= 2 ==> Thin(c, m)[m - 1] == c[|c| - 1])
  {
    if m >= 2 {
      MiddleIncreasing(c, m - 2, m - 2);
      var mid := Middle(c, m - 2, m - 2);
      hide Middle, Elements;
      Bracketed(c[0], mid, c[|c| - 1]);
      BracketedInside(c, mid);
    }
  }

  /** The kept inner elements stand at evenly spaced positions of the list. */
  lemma ThinAt(c: seq<nat>, m: nat, k: nat) returns (at: nat)
    requires 2 <= m < |c| && k < m - 2
    ensures at < |c| - 2 && |Thin(c, m)| == m && Thin(c, m)[1 + k] == c[1 + at]
    ensures at * (m - 2) <= k * (|c| - 2) < at * (m - 2) + (m - 2)
  {
    at := Spaced(k, |c| - 2, m - 2);
    MiddleAt(c, m - 2, m - 2, k);
    QuotientIs(k * (|c| - 2), m - 2);
  }

  lemma Bracketed(first: nat, mid: seq<nat>, last: nat)
    requires first < last && Increasing(mid) && forall x :: x in mid ==> first < x < last
    ensures Increasing([first] + mid + [last])
  {
    forall k | 0 <= k < |mid|
      ensures first < mid[k] < last
    {
      assert mid[k] in mid;
    }
  }

  lemma BracketedInside(c: seq<nat>, mid: seq<nat>)
    requires c != [] && forall x :: x in mid ==> x in c
    ensures Elements([c[0]] + mid + [c[|c| - 1]]) <= Elements(c)
  {
  }

  // ---- picking -----------------------------------------------------------------------------------

  /** Set the marks of the frames to choose. */
  method Mark(n: nat, distances: seq<real>, thresh: real) returns (chosen: array<bool>)
    requires n > 0
    ensures fresh(chosen) && chosen.Length == n
    ensures forall i: nat :: i < n ==> (chosen[i] <==> i in Chosen(n, distances, thresh))
  {
    chosen := new bool[n](_ => false);
    chosen[0] := true;
    if n > 1 {
      chosen[n - 1] := true;
    }
    for i := 0 to |distances|
      invariant forall j: nat :: j < n ==>
        (chosen[j] <==> j == 0 || j == n - 1 || (0 < j <= i && distances[j - 1] >= thresh))
    {
      if distances[i] >= thresh {
        var idx := i + 1;
        if idx < n {
          chosen[idx] := true;
        }
      }
    }
    forall i: nat | i < n
      ensures chosen[i] <==> i in Chosen(n, distances, thresh)
    {
      assert 0 < i <= |distances| && distances[i - 1] >= thresh ==> i - 1 + 1 in Chosen(n, distances, thresh);
    }
  }

  /** The marked indices in order. */
  method Marked(chosen: array<bool>) returns (out: seq<nat>)
    ensures Increasing(out)
    ensures forall i: nat :: i in out <==> i < chosen.Length && chosen[i]
  {
    out := [];
    for i := 0 to chosen.Length
      invariant Increasing(out)
      invariant forall j: nat :: j in out <==> j < i && chosen[j]
    {
      if chosen[i] {
        assert forall k :: 0 <= k < |out| ==> out[k] in out;
        out := out + [i];
      }
    }
  }

  /** Keep the first, the last and evenly spaced ones of the rest. */
  method ThinOut(c: seq<nat>, m: nat) returns (out: seq<nat>)
    requires Increasing(c) && 0 < m < |c|
    ensures out == Thin(c, m)
  {
    hide Sort, Dedup, Spaced;
    var keep := [c[0]];
    if |c| > 1 {
      keep := keep + [c[|c| - 1]];
    }
    var inner := if |c| >= 2 then |c| - 2 else 0;
    var need := if m >= |keep| then m - |keep| else 0;
    if inner > 0 && need > 0 {
      for k := 0 to need
        invariant keep == [c[0], c[|c| - 1]] + Middle(c, k, need)
      {
        var j := 1 + Spaced(k, inner, need);
        SpacedInside(k, inner, need);
        keep := keep + [c[if j <= |c| - 2 then j else |c| - 2]];
      }
    }
    SortedKeep(c, m, keep);
    out := Sort(keep);
    out := Dedup(out);
    if |out| > m {
      out := out[..m];
    }
  }

  /** Sorted, the kept indices are the thinned list; with room for one, its first is all that stays. */
  lemma SortedKeep(c: seq<nat>, m: nat, keep: seq<nat>)
    requires Increasing(c) && 0 < m < |c|
    requires keep == [c[0], c[|c| - 1]] + if m == 1 then [] else Middle(c, m - 2, m - 2)
    ensures Dedup(Sort(keep)) == if m == 1 then [c[0], c[|c| - 1]] else Thin(c, m)
  {
    if m == 1 {
      assert keep == [c[0], c[|c| - 1]];
      SortedIs(keep, keep);
    } else {
      ThinIs(c, m);
      ThinnedKeep(c, m);
      SortedIs(keep, Thin(c, m));
    }
  }

  lemma SortedIs(keep: seq<nat>, sorted: seq<nat>)
    requires NoRepeats(keep) && Increasing(sorted) && Elements(sorted) == Elements(keep)
    ensures Dedup(Sort(keep)) == sorted
  {
    SortIs(keep);
    hide Sort, Dedup, Elements;
    IncreasingIsDetermined(Sort(keep), sorted);
    DedupIncreasing(sorted);
  }

  lemma ThinnedKeep(c: seq<nat>, m: nat)
    requires Increasing(c) && 2 <= m < |c|
    ensures var keep := [c[0], c[|c| - 1]] + Middle(c, m - 2, m - 2);
      NoRepeats(keep) && Elements(Thin(c, m)) == Elements(keep)
  {
    MiddleIncreasing(c, m - 2, m - 2);
    var (first, last, mid) := (c[0], c[|c| - 1], Middle(c, m - 2, m - 2));
    assert Thin(c, m) == [first] + mid + [last];
    hide Middle, Thin, Elements;
    EndsOut(first, last, mid);
    assert first < last;
    EndsFirst(first, last, mid);
  }

  lemma EndsOut(first: nat, last: nat, mid: seq<nat>)
    ensures Elements([first] + mid + [last]) == Elements([first, last] + mid)
  {
    ElementsOfConcat([first] + mid, [last]);
    ElementsOfConcat([first], mid);
    ElementsOfConcat([first, last], mid);
    assert Elements([first, last]) == Elements([first]) + Elements([last]);
  }

  lemma EndsFirst(first: nat, last: nat, mid: seq<nat>)
    requires first < last && Increasing(mid) && forall x :: x in mid ==> first < x < last
    ensures NoRepeats([first, last] + mid)
  {
    forall k | 0 <= k < |mid|
      ensures first < mid[k] < last
    {
      assert mid[k] in mid;
    }
  }

  /** Fill with even positions, or where one is taken with the first free frame. */
  method FillUp(c: seq<nat>, n: nat, m: nat) returns (out: seq<nat>)
    requires Increasing(c) && |c| <= m <= n && Elements(c) <= Below(n)
    ensures Increasing(out) && |Elements(c)| == |c| && Elements(out) == Fill(Elements(c), n, m)
  {
    hide Fill, Spaced, Sort, Below, FirstFree;
    ElementsCount(c);
    out := c;
    while |out| < m
      invariant NoRepeats(out) && |out| <= m
      invariant |Elements(out)| == |out| && Elements(out) <= Below(n)
      invariant Fill(Elements(out), n, m) == Fill(Elements(c), n, m)
    {
      var k := |out|;
      var idx := Spaced(k, n - 1, if m > 1 then m else 1);
      ghost var was := Elements(out);
      FillStep(was, n, m);
      NextFillIsNew(was, n, m);
      FirstFreeIs(was, n, 0);
      if idx !in out {
        Pushed(out, idx);
        out := out + [idx];
      } else {
        var added := false;
        for i := 0 to n
          invariant !added ==> |out| == k && Elements(out) == was
          invariant !added && forall j :: 0 <= j < i ==> j in was
        {
          if i !in out {
            FirstFreeFound(was, n, i);
            Pushed(out, i);
            out := out + [i];
            added := true;
            break;
          }
        }
        if !added {
          AllTaken(was, n);
          break;
        }
      }
    }
    FillDone(Elements(out), n, m);
    SortIs(out);
    out := Sort(out);
  }

  lemma FillStep(s: set<nat>, n: nat, m: nat)
    requires |s| < m <= n && s <= Below(n)
    ensures NextFill(s, n, m) !in s && NextFill(s, n, m) < n
    ensures s + {NextFill(s, n, m)} <= Below(n) && |s + {NextFill(s, n, m)}| == |s| + 1
    ensures Fill(s, n, m) == Fill(s + {NextFill(s, n, m)}, n, m)
  {
    NextFillIsNew(s, n, m);
  }

  lemma FillDone(s: set<nat>, n: nat, m: nat)
    requires |s| == m <= n && s <= Below(n)
    ensures Fill(s, n, m) == s
  {
  }

  lemma FirstFreeFound(s: set<nat>, n: nat, i: nat)
    requires i < n && i !in s && forall j :: 0 <= j < i ==> j in s
    ensures FirstFree(s, n, 0) == i
  {
    FirstFreeIs(s, n, 0);
  }

  /** Up to `maxFrames` indices: every scene cut if they fit, filled up; otherwise thinned. */
  method PickIndices(n: nat, maxFrames: nat, distances: seq<real>, thresh: real) returns (out: seq<nat>)
    ensures n == 0 || maxFrames == 0 ==> out == []
    ensures Increasing(out) && forall i :: i in out ==> i < n
    ensures |out| == if n <= maxFrames then n else maxFrames
    ensures n > 0 && maxFrames > 0 ==> 0 in out && (n - 1 in out <==> (|out| >= 2 || n == 1))
    ensures n > 0 && maxFrames > 0 ==>
      (Chosen(n, distances, thresh) <= Elements(out) <==> |Chosen(n, distances, thresh)| <= |out|)
    ensures n > 0 && 0 < |Chosen(n, distances, thresh)| <= |out| ==>
      Chosen(n, distances, thresh) <= Below(n) && Elements(out) == Fill(Chosen(n, distances, thresh), n, |out|)
    ensures n > 0 && 0 < |out| < |Chosen(n, distances, thresh)| ==>
      exists c :: Increasing(c) && Elements(c) == Chosen(n, distances, thresh) && |c| > |out| && out == Thin(c, |out|)
  {
    if n == 0 || maxFrames == 0 {
      return [];
    }
    hide Chosen, Fill, Thin, Below, Elements;
    var m := if maxFrames <= n then maxFrames else n;
    var chosen := Mark(n, distances, thresh);
    out := Marked(chosen);
    ghost var (cuts, c) := (Chosen(n, distances, thresh), out);
    MarkedAll(c, n, distances, thresh);
    if |out| > m {
      out := ThinOut(out, m);
      Thinned(c, m, n);
      return;
    }
    out := FillUp(out, n, m);
    Filled(c, out, n, m);
  }

  lemma MarkedAll(c: seq<nat>, n: nat, distances: seq<real>, thresh: real)
    requires n > 0 && Increasing(c)
    requires forall i: nat :: i in c <==> i < n && i in Chosen(n, distances, thresh)
    ensures Elements(c) == Chosen(n, distances, thresh) <= Below(n) && |Elements(c)| == |c|
    ensures c != [] && c[0] == 0 && c[|c| - 1] == n - 1
  {
    ElementsCount(c);
    assert 0 in c && n - 1 in c;
    assert forall i :: i in Chosen(n, distances, thresh) ==> i < n;
    assert c[0] in c && c[|c| - 1] in c;
  }

  lemma Thinned(c: seq<nat>, m: nat, n: nat)
    requires Increasing(c) && 0 < m < |c| && |Elements(c)| == |c| && c[0] == 0 && c[|c| - 1] == n - 1
    requires Elements(c) <= Below(n)
    ensures var out := Thin(c, m);
      Increasing(out) && |out| == m && 0 in out && (n - 1 in out <==> m >= 2 || n == 1)
      && (forall i :: i in out ==> i < n) && !(Elements(c) <= Elements(out))
  {
    ThinIs(c, m);
    hide Thin, Below;
    var out := Thin(c, m);
    ElementsCount(out);
    assert forall i :: i in out ==> i in Elements(out) && i in Elements(c);
    assert Elements(out) <= Elements(c) && Elements(out) != Elements(c);
    assert out[0] in out && out[m - 1] in out;
  }

  lemma Filled(c: seq<nat>, out: seq<nat>, n: nat, m: nat)
    requires Increasing(c) && |Elements(c)| == |c| <= m <= n && Elements(c) <= Below(n)
    requires c != [] && c[0] == 0 && c[|c| - 1] == n - 1
    requires Increasing(out) && Elements(out) == Fill(Elements(c), n, m)
    ensures |out| == m && 0 in out && n - 1 in out && Elements(c) <= Elements(out)
    ensures forall i :: i in out ==> i < n
    ensures m >= 2 || n == 1
  {
    ElementsCount(out);
    hide Fill;
    assert c[0] in Elements(c) && c[|c| - 1] in Elements(c);
    assert forall i :: i in out ==> i in Elements(out);
  }
}
