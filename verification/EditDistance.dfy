/** Word error rate: the two-row edit distance is the least number of edits. */
module EditDistance {
  function Min(a: nat, b: nat): nat {
    if a <= b then a else b
  }

  function Init<T>(s: seq<T>): seq<T>
    requires s != []
  {
    s[..|s| - 1]
  }

  function Last<T>(s: seq<T>): T
    requires s != []
  {
    s[|s| - 1]
  }

  /** The recurrence the rows follow. */
  function Lev<T(==)>(a: seq<T>, b: seq<T>): nat
    decreases |a| + |b|
  {
    if a == [] then |b|
    else if b == [] then |a|
    else
      Min(Min(Lev(Init(a), b) + 1, Lev(a, Init(b)) + 1),
          Lev(Init(a), Init(b)) + if Last(a) == Last(b) then 0 else 1)
  }

  method Levenshtein<T(==)>(a: seq<T>, b: seq<T>) returns (d: nat)
    ensures d == Lev(a, b)
  {
    hide Lev;
    var (n, m) := (|a|, |b|);
    var prev := new nat[m + 1](j requires 0 <= j <= m => j);
    var cur := new nat[m + 1](_ => 0);
    FirstRow(a, b);
    for i := 1 to n + 1
      invariant fresh(prev) && fresh(cur) && prev != cur && prev.Length == cur.Length == m + 1
      invariant forall j :: 0 <= j <= m ==> prev[j] == Lev(a[..i - 1], b[..j])
    {
      NextRow(a, b, i, prev, cur);
      prev, cur := cur, prev;
    }
    assert a[..n] == a && b[..m] == b;
    d := prev[m];
  }

  lemma {:induction false} FirstRow<T>(a: seq<T>, b: seq<T>)
    ensures forall j :: 0 <= j <= |b| ==> Lev(a[..0], b[..j]) == j
  {
  }

  /** Fill the row of the first `i` tokens from the row before. */
  method NextRow<T(==)>(a: seq<T>, b: seq<T>, i: nat, prev: array<nat>, cur: array<nat>)
    requires 0 < i <= |a| && prev != cur && prev.Length == cur.Length == |b| + 1
    requires forall j :: 0 <= j <= |b| ==> prev[j] == Lev(a[..i - 1], b[..j])
    modifies cur
    ensures forall j :: 0 <= j <= |b| ==> cur[j] == Lev(a[..i], b[..j])
  {
    hide Lev;
    cur[0] := i;
    Heads(a, i);
    LevNone(a[..i]);
    assert b[..0] == [];
    for j := 1 to |b| + 1
      invariant forall k :: 0 <= k <= |b| ==> prev[k] == Lev(a[..i - 1], b[..k])
      invariant forall k :: 0 <= k < j ==> cur[k] == Lev(a[..i], b[..k])
    {
      Heads(b, j);
      var cost := if a[i - 1] != b[j - 1] then 1 else 0;
      cur[j] := Min(Min(prev[j] + 1, cur[j - 1] + 1), prev[j - 1] + cost);
      LevBoth(a[..i], b[..j]);
    }
  }

  lemma {:induction false} LevNone<T>(a: seq<T>)
    ensures Lev(a, []) == |a|
  {
  }

  lemma {:induction false} LevBoth<T>(a: seq<T>, b: seq<T>)
    requires a != [] && b != []
    ensures Lev(a, b) == Min(Min(Lev(Init(a), b) + 1, Lev(a, Init(b)) + 1),
                             Lev(Init(a), Init(b)) + if Last(a) == Last(b) then 0 else 1)
  {
  }

  lemma Heads<T>(s: seq<T>, i: nat)
    requires 0 < i <= |s|
    ensures Init(s[..i]) == s[..i - 1] && Last(s[..i]) == s[i - 1] && s[..i] != []
  {
  }

  // ---- edits ----------------------------------------------------------------------------

  datatype Edit<T> = Insert(at: nat, x: T) | Delete(at: nat) | Substitute(at: nat, x: T)

  predicate Applies<T>(e: Edit<T>, s: seq<T>) {
    match e
    case Insert(at, _) => at <= |s|
    case Delete(at) => at < |s|
    case Substitute(at, _) => at < |s|
  }

  function Apply<T>(e: Edit<T>, s: seq<T>): seq<T>
    requires Applies(e, s)
  {
    match e
    case Insert(at, x) => s[..at] + [x] + s[at..]
    case Delete(at) => s[..at] + s[at + 1..]
    case Substitute(at, x) => s[..at] + [x] + s[at + 1..]
  }

  /** `edits`, one after another and anywhere, turn `a` into `b`. */
  predicate Turns<T(==)>(edits: seq<Edit<T>>, a: seq<T>, b: seq<T>)
    decreases |edits|
  {
    if edits == [] then a == b
    else Applies(edits[0], a) && Turns(edits[1..], Apply(edits[0], a), b)
  }

  // ---- no edit list is shorter ------------------------------------------------------------

  lemma {:induction false} LevSelf<T>(a: seq<T>)
    ensures Lev(a, a) == 0
    decreases |a|
  {
    if a != [] {
      LevSelf(Init(a));
    }
  }

  /** One token more or less at the end moves the distance by at most one. */
  lemma {:induction false} LevDropLast<T>(a: seq<T>, b: seq<T>)
    requires a != []
    ensures Lev(Init(a), b) <= Lev(a, b) + 1 && Lev(a, b) <= Lev(Init(a), b) + 1
    decreases |a| + |b|
  {
    if b != [] {
      LevDropLast(a, Init(b));
      if Init(a) != [] {
        LevLower(Init(a), b);
      }
    }
  }

  lemma {:induction false} LevLower<T>(a: seq<T>, b: seq<T>)
    requires a != [] && b != []
    ensures Lev(a, b) <= Lev(a, Init(b)) + 1 && Lev(a, b) <= Lev(Init(a), b) + 1
  {
  }

  /** Distances to `b` of two lists that differ in one place differ by at most one. */
  lemma {:induction false} EditMovesByOne<T>(a: seq<T>, a': seq<T>, tail: seq<T>, b: seq<T>)
    requires forall c: seq<T> :: Lev(a', c) <= Lev(a, c) + 1
    ensures Lev(a' + tail, b) <= Lev(a + tail, b) + 1
    decreases |tail| + |b|
  {
    if tail == [] {
      assert a + tail == a && a' + tail == a';
    } else {
      assert Init(a + tail) == a + Init(tail) && Init(a' + tail) == a' + Init(tail);
      if b == [] {
        EditMovesByOne(a, a', Init(tail), b);
        LevNone(a + tail);
        LevNone(a' + tail);
        LevNone(a + Init(tail));
        LevNone(a' + Init(tail));
      } else {
        EditMovesByOne(a, a', Init(tail), b);
        EditMovesByOne(a, a', tail, Init(b));
        EditMovesByOne(a, a', Init(tail), Init(b));
      }
    }
  }

  lemma SnocMovesByOne<T(!new)>(a: seq<T>, x: T)
    ensures forall c: seq<T> :: Lev(a + [x], c) <= Lev(a, c) + 1 && Lev(a, c) <= Lev(a + [x], c) + 1
  {
    forall c: seq<T>
      ensures Lev(a + [x], c) <= Lev(a, c) + 1 && Lev(a, c) <= Lev(a + [x], c) + 1
    {
      assert Init(a + [x]) == a;
      LevDropLast(a + [x], c);
    }
  }

  lemma {:induction false} SubstituteLast<T>(a: seq<T>, x: T, y: T, c: seq<T>)
    ensures Lev(a + [y], c) <= Lev(a + [x], c) + 1
    decreases |c|
  {
    assert Init(a + [x]) == a && Init(a + [y]) == a;
    if c != [] {
      SubstituteLast(a, x, y, Init(c));
    } else {
      LevNone(a + [x]);
      LevNone(a + [y]);
    }
  }

  /** An edit before `a` costs at most one: the triangle inequality for one edit. */
  lemma OneEdit<T(!new)>(e: Edit<T>, a: seq<T>, b: seq<T>)
    requires Applies(e, a)
    ensures Lev(a, b) <= Lev(Apply(e, a), b) + 1
  {
    hide Lev;
    match e
    case Insert(at, x) =>
      var (s, t) := (a[..at], a[at..]);
      SnocMovesByOne(s, x);
      EditMovesByOne(s + [x], s, t, b);
      assert a == s + t;
    case Delete(at) =>
      var (s, t) := (a[..at], a[at + 1..]);
      SnocMovesByOne(s, a[at]);
      EditMovesByOne(s, s + [a[at]], t, b);
      assert a == s + [a[at]] + t;
    case Substitute(at, x) =>
      var (s, t) := (a[..at], a[at + 1..]);
      forall c: seq<T>
        ensures Lev(s + [a[at]], c) <= Lev(s + [x], c) + 1
      {
        SubstituteLast(s, x, a[at], c);
      }
      EditMovesByOne(s + [x], s + [a[at]], t, b);
      assert a == s + [a[at]] + t;
  }

  lemma {:induction false} NoFewerEdits<T(!new)>(edits: seq<Edit<T>>, a: seq<T>, b: seq<T>)
    requires Turns(edits, a, b)
    ensures Lev(a, b) <= |edits|
    decreases |edits|
  {
    hide Lev;
    if edits == [] {
      LevSelf(a);
    } else {
      OneEdit(edits[0], a, b);
      NoFewerEdits(edits[1..], Apply(edits[0], a), b);
    }
  }

  // ---- and one of that length exists ---------------------------------------------------------

  /** Edits inside `a` are edits inside `a + tail`. */
  lemma {:induction false} TurnsBefore<T>(edits: seq<Edit<T>>, a: seq<T>, b: seq<T>, tail: seq<T>)
    requires Turns(edits, a, b)
    ensures Turns(edits, a + tail, b + tail)
    decreases |edits|
  {
    if edits != [] {
      var e := edits[0];
      assert Apply(e, a + tail) == Apply(e, a) + tail by {
        EditBefore(e, a, tail);
      }
      TurnsBefore(edits[1..], Apply(e, a), b, tail);
    }
  }

  lemma EditBefore<T>(e: Edit<T>, a: seq<T>, tail: seq<T>)
    requires Applies(e, a)
    ensures Applies(e, a + tail) && Apply(e, a + tail) == Apply(e, a) + tail
  {
    match e
    case Insert(at, x) => assert (a + tail)[at..] == a[at..] + tail && (a + tail)[..at] == a[..at];
    case Delete(at) => assert (a + tail)[at + 1..] == a[at + 1..] + tail && (a + tail)[..at] == a[..at];
    case Substitute(at, x) => assert (a + tail)[at + 1..] == a[at + 1..] + tail && (a + tail)[..at] == a[..at];
  }

  lemma {:induction false} TurnsThen<T>(edits: seq<Edit<T>>, a: seq<T>, b: seq<T>, e: Edit<T>)
    requires Turns(edits, a, b) && Applies(e, b)
    ensures Turns(edits + [e], a, Apply(e, b))
    decreases |edits|
  {
    if edits == [] {
      assert [e][1..] == [];
      assert edits + [e] == [e];
    } else {
      TurnsThen(edits[1..], Apply(edits[0], a), b, e);
      assert (edits + [e])[1..] == edits[1..] + [e];
    }
  }

  lemma DeleteLast<T>(rest: seq<Edit<T>>, a: seq<T>, b: seq<T>, x: T)
    requires Turns(rest, a, b)
    ensures Turns(rest + [Delete(|b|)], a + [x], b)
  {
    hide Turns;
    TurnsBefore(rest, a, b, [x]);
    TurnsThen(rest, a + [x], b + [x], Delete(|b|));
    assert Apply(Delete(|b|), b + [x]) == b;
  }

  lemma InsertLast<T>(rest: seq<Edit<T>>, a: seq<T>, b: seq<T>, y: T)
    requires Turns(rest, a, b)
    ensures Turns(rest + [Insert(|b|, y)], a, b + [y])
  {
    hide Turns;
    TurnsThen(rest, a, b, Insert(|b|, y));
    assert Apply(Insert(|b|, y), b) == b + [y];
  }

  lemma ReplaceLast<T>(rest: seq<Edit<T>>, a: seq<T>, b: seq<T>, x: T, y: T)
    requires Turns(rest, a, b)
    ensures Turns(rest, a + [x], b + [x])
    ensures Turns(rest + [Substitute(|b|, y)], a + [x], b + [y])
  {
    hide Turns;
    TurnsBefore(rest, a, b, [x]);
    TurnsThen(rest, a + [x], b + [x], Substitute(|b|, y));
    assert Apply(Substitute(|b|, y), b + [x]) == b + [y];
  }

  /** The edits along the recurrence. */
  lemma {:induction false} ShortestEdits<T>(a: seq<T>, b: seq<T>) returns (edits: seq<Edit<T>>)
    ensures Turns(edits, a, b) && |edits| == Lev(a, b)
    decreases |a| + |b|
  {
    hide Turns;
    if a == [] {
      edits := InsertAll(b);
    } else if b == [] {
      edits := DeleteAll(a);
    } else {
      var (a', x, b', y) := (Init(a), Last(a), Init(b), Last(b));
      assert a == a' + [x] && b == b' + [y];
      if Lev(a, b) == Lev(a', b) + 1 {
        var rest := ShortestEdits(a', b);
        DeleteLast(rest, a', b, x);
        edits := rest + [Delete(|b|)];
      } else if Lev(a, b) == Lev(a, b') + 1 {
        var rest := ShortestEdits(a, b');
        InsertLast(rest, a, b', y);
        edits := rest + [Insert(|b'|, y)];
      } else {
        var rest := ShortestEdits(a', b');
        ReplaceLast(rest, a', b', x, y);
        edits := if x == y then rest else rest + [Substitute(|b'|, y)];
      }
    }
  }

  lemma TurnsNone<T>(a: seq<T>)
    ensures Turns([], a, a)
  {
  }

  lemma {:induction false} InsertAll<T>(b: seq<T>) returns (edits: seq<Edit<T>>)
    ensures Turns(edits, [], b) && |edits| == |b|
    decreases |b|
  {
    hide Turns;
    if b == [] {
      edits := [];
      TurnsNone(b);
    } else {
      var rest := InsertAll(Init(b));
      var e := Insert(|b| - 1, Last(b));
      TurnsThen(rest, [], Init(b), e);
      assert Apply(e, Init(b)) == b;
      edits := rest + [e];
    }
  }

  lemma {:induction false} DeleteAll<T>(a: seq<T>) returns (edits: seq<Edit<T>>)
    ensures Turns(edits, a, []) && |edits| == |a|
    decreases |a|
  {
    hide Turns;
    if a == [] {
      edits := [];
      TurnsNone(a);
    } else {
      var rest := DeleteAll(Init(a));
      TurnsBefore(rest, Init(a), [], [Last(a)]);
      assert Init(a) + [Last(a)] == a;
      assert [] + [Last(a)] == [Last(a)];
      TurnsThen(rest, a, [Last(a)], Delete(0));
      assert Apply(Delete(0), [Last(a)]) == [];
      edits := rest + [Delete(0)];
    }
  }

  /** The distance is the least number of edits that turn one list into the other. */
  lemma LevIsLeast<T(!new)>(a: seq<T>, b: seq<T>)
    ensures exists edits: seq<Edit<T>> :: Turns(edits, a, b) && |edits| == Lev(a, b)
    ensures forall edits: seq<Edit<T>> :: Turns(edits, a, b) ==> Lev(a, b) <= |edits|
  {
    var shortest := ShortestEdits(a, b);
    forall edits: seq<Edit<T>> | Turns(edits, a, b)
      ensures Lev(a, b) <= |edits|
    {
      NoFewerEdits(edits, a, b);
    }
  }

  // ---- the error rate -------------------------------------------------------------------------

  /** Word error rate of token lists. */
  method WordErrorRate(hyp: seq<string>, refer: seq<string>) returns (wer: real)
    ensures refer != [] ==> wer == Lev(hyp, refer) as real / |refer| as real
    ensures refer == [] ==> wer == if hyp == [] then 0.0 else 1.0
    ensures wer == 0.0 <==> hyp == refer
  {
    if refer == [] {
      return if hyp == [] then 0.0 else 1.0;
    }
    hide Lev;
    var dist := Levenshtein(hyp, refer);
    wer := dist as real / |refer| as real;
    Quotient(dist as real, |refer| as real);
    LevZeroExactly(hyp, refer);
  }

  lemma Quotient(x: real, y: real)
    requires y > 0.0
    ensures x / y == 0.0 <==> x == 0.0
  {
  }

  lemma LevZeroExactly(a: seq<string>, b: seq<string>)
    ensures Lev(a, b) == 0 <==> a == b
  {
    hide Lev;
    if a == b {
      LevSelf(a);
    } else if Lev(a, b) == 0 {
      var edits := ShortestEdits(a, b);
      assert false;
    }
  }
}
