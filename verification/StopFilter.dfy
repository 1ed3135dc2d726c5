/** The stop-string filter: `split_emit` of the decode loop and what it amounts to
    over a whole stream of pieces. */
module StopFilter {
  import opened Strings

  datatype Split =
    | Emit(emit: string, keep: string)
    | Stop(before: string, matched: string)

  /** A non-empty stop string stands at `i`. */
  ghost predicate StopAt(s: string, stops: seq<string>, i: nat) {
    exists k :: 0 <= k < |stops| && stops[k] != "" && OccursAt(s, stops[k], i)
  }

  ghost predicate HasStop(s: string, stops: seq<string>) {
    exists i: nat :: StopAt(s, stops, i)
  }

  /** The tail of length `n` is a strict, non-empty prefix of a stop string. */
  ghost predicate Begun(s: string, stops: seq<string>, n: nat) {
    0 < n && exists k :: 0 <= k < |stops| && n < |stops[k]| && TailIsPrefix(s, stops[k], n)
  }

  /** The earliest match, as (offset, stop); the first stop of the list wins a tie. */
  ghost predicate IsBest(s: string, stops: seq<string>, best: Option<(nat, string)>) {
    match best
    case None => !HasStop(s, stops)
    case Some((pos, m)) =>
      && (forall i: nat :: i < pos ==> !StopAt(s, stops, i))
      && exists k :: 0 <= k < |stops| && stops[k] == m && m != "" && OccursAt(s, m, pos)
           && forall j :: 0 <= j < k && stops[j] != "" ==> !OccursAt(s, stops[j], pos)
  }

  ghost predicate IsHold(s: string, stops: seq<string>, hold: nat) {
    && hold <= |s|
    && (hold > 0 ==> Begun(s, stops, hold))
    && forall n: nat :: hold < n ==> !Begun(s, stops, n)
  }

  function Best(s: string, stops: seq<string>): (best: Option<(nat, string)>)
    ensures IsBest(s, stops, best)
  {
    if stops == [] then None
    else
      var n := |stops| - 1;
      var last := stops[n];
      var rest := Best(s, stops[..n]);
      BestStep(s, stops[..n], last, rest);
      assert stops[..n] + [last] == stops;
      NextBest(s, last, rest)
  }

  /** One pass of the first loop. */
  function NextBest(s: string, stop: string, best: Option<(nat, string)>): Option<(nat, string)> {
    if stop == "" then best
    else
      var f := Find(s, stop);
      if f.Some? && (best.None? || f.value < best.value.0) then Some((f.value, stop)) else best
  }

  lemma BestStep(s: string, stops: seq<string>, stop: string, best: Option<(nat, string)>)
    requires IsBest(s, stops, best)
    ensures IsBest(s, stops + [stop], NextBest(s, stop, best))
  {
    var all := stops + [stop];
    var next := NextBest(s, stop, best);
    FindIsFirst(s, stop);
    assert all[|stops|] == stop;
    assert forall i: nat :: StopAt(s, all, i) <==> StopAt(s, stops, i) || (stop != "" && OccursAt(s, stop, i)) by {
      forall i: nat
        ensures StopAt(s, all, i) <==> StopAt(s, stops, i) || (stop != "" && OccursAt(s, stop, i))
      {
        if StopAt(s, stops, i) {
          var k :| 0 <= k < |stops| && stops[k] != "" && OccursAt(s, stops[k], i);
          assert all[k] == stops[k];
        }
      }
    }
    if next.Some? && next != best {
      var pos := next.value.0;
      assert forall j :: 0 <= j < |stops| && stops[j] != "" ==> !OccursAt(s, stops[j], pos) by {
        if j :| 0 <= j < |stops| && stops[j] != "" && OccursAt(s, stops[j], pos) {
          assert StopAt(s, stops, pos);
        }
      }
      assert all[|stops|] == next.value.1;
    } else if next.Some? {
      var k :| 0 <= k < |stops| && stops[k] == best.value.1 && OccursAt(s, best.value.1, best.value.0)
        && forall j :: 0 <= j < k && stops[j] != "" ==> !OccursAt(s, stops[j], best.value.0);
      assert all[k] == stops[k];
    }
  }

  /** Longest tail of `s` that is a strict prefix of `stop`, tried from `n` down. */
  function LongestTail(s: string, stop: string, n: nat): (len: nat)
    requires n <= |s| && (n < |stop| || n == 0)
    ensures len <= n && (len > 0 ==> TailIsPrefix(s, stop, len))
    ensures forall m: nat :: len < m <= n ==> !TailIsPrefix(s, stop, m)
  {
    if n == 0 then 0 else if TailIsPrefix(s, stop, n) then n else LongestTail(s, stop, n - 1)
  }

  function MaxTail(s: string, stop: string): nat {
    if stop == "" then 0 else if |s| < |stop| - 1 then |s| else |stop| - 1
  }

  /** One pass of the second loop. */
  function NextHold(s: string, stop: string, hold: nat): nat {
    var len := LongestTail(s, stop, MaxTail(s, stop));
    if len > hold then len else hold
  }

  function Hold(s: string, stops: seq<string>): (hold: nat)
    ensures IsHold(s, stops, hold)
  {
    if stops == [] then 0
    else
      var n := |stops| - 1;
      var rest := Hold(s, stops[..n]);
      HoldStep(s, stops[..n], stops[n], rest);
      assert stops[..n] + [stops[n]] == stops;
      NextHold(s, stops[n], rest)
  }

  lemma HoldStep(s: string, stops: seq<string>, stop: string, hold: nat)
    requires IsHold(s, stops, hold)
    ensures IsHold(s, stops + [stop], NextHold(s, stop, hold))
  {
    var all := stops + [stop];
    assert all[|stops|] == stop;
    forall n: nat
      ensures Begun(s, all, n) <==> Begun(s, stops, n) || (0 < n < |stop| && TailIsPrefix(s, stop, n))
    {
      if Begun(s, stops, n) {
        var k :| 0 <= k < |stops| && n < |stops[k]| && TailIsPrefix(s, stops[k], n);
        assert all[k] == stops[k];
      }
    }
  }

  /** What `split_emit` returns. */
  function SplitOf(pending: string, stops: seq<string>): (r: Split)
    ensures r.Stop? <==> HasStop(pending, stops)
    ensures r.Stop? ==> IsBest(pending, stops, Some((|r.before|, r.matched))) && r.before <= pending
    ensures r.Emit? ==> r.emit + r.keep == pending && IsHold(pending, stops, |r.keep|)
  {
    match Best(pending, stops)
    case Some((pos, m)) =>
      assert StopAt(pending, stops, pos);
      Stop(pending[..pos], m)
    case None =>
      var cut := |pending| - Hold(pending, stops);
      assert pending == pending[..cut] + pending[cut..];
      Emit(pending[..cut], pending[cut..])
  }

  lemma InBounds(pending: string, stops: seq<string>)
    ensures Best(pending, stops).Some? ==> Best(pending, stops).value.0 <= |pending|
    ensures Hold(pending, stops) <= |pending|
  {
  }

  method SplitEmit(pending: string, stops: seq<string>) returns (r: Split)
    ensures r == SplitOf(pending, stops)
  {
    hide Find, OccursAt, TailIsPrefix, IsBest, IsHold;
    var best: Option<(nat, string)> := None;
    for k := 0 to |stops|
      invariant best == Best(pending, stops[..k])
    {
      assert stops[..k + 1][..k] == stops[..k];
      var stop := stops[k];
      if stop == "" {
        continue;
      }
      var pos := Find(pending, stop);
      if pos.Some? && (best.None? || pos.value < best.value.0) {
        best := Some((pos.value, stop));
      }
    }
    assert stops[..|stops|] == stops;
    InBounds(pending, stops);
    if best.Some? {
      return Stop(pending[..best.value.0], best.value.1);
    }
    var hold: nat := 0;
    for k := 0 to |stops|
      invariant hold == Hold(pending, stops[..k])
    {
      assert stops[..k + 1][..k] == stops[..k];
      var stop := stops[k];
      if stop == "" {
        continue;
      }
      var len := if |pending| < |stop| - 1 then |pending| else |stop| - 1;
      while len > 0 && !TailIsPrefix(pending, stop, len)
        invariant 0 <= len <= MaxTail(pending, stop)
        invariant LongestTail(pending, stop, len) == LongestTail(pending, stop, MaxTail(pending, stop))
      {
        len := len - 1;
      }
      if len > hold {
        hold := len;
      }
    }
    if hold == 0 {
      r := Emit(pending, "");
    } else if hold >= |pending| {
      r := Emit("", pending);
    } else {
      r := Emit(pending[..|pending| - hold], pending[|pending| - hold..]);
    }
  }

  // ---- over a whole stream ------------------------------------------------------

  /** What is known between two pieces: `out` was released, `pending` is withheld. */
  ghost predicate Clean(out: string, pending: string, stops: seq<string>) {
    && !HasStop(out + pending, stops)
    && forall n: nat :: |pending| < n ==> !Begun(out + pending, stops, n)
  }

  lemma CleanStart(stops: seq<string>)
    ensures Clean("", "", stops)
  {
  }

  /** Looking only at `pending + piece` finds every match in the whole stream. */
  lemma StopInPending(out: string, pending: string, piece: string, stops: seq<string>, i: nat)
    requires Clean(out, pending, stops) && StopAt(out + pending + piece, stops, i)
    ensures |out| <= i && StopAt(pending + piece, stops, i - |out|)
  {
    var seen := out + pending;
    var k :| 0 <= k < |stops| && stops[k] != "" && OccursAt(seen + piece, stops[k], i);
    var d := stops[k];
    assert !StopAt(seen, stops, i);
    if i + |d| <= |seen| {
      OccursAtAppend(seen, piece, d, i);
      assert false;
    }
    if i < |out| {
      assert !Begun(seen, stops, |seen| - i);
      StraddlingLeavesPrefix(seen, piece, d, i);
      assert false;
    }
    assert seen + piece == out + (pending + piece);
    OccursAtShift(out, pending + piece, d, i - |out|);
  }

  /** One piece: either the stream has no stop and the invariant is kept, or the text
      before the earliest stop of the whole stream is what has been let through. */
  lemma PieceStep(out: string, pending: string, piece: string, stops: seq<string>)
    requires Clean(out, pending, stops)
    ensures var s := out + pending + piece;
            match SplitOf(pending + piece, stops)
            case Emit(e, k) => (out + e) + k == s && Clean(out + e, k, stops)
            case Stop(b, m) => out + b <= s && IsBest(s, stops, Some((|out + b|, m)))
  {
    var p := pending + piece;
    assert out + pending + piece == out + p;
    match SplitOf(p, stops)
    case Emit(e, k) =>
      assert (out + e) + k == out + p;
      EmitStep(out, pending, piece, stops);
    case Stop(b, m) =>
      StopStep(out, pending, piece, stops);
      assert (out + p)[..|out + b|] == out + b;
  }

  lemma EmitStep(out: string, pending: string, piece: string, stops: seq<string>)
    requires Clean(out, pending, stops) && SplitOf(pending + piece, stops).Emit?
    ensures !HasStop(out + pending + piece, stops)
    ensures forall n: nat :: |SplitOf(pending + piece, stops).keep| < n ==> !Begun(out + pending + piece, stops, n)
  {
    hide OccursAt, TailIsPrefix;
    var (s, p) := (out + pending + piece, pending + piece);
    if i: nat :| StopAt(s, stops, i) {
      StopInPending(out, pending, piece, stops, i);
      assert false;
    }
    forall n: nat | |SplitOf(p, stops).keep| < n
      ensures !Begun(s, stops, n)
    {
      assert !Begun(p, stops, n);
      if Begun(s, stops, n) {
        var j :| 0 <= j < |stops| && n < |stops[j]| && TailIsPrefix(s, stops[j], n);
        assert s == out + p;
        if n <= |p| {
          TailPrefixLocal(out, p, stops[j], n);
          assert false;
        } else {
          assert !Begun(out + pending, stops, n - |piece|);
          TailPrefixBack(out + pending, piece, stops[j], n);
          assert false;
        }
      }
    }
  }

  lemma StopStep(out: string, pending: string, piece: string, stops: seq<string>)
    requires Clean(out, pending, stops) && SplitOf(pending + piece, stops).Stop?
    ensures var r := SplitOf(pending + piece, stops);
            IsBest(out + (pending + piece), stops, Some((|out + r.before|, r.matched)))
  {
    var p := pending + piece;
    var s := out + p;
    assert s == out + pending + piece;
    var Stop(b, m) := SplitOf(p, stops);
    forall i: nat | i < |out + b|
      ensures !StopAt(s, stops, i)
    {
      if StopAt(s, stops, i) {
        StopInPending(out, pending, piece, stops, i);
        assert false;
      }
    }
    forall j | 0 <= j < |stops|
      ensures OccursAt(s, stops[j], |out + b|) <==> OccursAt(p, stops[j], |b|)
    {
      OccursAtShift(out, p, stops[j], |b|);
    }
    var k :| 0 <= k < |stops| && stops[k] == m && m != "" && OccursAt(p, m, |b|)
         && forall j :: 0 <= j < k && stops[j] != "" ==> !OccursAt(p, stops[j], |b|);
    assert stops[k] == m && OccursAt(s, m, |out + b|);
  }
}
