/** Substring search over strings, shared by the stop filter and the reasoning splitter.
    A string is a sequence of single-unit characters: byte offsets and character
    offsets coincide. */
module Strings {
  datatype Option<+T> = None | Some(value: T)

  /** `d` stands in `s` at offset `i`. */
  predicate OccursAt(s: string, d: string, i: nat) {
    i + |d| <= |s| && s[i..i + |d|] == d
  }

  predicate FirstAt(s: string, d: string, i: nat) {
    OccursAt(s, d, i) && forall j: nat | j < i :: !OccursAt(s, d, j)
  }

  /** `str::find`: the offset of the first occurrence. */
  function Find(s: string, d: string): (r: Option<nat>)
    ensures r.Some? ==> r.value + |d| <= |s|
  {
    if exists i: nat :: i <= |s| && FirstAt(s, d, i) then
      var i: nat :| i <= |s| && FirstAt(s, d, i);
      Some(i)
    else None
  }

  lemma FindIsFirst(s: string, d: string)
    ensures match Find(s, d)
            case Some(n) => FirstAt(s, d, n)
            case None => forall i: nat :: !OccursAt(s, d, i)
  {
    if i: nat :| OccursAt(s, d, i) {
      var n := LeastOccurrence(s, d, i);
      assert n <= |s|;
    }
  }

  lemma LeastOccurrence(s: string, d: string, i: nat) returns (n: nat)
    requires OccursAt(s, d, i)
    ensures FirstAt(s, d, n)
  {
    n := i;
    while exists j: nat :: j < n && OccursAt(s, d, j)
      invariant OccursAt(s, d, n)
      decreases n
    {
      var j: nat :| j < n && OccursAt(s, d, j);
      n := j;
    }
  }

  /** The last `n` characters of `s` are the first `n` of `d`. */
  predicate TailIsPrefix(s: string, d: string, n: nat) {
    n <= |s| && n <= |d| && s[|s| - n..] == d[..n]
  }

  /** An occurrence in `a + b` that does not fit into `a` leaves a prefix of `d` at the end of `a`. */
  lemma StraddlingLeavesPrefix(a: string, b: string, d: string, i: nat)
    requires OccursAt(a + b, d, i) && i <= |a| < i + |d|
    ensures TailIsPrefix(a, d, |a| - i)
  {
    assert (a + b)[i..i + |d|][..|a| - i] == a[i..];
  }

  lemma OccursAtAppend(a: string, b: string, d: string, i: nat)
    requires i + |d| <= |a|
    ensures OccursAt(a + b, d, i) <==> OccursAt(a, d, i)
  {
    assert (a + b)[i..i + |d|] == a[i..i + |d|];
  }

  lemma OccursAtShift(a: string, b: string, d: string, i: nat)
    ensures OccursAt(a + b, d, |a| + i) <==> OccursAt(b, d, i)
  {
    if i + |d| <= |b| {
      assert (a + b)[|a| + i..|a| + i + |d|] == b[i..i + |d|];
    }
  }

  lemma TailIndex(s: string, d: string, n: nat, k: nat)
    requires TailIsPrefix(s, d, n) && k < n
    ensures s[|s| - n + k] == d[k]
  {
    assert s[|s| - n..][k] == d[..n][k];
  }

  lemma FullTailOccurs(s: string, d: string)
    requires TailIsPrefix(s, d, |d|)
    ensures OccursAt(s, d, |s| - |d|)
  {
    assert s[|s| - |d|..] == s[|s| - |d|..|s| - |d| + |d|];
  }

  /** A tail of `a + b` longer than `b` that begins a needle was already such a tail of `a`. */
  lemma TailPrefixBack(a: string, b: string, d: string, n: nat)
    requires TailIsPrefix(a + b, d, n) && |b| <= n
    ensures TailIsPrefix(a, d, n - |b|)
  {
    assert (a + b)[|a| + |b| - n..][..n - |b|] == a[|a| - (n - |b|)..];
    assert d[..n][..n - |b|] == d[..n - |b|];
  }

  /** Tails no longer than `b` do not see what stands before `b`. */
  lemma TailPrefixLocal(a: string, b: string, d: string, n: nat)
    requires n <= |b|
    ensures TailIsPrefix(a + b, d, n) <==> TailIsPrefix(b, d, n)
  {
    assert (a + b)[|a| + |b| - n..] == b[|b| - n..];
  }

  lemma SliceFronted(a: string, b: string, k: nat)
    requires k <= |b|
    ensures (a + b)[..|a| + k] == a + b[..k]
    ensures (a + b)[|a| + k..] == b[k..]
  {
  }

  lemma SliceAppended(a: string, b: string, k: nat)
    requires k <= |a|
    ensures (a + b)[..k] == a[..k]
    ensures (a + b)[k..] == a[k..] + b
  {
  }

  function Concat(parts: seq<string>): string {
    if parts == [] then "" else Concat(parts[..|parts| - 1]) + parts[|parts| - 1]
  }

  lemma ConcatSnoc(parts: seq<string>, p: string)
    ensures Concat(parts + [p]) == Concat(parts) + p
  {
    assert (parts + [p])[..|parts|] == parts;
  }

  lemma {:induction false} ConcatAppend(a: seq<string>, b: seq<string>)
    ensures Concat(a + b) == Concat(a) + Concat(b)
  {
    if b == [] {
      assert a + b == a;
    } else {
      var (b', last) := (b[..|b| - 1], b[|b| - 1]);
      ConcatAppend(a, b');
      ConcatSnoc(a + b', last);
      assert a + b == (a + b') + [last];
      assert Concat(a + b) == (Concat(a) + Concat(b')) + last;
    }
  }
}
