/** The splitter as the object the decode loop drives. */
module Splitter {
  import opened Strings
  import opened Reasoning
  import Stream = ReasoningStream

  method FindOpenTag(buf: string, pairs: seq<Pair>) returns (best: Option<(nat, Pair)>)
    ensures best == FindOpen(buf, pairs)
  {
    best := None;
    for k := 0 to |pairs|
      invariant best == FindOpen(buf, pairs[..k])
    {
      assert pairs[..k + 1][..k] == pairs[..k];
      var i := Find(buf, pairs[k].open);
      if i.Some? && (best.None? || i.value < best.value.0) {
        best := Some((i.value, pairs[k]));
      }
    }
    assert pairs[..|pairs|] == pairs;
  }

  /** Returns what may be emitted and what must be kept. */
  method EmitSafe(buf: string, needles: seq<string>) returns (emit: string, kept: string)
    ensures var cut := |buf| - KeepLen(buf, needles);
            emit == buf[..cut] && kept == buf[cut..]
  {
    var n := |buf|;
    while n > 0 && !AnyStartsWithTail(buf, needles, n)
      invariant 0 <= n <= |buf|
      invariant LongestTail(buf, needles, n) == LongestTail(buf, needles, |buf|)
    {
      n := n - 1;
    }
    var keep := if n > 0 && exists k :: 0 <= k < |needles| && |needles[k]| > n && TailIsPrefix(buf, needles[k], n)
                then n else 0;
    emit, kept := buf[..|buf| - keep], buf[|buf| - keep..];
  }

  function NonEmpty(out: seq<Piece>): seq<Piece> {
    if out == [] then []
    else (if out[0].s != "" then [out[0]] else []) + NonEmpty(out[1..])
  }

  lemma {:induction false} NothingToRemove(out: seq<Piece>)
    requires forall x :: x in out ==> x.s != ""
    ensures NonEmpty(out) == out
  {
    if out != [] {
      NothingToRemove(out[1..]);
    }
  }

  class ReasoningParser {
    const pairs: seq<Pair>
    var inReason: bool
    var buf: string
    var open: Option<Tag>
    var close: Option<Tag>

    function State(): Parser
      reads this
    {
      Parser(pairs, inReason, buf, if open.Some? && close.Some? then Some(Pair(open.value, close.value)) else None)
    }

    ghost predicate Valid()
      reads this
    {
      open.Some? == close.Some? && State().Valid()
    }

    constructor (family: Family)
      ensures Valid() && State() == Fresh(family)
    {
      pairs := Pairs(family);
      inReason := false;
      buf := "";
      open := None;
      close := None;
      new;
      FamiliesAreGood(family);
    }

    function HoldingPartial(): bool
      reads this
    {
      buf != ""
    }

    method Push(chunk: string) returns (out: seq<Piece>)
      requires Valid()
      modifies this
      ensures Valid()
      ensures Drained(State(), out) == Stream.Push(old(State()), chunk)
    {
      hide Drain, Scan, KeepLen, GoodTable;
      if chunk == "" {
        return [];
      }
      ghost var start := State().Plus(chunk);
      buf := buf + chunk;
      out := [];
      while true
        invariant Valid() && State().pairs == start.pairs
        invariant Drain(start, true).parser == Drain(State(), true).parser
        invariant Drain(start, true).out == out + Drain(State(), true).out
        decreases |buf|
      {
        var more, piece := Round();
        out := out + piece;
        if !more {
          break;
        }
      }
      DrainHolds(start, true);
      NothingToRemove(out);
      out := NonEmpty(out);
    }

    /** One round of the loop of `push`: consume the next delimiter, or emit what is safe. */
    method Round() returns (more: bool, piece: seq<Piece>)
      requires Valid()
      modifies this
      ensures Valid()
      ensures more ==> |buf| < |old(buf)| && Drain(old(State()), true).parser == Drain(State(), true).parser
      ensures more ==> Drain(old(State()), true).out == piece + Drain(State(), true).out
      ensures !more ==> Drain(old(State()), true) == Drained(State(), piece)
    {
      hide Drain, Scan, KeepLen, GoodTable;
      ghost var start := State();
      if !inReason && open.None? {
        var best := FindOpenTag(buf, pairs);
        ScanUntagged(start);
        if best.None? {
          piece := Hold(Opens(pairs));
          return false, piece;
        }
        open := Some(best.value.1.open);
        close := Some(best.value.1.close);
        TagsChosen(start, best.value.0, best.value.1);
      } else {
        ScanTagged(start);
      }
      var tag: Tag := if inReason then close.value else open.value;
      var i := Find(buf, tag);
      if i.None? {
        piece := Hold([tag]);
        return false, piece;
      }
      ghost var pair := Pair(open.value, close.value);
      AfterValid(start, true);
      DrainFound(start, true, i.value, pair);
      piece := PieceOf(inReason, buf[..i.value]);
      Consume(i.value, tag);
      more := true;
    }

    /** Cut the buffer behind the delimiter at `i` and change sides. */
    method Consume(i: nat, tag: Tag)
      requires Valid() && open.Some? && tag == (if inReason then close.value else open.value) && i + |tag| <= |buf|
      modifies this`buf, this`inReason
      ensures State() == After(old(State()), i, Pair(open.value, close.value), true)
      ensures open == old(open) && close == old(close)
    {
      hide GoodTable, StripMessage;
      buf := StripMessage(buf[i + |tag|..]);
      inReason := !inReason;
    }

    /** Nothing found: emit all but a possible beginning of a needle. */
    method Hold(needles: seq<string>) returns (piece: seq<Piece>)
      requires Valid() && Scan(State()).None? && needles == State().Live()
      modifies this`buf
      ensures Valid() && Drain(old(State()), true) == Drained(State(), piece)
    {
      hide Scan, KeepLen, GoodTable;
      var emit, kept := EmitSafe(buf, needles);
      buf := kept;
      piece := PieceOf(inReason, emit);
    }

    method Flush() returns (out: seq<Piece>)
      modifies this`buf
      ensures out == PieceOf(inReason, old(buf)) && buf == ""
    {
      if buf == "" {
        return [];
      }
      out := [if inReason then ReasoningPiece(buf) else TextPiece(buf)];
      buf := "";
    }
  }

  lemma ScanUntagged(p: Parser)
    requires p.tags.None? && !p.inReason
    ensures Scan(p) == FindOpen(p.buf, p.pairs)
  {
  }

  lemma ScanTagged(p: Parser)
    requires p.tags.Some?
    ensures Scan(p) == match Find(p.buf, Needle(p.inReason, p.tags.value))
                       case Some(i) => Some((i, p.tags.value))
                       case None => None
  {
  }

  /** Fixing the tags found first does not change what is found next. */
  lemma TagsChosen(p: Parser, i: nat, pair: Pair)
    requires p.Valid() && p.tags.None? && !p.inReason && Scan(p) == Some((i, pair))
    ensures p.(tags := Some(pair)).Valid()
    ensures Find(p.buf, pair.open) == Some(i)
  {
    ScanIsNext(p);
    FindIsFirst(p.buf, pair.open);
    var k := LiveHas(p, pair);
    assert !(Find(p.buf, pair.open).value < i) by {
      assert forall j: nat :: j < i ==> !OccursAt(p.buf, p.Live()[k], j);
    }
  }
}
