/** A start that inlines an input and is followed by fragments: exactly when the call survives. */
module InlinedInput {
  import opened Strings
  import opened Sequences
  import opened Sse
  import opened SseReassembly

  /** Nothing that can be read may follow the text of `v`. In JSON that holds of every value
      but a number, which a further digit continues. */
  ghost predicate EndsItself(c: Codec, v: Json) {
    forall f :: c.read(f).Some? ==> c.read(c.write(v) + f).None?
  }

  /** The start brings no input text of its own. */
  predicate Bare(c: Codec, start: Start) {
    Inlined(c, start.input) == ""
  }

  /** The start of a tool block and the fragments after it: the fragments alone spell its input. */
  ghost predicate FragmentsSpell(c: Codec, b: Block, start: Start, ds: seq<Delta>) {
    && b.WholeTool? && start.kind == "tool_use" && start.id == b.id && start.name == b.name
    && c.read(JsonOf(ds)) == Some(b.input)
    && (Bare(c, start) || EndsItself(c, start.input.value))
  }

  /** What such a block comes to: itself, or the same call with an empty input. */
  function Survivor(c: Codec, b: Block, start: Start): Block
    requires b.WholeTool?
  {
    if Bare(c, start) then b else b.(input := EMPTY)
  }

  lemma ArrivesAsSurvivor(c: Codec, i: nat, b: Block, start: Start, ds: seq<Delta>, evs: seq<SseEvent>)
    requires FragmentsSpell(c, b, start, ds) && For(i, evs) == [BlockStart(Some(i), start)] + Deltas(i, ds)
    ensures ArrivesAs(c, i, Survivor(c, b, start), evs)
  {
    hide JsonOf, TextOf, SignatureOf, Built, For;
    BuiltFrom(c, i, start, ds);
    assert "" + JsonOf(ds) == JsonOf(ds);
  }

  lemma {:induction false} SameCallsExactly(c: Codec, blocks: seq<Block>, k: nat, b: Block)
    requires k < |blocks| && blocks[k].WholeTool? && b.WholeTool? && b == blocks[k].(input := b.input)
    ensures |MessageCalls(c, blocks[k := b])| == |MessageCalls(c, blocks)| > 0
    ensures MessageCalls(c, blocks[k := b]) == MessageCalls(c, blocks) <==> c.write(b.input) == c.write(blocks[k].input)
  {
    var (n, now) := (|blocks| - 1, blocks[k := b]);
    if k < n {
      SameCallsExactly(c, blocks[..n], k, b);
      assert now[..n] == blocks[..n][k := b];
      var (x, y, z) := (MessageCalls(c, now[..n]), MessageCalls(c, blocks[..n]), CallsOf(c, blocks[n]));
      assert (x + z)[..|x|] == x && (y + z)[..|y|] == y;
    } else {
      assert now[..n] == blocks[..n];
      var x := MessageCalls(c, blocks[..n]);
      assert (x + CallsOf(c, b))[|x|] == CallsOf(c, b)[0];
    }
  }

  lemma {:induction false} SameContentExactly(blocks: seq<Block>, k: nat, b: Block)
    requires k < |blocks| && blocks[k].WholeTool? && b.WholeTool? && b == blocks[k].(input := b.input)
    ensures |MessageContent(blocks[k := b])| == |MessageContent(blocks)|
    ensures MessageContent(blocks[k := b]) == MessageContent(blocks) <==> b == blocks[k]
  {
    var (n, now) := (|blocks| - 1, blocks[k := b]);
    if k < n {
      SameContentExactly(blocks[..n], k, b);
      assert now[..n] == blocks[..n][k := b];
      var (x, y, z) := (MessageContent(now[..n]), MessageContent(blocks[..n]), BlockContent(blocks[n]));
      assert (x + z)[..|x|] == x && (y + z)[..|y|] == y;
    } else {
      assert now[..n] == blocks[..n];
      var x := MessageContent(blocks[..n]);
      assert (x + BlockContent(b))[|x|] == BlockContent(b)[0];
      assert (x + BlockContent(blocks[n]))[|x|] == BlockContent(blocks[n])[0];
      DifferentTools(b, blocks[n]);
    }
  }

  lemma DifferentTools(b: Block, b': Block)
    requires b.WholeTool? && b'.WholeTool? && b == b'.(input := b.input)
    ensures BlockContent(b) == BlockContent(b') <==> b == b'
  {
    var (m, m') := (BlockContent(b)[0].fields, BlockContent(b')[0].fields);
    assert m["input"] == b.input && m'["input"] == b'.input;
  }

  /**
    A message in which one tool block is sent as a start and fragments that spell its input,
    and the others in any way that sends them. The stream yields the tool use of the whole
    message exactly when that start brings no input of its own, or the input is empty;
    otherwise the call arrives with an empty input. The calls alone are those of the message
    also when the input is written like the empty one.
   */
  lemma InlinedInputExactly(c: Codec, idx: seq<nat>, blocks: seq<Block>, k: nat, start: Start, ds: seq<Delta>,
                            before: seq<SseEvent>, usage: Option<Tokens>, stop: string, after: seq<SseEvent>)
    returns (first: seq<Event>, use: seq<Event>, rest: seq<Event>)
    requires |idx| == |blocks| && Increasing(idx) && k < |idx| && NoStop(before)
    requires forall i: nat :: i !in idx ==> For(i, before) == []
    requires forall j :: 0 <= j < |idx| && j != k ==> SentAt(c, idx[j], blocks[j], before)
    requires FragmentsSpell(c, blocks[k], start, ds)
    requires For(idx[k], before) == [BlockStart(Some(idx[k]), start)] + Deltas(idx[k], ds)
    ensures ParseSse(c, before + [MessageDelta(usage, Some(stop))] + after) == first + use + [Done(stop)] + rest
    ensures CountToolUse(first) == 0 && CountToolUse(rest) == 0
    ensures var arrived := blocks[k := Survivor(c, blocks[k], start)];
      use == WholeUse(c, arrived)
      && (MessageCalls(c, arrived) == MessageCalls(c, blocks)
          <==> (Bare(c, start) || c.write(blocks[k].input) == c.write(EMPTY)))
    ensures use == WholeUse(c, blocks) <==> (Bare(c, start) || blocks[k].input == EMPTY)
  {
    hide SentAt, ArrivesAs, For, JsonOf, Deltas, CountToolUse, MessageCalls, MessageContent;
    var b := Survivor(c, blocks[k], start);
    var now := blocks[k := b];
    forall j | 0 <= j < |idx|
      ensures ArrivesAs(c, idx[j], now[j], before)
    {
      if j == k {
        ArrivesAsSurvivor(c, idx[k], blocks[k], start, ds, before);
      } else {
        SentArrives(c, idx[j], blocks[j], before);
      }
    }
    use := WholeUse(c, now);
    first, rest := ArrivedThenStop(c, idx, now, before, usage, stop, after);
    SameCallsExactly(c, blocks, k, b);
    SameContentExactly(blocks, k, b);
    if Bare(c, start) {
      assert now == blocks;
    }
  }

  lemma ServerArrives(c: Codec, start: Start, fragment: string)
    requires c.write(EMPTY) == "{}" && EndsItself(c, EMPTY) && c.read(fragment).Some?
    requires start.kind == "tool_use" && start.input == Some(EMPTY)
    ensures Arrive(c, [0], [WholeTool(start.id, start.name, EMPTY)],
                   [BlockStart(Some(0), start), BlockDelta(Some(0), InputJson(fragment))])
  {
    var (e0, e1, ds) := (BlockStart(Some(0), start), BlockDelta(Some(0), InputJson(fragment)), [InputJson(fragment)]);
    var evs := [e0, e1];
    assert evs[..1] == [e0] && [e0][..0] == [];
    forall i: nat
      ensures For(i, evs) == if i == 0 then [e0] + Deltas(0, ds) else []
    {
      assert For(i, [e0]) == if i == 0 then [e0] else [];
    }
    BuiltFrom(c, 0, start, ds);
    assert ds[..0] == [] && JsonOf(ds) == "" + fragment;
    assert Inlined(c, start.input) == "{}";
    assert InputOf(c, "{}" + fragment) == EMPTY;
    hide Built, For;
    assert ArrivesAs(c, 0, WholeTool(start.id, start.name, EMPTY), evs);
  }

  lemma ServerUse(c: Codec, id: string, name: string)
    ensures WholeUse(c, [WholeTool(id, name, EMPTY)])
         == [ToolUse([ToolCall(id, name, c.write(EMPTY))], JArray([ToolJson(id, name, EMPTY)]))]
  {
    var blocks := [WholeTool(id, name, EMPTY)];
    assert MessageCalls(c, blocks[..0]) == [] && MessageContent(blocks[..0]) == [];
    assert MessageCalls(c, blocks) == [ToolCall(id, name, c.write(EMPTY))];
    assert MessageContent(blocks) == [ToolJson(id, name, EMPTY)];
  }

  lemma ServerSteps(c: Codec, start: Start, fragment: string)
    ensures var evs := [BlockStart(Some(0), start), BlockDelta(Some(0), InputJson(fragment))];
      Steps(c, BEGIN, evs).out == [] && NoStop(evs)
  {
    var evs := [BlockStart(Some(0), start), BlockDelta(Some(0), InputJson(fragment))];
    assert evs[..1] == [evs[0]] && [evs[0]][..0] == [];
    StepsNone(c, BEGIN);
    StepsLast(c, BEGIN, [evs[0]]);
    StepsLast(c, BEGIN, evs);
  }

  /** The shape in which this repository's own server sends a call: an empty object in the
      start, the arguments in one fragment. The arguments are lost. */
  lemma EmptyObjectSpoils(c: Codec, id: string, name: string, fragment: string)
    requires c.write(EMPTY) == "{}" && EndsItself(c, EMPTY) && c.read(fragment).Some?
    ensures ParseSse(c, [BlockStart(Some(0), Start("tool_use", id, name, Some(EMPTY))),
                         BlockDelta(Some(0), InputJson(fragment)),
                         MessageDelta(None, Some("tool_use"))])
         == [ToolUse([ToolCall(id, name, "{}")], JArray([ToolJson(id, name, EMPTY)])), Done("tool_use")]
  {
    hide Accumulated, Arrive, WholeUse, Steps, Flush;
    var start := Start("tool_use", id, name, Some(EMPTY));
    var evs := [BlockStart(Some(0), start), BlockDelta(Some(0), InputJson(fragment))];
    var stop := MessageDelta(None, Some("tool_use"));
    ServerArrives(c, start, fragment);
    ServerUse(c, id, name);
    ServerSteps(c, start, fragment);
    BeforeStop(c, evs);
    FlushIsArrived(c, [0], [WholeTool(id, name, EMPTY)], evs);
    StepsLast(c, BEGIN, evs + [stop]);
    assert (evs + [stop])[..2] == evs;
    var last := Steps(c, BEGIN, evs + [stop]);
    FlushedOnce(c, last.tools);
    assert evs + [stop] == [evs[0], evs[1], stop];
  }

  lemma FlushedOnce(c: Codec, t: Tools)
    requires t.flushed
    ensures Flush(c, t).0 == []
  {
  }
}
