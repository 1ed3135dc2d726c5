/** However the blocks of a message are fragmented and interleaved, the stream gives the tool
    calls of the whole message. */
module SseReassembly {
  import opened Strings
  import opened Sequences
  import opened Sse

  /** A content block of the whole message. */
  datatype Block =
    | WholeText(text: string)
    | WholeThinking(text: string, signature: string)
    | WholeTool(id: string, name: string, input: Json)
    | WholeOther(kind: string)

  function CallsOf(c: Codec, b: Block): seq<ToolCall> {
    if b.WholeTool? then [ToolCall(b.id, b.name, c.write(b.input))] else []
  }

  /** The part of `parse_message` that collects tool calls, in block order. */
  function MessageCalls(c: Codec, blocks: seq<Block>): seq<ToolCall> {
    if blocks == [] then []
    else
      var b := blocks[|blocks| - 1];
      MessageCalls(c, blocks[..|blocks| - 1]) + CallsOf(c, b)
  }

  /** The content blocks that survive a stream: all but empty text and unknown kinds. */
  function MessageContent(blocks: seq<Block>): seq<Json> {
    if blocks == [] then []
    else MessageContent(blocks[..|blocks| - 1]) + BlockContent(blocks[|blocks| - 1])
  }

  function BlockContent(b: Block): seq<Json> {
    match b
    case WholeText(t) => if t != "" then [TextJson(t)] else []
    case WholeThinking(t, s) => [ThinkingJson(t, s)]
    case WholeTool(id, name, input) => [ToolJson(id, name, input)]
    case WholeOther(_) => []
  }

  // ---- one block -----------------------------------------------------------------------

  function IndexOf(e: SseEvent): Option<nat> {
    match e
    case BlockStart(i, _) => i
    case BlockDelta(i, _) => i
    case _ => None
  }

  /** The events of block `i`, in order. */
  function For(i: nat, evs: seq<SseEvent>): seq<SseEvent> {
    if evs == [] then []
    else For(i, evs[..|evs| - 1]) + if IndexOf(evs[|evs| - 1]) == Some(i) then [evs[|evs| - 1]] else []
  }

  function BuildStep(c: Codec, b: Option<SseBlock>, e: SseEvent): Option<SseBlock> {
    match e
    case BlockStart(_, start) => Some(NewBlock(c, start))
    case BlockDelta(_, d) => if b.Some? then Some(AddDelta(b.value, d)) else None
    case _ => b
  }

  /** What the events of one block build. */
  function Built(c: Codec, evs: seq<SseEvent>): Option<SseBlock> {
    if evs == [] then None
    else BuildStep(c, Built(c, evs[..|evs| - 1]), evs[|evs| - 1])
  }

  function Accumulated(c: Codec, evs: seq<SseEvent>): map<nat, SseBlock> {
    if evs == [] then map[] else Accumulate(c, Accumulated(c, evs[..|evs| - 1]), evs[|evs| - 1])
  }

  /** A block depends only on its own events: interleaving does not matter. */
  lemma {:induction false} BlocksAreIndependent(c: Codec, evs: seq<SseEvent>, i: nat)
    ensures i in Accumulated(c, evs) <==> Built(c, For(i, evs)).Some?
    ensures i in Accumulated(c, evs) ==> Built(c, For(i, evs)) == Some(Accumulated(c, evs)[i])
  {
    hide NewBlock, AddDelta;
    if evs != [] {
      var (init, e) := (evs[..|evs| - 1], evs[|evs| - 1]);
      BlocksAreIndependent(c, init, i);
      if IndexOf(e) == Some(i) {
        BuiltSnoc(c, For(i, init), e);
      } else {
        assert For(i, evs) == For(i, init);
      }
    }
  }

  lemma BuiltSnoc(c: Codec, evs: seq<SseEvent>, e: SseEvent)
    ensures Built(c, evs + [e]) == BuildStep(c, Built(c, evs), e)
  {
    assert (evs + [e])[..|evs|] == evs;
  }

  // ---- fragmentation ---------------------------------------------------------------------

  function JsonOf(ds: seq<Delta>): string {
    if ds == [] then ""
    else JsonOf(ds[..|ds| - 1]) + match ds[|ds| - 1] case InputJson(s) => s case _ => ""
  }

  function TextOf(ds: seq<Delta>): string {
    if ds == [] then ""
    else TextOf(ds[..|ds| - 1]) + match ds[|ds| - 1] case TextDelta(s) => s case ThinkingDelta(s) => s case _ => ""
  }

  function SignatureOf(ds: seq<Delta>): string {
    if ds == [] then ""
    else SignatureOf(ds[..|ds| - 1]) + match ds[|ds| - 1] case Signature(s) => s case _ => ""
  }

  function Deltas(i: nat, ds: seq<Delta>): seq<SseEvent> {
    seq(|ds|, k requires 0 <= k < |ds| => BlockDelta(Some(i), ds[k]))
  }

  function Grown(b: SseBlock, ds: seq<Delta>): SseBlock {
    b.(json := b.json + JsonOf(ds), text := b.text + TextOf(ds), signature := b.signature + SignatureOf(ds))
  }

  lemma GrownSnoc(b: SseBlock, ds: seq<Delta>)
    requires ds != []
    ensures Grown(b, ds) == AddDelta(Grown(b, ds[..|ds| - 1]), ds[|ds| - 1])
  {
    var (init, d) := (ds[..|ds| - 1], ds[|ds| - 1]);
    var (json, text, signature) := (JsonOf(init), TextOf(init), SignatureOf(init));
    assert JsonOf(ds) == json + (if d.InputJson? then d.s else "");
    assert TextOf(ds) == text + (if d.TextDelta? || d.ThinkingDelta? then d.s else "");
    assert SignatureOf(ds) == signature + (if d.Signature? then d.s else "");
    hide JsonOf, TextOf, SignatureOf;
    Glue(b.json, json, if d.InputJson? then d.s else "");
    Glue(b.text, text, if d.TextDelta? || d.ThinkingDelta? then d.s else "");
    Glue(b.signature, signature, if d.Signature? then d.s else "");
  }

  lemma Glue(a: string, b: string, c: string)
    ensures a + (b + c) == (a + b) + c && a + "" == a
  {
  }

  lemma GrownNone(b: SseBlock)
    ensures Grown(b, []) == b
  {
  }

  lemma {:induction false} BuiltFrom(c: Codec, i: nat, start: Start, ds: seq<Delta>)
    ensures Built(c, [BlockStart(Some(i), start)] + Deltas(i, ds)) == Some(Grown(NewBlock(c, start), ds))
  {
    hide NewBlock;
    var first := [BlockStart(Some(i), start)];
    if ds == [] {
      assert first + Deltas(i, ds) == [] + first;
      BuiltSnoc(c, [], first[0]);
      GrownNone(NewBlock(c, start));
    } else {
      var (init, d) := (ds[..|ds| - 1], ds[|ds| - 1]);
      BuiltFrom(c, i, start, init);
      assert first + Deltas(i, ds) == (first + Deltas(i, init)) + [BlockDelta(Some(i), d)];
      BuiltSnoc(c, first + Deltas(i, init), BlockDelta(Some(i), d));
      GrownSnoc(NewBlock(c, start), ds);
    }
  }

  /** The text of a tool input in fragments: nothing at all stands for the empty object. */
  predicate Spells(c: Codec, json: string, input: Json) {
    if json == "" then c.read("").None? && input == EMPTY else c.read(json) == Some(input)
  }

  /** A tool input is sent in fragments alone, or inlined alone. */
  predicate SendsInput(c: Codec, input: Json, start: Start, json: string) {
    || (Inlined(c, start.input) == "" && Spells(c, json, input))
    || (json == "" && start.input == Some(input) && c.write(input) != "null" && c.read(c.write(input)) == Some(input))
  }

  /** `start` and `ds` are a way to send block `b`: the pieces, in order, spell it. */
  predicate Sends(c: Codec, b: Block, start: Start, ds: seq<Delta>) {
    match b
    case WholeText(t) => start.kind == "text" && TextOf(ds) == t
    case WholeThinking(t, s) => start.kind == "thinking" && TextOf(ds) == t && SignatureOf(ds) == s
    case WholeTool(id, name, input) =>
      start.kind == "tool_use" && start.id == id && start.name == name && SendsInput(c, input, start, JsonOf(ds))
    case WholeOther(kind) => start.kind == kind && kind != "text" && kind != "thinking" && kind != "tool_use"
  }

  /** The events of each index are a start and deltas that send its block, and there are no
      others; otherwise the order is free. */
  ghost predicate Streams(c: Codec, idx: seq<nat>, blocks: seq<Block>, evs: seq<SseEvent>) {
    && |idx| == |blocks| && Increasing(idx)
    && (forall i: nat :: i !in idx ==> For(i, evs) == [])
    && forall k :: 0 <= k < |idx| ==> SentAt(c, idx[k], blocks[k], evs)
  }

  ghost predicate SentAt(c: Codec, i: nat, b: Block, evs: seq<SseEvent>) {
    exists start: Start, ds: seq<Delta> ::
      Sends(c, b, start, ds) && For(i, evs) == [BlockStart(Some(i), start)] + Deltas(i, ds)
  }

  /** Whatever the events of index `i` are, they come to block `b`. */
  ghost predicate ArrivesAs(c: Codec, i: nat, b: Block, evs: seq<SseEvent>) {
    var built := Built(c, For(i, evs));
    built.Some?
    && CallOf(c, built.value) == CallsOf(c, b)
    && ContentOf(c, built.value) == BlockContent(b)
  }

  ghost predicate Arrive(c: Codec, idx: seq<nat>, blocks: seq<Block>, evs: seq<SseEvent>) {
    && |idx| == |blocks| && Increasing(idx)
    && (forall i: nat :: i !in idx ==> For(i, evs) == [])
    && forall k :: 0 <= k < |idx| ==> ArrivesAs(c, idx[k], blocks[k], evs)
  }

  /** A block that was sent arrives. */
  lemma SentArrives(c: Codec, i: nat, b: Block, evs: seq<SseEvent>)
    requires SentAt(c, i, b, evs)
    ensures ArrivesAs(c, i, b, evs)
  {
    hide JsonOf, TextOf, SignatureOf, Built, For;
    var start: Start, ds: seq<Delta> :|
      Sends(c, b, start, ds) && For(i, evs) == [BlockStart(Some(i), start)] + Deltas(i, ds);
    BuiltFrom(c, i, start, ds);
    assert "" + TextOf(ds) == TextOf(ds) && "" + SignatureOf(ds) == SignatureOf(ds);
    assert "" + JsonOf(ds) == JsonOf(ds) && Inlined(c, start.input) + "" == Inlined(c, start.input);
  }

  lemma StreamsArrive(c: Codec, idx: seq<nat>, blocks: seq<Block>, evs: seq<SseEvent>)
    requires Streams(c, idx, blocks, evs)
    ensures Arrive(c, idx, blocks, evs)
  {
    hide SentAt, ArrivesAs;
    forall k | 0 <= k < |idx|
      ensures ArrivesAs(c, idx[k], blocks[k], evs)
    {
      SentArrives(c, idx[k], blocks[k], evs);
    }
  }

  // ---- index order --------------------------------------------------------------------------

  lemma {:induction false} InIndexOrder(c: Codec, m: map<nat, SseBlock>, idx: seq<nat>, blocks: seq<Block>, n: nat)
    requires n <= |idx| == |blocks| && forall k :: k in idx ==> k in m
    requires forall k :: 0 <= k < |idx| ==>
      && CallOf(c, m[idx[k]]) == CallsOf(c, blocks[k])
      && ContentOf(c, m[idx[k]]) == BlockContent(blocks[k])
    ensures CallsUpTo(c, m, idx, n) == MessageCalls(c, blocks[..n])
    ensures ContentUpTo(c, m, idx, n) == MessageContent(blocks[..n])
  {
    hide CallOf, ContentOf, BlockContent;
    if n > 0 {
      InIndexOrder(c, m, idx, blocks, n - 1);
      assert blocks[..n][..n - 1] == blocks[..n - 1];
    }
  }

  /** The event `parse_message` gives for its tool calls, with the surviving content. */
  function WholeUse(c: Codec, blocks: seq<Block>): seq<Event> {
    if MessageCalls(c, blocks) == [] then [] else [ToolUse(MessageCalls(c, blocks), JArray(MessageContent(blocks)))]
  }

  /** The flush gives the tool use of the blocks that arrived. */
  lemma FlushIsArrived(c: Codec, idx: seq<nat>, blocks: seq<Block>, evs: seq<SseEvent>)
    requires Arrive(c, idx, blocks, evs)
    ensures Flush(c, Tools(Accumulated(c, evs), false)).0 == WholeUse(c, blocks)
    ensures idx != [] ==> Flush(c, Tools(Accumulated(c, evs), false)).1.flushed
  {
    hide CallOf, ContentOf, CallsOf, Accumulated, For, Built, BlockContent;
    hide MessageCalls, MessageContent, CallsUpTo, ContentUpTo;
    var m := Accumulated(c, evs);
    forall i: nat
      ensures i in m <==> i in idx
    {
      BlocksAreIndependent(c, evs, i);
      if i in idx {
        var k :| 0 <= k < |idx| && idx[k] == i;
        assert ArrivesAs(c, idx[k], blocks[k], evs);
      } else {
        BuiltNone(c);
      }
    }
    forall k | 0 <= k < |idx|
      ensures CallOf(c, m[idx[k]]) == CallsOf(c, blocks[k]) && ContentOf(c, m[idx[k]]) == BlockContent(blocks[k])
    {
      BlocksAreIndependent(c, evs, idx[k]);
      assert ArrivesAs(c, idx[k], blocks[k], evs);
    }
    AscendingIs(m.Keys);
    IncreasingUnique(Ascending(m.Keys), idx);
    InIndexOrder(c, m, idx, blocks, |idx|);
    assert blocks[..|idx|] == blocks;
    FirstIn(idx);
    NoBlocks(c);
  }

  lemma FlushIsWhole(c: Codec, idx: seq<nat>, blocks: seq<Block>, evs: seq<SseEvent>)
    requires Streams(c, idx, blocks, evs)
    ensures Flush(c, Tools(Accumulated(c, evs), false)).0 == WholeUse(c, blocks)
    ensures idx != [] ==> Flush(c, Tools(Accumulated(c, evs), false)).1.flushed
  {
    StreamsArrive(c, idx, blocks, evs);
    FlushIsArrived(c, idx, blocks, evs);
  }

  lemma BuiltNone(c: Codec)
    ensures Built(c, []).None?
  {
  }

  lemma FirstIn(idx: seq<nat>)
    ensures idx == [] || idx[0] in idx
  {
  }

  lemma NoBlocks(c: Codec)
    ensures WholeUse(c, []) == []
  {
  }

  // ---- the whole stream ------------------------------------------------------------------------

  lemma {:induction false} StepsAppend(c: Codec, p: Parse, a: seq<SseEvent>, b: seq<SseEvent>)
    ensures Steps(c, p, a + b) == Steps(c, Steps(c, p, a), b)
  {
    hide Step;
    if b == [] {
      assert a + b == a;
    } else {
      assert (a + b)[..|a + b| - 1] == a + b[..|b| - 1];
      StepsAppend(c, p, a, b[..|b| - 1]);
    }
  }

  /** No message delta with a stop reason among the events. */
  predicate NoStop(evs: seq<SseEvent>) {
    forall k :: 0 <= k < |evs| ==> !(evs[k].MessageDelta? && evs[k].stop.Some?)
  }

  lemma {:induction false} BeforeStop(c: Codec, evs: seq<SseEvent>)
    requires NoStop(evs)
    ensures Steps(c, BEGIN, evs).tools == Tools(Accumulated(c, evs), false)
    ensures CountToolUse(Steps(c, BEGIN, evs).out) == 0
  {
    if evs != [] {
      BeforeStop(c, evs[..|evs| - 1]);
    }
    StepsOnce(c, evs);
  }

  /** Once flushed, no more tool uses; and what was sent stays. */
  lemma {:induction false} AfterFlush(c: Codec, p: Parse, evs: seq<SseEvent>) returns (rest: seq<Event>)
    requires p.tools.flushed
    ensures Steps(c, p, evs).tools.flushed
    ensures Steps(c, p, evs).out == p.out + rest && CountToolUse(rest) == 0
  {
    hide Accumulate, CountToolUse, Steps;
    if evs == [] {
      rest := [];
      StepsNone(c, p);
      CountNone([]);
    } else {
      var (init, e) := (evs[..|evs| - 1], evs[|evs| - 1]);
      var r := AfterFlush(c, p, init);
      var more := OneAfterFlush(c, Steps(c, p, init), e);
      StepsLast(c, p, evs);
      rest := r + more;
      CountAppend(r, more);
    }
  }

  lemma StepsNone(c: Codec, p: Parse)
    ensures Steps(c, p, []) == p
  {
  }

  lemma StepsLast(c: Codec, p: Parse, evs: seq<SseEvent>)
    requires evs != []
    ensures Steps(c, p, evs) == Step(c, Steps(c, p, evs[..|evs| - 1]), evs[|evs| - 1])
  {
  }

  lemma OneAfterFlush(c: Codec, p: Parse, e: SseEvent) returns (more: seq<Event>)
    requires p.tools.flushed
    ensures Step(c, p, e).tools.flushed && Step(c, p, e).out == p.out + more && CountToolUse(more) == 0
  {
    hide Accumulate, CountToolUse;
    CountNone([]);
    match e
    case BlockStart(_, _) => more := [];
    case BlockDelta(_, d) =>
      more := DeltaEvents(d);
      CountNone(more);
    case MessageDelta(usage, stop) =>
      var u := UsageEvents(usage);
      CountNone(u);
      if stop.Some? {
        var r := RefusalEvents(stop.value);
        CountNone(r);
        CountNone([Done(stop.value)]);
        CountAppend(r, [Done(stop.value)]);
        CountAppend(u, r + [Done(stop.value)]);
        more := u + (r + [Done(stop.value)]);
        assert r + [] + [Done(stop.value)] == r + [Done(stop.value)];
        assert p.out + u + (r + [Done(stop.value)]) == p.out + more;
      } else {
        more := u;
      }
    case MessageStop =>
      if exists k :: 0 <= k < |p.out| && p.out[k].Done? {
        more := [];
      } else {
        more := [Done("end_turn")];
        CountNone(more);
      }
    case Other => more := [];
  }

  /** What arrived before the message delta with the stop reason is yielded there. */
  lemma ArrivedThenStop(c: Codec, idx: seq<nat>, blocks: seq<Block>, before: seq<SseEvent>,
                        usage: Option<Tokens>, stop: string, after: seq<SseEvent>)
    returns (first: seq<Event>, rest: seq<Event>)
    requires Arrive(c, idx, blocks, before) && NoStop(before) && idx != []
    ensures ParseSse(c, before + [MessageDelta(usage, Some(stop))] + after)
         == first + WholeUse(c, blocks) + [Done(stop)] + rest
    ensures CountToolUse(first) == 0 && CountToolUse(rest) == 0
  {
    hide Arrive, Accumulated, CountToolUse, WholeUse, Steps;
    BeforeStop(c, before);
    FlushIsArrived(c, idx, blocks, before);
    var p := Steps(c, BEGIN, before);
    var e := MessageDelta(usage, Some(stop));
    var q := Step(c, p, e);
    StepsAppend(c, BEGIN, before, [e]);
    StepsAppend(c, BEGIN, before + [e], after);
    StepsOneEvent(c, p, e);
    var (u, r) := (UsageEvents(usage), RefusalEvents(stop));
    first := p.out + u + r;
    CountNone(u);
    CountNone(r);
    CountAppend(p.out, u);
    CountAppend(p.out + u, r);
    assert q.out == first + WholeUse(c, blocks) + [Done(stop)];
    rest := AfterFlush(c, q, after);
    var last := Steps(c, q, after);
    assert Flush(c, last.tools).0 == [];
    assert ParseSse(c, before + [e] + after) == last.out + [];
  }

  /** The stream of a message: its blocks in any fragmentation and interleaving, then the
      message delta with the stop reason, then anything. It yields the tool use of the whole
      message, once, directly before the `Done` of that delta. */
  lemma Reassembly(c: Codec, idx: seq<nat>, blocks: seq<Block>, before: seq<SseEvent>,
                   usage: Option<Tokens>, stop: string, after: seq<SseEvent>)
    returns (first: seq<Event>, rest: seq<Event>)
    requires Streams(c, idx, blocks, before) && NoStop(before) && idx != []
    ensures ParseSse(c, before + [MessageDelta(usage, Some(stop))] + after)
         == first + WholeUse(c, blocks) + [Done(stop)] + rest
    ensures CountToolUse(first) == 0 && CountToolUse(rest) == 0
  {
    hide *;
    StreamsArrive(c, idx, blocks, before);
    first, rest := ArrivedThenStop(c, idx, blocks, before, usage, stop, after);
  }

  lemma StepsOneEvent(c: Codec, p: Parse, e: SseEvent)
    ensures Steps(c, p, [e]) == Step(c, p, e)
  {
    assert [e][..0] == [];
  }

  /** A stream cut before its stop reason still yields the calls, last. */
  lemma CutShort(c: Codec, idx: seq<nat>, blocks: seq<Block>, evs: seq<SseEvent>)
    requires Streams(c, idx, blocks, evs) && NoStop(evs)
    ensures ParseSse(c, evs) == Steps(c, BEGIN, evs).out + WholeUse(c, blocks)
    ensures CountToolUse(Steps(c, BEGIN, evs).out) == 0
  {
    hide Streams, Accumulated, CountToolUse, WholeUse, Steps, Flush;
    BeforeStop(c, evs);
    FlushIsWhole(c, idx, blocks, evs);
  }
}
