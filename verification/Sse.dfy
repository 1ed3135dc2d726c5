/** Reassembly of streamed content blocks into the tool calls of the whole message. Events are
    taken after JSON decoding; `Codec` stands for the JSON reader and printer. */
module Sse {
  import opened Sequences
  import opened Strings

  datatype Json =
    | JNull
    | JString(s: string)
    | JArray(items: seq<Json>)
    | JObject(fields: map<string, Json>)
    | JOther(repr: string)

  datatype Codec = Codec(read: string -> Option<Json>, write: Json -> string)

  const EMPTY := JObject(map[])

  datatype ToolCall = ToolCall(id: string, name: string, arguments: string)

  /** What the caller receives. */
  datatype Event =
    | Reasoning(s: string)
    | Text(s: string)
    | ToolUse(calls: seq<ToolCall>, content: Json)
    | Usage(input: nat, output: nat)
    | Refusal(s: string)
    | Done(stop: string)

  datatype Start = Start(kind: string, id: string, name: string, input: Option<Json>)

  datatype Delta =
    | InputJson(s: string)
    | ThinkingDelta(s: string)
    | Signature(s: string)
    | TextDelta(s: string)
    | OtherDelta

  datatype Tokens = Tokens(input: nat, output: nat)

  /** A decoded stream event. An index can be missing. */
  datatype SseEvent =
    | BlockStart(index: Option<nat>, start: Start)
    | BlockDelta(index: Option<nat>, delta: Delta)
    | MessageDelta(usage: Option<Tokens>, stop: Option<string>)
    | MessageStop
    | Other

  // ---- the accumulator ------------------------------------------------------------

  datatype SseBlock = SseBlock(kind: string, id: string, name: string, text: string, signature: string, json: string)

  datatype Tools = Tools(blocks: map<nat, SseBlock>, flushed: bool)

  /** Text of an inlined input; `null` counts as none. */
  function Inlined(c: Codec, input: Option<Json>): string {
    match input
    case None => ""
    case Some(v) => if c.write(v) == "null" then "" else c.write(v)
  }

  function NewBlock(c: Codec, s: Start): SseBlock {
    if s.kind == "tool_use" then SseBlock(s.kind, s.id, s.name, "", "", Inlined(c, s.input))
    else SseBlock(s.kind, "", "", "", "", "")
  }

  function AddDelta(b: SseBlock, d: Delta): SseBlock {
    match d
    case InputJson(s) => b.(json := b.json + s)
    case ThinkingDelta(s) => b.(text := b.text + s)
    case Signature(s) => b.(signature := b.signature + s)
    case TextDelta(s) => b.(text := b.text + s)
    case OtherDelta => b
  }

  function Accumulate(c: Codec, blocks: map<nat, SseBlock>, e: SseEvent): map<nat, SseBlock> {
    match e
    case BlockStart(Some(i), start) => blocks[i := NewBlock(c, start)]
    case BlockDelta(Some(i), d) => if i in blocks then blocks[i := AddDelta(blocks[i], d)] else blocks
    case _ => blocks
  }

  ghost predicate IsAscending(r: seq<nat>, keys: set<nat>) {
    (forall k :: k in r <==> k in keys) && Increasing(r)
  }

  predicate IsLeast(least: nat, keys: set<nat>) {
    least in keys && forall k :: k in keys ==> least <= k
  }

  function Least(keys: set<nat>): (least: nat)
    requires keys != {}
    ensures IsLeast(least, keys)
  {
    LeastExists(keys);
    var least: nat :| IsLeast(least, keys);
    least
  }

  lemma {:induction false} LeastExists(keys: set<nat>)
    requires keys != {}
    ensures exists least: nat :: IsLeast(least, keys)
    decreases |keys|
  {
    var k :| k in keys;
    if k0 :| k0 in keys - {k} {
      LeastExists(keys - {k});
      var least: nat :| IsLeast(least, keys - {k});
      LeastOfTwo(keys, k, least);
    } else {
      assert forall j :: j in keys ==> j in keys - {k} || j == k;
      assert IsLeast(k, keys);
    }
  }

  lemma LeastOfTwo(keys: set<nat>, k: nat, least: nat)
    requires k in keys && IsLeast(least, keys - {k})
    ensures IsLeast(if k < least then k else least, keys)
  {
    forall j | j in keys
      ensures (if k < least then k else least) <= j
    {
      assert j in keys - {k} || j == k;
    }
  }

  /** Keys in ascending order. */
  function Ascending(keys: set<nat>): (r: seq<nat>)
    ensures forall k :: k in r ==> k in keys
    decreases |keys|
  {
    if keys == {} then [] else [Least(keys)] + Ascending(keys - {Least(keys)})
  }

  lemma {:induction false} AscendingIs(keys: set<nat>)
    ensures IsAscending(Ascending(keys), keys)
    decreases |keys|
  {
    hide Least;
    if keys != {} {
      var least := Least(keys);
      var rest := Ascending(keys - {least});
      AscendingIs(keys - {least});
      forall k | k in rest
        ensures least < k
      {
        assert k in keys - {least};
      }
      Prepended(least, rest);
    }
  }

  lemma Prepended(x: nat, r: seq<nat>)
    requires Increasing(r) && forall k :: k in r ==> x < k
    ensures Increasing([x] + r)
  {
    var all := [x] + r;
    assert forall i :: 0 < i < |all| ==> all[i] == r[i - 1] && all[i] in r;
  }

  function InputOf(c: Codec, json: string): Json {
    match c.read(json)
    case Some(v) => v
    case None => EMPTY
  }

  function CallOf(c: Codec, b: SseBlock): seq<ToolCall> {
    if b.kind == "tool_use" then [ToolCall(b.id, b.name, c.write(InputOf(c, b.json)))] else []
  }

  function ToolJson(id: string, name: string, input: Json): Json {
    JObject(map["type" := JString("tool_use"), "id" := JString(id), "name" := JString(name), "input" := input])
  }

  function ThinkingJson(text: string, signature: string): Json {
    var fields := map["type" := JString("thinking"), "thinking" := JString(text)];
    JObject(if signature != "" then fields["signature" := JString(signature)] else fields)
  }

  function TextJson(text: string): Json {
    JObject(map["type" := JString("text"), "text" := JString(text)])
  }

  function ContentOf(c: Codec, b: SseBlock): seq<Json> {
    if b.kind == "tool_use" then [ToolJson(b.id, b.name, InputOf(c, b.json))]
    else if b.kind == "thinking" then [ThinkingJson(b.text, b.signature)]
    else if b.kind == "text" && b.text != "" then [TextJson(b.text)]
    else []
  }

  /** Calls and content of the first `n` blocks in index order. */
  function CallsUpTo(c: Codec, blocks: map<nat, SseBlock>, keys: seq<nat>, n: nat): seq<ToolCall>
    requires n <= |keys| && forall k :: k in keys ==> k in blocks
  {
    if n == 0 then [] else CallsUpTo(c, blocks, keys, n - 1) + CallOf(c, blocks[keys[n - 1]])
  }

  function ContentUpTo(c: Codec, blocks: map<nat, SseBlock>, keys: seq<nat>, n: nat): seq<Json>
    requires n <= |keys| && forall k :: k in keys ==> k in blocks
  {
    if n == 0 then [] else ContentUpTo(c, blocks, keys, n - 1) + ContentOf(c, blocks[keys[n - 1]])
  }

  function Flush(c: Codec, t: Tools): (seq<Event>, Tools) {
    if t.flushed || t.blocks == map[] then ([], t)
    else
      var keys := Ascending(t.blocks.Keys);
      var calls := CallsUpTo(c, t.blocks, keys, |keys|);
      var content := ContentUpTo(c, t.blocks, keys, |keys|);
      (if calls == [] then [] else [ToolUse(calls, JArray(content))], t.(flushed := true))
  }

  class SseTools {
    var blocks: map<nat, SseBlock>
    var flushed: bool

    function State(): Tools
      reads this
    {
      Tools(blocks, flushed)
    }

    constructor ()
      ensures State() == Tools(map[], false)
    {
      blocks, flushed := map[], false;
    }

    method Accept(c: Codec, e: SseEvent)
      modifies this`blocks
      ensures blocks == Accumulate(c, old(blocks), e)
    {
      match e
      case BlockStart(Some(i), start) =>
        var b := SseBlock(start.kind, "", "", "", "", "");
        if start.kind == "tool_use" {
          b := b.(id := start.id, name := start.name);
          b := b.(json := match start.input case Some(v) => c.write(v) case None => "");
          if b.json == "null" {
            b := b.(json := "");
          }
        }
        blocks := blocks[i := b];
      case BlockDelta(Some(i), d) =>
        if i in blocks {
          blocks := blocks[i := AddDelta(blocks[i], d)];
        }
      case _ =>
    }

    method TakeCalls(c: Codec) returns (out: seq<Event>)
      modifies this`flushed
      ensures (out, State()) == Flush(c, old(State()))
    {
      if flushed || blocks == map[] {
        return [];
      }
      flushed := true;
      var keys := Ascending(blocks.Keys);
      var (calls, content) := ([], []);
      for k := 0 to |keys|
        invariant calls == CallsUpTo(c, blocks, keys, k) && content == ContentUpTo(c, blocks, keys, k)
      {
        var b := blocks[keys[k]];
        if b.kind == "tool_use" {
          var input := InputOf(c, b.json);
          calls := calls + [ToolCall(b.id, b.name, c.write(input))];
          content := content + [ToolJson(b.id, b.name, input)];
        } else if b.kind == "thinking" {
          content := content + [ThinkingJson(b.text, b.signature)];
        } else if b.kind == "text" && b.text != "" {
          content := content + [TextJson(b.text)];
        }
      }
      out := if calls == [] then [] else [ToolUse(calls, JArray(content))];
    }
  }

  // ---- the event loop ---------------------------------------------------------------

  datatype Parse = Parse(out: seq<Event>, tools: Tools)

  function DeltaEvents(d: Delta): seq<Event> {
    match d
    case ThinkingDelta(s) => if s != "" then [Reasoning(s)] else []
    case TextDelta(s) => if s != "" then [Text(s)] else []
    case _ => []
  }

  function UsageEvents(usage: Option<Tokens>): seq<Event> {
    match usage
    case Some(u) => [Usage(u.input, u.output)]
    case None => []
  }

  function RefusalEvents(stop: string): seq<Event> {
    if stop == "refusal" then [Refusal("")] else []
  }

  function StopEvents(c: Codec, t: Tools, stop: string): Parse {
    var (use, next) := Flush(c, t);
    Parse(RefusalEvents(stop) + use + [Done(stop)], next)
  }

  /** `push_sse_event`. */
  function Step(c: Codec, p: Parse, e: SseEvent): Parse {
    match e
    case BlockStart(_, _) => p.(tools := p.tools.(blocks := Accumulate(c, p.tools.blocks, e)))
    case BlockDelta(_, d) => Parse(p.out + DeltaEvents(d), p.tools.(blocks := Accumulate(c, p.tools.blocks, e)))
    case MessageDelta(usage, stop) =>
      var out := p.out + UsageEvents(usage);
      (match stop
       case None => p.(out := out)
       case Some(s) => var r := StopEvents(c, p.tools, s); Parse(out + r.out, r.tools))
    case MessageStop =>
      if exists k :: 0 <= k < |p.out| && p.out[k].Done? then p else p.(out := p.out + [Done("end_turn")])
    case Other => p
  }

  function Steps(c: Codec, p: Parse, evs: seq<SseEvent>): Parse {
    if evs == [] then p else Step(c, Steps(c, p, evs[..|evs| - 1]), evs[|evs| - 1])
  }

  const BEGIN := Parse([], Tools(map[], false))

  /** `parse_sse`: all events, and a last flush for a stream that was cut short. */
  function ParseSse(c: Codec, evs: seq<SseEvent>): seq<Event> {
    var p := Steps(c, BEGIN, evs);
    p.out + Flush(c, p.tools).0
  }

  method PushEvent(c: Codec, out: seq<Event>, acc: SseTools, e: SseEvent) returns (next: seq<Event>)
    modifies acc
    ensures Parse(next, acc.State()) == Step(c, Parse(out, old(acc.State())), e)
  {
    hide Flush, Accumulate;
    next := out;
    match e
    case BlockStart(_, _) =>
      acc.Accept(c, e);
    case BlockDelta(i, d) =>
      acc.Accept(c, e);
      if i.Some? && (d.InputJson? || d.Signature?) {
        return;
      }
      next := next + DeltaEvents(d);
    case MessageDelta(usage, stop) =>
      if usage.Some? {
        next := next + [Usage(usage.value.input, usage.value.output)];
      }
      if stop.Some? {
        ghost var start := next;
        if stop.value == "refusal" {
          next := next + [Refusal("")];
        }
        var use := acc.TakeCalls(c);
        next := next + use;
        next := next + [Done(stop.value)];
        assert next == start + (RefusalEvents(stop.value) + use + [Done(stop.value)]);
      }
    case MessageStop =>
      if !(exists k :: 0 <= k < |out| && out[k].Done?) {
        next := next + [Done("end_turn")];
      }
    case Other =>
  }

  // ---- at most one tool-use event, whatever arrives --------------------------------------

  function CountToolUse(out: seq<Event>): nat {
    if out == [] then 0 else CountToolUse(out[..|out| - 1]) + if out[|out| - 1].ToolUse? then 1 else 0
  }

  lemma {:induction false} CountAppend(a: seq<Event>, b: seq<Event>)
    ensures CountToolUse(a + b) == CountToolUse(a) + CountToolUse(b)
  {
    if b == [] {
      assert a + b == a;
    } else {
      assert (a + b)[..|a + b| - 1] == a + b[..|b| - 1];
      CountAppend(a, b[..|b| - 1]);
    }
  }

  lemma CountOne(e: Event)
    ensures CountToolUse([e]) == if e.ToolUse? then 1 else 0
  {
    assert [e][..0] == [];
  }

  /** No tool use has come out while the accumulator is unflushed; at most one afterwards. */
  ghost predicate OnceOnly(p: Parse) {
    CountToolUse(p.out) <= if p.tools.flushed then 1 else 0
  }

  lemma FlushOnce(c: Codec, t: Tools)
    ensures var (use, next) := Flush(c, t);
            CountToolUse(use) + (if t.flushed then 1 else 0) <= if next.flushed then 1 else 0
  {
    var (use, next) := Flush(c, t);
    if use != [] {
      CountOne(use[0]);
      assert use == [use[0]];
    }
  }

  lemma CountNone(out: seq<Event>)
    requires |out| <= 1 && forall e :: e in out ==> !e.ToolUse?
    ensures CountToolUse(out) == 0
  {
    if out != [] {
      assert out == [out[0]];
      CountOne(out[0]);
    }
  }

  lemma StopOnce(c: Codec, t: Tools, stop: string)
    ensures var r := StopEvents(c, t, stop);
            CountToolUse(r.out) + (if t.flushed then 1 else 0) <= if r.tools.flushed then 1 else 0
  {
    hide Flush, CountToolUse;
    FlushOnce(c, t);
    var use := Flush(c, t).0;
    CountNone(RefusalEvents(stop));
    CountNone([Done(stop)]);
    CountAppend(RefusalEvents(stop), use);
    CountAppend(RefusalEvents(stop) + use, [Done(stop)]);
  }

  lemma StepOnce(c: Codec, p: Parse, e: SseEvent)
    requires OnceOnly(p)
    ensures OnceOnly(Step(c, p, e))
  {
    hide Flush, Accumulate, CountToolUse, StopEvents;
    match e
    case BlockStart(_, _) =>
    case BlockDelta(_, d) =>
      CountAppend(p.out, DeltaEvents(d));
      CountNone(DeltaEvents(d));
    case MessageDelta(usage, stop) =>
      CountAppend(p.out, UsageEvents(usage));
      CountNone(UsageEvents(usage));
      if stop.Some? {
        StopOnce(c, p.tools, stop.value);
        CountAppend(p.out + UsageEvents(usage), StopEvents(c, p.tools, stop.value).out);
      }
    case MessageStop =>
      CountAppend(p.out, [Done("end_turn")]);
      CountNone([Done("end_turn")]);
    case Other =>
  }

  lemma {:induction false} StepsOnce(c: Codec, evs: seq<SseEvent>)
    ensures OnceOnly(Steps(c, BEGIN, evs))
  {
    if evs != [] {
      StepsOnce(c, evs[..|evs| - 1]);
      StepOnce(c, Steps(c, BEGIN, evs[..|evs| - 1]), evs[|evs| - 1]);
    }
  }

  /** Any stream yields at most one tool-use event. */
  lemma AtMostOneToolUse(c: Codec, evs: seq<SseEvent>)
    ensures CountToolUse(ParseSse(c, evs)) <= 1
  {
    var p := Steps(c, BEGIN, evs);
    StepsOnce(c, evs);
    FlushOnce(c, p.tools);
    CountAppend(p.out, Flush(c, p.tools).0);
  }
}
