/** The streamed text, reasoning, usage and ends of a message: what the deltas carry is what the
    caller receives, in order. */
module SseText {
  import opened Strings
  import opened Sse

  // ---- what the caller receives -------------------------------------------------------------

  /** The strings of the text events. */
  function TextIn(out: seq<Event>): string {
    if out == [] then ""
    else TextIn(out[..|out| - 1]) + if out[|out| - 1].Text? then out[|out| - 1].s else ""
  }

  function ReasoningIn(out: seq<Event>): string {
    if out == [] then ""
    else ReasoningIn(out[..|out| - 1]) + if out[|out| - 1].Reasoning? then out[|out| - 1].s else ""
  }

  function UsageIn(out: seq<Event>): seq<Tokens> {
    if out == [] then []
    else
      var last := out[|out| - 1];
      UsageIn(out[..|out| - 1]) + if last.Usage? then [Tokens(last.input, last.output)] else []
  }

  function RefusalsIn(out: seq<Event>): nat {
    if out == [] then 0 else RefusalsIn(out[..|out| - 1]) + if out[|out| - 1].Refusal? then 1 else 0
  }

  /** The reasons of the done events. */
  function EndsIn(out: seq<Event>): seq<string> {
    if out == [] then []
    else EndsIn(out[..|out| - 1]) + if out[|out| - 1].Done? then [out[|out| - 1].stop] else []
  }

  predicate NoneEmpty(out: seq<Event>) {
    forall e :: e in out && (e.Text? || e.Reasoning?) ==> e.s != ""
  }

  // ---- what the stream carries --------------------------------------------------------------

  /** The strings of the text deltas, whatever their index. */
  function TextSent(evs: seq<SseEvent>): string {
    if evs == [] then ""
    else
      var last := evs[|evs| - 1];
      TextSent(evs[..|evs| - 1]) + if last.BlockDelta? && last.delta.TextDelta? then last.delta.s else ""
  }

  function ThinkingSent(evs: seq<SseEvent>): string {
    if evs == [] then ""
    else
      var last := evs[|evs| - 1];
      ThinkingSent(evs[..|evs| - 1]) + if last.BlockDelta? && last.delta.ThinkingDelta? then last.delta.s else ""
  }

  function UsageSent(evs: seq<SseEvent>): seq<Tokens> {
    if evs == [] then []
    else
      var last := evs[|evs| - 1];
      UsageSent(evs[..|evs| - 1]) + if last.MessageDelta? && last.usage.Some? then [last.usage.value] else []
  }

  function RefusalsSent(evs: seq<SseEvent>): nat {
    if evs == [] then 0
    else
      var last := evs[|evs| - 1];
      RefusalsSent(evs[..|evs| - 1]) + if last.MessageDelta? && last.stop == Some("refusal") then 1 else 0
  }

  /** The stop reasons; a message stop counts as an ended turn unless something ended before. */
  function EndsSent(evs: seq<SseEvent>): seq<string> {
    if evs == [] then []
    else
      var (before, last) := (EndsSent(evs[..|evs| - 1]), evs[|evs| - 1]);
      if last.MessageDelta? && last.stop.Some? then before + [last.stop.value]
      else if last.MessageStop? && before == [] then ["end_turn"]
      else before
  }

  // ---- event by event -----------------------------------------------------------------------

  lemma StringsSnoc(out: seq<Event>, e: Event)
    ensures TextIn(out + [e]) == TextIn(out) + (if e.Text? then e.s else "")
    ensures ReasoningIn(out + [e]) == ReasoningIn(out) + (if e.Reasoning? then e.s else "")
    ensures NoneEmpty(out) && (e.Text? || e.Reasoning? ==> e.s != "") ==> NoneEmpty(out + [e])
  {
    assert (out + [e])[..|out|] == out;
  }

  lemma CountsSnoc(out: seq<Event>, e: Event)
    ensures UsageIn(out + [e]) == UsageIn(out) + (if e.Usage? then [Tokens(e.input, e.output)] else [])
    ensures RefusalsIn(out + [e]) == RefusalsIn(out) + (if e.Refusal? then 1 else 0)
    ensures EndsIn(out + [e]) == EndsIn(out) + (if e.Done? then [e.stop] else [])
  {
    assert (out + [e])[..|out|] == out;
  }

  /** Everything that can be read off two lists of events besides the tool use is the same. */
  ghost predicate SameBesides(a: seq<Event>, b: seq<Event>) {
    && TextIn(a) == TextIn(b) && ReasoningIn(a) == ReasoningIn(b) && NoneEmpty(a) == NoneEmpty(b)
    && UsageIn(a) == UsageIn(b) && RefusalsIn(a) == RefusalsIn(b) && EndsIn(a) == EndsIn(b)
  }

  lemma FlushIsBesides(c: Codec, t: Tools, out: seq<Event>)
    ensures SameBesides(out + Flush(c, t).0, out)
  {
    hide TextIn, ReasoningIn, UsageIn, RefusalsIn, EndsIn;
    var use := Flush(c, t).0;
    if use == [] {
      assert out + use == out;
    } else {
      StringsSnoc(out, use[0]);
      CountsSnoc(out, use[0]);
      assert use == [use[0]] && out + [use[0]] == out + use;
    }
  }

  /** The output so far tells what the stream so far carried. */
  ghost predicate Tells(out: seq<Event>, evs: seq<SseEvent>) {
    && TextIn(out) == TextSent(evs) && ReasoningIn(out) == ThinkingSent(evs) && NoneEmpty(out)
    && UsageIn(out) == UsageSent(evs) && RefusalsIn(out) == RefusalsSent(evs) && EndsIn(out) == EndsSent(evs)
  }

  lemma SentSnoc(evs: seq<SseEvent>, e: SseEvent)
    ensures TextSent(evs + [e]) == TextSent(evs) + (if e.BlockDelta? && e.delta.TextDelta? then e.delta.s else "")
    ensures ThinkingSent(evs + [e])
         == ThinkingSent(evs) + (if e.BlockDelta? && e.delta.ThinkingDelta? then e.delta.s else "")
    ensures UsageSent(evs + [e]) == UsageSent(evs) + (if e.MessageDelta? && e.usage.Some? then [e.usage.value] else [])
    ensures RefusalsSent(evs + [e])
         == RefusalsSent(evs) + (if e.MessageDelta? && e.stop == Some("refusal") then 1 else 0)
    ensures EndsSent(evs + [e])
         == if e.MessageDelta? && e.stop.Some? then EndsSent(evs) + [e.stop.value]
            else if e.MessageStop? && EndsSent(evs) == [] then ["end_turn"]
            else EndsSent(evs)
  {
    assert (evs + [e])[..|evs|] == evs;
  }

  lemma {:induction false} EndsNone(out: seq<Event>)
    ensures EndsIn(out) == [] <==> !exists k :: 0 <= k < |out| && out[k].Done?
  {
    if out != [] {
      EndsNone(out[..|out| - 1]);
      assert out == out[..|out| - 1] + [out[|out| - 1]];
      assert forall k :: 0 <= k < |out| - 1 ==> out[..|out| - 1][k] == out[k];
    }
  }

  lemma DeltaTells(c: Codec, p: Parse, evs: seq<SseEvent>, e: SseEvent)
    requires Tells(p.out, evs) && e.BlockDelta?
    ensures Tells(Step(c, p, e).out, evs + [e])
  {
    hide TextIn, ReasoningIn, UsageIn, RefusalsIn, EndsIn, NoneEmpty;
    hide TextSent, ThinkingSent, UsageSent, RefusalsSent, EndsSent, Accumulate;
    SentSnoc(evs, e);
    var more := DeltaEvents(e.delta);
    if more == [] {
      assert p.out + more == p.out;
    } else {
      StringsSnoc(p.out, more[0]);
      CountsSnoc(p.out, more[0]);
      assert more == [more[0]];
    }
  }

  lemma UsageTells(out: seq<Event>, evs: seq<SseEvent>, usage: Option<Tokens>)
    requires Tells(out, evs)
    ensures Tells(out + UsageEvents(usage), evs + [MessageDelta(usage, None)])
  {
    hide TextIn, ReasoningIn, UsageIn, RefusalsIn, EndsIn, NoneEmpty;
    hide TextSent, ThinkingSent, UsageSent, RefusalsSent, EndsSent;
    SentSnoc(evs, MessageDelta(usage, None));
    if usage.None? {
      assert out + UsageEvents(usage) == out;
    } else {
      StringsSnoc(out, UsageEvents(usage)[0]);
      CountsSnoc(out, UsageEvents(usage)[0]);
    }
  }

  /** What the stop of a message adds. */
  lemma StopAdds(c: Codec, t: Tools, out: seq<Event>, stop: string)
    ensures var next := out + StopEvents(c, t, stop).out;
      && TextIn(next) == TextIn(out) && ReasoningIn(next) == ReasoningIn(out) && NoneEmpty(next) == NoneEmpty(out)
      && UsageIn(next) == UsageIn(out)
      && RefusalsIn(next) == RefusalsIn(out) + (if stop == "refusal" then 1 else 0)
      && EndsIn(next) == EndsIn(out) + [stop]
  {
    hide TextIn, ReasoningIn, UsageIn, RefusalsIn, EndsIn, Flush;
    var (r, use) := (RefusalEvents(stop), Flush(c, t).0);
    if stop == "refusal" {
      StringsSnoc(out, Refusal(""));
      CountsSnoc(out, Refusal(""));
    } else {
      assert out + r == out;
    }
    FlushIsBesides(c, t, out + r);
    StringsSnoc(out + r + use, Done(stop));
    CountsSnoc(out + r + use, Done(stop));
    assert out + (r + use + [Done(stop)]) == out + r + use + [Done(stop)];
  }

  lemma MessageTells(c: Codec, p: Parse, evs: seq<SseEvent>, e: SseEvent)
    requires Tells(p.out, evs) && e.MessageDelta?
    ensures Tells(Step(c, p, e).out, evs + [e])
  {
    hide TextIn, ReasoningIn, UsageIn, RefusalsIn, EndsIn, NoneEmpty, UsageEvents, StopEvents;
    hide TextSent, ThinkingSent, UsageSent, RefusalsSent, EndsSent;
    UsageTells(p.out, evs, e.usage);
    if e.stop.Some? {
      StopAdds(c, p.tools, p.out + UsageEvents(e.usage), e.stop.value);
      SentSnoc(evs, e);
      SentSnoc(evs, MessageDelta(e.usage, None));
    }
  }

  lemma StepTells(c: Codec, p: Parse, evs: seq<SseEvent>, e: SseEvent)
    requires Tells(p.out, evs)
    ensures Tells(Step(c, p, e).out, evs + [e])
  {
    hide TextIn, ReasoningIn, UsageIn, RefusalsIn, EndsIn, NoneEmpty, Accumulate;
    hide TextSent, ThinkingSent, UsageSent, RefusalsSent, EndsSent;
    match e
    case BlockDelta(_, _) => DeltaTells(c, p, evs, e);
    case MessageDelta(_, _) => MessageTells(c, p, evs, e);
    case _ =>
      SentSnoc(evs, e);
      EndsNone(p.out);
      StringsSnoc(p.out, Done("end_turn"));
      CountsSnoc(p.out, Done("end_turn"));
  }

  lemma {:induction false} StepsTell(c: Codec, evs: seq<SseEvent>)
    ensures Tells(Steps(c, BEGIN, evs).out, evs)
  {
    hide Step;
    if evs != [] {
      hide Tells;
      var (init, e) := (evs[..|evs| - 1], evs[|evs| - 1]);
      StepsTell(c, init);
      StepTells(c, Steps(c, BEGIN, init), init, e);
      assert evs == init + [e];
    }
  }

  /** Any stream: the text events join to the strings of the text deltas, the reasoning events
      to those of the thinking deltas, none is empty, the usage events are those of the message
      deltas, a refusal comes for each stop reason that is one, and each end is told. */
  lemma StreamIsTold(c: Codec, evs: seq<SseEvent>)
    ensures var out := ParseSse(c, evs);
      && TextIn(out) == TextSent(evs)
      && ReasoningIn(out) == ThinkingSent(evs)
      && NoneEmpty(out)
      && UsageIn(out) == UsageSent(evs)
      && RefusalsIn(out) == RefusalsSent(evs)
      && EndsIn(out) == EndsSent(evs)
  {
    hide TextIn, ReasoningIn, UsageIn, RefusalsIn, EndsIn, NoneEmpty, Flush;
    hide TextSent, ThinkingSent, UsageSent, RefusalsSent, EndsSent;
    StepsTell(c, evs);
    var p := Steps(c, BEGIN, evs);
    FlushIsBesides(c, p.tools, p.out);
  }

  /** When the last message delta stops the message, its done event is the last event: the
      usage, the refusal and the tool use of that delta all come before it. */
  lemma DoneComesLast(c: Codec, evs: seq<SseEvent>, usage: Option<Tokens>, stop: string)
    ensures var out := ParseSse(c, evs + [MessageDelta(usage, Some(stop))]);
            out != [] && out[|out| - 1] == Done(stop)
  {
    hide Flush;
    var (e, p) := (MessageDelta(usage, Some(stop)), Steps(c, BEGIN, evs));
    assert (evs + [e])[..|evs|] == evs;
    var q := Step(c, p, e);
    FlushedStays(c, p.tools);
    assert q.out + [] == q.out;
  }

  lemma FlushedStays(c: Codec, t: Tools)
    ensures Flush(c, Flush(c, t).1).0 == []
  {
  }
}
