/** From the lines of a response body to stream events, and back. */
module SseFraming {
  import opened Strings
  import opened Sse
  import opened TextLines

  /** The data of finished events, and of the one under way. */
  datatype Framed = Framed(done: seq<string>, data: string)

  const PREFIX := "data:"

  function FrameStep(f: Framed, line: string): Framed {
    if PREFIX <= line then
      f.(data := (if f.data == "" then "" else f.data + "\n") + TrimLeft(line[|PREFIX|..]))
    else if line == "" && f.data != "" then Framed(f.done + [f.data], "")
    else f
  }

  function Frames(lines: seq<string>): Framed {
    if lines == [] then Framed([], "") else FrameStep(Frames(lines[..|lines| - 1]), lines[|lines| - 1])
  }

  /** The last event needs no blank line. */
  function Closed(f: Framed): seq<string> {
    f.done + if f.data == "" then [] else [f.data]
  }

  predicate Ignored(data: string) {
    Trim(data) == "" || Trim(data) == "[DONE]"
  }

  /** The events of some data, none if any of it does not decode. */
  function Decoded(decode: string -> Option<SseEvent>, datas: seq<string>): Option<seq<SseEvent>> {
    if datas == [] then Some([])
    else
      var (init, data) := (Decoded(decode, datas[..|datas| - 1]), datas[|datas| - 1]);
      if init.None? then None
      else if Ignored(data) then init
      else
        match decode(data)
        case None => None
        case Some(e) => Some(init.value + [e])
  }

  /** What the body is parsed to; none stands for an error. */
  function ParseBody(c: Codec, decode: string -> Option<SseEvent>, lines: seq<string>): Option<seq<Event>> {
    match Decoded(decode, Closed(Frames(lines)))
    case None => None
    case Some(evs) => Some(ParseSse(c, evs))
  }

  /** One event's data: ignored, refused, or pushed. `done` is the data so far and `evs` its
      events. */
  method PushData(c: Codec, decode: string -> Option<SseEvent>, ghost done: seq<string>, ghost evs: seq<SseEvent>,
                  data: string, out: seq<Event>, acc: SseTools)
    returns (ok: bool, next: seq<Event>, ghost more: seq<SseEvent>)
    requires Decoded(decode, done) == Some(evs) && Parse(out, acc.State()) == Steps(c, BEGIN, evs)
    modifies acc
    ensures ok ==> Decoded(decode, done + [data]) == Some(more) && Parse(next, acc.State()) == Steps(c, BEGIN, more)
    ensures !ok ==> Decoded(decode, done + [data]).None?
  {
    hide Step;
    DecodedSnoc(decode, done, data);
    more := evs;
    if Ignored(data) {
      return true, out, more;
    }
    var e := decode(data);
    if e.None? {
      return false, out, more;
    }
    StepsSnoc(c, evs, e.value);
    more := evs + [e.value];
    next := PushEvent(c, out, acc, e.value);
    ok := true;
  }

  method ParseLines(c: Codec, decode: string -> Option<SseEvent>, lines: seq<string>) returns (r: Option<seq<Event>>)
    ensures r == ParseBody(c, decode, lines)
  {
    hide Flush, Steps, Ignored, Decoded, Frames;
    var out: seq<Event> := [];
    var data := "";
    var acc := new SseTools();
    ghost var done: seq<string> := [];
    ghost var evs: seq<SseEvent> := [];
    Nothing(c, decode);
    for k := 0 to |lines|
      invariant Frames(lines[..k]) == Framed(done, data)
      invariant Decoded(decode, done) == Some(evs)
      invariant Parse(out, acc.State()) == Steps(c, BEGIN, evs)
    {
      var line := lines[k];
      FramesSnoc(lines[..k], line);
      assert lines[..k + 1] == lines[..k] + [line];
      if PREFIX <= line {
        if data != "" {
          data := data + "\n";
        }
        data := data + TrimLeft(line[|PREFIX|..]);
        continue;
      }
      if line == "" && data != "" {
        var ok;
        ok, out, evs := PushData(c, decode, done, evs, data, out, acc);
        done := done + [data];
        if !ok {
          RefusedLater(decode, lines, k + 1);
          return None;
        }
        data := "";
      }
    }
    assert lines[..|lines|] == lines;
    if data != "" {
      var ok;
      ok, out, evs := PushData(c, decode, done, evs, data, out, acc);
      if !ok {
        return None;
      }
    } else {
      assert done + [] == done;
    }
    var last := acc.TakeCalls(c);
    r := Some(out + last);
  }

  lemma Nothing(c: Codec, decode: string -> Option<SseEvent>)
    ensures Frames([]) == Framed([], "") && Decoded(decode, []) == Some([])
    ensures Steps(c, BEGIN, []) == Parse([], Tools(map[], false))
  {
  }

  lemma FramesSnoc(lines: seq<string>, line: string)
    ensures Frames(lines + [line]) == FrameStep(Frames(lines), line)
  {
    assert (lines + [line])[..|lines|] == lines;
  }

  lemma DecodedSnoc(decode: string -> Option<SseEvent>, datas: seq<string>, data: string)
    ensures Decoded(decode, datas + [data]) ==
      if Decoded(decode, datas).None? then None
      else if Ignored(data) then Decoded(decode, datas)
      else if decode(data).None? then None
      else Some(Decoded(decode, datas).value + [decode(data).value])
  {
    assert (datas + [data])[..|datas|] == datas;
  }

  lemma StepsSnoc(c: Codec, evs: seq<SseEvent>, e: SseEvent)
    ensures Steps(c, BEGIN, evs + [e]) == Step(c, Steps(c, BEGIN, evs), e)
  {
    assert (evs + [e])[..|evs|] == evs;
  }

  /** Data that does not decode spoils the whole, whatever comes later. */
  lemma {:induction false} RefusedLater(decode: string -> Option<SseEvent>, lines: seq<string>, k: nat)
    requires k <= |lines| && Decoded(decode, Frames(lines[..k]).done).None?
    ensures Decoded(decode, Frames(lines).done).None? && Decoded(decode, Closed(Frames(lines))).None?
    decreases |lines| - k
  {
    if k == |lines| {
      assert lines[..k] == lines;
      var f := Frames(lines);
      if f.data != "" {
        DecodedSnoc(decode, f.done, f.data);
      } else {
        assert f.done + [] == f.done;
      }
    } else {
      var f := Frames(lines[..k]);
      assert lines[..k + 1][..k] == lines[..k];
      DecodedSnoc(decode, f.done, f.data);
      RefusedLater(decode, lines, k + 1);
    }
  }

  // ---- what a sender writes is what is parsed --------------------------------------------

  /** A line of an event: data behind some white space, or a line of another field. */
  datatype Item = Data(space: string, text: string) | Other(line: string) {
    function Line(): string {
      if Data? then PREFIX + (space + text) else line
    }

    predicate Legal() {
      if Data? then Blank(space) && Sendable(text) else line != "" && !(PREFIX <= line)
    }
  }

  /** Data as sent: not blank, and not starting with white space. */
  predicate Sendable(text: string) {
    text != "" && !IsSpace(text[0])
  }

  predicate AllLegal(items: seq<Item>) {
    forall k :: 0 <= k < |items| ==> items[k].Legal()
  }

  function LinesOf(items: seq<Item>): seq<string> {
    if items == [] then [] else LinesOf(items[..|items| - 1]) + [items[|items| - 1].Line()]
  }

  function Texts(items: seq<Item>): seq<string> {
    if items == [] then []
    else Texts(items[..|items| - 1]) + if items[|items| - 1].Data? then [items[|items| - 1].text] else []
  }

  /** The texts with a line feed between any two. */
  function Join(texts: seq<string>): string {
    if texts == [] then ""
    else if |texts| == 1 then texts[0]
    else texts[0] + "\n" + Join(texts[1..])
  }

  /** The events' lines, a blank line behind each, but behind the last only if `closed`. */
  function Body(events: seq<seq<Item>>, closed: bool): seq<string> {
    if events == [] then []
    else Body(events[..|events| - 1], true) + LinesOf(events[|events| - 1]) + if closed then [""] else []
  }

  /** The data of the events that have any. */
  function Datas(events: seq<seq<Item>>): seq<string> {
    if events == [] then []
    else
      var texts := Texts(events[|events| - 1]);
      Datas(events[..|events| - 1]) + if texts == [] then [] else [Join(texts)]
  }

  lemma {:induction false} JoinSnoc(texts: seq<string>, t: string)
    ensures Join(texts + [t]) == if texts == [] then t else Join(texts) + "\n" + t
  {
    if texts != [] {
      JoinSnoc(texts[1..], t);
      assert (texts + [t])[1..] == texts[1..] + [t];
      if |texts| > 1 {
        var (x, y) := (texts[0] + "\n", Join(texts[1..]));
        assert x + (y + "\n" + t) == x + y + "\n" + t;
      }
    }
  }

  lemma JoinNonEmpty(texts: seq<string>)
    requires texts != [] && texts[0] != ""
    ensures Join(texts) != ""
  {
  }

  lemma {:induction false} TextsSendable(items: seq<Item>)
    requires AllLegal(items)
    ensures forall k :: 0 <= k < |Texts(items)| ==> Sendable(Texts(items)[k])
  {
    if items != [] {
      TextsSendable(items[..|items| - 1]);
      assert items[|items| - 1].Legal();
    }
  }

  lemma {:induction false} SpaceGoes(space: string, text: string)
    requires Blank(space) && Sendable(text)
    ensures TrimLeft(space + text) == text
  {
    if space == "" {
      TrimLeftIs(text);
      assert space + text == text;
    } else {
      SpaceGoes(space[1..], text);
      assert (space + text)[1..] == space[1..] + text;
    }
  }

  lemma ItemStep(f: Framed, texts: seq<string>, i: Item)
    requires i.Legal() && f.data == Join(texts) && (texts != [] ==> texts[0] != "")
    ensures FrameStep(f, i.Line()) == f.(data := Join(if i.Data? then texts + [i.text] else texts))
  {
    hide Join;
    if i.Data? {
      var line := i.Line();
      assert line[..|PREFIX|] == PREFIX && line[|PREFIX|..] == i.space + i.text;
      SpaceGoes(i.space, i.text);
      JoinSnoc(texts, i.text);
      if texts == [] {
        JoinNothing();
      } else {
        JoinNonEmpty(texts);
      }
    }
  }

  lemma JoinNothing()
    ensures Join([]) == ""
  {
  }

  lemma {:induction false} EventFrames(pre: seq<string>, done: seq<string>, items: seq<Item>)
    requires AllLegal(items) && Frames(pre) == Framed(done, "")
    ensures Frames(pre + LinesOf(items)) == Framed(done, Join(Texts(items)))
  {
    hide Frames, Item.Legal, Join, FrameStep;
    if items == [] {
      assert pre + LinesOf(items) == pre;
      JoinNothing();
    } else {
      var (init, i) := (items[..|items| - 1], items[|items| - 1]);
      EventFrames(pre, done, init);
      TextsSendable(init);
      assert pre + LinesOf(items) == (pre + LinesOf(init)) + [i.Line()];
      FramesSnoc(pre + LinesOf(init), i.Line());
      ItemStep(Framed(done, Join(Texts(init))), Texts(init), i);
      assert Texts(init) + [] == Texts(init);
    }
  }

  lemma {:induction false} BodyFrames(events: seq<seq<Item>>)
    requires forall k :: 0 <= k < |events| ==> AllLegal(events[k])
    ensures Frames(Body(events, true)) == Framed(Datas(events), "")
  {
    hide Frames, AllLegal, Join;
    if events == [] {
      FramesNil();
    } else {
      var (init, items) := (events[..|events| - 1], events[|events| - 1]);
      BodyFrames(init);
      EventFrames(Body(init, true), Datas(init), items);
      FramesSnoc(Body(init, true) + LinesOf(items), "");
      EventData(items);
    }
  }

  lemma FramesNil()
    ensures Frames([]) == Framed([], "")
  {
  }

  lemma EventData(items: seq<Item>)
    requires AllLegal(items)
    ensures Join(Texts(items)) == "" <==> Texts(items) == []
  {
    TextsSendable(items);
    if Texts(items) != [] {
      JoinNonEmpty(Texts(items));
    }
  }

  lemma BodyCloses(events: seq<seq<Item>>, closed: bool)
    requires forall k :: 0 <= k < |events| ==> AllLegal(events[k])
    ensures Closed(Frames(Body(events, closed))) == Datas(events)
  {
    hide Frames, AllLegal, Join, LinesOf;
    BodyFrames(events);
    if !closed && events != [] {
      var (init, items) := (events[..|events| - 1], events[|events| - 1]);
      BodyFrames(init);
      EventFrames(Body(init, true), Datas(init), items);
      EventData(items);
      assert Body(init, true) + LinesOf(items) + [] == Body(init, true) + LinesOf(items);
    } else if events == [] {
      FramesNil();
    }
  }

  /** Data that stands for an event, or that stands for none: blank, or the end mark. */
  predicate Means(decode: string -> Option<SseEvent>, data: string, e: Option<SseEvent>) {
    if Trim(data) == "" || Trim(data) == "[DONE]" then e.None? else e.Some? && decode(data) == e
  }

  function Present(evs: seq<Option<SseEvent>>): seq<SseEvent> {
    if evs == [] then []
    else Present(evs[..|evs| - 1]) + if evs[|evs| - 1].Some? then [evs[|evs| - 1].value] else []
  }

  lemma {:induction false} DatasDecode(decode: string -> Option<SseEvent>, datas: seq<string>,
                                       evs: seq<Option<SseEvent>>)
    requires |datas| == |evs| && forall k :: 0 <= k < |datas| ==> Means(decode, datas[k], evs[k])
    ensures Decoded(decode, datas) == Some(Present(evs))
  {
    if datas != [] {
      var n := |datas| - 1;
      DatasDecode(decode, datas[..n], evs[..n]);
      assert Means(decode, datas[n], evs[n]);
      assert Present(evs[..n]) + [] == Present(evs[..n]);
    }
  }

  /** Events sent as lines of data, in any text that decodes to them, with any white space
      before the data, any lines of other fields between, and with or without a blank line at
      the end, are parsed to exactly these events; the end mark counts for nothing. */
  lemma WireParses(c: Codec, decode: string -> Option<SseEvent>, events: seq<seq<Item>>, closed: bool,
                   evs: seq<Option<SseEvent>>)
    requires forall k :: 0 <= k < |events| ==> AllLegal(events[k])
    requires |Datas(events)| == |evs|
    requires forall k :: 0 <= k < |evs| ==> Means(decode, Datas(events)[k], evs[k])
    ensures ParseBody(c, decode, Body(events, closed)) == Some(ParseSse(c, Present(evs)))
  {
    hide ParseSse, Body, Frames, Datas, Means;
    BodyCloses(events, closed);
    DatasDecode(decode, Datas(events), evs);
  }

  lemma {:induction false} BadDecodes(decode: string -> Option<SseEvent>, datas: seq<string>, k: nat)
    requires k < |datas| && Trim(datas[k]) != "" && Trim(datas[k]) != "[DONE]" && decode(datas[k]).None?
    ensures Decoded(decode, datas).None?
  {
    hide Trim;
    if k < |datas| - 1 {
      BadDecodes(decode, datas[..|datas| - 1], k);
    }
  }

  /** One event whose data does not decode, whatever stands before and behind, spoils the body. */
  lemma BadEvent(c: Codec, decode: string -> Option<SseEvent>, events: seq<seq<Item>>, closed: bool, k: nat)
    requires forall k :: 0 <= k < |events| ==> AllLegal(events[k])
    requires k < |Datas(events)| && Trim(Datas(events)[k]) != "" && Trim(Datas(events)[k]) != "[DONE]"
    requires decode(Datas(events)[k]).None?
    ensures ParseBody(c, decode, Body(events, closed)).None?
  {
    hide Body, Frames, Datas, Trim;
    BodyCloses(events, closed);
    BadDecodes(decode, Datas(events), k);
  }
}
