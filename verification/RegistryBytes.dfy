/** What rewriting the claim table does to the file itself, line endings included. */
module RegistryBytes {
  import opened Strings
  import opened Registry
  import opened RegistryText
  import opened TextLines

  /** The lines of a text with their endings. */
  function RawLines(text: string): seq<string> {
    match IndexOf(text, '\n')
    case None => if text == "" then [] else [text]
    case Some(k) => [text[..k + 1]] + RawLines(text[k + 1..])
  }

  function WithoutFeed(raw: string): string {
    if EndsLine(raw) then raw[..|raw| - 1] else raw
  }

  /** A line without its ending. */
  function Content(raw: string): string {
    if EndsLine(raw) then StripCr(WithoutFeed(raw)) else raw
  }

  function Feed(raw: string): string {
    if EndsLine(raw) then "\n" else ""
  }

  predicate EndsCrLf(raw: string) {
    EndsLine(raw) && EndsReturn(WithoutFeed(raw))
  }

  /** The line is a row whose id is written. */
  predicate IsWritten(raw: string, m: map<string, Row>) {
    var row := ParseRowLine(Content(raw));
    row.Some? && row.value.taskId in m
  }

  /** The new line: the content rewritten, and a line feed if there was one. */
  function RewriteRaw(raw: string, m: map<string, Row>): string {
    RewriteLine(Content(raw), m) + Feed(raw)
  }

  function RewrittenRaw(raws: seq<string>, m: map<string, Row>): seq<string> {
    seq(|raws|, k requires 0 <= k < |raws| => RewriteRaw(raws[k], m))
  }

  function Fed(lines: seq<string>): seq<string> {
    seq(|lines|, k requires 0 <= k < |lines| => lines[k] + "\n")
  }

  lemma ConcatOne(s: string)
    ensures Concat([s]) == s && Concat([]) == ""
  {
    ConcatSnoc([], s);
    assert [] + [s] == [s] && "" + s == s;
  }

  lemma {:induction false} RawLinesAreTheText(text: string)
    ensures Concat(RawLines(text)) == text
  {
    match IndexOf(text, '\n')
    case None =>
      ConcatOne(text);
    case Some(k) =>
      var (first, rest) := (text[..k + 1], text[k + 1..]);
      RawLinesAreTheText(rest);
      ConcatOne(first);
      ConcatAppend([first], RawLines(rest));
      hide Concat;
      assert first + rest == text;
  }

  /** Contents are the lines, and all lines but perhaps the last end with a line feed. */
  predicate LinesOfRaw(raws: seq<string>, lines: seq<string>, ends: bool) {
    && |raws| == |lines|
    && (forall k :: 0 <= k < |raws| ==> Content(raws[k]) == lines[k])
    && forall k :: 0 <= k < |raws| ==> (EndsLine(raws[k]) <==> k < |raws| - 1 || ends)
  }

  lemma OneMoreLine(raw: string, raws: seq<string>, lines: seq<string>, ends: bool)
    requires EndsLine(raw) && LinesOfRaw(raws, lines, ends) && (raws == [] ==> ends)
    ensures LinesOfRaw([raw] + raws, [Content(raw)] + lines, ends)
  {
    hide Content, EndsLine;
  }

  lemma {:induction false} RawContents(text: string)
    ensures LinesOfRaw(RawLines(text), Lines(text), EndsLine(text))
  {
    hide StripCr;
    match IndexOf(text, '\n')
    case None =>
      assert text != "" ==> text[|text| - 1] != '\n';
    case Some(i) =>
      var (raw, rest) := (text[..i + 1], text[i + 1..]);
      RawContents(rest);
      assert WithoutFeed(raw) == text[..i];
      assert rest != "" ==> rest[|rest| - 1] == text[|text| - 1];
      assert EndsLine(raw) && (rest != "" ==> EndsLine(rest) == EndsLine(text)) && (rest == "" ==> EndsLine(text));
      assert Lines(text) == [Content(raw)] + Lines(rest) && RawLines(text) == [raw] + RawLines(rest);
      NoTextNoLines(rest);
      hide LinesOfRaw, RawLines, Lines, Content, EndsLine;
      OneMoreLine(raw, RawLines(rest), Lines(rest), EndsLine(text));
  }

  lemma NoTextNoLines(text: string)
    ensures RawLines(text) == [] <==> text == ""
    ensures text == "" ==> Lines(text) == [] && forall ends :: LinesOfRaw(RawLines(text), Lines(text), ends)
  {
  }

  lemma RawLineAdded(a: string, rest: string)
    requires '\n' !in a
    ensures RawLines(a + "\n" + rest) == [a + "\n"] + RawLines(rest)
  {
    var s := a + "\n" + rest;
    assert s[|a|] == '\n';
    assert '\n' in s;
    forall i | 0 <= i < |a|
      ensures s[i] != '\n'
    {
      assert s[i] == a[i];
    }
    var k := IndexOf(s, '\n').value;
    assert s[..k + 1] == a + "\n" && s[k + 1..] == rest;
  }

  lemma NoRawLines()
    ensures RawLines(Joined([])) == []
  {
  }

  lemma {:induction false} RawLinesOfJoined(lines: seq<string>)
    requires NoFeeds(lines)
    ensures RawLines(Joined(lines)) == Fed(lines)
  {
    hide RawLines, Joined;
    if lines == [] {
      NoRawLines();
    } else {
      JoinedFirst(lines);
      RawLineAdded(lines[0], Joined(lines[1..]));
      RawLinesOfJoined(lines[1..]);
      assert Fed(lines) == [lines[0] + "\n"] + Fed(lines[1..]);
    }
  }

  lemma OnlyRawLine(s: string)
    requires s != "" && '\n' !in s
    ensures RawLines(s) == [s]
  {
  }

  lemma {:induction false} RawLinesOfPopped(lines: seq<string>)
    requires NoFeeds(lines) && lines != [] && lines[|lines| - 1] != ""
    ensures EndsLine(Joined(lines))
    ensures RawLines(Popped(Joined(lines))) == Fed(lines[..|lines| - 1]) + [lines[|lines| - 1]]
  {
    hide RawLines;
    var (n, out) := (|lines|, Joined(lines));
    if n == 1 {
      assert lines[..0] == [];
      assert Popped(out) == lines[0];
      OnlyRawLine(lines[0]);
    } else {
      var rest := Joined(lines[1..]);
      JoinedFirst(lines);
      hide Joined;
      RawLinesOfPopped(lines[1..]);
      RawLineAdded(lines[0], Popped(rest));
      assert Popped(out) == lines[0] + "\n" + Popped(rest);
      assert lines[1..][..n - 2] == lines[..n - 1][1..];
      assert Fed(lines[..n - 1]) == [lines[0] + "\n"] + Fed(lines[1..][..n - 2]);
    }
  }

  /** The file is rewritten line by line: a written row is replaced, every other line keeps its
      content, and the only endings are line feeds, where there was one. */
  lemma RawLinesAfter(text: string, rows: seq<Row>)
    requires AllWritable(ById(rows))
    ensures RawLines(Rewrite(text, rows)) == RewrittenRaw(RawLines(text), ById(rows))
  {
    hide Lines, RawLines, ById, AllWritable, NoFeeds, StripCr, RewriteLine, Content, ParseRowLine;
    var m := ById(rows);
    var now := Rewritten(Lines(text), m);
    LinesHaveNoFeeds(text);
    RewrittenHasNoFeeds(Lines(text), m);
    LastLine(text);
    RawContents(text);
    if EndsLine(text) || now == [] {
      RawLinesOfJoined(now);
      assert RewrittenRaw(RawLines(text), m) == Fed(now);
    } else {
      RawLinesOfPopped(now);
      assert now[|now| - 1] + "" == now[|now| - 1];
      assert RewrittenRaw(RawLines(text), m) == Fed(now[..|now| - 1]) + [now[|now| - 1]];
    }
  }

  /** A line that is no written row stays byte for byte exactly when it does not end in a
      carriage return and a line feed. */
  lemma OtherLinesStay(text: string, rows: seq<Row>)
    requires AllWritable(ById(rows))
    ensures var (was, now) := (RawLines(text), RawLines(Rewrite(text, rows)));
      |now| == |was|
      && forall k :: 0 <= k < |was| && !IsWritten(was[k], ById(rows)) ==> (now[k] == was[k] <==> !EndsCrLf(was[k]))
  {
    hide RawLines, ById, AllWritable, Rewrite, ParseRowLine;
    RawLinesAfter(text, rows);
    var (was, m) := (RawLines(text), ById(rows));
    forall k | 0 <= k < |was| && !IsWritten(was[k], m)
      ensures RewriteRaw(was[k], m) == was[k] <==> !EndsCrLf(was[k])
    {
      UntouchedLine(was[k], m);
    }
  }

  lemma UntouchedLine(raw: string, m: map<string, Row>)
    requires !IsWritten(raw, m)
    ensures RewriteRaw(raw, m) == raw <==> !EndsCrLf(raw)
  {
    hide ParseRowLine;
    if EndsLine(raw) {
      assert raw == WithoutFeed(raw) + "\n";
      assert |RewriteRaw(raw, m)| == |Content(raw)| + 1;
    }
  }

  /** A written row's line stays byte for byte exactly when it has the written form already. */
  lemma WrittenLineStays(text: string, rows: seq<Row>, k: nat)
    requires AllWritable(ById(rows)) && k < |RawLines(text)| && IsWritten(RawLines(text)[k], ById(rows))
    ensures var (raw, m, now) := (RawLines(text)[k], ById(rows), RawLines(Rewrite(text, rows)));
      k < |now| && now[k] == Format(m[ParseRowLine(Content(raw)).value.taskId]) + Feed(raw)
  {
    hide RawLines, ById, AllWritable, Rewrite, ParseRowLine, Format, Content;
    RawLinesAfter(text, rows);
  }

  lemma {:induction false} RowOfLine(lines: seq<string>, k: nat)
    requires k < |lines| && ParseRowLine(lines[k]).Some?
    ensures ParseRowLine(lines[k]).value in RowsOf(lines)
  {
    hide ParseRowLine;
    var (n, line) := (|lines| - 1, lines[k]);
    if k < n {
      RowOfLine(lines[..n], k);
    } else {
      if line != "" && line[0] == '#' {
        CommentIsNoRow(line);
      }
      assert ParseRowLine(line).value in ParseLine(line);
    }
  }

  predicate CrLfAt(text: string, i: nat) {
    i + 1 < |text| && text[i] == '\r' && text[i + 1] == '\n'
  }

  ghost predicate HasCrLf(text: string) {
    exists i: nat :: CrLfAt(text, i)
  }

  predicate SomeEndsCrLf(raws: seq<string>) {
    exists k :: 0 <= k < |raws| && EndsCrLf(raws[k])
  }

  lemma FirstCrLf(text: string, k: nat)
    requires IndexOf(text, '\n') == Some(k)
    ensures HasCrLf(text) <==> EndsCrLf(text[..k + 1]) || HasCrLf(text[k + 1..])
  {
    var (first, rest) := (text[..k + 1], text[k + 1..]);
    assert WithoutFeed(first) == text[..k];
    if EndsCrLf(first) {
      assert CrLfAt(text, k - 1);
    }
    if i: nat :| CrLfAt(rest, i) {
      assert CrLfAt(text, i + k + 1);
    }
    if i: nat :| CrLfAt(text, i) {
      if i >= k {
        assert i != k && CrLfAt(rest, i - k - 1);
      } else {
        assert i + 1 == k;
      }
    }
  }

  lemma {:induction false} CrLfLines(text: string)
    ensures HasCrLf(text) <==> SomeEndsCrLf(RawLines(text))
  {
    hide EndsCrLf;
    match IndexOf(text, '\n')
    case None =>
      NoFeedNoCrLf(text);
    case Some(k) =>
      FirstCrLf(text, k);
      CrLfLines(text[k + 1..]);
      var (raws, rest) := (RawLines(text), RawLines(text[k + 1..]));
      hide HasCrLf, RawLines;
      assert raws == [text[..k + 1]] + rest;
      if SomeEndsCrLf(rest) {
        var j :| 0 <= j < |rest| && EndsCrLf(rest[j]);
        assert EndsCrLf(raws[j + 1]);
      }
      if EndsCrLf(text[..k + 1]) {
        assert EndsCrLf(raws[0]);
      }
  }

  lemma NoFeedNoCrLf(text: string)
    requires '\n' !in text
    ensures !HasCrLf(text) && !EndsCrLf(text)
  {
  }

  /** Writing no rows leaves the file as it was exactly when it has no carriage return before a
      line feed. */
  lemma NothingWritten(text: string)
    ensures Rewrite(text, []) == text <==> !HasCrLf(text)
  {
    hide RawLines, Rewrite, ParseRowLine, EndsCrLf, HasCrLf;
    var (was, now) := (RawLines(text), RawLines(Rewrite(text, [])));
    OtherLinesStay(text, []);
    CrLfLines(text);
    RawLinesAreTheText(text);
    RawLinesAreTheText(Rewrite(text, []));
    assert forall k :: 0 <= k < |was| ==> !IsWritten(was[k], ById([]));
    assert now == was <==> forall k :: 0 <= k < |was| ==> now[k] == was[k];
  }
}
