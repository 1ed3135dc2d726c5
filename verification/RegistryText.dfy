/** What rewriting the claim table keeps: the rows read back updated, and the other lines stay. */
module RegistryText {
  import opened Registry
  import opened TextLines

  predicate OneLine(r: Row) {
    '\n' !in r.taskId && '\n' !in r.status && '\n' !in r.agent && '\n' !in r.started
  }

  /** A row whose written form is one line that reads back as the row. */
  predicate Writable(r: Row) {
    CleanRow(r) && OneLine(r)
  }

  ghost predicate AllWritable(m: map<string, Row>) {
    forall id :: id in m ==> Writable(m[id])
  }

  predicate NoFeeds(lines: seq<string>) {
    forall k :: 0 <= k < |lines| ==> '\n' !in lines[k]
  }

  predicate EndsReturn(s: string) {
    s != "" && s[|s| - 1] == '\r'
  }

  function Stripped(lines: seq<string>): seq<string> {
    seq(|lines|, k requires 0 <= k < |lines| => StripCr(lines[k]))
  }

  // ---- lines ---------------------------------------------------------------------------

  lemma {:induction false} LinesHaveNoFeeds(text: string)
    ensures NoFeeds(Lines(text))
  {
    match IndexOf(text, '\n')
    case None =>
    case Some(k) => LinesHaveNoFeeds(text[k + 1..]);
  }

  lemma LineAdded(a: string, rest: string)
    requires '\n' !in a
    ensures Lines(a + "\n" + rest) == [StripCr(a)] + Lines(rest)
  {
    hide StripCr;
    var s := a + "\n" + rest;
    assert s[|a|] == '\n';
    assert '\n' in s;
    forall i | 0 <= i < |a|
      ensures s[i] != '\n'
    {
      assert s[i] == a[i];
    }
    var k := IndexOf(s, '\n').value;
    assert s[..k] == a && s[k + 1..] == rest;
  }

  lemma {:induction false} JoinedFirst(lines: seq<string>)
    requires lines != []
    ensures Joined(lines) == lines[0] + "\n" + Joined(lines[1..])
  {
    var (n, last) := (|lines|, lines[|lines| - 1]);
    if n > 1 {
      var (front, back) := (lines[..n - 1], lines[1..]);
      JoinedFirst(front);
      assert front[1..] == back[..n - 2];
      assert Joined(back) == Joined(front[1..]) + last + "\n";
      assert Joined(lines) == Joined(front) + last + "\n";
      hide Joined;
    } else {
      assert lines[..0] == [] && lines[1..] == [];
    }
  }

  lemma {:induction false} LinesOfJoined(lines: seq<string>)
    requires NoFeeds(lines)
    ensures Lines(Joined(lines)) == Stripped(lines)
  {
    hide StripCr, Lines, Joined;
    if lines == [] {
      LinesOfNothing();
    } else {
      var (first, rest) := (lines[0], Joined(lines[1..]));
      JoinedFirst(lines);
      LineAdded(first, rest);
      LinesOfJoined(lines[1..]);
      assert Stripped(lines) == [StripCr(first)] + Stripped(lines[1..]);
    }
  }

  lemma LinesOfNothing()
    ensures Lines(Joined([])) == []
  {
  }

  lemma OnlyLine(s: string)
    requires s != "" && '\n' !in s
    ensures Lines(s) == [s]
  {
  }

  function Popped(s: string): string {
    if s == "" then s else s[..|s| - 1]
  }

  /** The last line without its line feed: nothing strips it. */
  lemma {:induction false} LinesOfPopped(lines: seq<string>)
    requires NoFeeds(lines) && lines != [] && lines[|lines| - 1] != ""
    ensures EndsLine(Joined(lines))
    ensures Lines(Popped(Joined(lines))) == Stripped(lines[..|lines| - 1]) + [lines[|lines| - 1]]
  {
    hide StripCr, Lines;
    var (n, out) := (|lines|, Joined(lines));
    if n == 1 {
      assert lines[..0] == [];
      assert Popped(out) == lines[0];
      OnlyLine(lines[0]);
    } else {
      var rest := Joined(lines[1..]);
      JoinedFirst(lines);
      hide Joined;
      LinesOfPopped(lines[1..]);
      LineAdded(lines[0], Popped(rest));
      assert Popped(out) == lines[0] + "\n" + Popped(rest);
      assert lines[1..][..n - 2] == lines[..n - 1][1..];
      assert Stripped(lines[..n - 1]) == [StripCr(lines[0])] + Stripped(lines[1..][..n - 2]);
    }
  }

  lemma {:induction false} LastLine(text: string)
    ensures text == "" <==> Lines(text) == []
    ensures text != "" && !EndsLine(text) ==> Lines(text)[|Lines(text)| - 1] != ""
  {
    hide StripCr;
    match IndexOf(text, '\n')
    case None =>
    case Some(k) =>
      var rest := text[k + 1..];
      LastLine(rest);
      assert !EndsLine(text) ==> rest != "";
      assert rest != "" ==> rest[|rest| - 1] == text[|text| - 1];
      assert rest != "" ==> Lines(rest) != [];
  }

  // ---- lines after rewriting -------------------------------------------------------------

  /** The lines the written file has, one for each line it had. */
  function LinesAfter(text: string, rows: seq<Row>): seq<string> {
    var now := Rewritten(Lines(text), ById(rows));
    if EndsLine(text) || now == [] then Stripped(now) else Stripped(now[..|now| - 1]) + [now[|now| - 1]]
  }

  lemma RewrittenHasNoFeeds(lines: seq<string>, m: map<string, Row>)
    requires NoFeeds(lines) && AllWritable(m)
    ensures NoFeeds(Rewritten(lines, m))
    ensures forall k :: 0 <= k < |lines| && lines[k] != "" ==> Rewritten(lines, m)[k] != ""
  {
    hide ParseRowLine, CleanRow, Format;
    forall id | id in m
      ensures '\n' !in Format(m[id]) && Format(m[id]) != ""
    {
      assert Writable(m[id]);
      FormatIsOneLine(m[id]);
    }
  }

  lemma FormatIsOneLine(r: Row)
    requires OneLine(r)
    ensures '\n' !in Format(r) && Format(r) != ""
  {
    hide IsSpace;
    assert '\n' !in Cell(r.taskId) && '\n' !in Cell(r.status) && '\n' !in Cell(r.agent) && '\n' !in Cell(r.started);
    hide Cell;
  }

  lemma RewriteLines(text: string, rows: seq<Row>)
    requires AllWritable(ById(rows))
    ensures Lines(Rewrite(text, rows)) == LinesAfter(text, rows)
  {
    hide Lines, ById, AllWritable, NoFeeds, StripCr, RewriteLine;
    var now := Rewritten(Lines(text), ById(rows));
    LinesHaveNoFeeds(text);
    RewrittenHasNoFeeds(Lines(text), ById(rows));
    LastLine(text);
    if EndsLine(text) || now == [] {
      LinesOfJoined(now);
    } else {
      LinesOfPopped(now);
    }
  }

  // ---- rows after rewriting ------------------------------------------------------------------

  function Updated(rows: seq<Row>, m: map<string, Row>): seq<Row> {
    seq(|rows|, k requires 0 <= k < |rows| => if rows[k].taskId in m then m[rows[k].taskId] else rows[k])
  }

  lemma {:induction false} TrimLeftDropsLast(s: string)
    requires s != "" && IsSpace(s[|s| - 1])
    ensures TrimRight(TrimLeft(s[..|s| - 1])) == TrimRight(TrimLeft(s))
  {
    if IsSpace(s[0]) {
      if |s| == 1 {
        assert s[..0] == "" && s[1..] == "";
      } else {
        TrimLeftDropsLast(s[1..]);
        assert s[1..][..|s| - 2] == s[..|s| - 1][1..];
        assert s[..|s| - 1][0] == s[0];
      }
    } else {
      assert s[..|s| - 1][0] == s[0];
    }
  }

  lemma StrippedParsesAlike(line: string)
    ensures ParseLine(StripCr(line)) == ParseLine(line)
  {
    hide Split, IsTaskId;
    if EndsReturn(line) {
      assert IsSpace('\r');
      hide IsSpace;
      TrimLeftDropsLast(line);
    }
  }

  /** A comment line is no row, so skipping it changes nothing. */
  lemma CommentIsNoRow(line: string)
    requires line != "" && line[0] == '#'
    ensures ParseRowLine(line).None?
  {
    hide Split, IsTaskId;
    TrimLeftIs(line);
    TrimRightIs(line);
  }

  lemma RewrittenLineParses(line: string, m: map<string, Row>)
    requires AllWritable(m)
    ensures ParseLine(RewriteLine(line, m)) == Updated(ParseLine(line), m)
  {
    hide ParseRowLine, CleanRow, Format, OneLine;
    if line != "" && line[0] == '#' {
      CommentIsNoRow(line);
    }
    match ParseRowLine(line)
    case None =>
    case Some(r) =>
      if r.taskId in m {
        assert Writable(m[r.taskId]);
        RowRoundTrip(m[r.taskId]);
        FormatEnds(m[r.taskId]);
      }
  }

  lemma {:induction false} RowsOfRewritten(lines: seq<string>, m: map<string, Row>)
    requires AllWritable(m)
    ensures RowsOf(Rewritten(lines, m)) == Updated(RowsOf(lines), m)
  {
    hide ParseLine, RewriteLine, AllWritable;
    if lines != [] {
      var n := |lines|;
      RowsOfRewritten(lines[..n - 1], m);
      RewrittenLineParses(lines[n - 1], m);
      assert Rewritten(lines, m)[..n - 1] == Rewritten(lines[..n - 1], m);
    }
  }

  lemma {:induction false} RowsOfAlike(lines: seq<string>, others: seq<string>)
    requires |lines| == |others|
    requires forall k :: 0 <= k < |lines| ==> ParseLine(lines[k]) == ParseLine(others[k])
    ensures RowsOf(lines) == RowsOf(others)
  {
    hide ParseLine;
    if lines != [] {
      RowsOfAlike(lines[..|lines| - 1], others[..|others| - 1]);
    }
  }

  /** Reading the written file gives every row of the old one, replaced if its id was written. */
  lemma RewriteThenParse(text: string, rows: seq<Row>)
    requires AllWritable(ById(rows))
    ensures RowsOf(Lines(Rewrite(text, rows))) == Updated(RowsOf(Lines(text)), ById(rows))
  {
    hide Lines, ById, AllWritable, RewriteLine, Rewrite, ParseLine;
    var now := Rewritten(Lines(text), ById(rows));
    RewriteLines(text, rows);
    var after := LinesAfter(text, rows);
    forall k | 0 <= k < |now|
      ensures ParseLine(after[k]) == ParseLine(now[k])
    {
      StrippedParsesAlike(now[k]);
    }
    RowsOfAlike(after, now);
    RowsOfRewritten(Lines(text), ById(rows));
  }

  // ---- rows of a file can be written ------------------------------------------------------

  lemma {:induction false} SplitHasNoFeeds(s: string, k: nat)
    requires k < |Split(s)| && '\n' !in s
    ensures '\n' !in Split(s)[k]
  {
    var i := IndexOf(s, '|');
    if i.Some? && k > 0 {
      SplitHasNoFeeds(s[i.value + 1..], k - 1);
    }
  }

  lemma ParsedIsWritable(line: string)
    requires ParseRowLine(line).Some? && '\n' !in line
    ensures Writable(ParseRowLine(line).value)
  {
    ParsedIsClean(line);
    hide Split, Trim, IsTaskId, CleanRow;
    var parts := Split(Trim(line));
    TrimIs(line);
    forall k | 1 <= k <= 4
      ensures '\n' !in Trim(parts[k])
    {
      TrimIs(parts[k]);
      SplitHasNoFeeds(Trim(line), k);
    }
  }

  lemma {:induction false} FileRowsAreWritable(lines: seq<string>)
    requires NoFeeds(lines)
    ensures forall k :: 0 <= k < |RowsOf(lines)| ==> Writable(RowsOf(lines)[k])
  {
    hide ParseRowLine, Writable;
    if lines != [] {
      FileRowsAreWritable(lines[..|lines| - 1]);
      if ParseRowLine(lines[|lines| - 1]).Some? {
        ParsedIsWritable(lines[|lines| - 1]);
      }
    }
  }
}
