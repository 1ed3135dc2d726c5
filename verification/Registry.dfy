/** The task-claim registry: rows of a markdown table, parsed from and written back to text. */
module Registry {
  import opened Strings
  import opened TextLines

  datatype Row = Row(taskId: string, status: string, agent: string, started: string)

  /** `split('|')`. */
  function Split(s: string): seq<string> {
    match IndexOf(s, '|')
    case None => [s]
    case Some(k) => [s[..k]] + Split(s[k + 1..])
  }

  predicate AllDigits(s: string) {
    s != "" && forall k :: 0 <= k < |s| ==> '0' <= s[k] <= '9'
  }

  predicate IsTaskId(s: string) {
    if s != "" && s[0] == 'P' && IndexOf(s[1..], '.').Some? then
      var k := IndexOf(s[1..], '.').value;
      AllDigits(s[1..][..k]) && AllDigits(s[1..][k + 1..])
    else s != "" && s[0] == 'K' && AllDigits(s[1..])
  }

  /** The ids of tasks: `P`, digits, a dot and digits, or `K` and digits. */
  lemma TaskIdExactly(s: string)
    ensures IsTaskId(s)
       <==> (|| (exists a: string, b: string :: AllDigits(a) && AllDigits(b) && s == "P" + (a + "." + b))
             || (exists a: string :: AllDigits(a) && s == "K" + a))
  {
    if IsTaskId(s) {
      if s[0] == 'P' {
        var (rest, k) := (s[1..], IndexOf(s[1..], '.').value);
        assert s == "P" + (rest[..k] + "." + rest[k + 1..]);
      } else {
        assert s == "K" + s[1..];
      }
    }
    if a: string, b: string :| AllDigits(a) && AllDigits(b) && s == "P" + (a + "." + b) {
      assert s[1..] == a + "." + b;
      DotAfterDigits(a, b);
    }
    if a: string :| AllDigits(a) && s == "K" + a {
      assert s[1..] == a;
    }
  }

  lemma DotAfterDigits(a: string, b: string)
    requires AllDigits(a) && AllDigits(b)
    ensures IndexOf(a + "." + b, '.') == Some(|a|)
    ensures (a + "." + b)[..|a|] == a && (a + "." + b)[|a| + 1..] == b
  {
    var s := a + "." + b;
    assert s[|a|] == '.' && forall k :: 0 <= k < |a| ==> s[k] == a[k];
  }

  function ParseRowLine(line: string): Option<Row> {
    var t := Trim(line);
    if t == "" || t[0] != '|' then None
    else
      var parts := Split(t);
      if |parts| < 6 then None
      else
        var task := Trim(parts[1]);
        if task == "Task" || task == "------" || !IsTaskId(task) then None
        else Some(Row(task, Trim(parts[2]), Trim(parts[3]), Trim(parts[4])))
  }

  function Cell(f: string): string {
    " " + f + " "
  }

  /** `"| {} | {} | {} | {} |"`. */
  function Format(r: Row): string {
    "|" + (Cell(r.taskId) + "|" + (Cell(r.status) + "|" + (Cell(r.agent) + "|" + (Cell(r.started) + "|" + ""))))
  }

  // ---- rows and text --------------------------------------------------------------------

  function ParseLine(line: string): seq<Row> {
    if line != "" && line[0] == '#' then []
    else
      match ParseRowLine(line)
      case Some(r) => [r]
      case None => []
  }

  function RowsOf(lines: seq<string>): seq<Row> {
    if lines == [] then [] else RowsOf(lines[..|lines| - 1]) + ParseLine(lines[|lines| - 1])
  }

  /** Collecting rows by id: a later row replaces an earlier one of the same id. */
  function ById(rows: seq<Row>): map<string, Row> {
    if rows == [] then map[] else ById(rows[..|rows| - 1])[rows[|rows| - 1].taskId := rows[|rows| - 1]]
  }

  function RewriteLine(line: string, m: map<string, Row>): string {
    match ParseRowLine(line)
    case Some(r) => if r.taskId in m then Format(m[r.taskId]) else line
    case None => line
  }

  function Joined(lines: seq<string>): string {
    if lines == [] then "" else Joined(lines[..|lines| - 1]) + lines[|lines| - 1] + "\n"
  }

  function Rewritten(lines: seq<string>, m: map<string, Row>): seq<string> {
    seq(|lines|, k requires 0 <= k < |lines| => RewriteLine(lines[k], m))
  }

  predicate EndsLine(s: string) {
    s != "" && s[|s| - 1] == '\n'
  }

  function Rewrite(text: string, rows: seq<Row>): string {
    var out := Joined(Rewritten(Lines(text), ById(rows)));
    if !EndsLine(text) && EndsLine(out) then out[..|out| - 1] else out
  }

  method ParseRows(text: string) returns (out: seq<Row>)
    ensures out == RowsOf(Lines(text))
  {
    out := [];
    var lines := Lines(text);
    for k := 0 to |lines|
      invariant out == RowsOf(lines[..k])
    {
      assert lines[..k + 1][..k] == lines[..k];
      var line := lines[k];
      if line != "" && line[0] == '#' {
        continue;
      }
      var row := ParseRowLine(line);
      if row.None? {
        continue;
      }
      out := out + [row.value];
    }
    assert lines[..|lines|] == lines;
  }

  method RewriteRows(text: string, rows: seq<Row>) returns (out: string)
    ensures out == Rewrite(text, rows)
  {
    hide ParseRowLine, Format;
    var byId := ById(rows);
    var lines := Lines(text);
    out := "";
    for k := 0 to |lines|
      invariant out == Joined(Rewritten(lines, byId)[..k])
    {
      assert Rewritten(lines, byId)[..k + 1][..k] == Rewritten(lines, byId)[..k];
      var row := ParseRowLine(lines[k]);
      if row.Some? && row.value.taskId in byId {
        out := out + Format(byId[row.value.taskId]) + "\n";
        continue;
      }
      out := out + lines[k] + "\n";
    }
    assert Rewritten(lines, byId)[..|lines|] == Rewritten(lines, byId);
    if !EndsLine(text) && EndsLine(out) {
      out := out[..|out| - 1];
    }
  }

  // ---- one row: what is written reads back, exactly when its fields are clean ---------------

  /** Neither surrounded by white space nor containing a bar. */
  predicate Clean(f: string) {
    Trimmed(f) && '|' !in f
  }

  predicate CleanRow(r: Row) {
    IsTaskId(r.taskId) && Clean(r.status) && Clean(r.agent) && Clean(r.started)
  }

  lemma TrimPadded(f: string)
    requires Trimmed(f)
    ensures Trim(Cell(f)) == f
  {
    var s := Cell(f);
    assert s[1..] == f + " ";
    TrimLeftIs(f + " ");
    assert TrimLeft(s) == TrimLeft(f + " ");
    if f == "" {
      assert f + " " == " ";
      assert " "[1..] == "";
      assert TrimLeft(" ") == "";
    } else {
      assert (f + " ")[0] == f[0];
      assert (f + " ")[..|f|] == f;
      TrimRightIs(f);
    }
  }

  lemma SplitFirst(f: string, rest: string)
    requires '|' !in f
    ensures Split(f + "|" + rest) == [f] + Split(rest)
  {
    var s := f + "|" + rest;
    assert s[|f|] == '|';
    assert '|' in s;
    var k := IndexOf(s, '|').value;
    forall i | 0 <= i < |f|
      ensures s[i] != '|'
    {
      assert s[i] == f[i];
    }
    assert s[..k] == f && s[k + 1..] == rest;
  }

  lemma {:induction false} SplitHasNoBars(s: string, k: nat)
    requires k < |Split(s)|
    ensures '|' !in Split(s)[k]
  {
    var i := IndexOf(s, '|');
    if i.Some? && k > 0 {
      SplitHasNoBars(s[i.value + 1..], k - 1);
    }
  }

  /** Rows that come out of a line are clean. */
  lemma ParsedIsClean(line: string)
    requires ParseRowLine(line).Some?
    ensures CleanRow(ParseRowLine(line).value)
  {
    hide Split, Trim, IsTaskId;
    var t := Trim(line);
    var parts := Split(t);
    forall k | 1 <= k <= 4
      ensures Clean(Trim(parts[k]))
    {
      SplitHasNoBars(t, k);
      TrimIs(parts[k]);
    }
  }

  lemma TaskIdIsClean(s: string)
    requires IsTaskId(s)
    ensures Clean(s)
    ensures s != "Task" && s != "------" && '\n' !in s
  {
    var dot := IndexOf(s[1..], '.');
    forall k | 0 <= k < |s|
      ensures s[k] != '|' && !IsSpace(s[k]) && s[k] != 'a' && s[k] != '-'
    {
      if k > 0 {
        assert s[k] == s[1..][k - 1];
        if s[0] == 'P' && dot.Some? {
          var d := dot.value;
          if k - 1 < d {
            assert s[1..][..d][k - 1] == s[k];
          } else if k - 1 > d {
            assert s[1..][d + 1..][k - 1 - d - 1] == s[k];
          }
        }
      }
    }
    assert "Task"[1] == 'a' && "------"[1] == '-';
  }

  lemma SplitCell(f: string, rest: string)
    requires Clean(f)
    ensures Split(Cell(f) + "|" + rest) == [Cell(f)] + Split(rest)
  {
    hide Split;
    SplitFirst(Cell(f), rest);
  }

  lemma FormatSplits(r: Row)
    requires CleanRow(r)
    ensures Split(Format(r)) == ["", Cell(r.taskId), Cell(r.status), Cell(r.agent), Cell(r.started), ""]
  {
    hide Split, Cell, Clean, IsTaskId;
    TaskIdIsClean(r.taskId);
    var tail3 := Cell(r.started) + "|" + "";
    var tail2 := Cell(r.agent) + "|" + tail3;
    var tail1 := Cell(r.status) + "|" + tail2;
    var tail0 := Cell(r.taskId) + "|" + tail1;
    assert Format(r) == "" + "|" + tail0;
    SplitFirst("", tail0);
    SplitCell(r.taskId, tail1);
    SplitCell(r.status, tail2);
    SplitCell(r.agent, tail3);
    SplitCell(r.started, "");
    SplitNone();
  }

  lemma SplitNone()
    ensures Split("") == [""]
  {
  }

  /** A written row reads back as itself exactly when it is clean. */
  lemma RowRoundTrip(r: Row)
    ensures ParseRowLine(Format(r)) == Some(r) <==> CleanRow(r)
  {
    hide Split, Trim, IsTaskId;
    if CleanRow(r) {
      var s := Format(r);
      FormatEnds(r);
      TrimIs(s);
      FormatSplits(r);
      TaskIdIsClean(r.taskId);
      TrimPadded(r.taskId);
      TrimPadded(r.status);
      TrimPadded(r.agent);
      TrimPadded(r.started);
    }
    if ParseRowLine(Format(r)) == Some(r) {
      ParsedIsClean(Format(r));
    }
  }

  lemma FormatEnds(r: Row)
    ensures Format(r) != "" && Format(r)[0] == '|' && Format(r)[|Format(r)| - 1] == '|' && Trimmed(Format(r))
  {
  }
}
