/** Claims and releases over the table, and what any run of them keeps. */
module TaskClaims {
  import opened Strings
  import opened Registry
  import opened RegistryText
  import B = RegistryBytes
  import opened TextLines

  datatype Op = Claim(taskId: string, agent: string, now: string) | Release(taskId: string, agent: string)

  datatype Reply =
    | Claimed(taskId: string, agent: string, started: string)
    | Released
    | NotFound
    | AlreadyClaimed(agent: string, started: string)
    | NotOwner(agent: string)

  function Position(rows: seq<Row>, id: string): (r: Option<nat>)
    ensures r.None? ==> forall k :: 0 <= k < |rows| ==> rows[k].taskId != id
    ensures r.Some? ==> r.value < |rows| && rows[r.value].taskId == id
    ensures r.Some? ==> forall k :: 0 <= k < r.value ==> rows[k].taskId != id
  {
    if rows == [] then None
    else if rows[0].taskId == id then Some(0)
    else
      match Position(rows[1..], id)
      case None => None
      case Some(k) => Some(k + 1)
  }

  function RowsIn(text: string): seq<Row> {
    RowsOf(Lines(text))
  }

  /** The row an id is looked up as. */
  function RowFor(rows: seq<Row>, id: string): Option<Row> {
    match Position(rows, id)
    case Some(k) => Some(rows[k])
    case None => None
  }

  /** One request against the rows alone. */
  function StepRows(rows: seq<Row>, op: Op): (seq<Row>, Reply) {
    match Position(rows, op.taskId)
    case None => (rows, NotFound)
    case Some(k) =>
      var row := rows[k];
      match op
      case Claim(id, agent, now) =>
        if row.status == "in progress" then (rows, AlreadyClaimed(row.agent, row.started))
        else (rows[k := Row(row.taskId, "in progress", agent, now)], Claimed(id, agent, now))
      case Release(id, agent) =>
        if row.status == "in progress" && row.agent != agent then (rows, NotOwner(row.agent))
        else (rows[k := Row(row.taskId, "free", "", "")], Released)
  }

  predicate Succeeds(r: Reply) {
    r.Claimed? || r.Released?
  }

  /** One request against the file. */
  function StepText(text: string, op: Op): (string, Reply) {
    var (rows, reply) := StepRows(RowsIn(text), op);
    (if Succeeds(reply) then Rewrite(text, rows) else text, reply)
  }

  class TaskRegistry {
    var text: string

    constructor (text: string)
      ensures this.text == text
    {
      this.text := text;
    }

    method ClaimTask(taskId: string, agent: string, now: string) returns (reply: Reply)
      modifies this
      ensures (text, reply) == StepText(old(text), Claim(taskId, agent, now))
    {
      hide Rewrite, Lines;
      var rows := ParseRows(text);
      var idx := Position(rows, taskId);
      if idx.None? {
        return NotFound;
      }
      var row := rows[idx.value];
      if row.status == "in progress" {
        return AlreadyClaimed(row.agent, row.started);
      }
      rows := rows[idx.value := Row(row.taskId, "in progress", agent, now)];
      text := RewriteRows(text, rows);
      reply := Claimed(taskId, agent, now);
    }

    method ReleaseTask(taskId: string, agent: string) returns (reply: Reply)
      modifies this
      ensures (text, reply) == StepText(old(text), Release(taskId, agent))
    {
      hide Rewrite, Lines;
      var rows := ParseRows(text);
      var idx := Position(rows, taskId);
      if idx.None? {
        return NotFound;
      }
      var row := rows[idx.value];
      if row.status == "in progress" && row.agent != agent {
        return NotOwner(row.agent);
      }
      rows := rows[idx.value := Row(row.taskId, "free", "", "")];
      text := RewriteRows(text, rows);
      reply := Released;
    }
  }

  // ---- collecting rows by id ---------------------------------------------------------------

  predicate Distinct(rows: seq<Row>) {
    forall i, j :: 0 <= i < j < |rows| ==> rows[i].taskId != rows[j].taskId
  }

  predicate OnlyBefore(rows: seq<Row>, k: nat, id: string) {
    forall j :: k < j < |rows| ==> rows[j].taskId != id
  }

  lemma {:induction false} ByIdIsARow(rows: seq<Row>, id: string)
    requires id in ById(rows)
    ensures ById(rows)[id] in rows && ById(rows)[id].taskId == id
  {
    var n := |rows|;
    if rows[n - 1].taskId != id {
      ByIdIsARow(rows[..n - 1], id);
    }
  }

  lemma {:induction false} ByIdHas(rows: seq<Row>, k: nat)
    requires k < |rows|
    ensures rows[k].taskId in ById(rows)
    ensures OnlyBefore(rows, k, rows[k].taskId) ==> ById(rows)[rows[k].taskId] == rows[k]
  {
    var n := |rows|;
    if k < n - 1 {
      ByIdHas(rows[..n - 1], k);
    }
  }

  /** Replacing one row: a later row of the same id still wins. */
  lemma {:induction false} ByIdReplaced(rows: seq<Row>, k: nat, r: Row)
    requires k < |rows| && r.taskId == rows[k].taskId
    ensures r.taskId in ById(rows) && r.taskId in ById(rows[k := r])
    ensures ById(rows[k := r])[r.taskId] == if OnlyBefore(rows, k, r.taskId) then r else ById(rows)[r.taskId]
  {
    var n := |rows|;
    ByIdHas(rows, k);
    ByIdHas(rows[k := r], k);
    if k < n - 1 {
      assert rows[k := r][..n - 1] == rows[..n - 1][k := r];
      ByIdReplaced(rows[..n - 1], k, r);
      assert rows[n - 1].taskId != r.taskId ==>
        (OnlyBefore(rows, k, r.taskId) <==> OnlyBefore(rows[..n - 1], k, r.taskId));
    }
  }

  // ---- one request ----------------------------------------------------------------------------

  /** What a request writes can be read back. */
  predicate CleanOp(op: Op) {
    op.Claim? ==> Writable(Row("K0", "", op.agent, op.now))
  }

  lemma WritableIds(rows: seq<Row>)
    requires forall k :: 0 <= k < |rows| ==> Writable(rows[k])
    ensures AllWritable(ById(rows))
  {
    hide Writable, ById;
    var m := ById(rows);
    forall id | id in m
      ensures Writable(m[id])
    {
      ByIdIsARow(rows, id);
    }
  }

  lemma FileRows(text: string)
    ensures forall k :: 0 <= k < |RowsIn(text)| ==> Writable(RowsIn(text)[k])
  {
    hide Lines, Writable, NoFeeds;
    LinesHaveNoFeeds(text);
    FileRowsAreWritable(Lines(text));
  }

  lemma DistinctUpdate(rows: seq<Row>, k: nat, r: Row)
    requires Distinct(rows) && k < |rows| && r.taskId == rows[k].taskId
    ensures Updated(rows, ById(rows[k := r])) == rows[k := r]
  {
    hide ById;
    var now := rows[k := r];
    forall j | 0 <= j < |rows|
      ensures Updated(rows, ById(now))[j] == now[j]
    {
      ByIdHas(now, j);
    }
  }

  lemma StepRowsIs(rows: seq<Row>, op: Op)
    ensures var (next, reply) := StepRows(rows, op);
      if Succeeds(reply) then
        var k := Position(rows, op.taskId);
        k.Some? && next == rows[k.value := NewRow(op)]
      else next == rows
  {
  }

  function NewRow(op: Op): Row {
    match op
    case Claim(id, agent, now) => Row(id, "in progress", agent, now)
    case Release(id, agent) => Row(id, "free", "", "")
  }

  lemma NewRowWritable(rows: seq<Row>, k: nat, op: Op)
    requires k < |rows| && rows[k].taskId == op.taskId && CleanOp(op)
    requires Writable(rows[k])
    ensures Writable(NewRow(op))
  {
    hide IsTaskId;
    match op
    case Claim(id, agent, now) =>
      assert Clean(agent) && Clean(now);
      assert Clean("in progress") && '\n' !in "in progress";
    case Release(id, agent) =>
      assert Clean("free") && '\n' !in "free";
  }

  /** The file steps as the rows do: the rows are a full account of it. */
  lemma StepTextIsStepRows(text: string, op: Op)
    requires Distinct(RowsIn(text)) && CleanOp(op)
    ensures RowsIn(StepText(text, op).0) == StepRows(RowsIn(text), op).0
    ensures StepText(text, op).1 == StepRows(RowsIn(text), op).1
    ensures Distinct(RowsIn(StepText(text, op).0))
  {
    hide Lines, Rewrite, Writable, ById, AllWritable, StepRows, CleanOp, NewRow, Position, RowsOf, Updated;
    var rows := RowsIn(text);
    var (next, reply) := StepRows(rows, op);
    StepRowsIs(rows, op);
    if Succeeds(reply) {
      var k := Position(rows, op.taskId).value;
      FileRows(text);
      NewRowWritable(rows, k, op);
      NewRowId(op);
      WritableIds(next);
      RewriteThenParse(text, next);
      DistinctUpdate(rows, k, NewRow(op));
    }
  }

  lemma NewRowId(op: Op)
    ensures NewRow(op).taskId == op.taskId
  {
  }

  /** A request that succeeds writes the rows of all other tasks too. Their lines stay byte for
      byte exactly if they have the written form already; those of a refused request all stay. */
  lemma OtherTasksLines(text: string, op: Op, k: nat)
    requires Distinct(RowsIn(text)) && CleanOp(op) && k < |B.RawLines(text)|
    requires var row := ParseRowLine(B.Content(B.RawLines(text)[k])); row.Some? && row.value.taskId != op.taskId
    ensures var (raw, now) := (B.RawLines(text)[k], B.RawLines(StepText(text, op).0));
      k < |now|
      && (now[k] == raw <==> (!Succeeds(StepText(text, op).1)
                              || raw == Format(ParseRowLine(B.Content(raw)).value) + B.Feed(raw)))
  {
    hide B.RawLines, Rewrite, Writable, ById, AllWritable, StepRows, CleanOp, NewRow, Position;
    hide ParseRowLine, Format, Lines;
    var rows := RowsIn(text);
    var (next, reply) := StepRows(rows, op);
    StepRowsIs(rows, op);
    if Succeeds(reply) {
      var j := Position(rows, op.taskId).value;
      var row := ParseRowLine(B.Content(B.RawLines(text)[k])).value;
      FileRows(text);
      NewRowWritable(rows, j, op);
      NewRowId(op);
      WritableIds(next);
      B.RawContents(text);
      B.RowOfLine(Lines(text), k);
      OtherRowKept(rows, j, NewRow(op), row);
      B.WrittenLineStays(text, next, k);
    }
  }

  /** Replacing one row leaves what is written for every other id. */
  lemma OtherRowKept(rows: seq<Row>, j: nat, r: Row, row: Row)
    requires Distinct(rows) && j < |rows| && r.taskId == rows[j].taskId && row in rows && row.taskId != r.taskId
    ensures var m := ById(rows[j := r]); row.taskId in m && m[row.taskId] == row
  {
    hide ById;
    var i :| 0 <= i < |rows| && rows[i] == row;
    ByIdHas(rows[j := r], i);
  }

  // ---- runs ------------------------------------------------------------------------------

  /** The file after a run, and the reply to each request. */
  function RunText(text: string, ops: seq<Op>): (string, seq<Reply>) {
    if ops == [] then (text, [])
    else
      var (was, replies) := RunText(text, ops[..|ops| - 1]);
      var (now, reply) := StepText(was, ops[|ops| - 1]);
      (now, replies + [reply])
  }

  function RunRows(rows: seq<Row>, ops: seq<Op>): (seq<Row>, seq<Reply>) {
    if ops == [] then (rows, [])
    else
      var (was, replies) := RunRows(rows, ops[..|ops| - 1]);
      var (now, reply) := StepRows(was, ops[|ops| - 1]);
      (now, replies + [reply])
  }

  predicate CleanOps(ops: seq<Op>) {
    forall k :: 0 <= k < |ops| ==> CleanOp(ops[k])
  }

  /** Over any run the file is the table of rows it shows. */
  lemma {:induction false} RunTextIsRunRows(text: string, ops: seq<Op>)
    requires Distinct(RowsIn(text)) && CleanOps(ops)
    ensures RowsIn(RunText(text, ops).0) == RunRows(RowsIn(text), ops).0
    ensures RunText(text, ops).1 == RunRows(RowsIn(text), ops).1
    ensures Distinct(RowsIn(RunText(text, ops).0))
  {
    hide RowsIn, StepText, StepRows, Distinct, CleanOp;
    if ops != [] {
      RunTextIsRunRows(text, ops[..|ops| - 1]);
      StepTextIsStepRows(RunText(text, ops[..|ops| - 1]).0, ops[|ops| - 1]);
    }
  }

  predicate Held(row: Option<Row>) {
    row.Some? && row.value.status == "in progress"
  }

  /** What one request does to the row of an id. */
  lemma StepRow(rows: seq<Row>, op: Op, id: string)
    ensures var (row, next) := (RowFor(rows, id), RowFor(StepRows(rows, op).0, id));
      next == if op.taskId != id || row.None? || !Succeeds(StepRows(rows, op).1) then row else Some(NewRow(op))
  {
    var (next, reply) := StepRows(rows, op);
    var k := Position(rows, op.taskId);
    var j := Position(rows, id);
    if Succeeds(reply) {
      assert next == rows[k.value := NewRow(op)];
      assert |next| == |rows|;
      forall i | 0 <= i < |rows|
        ensures next[i].taskId == rows[i].taskId
      {
      }
      if j.Some? {
        assert Position(next, id) == j by {
          assert next[j.value].taskId == id;
        }
      }
    }
  }

  /** A row held by an agent answers every other request for its id with who holds it. */
  lemma HeldAnswers(rows: seq<Row>, op: Op)
    requires Held(RowFor(rows, op.taskId))
    ensures var (row, reply) := (RowFor(rows, op.taskId).value, StepRows(rows, op).1);
      match op {
        case Claim(_, _, _) => reply == AlreadyClaimed(row.agent, row.started)
        case Release(_, agent) => if agent == row.agent then reply == Released else reply == NotOwner(row.agent)
      }
  {
  }

  /** A request for a row that is not held is granted, and refused only where there is no row. */
  lemma FreeAnswers(rows: seq<Row>, op: Op)
    requires !Held(RowFor(rows, op.taskId))
    ensures var reply := StepRows(rows, op).1;
      if exists r :: r in rows && r.taskId == op.taskId then
        match op {
          case Claim(id, agent, now) => reply == Claimed(id, agent, now)
          case Release(_, _) => reply == Released
        }
      else reply == NotFound
  {
    var k := Position(rows, op.taskId);
    if k.Some? {
      assert rows[k.value] in rows;
    }
  }

  /**
    A held row keeps its agent and start time through a whole run exactly when the run has no
    release of it by that agent; and while it is held, nobody else is served.
   */
  lemma {:induction false} HeldUntilReleased(text: string, ops: seq<Op>, id: string)
    requires Distinct(RowsIn(text)) && CleanOps(ops)
    requires Held(RowFor(RowsIn(text), id))
    ensures var row := RowFor(RowsIn(text), id);
      (forall n :: 0 <= n <= |ops| ==> RowFor(RowsIn(RunText(text, ops[..n]).0), id) == row)
      <==> Release(id, row.value.agent) !in ops
    ensures Release(id, RowFor(RowsIn(text), id).value.agent) !in ops ==> Refused(text, ops, id)
  {
    hide RowsIn, StepText, StepRows, CleanOp, RowFor, Distinct, Refused, RunText;
    var row := RowFor(RowsIn(text), id);
    if ops == [] {
      assert ops[..0] == [];
      NothingRefused(text, id);
    } else {
      var n := |ops|;
      var rest := ops[..n - 1];
      HeldUntilReleased(text, rest, id);
      assert ops == rest + [ops[n - 1]];
      assert forall k :: 0 <= k <= n - 1 ==> rest[..k] == ops[..k];
      assert ops[..n] == ops && rest[..n - 1] == rest;
      if Release(id, row.value.agent) !in rest {
        assert RowFor(RowsIn(RunText(text, rest).0), id) == row;
        HeldStep(text, rest, ops[n - 1], id, row);
      }
    }
  }

  /** One reply for each request, and no request for `id` succeeded. */
  predicate Refused(text: string, ops: seq<Op>, id: string) {
    var replies := RunText(text, ops).1;
    |replies| == |ops| && forall k :: 0 <= k < |ops| && ops[k].taskId == id ==> !Succeeds(replies[k])
  }

  lemma NothingRefused(text: string, id: string)
    ensures RunText(text, []).0 == text && Refused(text, [], id)
  {
  }

  /** One more request while the row is held. */
  lemma HeldStep(text: string, rest: seq<Op>, op: Op, id: string, row: Option<Row>)
    requires Distinct(RowsIn(text)) && CleanOps(rest) && CleanOp(op)
    requires Held(row) && RowFor(RowsIn(RunText(text, rest).0), id) == row && Refused(text, rest, id)
    ensures RowFor(RowsIn(RunText(text, rest + [op]).0), id) == row <==> op != Release(id, row.value.agent)
    ensures op != Release(id, row.value.agent) ==> Refused(text, rest + [op], id)
  {
    hide RowsIn, StepText, StepRows, CleanOp, RowFor, Distinct;
    var was := RunText(text, rest).0;
    RunTextIsRunRows(text, rest);
    StepTextIsStepRows(was, op);
    StepRow(RowsIn(was), op, id);
    RunTextLast(text, rest, op);
    hide RunText, RunRows, NewRow, CleanOps;
    if op.taskId == id {
      if op.Release? {
        NewRowIsOther(op, row);
      }
      HeldAnswers(RowsIn(was), op);
    }
  }

  lemma RunTextLast(text: string, rest: seq<Op>, op: Op)
    ensures var (was, now) := (RunText(text, rest), RunText(text, rest + [op]));
      now == (StepText(was.0, op).0, was.1 + [StepText(was.0, op).1])
  {
    hide StepText;
    assert (rest + [op])[..|rest|] == rest;
  }

  lemma NewRowIsOther(op: Op, row: Option<Row>)
    requires Held(row) && op.Release?
    ensures Some(NewRow(op)) != row
  {
  }

  // ---- one id in two rows -----------------------------------------------------------------------

  lemma UpdatedKeepsIds(rows: seq<Row>, m: map<string, Row>)
    requires forall id :: id in m ==> m[id].taskId == id
    ensures forall id :: Position(Updated(rows, m), id) == Position(rows, id)
  {
    forall id
      ensures Position(Updated(rows, m), id) == Position(rows, id)
    {
      var (now, k) := (Updated(rows, m), Position(rows, id));
      assert forall j :: 0 <= j < |rows| ==> now[j].taskId == rows[j].taskId;
      if k.Some? {
        assert now[k.value].taskId == id;
      }
    }
  }

  /** A request that succeeded is what the file then shows, exactly when its row can be written
      and no later row of the same id overrides it. */
  lemma RequestSticksExactly(text: string, op: Op)
    requires Succeeds(StepText(text, op).1)
    ensures var (rows, row, id) := (RowsIn(text), NewRow(op), op.taskId);
      RowFor(RowsIn(StepText(text, op).0), id) == Some(row)
      <==> (Writable(row)
            && (OnlyBefore(rows, Position(rows, id).value, id) || (id in ById(rows) && ById(rows)[id] == row)))
  {
    hide Lines, RowsOf, Rewrite, Writable, ById, AllWritable, Updated;
    var (rows, row) := (RowsIn(text), NewRow(op));
    var k := Position(rows, op.taskId).value;
    var next := rows[k := row];
    var after := Rewrite(text, next);
    if Writable(row) {
      FileRows(text);
      WritableIds(next);
      RewriteThenParse(text, next);
      forall i | i in ById(next)
        ensures ById(next)[i].taskId == i
      {
        ByIdIsARow(next, i);
      }
      UpdatedKeepsIds(rows, ById(next));
      ByIdReplaced(rows, k, row);
      UpdatedAt(rows, ById(next), k);
    } else {
      FileRows(after);
    }
  }

  /** A claim that was granted is what the file then shows, exactly when its agent and time can be
      written and no later row of the same id overrides it. */
  lemma ClaimSticksExactly(text: string, id: string, agent: string, now: string)
    requires StepText(text, Claim(id, agent, now)).1.Claimed?
    ensures var (rows, row) := (RowsIn(text), Row(id, "in progress", agent, now));
      RowFor(RowsIn(StepText(text, Claim(id, agent, now)).0), id) == Some(row)
      <==> (Writable(row)
            && (OnlyBefore(rows, Position(rows, id).value, id) || (id in ById(rows) && ById(rows)[id] == row)))
  {
    hide RowsIn, Writable, ById, RowFor, OnlyBefore;
    RequestSticksExactly(text, Claim(id, agent, now));
  }

  /** A row in a file can be released whatever it says, so a granted release shows as a free row
      exactly when no later row of the same id overrides it. */
  lemma ReleaseSticksExactly(text: string, id: string, agent: string)
    requires StepText(text, Release(id, agent)).1.Released?
    ensures var (rows, row) := (RowsIn(text), Row(id, "free", "", ""));
      RowFor(RowsIn(StepText(text, Release(id, agent)).0), id) == Some(row)
      <==> (OnlyBefore(rows, Position(rows, id).value, id) || (id in ById(rows) && ById(rows)[id] == row))
  {
    hide Lines, RowsOf, ById, Rewrite, Writable, OnlyBefore, Updated;
    var op := Release(id, agent);
    RequestSticksExactly(text, op);
    FileRows(text);
    NewRowWritable(RowsIn(text), Position(RowsIn(text), id).value, op);
  }

  lemma UpdatedAt(rows: seq<Row>, m: map<string, Row>, k: nat)
    requires k < |rows| && rows[k].taskId in m
    ensures |Updated(rows, m)| == |rows| && Updated(rows, m)[k] == m[rows[k].taskId]
  {
  }
}
