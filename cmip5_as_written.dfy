/**
 * CMIP5Info._load_table exactly as written, one pass of its `while True` loop at a time, for the
 * two places where it differs from the loader of module Cmip5: after a record it always goes back
 * to the last pair read, even when that is the header of an empty record at the end of the file,
 * and it does not look at the result of its first read.
 */
module Cmip5AsWritten {
  import opened Outcomes
  import opened Text
  import opened JsonData
  import opened Descriptors
  import opened Cmip5Lines
  import opened Cmip5

  /** The loop's state: the file, the position in it, the last pair read, and what is loaded. */
  datatype Config = Config(lines: seq<string>, cursor: nat, last: Pair, st: Loading)

  /** Where the loop is after some passes: still going, returned, or raised. */
  datatype Outcome = Running(config: Config) | Finished(state: Loading) | Failed(error: Error)

  /**
   * The start of `_load_table` as written: one read whose result is ignored, then the loop on
   * whatever pair the reader holds — from an earlier file, or none at all.
   */
  function StartAsWritten(lines: seq<string>, previous: Option<Pair>, st: Loading): Outcome {
    match NextLine(lines, 0)
    case Eof => if previous.None? then Failed(NoLineRead) else Running(Config(lines, |lines|, previous.value, st))
    case Bad(e, _) => Failed(e)
    case Line(p, n) => Running(Config(lines, n, p, st))
  }

  /**
   * One pass of the loop as written: the branches are those of Dispatch, except that after an
   * axis or variable record the loop always continues on the last pair read.
   */
  function StepAsWritten(c: Config): Outcome {
    var p := c.last;
    if p.key == "axis_entry" then
      match ScanCoordinate(c.lines, c.cursor, Some(p), NewCoordinate(p.value))
      case Err(e) => Failed(e)
      case Ok(s) =>
        var coord := if s.atHeader then Some(s.record) else None;
        Running(Config(c.lines, s.next, s.last.value, c.st.(coords := c.st.coords[p.value := coord])))
    else if p.key == "variable_entry" then
      match ScanVariable(c.lines, c.cursor, Some(p), NewVariable(p.value))
      case Err(e) => Failed(e)
      case Ok(s) =>
        match StoreVariable(c.st, p.value, s.record)
        case Err(e) => Failed(e)
        case Ok(st) => Running(Config(c.lines, s.next, s.last.value, st))
    else
      match Dispatch(c.lines, c.cursor, p, c.st)
      case Err(e) => Failed(e)
      case Ok(Done(st)) => Finished(st)
      case Ok(Continue(n, q, st)) => Running(Config(c.lines, n, q, st))
  }

  /** At most k passes of the loop as written. */
  function RunAsWritten(c: Config, k: nat): Outcome
    decreases k
  {
    if k == 0 then Running(c)
    else match StepAsWritten(c)
      case Running(next) => RunAsWritten(next, k - 1)
      case other => other
  }

  /** A loop state that one pass leaves as it is is never left. */
  lemma {:induction false} FixedPointRunsForever(c: Config, k: nat)
    requires StepAsWritten(c) == Running(c)
    ensures RunAsWritten(c, k) == Running(c)
    decreases k
  {
    if k > 0 {
      FixedPointRunsForever(c, k - 1);
    }
  }

  /** Storing the same record a second time leaves the loaded state as the first store left it. */
  lemma StoreVariableAgain(st: Loading, name: string, v: VariableInfo)
    requires StoreVariable(st, name, v).Ok?
    ensures StoreVariable(StoreVariable(st, name, v).value, name, v) == StoreVariable(st, name, v)
  {
    var once := StoreVariable(st, name, v).value;
    var withFrequency := v.(frequency := Some(Str(st.frequency)));
    var links := LinkCoordinates(withFrequency.dimensions, st.coords, withFrequency.coordinates).value;
    var table := once.tables[st.tableName];
    assert table[name := withFrequency.(coordinates := links)] == table;
    assert once.tables[st.tableName := table] == once.tables;
  }

  /**
   * Finding: when the last pair read is a record header and nothing but comment lines follow,
   * the pass reads an empty record at the end of the file, keeps the header as the last pair,
   * and the pass after it changes nothing more — the loop never returns.
   */
  lemma TrailingHeaderRepeats(c: Config)
    requires IsEntryHeader(c.last.key) && NextLine(c.lines, c.cursor).Eof?
    requires StepAsWritten(c).Running?
    ensures var next := StepAsWritten(c).config;
      next.last == c.last && next.cursor == |c.lines| && StepAsWritten(next) == Running(next)
  {
    if c.last.key == "variable_entry" {
      StoreVariableAgain(c.st, c.last.value, NewVariable(c.last.value));
    }
  }

  /** A pass of the corrected loop, read as an outcome of the loop as written. */
  function Resumed(lines: seq<string>, r: Result<Step>): Outcome {
    match r
    case Err(e) => Failed(e)
    case Ok(Done(st)) => Finished(st)
    case Ok(Continue(n, q, st)) => Running(Config(lines, n, q, st))
  }

  /** A record header followed by a line: the record reader does not stop with that header as its last pair. */
  lemma CoordinateScanMoves(lines: seq<string>, cursor: nat, p: Pair)
    requires IsEntryHeader(p.key) && !NextLine(lines, cursor).Eof?
    ensures var s := ScanCoordinate(lines, cursor, Some(p), NewCoordinate(p.value));
      s.Ok? && !s.value.atHeader ==> s.value.last != Some(p)
  {
    match NextLine(lines, cursor)
    case Bad(_, _) =>
    case Line(q, n) =>
      if IsEntryHeader(q.key) {
        assert ScanCoordinate(lines, cursor, Some(p), NewCoordinate(p.value)) == Ok(Scan(NewCoordinate(p.value), n, Some(q), true));
      } else {
        ScanCoordinateStep(lines, cursor, Some(p), NewCoordinate(p.value), q, n);
        var rest := ScanCoordinate(lines, n, Some(q), SetCoordinateField(NewCoordinate(p.value), q));
        assert rest.Ok? && !rest.value.atHeader ==> rest.value.last != Some(p);
      }
  }

  /** A record header followed by a line: the record reader does not stop with that header as its last pair. */
  lemma VariableScanMoves(lines: seq<string>, cursor: nat, p: Pair)
    requires IsEntryHeader(p.key) && !NextLine(lines, cursor).Eof?
    ensures var s := ScanVariable(lines, cursor, Some(p), NewVariable(p.value));
      s.Ok? && !s.value.atHeader ==> s.value.last != Some(p)
  {
    match NextLine(lines, cursor)
    case Bad(_, _) =>
    case Line(q, n) =>
      if IsEntryHeader(q.key) {
        assert ScanVariable(lines, cursor, Some(p), NewVariable(p.value)) == Ok(Scan(NewVariable(p.value), n, Some(q), true));
      } else {
        ScanVariableStep(lines, cursor, Some(p), NewVariable(p.value), q, n);
        var rest := ScanVariable(lines, n, Some(q), SetVariableField(NewVariable(p.value), q));
        assert rest.Ok? && !rest.value.atHeader ==> rest.value.last != Some(p);
      }
  }

  /** The two loops agree on an axis record that does not end the file empty. */
  lemma AxisStepAgrees(c: Config)
    requires c.last.key == "axis_entry" && !NextLine(c.lines, c.cursor).Eof?
    ensures StepAsWritten(c) == Resumed(c.lines, Dispatch(c.lines, c.cursor, c.last, c.st))
  {
    var p := c.last;
    CoordinateScanMoves(c.lines, c.cursor, p);
    var s := ScanCoordinate(c.lines, c.cursor, Some(p), NewCoordinate(p.value));
    if s.Err? {
      assert StepAsWritten(c) == Failed(s.error);
      assert Dispatch(c.lines, c.cursor, p, c.st) == Err(s.error);
    } else {
      AxisRecordAgrees(c, s.value);
    }
  }

  /** An axis record that was read and did not end the file empty: both loops go on at its last pair. */
  lemma AxisRecordAgrees(c: Config, sv: Scan<CoordinateInfo>)
    requires c.last.key == "axis_entry"
    requires ScanCoordinate(c.lines, c.cursor, Some(c.last), NewCoordinate(c.last.value)) == Ok(sv)
    requires !EmptyTrailing(sv.atHeader, sv.last, c.last)
    ensures StepAsWritten(c) == Resumed(c.lines, Dispatch(c.lines, c.cursor, c.last, c.st))
  {
    var p := c.last;
    var st := c.st.(coords := c.st.coords[p.value := if sv.atHeader then Some(sv.record) else None]);
    assert StepAsWritten(c) == Running(Config(c.lines, sv.next, sv.last.value, st));
    assert Dispatch(c.lines, c.cursor, p, c.st) == Ok(Continue(sv.next, sv.last.value, st));
  }

  /** The two loops agree on a variable record that does not end the file empty. */
  lemma VariableStepAgrees(c: Config)
    requires c.last.key == "variable_entry" && !NextLine(c.lines, c.cursor).Eof?
    ensures StepAsWritten(c) == Resumed(c.lines, Dispatch(c.lines, c.cursor, c.last, c.st))
  {
    var p := c.last;
    VariableScanMoves(c.lines, c.cursor, p);
    var s := ScanVariable(c.lines, c.cursor, Some(p), NewVariable(p.value));
    if s.Err? {
      assert StepAsWritten(c) == Failed(s.error);
      assert Dispatch(c.lines, c.cursor, p, c.st) == Err(s.error);
    } else {
      var sv := s.value;
      var stored := StoreVariable(c.st, p.value, sv.record);
      if stored.Err? {
        assert StepAsWritten(c) == Failed(stored.error);
        assert Dispatch(c.lines, c.cursor, p, c.st) == Err(stored.error);
      } else {
        assert StepAsWritten(c) == Running(Config(c.lines, sv.next, sv.last.value, stored.value));
        assert !EmptyTrailing(sv.atHeader, sv.last, p);
        assert Dispatch(c.lines, c.cursor, p, c.st) == Ok(Continue(sv.next, sv.last.value, stored.value));
      }
    }
  }

  /**
   * The correction changes one case only: unless the last pair is a record header with nothing
   * but comment lines after it, a pass of the corrected loop does what the pass as written does,
   * including going back to a record's last line at the end of the file.
   */
  lemma CorrectedStepAgrees(c: Config)
    requires !(IsEntryHeader(c.last.key) && NextLine(c.lines, c.cursor).Eof?)
    ensures StepAsWritten(c) == Resumed(c.lines, Dispatch(c.lines, c.cursor, c.last, c.st))
  {
    if c.last.key == "axis_entry" {
      AxisStepAgrees(c);
    } else if c.last.key == "variable_entry" {
      VariableStepAgrees(c);
    }
  }

  /** In that one case the corrected loop stores the empty record and ends the load. */
  lemma CorrectedStopsAtEmptyTrailing(c: Config)
    requires IsEntryHeader(c.last.key) && NextLine(c.lines, c.cursor).Eof?
    ensures var d := Dispatch(c.lines, c.cursor, c.last, c.st);
      d.Ok? ==> d.value.Done?
  {
  }

  /** The smallest table that shows it: a table line and a variable header with no fields. */
  const TrailingEntryTable: seq<string> := ["table_id" + ": " + ("Table " + "Amon"), "variable_entry" + ": " + "tas"]

  /** The state the as-written loop reaches on that table, and never leaves. */
  const TrailingEntryStuck: Config :=
    Config(TrailingEntryTable, 2, Pair("variable_entry", "tas"),
           Loading("Amon", "", map["Amon" := map["tas" := NewVariable("tas")]], map[]))

  lemma SplitTableIdLine()
    ensures SplitLine(TrailingEntryTable[0]) == Ok(Pair("table_id", "Table " + "Amon"))
  {
    SplitLineRoundTrip("table_id", "Table " + "Amon");
  }

  lemma SplitEntryLine()
    ensures SplitLine(TrailingEntryTable[1]) == Ok(Pair("variable_entry", "tas"))
  {
    SplitLineRoundTrip("variable_entry", "tas");
  }

  /** What `_read_line` returns on that table from each position. */
  lemma TrailingEntryLines()
    ensures NextLine(TrailingEntryTable, 0) == Line(Pair("table_id", "Table " + "Amon"), 1)
    ensures NextLine(TrailingEntryTable, 1) == Line(Pair("variable_entry", "tas"), 2)
    ensures NextLine(TrailingEntryTable, 2) == Eof
  {
    SplitTableIdLine();
    SplitEntryLine();
    assert FirstContent(TrailingEntryTable, 0) == 0;
    assert FirstContent(TrailingEntryTable, 1) == 1;
  }

  /** Nothing loaded yet: no current table, no frequency, no tables and no coordinates. */
  const NothingLoaded: Loading := Loading("", "", map[], map[])

  /** The loop's state after the read at the start of `_load_table` on that table. */
  const TrailingEntryStart: Config := Config(TrailingEntryTable, 1, Pair("table_id", "Table " + "Amon"), NothingLoaded)

  /** The loading state once table Amon is opened and before its variable is stored. */
  const TrailingEntryOpened: Loading := Loading("Amon", "", map["Amon" := map[]], map[])

  /** The read at the start of `_load_table` gives the table line. */
  lemma TrailingEntryOpens()
    ensures StartAsWritten(TrailingEntryTable, None, NothingLoaded) == Running(TrailingEntryStart)
  {
    TrailingEntryLines();
  }

  /** The first pass handles the table line and hands on the variable header. */
  lemma TrailingEntryFirstPass()
    ensures StepAsWritten(TrailingEntryStart)
            == Running(Config(TrailingEntryTable, 2, Pair("variable_entry", "tas"), TrailingEntryOpened))
  {
    TrailingEntryTableLine();
  }

  /** On that table the variable record is empty and ends the file. */
  lemma TrailingEntryScan()
    ensures ScanVariable(TrailingEntryTable, 2, Some(Pair("variable_entry", "tas")), NewVariable("tas"))
            == Ok(Scan(NewVariable("tas"), 2, Some(Pair("variable_entry", "tas")), false))
  {
    TrailingEntryLines();
  }

  /** The empty record is stored under Amon as it is: the table's frequency is empty too. */
  lemma TrailingEntryStore()
    ensures StoreVariable(TrailingEntryOpened, "tas", NewVariable("tas")) == Ok(TrailingEntryStuck.st)
  {
    var v := NewVariable("tas");
    assert v.(frequency := Some(Str(""))) == v;
    assert LinkCoordinates(v.dimensions, map[], v.coordinates) == Ok(map[]);
    assert v.(coordinates := map[]) == v;
    var tables := TrailingEntryOpened.tables;
    assert tables["Amon" := tables["Amon"]["tas" := v]] == TrailingEntryStuck.st.tables;
  }

  /** The second pass stores the variable and, at the end of the file, keeps its header. */
  lemma TrailingEntrySecondPass()
    ensures StepAsWritten(Config(TrailingEntryTable, 2, Pair("variable_entry", "tas"), TrailingEntryOpened))
            == Running(TrailingEntryStuck)
  {
    TrailingEntryScan();
    TrailingEntryStore();
  }

  /** As written, loading the table from an empty registry never returns. */
  lemma TrailingEntryLoopsForever(k: nat)
    ensures StartAsWritten(TrailingEntryTable, None, NothingLoaded) == Running(TrailingEntryStart)
    ensures RunAsWritten(TrailingEntryStart, k + 2) == Running(TrailingEntryStuck)
  {
    TrailingEntryOpens();
    TrailingEntryFirstPass();
    TrailingEntrySecondPass();
    TrailingEntryLines();
    var c1 := Config(TrailingEntryTable, 2, Pair("variable_entry", "tas"), TrailingEntryOpened);
    TrailingHeaderRepeats(c1);
    FixedPointRunsForever(TrailingEntryStuck, k);
  }

  /** The corrected loop on the table line: table Amon is opened and the loop goes on. */
  lemma TrailingEntryTableLine()
    ensures Dispatch(TrailingEntryTable, 1, Pair("table_id", "Table " + "Amon"), NothingLoaded)
            == Ok(Continue(2, Pair("variable_entry", "tas"), TrailingEntryOpened))
  {
    TrailingEntryLines();
    DispatchTableId(TrailingEntryTable, 1, "Amon", NothingLoaded);
  }

  /** The corrected loop on the variable header: the variable is stored and the load ends. */
  lemma TrailingEntryVariableLine()
    ensures Dispatch(TrailingEntryTable, 2, Pair("variable_entry", "tas"), TrailingEntryOpened)
            == Ok(Done(TrailingEntryStuck.st))
  {
    TrailingEntryScan();
    TrailingEntryStore();
  }

  /** Corrected, the same table loads: table Amon with the variable tas, at the end of the file. */
  lemma TrailingEntryLoads()
    ensures LoadedTable(TrailingEntryTable, Registry(map[], map[]))
            == Ok(Registry(map["Amon" := map["tas" := NewVariable("tas")]], map[]))
  {
    TrailingEntryLines();
    TrailingEntryTableLine();
    TrailingEntryVariableLine();
    assert LoadFrom(TrailingEntryTable, 2, Pair("variable_entry", "tas"), TrailingEntryOpened)
           == Ok(TrailingEntryStuck.st);
  }

  /**
   * Finding: as written, a first table file with nothing but comment lines fails, because the
   * loop unpacks a last pair that was never read; a later one goes back to the previous file's
   * last pair. Corrected, such a file loads nothing (CommentFileLoadsNothing).
   */
  lemma CommentFileAsWritten(lines: seq<string>, previous: Option<Pair>, st: Loading)
    requires forall j :: 0 <= j < |lines| ==> IsComment(lines[j])
    ensures previous.None? ==> StartAsWritten(lines, previous, st) == Failed(NoLineRead)
    ensures previous.Some? ==> StartAsWritten(lines, previous, st) == Running(Config(lines, |lines|, previous.value, st))
  {
  }
}
