/**
 * The CMIP5 side of the reader: text tables made of `key: value` lines, in which an
 * `axis_entry` or `variable_entry` line opens a record that runs to the next such line.
 */
module Cmip5 {
  import opened Outcomes
  import opened Text
  import opened JsonData
  import opened Descriptors
  import opened Cmip5Lines
  import opened Maps

  /** Table name to short name to variable. */
  type Tables = map<string, map<string, VariableInfo>>

  /** Dimension name to coordinate; None where an axis record ran into the end of its file. */
  type Coords = map<string, Option<CoordinateInfo>>

  /** The two keys that open a record and end the one before it. */
  predicate IsEntryHeader(key: string) {
    key == "variable_entry" || key == "axis_entry"
  }

  // ---------------------------------------------------------------------------------------------
  // Records

  /**
   * One line of an axis record applied to the coordinate: `requested` becomes the value split at
   * single spaces, a text attribute of CoordinateInfo is set, any other key changes nothing.
   */
  function SetCoordinateField(c: CoordinateInfo, p: Pair): (r: CoordinateInfo)
    ensures r.genericLevel == c.genericLevel
  {
    if p.key == "requested" then c.(requested := List(SplitOn(p.value, ' ')))
    else match AttrNamed(p.key)
      case Some(a) => if IsCoordinateAttr(a) then SetCoordinateText(c, a, p.value) else c
      case None => c
  }

  /**
   * One line of a variable record applied to the variable: `dimensions` becomes the value split
   * at single spaces, `frequency` and the text attributes of VariableInfo are set, any other key
   * changes nothing.
   */
  function SetVariableField(v: VariableInfo, p: Pair): (r: VariableInfo)
    ensures r.coordinates == v.coordinates
  {
    if p.key == "dimensions" then v.(dimensions := SplitOn(p.value, ' '))
    else if p.key == "frequency" then v.(frequency := Some(Str(p.value)))
    else match AttrNamed(p.key)
      case Some(a) => if IsVariableAttr(a) then SetVariableText(v, a, p.value) else v
      case None => v
  }

  /**
   * Where a record reader leaves off: the record, the position after the last line it read,
   * the last pair read, and whether it stopped at the header of the next record (rather than
   * at the end of the file).
   */
  datatype Scan<T> = Scan(record: T, next: nat, last: Option<Pair>, atHeader: bool)

  /** CMIP5Info._read_coordinate's loop: lines are applied until a header or the end of the file. */
  function ScanCoordinate(lines: seq<string>, cursor: nat, last: Option<Pair>, c: CoordinateInfo)
    : (r: Result<Scan<CoordinateInfo>>)
    ensures r.Ok? && r.value.atHeader ==> cursor < r.value.next <= |lines|
                                          && r.value.last.Some? && IsEntryHeader(r.value.last.value.key)
    ensures r.Ok? && !r.value.atHeader ==> r.value.next == |lines| && (last.Some? ==> r.value.last.Some?)
    ensures r.Ok? && r.value.last != last ==>
              cursor < r.value.next && r.value.last.Some?
              && (!r.value.atHeader ==> !IsEntryHeader(r.value.last.value.key))
    decreases |lines| - cursor
  {
    match NextLine(lines, cursor)
    case Eof => Ok(Scan(c, |lines|, last, false))
    case Bad(e, _) => Err(e)
    case Line(p, n) =>
      if IsEntryHeader(p.key) then Ok(Scan(c, n, Some(p), true))
      else ScanCoordinate(lines, n, Some(p), SetCoordinateField(c, p))
  }

  /** CMIP5Info._read_variable's loop: lines are applied until a header or the end of the file. */
  function ScanVariable(lines: seq<string>, cursor: nat, last: Option<Pair>, v: VariableInfo)
    : (r: Result<Scan<VariableInfo>>)
    ensures r.Ok? && r.value.atHeader ==> cursor < r.value.next <= |lines|
                                          && r.value.last.Some? && IsEntryHeader(r.value.last.value.key)
    ensures r.Ok? && !r.value.atHeader ==> r.value.next == |lines| && (last.Some? ==> r.value.last.Some?)
    ensures r.Ok? && r.value.last != last ==>
              cursor < r.value.next && r.value.last.Some?
              && (!r.value.atHeader ==> !IsEntryHeader(r.value.last.value.key))
    ensures r.Ok? ==> r.value.record.coordinates == v.coordinates
    decreases |lines| - cursor
  {
    match NextLine(lines, cursor)
    case Eof => Ok(Scan(v, |lines|, last, false))
    case Bad(e, _) => Err(e)
    case Line(p, n) =>
      if IsEntryHeader(p.key) then Ok(Scan(v, n, Some(p), true))
      else ScanVariable(lines, n, Some(p), SetVariableField(v, p))
  }

  // The reference reading of a record: the pairs of the file, cut at the first header, folded
  // into the record by the field setters.

  /** Every pair the line reader would return from `cursor` to the end of the file. */
  function PairsFrom(lines: seq<string>, cursor: nat): (r: Result<seq<Pair>>)
    decreases |lines| - cursor
  {
    match NextLine(lines, cursor)
    case Eof => Ok([])
    case Bad(e, _) => Err(e)
    case Line(p, n) =>
      var rest :- PairsFrom(lines, n);
      Ok([p] + rest)
  }

  /** Taking h + 1 elements of a sequence with a head takes the head and h of the rest. */
  lemma TakeCons<T>(x: T, xs: seq<T>, h: nat)
    requires h <= |xs|
    ensures ([x] + xs)[..h + 1] == [x] + xs[..h]
  {
  }

  /** Position of the first header pair, or |ps| when there is none. */
  function FirstHeader(ps: seq<Pair>): (h: nat)
    ensures h <= |ps|
    ensures h < |ps| ==> IsEntryHeader(ps[h].key)
    ensures forall i :: 0 <= i < h ==> !IsEntryHeader(ps[i].key)
  {
    if ps == [] || IsEntryHeader(ps[0].key) then 0 else 1 + FirstHeader(ps[1..])
  }

  /** A first pair that is not a header shifts the first header by one. */
  lemma FirstHeaderCons(p: Pair, rest: seq<Pair>)
    requires !IsEntryHeader(p.key)
    ensures var h := FirstHeader(rest);
      && FirstHeader([p] + rest) == h + 1
      && ([p] + rest)[..h + 1] == [p] + rest[..h]
      && (h < |rest| ==> ([p] + rest)[h + 1] == rest[h])
  {
    var ps := [p] + rest;
    assert ps[0] == p && ps[1..] == rest;
    assert FirstHeader(ps) == 1 + FirstHeader(ps[1..]);
    var h := FirstHeader(rest);
    TakeCons(p, rest, h);
    if h < |rest| {
      assert ps[h + 1] == ps[1..][h];
    }
  }

  /** The pairs applied to a coordinate in order. */
  function ApplyCoordinateFields(c: CoordinateInfo, ps: seq<Pair>): CoordinateInfo
    decreases |ps|
  {
    if ps == [] then c else ApplyCoordinateFields(SetCoordinateField(c, ps[0]), ps[1..])
  }

  /** The pairs applied to a variable in order. */
  function ApplyVariableFields(v: VariableInfo, ps: seq<Pair>): VariableInfo
    decreases |ps|
  {
    if ps == [] then v else ApplyVariableFields(SetVariableField(v, ps[0]), ps[1..])
  }

  lemma ScanCoordinateStep(lines: seq<string>, cursor: nat, last: Option<Pair>, c: CoordinateInfo, p: Pair, n: nat)
    requires NextLine(lines, cursor) == Line(p, n) && !IsEntryHeader(p.key)
    ensures ScanCoordinate(lines, cursor, last, c) == ScanCoordinate(lines, n, Some(p), SetCoordinateField(c, p))
  {
  }

  lemma ApplyCoordinateFieldsCons(c: CoordinateInfo, p: Pair, xs: seq<Pair>)
    ensures ApplyCoordinateFields(c, [p] + xs) == ApplyCoordinateFields(SetCoordinateField(c, p), xs)
  {
    assert ([p] + xs)[1..] == xs;
  }

  /**
   * An axis record is the fold of its lines up to the first header: reading stops at that
   * header (it is the last pair read) or, with no header left, at the end of the file.
   */
  lemma {:induction false} ScanCoordinateFold(lines: seq<string>, cursor: nat, last: Option<Pair>, c: CoordinateInfo)
    requires PairsFrom(lines, cursor).Ok?
    ensures var ps := PairsFrom(lines, cursor).value;
      var h := FirstHeader(ps);
      var r := ScanCoordinate(lines, cursor, last, c);
      r.Ok? && r.value.record == ApplyCoordinateFields(c, ps[..h]) && r.value.atHeader == (h < |ps|)
      && (h < |ps| ==> r.value.last == Some(ps[h]))
    decreases |lines| - cursor
  {
    var ps := PairsFrom(lines, cursor).value;
    match NextLine(lines, cursor)
    case Eof =>
      assert ps == [];
    case Bad(_, _) =>
    case Line(p, n) =>
      var rest := PairsFrom(lines, n).value;
      assert ps == [p] + rest;
      if IsEntryHeader(p.key) {
        assert FirstHeader(ps) == 0 && ps[..0] == [];
      } else {
        var next := SetCoordinateField(c, p);
        ScanCoordinateFold(lines, n, Some(p), next);
        ScanCoordinateStep(lines, cursor, last, c, p, n);
        CoordinateFoldStep(c, p, rest, ScanCoordinate(lines, n, Some(p), next).value);
      }
  }

  /** The fold after a first pair that is not a header is the fold of the rest from the updated record. */
  lemma CoordinateFoldStep(c: CoordinateInfo, p: Pair, rest: seq<Pair>, r: Scan<CoordinateInfo>)
    requires !IsEntryHeader(p.key)
    requires var h := FirstHeader(rest);
      r.record == ApplyCoordinateFields(SetCoordinateField(c, p), rest[..h]) && r.atHeader == (h < |rest|)
      && (h < |rest| ==> r.last == Some(rest[h]))
    ensures var ps := [p] + rest;
      var h := FirstHeader(ps);
      r.record == ApplyCoordinateFields(c, ps[..h]) && r.atHeader == (h < |ps|) && (h < |ps| ==> r.last == Some(ps[h]))
  {
    FirstHeaderCons(p, rest);
    ApplyCoordinateFieldsCons(c, p, rest[..FirstHeader(rest)]);
  }

  lemma ScanVariableStep(lines: seq<string>, cursor: nat, last: Option<Pair>, v: VariableInfo, p: Pair, n: nat)
    requires NextLine(lines, cursor) == Line(p, n) && !IsEntryHeader(p.key)
    ensures ScanVariable(lines, cursor, last, v) == ScanVariable(lines, n, Some(p), SetVariableField(v, p))
  {
  }

  lemma ApplyVariableFieldsCons(v: VariableInfo, p: Pair, xs: seq<Pair>)
    ensures ApplyVariableFields(v, [p] + xs) == ApplyVariableFields(SetVariableField(v, p), xs)
  {
    assert ([p] + xs)[1..] == xs;
  }

  /**
   * A variable record is the fold of its lines up to the first header: reading stops at that
   * header (it is the last pair read) or, with no header left, at the end of the file.
   */
  lemma {:induction false} ScanVariableFold(lines: seq<string>, cursor: nat, last: Option<Pair>, v: VariableInfo)
    requires PairsFrom(lines, cursor).Ok?
    ensures var ps := PairsFrom(lines, cursor).value;
      var h := FirstHeader(ps);
      var r := ScanVariable(lines, cursor, last, v);
      r.Ok? && r.value.record == ApplyVariableFields(v, ps[..h]) && r.value.atHeader == (h < |ps|)
      && (h < |ps| ==> r.value.last == Some(ps[h]))
    decreases |lines| - cursor
  {
    var ps := PairsFrom(lines, cursor).value;
    match NextLine(lines, cursor)
    case Eof =>
      assert ps == [];
    case Bad(_, _) =>
    case Line(p, n) =>
      var rest := PairsFrom(lines, n).value;
      assert ps == [p] + rest;
      if IsEntryHeader(p.key) {
        assert FirstHeader(ps) == 0 && ps[..0] == [];
      } else {
        var next := SetVariableField(v, p);
        ScanVariableFold(lines, n, Some(p), next);
        ScanVariableStep(lines, cursor, last, v, p, n);
        VariableFoldStep(v, p, rest, ScanVariable(lines, n, Some(p), next).value);
      }
  }

  /** The fold after a first pair that is not a header is the fold of the rest from the updated record. */
  lemma VariableFoldStep(v: VariableInfo, p: Pair, rest: seq<Pair>, r: Scan<VariableInfo>)
    requires !IsEntryHeader(p.key)
    requires var h := FirstHeader(rest);
      r.record == ApplyVariableFields(SetVariableField(v, p), rest[..h]) && r.atHeader == (h < |rest|)
      && (h < |rest| ==> r.last == Some(rest[h]))
    ensures var ps := [p] + rest;
      var h := FirstHeader(ps);
      r.record == ApplyVariableFields(v, ps[..h]) && r.atHeader == (h < |ps|) && (h < |ps| ==> r.last == Some(ps[h]))
  {
    FirstHeaderCons(p, rest);
    ApplyVariableFieldsCons(v, p, rest[..FirstHeader(rest)]);
  }

  /** The value of the last pair with the given key, if any pair has it. */
  function LastValue(ps: seq<Pair>, key: string): (r: Option<string>)
    ensures r.None? <==> forall i :: 0 <= i < |ps| ==> ps[i].key != key
  {
    if ps == [] then None
    else if ps[|ps| - 1].key == key then Some(ps[|ps| - 1].value)
    else LastValue(ps[..|ps| - 1], key)
  }

  /** Reading the pairs after a first one: the first one counts only when nothing later has its key. */
  lemma {:induction false} LastValueCons(ps: seq<Pair>, key: string)
    requires ps != []
    ensures LastValue(ps, key) ==
      if LastValue(ps[1..], key).Some? then LastValue(ps[1..], key)
      else if ps[0].key == key then Some(ps[0].value) else None
  {
    if |ps| > 1 {
      var front := ps[..|ps| - 1];
      assert front[1..] == ps[1..][..|ps[1..]| - 1];
      LastValueCons(front, key);
    }
  }

  /** A text attribute of a variable is set by one line exactly when the line names it. */
  lemma SetVariableFieldText(v: VariableInfo, p: Pair, a: Attr)
    requires IsVariableAttr(a)
    ensures VariableText(SetVariableField(v, p), a) ==
      if p.key == AttrName(a) then Some(p.value) else VariableText(v, a)
  {
    AttrNamedName(a);
    match AttrNamed(p.key)
    case Some(b) =>
      AttrNamedName(b);
      if IsVariableAttr(b) && p.key != "dimensions" && p.key != "frequency" {
        SetVariableTextReads(v, b, p.value, a);
      }
    case None =>
  }

  /** A text attribute of a coordinate is set by one line exactly when the line names it. */
  lemma SetCoordinateFieldText(c: CoordinateInfo, p: Pair, a: Attr)
    requires IsCoordinateAttr(a)
    ensures CoordinateText(SetCoordinateField(c, p), a) ==
      if p.key == AttrName(a) then Some(p.value) else CoordinateText(c, a)
  {
    AttrNamedName(a);
    match AttrNamed(p.key)
    case Some(b) =>
      AttrNamedName(b);
      if IsCoordinateAttr(b) && p.key != "requested" {
        SetCoordinateTextReads(c, b, p.value, a);
      }
    case None =>
  }

  /**
   * The last line wins: after a record's lines, each text attribute of the variable holds the
   * value of the last line naming it, and keeps its old value when no line does.
   */
  lemma {:induction false} ApplyVariableText(v: VariableInfo, ps: seq<Pair>, a: Attr)
    requires IsVariableAttr(a)
    ensures VariableText(ApplyVariableFields(v, ps), a) ==
      if LastValue(ps, AttrName(a)).Some? then LastValue(ps, AttrName(a)) else VariableText(v, a)
    decreases |ps|
  {
    if ps != [] {
      ApplyVariableText(SetVariableField(v, ps[0]), ps[1..], a);
      SetVariableFieldText(v, ps[0], a);
      LastValueCons(ps, AttrName(a));
    }
  }

  /** The last `dimensions` line wins, split at single spaces. */
  lemma {:induction false} ApplyVariableDimensions(v: VariableInfo, ps: seq<Pair>)
    ensures var dims := LastValue(ps, "dimensions");
      ApplyVariableFields(v, ps).dimensions == if dims.Some? then SplitOn(dims.value, ' ') else v.dimensions
    decreases |ps|
  {
    if ps != [] {
      var next := SetVariableField(v, ps[0]);
      ApplyVariableDimensions(next, ps[1..]);
      LastValueCons(ps, "dimensions");
    }
  }

  /** The last `frequency` line wins; the coordinates are never set by a line. */
  lemma {:induction false} ApplyVariableFrequency(v: VariableInfo, ps: seq<Pair>)
    ensures var freq := LastValue(ps, "frequency");
      var w := ApplyVariableFields(v, ps);
      w.frequency == (if freq.Some? then Some(Str(freq.value)) else v.frequency)
      && w.coordinates == v.coordinates
    decreases |ps|
  {
    if ps != [] {
      var next := SetVariableField(v, ps[0]);
      ApplyVariableFrequency(next, ps[1..]);
      LastValueCons(ps, "frequency");
    }
  }

  /**
   * The last line wins: after a record's lines, each text attribute of the coordinate holds the
   * value of the last line naming it, and keeps its old value when no line does.
   */
  lemma {:induction false} ApplyCoordinateText(c: CoordinateInfo, ps: seq<Pair>, a: Attr)
    requires IsCoordinateAttr(a)
    ensures CoordinateText(ApplyCoordinateFields(c, ps), a) ==
      if LastValue(ps, AttrName(a)).Some? then LastValue(ps, AttrName(a)) else CoordinateText(c, a)
    decreases |ps|
  {
    if ps != [] {
      ApplyCoordinateText(SetCoordinateField(c, ps[0]), ps[1..], a);
      SetCoordinateFieldText(c, ps[0], a);
      LastValueCons(ps, AttrName(a));
    }
  }

  /** The last `requested` line wins, split at single spaces; the generic flag is never set by a line. */
  lemma {:induction false} ApplyCoordinateRequested(c: CoordinateInfo, ps: seq<Pair>)
    ensures var d := ApplyCoordinateFields(c, ps);
      var req := LastValue(ps, "requested");
      d.requested == (if req.Some? then List(SplitOn(req.value, ' ')) else c.requested)
      && d.genericLevel == c.genericLevel
    decreases |ps|
  {
    if ps != [] {
      ApplyCoordinateRequested(SetCoordinateField(c, ps[0]), ps[1..]);
      LastValueCons(ps, "requested");
    }
  }

  /** A line whose key is no attribute of VariableInfo leaves the variable as it is. */
  lemma UnknownKeyKeepsVariable(v: VariableInfo, p: Pair)
    requires p.key != "dimensions" && p.key != "frequency"
    requires forall a :: IsVariableAttr(a) ==> AttrName(a) != p.key
    ensures SetVariableField(v, p) == v
  {
    match AttrNamed(p.key)
    case Some(b) =>
      assert AttrName(b) == p.key;
    case None =>
  }

  /** A line whose key is no attribute of CoordinateInfo leaves the coordinate as it is. */
  lemma UnknownKeyKeepsCoordinate(c: CoordinateInfo, p: Pair)
    requires p.key != "requested"
    requires forall a :: IsCoordinateAttr(a) ==> AttrName(a) != p.key
    ensures SetCoordinateField(c, p) == c
  {
    match AttrNamed(p.key)
    case Some(b) =>
      assert AttrName(b) == p.key;
    case None =>
  }

  // ---------------------------------------------------------------------------------------------
  // Tables

  /** The placeholder coordinates of the `generic_levels` line: one per name, axis Z, flagged generic. */
  function GenericLevels(names: seq<string>): (r: Coords)
    ensures forall d :: d in r <==> d in names
  {
    map d | d in names :: Some(GenericLevel(d))
  }

  /**
   * The loop over a variable's dimensions: each dimension's shared coordinate is linked under
   * its own name, in order, and the first dimension with no shared coordinate fails.
   */
  function LinkCoordinates(dims: seq<string>, coords: Coords, acc: map<string, Option<CoordinateInfo>>)
    : (r: Result<map<string, Option<CoordinateInfo>>>)
    ensures r.Ok? <==> forall i :: 0 <= i < |dims| ==> dims[i] in coords
    decreases |dims|
  {
    if dims == [] then Ok(acc)
    else if dims[0] !in coords then Err(UnknownDimension(dims[0]))
    else LinkCoordinates(dims[1..], coords, acc[dims[0] := coords[dims[0]]])
  }

  /** Linked coordinates: the earlier links plus every dimension, each with its shared coordinate. */
  lemma {:induction false} LinkedCoordinates(dims: seq<string>, coords: Coords, acc: map<string, Option<CoordinateInfo>>)
    requires LinkCoordinates(dims, coords, acc).Ok?
    ensures var m := LinkCoordinates(dims, coords, acc).value;
      (forall k :: k in m <==> k in acc || k in dims)
      && (forall k :: k in m && k !in dims ==> m[k] == acc[k])
      && (forall d :: d in dims ==> d in coords && m[d] == coords[d])
    decreases |dims|
  {
    if dims != [] {
      assert dims[0] in coords;
      LinkedCoordinates(dims[1..], coords, acc[dims[0] := coords[dims[0]]]);
      assert forall k :: k in dims <==> k == dims[0] || k in dims[1..];
    }
  }

  /** The failing dimension is the first one with no shared coordinate. */
  lemma {:induction false} LinkCoordinatesFails(dims: seq<string>, coords: Coords, acc: map<string, Option<CoordinateInfo>>)
    requires LinkCoordinates(dims, coords, acc).Err?
    ensures exists i :: 0 <= i < |dims| && dims[i] !in coords
                        && (forall j :: 0 <= j < i ==> dims[j] in coords)
                        && LinkCoordinates(dims, coords, acc).error == UnknownDimension(dims[i])
    decreases |dims|
  {
    if dims[0] in coords {
      LinkCoordinatesFails(dims[1..], coords, acc[dims[0] := coords[dims[0]]]);
      var i :| 0 <= i < |dims[1..]| && dims[1..][i] !in coords
               && (forall j :: 0 <= j < i ==> dims[1..][j] in coords)
               && LinkCoordinates(dims[1..], coords, acc[dims[0] := coords[dims[0]]]).error == UnknownDimension(dims[1..][i]);
      assert dims[i + 1] == dims[1..][i];
      assert forall j :: 0 <= j < i + 1 ==> dims[j] in coords by {
        forall j | 0 <= j < i + 1 ensures dims[j] in coords {
          if j > 0 {
            assert dims[j] == dims[1..][j - 1];
          }
        }
      }
    } else {
      assert dims[0] !in coords;
    }
  }

  /** What `_load_table` keeps between lines: the current table's name and frequency, and the registry. */
  datatype Loading = Loading(tableName: string, frequency: string, tables: Tables, coords: Coords)

  /**
   * The end of one pass of `_load_table`'s loop: go on with the next pair (the position after it
   * and the pair), or stop.
   */
  datatype Step = Continue(next: nat, pair: Pair, state: Loading) | Done(state: Loading)

  /** `if not self._read_line(): return` */
  function Advance(lines: seq<string>, cursor: nat, st: Loading): (r: Result<Step>)
    ensures r.Ok? && r.value.Continue? ==> cursor < r.value.next <= |lines|
    ensures r.Ok? ==> r.value.state == st
  {
    match NextLine(lines, cursor)
    case Eof => Ok(Done(st))
    case Bad(e, _) => Err(e)
    case Line(q, n) => Ok(Continue(n, q, st))
  }

  /**
   * The `variable_entry` branch after the record is read: the table's frequency replaces the
   * record's, every dimension is linked to its shared coordinate, and the variable is stored in
   * the current table under the record's name.
   */
  function StoreVariable(st: Loading, name: string, v: VariableInfo): (r: Result<Loading>)
    ensures r.Ok? ==> && r.value.tableName == st.tableName && r.value.frequency == st.frequency
                      && r.value.coords == st.coords && r.value.tables.Keys == st.tables.Keys
                      && st.tableName in st.tables && name in r.value.tables[st.tableName]
  {
    var withFrequency := v.(frequency := Some(Str(st.frequency)));
    var links :- LinkCoordinates(withFrequency.dimensions, st.coords, withFrequency.coordinates);
    if st.tableName !in st.tables then Err(UnknownTable(st.tableName))
    else Ok(st.(tables := st.tables[st.tableName := st.tables[st.tableName][name := withFrequency.(coordinates := links)]]))
  }

  /**
   * One pass of `_load_table`'s loop on the pair last read, with the file read up to `cursor`.
   * After a record the loop goes on with the last pair read, as the `continue` does, except when
   * the record was empty and ended the file: its header is then the last pair, and going back
   * to it would read the same empty record again, so the load ends.
   */
  function Dispatch(lines: seq<string>, cursor: nat, p: Pair, st: Loading): (r: Result<Step>)
    ensures r.Ok? && r.value.Continue? ==> cursor < r.value.next <= |lines|
    ensures r.Ok? ==> Grows(st, r.value.state)
  {
    if p.key == "table_id" then
      var name := SliceFrom(p.value, 6);
      Advance(lines, cursor, st.(tableName := name, tables := st.tables[name := map[]]))
    else if p.key == "frequency" then
      Advance(lines, cursor, st.(frequency := p.value))
    else if p.key == "generic_levels" then
      Advance(lines, cursor, st.(coords := st.coords + GenericLevels(SplitOn(p.value, ' '))))
    else if p.key == "axis_entry" then
      var s :- ScanCoordinate(lines, cursor, Some(p), NewCoordinate(p.value));
      var next := st.(coords := st.coords[p.value := if s.atHeader then Some(s.record) else None]);
      if EmptyTrailing(s.atHeader, s.last, p) then Ok(Done(next)) else Ok(Continue(s.next, s.last.value, next))
    else if p.key == "variable_entry" then
      var s :- ScanVariable(lines, cursor, Some(p), NewVariable(p.value));
      var next :- StoreVariable(st, p.value, s.record);
      if EmptyTrailing(s.atHeader, s.last, p) then Ok(Done(next)) else Ok(Continue(s.next, s.last.value, next))
    else
      Advance(lines, cursor, st)
  }

  /** Nothing loaded is ever removed: every table and every shared coordinate name stays. */
  predicate Grows(before: Loading, after: Loading) {
    before.tables.Keys <= after.tables.Keys && before.coords.Keys <= after.coords.Keys
  }

  /** A record that read no line at all and ran into the end of the file: its header is still the last pair. */
  predicate EmptyTrailing(atHeader: bool, last: Option<Pair>, header: Pair) {
    !atHeader && last == Some(header)
  }

  /** `_load_table`'s loop from the pair last read until it stops. */
  function LoadFrom(lines: seq<string>, cursor: nat, p: Pair, st: Loading): (r: Result<Loading>)
    ensures r.Ok? ==> Grows(st, r.value)
    decreases |lines| - cursor
  {
    var step :- Dispatch(lines, cursor, p, st);
    match step
    case Done(s) => Ok(s)
    case Continue(n, q, s) => LoadFrom(lines, n, q, s)
  }

  /** One pass of the load: a failing pass fails it, a last pass ends it, any other pass goes on. */
  lemma LoadFromStep(lines: seq<string>, cursor: nat, p: Pair, st: Loading)
    ensures var d := Dispatch(lines, cursor, p, st);
      && (d.Err? ==> LoadFrom(lines, cursor, p, st) == Err(d.error))
      && (d.Ok? && d.value.Done? ==> LoadFrom(lines, cursor, p, st) == Ok(d.value.state))
      && (d.Ok? && d.value.Continue? ==>
            LoadFrom(lines, cursor, p, st) == LoadFrom(lines, d.value.next, d.value.pair, d.value.state))
  {
  }

  /**
   * Storing a variable fails exactly when a dimension has no shared coordinate (checked first)
   * or there is no current table (checked then).
   */
  lemma StoreVariableFails(st: Loading, name: string, v: VariableInfo)
    ensures var r := StoreVariable(st, name, v);
      var linked := forall i :: 0 <= i < |v.dimensions| ==> v.dimensions[i] in st.coords;
      (r.Ok? <==> linked && st.tableName in st.tables)
      && (!linked ==> r.error.UnknownDimension?)
      && (linked && st.tableName !in st.tables ==> r == Err(UnknownTable(st.tableName)))
  {
    var withFrequency := v.(frequency := Some(Str(st.frequency)));
    if LinkCoordinates(withFrequency.dimensions, st.coords, withFrequency.coordinates).Err? {
      LinkCoordinatesFails(withFrequency.dimensions, st.coords, withFrequency.coordinates);
    }
  }

  /**
   * A stored variable is in the current table, with the table's frequency, with its record's
   * other fields, and with each dimension linked to its shared coordinate; nothing else changes.
   */
  lemma StoreVariableStores(st: Loading, name: string, v: VariableInfo)
    requires StoreVariable(st, name, v).Ok?
    ensures var r := StoreVariable(st, name, v).value;
      var w := r.tables[st.tableName][name];
      r == st.(tables := st.tables[st.tableName := st.tables[st.tableName][name := w]])
      && w.frequency == Some(Str(st.frequency))
      && w == v.(frequency := w.frequency, coordinates := w.coordinates)
      && (forall k :: k in w.coordinates <==> k in v.coordinates || k in v.dimensions)
      && (forall d :: d in v.dimensions ==> w.coordinates[d] == st.coords[d])
  {
    var withFrequency := v.(frequency := Some(Str(st.frequency)));
    LinkedCoordinates(withFrequency.dimensions, st.coords, withFrequency.coordinates);
  }

  /**
   * A `table_id: Table <name>` line opens the table <name> empty (replacing any table of that
   * name) and makes it the current table; the frequency and the coordinates are kept.
   */
  lemma DispatchTableId(lines: seq<string>, cursor: nat, name: string, st: Loading)
    ensures var r := Dispatch(lines, cursor, Pair("table_id", "Table " + name), st);
      (r.Ok? <==> !NextLine(lines, cursor).Bad?)
      && (r.Ok? ==> r.value.state == st.(tableName := name, tables := st.tables[name := map[]]))
  {
    assert SliceFrom("Table " + name, 6) == name;
  }

  /**
   * A `generic_levels` line adds one generic level coordinate (axis Z) per space-separated name,
   * replacing what the shared coordinates held under that name, and changes nothing else.
   */
  lemma DispatchGenericLevels(lines: seq<string>, cursor: nat, p: Pair, st: Loading)
    requires p.key == "generic_levels"
    ensures var r := Dispatch(lines, cursor, p, st);
      var names := SplitOn(p.value, ' ');
      r.Ok? ==>
        var c := r.value.state.coords;
        r.value.state.tables == st.tables && r.value.state.tableName == st.tableName
        && r.value.state.frequency == st.frequency
        && (forall k :: k in c <==> k in st.coords || k in names)
        && (forall d :: d in names ==> c[d] == Some(GenericLevel(d)) && c[d].value.axis == "Z" && c[d].value.genericLevel)
        && (forall k :: k in st.coords && k !in names ==> c[k] == st.coords[k])
  {
  }

  /**
   * An `axis_entry` line stores the coordinate its record describes under the entry's value, or
   * None when the record runs into the end of the file. The loop goes on with the last pair
   * read, a header or (at the end of the file) the record's last line, and ends only after an
   * empty record at the end of the file.
   */
  lemma DispatchAxis(lines: seq<string>, cursor: nat, p: Pair, st: Loading)
    requires p.key == "axis_entry"
    ensures var r := Dispatch(lines, cursor, p, st);
      var s := ScanCoordinate(lines, cursor, Some(p), NewCoordinate(p.value));
      (r.Ok? <==> s.Ok?)
      && (r.Ok? ==>
            r.value.state == st.(coords := st.coords[p.value := r.value.state.coords[p.value]])
            && r.value.state.coords[p.value] == (if s.value.atHeader then Some(s.value.record) else None)
            && (r.value.Done? <==> !s.value.atHeader && s.value.last == Some(p))
            && (r.value.Continue? ==> r.value.pair == s.value.last.value && r.value.next == s.value.next
                                      && (IsEntryHeader(r.value.pair.key) <==> s.value.atHeader)))
  {
  }

  /**
   * A `variable_entry` line stores the variable its record describes in the current table, with
   * the table's frequency. The loop goes on with the last pair read and ends only after an empty
   * record at the end of the file.
   */
  lemma DispatchVariable(lines: seq<string>, cursor: nat, p: Pair, st: Loading)
    requires p.key == "variable_entry"
    ensures var r := Dispatch(lines, cursor, p, st);
      var s := ScanVariable(lines, cursor, Some(p), NewVariable(p.value));
      (r.Ok? <==> s.Ok? && StoreVariable(st, p.value, s.value.record).Ok?)
      && (r.Ok? ==>
            r.value.state == StoreVariable(st, p.value, s.value.record).value
            && (r.value.Done? <==> !s.value.atHeader && s.value.last == Some(p))
            && (r.value.Continue? ==> r.value.pair == s.value.last.value && r.value.next == s.value.next)
            && p.value in r.value.state.tables[st.tableName]
            && r.value.state.tables[st.tableName][p.value].frequency == Some(Str(st.frequency)))
  {
    var s := ScanVariable(lines, cursor, Some(p), NewVariable(p.value));
    if s.Err? {
      assert Dispatch(lines, cursor, p, st) == Err(s.error);
    } else {
      var stored := StoreVariable(st, p.value, s.value.record);
      if stored.Err? {
        assert Dispatch(lines, cursor, p, st) == Err(stored.error);
      } else {
        StoreVariableStores(st, p.value, s.value.record);
        var sv := s.value;
        assert Dispatch(lines, cursor, p, st)
          == Ok(if EmptyTrailing(sv.atHeader, sv.last, p) then Done(stored.value)
                else Continue(sv.next, sv.last.value, stored.value));
      }
    }
  }

  /** Any other key (`frequency` aside) leaves the tables and the coordinates alone. */
  lemma DispatchOther(lines: seq<string>, cursor: nat, p: Pair, st: Loading)
    requires !IsEntryHeader(p.key) && p.key != "table_id" && p.key != "generic_levels"
    ensures var r := Dispatch(lines, cursor, p, st);
      (r.Ok? <==> !NextLine(lines, cursor).Bad?)
      && (r.Ok? ==> r.value.state.tables == st.tables && r.value.state.coords == st.coords
                    && r.value.state.tableName == st.tableName
                    && r.value.state.frequency == (if p.key == "frequency" then p.value else st.frequency))
  {
  }

  /** A file of nothing but comment lines loads nothing. */
  lemma CommentFileLoadsNothing(lines: seq<string>, reg: Registry)
    requires forall j :: 0 <= j < |lines| ==> IsComment(lines[j])
    ensures LoadedTable(lines, reg) == Ok(reg)
  {
  }

  /** The two maps a CMIP5Info holds. */
  datatype Registry = Registry(tables: Tables, coords: Coords)

  /**
   * CMIP5Info._load_table on the lines of one file: a file with nothing but comment lines adds
   * nothing, otherwise the loop runs from its first pair with no table and no frequency yet.
   */
  function LoadedTable(lines: seq<string>, reg: Registry): (r: Result<Registry>)
    ensures r.Ok? ==> reg.tables.Keys <= r.value.tables.Keys && reg.coords.Keys <= r.value.coords.Keys
  {
    match NextLine(lines, 0)
    case Eof => Ok(reg)
    case Bad(e, _) => Err(e)
    case Line(p, n) => Registered(LoadFrom(lines, n, p, Loading("", "", reg.tables, reg.coords)))
  }

  /** How the load of a table starts: from the first pair read, with no table and no frequency yet. */
  lemma LoadedTableStart(lines: seq<string>, reg: Registry)
    ensures NextLine(lines, 0).Line? ==>
      LoadedTable(lines, reg)
      == Registered(LoadFrom(lines, NextLine(lines, 0).next, NextLine(lines, 0).pair, Loading("", "", reg.tables, reg.coords)))
  {
  }

  /** The registry a finished load leaves behind. */
  function Registered(r: Result<Loading>): Result<Registry> {
    match r
    case Ok(st) => Ok(Registry(st.tables, st.coords))
    case Err(e) => Err(e)
  }

  /** A table file: its path and its lines. */
  datatype TableFile = TableFile(path: string, lines: seq<string>)

  /** A path `__init__` passes over: one naming a grids table. */
  predicate IsGridsFile(path: string) {
    IsSubstring("_grids", path)
  }

  /** CMIP5Info.__init__'s loop: every table file but the grids ones is loaded, in order. */
  function LoadedTables(files: seq<TableFile>, reg: Registry): (r: Result<Registry>)
    ensures r.Ok? ==> reg.tables.Keys <= r.value.tables.Keys && reg.coords.Keys <= r.value.coords.Keys
    decreases |files|
  {
    if files == [] then Ok(reg)
    else if IsGridsFile(files[0].path) then LoadedTables(files[1..], reg)
    else
      var next :- LoadedTable(files[0].lines, reg);
      LoadedTables(files[1..], next)
  }

  /** Building the generic levels name by name, as the `generic_levels` loop does. */
  lemma GenericLevelsStep(names: seq<string>, i: nat)
    requires i < |names|
    ensures GenericLevels(names[..i + 1]) == GenericLevels(names[..i])[names[i] := Some(GenericLevel(names[i]))]
  {
    assert forall d :: d in names[..i + 1] <==> d in names[..i] || d == names[i];
  }

  /** What one pass of the loop hands to the next: the current table's name and frequency. */
  datatype Pass = Pass(tableName: string, frequency: string, more: bool)

  // ---------------------------------------------------------------------------------------------
  // The registry

  /**
   * CMIP5Info: the tables and the shared coordinates, and the reader's state while a file is
   * loaded: the file's lines, the position in it, and the last pair read.
   */
  class CMIP5Info {
    var tables: Tables
    var coords: Coords
    var currentTable: seq<string>
    var cursor: nat
    var lastLineRead: Option<Pair>

    /** No tables and no coordinates yet; no file open. */
    constructor ()
      ensures tables == map[] && coords == map[]
      ensures currentTable == [] && cursor == 0 && lastLineRead == None
    {
      tables := map[];
      coords := map[];
      currentTable := [];
      cursor := 0;
      lastLineRead := None;
    }

    /** CMIP5Info._read_line: reads as NextLine says, and remembers the pair it read. */
    method ReadLine() returns (r: Result<bool>)
      requires cursor <= |currentTable|
      modifies this`cursor, this`lastLineRead
      ensures cursor <= |currentTable|
      ensures match NextLine(currentTable, old(cursor))
        case Eof => r == Ok(false) && cursor == |currentTable| && lastLineRead == old(lastLineRead)
        case Line(p, n) => r == Ok(true) && cursor == n && lastLineRead == Some(p)
        case Bad(e, n) => r == Err(e) && cursor == n && lastLineRead == old(lastLineRead)
      decreases |currentTable| - cursor
    {
      if cursor == |currentTable| {
        NextLineAtEnd(currentTable);
        return Ok(false);
      }
      var line := currentTable[cursor];
      cursor := cursor + 1;
      if IsComment(line) {
        NextLineSkipsComment(currentTable, cursor - 1);
        r := ReadLine();
        return;
      }
      NextLineReadsContent(currentTable, cursor - 1);
      match SplitLine(line)
      case Err(e) =>
        r := Err(e);
      case Ok(p) =>
        lastLineRead := Some(p);
        r := Ok(true);
    }

    /**
     * CMIP5Info._read_coordinate: the coordinate of the record that starts here, or None when
     * the record runs into the end of the file.
     */
    method ReadCoordinate(value: string) returns (r: Result<Option<CoordinateInfo>>)
      requires cursor <= |currentTable|
      modifies this`cursor, this`lastLineRead
      ensures cursor <= |currentTable|
      ensures var s := ScanCoordinate(currentTable, old(cursor), old(lastLineRead), NewCoordinate(value));
        (s.Err? ==> r == Err(s.error))
        && (s.Ok? ==> r == Ok(if s.value.atHeader then Some(s.value.record) else None)
                      && cursor == s.value.next && lastLineRead == s.value.last)
    {
      var coord := NewCoordinate(value);
      while true
        invariant cursor <= |currentTable|
        invariant ScanCoordinate(currentTable, old(cursor), old(lastLineRead), NewCoordinate(value))
                  == ScanCoordinate(currentTable, cursor, lastLineRead, coord)
        decreases |currentTable| - cursor
      {
        var more :- ReadLine();
        if !more {
          return Ok(None);
        }
        if IsEntryHeader(lastLineRead.value.key) {
          return Ok(Some(coord));
        }
        coord := SetCoordinateField(coord, lastLineRead.value);
      }
    }

    /**
     * CMIP5Info._read_variable: the variable of the record that starts here, and whether the
     * record ended at the header of another one rather than at the end of the file.
     */
    method ReadVariable(value: string) returns (r: Result<VariableInfo>, atHeader: bool)
      requires cursor <= |currentTable|
      modifies this`cursor, this`lastLineRead
      ensures cursor <= |currentTable|
      ensures var s := ScanVariable(currentTable, old(cursor), old(lastLineRead), NewVariable(value));
        (s.Err? ==> r == Err(s.error))
        && (s.Ok? ==> r == Ok(s.value.record) && atHeader == s.value.atHeader
                      && cursor == s.value.next && lastLineRead == s.value.last)
    {
      var variable := NewVariable(value);
      while true
        invariant cursor <= |currentTable|
        invariant ScanVariable(currentTable, old(cursor), old(lastLineRead), NewVariable(value))
                  == ScanVariable(currentTable, cursor, lastLineRead, variable)
        decreases |currentTable| - cursor
      {
        var more := ReadLine();
        if more.Err? {
          return Err(more.error), false;
        }
        if !more.value {
          return Ok(variable), false;
        }
        if IsEntryHeader(lastLineRead.value.key) {
          return Ok(variable), true;
        }
        variable := SetVariableField(variable, lastLineRead.value);
      }
    }

    /** The `generic_levels` loop: one generic level coordinate per name. */
    method AddGenericLevels(names: seq<string>)
      modifies this`coords
      ensures coords == old(coords) + GenericLevels(names)
    {
      for i := 0 to |names|
        invariant coords == old(coords) + GenericLevels(names[..i])
      {
        GenericLevelsStep(names, i);
        UpdateUnion(old(coords), GenericLevels(names[..i]), names[i], Some(GenericLevel(names[i])));
        coords := coords[names[i] := Some(GenericLevel(names[i]))];
      }
      assert names[..|names|] == names;
    }

    /** The loop linking a variable's dimensions to the shared coordinates. */
    method LinkDimensions(dims: seq<string>, acc: map<string, Option<CoordinateInfo>>)
      returns (r: Result<map<string, Option<CoordinateInfo>>>)
      ensures r == LinkCoordinates(dims, coords, acc)
    {
      var links := acc;
      for i := 0 to |dims|
        invariant LinkCoordinates(dims, coords, acc) == LinkCoordinates(dims[i..], coords, links)
      {
        assert dims[i..][1..] == dims[i + 1..];
        if dims[i] !in coords {
          return Err(UnknownDimension(dims[i]));
        }
        links := links[dims[i] := coords[dims[i]]];
      }
      return Ok(links);
    }

    /**
     * One pass of `_load_table`'s loop on the pair last read: the current table's name and
     * frequency afterwards, and whether the loop goes on.
     */
    method DispatchLine(tableName: string, frequency: string) returns (r: Result<Pass>)
      requires cursor <= |currentTable| && lastLineRead.Some?
      modifies this`tables, this`coords, this`cursor, this`lastLineRead
      ensures cursor <= |currentTable|
      ensures var d := Dispatch(currentTable, old(cursor), old(lastLineRead.value),
                                Loading(tableName, frequency, old(tables), old(coords)));
        (r.Ok? <==> d.Ok?) && (r.Err? ==> r.error == d.error)
        && (r.Ok? ==> Loading(r.value.tableName, r.value.frequency, tables, coords) == d.value.state
                      && (r.value.more <==> d.value.Continue?)
                      && (r.value.more ==> cursor == d.value.next && lastLineRead == Some(d.value.pair)))
    {
      var key, value := lastLineRead.value.key, lastLineRead.value.value;
      var name, freq := tableName, frequency;
      if key == "table_id" {
        name := SliceFrom(value, 6);
        tables := tables[name := map[]];
      } else if key == "frequency" {
        freq := value;
      } else if key == "generic_levels" {
        AddGenericLevels(SplitOn(value, ' '));
      } else if key == "axis_entry" {
        var coord :- ReadCoordinate(value);
        coords := coords[value := coord];
        return Ok(Pass(name, freq, !EmptyTrailing(coord.Some?, lastLineRead, Pair(key, value))));
      } else if key == "variable_entry" {
        var read, atHeader := ReadVariable(value);
        if read.Err? {
          return Err(read.error);
        }
        var variable := read.value.(frequency := Some(Str(freq)));
        var links :- LinkDimensions(variable.dimensions, variable.coordinates);
        if name !in tables {
          return Err(UnknownTable(name));
        }
        tables := tables[name := tables[name][value := variable.(coordinates := links)]];
        return Ok(Pass(name, freq, !EmptyTrailing(atHeader, lastLineRead, Pair(key, value))));
      }
      var more :- ReadLine();
      return Ok(Pass(name, freq, more));
    }

    /**
     * CMIP5Info._load_table on the lines of one file, with its two corrections: the first read
     * decides whether there is anything to load, and an empty record at the end of the file
     * ends the load.
     */
    method LoadTable(lines: seq<string>) returns (r: Result<()>)
      modifies this
      ensures currentTable == lines
      ensures var spec := LoadedTable(lines, old(Registry(tables, coords)));
        (r.Ok? <==> spec.Ok?) && (r.Err? ==> r.error == spec.error)
        && (r.Ok? ==> Registry(tables, coords) == spec.value)
    {
      ghost var reg := Registry(tables, coords);
      ghost var spec := LoadedTable(lines, reg);
      LoadedTableStart(lines, reg);
      var tableName := "";
      var frequency := "";
      currentTable := lines;
      cursor := 0;
      var first := ReadLine();
      if first.Err? {
        return Err(first.error);
      }
      if !first.value {
        return Ok(());
      }
      assert NextLine(lines, 0) == Line(lastLineRead.value, cursor);
      while true
        invariant currentTable == lines && cursor <= |lines| && lastLineRead.Some?
        invariant spec == Registered(LoadFrom(lines, cursor, lastLineRead.value, Loading(tableName, frequency, tables, coords)))
        decreases |lines| - cursor
      {
        ghost var st := Loading(tableName, frequency, tables, coords);
        ghost var d := Dispatch(lines, cursor, lastLineRead.value, st);
        LoadFromStep(lines, cursor, lastLineRead.value, st);
        var passed := DispatchLine(tableName, frequency);
        if passed.Err? {
          return Err(passed.error);
        }
        var pass := passed.value;
        if !pass.more {
          return Ok(());
        }
        tableName, frequency := pass.tableName, pass.frequency;
        assert Loading(tableName, frequency, tables, coords) == d.value.state;
      }
    }

    /** CMIP5Info.get_variable: the variable of that table with that short name, if there is one. */
    function GetVariable(table: string, shortName: string): (r: Option<VariableInfo>)
      reads this
      ensures r.Some? <==> table in tables && shortName in tables[table]
      ensures r.Some? ==> r.value == tables[table][shortName]
    {
      if table in tables && shortName in tables[table] then Some(tables[table][shortName]) else None
    }
  }

  /**
   * CMIP5Info(...): every table file but the grids ones loaded in order into an empty registry;
   * the first failing file fails the whole.
   */
  method Open(files: seq<TableFile>) returns (r: Result<CMIP5Info>)
    ensures var spec := LoadedTables(files, Registry(map[], map[]));
      (r.Ok? <==> spec.Ok?) && (r.Err? ==> r.error == spec.error)
      && (r.Ok? ==> fresh(r.value) && Registry(r.value.tables, r.value.coords) == spec.value)
  {
    var info := new CMIP5Info();
    for i := 0 to |files|
      invariant fresh(info)
      invariant LoadedTables(files, Registry(map[], map[])) == LoadedTables(files[i..], Registry(info.tables, info.coords))
    {
      assert files[i..][1..] == files[i + 1..];
      if !IsGridsFile(files[i].path) {
        var loaded := info.LoadTable(files[i].lines);
        if loaded.Err? {
          return Err(loaded.error);
        }
      }
    }
    return Ok(info);
  }
}
