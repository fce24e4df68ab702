/**
 * CMIP6Info: the registry built from CMIP6 JSON tables. Coordinate files fill the shared
 * coordinate map first; each table document then adds one table whose variables have their
 * dimensions resolved against that map or against the table's generic levels. Lookup falls
 * back once through the CMIP5-to-CMIP6 rename table.
 */
module Cmip6 {
  import opened Outcomes
  import opened Text
  import opened JsonData
  import opened Descriptors
  import opened Maps

  type Table = map<string, VariableInfo>
  type Tables = map<string, Table>
  type Coordinates = map<string, Option<CoordinateInfo>>

  /** CMIP6Info._CMIP_5to6_varname: legacy CMIP5 short names and their CMIP6 names. */
  const Cmip5To6VarName: map<string, string> := map["sic" := "siconc", "tro3" := "o3"]

  /** No rename target is itself renamed, so a lookup follows at most one rename. */
  lemma RenameTargetsAreFinal()
    ensures forall n :: n in Cmip5To6VarName ==> Cmip5To6VarName[n] !in Cmip5To6VarName
  {
  }

  /** CMIP6Info._is_table: the document has both a `variable_entry` and a `Header` (Python `in`). */
  predicate IsTable(doc: Json): (b: bool)
    ensures doc.Object? ==> (b <==> Index(doc, "variable_entry").Ok? && Index(doc, "Header").Ok?)
  {
    Contains(doc, "variable_entry") && Contains(doc, "Header")
  }

  /** The key _assign_dimensions stores a coordinate under: its axis, or "none" when it has none. */
  function AxisKey(c: CoordinateInfo): (k: string)
    ensures k != ""
    ensures c.axis != "" ==> k == c.axis
    ensures c.axis == "" ==> k == "none"
  {
    if c.axis == "" then "none" else c.axis
  }

  /** A dimension _assign_dimensions can resolve: a generic level of the table or a shared coordinate. */
  predicate Resolvable(d: string, genericLevels: seq<string>, coords: map<string, CoordinateInfo>) {
    d in genericLevels || d in coords
  }

  /**
   * The coordinate a resolvable dimension gets: a fresh generic level, otherwise the shared one;
   * a name that is both is taken as the generic level.
   */
  function Resolved(d: string, genericLevels: seq<string>, coords: map<string, CoordinateInfo>): (c: CoordinateInfo)
    requires Resolvable(d, genericLevels, coords)
    ensures IsCoordinateOf(c, d, coords)
    ensures d in genericLevels ==> c == GenericLevel(d)
    ensures d !in genericLevels ==> c == coords[d]
  {
    if d in genericLevels then GenericLevel(d) else coords[d]
  }

  /** The key a resolvable dimension's coordinate is stored under. */
  function KeyOf(d: string, genericLevels: seq<string>, coords: map<string, CoordinateInfo>): string
    requires Resolvable(d, genericLevels, coords)
  {
    AxisKey(Resolved(d, genericLevels, coords))
  }

  /** `c` is what dimension `d` resolves to: a generic level named `d`, or the shared coordinate `d`. */
  predicate IsCoordinateOf(c: CoordinateInfo, d: string, coords: map<string, CoordinateInfo>) {
    c == GenericLevel(d) || (d in coords && c == coords[d])
  }

  /** Every dimension of `dims` resolves. */
  predicate AllResolvable(dims: seq<string>, genericLevels: seq<string>, coords: map<string, CoordinateInfo>) {
    forall i :: 0 <= i < |dims| ==> Resolvable(dims[i], genericLevels, coords)
  }

  /**
   * The coordinates after _assign_dimensions has handled `dims` in order, starting from `init`:
   * fails on the first dimension that is neither a generic level nor a shared coordinate.
   */
  function AssignedCoordinates(dims: seq<string>, genericLevels: seq<string>, coords: map<string, CoordinateInfo>,
                               init: Coordinates): (r: Result<Coordinates>)
    ensures r.Ok? <==> AllResolvable(dims, genericLevels, coords)
    decreases |dims|
  {
    if dims == [] then Ok(init)
    else
      var front := dims[..|dims| - 1];
      var d := dims[|dims| - 1];
      assert AllResolvable(dims, genericLevels, coords) <==>
             AllResolvable(front, genericLevels, coords) && Resolvable(d, genericLevels, coords);
      var m :- AssignedCoordinates(front, genericLevels, coords, init);
      if Resolvable(d, genericLevels, coords) then
        var c := Resolved(d, genericLevels, coords);
        Ok(m[AxisKey(c) := Some(c)])
      else
        Err(UnknownDimension(d))
  }

  /** A failure names the first dimension that does not resolve. */
  lemma {:induction false} AssignedFailure(dims: seq<string>, genericLevels: seq<string>,
                                           coords: map<string, CoordinateInfo>, init: Coordinates)
    requires !AllResolvable(dims, genericLevels, coords)
    ensures exists i :: 0 <= i < |dims| && !Resolvable(dims[i], genericLevels, coords)
                        && AssignedCoordinates(dims, genericLevels, coords, init) == Err(UnknownDimension(dims[i]))
                        && AllResolvable(dims[..i], genericLevels, coords)
  {
    var front := dims[..|dims| - 1];
    var d := dims[|dims| - 1];
    if AllResolvable(front, genericLevels, coords) {
      assert dims[..|dims| - 1] == front;
    } else {
      AssignedFailure(front, genericLevels, coords, init);
      var i :| 0 <= i < |front| && !Resolvable(front[i], genericLevels, coords)
               && AssignedCoordinates(front, genericLevels, coords, init) == Err(UnknownDimension(front[i]))
               && AllResolvable(front[..i], genericLevels, coords);
      assert front[..i] == dims[..i];
    }
  }

  /** After a successful assignment every dimension has a coordinate under its key and nothing of `init` is lost. */
  lemma {:induction false} AssignedKeys(dims: seq<string>, genericLevels: seq<string>,
                                        coords: map<string, CoordinateInfo>, init: Coordinates)
    requires AllResolvable(dims, genericLevels, coords)
    ensures var m := AssignedCoordinates(dims, genericLevels, coords, init).value;
      && (forall i :: 0 <= i < |dims| ==> KeyOf(dims[i], genericLevels, coords) in m)
      && init.Keys <= m.Keys
  {
    if dims != [] {
      var front := dims[..|dims| - 1];
      assert forall i :: 0 <= i < |front| ==> front[i] == dims[i];
      AssignedKeys(front, genericLevels, coords, init);
    }
  }

  /**
   * Every entry after a successful assignment is either untouched from `init` or the coordinate
   * of one of the dimensions, stored under that dimension's key.
   */
  lemma {:induction false} AssignedOrigins(dims: seq<string>, genericLevels: seq<string>,
                                           coords: map<string, CoordinateInfo>, init: Coordinates, k: string)
    requires AllResolvable(dims, genericLevels, coords)
    requires k in AssignedCoordinates(dims, genericLevels, coords, init).value
    ensures var m := AssignedCoordinates(dims, genericLevels, coords, init).value;
      (k in init && m[k] == init[k])
      || exists i :: 0 <= i < |dims| && KeyOf(dims[i], genericLevels, coords) == k
                     && m[k] == Some(Resolved(dims[i], genericLevels, coords))
  {
    if dims != [] {
      var front := dims[..|dims| - 1];
      var last := |dims| - 1;
      assert forall i :: 0 <= i < |front| ==> front[i] == dims[i];
      var m := AssignedCoordinates(front, genericLevels, coords, init).value;
      assert AssignedCoordinates(dims, genericLevels, coords, init).value
             == m[KeyOf(dims[last], genericLevels, coords) := Some(Resolved(dims[last], genericLevels, coords))];
      if k != KeyOf(dims[last], genericLevels, coords) {
        AssignedOrigins(front, genericLevels, coords, init, k);
      }
    }
  }

  /** A dimension's coordinate ends up under its key unless a later dimension has the same key. */
  lemma {:induction false} AssignedLastWins(dims: seq<string>, genericLevels: seq<string>,
                                            coords: map<string, CoordinateInfo>, init: Coordinates, i: nat)
    requires i < |dims|
    requires AllResolvable(dims, genericLevels, coords)
    requires forall j :: i < j < |dims| ==> KeyOf(dims[j], genericLevels, coords) != KeyOf(dims[i], genericLevels, coords)
    ensures KeyOf(dims[i], genericLevels, coords) in AssignedCoordinates(dims, genericLevels, coords, init).value
    ensures AssignedCoordinates(dims, genericLevels, coords, init).value[KeyOf(dims[i], genericLevels, coords)]
            == Some(Resolved(dims[i], genericLevels, coords))
  {
    var front := dims[..|dims| - 1];
    var d := dims[|dims| - 1];
    assert AllResolvable(front, genericLevels, coords) by {
      assert forall j :: 0 <= j < |front| ==> front[j] == dims[j];
    }
    var m := AssignedCoordinates(front, genericLevels, coords, init).value;
    var c := Resolved(d, genericLevels, coords);
    assert AssignedCoordinates(dims, genericLevels, coords, init) == Ok(m[AxisKey(c) := Some(c)]);
    if i < |dims| - 1 {
      assert front[i] == dims[i];
      assert forall j :: i < j < |front| ==> front[j] == dims[j];
      AssignedLastWins(front, genericLevels, coords, init, i);
      assert KeyOf(d, genericLevels, coords) != KeyOf(dims[i], genericLevels, coords);
    }
  }

  /** One more resolvable dimension adds its coordinate under its key. */
  lemma AssignedStep(dims: seq<string>, genericLevels: seq<string>, coords: map<string, CoordinateInfo>,
                     init: Coordinates, i: nat)
    requires i < |dims| && Resolvable(dims[i], genericLevels, coords)
    requires AssignedCoordinates(dims[..i], genericLevels, coords, init).Ok?
    ensures AssignedCoordinates(dims[..i + 1], genericLevels, coords, init)
            == Ok(AssignedCoordinates(dims[..i], genericLevels, coords, init).value[
                    KeyOf(dims[i], genericLevels, coords) := Some(Resolved(dims[i], genericLevels, coords))])
  {
    assert dims[..i + 1][..i] == dims[..i];
    assert dims[..i + 1][i] == dims[i];
  }

  /** When the dimensions before `i` resolve and dimension `i` does not, the assignment fails there. */
  lemma {:induction false} AssignedStopsAt(dims: seq<string>, genericLevels: seq<string>,
                                           coords: map<string, CoordinateInfo>, init: Coordinates, i: nat)
    requires i < |dims| && !Resolvable(dims[i], genericLevels, coords)
    requires AssignedCoordinates(dims[..i], genericLevels, coords, init).Ok?
    ensures AssignedCoordinates(dims, genericLevels, coords, init) == Err(UnknownDimension(dims[i]))
  {
    var front := dims[..|dims| - 1];
    if i == |dims| - 1 {
      assert front == dims[..i];
    } else {
      assert front[..i] == dims[..i];
      AssignedStopsAt(front, genericLevels, coords, init, i);
    }
  }

  /**
   * The 'none' collision: two dimensions whose coordinates have no axis share the key "none",
   * and only the later one is kept.
   */
  lemma NoneKeyCollision(d1: string, d2: string, genericLevels: seq<string>, coords: map<string, CoordinateInfo>)
    requires d1 !in genericLevels && d2 !in genericLevels
    requires d1 in coords && d2 in coords && coords[d1].axis == "" && coords[d2].axis == ""
    ensures AssignedCoordinates([d1, d2], genericLevels, coords, map[]) == Ok(map["none" := Some(coords[d2])])
  {
    assert [d1, d2][..1] == [d1];
    assert [d1][..0] == [];
    assert AssignedCoordinates([], genericLevels, coords, map[]) == Ok(map[]);
    assert KeyOf(d1, genericLevels, coords) == "none" && Resolved(d1, genericLevels, coords) == coords[d1];
    assert AssignedCoordinates([d1], genericLevels, coords, map[]) == Ok(map["none" := Some(coords[d1])]);
    assert KeyOf(d2, genericLevels, coords) == "none" && Resolved(d2, genericLevels, coords) == coords[d2];
    assert map["none" := Some(coords[d1])]["none" := Some(coords[d2])] == map["none" := Some(coords[d2])];
  }

  /** The coordinates of `v` all come from its own dimensions, each under its own axis key. */
  ghost predicate CoordinatesResolved(v: VariableInfo, coords: map<string, CoordinateInfo>) {
    forall k :: k in v.coordinates ==>
      v.coordinates[k].Some? && AxisKey(v.coordinates[k].value) == k
      && exists i :: 0 <= i < |v.dimensions| && IsCoordinateOf(v.coordinates[k].value, v.dimensions[i], coords)
  }

  /**
   * One variable of a table as _load_table builds it: its own frequency or else the header's,
   * the read_json fields, then the dimensions resolved by _assign_dimensions.
   */
  function BuildVariable(varName: string, varData: Json, frequency: Option<Json>, genericLevels: seq<string>,
                         coords: map<string, CoordinateInfo>): (r: Result<VariableInfo>)
    ensures r.Ok? ==> r.value.shortName == varName
    ensures r.Ok? && Contains(varData, "frequency") ==>
              varData.Object? && r.value.frequency == Some(varData.fields["frequency"])
    ensures r.Ok? && !Contains(varData, "frequency") ==> r.value.frequency == frequency
  {
    var freq :- if Contains(varData, "frequency") then
                  (var f :- Index(varData, "frequency"); Ok(Some(f)))
                else Ok(frequency);
    var v :- ReadVariableJson(NewVariable(varName).(frequency := freq), varData);
    var m :- AssignedCoordinates(v.dimensions, genericLevels, coords, v.coordinates);
    Ok(v.(coordinates := m))
  }

  /**
   * A built variable's coordinates come from its own dimensions, and every dimension resolved and
   * has its coordinate stored under its key.
   */
  lemma BuiltVariableResolved(varName: string, varData: Json, frequency: Option<Json>, genericLevels: seq<string>,
                              coords: map<string, CoordinateInfo>)
    requires BuildVariable(varName, varData, frequency, genericLevels, coords).Ok?
    ensures var v := BuildVariable(varName, varData, frequency, genericLevels, coords).value;
      && CoordinatesResolved(v, coords)
      && AllResolvable(v.dimensions, genericLevels, coords)
      && forall i :: 0 <= i < |v.dimensions| ==> KeyOf(v.dimensions[i], genericLevels, coords) in v.coordinates
  {
    var v := BuildVariable(varName, varData, frequency, genericLevels, coords).value;
    var freq := if Contains(varData, "frequency") then Some(varData.fields["frequency"]) else frequency;
    var w := ReadVariableJson(NewVariable(varName).(frequency := freq), varData).value;
    assert w.coordinates == map[];
    assert v.dimensions == w.dimensions;
    assert v.coordinates == AssignedCoordinates(w.dimensions, genericLevels, coords, w.coordinates).value;
    AssignedKeys(w.dimensions, genericLevels, coords, w.coordinates);
    forall k | k in v.coordinates
      ensures v.coordinates[k].Some? && AxisKey(v.coordinates[k].value) == k
      ensures exists i :: 0 <= i < |v.dimensions| && IsCoordinateOf(v.coordinates[k].value, v.dimensions[i], coords)
    {
      AssignedOrigins(w.dimensions, genericLevels, coords, w.coordinates, k);
    }
  }

  /** What _load_table reads from a table document's header before it walks the variables. */
  datatype Header = Header(name: string, genericLevels: seq<string>, frequency: Option<Json>, entries: map<string, Json>)

  /** The name _load_table gives a table document: its header's `table_id` without the first six characters. */
  function TableName(doc: Json): (r: Result<string>)
    ensures r.Ok? ==> doc.Object? && "Header" in doc.fields
    ensures r.Ok? ==> var header := doc.fields["Header"];
      header.Object? && "table_id" in header.fields && header.fields["table_id"].Str?
      && r.value == SliceFrom(header.fields["table_id"].s, 6)
  {
    var header :- Index(doc, "Header");
    var tableId :- Index(header, "table_id");
    if tableId.Str? then Ok(SliceFrom(tableId.s, 6)) else Err(WrongShape("table_id"))
  }

  /**
   * The header of a table document: its name, the generic levels as the whitespace split of
   * `generic_levels`, the header's own frequency or None, and the variable entries.
   */
  function ReadHeader(doc: Json): (r: Result<Header>)
    ensures r.Ok? ==> TableName(doc) == Ok(r.value.name)
    ensures TableName(doc).Err? ==> r == Err(TableName(doc).error)
  {
    var name :- TableName(doc);
    var header := doc.fields["Header"];
    var levels :- Index(header, "generic_levels");
    var genericLevels :- if levels.Str? then Ok(SplitWhitespace(levels.s)) else Err(WrongShape("generic_levels"));
    // `generic_levels` was found, so the header is an object and `in` looks at its keys.
    var frequency := if Contains(header, "frequency") then Some(header.fields["frequency"]) else None;
    var entries :- Index(doc, "variable_entry");
    if entries.Object? then Ok(Header(name, genericLevels, frequency, entries.fields))
    else Err(WrongShape("variable_entry"))
  }

  /**
   * A header that reads has its generic levels as the words of `generic_levels`, the header's
   * own frequency when it has one and None otherwise, and the `variable_entry` object's entries.
   */
  lemma ReadHeaderFields(doc: Json)
    requires ReadHeader(doc).Ok?
    ensures var h := ReadHeader(doc).value;
      && doc.Object? && "Header" in doc.fields && "variable_entry" in doc.fields
      && var header := doc.fields["Header"];
      && header.Object? && "generic_levels" in header.fields && header.fields["generic_levels"].Str?
      && h.genericLevels == SplitWhitespace(header.fields["generic_levels"].s)
      && h.frequency == (if "frequency" in header.fields then Some(header.fields["frequency"]) else None)
      && doc.fields["variable_entry"] == Object(h.entries)
  {
  }

  /** A CMOR table id "Table <name>" names the table <name>. */
  lemma TableIdName(name: string)
    ensures SliceFrom("Table " + name, 6) == name
  {
  }

  /** Every variable entry of the header builds. */
  predicate EntriesBuild(h: Header, coords: map<string, CoordinateInfo>) {
    forall n :: n in h.entries ==> BuildVariable(n, h.entries[n], h.frequency, h.genericLevels, coords).Ok?
  }

  /** The table _load_table stores: every `variable_entry` key, under that key. */
  function BuiltTable(h: Header, coords: map<string, CoordinateInfo>): (t: Table)
    requires EntriesBuild(h, coords)
    ensures t.Keys == h.entries.Keys
    ensures forall n :: n in t ==> t[n].shortName == n
  {
    map n | n in h.entries :: BuildVariable(n, h.entries[n], h.frequency, h.genericLevels, coords).value
  }

  /** The shared coordinates one coordinate document defines under `axis_entry`, if it can be read. */
  ghost function FileCoordinates(file: Json): (r: Result<map<string, CoordinateInfo>>)
    ensures r.Ok? ==> forall n :: n in r.value ==> r.value[n].name == n && !r.value[n].genericLevel
  {
    var entries :- Index(file, "axis_entry");
    if !entries.Object? then Err(WrongShape("axis_entry"))
    else AxisEntries(entries.fields)
  }

  /** The coordinates the entries of an `axis_entry` object read as, if every one of them can be read. */
  ghost function AxisEntries(entries: map<string, Json>): (r: Result<map<string, CoordinateInfo>>)
    ensures r.Ok? ==> forall n :: n in r.value ==> r.value[n].name == n && !r.value[n].genericLevel
    ensures r.Err? ==> exists n :: n in entries && ReadCoordinateJson(NewCoordinate(n), entries[n]) == Err(r.error)
  {
    if forall n :: n in entries ==> ReadCoordinateJson(NewCoordinate(n), entries[n]).Ok? then
      Ok(map n | n in entries :: ReadCoordinateJson(NewCoordinate(n), entries[n]).value)
    else
      var n :| n in entries && ReadCoordinateJson(NewCoordinate(n), entries[n]).Err?;
      Err(ReadCoordinateJson(NewCoordinate(n), entries[n]).error)
  }

  /** The shared coordinate map _load_coordinates builds: later files override earlier ones. */
  ghost function LoadedCoordinates(files: seq<Json>): (r: map<string, CoordinateInfo>)
    requires forall i :: 0 <= i < |files| ==> FileCoordinates(files[i]).Ok?
    ensures forall n :: n in r ==> r[n].name == n && !r[n].genericLevel
  {
    if files == [] then map[]
    else
      var front := files[..|files| - 1];
      assert forall i :: 0 <= i < |front| ==> front[i] == files[i];
      var r := LoadedCoordinates(front) + FileCoordinates(files[|files| - 1]).value;
      UnionKeepsShared(LoadedCoordinates(front), FileCoordinates(files[|files| - 1]).value);
      r
  }

  /** Two maps of coordinates each stored under its own name and not generic: so is their union. */
  lemma UnionKeepsShared(a: map<string, CoordinateInfo>, b: map<string, CoordinateInfo>)
    requires SharedCoordinates(a) && SharedCoordinates(b)
    ensures SharedCoordinates(a + b)
  {
  }

  /** Loading one more document adds its coordinates over those of the documents before it. */
  lemma LoadedCoordinatesStep(files: seq<Json>, k: nat)
    requires k < |files| && forall i :: 0 <= i <= k ==> FileCoordinates(files[i]).Ok?
    ensures LoadedCoordinates(files[..k + 1]) == LoadedCoordinates(files[..k]) + FileCoordinates(files[k]).value
  {
    assert files[..k + 1][..k] == files[..k];
  }

  /** The coordinates each document defines, document by document. */
  ghost function FileCoordinateMaps(files: seq<Json>): (ms: seq<map<string, CoordinateInfo>>)
    requires forall i :: 0 <= i < |files| ==> FileCoordinates(files[i]).Ok?
    ensures |ms| == |files|
    ensures forall i :: 0 <= i < |files| ==> ms[i] == FileCoordinates(files[i]).value
  {
    seq(|files|, i requires 0 <= i < |files| => FileCoordinates(files[i]).value)
  }

  /** Loading the documents in turn is the union of what each defines, the later overriding. */
  lemma {:induction false} LoadedCoordinatesUnion(files: seq<Json>)
    requires forall i :: 0 <= i < |files| ==> FileCoordinates(files[i]).Ok?
    ensures LoadedCoordinates(files) == UnionAll(FileCoordinateMaps(files))
    decreases |files|
  {
    if files != [] {
      var front := files[..|files| - 1];
      assert forall i :: 0 <= i < |front| ==> front[i] == files[i];
      LoadedCoordinatesUnion(front);
      var ms := FileCoordinateMaps(files);
      assert ms[..|ms| - 1] == FileCoordinateMaps(front);
    }
  }

  /** A coordinate is shared exactly when some coordinate document defines it. */
  lemma LoadedCoordinatesDomain(files: seq<Json>, n: string)
    requires forall i :: 0 <= i < |files| ==> FileCoordinates(files[i]).Ok?
    ensures n in LoadedCoordinates(files) <==> exists i :: 0 <= i < |files| && n in FileCoordinates(files[i]).value
  {
    var ms := FileCoordinateMaps(files);
    LoadedCoordinatesUnion(files);
    UnionAllDomain(ms, n);
    if exists i :: 0 <= i < |ms| && n in ms[i] {
      var i :| 0 <= i < |ms| && n in ms[i];
      assert n in FileCoordinates(files[i]).value;
    }
    if exists i :: 0 <= i < |files| && n in FileCoordinates(files[i]).value {
      var i :| 0 <= i < |files| && n in FileCoordinates(files[i]).value;
      assert n in ms[i];
    }
  }

  /** A shared coordinate is the one from the last coordinate document that defines it. */
  lemma LoadedCoordinatesLastWins(files: seq<Json>, n: string, i: nat)
    requires forall j :: 0 <= j < |files| ==> FileCoordinates(files[j]).Ok?
    requires i < |files| && n in FileCoordinates(files[i]).value
    requires forall j :: i < j < |files| ==> n !in FileCoordinates(files[j]).value
    ensures n in LoadedCoordinates(files)
    ensures LoadedCoordinates(files)[n] == FileCoordinates(files[i]).value[n]
  {
    var ms := FileCoordinateMaps(files);
    LoadedCoordinatesUnion(files);
    UnionAllLastWins(ms, n, i);
  }

  /** The shared coordinates are named by their key and none is a generic level. */
  ghost predicate SharedCoordinates(coords: map<string, CoordinateInfo>) {
    forall n :: n in coords ==> coords[n].name == n && !coords[n].genericLevel
  }

  /** Entries that all read, as `added` records them, read as exactly `added`. */
  lemma AxisEntriesAre(entries: map<string, Json>, added: map<string, CoordinateInfo>)
    requires added.Keys == entries.Keys && ReadAsAxisEntries(entries, added)
    ensures AxisEntries(entries) == Ok(added)
  {
    assert forall n :: n in entries ==> ReadCoordinateJson(NewCoordinate(n), entries[n]).Ok?;
    var m := map n | n in entries :: ReadCoordinateJson(NewCoordinate(n), entries[n]).value;
    assert AxisEntries(entries) == Ok(m);
    assert m.Keys == added.Keys;
    forall n | n in m
      ensures m[n] == added[n]
    {
    }
    assert m == added;
  }

  /** Storing a coordinate under its own name that is not a generic level keeps the shared coordinates so. */
  lemma StoreKeepsShared(coords: map<string, CoordinateInfo>, name: string, c: CoordinateInfo)
    requires SharedCoordinates(coords) && c.name == name && !c.genericLevel
    ensures SharedCoordinates(coords[name := c])
  {
  }

  /** Every coordinate in `added` is what read_json makes of the axis entry of that name. */
  ghost predicate ReadAsAxisEntries(entries: map<string, Json>, added: map<string, CoordinateInfo>) {
    && added.Keys <= entries.Keys
    && forall n :: n in added ==> ReadCoordinateJson(NewCoordinate(n), entries[n]) == Ok(added[n])
  }

  /** Adding one more axis entry as read keeps every added coordinate the one its entry reads as. */
  lemma AddKeepsRead(entries: map<string, Json>, added: map<string, CoordinateInfo>, name: string, c: CoordinateInfo)
    requires ReadAsAxisEntries(entries, added) && name in entries
    requires ReadCoordinateJson(NewCoordinate(name), entries[name]) == Ok(c)
    ensures ReadAsAxisEntries(entries, added[name := c])
  {
  }

  /** Every stored variable carries its own short name and coordinates resolved from its dimensions. */
  ghost predicate ResolvedTables(tables: Tables, coords: map<string, CoordinateInfo>) {
    forall t, v :: t in tables && v in tables[t] ==>
      tables[t][v].shortName == v && CoordinatesResolved(tables[t][v], coords)
  }

  /** Storing a resolved variable under its own short name keeps every table resolved. */
  lemma StoreKeepsResolved(tables: Tables, coords: map<string, CoordinateInfo>, name: string, varName: string,
                           v: VariableInfo)
    requires ResolvedTables(tables, coords) && name in tables
    requires v.shortName == varName && CoordinatesResolved(v, coords)
    ensures ResolvedTables(tables[name := tables[name][varName := v]], coords)
  {
  }

  /** Every variable stored in table `t` so far is the one its entry in header `h` builds. */
  ghost predicate StoredAsBuilt(h: Header, coords: map<string, CoordinateInfo>, t: Table) {
    && t.Keys <= h.entries.Keys
    && forall n :: n in t ==> BuildVariable(n, h.entries[n], h.frequency, h.genericLevels, coords) == Ok(t[n])
  }

  /** Storing one more built entry keeps every stored entry the one its entry builds. */
  lemma StoreKeepsBuilt(h: Header, coords: map<string, CoordinateInfo>, t: Table, varName: string, v: VariableInfo)
    requires StoredAsBuilt(h, coords, t) && varName in h.entries
    requires BuildVariable(varName, h.entries[varName], h.frequency, h.genericLevels, coords) == Ok(v)
    ensures StoredAsBuilt(h, coords, t[varName := v])
  {
  }

  /**
   * The outcome of loading the variable entries of header `h` over the tables `before`: it
   * succeeds exactly when every entry builds, and then the table `h` names is replaced by the
   * built table; on failure some entry failed to build with that error.
   */
  ghost predicate TableLoaded(before: Tables, after: Tables, h: Header, coords: map<string, CoordinateInfo>,
                              r: Result<()>) {
    && (r.Ok? <==> EntriesBuild(h, coords))
    && (r.Ok? ==> after == before[h.name := BuiltTable(h, coords)])
    && (r.Err? ==> exists n :: n in h.entries
                     && BuildVariable(n, h.entries[n], h.frequency, h.genericLevels, coords) == Err(r.error))
  }

  /** Loading over a table emptied first is loading over the table as it was. */
  lemma TableLoadedOverwrites(before: Tables, emptied: Tables, after: Tables, h: Header,
                              coords: map<string, CoordinateInfo>, r: Result<()>)
    requires emptied == before[h.name := map[]]
    requires TableLoaded(emptied, after, h, coords, r)
    ensures TableLoaded(before, after, h, coords, r)
  {
    if r.Ok? {
      UpdateTwice(before, h.name, map[], BuiltTable(h, coords));
    }
  }

  /** Starting a table afresh keeps every table resolved. */
  lemma EmptyTableKeepsResolved(tables: Tables, coords: map<string, CoordinateInfo>, name: string)
    requires ResolvedTables(tables, coords)
    ensures ResolvedTables(tables[name := map[]], coords)
  {
  }

  /** A table whose entries are exactly the built variables is the built table. */
  lemma BuiltTableIs(h: Header, coords: map<string, CoordinateInfo>, t: Table)
    requires t.Keys == h.entries.Keys && StoredAsBuilt(h, coords, t)
    ensures EntriesBuild(h, coords) && t == BuiltTable(h, coords)
  {
  }

  /** One entry that fails to build makes the load fail with its error, whatever the tables hold. */
  lemma EntryFailureFailsLoad(before: Tables, after: Tables, h: Header, coords: map<string, CoordinateInfo>,
                              varName: string, e: Error)
    requires varName in h.entries
    requires BuildVariable(varName, h.entries[varName], h.frequency, h.genericLevels, coords) == Err(e)
    ensures TableLoaded(before, after, h, coords, Err(e))
  {
  }

  /** Replacing the header's table by one holding every entry as built is a successful load. */
  lemma StoredTableLoads(before: Tables, h: Header, coords: map<string, CoordinateInfo>, t: Table)
    requires t.Keys == h.entries.Keys && StoredAsBuilt(h, coords, t)
    ensures TableLoaded(before, before[h.name := t], h, coords, Ok(()))
  {
    BuiltTableIs(h, coords, t);
  }

  /** The registry of one CMIP6 table set. */
  class CMIP6Info {
    var tables: Tables
    var coords: map<string, CoordinateInfo>

    /**
     * Shared coordinates are named by their key and never generic levels; every stored variable
     * carries its own short name, and its coordinates come from its dimensions: shared ones from
     * `coords`, generic levels built locally.
     */
    ghost predicate Valid()
      reads this
    {
      SharedCoordinates(coords) && ResolvedTables(tables, coords)
    }

    constructor ()
      ensures tables == map[] && coords == map[]
      ensures Valid()
    {
      tables := map[];
      coords := map[];
    }

    /** The table has the variable under that exact short name. */
    predicate Found(table: string, shortName: string)
      reads this
    {
      table in tables && shortName in tables[table]
    }

    /**
     * CMIP6Info.get_variable: the exact entry if present; otherwise, for a legacy CMIP5 name,
     * the entry under its CMIP6 name; otherwise None. Never fails.
     */
    function GetVariable(table: string, shortName: string): (r: Option<VariableInfo>)
      reads this
      ensures Found(table, shortName) ==> r == Some(tables[table][shortName])
      ensures !Found(table, shortName) && shortName in Cmip5To6VarName ==>
                var newName := Cmip5To6VarName[shortName];
                r == if Found(table, newName) then Some(tables[table][newName]) else None
      ensures !Found(table, shortName) && shortName !in Cmip5To6VarName ==> r == None
      decreases if shortName in Cmip5To6VarName then 1 else 0
    {
      if table in tables && shortName in tables[table] then Some(tables[table][shortName])
      else if shortName in Cmip5To6VarName then GetVariable(table, Cmip5To6VarName[shortName])
      else None
    }

    /** A variable the registry holds is found under its table and short name, and carries that name. */
    lemma LoadedVariableFound(table: string, shortName: string)
      requires Valid() && Found(table, shortName)
      ensures GetVariable(table, shortName).Some? && GetVariable(table, shortName).value.shortName == shortName
    {
    }

    /** A legacy name that is not itself present answers exactly what its CMIP6 name answers. */
    lemma RenameIsOneHop(table: string, shortName: string)
      requires shortName in Cmip5To6VarName && !Found(table, shortName)
      ensures GetVariable(table, shortName) == GetVariable(table, Cmip5To6VarName[shortName])
    {
    }

    /**
     * CMIP6Info._assign_dimensions: each dimension of `v`, in order, stored under its axis key;
     * a generic level gets a fresh coordinate, any other dimension must be a shared coordinate.
     */
    method AssignDimensions(v: VariableInfo, genericLevels: seq<string>) returns (r: Result<VariableInfo>)
      ensures r.Ok? <==> AssignedCoordinates(v.dimensions, genericLevels, coords, v.coordinates).Ok?
      ensures r.Ok? ==> r.value == v.(coordinates := AssignedCoordinates(v.dimensions, genericLevels, coords, v.coordinates).value)
      ensures r.Err? ==> r.error == AssignedCoordinates(v.dimensions, genericLevels, coords, v.coordinates).error
    {
      var coordinates := v.coordinates;
      var i := 0;
      while i < |v.dimensions|
        invariant 0 <= i <= |v.dimensions|
        invariant AssignedCoordinates(v.dimensions[..i], genericLevels, coords, v.coordinates) == Ok(coordinates)
      {
        var dimension := v.dimensions[i];
        var coord: CoordinateInfo;
        if dimension in genericLevels {
          coord := NewCoordinate(dimension);
          coord := coord.(genericLevel := true);
          coord := coord.(axis := "Z");
        } else if dimension in coords {
          coord := coords[dimension];
        } else {
          AssignedStopsAt(v.dimensions, genericLevels, coords, v.coordinates, i);
          return Err(UnknownDimension(dimension));
        }
        var axis := coord.axis;
        if axis == "" {
          axis := "none";
        }
        assert coord == Resolved(dimension, genericLevels, coords) && axis == AxisKey(coord);
        AssignedStep(v.dimensions, genericLevels, coords, v.coordinates, i);
        coordinates := coordinates[axis := Some(coord)];
        i := i + 1;
      }
      assert v.dimensions[..i] == v.dimensions;
      return Ok(v.(coordinates := coordinates));
    }

    /**
     * CMIP6Info._load_coordinates (the files already read and parsed): the shared coordinate map
     * is rebuilt from every `axis_entry` of every coordinate document.
     */
    method LoadCoordinates(files: seq<Json>) returns (r: Result<()>)
      modifies this`coords
      ensures r.Ok? <==> forall i :: 0 <= i < |files| ==> FileCoordinates(files[i]).Ok?
      ensures r.Ok? ==> coords == LoadedCoordinates(files)
      ensures SharedCoordinates(coords)
    {
      coords := map[];
      var k := 0;
      while k < |files|
        invariant 0 <= k <= |files|
        invariant forall i :: 0 <= i < k ==> FileCoordinates(files[i]).Ok?
        invariant coords == LoadedCoordinates(files[..k])
        invariant SharedCoordinates(coords)
      {
        r := LoadCoordinateFile(files[k]);
        if r.Err? {
          return;
        }
        LoadedCoordinatesStep(files, k);
        k := k + 1;
      }
      assert files[..k] == files;
      return Ok(());
    }

    /**
     * The body of _load_coordinates for one document: every `axis_entry` read and stored under
     * its name, over whatever was there before.
     */
    method LoadCoordinateFile(file: Json) returns (r: Result<()>)
      requires SharedCoordinates(coords)
      modifies this`coords
      ensures r.Ok? <==> FileCoordinates(file).Ok?
      ensures r.Ok? ==> coords == old(coords) + FileCoordinates(file).value
      ensures Index(file, "axis_entry").Err? ==> r == Err(Index(file, "axis_entry").error)
      ensures r.Err? && Index(file, "axis_entry").Ok? && Index(file, "axis_entry").value.Object? ==>
                var entries := Index(file, "axis_entry").value.fields;
                exists n :: n in entries && ReadCoordinateJson(NewCoordinate(n), entries[n]) == Err(r.error)
      ensures SharedCoordinates(coords)
    {
      var entries := Index(file, "axis_entry");
      if entries.Err? {
        return Err(entries.error);
      }
      if !entries.value.Object? {
        return Err(WrongShape("axis_entry"));
      }
      var axisEntries := entries.value.fields;
      var remaining := axisEntries.Keys;
      ghost var added: map<string, CoordinateInfo> := map[];
      while remaining != {}
        invariant remaining <= axisEntries.Keys
        invariant added.Keys == axisEntries.Keys - remaining
        invariant ReadAsAxisEntries(axisEntries, added)
        invariant coords == old(coords) + added
        invariant SharedCoordinates(coords)
        decreases remaining
      {
        var coordName :| coordName in remaining;
        var coord := ReadCoordinateJson(NewCoordinate(coordName), axisEntries[coordName]);
        if coord.Err? {
          FileCoordinatesFail(file, coordName);
          return Err(coord.error);
        }
        UpdateUnion(old(coords), added, coordName, coord.value);
        AddKeepsRead(axisEntries, added, coordName, coord.value);
        StoreKeepsShared(coords, coordName, coord.value);
        coords := coords[coordName := coord.value];
        added := added[coordName := coord.value];
        remaining := remaining - {coordName};
      }
      FileCoordinatesAre(file, added);
      return Ok(());
    }

    /** A coordinate document whose axis entries read as `added` defines exactly `added`. */
    static lemma FileCoordinatesAre(file: Json, added: map<string, CoordinateInfo>)
      requires Index(file, "axis_entry").Ok? && Index(file, "axis_entry").value.Object?
      requires added.Keys == Index(file, "axis_entry").value.fields.Keys
      requires forall n :: n in added ==>
                 ReadCoordinateJson(NewCoordinate(n), Index(file, "axis_entry").value.fields[n]) == Ok(added[n])
      ensures FileCoordinates(file) == Ok(added)
    {
      AxisEntriesAre(Index(file, "axis_entry").value.fields, added);
    }

    /** One unreadable axis entry makes the whole coordinate document unreadable. */
    static lemma FileCoordinatesFail(file: Json, n: string)
      requires Index(file, "axis_entry").Ok? && Index(file, "axis_entry").value.Object?
      requires n in Index(file, "axis_entry").value.fields
      requires ReadCoordinateJson(NewCoordinate(n), Index(file, "axis_entry").value.fields[n]).Err?
      ensures FileCoordinates(file).Err?
    {
    }

    /**
     * CMIP6Info._load_table (the document already parsed): a document that is not a table
     * changes nothing; otherwise the table named by its header is replaced by its variables.
     */
    method LoadTable(doc: Json) returns (r: Result<()>)
      requires Valid()
      modifies this`tables
      ensures Valid()
      ensures !IsTable(doc) ==> r == Ok(()) && tables == old(tables)
      ensures IsTable(doc) && ReadHeader(doc).Err? ==> r == Err(ReadHeader(doc).error)
      ensures IsTable(doc) && TableName(doc).Ok? ==> TableName(doc).value in tables
      ensures IsTable(doc) && ReadHeader(doc).Ok? ==> TableLoaded(old(tables), tables, ReadHeader(doc).value, coords, r)
    {
      if !IsTable(doc) {
        return Ok(());
      }
      var name :- TableName(doc);
      EmptyTableKeepsResolved(tables, coords, name);
      tables := tables[name := map[]];
      var h :- ReadHeader(doc);
      ghost var before := tables;
      r := LoadEntries(h);
      TableLoadedOverwrites(old(tables), before, tables, h, coords, r);
    }

    /**
     * The loop of __init__ over the table documents: every document not on a skipped path is
     * loaded in turn, and the first that fails ends the loop with its error.
     */
    method LoadTables(tableFiles: seq<TableDocument>) returns (r: Result<()>)
      requires Valid() && tables == map[]
      modifies this`tables
      ensures Valid()
      ensures r.Ok? <==> TablesLoaded(tableFiles, coords).Some?
      ensures r.Ok? ==> TablesLoaded(tableFiles, coords) == Some(tables)
    {
      var k := 0;
      while k < |tableFiles|
        invariant 0 <= k <= |tableFiles|
        invariant Valid()
        invariant TablesLoaded(tableFiles[..k], coords) == Some(tables)
      {
        var file := tableFiles[k];
        TablesLoadedStep(tableFiles, k, coords);
        if !IsSkippedTable(file.path) {
          ghost var before := tables;
          r := LoadTable(file.doc);
          LoadTableIsDocLoaded(file.doc, before, tables, coords, r);
          if r.Err? {
            TablesLoadedFailStays(tableFiles, k + 1, coords);
            return;
          }
        }
        k := k + 1;
      }
      assert tableFiles[..k] == tableFiles;
      return Ok(());
    }

    /**
     * The loop of _load_table: every variable entry of the header built and stored, in turn, in
     * the (so far empty) table the header names.
     */
    method LoadEntries(h: Header) returns (r: Result<()>)
      requires Valid() && h.name in tables && tables[h.name] == map[]
      modifies this`tables
      ensures Valid() && h.name in tables
      ensures TableLoaded(old(tables), tables, h, coords, r)
    {
      var remaining := h.entries.Keys;
      while remaining != {}
        invariant remaining <= h.entries.Keys
        invariant h.name in tables && tables == old(tables)[h.name := tables[h.name]]
        invariant tables[h.name].Keys == h.entries.Keys - remaining
        invariant StoredAsBuilt(h, coords, tables[h.name])
        invariant Valid()
        decreases remaining
      {
        var varName :| varName in remaining;
        ghost var stored := tables[h.name];
        r := LoadEntry(h, varName);
        if r.Err? {
          EntryFailureFailsLoad(old(tables), tables, h, coords, varName, r.error);
          return;
        }
        StoreKeepsBuilt(h, coords, stored, varName, tables[h.name][varName]);
        UpdateTwice(old(tables), h.name, stored, tables[h.name]);
        remaining := remaining - {varName};
      }
      StoredTableLoads(old(tables), h, coords, tables[h.name]);
      return Ok(());
    }

    /**
     * One pass of _load_table's loop: the entry's variable is built and, when that succeeds,
     * stored under its name in the header's table; nothing else changes.
     */
    method LoadEntry(h: Header, varName: string) returns (r: Result<()>)
      requires Valid() && h.name in tables && varName in h.entries
      modifies this`tables
      ensures Valid()
      ensures var built := BuildVariable(varName, h.entries[varName], h.frequency, h.genericLevels, coords);
        && (r.Err? ==> built == Err(r.error) && tables == old(tables))
        && (r.Ok? ==> built.Ok? && tables == old(tables)[h.name := old(tables)[h.name][varName := built.value]])
    {
      var v := ReadTableVariable(varName, h.entries[varName], h.frequency, h.genericLevels);
      if v.Err? {
        return Err(v.error);
      }
      BuiltVariableResolved(varName, h.entries[varName], h.frequency, h.genericLevels, coords);
      StoreKeepsResolved(tables, coords, h.name, varName, v.value);
      tables := tables[h.name := tables[h.name][varName := v.value]];
      return Ok(());
    }

    /**
     * The variable _load_table builds from one variable entry: its own frequency or else the
     * table's, the read_json fields, then _assign_dimensions.
     */
    method ReadTableVariable(varName: string, varData: Json, frequency: Option<Json>, genericLevels: seq<string>)
      returns (r: Result<VariableInfo>)
      ensures r == BuildVariable(varName, varData, frequency, genericLevels, coords)
    {
      var v := NewVariable(varName);
      if Contains(varData, "frequency") {
        var f :- Index(varData, "frequency");
        v := v.(frequency := Some(f));
      } else {
        v := v.(frequency := frequency);
      }
      v :- ReadVariableJson(v, varData);
      r := AssignDimensions(v, genericLevels);
    }
  }

  /** A table document of the Tables folder: its path and its parsed content. */
  datatype TableDocument = TableDocument(path: string, doc: Json)

  /** A path __init__ passes over: a controlled-vocabulary test file or a grids table. */
  predicate IsSkippedTable(path: string) {
    IsSubstring("CV_test", path) || IsSubstring("grids", path)
  }

  /** The table names the documents define, leaving out skipped paths and documents that are not tables. */
  function DefinedTableNames(files: seq<TableDocument>): set<string>
    decreases |files|
  {
    if files == [] then {}
    else
      var last := files[|files| - 1];
      DefinedTableNames(files[..|files| - 1])
      + (if !IsSkippedTable(last.path) && IsTable(last.doc) && TableName(last.doc).Ok?
         then {TableName(last.doc).value} else {})
  }

  /**
   * What _load_table does to the tables with one parsed document: a document that is not a
   * table leaves them; a table replaces the table its header names by its built variables.
   * None when the header does not read or some variable entry does not build.
   */
  function TableDocLoaded(doc: Json, coords: map<string, CoordinateInfo>, before: Tables): (r: Option<Tables>)
    ensures r.Some? <==> !IsTable(doc) || (ReadHeader(doc).Ok? && EntriesBuild(ReadHeader(doc).value, coords))
    ensures r.Some? && !IsTable(doc) ==> r.value == before
    ensures r.Some? && IsTable(doc) ==> r.value.Keys == before.Keys + {TableName(doc).value}
    ensures r.Some? && IsTable(doc) ==> r.value[TableName(doc).value].Keys == ReadHeader(doc).value.entries.Keys
    ensures r.Some? && IsTable(doc) ==>
              forall t :: t in before && t != TableName(doc).value ==> r.value[t] == before[t]
  {
    if !IsTable(doc) then Some(before)
    else
      match ReadHeader(doc)
      case Err(_) => None
      case Ok(h) => if EntriesBuild(h, coords) then Some(before[h.name := BuiltTable(h, coords)]) else None
  }

  /**
   * The tables __init__ builds from the table documents in turn, skipped paths passed over and
   * a later table of the same name replacing an earlier one; None when some document fails.
   */
  function TablesLoaded(files: seq<TableDocument>, coords: map<string, CoordinateInfo>): (r: Option<Tables>)
    ensures r.Some? ==> r.value.Keys == DefinedTableNames(files)
    decreases |files|
  {
    if files == [] then Some(map[])
    else
      var last := files[|files| - 1];
      match TablesLoaded(files[..|files| - 1], coords)
      case None => None
      case Some(before) => if IsSkippedTable(last.path) then Some(before) else TableDocLoaded(last.doc, coords, before)
  }

  /** Loading one more table document: passed over when skipped, otherwise loaded over the tables so far. */
  lemma TablesLoadedStep(files: seq<TableDocument>, k: nat, coords: map<string, CoordinateInfo>)
    requires k < |files|
    ensures TablesLoaded(files[..k + 1], coords) ==
              match TablesLoaded(files[..k], coords)
              case None => None
              case Some(before) =>
                if IsSkippedTable(files[k].path) then Some(before) else TableDocLoaded(files[k].doc, coords, before)
  {
    assert files[..k + 1][..k] == files[..k];
  }

  /** What CMIP6Info.LoadTable promises for one document is what TableDocLoaded says of it. */
  lemma LoadTableIsDocLoaded(doc: Json, before: Tables, after: Tables, coords: map<string, CoordinateInfo>, r: Result<()>)
    requires !IsTable(doc) ==> r == Ok(()) && after == before
    requires IsTable(doc) && ReadHeader(doc).Err? ==> r.Err?
    requires IsTable(doc) && ReadHeader(doc).Ok? ==> TableLoaded(before, after, ReadHeader(doc).value, coords, r)
    ensures r.Ok? <==> TableDocLoaded(doc, coords, before).Some?
    ensures r.Ok? ==> TableDocLoaded(doc, coords, before) == Some(after)
  {
  }

  /** Once a document has failed, loading more documents after it still fails. */
  lemma {:induction false} TablesLoadedFailStays(files: seq<TableDocument>, j: nat, coords: map<string, CoordinateInfo>)
    requires j <= |files| && TablesLoaded(files[..j], coords) == None
    ensures TablesLoaded(files, coords) == None
    decreases |files|
  {
    if j == |files| {
      assert files[..j] == files;
    } else {
      var front := files[..|files| - 1];
      assert front[..j] == files[..j];
      TablesLoadedFailStays(front, j, coords);
    }
  }

  /**
   * CMIP6Info.__init__ with the Tables folder already listed and parsed: the coordinate
   * documents first, then every table document in turn, except the skipped paths. It succeeds
   * exactly when every coordinate document reads and every remaining table document loads,
   * and the tables are then those TablesLoaded builds.
   */
  method Open(coordinateFiles: seq<Json>, tableFiles: seq<TableDocument>) returns (r: Result<CMIP6Info>)
    ensures r.Ok? <==> (forall i :: 0 <= i < |coordinateFiles| ==> FileCoordinates(coordinateFiles[i]).Ok?)
                       && TablesLoaded(tableFiles, LoadedCoordinates(coordinateFiles)).Some?
    ensures r.Ok? ==> fresh(r.value) && r.value.Valid() && r.value.coords == LoadedCoordinates(coordinateFiles)
                      && TablesLoaded(tableFiles, r.value.coords) == Some(r.value.tables)
                      && r.value.tables.Keys == DefinedTableNames(tableFiles)
  {
    var info := new CMIP6Info();
    var loaded := info.LoadCoordinates(coordinateFiles);
    assert info.tables == map[];
    if loaded.Err? {
      return Err(loaded.error);
    }
    var tables := info.LoadTables(tableFiles);
    if tables.Err? {
      return Err(tables.error);
    }
    return Ok(info);
  }
}
