/**
 * The two descriptor types both table readers fill: CoordinateInfo (one axis entry) and
 * VariableInfo (one variable entry), with their JSON readers and their attributes by name.
 */
module Descriptors {
  import opened Outcomes
  import opened Text
  import opened JsonData

  /** One coordinate (axis) definition; `requested` holds whatever value the table gave. */
  datatype CoordinateInfo = CoordinateInfo(
    name: string,
    genericLevel: bool,
    axis: string,
    value: string,
    standardName: string,
    longName: string,
    outName: string,
    varName: string,
    units: string,
    storedDirection: string,
    requested: Json,
    validMin: string,
    validMax: string)

  /**
   * One variable definition. `frequency` is None when the CMIP6 table declares none;
   * `coordinates` maps a key (an axis in CMIP6, a dimension in CMIP5) to a coordinate, or to
   * None where the CMIP5 reader stored no coordinate.
   */
  datatype VariableInfo = VariableInfo(
    shortName: string,
    standardName: string,
    longName: string,
    units: string,
    validMin: string,
    validMax: string,
    frequency: Option<Json>,
    positive: string,
    dimensions: seq<string>,
    coordinates: map<string, Option<CoordinateInfo>>,
    derived: bool,
    requiredVars: seq<string>)

  /** CoordinateInfo(name): every text empty, no generic level, nothing requested. */
  function NewCoordinate(name: string): (c: CoordinateInfo)
    ensures c.name == name && !c.genericLevel && c.axis == "" && c.requested == List([])
  {
    CoordinateInfo(name, false, "", "", "", "", "", "", "", "", List([]), "", "")
  }

  /** The placeholder coordinate both readers make for a generic level: axis Z, generic flag set. */
  function GenericLevel(name: string): (c: CoordinateInfo)
    ensures c.name == name && c.genericLevel && c.axis == "Z"
    ensures c.(genericLevel := false, axis := "") == NewCoordinate(name)
  {
    NewCoordinate(name).(genericLevel := true, axis := "Z")
  }

  /** VariableInfo(short_name): every text empty, no dimensions, no coordinates, not derived. */
  function NewVariable(shortName: string): (v: VariableInfo)
    ensures v.shortName == shortName && v.frequency == Some(Str(""))
    ensures v.dimensions == [] && v.coordinates == map[] && !v.derived && v.requiredVars == []
  {
    VariableInfo(shortName, "", "", "", "", "", Some(Str("")), "", [], map[], false, [])
  }

  /** Every text attribute a freshly made descriptor has, other than its name, is empty. */
  lemma NewDescriptorsAreEmpty(name: string)
    ensures forall a :: IsVariableAttr(a) && a != ShortName ==> VariableText(NewVariable(name), a) == Some("")
    ensures forall a :: IsCoordinateAttr(a) && a != Name ==> CoordinateText(NewCoordinate(name), a) == Some("")
  {
  }

  /** The text attributes of the two descriptor classes. */
  datatype Attr =
    | ShortName | Name | Axis | Value | StandardName | LongName | OutName | VarName | Units
    | StoredDirection | ValidMin | ValidMax | Positive

  /** The Python name of a text attribute. */
  function AttrName(a: Attr): string {
    match a
    case ShortName => "short_name"
    case Name => "name"
    case Axis => "axis"
    case Value => "value"
    case StandardName => "standard_name"
    case LongName => "long_name"
    case OutName => "out_name"
    case VarName => "var_name"
    case Units => "units"
    case StoredDirection => "stored_direction"
    case ValidMin => "valid_min"
    case ValidMax => "valid_max"
    case Positive => "positive"
  }

  /** The text attribute a key names, if it names one. */
  function AttrNamed(key: string): (r: Option<Attr>)
    ensures r.Some? ==> AttrName(r.value) == key
  {
    match key
    case "short_name" => Some(ShortName)
    case "name" => Some(Name)
    case "axis" => Some(Axis)
    case "value" => Some(Value)
    case "standard_name" => Some(StandardName)
    case "long_name" => Some(LongName)
    case "out_name" => Some(OutName)
    case "var_name" => Some(VarName)
    case "units" => Some(Units)
    case "stored_direction" => Some(StoredDirection)
    case "valid_min" => Some(ValidMin)
    case "valid_max" => Some(ValidMax)
    case "positive" => Some(Positive)
    case _ => None
  }

  /** Every attribute is found again under its own name, so AttrNamed and AttrName are inverse. */
  lemma AttrNamedName(a: Attr)
    ensures AttrNamed(AttrName(a)) == Some(a)
  {
  }

  /** The text attributes of VariableInfo. */
  predicate IsVariableAttr(a: Attr) {
    a in {ShortName, StandardName, LongName, Units, ValidMin, ValidMax, Positive}
  }

  /** The text attributes of CoordinateInfo. */
  predicate IsCoordinateAttr(a: Attr) {
    a in {Name, Axis, Value, StandardName, LongName, OutName, VarName, Units, StoredDirection, ValidMin, ValidMax}
  }

  /** getattr(v, name) for a text attribute; None for what VariableInfo does not have. */
  function VariableText(v: VariableInfo, a: Attr): (r: Option<string>)
    ensures r.Some? <==> IsVariableAttr(a)
  {
    match a
    case ShortName => Some(v.shortName)
    case StandardName => Some(v.standardName)
    case LongName => Some(v.longName)
    case Units => Some(v.units)
    case ValidMin => Some(v.validMin)
    case ValidMax => Some(v.validMax)
    case Positive => Some(v.positive)
    case _ => None
  }

  /** setattr(v, name, text) for a text attribute. */
  function SetVariableText(v: VariableInfo, a: Attr, text: string): VariableInfo
    requires IsVariableAttr(a)
  {
    match a
    case ShortName => v.(shortName := text)
    case StandardName => v.(standardName := text)
    case LongName => v.(longName := text)
    case Units => v.(units := text)
    case ValidMin => v.(validMin := text)
    case ValidMax => v.(validMax := text)
    case Positive => v.(positive := text)
  }

  /** Setting one text attribute is seen by getattr of that attribute and by no other attribute or field. */
  lemma SetVariableTextReads(v: VariableInfo, a: Attr, text: string, other: Attr)
    requires IsVariableAttr(a)
    ensures VariableText(SetVariableText(v, a, text), a) == Some(text)
    ensures other != a ==> VariableText(SetVariableText(v, a, text), other) == VariableText(v, other)
    ensures var w := SetVariableText(v, a, text);
      w.frequency == v.frequency && w.dimensions == v.dimensions && w.coordinates == v.coordinates
      && w.derived == v.derived && w.requiredVars == v.requiredVars
  {
  }

  /** getattr(c, name) for a text attribute; None for what CoordinateInfo does not have. */
  function CoordinateText(c: CoordinateInfo, a: Attr): (r: Option<string>)
    ensures r.Some? <==> IsCoordinateAttr(a)
  {
    match a
    case Name => Some(c.name)
    case Axis => Some(c.axis)
    case Value => Some(c.value)
    case StandardName => Some(c.standardName)
    case LongName => Some(c.longName)
    case OutName => Some(c.outName)
    case VarName => Some(c.varName)
    case Units => Some(c.units)
    case StoredDirection => Some(c.storedDirection)
    case ValidMin => Some(c.validMin)
    case ValidMax => Some(c.validMax)
    case _ => None
  }

  /** setattr(c, name, text) for a text attribute. */
  function SetCoordinateText(c: CoordinateInfo, a: Attr, text: string): CoordinateInfo
    requires IsCoordinateAttr(a)
  {
    match a
    case Name => c.(name := text)
    case Axis => c.(axis := text)
    case Value => c.(value := text)
    case StandardName => c.(standardName := text)
    case LongName => c.(longName := text)
    case OutName => c.(outName := text)
    case VarName => c.(varName := text)
    case Units => c.(units := text)
    case StoredDirection => c.(storedDirection := text)
    case ValidMin => c.(validMin := text)
    case ValidMax => c.(validMax := text)
  }

  /** Setting one text attribute is seen by getattr of that attribute and by no other attribute or field. */
  lemma SetCoordinateTextReads(c: CoordinateInfo, a: Attr, text: string, other: Attr)
    requires IsCoordinateAttr(a)
    ensures CoordinateText(SetCoordinateText(c, a, text), a) == Some(text)
    ensures other != a ==> CoordinateText(SetCoordinateText(c, a, text), other) == CoordinateText(c, other)
    ensures var d := SetCoordinateText(c, a, text);
      d.genericLevel == c.genericLevel && d.requested == c.requested
  {
  }

  /**
   * VariableInfo.read_json: each text field but the name as JsonInfo._read_json_variable reads
   * it, and the dimensions as the whitespace split of the `dimensions` field. Name, frequency
   * and coordinates are left as they were.
   */
  function ReadVariableJson(v: VariableInfo, data: Json): (r: Result<VariableInfo>)
    ensures r.Ok? ==> r.value.shortName == v.shortName && r.value.frequency == v.frequency
                      && r.value.coordinates == v.coordinates && r.value.derived == v.derived
                      && r.value.requiredVars == v.requiredVars
  {
    var standardName :- ReadJsonVariable(data, "standard_name");
    var longName :- ReadJsonVariable(data, "long_name");
    var units :- ReadJsonVariable(data, "units");
    var validMin :- ReadJsonVariable(data, "valid_min");
    var validMax :- ReadJsonVariable(data, "valid_max");
    var positive :- ReadJsonVariable(data, "positive");
    var dimensions :- ReadJsonVariable(data, "dimensions");
    Ok(v.(standardName := standardName, longName := longName, units := units, validMin := validMin,
          validMax := validMax, positive := positive, dimensions := SplitWhitespace(dimensions)))
  }

  /** Every field VariableInfo.read_json reads can be read. */
  predicate VariableFieldsReadable(data: Json) {
    && ReadJsonVariable(data, "standard_name").Ok?
    && ReadJsonVariable(data, "long_name").Ok?
    && ReadJsonVariable(data, "units").Ok?
    && ReadJsonVariable(data, "valid_min").Ok?
    && ReadJsonVariable(data, "valid_max").Ok?
    && ReadJsonVariable(data, "positive").Ok?
    && ReadJsonVariable(data, "dimensions").Ok?
  }

  /** The fields read_json reads are the text attributes other than the name, then `dimensions`. */
  lemma VariableFieldsReadableAttrs(data: Json)
    ensures VariableFieldsReadable(data) <==>
              (forall a :: IsVariableAttr(a) && a != ShortName ==> ReadJsonVariable(data, AttrName(a)).Ok?)
              && ReadJsonVariable(data, "dimensions").Ok?
  {
    assert AttrName(StandardName) == "standard_name" && AttrName(LongName) == "long_name";
    assert AttrName(Units) == "units" && AttrName(ValidMin) == "valid_min";
    assert AttrName(ValidMax) == "valid_max" && AttrName(Positive) == "positive";
  }

  /** read_json of a variable record fails exactly when some field it reads cannot be read. */
  lemma ReadVariableJsonReadable(v: VariableInfo, data: Json)
    ensures ReadVariableJson(v, data).Ok? <==> VariableFieldsReadable(data)
  {
  }

  /** read_json of a variable record every field of which can be read. */
  lemma ReadVariableJsonFields(v: VariableInfo, data: Json)
    requires VariableFieldsReadable(data)
    ensures ReadVariableJson(v, data) ==
              Ok(v.(standardName := ReadJsonVariable(data, "standard_name").value,
                    longName := ReadJsonVariable(data, "long_name").value,
                    units := ReadJsonVariable(data, "units").value,
                    validMin := ReadJsonVariable(data, "valid_min").value,
                    validMax := ReadJsonVariable(data, "valid_max").value,
                    positive := ReadJsonVariable(data, "positive").value,
                    dimensions := SplitWhitespace(ReadJsonVariable(data, "dimensions").value)))
  {
  }

  /** read_json fails exactly when a field cannot be read, and otherwise gives the record with every field read. */
  lemma ReadVariableJsonIs(v: VariableInfo, data: Json)
    ensures ReadVariableJson(v, data).Ok? <==> VariableFieldsReadable(data)
    ensures VariableFieldsReadable(data) ==>
              ReadVariableJson(v, data) ==
              Ok(v.(standardName := ReadJsonVariable(data, "standard_name").value,
                    longName := ReadJsonVariable(data, "long_name").value,
                    units := ReadJsonVariable(data, "units").value,
                    validMin := ReadJsonVariable(data, "valid_min").value,
                    validMax := ReadJsonVariable(data, "valid_max").value,
                    positive := ReadJsonVariable(data, "positive").value,
                    dimensions := SplitWhitespace(ReadJsonVariable(data, "dimensions").value)))
  {
    ReadVariableJsonReadable(v, data);
    if VariableFieldsReadable(data) {
      ReadVariableJsonFields(v, data);
    }
  }

  /** VariableInfo.read_json succeeds exactly when each text field it reads and `dimensions` can be read. */
  lemma ReadVariableJsonOk(v: VariableInfo, data: Json)
    ensures ReadVariableJson(v, data).Ok? <==>
              (forall a :: IsVariableAttr(a) && a != ShortName ==> ReadJsonVariable(data, AttrName(a)).Ok?)
              && ReadJsonVariable(data, "dimensions").Ok?
  {
    ReadVariableJsonIs(v, data);
    VariableFieldsReadableAttrs(data);
  }

  /** read_json of a readable variable record, field by field. */
  lemma ReadVariableJsonTexts(v: VariableInfo, data: Json)
    requires VariableFieldsReadable(data)
    ensures ReadVariableJson(v, data).Ok?
    ensures var w := ReadVariableJson(v, data).value;
      && w.standardName == ReadJsonVariable(data, "standard_name").value
      && w.longName == ReadJsonVariable(data, "long_name").value
      && w.units == ReadJsonVariable(data, "units").value
      && w.validMin == ReadJsonVariable(data, "valid_min").value
      && w.validMax == ReadJsonVariable(data, "valid_max").value
      && w.positive == ReadJsonVariable(data, "positive").value
  {
    ReadVariableJsonFields(v, data);
  }

  /** After VariableInfo.read_json a text field other than the name holds what was read. */
  lemma ReadVariableJsonValue(v: VariableInfo, data: Json, a: Attr)
    requires ReadVariableJson(v, data).Ok? && IsVariableAttr(a) && a != ShortName
    ensures ReadJsonVariable(data, AttrName(a)) == Ok(VariableText(ReadVariableJson(v, data).value, a).value)
  {
    ReadVariableJsonReadable(v, data);
    ReadVariableJsonTexts(v, data);
  }

  /**
   * After VariableInfo.read_json each text field but the name holds what was read and the
   * dimensions are the whitespace-separated words of the `dimensions` field.
   */
  lemma ReadVariableJsonValues(v: VariableInfo, data: Json)
    requires ReadVariableJson(v, data).Ok?
    ensures forall a :: IsVariableAttr(a) && a != ShortName ==>
              ReadJsonVariable(data, AttrName(a)) == Ok(VariableText(ReadVariableJson(v, data).value, a).value)
    ensures ReadJsonVariable(data, "dimensions").Ok?
            && ReadVariableJson(v, data).value.dimensions == SplitWhitespace(ReadJsonVariable(data, "dimensions").value)
  {
    forall a | IsVariableAttr(a) && a != ShortName
      ensures ReadJsonVariable(data, AttrName(a)) == Ok(VariableText(ReadVariableJson(v, data).value, a).value)
    {
      ReadVariableJsonValue(v, data, a);
    }
    ReadVariableJsonIs(v, data);
  }

  /** A variable record without any of the fields read comes out all-empty with no dimensions. */
  lemma ReadVariableJsonEmpty(v: VariableInfo, data: Json)
    requires forall a :: IsVariableAttr(a) && a != ShortName ==> !Contains(data, AttrName(a))
    requires !Contains(data, "dimensions")
    ensures ReadVariableJson(v, data).Ok?
    ensures var w := ReadVariableJson(v, data).value;
      w.dimensions == [] && forall a :: IsVariableAttr(a) && a != ShortName ==> VariableText(w, a) == Some("")
  {
    forall a | IsVariableAttr(a) && a != ShortName
      ensures ReadJsonVariable(data, AttrName(a)) == Ok("")
    {
    }
    VariableFieldsReadableAttrs(data);
    ReadVariableJsonIs(v, data);
    ReadVariableJsonValues(v, data);
    assert ReadJsonVariable(data, "dimensions").value == "";
    assert StripStart("") == "";
  }

  /**
   * CoordinateInfo.read_json: each text field but the name as JsonInfo._read_json_variable
   * reads it, and `requested` as JsonInfo._read_json_list_variable reads it. Name and generic
   * flag are kept.
   */
  function ReadCoordinateJson(c: CoordinateInfo, data: Json): (r: Result<CoordinateInfo>)
    ensures r.Ok? ==> r.value.name == c.name && r.value.genericLevel == c.genericLevel
  {
    var axis :- ReadJsonVariable(data, "axis");
    var value :- ReadJsonVariable(data, "value");
    var outName :- ReadJsonVariable(data, "out_name");
    var varName :- ReadJsonVariable(data, "var_name");
    var standardName :- ReadJsonVariable(data, "standard_name");
    var longName :- ReadJsonVariable(data, "long_name");
    var units :- ReadJsonVariable(data, "units");
    var storedDirection :- ReadJsonVariable(data, "stored_direction");
    var validMin :- ReadJsonVariable(data, "valid_min");
    var validMax :- ReadJsonVariable(data, "valid_max");
    var requested :- ReadJsonListVariable(data, "requested");
    Ok(c.(axis := axis, value := value, outName := outName, varName := varName, standardName := standardName,
          longName := longName, units := units, storedDirection := storedDirection, validMin := validMin,
          validMax := validMax, requested := requested))
  }

  /** Every field CoordinateInfo.read_json reads can be read. */
  predicate CoordinateFieldsReadable(data: Json) {
    && ReadJsonVariable(data, "axis").Ok?
    && ReadJsonVariable(data, "value").Ok?
    && ReadJsonVariable(data, "out_name").Ok?
    && ReadJsonVariable(data, "var_name").Ok?
    && ReadJsonVariable(data, "standard_name").Ok?
    && ReadJsonVariable(data, "long_name").Ok?
    && ReadJsonVariable(data, "units").Ok?
    && ReadJsonVariable(data, "stored_direction").Ok?
    && ReadJsonVariable(data, "valid_min").Ok?
    && ReadJsonVariable(data, "valid_max").Ok?
    && ReadJsonListVariable(data, "requested").Ok?
  }

  /** The fields read_json reads are the text attributes other than the name, then `requested`. */
  lemma CoordinateFieldsReadableAttrs(data: Json)
    ensures CoordinateFieldsReadable(data) <==>
              (forall a :: IsCoordinateAttr(a) && a != Name ==> ReadJsonVariable(data, AttrName(a)).Ok?)
              && ReadJsonListVariable(data, "requested").Ok?
  {
    if CoordinateFieldsReadable(data) {
      forall a | IsCoordinateAttr(a) && a != Name
        ensures ReadJsonVariable(data, AttrName(a)).Ok?
      {
      }
    }
    assert AttrName(Axis) == "axis" && AttrName(Value) == "value";
    assert AttrName(OutName) == "out_name" && AttrName(VarName) == "var_name";
    assert AttrName(StandardName) == "standard_name" && AttrName(LongName) == "long_name";
    assert AttrName(Units) == "units" && AttrName(StoredDirection) == "stored_direction";
    assert AttrName(ValidMin) == "valid_min" && AttrName(ValidMax) == "valid_max";
  }

  /** read_json of a coordinate record fails exactly when some field it reads cannot be read. */
  lemma ReadCoordinateJsonReadable(c: CoordinateInfo, data: Json)
    ensures ReadCoordinateJson(c, data).Ok? <==> CoordinateFieldsReadable(data)
  {
  }

  /** read_json of a coordinate record every field of which can be read. */
  lemma ReadCoordinateJsonFields(c: CoordinateInfo, data: Json)
    requires CoordinateFieldsReadable(data)
    ensures ReadCoordinateJson(c, data) ==
              Ok(c.(axis := ReadJsonVariable(data, "axis").value,
                    value := ReadJsonVariable(data, "value").value,
                    outName := ReadJsonVariable(data, "out_name").value,
                    varName := ReadJsonVariable(data, "var_name").value,
                    standardName := ReadJsonVariable(data, "standard_name").value,
                    longName := ReadJsonVariable(data, "long_name").value,
                    units := ReadJsonVariable(data, "units").value,
                    storedDirection := ReadJsonVariable(data, "stored_direction").value,
                    validMin := ReadJsonVariable(data, "valid_min").value,
                    validMax := ReadJsonVariable(data, "valid_max").value,
                    requested := ReadJsonListVariable(data, "requested").value))
  {
  }

  /** read_json fails exactly when a field cannot be read, and otherwise gives the record with every field read. */
  lemma ReadCoordinateJsonIs(c: CoordinateInfo, data: Json)
    ensures ReadCoordinateJson(c, data).Ok? <==> CoordinateFieldsReadable(data)
    ensures CoordinateFieldsReadable(data) ==>
              ReadCoordinateJson(c, data) ==
              Ok(c.(axis := ReadJsonVariable(data, "axis").value,
                    value := ReadJsonVariable(data, "value").value,
                    outName := ReadJsonVariable(data, "out_name").value,
                    varName := ReadJsonVariable(data, "var_name").value,
                    standardName := ReadJsonVariable(data, "standard_name").value,
                    longName := ReadJsonVariable(data, "long_name").value,
                    units := ReadJsonVariable(data, "units").value,
                    storedDirection := ReadJsonVariable(data, "stored_direction").value,
                    validMin := ReadJsonVariable(data, "valid_min").value,
                    validMax := ReadJsonVariable(data, "valid_max").value,
                    requested := ReadJsonListVariable(data, "requested").value))
  {
    ReadCoordinateJsonReadable(c, data);
    if CoordinateFieldsReadable(data) {
      ReadCoordinateJsonFields(c, data);
    }
  }

  /** CoordinateInfo.read_json succeeds exactly when each text field it reads and `requested` can be read. */
  lemma ReadCoordinateJsonOk(c: CoordinateInfo, data: Json)
    ensures ReadCoordinateJson(c, data).Ok? <==>
              (forall a :: IsCoordinateAttr(a) && a != Name ==> ReadJsonVariable(data, AttrName(a)).Ok?)
              && ReadJsonListVariable(data, "requested").Ok?
  {
    ReadCoordinateJsonIs(c, data);
    CoordinateFieldsReadableAttrs(data);
  }

  /** After CoordinateInfo.read_json a text field other than the name holds what was read. */
  lemma ReadCoordinateJsonValue(c: CoordinateInfo, data: Json, a: Attr)
    requires ReadCoordinateJson(c, data).Ok? && IsCoordinateAttr(a) && a != Name
    ensures CoordinateText(ReadCoordinateJson(c, data).value, a) == Some(ReadJsonVariable(data, AttrName(a)).value)
  {
  }

  /** After CoordinateInfo.read_json each text field but the name and `requested` hold what was read. */
  lemma ReadCoordinateJsonValues(c: CoordinateInfo, data: Json)
    requires ReadCoordinateJson(c, data).Ok?
    ensures forall a :: IsCoordinateAttr(a) && a != Name ==>
              CoordinateText(ReadCoordinateJson(c, data).value, a) == Some(ReadJsonVariable(data, AttrName(a)).value)
    ensures ReadCoordinateJson(c, data).value.requested == ReadJsonListVariable(data, "requested").value
  {
    forall a | IsCoordinateAttr(a) && a != Name
      ensures CoordinateText(ReadCoordinateJson(c, data).value, a) == Some(ReadJsonVariable(data, AttrName(a)).value)
    {
      ReadCoordinateJsonValue(c, data, a);
    }
    ReadCoordinateJsonIs(c, data);
  }
}
