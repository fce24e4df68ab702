# CMOR variable tables of ESMValTool, modelled in Dafny

ESMValTool checks model output against the CMOR variable tables of CMIP5 and CMIP6.
`esmvaltool/interface_scripts/variable_info.py` reads those tables into a registry:
table name → variable short name → variable descriptor (`VariableInfo`), together with
the coordinate descriptors (`CoordinateInfo`) that the variables' dimensions refer to.
It has two readers:

- `CMIP6Info` reads JSON tables. A `Header` gives the table name (`table_id` without
  its first six characters), the generic levels and a default frequency. Each
  `variable_entry` becomes a `VariableInfo`. Each dimension is resolved to a fresh
  generic-level coordinate or to a shared coordinate from the `*coordinate*.json`
  files, and stored under its axis (`"none"` when it has none). A lookup that misses
  tries once more under the CMIP6 name of a legacy CMIP5 name (`sic` → `siconc`,
  `tro3` → `o3`).
- `CMIP5Info` reads the CMIP5 text tables line by line:
  - `_read_line` skips `!` comment lines, cuts trailing comments and splits at the first
    `:`.
  - The loop of `_load_table` dispatches on the key of the last pair read:
    `table_id`, `frequency`, `generic_levels`, `axis_entry` or `variable_entry`.
  - `_read_coordinate` and `_read_variable` apply the record's lines as attributes
    until the next record header.
  - Each variable gets the table's frequency and the shared coordinate of each
    dimension.

The model:

| file | module | what it holds |
|---|---|---|
| `outcomes.dfy` | `Outcomes` | `Option`, `Result`, and the errors the Python code raises (`KeyError`, `TypeError`, `ValueError`, `AttributeError`) |
| `text.dfy` | `Text` | The Python string operations the readers use: `strip`, `split()`, `split(' ')`, `index`, `replace`, `in`, slicing |
| `maps.dfy` | `Maps` | Facts about map update and union, and the union of a sequence of maps, later maps overriding earlier ones |
| `json_data.dfy` | `JsonData` | Parsed JSON values and the `JsonInfo` readers |
| `descriptors.dfy` | `Descriptors` | `VariableInfo` and `CoordinateInfo` as datatypes; `getattr`/`setattr`/`hasattr` on their text attributes; both `read_json` methods |
| `cmip6_info.dfy` | `Cmip6` | `CMIP6Info` as a class with `tables` and `coords` fields, each method proved against a specification function |
| `table_lines.dfy` | `Cmip5Lines` | `_read_line` on the lines of a table file |
| `cmip5_info.dfy` | `Cmip5` | The record readers and the `_load_table` loop as specification functions; `CMIP5Info` as a class whose methods are proved against them |
| `cmip5_as_written.dfy` | `Cmip5AsWritten` | The loop of `_load_table` exactly as written, for the two findings below |

The descriptors never change once they are stored, so they are values. The two
registries change in place, so they are classes:
- `tables` and `coords` are map fields;
- `CMIP5Info` also holds the open file as a sequence of lines, a cursor into it, and
  `_last_line_read`.

Reading directories, opening files and parsing JSON are parameters: a table file is
its path and its lines (CMIP5), or its parsed document (CMIP6).

Where the code's behaviour differs from the registry's documented design, the model
follows the code:
- `CMIP5Info` splits `dimensions`, `requested` and `generic_levels` at single spaces,
  not at any whitespace.
- At the end of the file `_read_coordinate` returns None, and None is what is stored
  for the coordinate.
- `CMIP5Info` puts its generic levels into the shared coordinate map.
- `CMIP5Info.get_variable` has no alias fallback.

Two exceptions are modelled as corrected, with the as-written behaviour kept beside
them (see "## Findings").

## Model

| member | source | states |
|---|---|---|
| Cmip6.RenameTargetsAreFinal | esmvaltool/interface_scripts/variable_info.py:16-19 | no CMIP6 name in the rename table is itself renamed, so a lookup follows at most one rename |
| Cmip6.IsTable | esmvaltool/interface_scripts/variable_info.py:127-132 | a parsed object is a table exactly when it has both a `variable_entry` and a `Header` key |
| Cmip6.AxisKey | esmvaltool/interface_scripts/variable_info.py:84-86 | a coordinate is stored under its axis, or under "none" when the axis is empty; the key is never empty |
| Cmip6.Resolved | esmvaltool/interface_scripts/variable_info.py:77-82 | a dimension that is one of the table's generic levels resolves to a fresh generic level (axis Z, flagged generic), even when a shared coordinate has the same name; any other resolves to the shared coordinate of that name |
| Cmip6.AssignedCoordinates | esmvaltool/interface_scripts/variable_info.py:75-88 | assigning the dimensions succeeds exactly when every dimension is a generic level or a shared coordinate |
| Cmip6.AssignedFailure | esmvaltool/interface_scripts/variable_info.py:82 | a failed assignment is the KeyError of the first dimension that does not resolve; all the ones before it resolve |
| Cmip6.AssignedKeys | esmvaltool/interface_scripts/variable_info.py:75-88 | after assignment every dimension's axis key is present and no earlier coordinate key is lost |
| Cmip6.AssignedOrigins | esmvaltool/interface_scripts/variable_info.py:75-88 | every assigned entry is either an untouched earlier entry or the resolved coordinate of some dimension, under that dimension's key |
| Cmip6.AssignedLastWins | esmvaltool/interface_scripts/variable_info.py:88 | a dimension's coordinate is the one stored under its key unless a later dimension has the same key |
| Cmip6.AssignedStep | esmvaltool/interface_scripts/variable_info.py:76-88 | one more resolvable dimension adds its coordinate under its key |
| Cmip6.AssignedStopsAt | esmvaltool/interface_scripts/variable_info.py:82 | a dimension that does not resolve, after ones that do, fails the assignment with its name |
| Cmip6.NoneKeyCollision | esmvaltool/interface_scripts/variable_info.py:84-88 | two axis-less dimensions collide under "none" and only the later one is kept |
| Cmip6.BuildVariable | esmvaltool/interface_scripts/variable_info.py:65-72 | a built variable carries its entry name, and its own `frequency` when the entry has one, otherwise the header's (None when the header has none) |
| Cmip6.BuiltVariableResolved | esmvaltool/interface_scripts/variable_info.py:65-73 | a built variable's coordinates all come from its own dimensions under their axis keys, and every dimension resolved |
| Cmip6.TableName | esmvaltool/interface_scripts/variable_info.py:55-56 | the table name is the header's `table_id` without its first six characters; a missing `Header` or `table_id` is an error |
| Cmip6.ReadHeader | esmvaltool/interface_scripts/variable_info.py:55-63 | a header reads only when the table name does, and carries that name |
| Cmip6.ReadHeaderFields | esmvaltool/interface_scripts/variable_info.py:55-65 | the generic levels are the whitespace split of `generic_levels`; the frequency is the header's own or None; the entries are the `variable_entry` object |
| Cmip6.TableIdName | esmvaltool/interface_scripts/variable_info.py:56 | `Table <name>` names the table `<name>` |
| Cmip6.BuiltTable | esmvaltool/interface_scripts/variable_info.py:65-73 | the table holds exactly the `variable_entry` keys, each variable under its own short name |
| Cmip6.FileCoordinates | esmvaltool/interface_scripts/variable_info.py:94-99 | each shared coordinate of a document is named by its `axis_entry` key and is not a generic level |
| Cmip6.AxisEntries | esmvaltool/interface_scripts/variable_info.py:96-99 | each coordinate read from an `axis_entry` object is stored under its own key and is not a generic level; when an entry fails to read, the error is that entry's own read_json error |
| Cmip6.AxisEntriesAre | esmvaltool/interface_scripts/variable_info.py:96-99 | when every entry reads, the coordinates are exactly the entries' keys, each holding what read_json makes of its entry |
| Cmip6.LoadedCoordinatesUnion | esmvaltool/interface_scripts/variable_info.py:90-99 | loading the coordinate documents in turn is the union of what each defines, a later document overriding an earlier one |
| Cmip6.LoadedCoordinates | esmvaltool/interface_scripts/variable_info.py:90-99 | every shared coordinate loaded from the coordinate documents is named by its key and is not a generic level |
| Maps.UnionAllDomain | esmvaltool/interface_scripts/variable_info.py:90-99 | a key is in the union of a sequence of maps exactly when one of the maps has it |
| Maps.UnionAllLastWins | esmvaltool/interface_scripts/variable_info.py:90-99 | a key of the union has the value of the last map that has it |
| Cmip6.LoadedCoordinatesDomain | esmvaltool/interface_scripts/variable_info.py:90-99 | a name is a shared coordinate exactly when some coordinate document defines it |
| Cmip6.LoadedCoordinatesLastWins | esmvaltool/interface_scripts/variable_info.py:90-99 | a shared coordinate is the one of the last document that defines it |
| Cmip6.StoreKeepsResolved | esmvaltool/interface_scripts/variable_info.py:73 | storing a resolved variable under its own name keeps every table resolved |
| Cmip6.TableLoadedOverwrites | esmvaltool/interface_scripts/variable_info.py:57 | emptying the table first does not change what loading it gives: the old table is replaced, not merged |
| Cmip6.EmptyTableKeepsResolved | esmvaltool/interface_scripts/variable_info.py:57 | starting a table afresh keeps every table resolved |
| Cmip6.BuiltTableIs | esmvaltool/interface_scripts/variable_info.py:65-73 | a table holding exactly the built variables of the entries is the built table |
| Cmip6.CMIP6Info.constructor | esmvaltool/interface_scripts/variable_info.py:35 | a new registry has no tables and no coordinates |
| Cmip6.CMIP6Info.GetVariable | esmvaltool/interface_scripts/variable_info.py:101-124 | the exact entry if present; otherwise, for `sic` or `tro3`, what the table holds under `siconc` or `o3`; otherwise None; never fails |
| Cmip6.CMIP6Info.LoadedVariableFound | esmvaltool/interface_scripts/variable_info.py:118-119 | a stored variable is found under its table and short name and carries that name |
| Cmip6.CMIP6Info.RenameIsOneHop | esmvaltool/interface_scripts/variable_info.py:120-123 | a legacy name that is not present answers exactly what its CMIP6 name answers |
| Cmip6.CMIP6Info.AssignDimensions | esmvaltool/interface_scripts/variable_info.py:75-88 | the loop gives the variable with the coordinates AssignedCoordinates specifies, or its error |
| Cmip6.CMIP6Info.LoadCoordinates | esmvaltool/interface_scripts/variable_info.py:90-99 | the shared coordinates are rebuilt from all coordinate documents; fails exactly when one cannot be read |
| Cmip6.CMIP6Info.LoadCoordinateFile | esmvaltool/interface_scripts/variable_info.py:94-99 | one document's coordinates are added over the earlier ones; fails exactly when FileCoordinates does, with the KeyError when `axis_entry` is missing and with an entry's own read_json error when that entry fails |
| Cmip6.CMIP6Info.LoadTable | esmvaltool/interface_scripts/variable_info.py:50-73 | a document without `variable_entry` or `Header` changes nothing; otherwise the named table is replaced by the built table, or an entry that fails to build gives its error |
| Cmip6.CMIP6Info.LoadTables | esmvaltool/interface_scripts/variable_info.py:36-41 | loading the table documents in turn, skipped paths passed over, succeeds exactly when TablesLoaded does and leaves its tables; the first failing document gives the error |
| Cmip6.CMIP6Info.LoadEntries | esmvaltool/interface_scripts/variable_info.py:65-73 | every entry is built and stored in the emptied table, keeping the registry invariant |
| Cmip6.CMIP6Info.LoadEntry | esmvaltool/interface_scripts/variable_info.py:66-73 | one pass of the loop: on success the entry's built variable is stored under its name in the header's table and nothing else changes; on failure nothing changes and the error is the build error |
| Cmip6.CMIP6Info.ReadTableVariable | esmvaltool/interface_scripts/variable_info.py:66-72 | one entry is built as BuildVariable specifies |
| Cmip6.TableDocLoaded | esmvaltool/interface_scripts/variable_info.py:50-73 | a document that is not a table leaves the tables as they are; a table loads exactly when its header reads and every entry builds, and then adds or replaces the table of its name only, which holds exactly the header's entries |
| Cmip6.TablesLoaded | esmvaltool/interface_scripts/variable_info.py:36-41 | loading the table documents in turn, skipped paths passed over, defines exactly the table names the remaining table documents name |
| Cmip6.TablesLoadedFailStays | esmvaltool/interface_scripts/variable_info.py:37-41 | once a table document fails, loading the later ones does not undo the failure |
| Cmip6.Open | esmvaltool/interface_scripts/variable_info.py:21-41 | succeeds exactly when every coordinate document reads and every table document outside `CV_test`/`grids` paths loads; then the coordinates are those of the coordinate documents and the tables are TablesLoaded's, a later document's table replacing an earlier one of the same name |
| JsonData.Render | esmvaltool/interface_scripts/variable_info.py:159 | str() of a text is the text itself; str() of a nested object is not modelled |
| JsonData.Contains | esmvaltool/interface_scripts/variable_info.py:128-130 | for an object, `in` holds exactly when indexing with the key succeeds |
| JsonData.ReadJsonVariable | esmvaltool/interface_scripts/variable_info.py:143-159 | "" when the parameter is absent; the text when it holds one; a TypeError when the record is not an object but `in` finds the parameter |
| JsonData.ReadJsonListVariable | esmvaltool/interface_scripts/variable_info.py:161-177 | the empty list when the parameter is absent, otherwise the raw value |
| Descriptors.NewCoordinate | esmvaltool/interface_scripts/variable_info.py:233-256 | a new coordinate has its name, no generic flag, an empty axis and nothing requested |
| Descriptors.GenericLevel | esmvaltool/interface_scripts/variable_info.py:78-80 | a generic-level placeholder is a new coordinate with the generic flag set and axis Z |
| Descriptors.NewVariable | esmvaltool/interface_scripts/variable_info.py:181-206 | a new variable has its short name, an empty frequency, no dimensions, no coordinates, and is not derived |
| Descriptors.NewDescriptorsAreEmpty | esmvaltool/interface_scripts/variable_info.py:181-256 | every text attribute of a new descriptor other than its name is empty |
| Descriptors.AttrNamed | esmvaltool/interface_scripts/variable_info.py:390-391 | `hasattr` for text attributes: a key names an attribute only under its own name |
| Descriptors.AttrNamedName | esmvaltool/interface_scripts/variable_info.py:378-379 | every text attribute is found under its own name |
| Descriptors.VariableText | esmvaltool/interface_scripts/variable_info.py:191-198 | `getattr` is defined exactly for the text attributes of VariableInfo |
| Descriptors.SetVariableTextReads | esmvaltool/interface_scripts/variable_info.py:390-391 | `setattr` of one text attribute is seen by that attribute and by no other attribute or field |
| Descriptors.CoordinateText | esmvaltool/interface_scripts/variable_info.py:243-256 | `getattr` is defined exactly for the text attributes of CoordinateInfo |
| Descriptors.SetCoordinateTextReads | esmvaltool/interface_scripts/variable_info.py:378-379 | `setattr` of one text attribute is seen by that attribute and by no other; the generic flag and `requested` are kept |
| Descriptors.ReadVariableJson | esmvaltool/interface_scripts/variable_info.py:208-229 | read_json keeps the short name, the frequency, the coordinates and the derived fields |
| Descriptors.VariableFieldsReadableAttrs | esmvaltool/interface_scripts/variable_info.py:222-229 | the fields read are the text attributes other than the short name, then `dimensions` |
| Descriptors.ReadVariableJsonOk | esmvaltool/interface_scripts/variable_info.py:222-229 | read_json succeeds exactly when every field it reads can be read |
| Descriptors.ReadVariableJsonValue | esmvaltool/interface_scripts/variable_info.py:222-227 | each text attribute other than the name holds what was read for it |
| Descriptors.ReadVariableJsonValues | esmvaltool/interface_scripts/variable_info.py:207-229 | what read_json does: every text attribute but the short name holds what `_read_json_variable` gives for the record, and the dimensions are the words of `dimensions` |
| Descriptors.ReadVariableJsonEmpty | esmvaltool/interface_scripts/variable_info.py:208-229 | a record with none of the fields gives all-empty texts and no dimensions |
| Descriptors.ReadCoordinateJson | esmvaltool/interface_scripts/variable_info.py:258-282 | read_json keeps the coordinate's name and generic flag |
| Descriptors.CoordinateFieldsReadableAttrs | esmvaltool/interface_scripts/variable_info.py:272-282 | the fields read are the text attributes other than the name, then `requested` |
| Descriptors.ReadCoordinateJsonOk | esmvaltool/interface_scripts/variable_info.py:272-282 | read_json succeeds exactly when every field it reads can be read |
| Descriptors.ReadCoordinateJsonValue | esmvaltool/interface_scripts/variable_info.py:272-281 | each text attribute other than the name holds what was read for it |
| Descriptors.ReadCoordinateJsonValues | esmvaltool/interface_scripts/variable_info.py:258-282 | what read_json does: every text attribute but the name holds what `_read_json_variable` gives for the record, and `requested` is the raw list `_read_json_list_variable` gives |
| Text.Strip | esmvaltool/interface_scripts/variable_info.py:360 | strip() leaves no whitespace at either end and adds nothing |
| Text.StripPadded | esmvaltool/interface_scripts/variable_info.py:365-366 | stripping a stripped text padded with whitespace gives the text back |
| Text.SliceFrom | esmvaltool/interface_scripts/variable_info.py:328 | `value[n:]` is what follows the first n characters, or "" for a shorter text |
| Text.IndexOf | esmvaltool/interface_scripts/variable_info.py:359 | `index` is the position of the first occurrence |
| Text.RemoveAll | esmvaltool/interface_scripts/variable_info.py:357 | `replace(c, '')` removes every `c` and keeps every other character |
| Text.SplitWhitespace | esmvaltool/interface_scripts/variable_info.py:229 | `split()` gives whitespace-free, non-empty words |
| Text.SplitWhitespaceJoin | esmvaltool/interface_scripts/variable_info.py:229 | words joined by single spaces split back into the same words |
| Text.SplitWhitespaceSpaced | esmvaltool/interface_scripts/variable_info.py:59 | words laid out with any whitespace before, after and between them (at least one character between two words) split back into the same words: `split()` drops whitespace at the ends and takes any run of it as one separator |
| Text.SplitOn | esmvaltool/interface_scripts/variable_info.py:388 | `split(' ')` gives at least one piece and no piece holds a space |
| Text.JoinSplitOn | esmvaltool/interface_scripts/variable_info.py:376 | the pieces of `split(' ')` joined with spaces give the text back |
| Text.SplitOnJoin | esmvaltool/interface_scripts/variable_info.py:333 | space-free pieces joined with spaces split back into the same pieces, empty ones included |
| Cmip5Lines.Clean | esmvaltool/interface_scripts/variable_info.py:357-360 | the cleaned line has no line terminator, no `!`, and no surrounding whitespace |
| Cmip5Lines.SplitLine | esmvaltool/interface_scripts/variable_info.py:357-366 | a blank line gives `('', '')`; a non-blank line without `:` is an error; otherwise key and value are stripped and the key has no `:` |
| Cmip5Lines.SplitLineClean | esmvaltool/interface_scripts/variable_info.py:357-366 | neither side of a pair holds a `!` or a line terminator |
| Cmip5Lines.SplitLineSameClean | esmvaltool/interface_scripts/variable_info.py:357-366 | the pair depends on the line only through its cleaned text |
| Cmip5Lines.SplitLineAt | esmvaltool/interface_scripts/variable_info.py:364-366 | wherever the first `:` of the cleaned text is, the line splits there into the stripped text before it and the stripped text after it (so `units : K` gives (`units`, `K`)) |
| Cmip5Lines.CleanPairLine | esmvaltool/interface_scripts/variable_info.py:357-360 | the cleaned text of `key: value` |
| Cmip5Lines.SplitLineRoundTrip | esmvaltool/interface_scripts/variable_info.py:364-366 | a pair written as `key: value` reads back as the same pair |
| Cmip5Lines.CleanComment | esmvaltool/interface_scripts/variable_info.py:358-359 | everything from the first `!` on is dropped |
| Cmip5Lines.SplitLineComment | esmvaltool/interface_scripts/variable_info.py:358-359 | a trailing comment does not change what the line reads as |
| Cmip5Lines.SplitLineBlank | esmvaltool/interface_scripts/variable_info.py:361-362 | a whitespace-only line reads as `('', '')` |
| Cmip5Lines.FirstContent | esmvaltool/interface_scripts/variable_info.py:355-356 | the first line from the cursor that is not a comment; everything skipped is a comment |
| Cmip5Lines.NextLine | esmvaltool/interface_scripts/variable_info.py:351-367 | end of file exactly when only comment lines are left; otherwise the comment lines are skipped and the next line is split |
| Cmip5Lines.NextLineSkipsComment | esmvaltool/interface_scripts/variable_info.py:355-356 | reading from a comment line reads from the line after it |
| Cmip5.SetCoordinateField | esmvaltool/interface_scripts/variable_info.py:375-379 | in the model, one record line never sets the generic flag |
| Cmip5.SetVariableField | esmvaltool/interface_scripts/variable_info.py:387-391 | in the model, one record line never sets the coordinates |
| Cmip5.ScanCoordinate | esmvaltool/interface_scripts/variable_info.py:369-379 | the record ends at a header, which is left as the last pair read, or at the end of the file |
| Cmip5.ScanVariable | esmvaltool/interface_scripts/variable_info.py:381-392 | the record ends at a header, which is left as the last pair read, or at the end of the file; the coordinates are untouched |
| Cmip5.FirstHeader | esmvaltool/interface_scripts/variable_info.py:373-374 | the position of the first `variable_entry` or `axis_entry` pair |
| Cmip5.ScanCoordinateFold | esmvaltool/interface_scripts/variable_info.py:369-379 | an axis record applies its lines up to the first header, in order, without consuming the header |
| Cmip5.ScanVariableFold | esmvaltool/interface_scripts/variable_info.py:381-392 | a variable record applies its lines up to the first header, in order, without consuming the header |
| Cmip5.SetVariableFieldText | esmvaltool/interface_scripts/variable_info.py:390-391 | a line sets a text attribute exactly when its key names that attribute |
| Cmip5.SetCoordinateFieldText | esmvaltool/interface_scripts/variable_info.py:378-379 | a line sets a text attribute exactly when its key names that attribute |
| Cmip5.ApplyVariableText | esmvaltool/interface_scripts/variable_info.py:383-391 | each text attribute holds the value of the last line naming it, or keeps its old value |
| Cmip5.ApplyVariableDimensions | esmvaltool/interface_scripts/variable_info.py:387-389 | the last `dimensions` line wins, split at single spaces |
| Cmip5.ApplyVariableFrequency | esmvaltool/interface_scripts/variable_info.py:390-391 | the last `frequency` line sets the record's frequency; in the model no line sets the coordinates |
| Cmip5.ApplyCoordinateText | esmvaltool/interface_scripts/variable_info.py:371-379 | each text attribute holds the value of the last line naming it, or keeps its old value |
| Cmip5.ApplyCoordinateRequested | esmvaltool/interface_scripts/variable_info.py:375-377 | the last `requested` line wins, split at single spaces; in the model the generic flag is never set |
| Cmip5.UnknownKeyKeepsVariable | esmvaltool/interface_scripts/variable_info.py:390-391 | a key VariableInfo has no attribute for changes nothing |
| Cmip5.UnknownKeyKeepsCoordinate | esmvaltool/interface_scripts/variable_info.py:378-379 | a key CoordinateInfo has no attribute for changes nothing |
| Cmip5.GenericLevels | esmvaltool/interface_scripts/variable_info.py:332-337 | one placeholder coordinate for each name of the line, and no other |
| Cmip5.LinkCoordinates | esmvaltool/interface_scripts/variable_info.py:344-345 | linking succeeds exactly when every dimension has a shared coordinate |
| Cmip5.LinkedCoordinates | esmvaltool/interface_scripts/variable_info.py:344-345 | each dimension is linked to its shared coordinate under its own name, and other entries are kept |
| Cmip5.LinkCoordinatesFails | esmvaltool/interface_scripts/variable_info.py:345 | the KeyError names the first dimension without a shared coordinate |
| Cmip5.Advance | esmvaltool/interface_scripts/variable_info.py:348-349 | reading on leaves what is loaded as it is |
| Cmip5.StoreVariable | esmvaltool/interface_scripts/variable_info.py:341-346 | a stored variable is in the current table; the table names, the coordinates, the current table and its frequency are unchanged |
| Cmip5.Dispatch | esmvaltool/interface_scripts/variable_info.py:326-349 | a pass that goes on has read further into the file; no table and no shared coordinate name is ever removed |
| Cmip5.LoadFrom | esmvaltool/interface_scripts/variable_info.py:325-349 | the loop, run until it returns, removes no table and no shared coordinate name |
| Cmip5.StoreVariableFails | esmvaltool/interface_scripts/variable_info.py:343-346 | storing fails exactly when a dimension has no shared coordinate (checked first) or no table is current |
| Cmip5.StoreVariableStores | esmvaltool/interface_scripts/variable_info.py:343-346 | the variable is stored in the current table with the table's frequency, its other fields, and its dimensions linked; nothing else changes |
| Cmip5.DispatchTableId | esmvaltool/interface_scripts/variable_info.py:327-329 | `table_id: Table <name>` makes `<name>` the current table and empties it |
| Cmip5.DispatchGenericLevels | esmvaltool/interface_scripts/variable_info.py:332-337 | each name of the line becomes a shared coordinate, flagged generic with axis Z; nothing else changes |
| Cmip5.DispatchAxis | esmvaltool/interface_scripts/variable_info.py:338-340 | the coordinate is stored under the entry's value, None when its record reaches the end of the file; the loop goes on with the last pair read, and stops only after an empty record at the end of the file |
| Cmip5.DispatchVariable | esmvaltool/interface_scripts/variable_info.py:341-347 | the variable is stored in the current table with the table's frequency; the loop goes on with the last pair read, and stops only after an empty record at the end of the file |
| Cmip5.DispatchOther | esmvaltool/interface_scripts/variable_info.py:330-331 | `frequency` sets the table frequency; any other key changes nothing |
| Cmip5.CommentFileLoadsNothing | esmvaltool/interface_scripts/variable_info.py:323-326 | corrected: a file of comment lines only loads nothing |
| Cmip5.LoadedTable | esmvaltool/interface_scripts/variable_info.py:318-349 | loading one file adds to the registry and removes no table and no shared coordinate name |
| Cmip5.LoadedTables | esmvaltool/interface_scripts/variable_info.py:305-309 | loading the files in turn removes no table and no shared coordinate name |
| Cmip5.CMIP5Info.constructor | esmvaltool/interface_scripts/variable_info.py:303-304 | a new registry has no tables and no coordinates |
| Cmip5.CMIP5Info.ReadLine | esmvaltool/interface_scripts/variable_info.py:351-367 | reads as NextLine says, remembering the pair read; `False` at the end of the file |
| Cmip5.CMIP5Info.ReadCoordinate | esmvaltool/interface_scripts/variable_info.py:369-379 | the record's coordinate as ScanCoordinate specifies, or None at the end of the file |
| Cmip5.CMIP5Info.ReadVariable | esmvaltool/interface_scripts/variable_info.py:381-392 | the record's variable as ScanVariable specifies, and whether it ended at a header |
| Cmip5.CMIP5Info.AddGenericLevels | esmvaltool/interface_scripts/variable_info.py:333-337 | the generic levels are added over the shared coordinates |
| Cmip5.CMIP5Info.LinkDimensions | esmvaltool/interface_scripts/variable_info.py:344-345 | the loop links as LinkCoordinates specifies |
| Cmip5.CMIP5Info.DispatchLine | esmvaltool/interface_scripts/variable_info.py:326-347 | one pass of the loop does what Dispatch specifies |
| Cmip5.CMIP5Info.LoadTable | esmvaltool/interface_scripts/variable_info.py:318-349 | loading a file gives the registry LoadedTable specifies, or its error |
| Cmip5.CMIP5Info.GetVariable | esmvaltool/interface_scripts/variable_info.py:394-414 | the variable of that table and short name, None exactly when there is none, with no rename |
| Cmip5.Open | esmvaltool/interface_scripts/variable_info.py:286-309 | every file but `_grids` ones is loaded in order; the first failure fails the whole |
| Cmip5AsWritten.StoreVariableAgain | esmvaltool/interface_scripts/variable_info.py:341-346 | storing the same record twice is storing it once |
| Cmip5AsWritten.FixedPointRunsForever | esmvaltool/interface_scripts/variable_info.py:325-347 | a loop state that one pass leaves unchanged is never left |
| Cmip5AsWritten.TrailingHeaderRepeats | esmvaltool/interface_scripts/variable_info.py:338-347 | as written, a record header followed only by comments is handled again and again without change |
| Cmip5AsWritten.TrailingEntryLoopsForever | esmvaltool/interface_scripts/variable_info.py:318-349 | as written, the two-line table `table_id: Table Amon`, `variable_entry: tas` never finishes loading |
| Cmip5AsWritten.TrailingEntryLoads | esmvaltool/interface_scripts/variable_info.py:318-349 | corrected, the same table loads table Amon with the variable tas |
| Cmip5AsWritten.CorrectedStepAgrees | esmvaltool/interface_scripts/variable_info.py:325-349 | except when the last pair is a record header with nothing after it, a pass of the corrected loop does exactly what the pass as written does |
| Cmip5AsWritten.CorrectedStopsAtEmptyTrailing | esmvaltool/interface_scripts/variable_info.py:338-347 | in that one case the corrected loop ends the load |
| Cmip5AsWritten.CommentFileAsWritten | esmvaltool/interface_scripts/variable_info.py:323-326 | as written, a comment-only first file fails (AttributeError); a later one goes back to the previous file's last pair |

## Left out

- Directory listing, `glob`, `open`, `json.loads` and the `OSError` for a missing
  tables folder are left out. They are file-system and parser I/O; the model takes the
  files' lines or parsed documents instead. The order of the files is whatever the
  caller gives, as `glob` gives no order.
- `_get_cmor_path`, which defaults the path to the package folder, is left out: it is
  file-system I/O.
- JSON numbers, booleans and null are not modelled, and neither is `str()` of a nested
  object or Python's repr escaping inside a list. The value type has only texts,
  lists of texts and objects.
- CMIP5 `setattr` is modelled for the text attributes only. A record line whose key
  names some other attribute is treated as an unknown key: `generic_level`,
  `coordinates`, `derived`, `required_vars`, `read_json` or a dunder name.
- Cmip5.SetCoordinateField: never sets `generic_level`, although `setattr` in the source
  does so for a `generic_level:` line; only text attributes are modelled.
- Cmip5.SetVariableField: never sets `coordinates`, although `setattr` in the source
  does so for a `coordinates:` line; only text attributes are modelled.
- Cmip5.ApplyCoordinateRequested: its "the generic flag is never set" holds only because
  the `setattr` of `generic_level` is not modelled.
- Cmip5.ApplyVariableFrequency: its "no line sets the coordinates" holds only because
  the `setattr` of `coordinates` is not modelled.
- JSON objects are maps, so their key order is not modelled. When several variable or
  axis entries fail, the model reports one of their errors, not necessarily the first
  in the document's order.
- Cmip5.CMIP5Info.LoadTable: does not state the registry after a failed load. The
  exception aborts `CMIP5Info(...)` and leaves no registry behind.
- Cmip5.CMIP5Info.ReadVariable: also returns whether the record ended at a header.
  The corrected loop needs this flag to tell an empty record at the end of the file
  from a record that ends at a header on the last line.
- Universal-newline translation is left out. The lines are taken as `readline` returns
  them, and only `\n` is removed.

## Findings

| source | as written | input that shows it | evidently intended | confidence | as-written member | corrected member |
|---|---|---|---|---|---|---|
| esmvaltool/interface_scripts/variable_info.py:338-347 | After an `axis_entry` or `variable_entry` record, the loop always `continue`s with the last pair read. When the record is empty and ends the file, that pair is the record's own header, so the same empty record is handled again forever. | a table file of the two lines `table_id: Table Amon` and `variable_entry: tas` | loading ends after an empty record at the end of the file; in every other case the loop is unchanged (Cmip5AsWritten.CorrectedStepAgrees) | not executed | Cmip5AsWritten.TrailingEntryLoopsForever | Cmip5AsWritten.TrailingEntryLoads |
| esmvaltool/interface_scripts/variable_info.py:323-326 | The result of the first `_read_line()` is not looked at. An empty or comment-only first file raises AttributeError on `self._last_line_read`; a later one handles the previous file's last pair again. | an empty first table file | a file with nothing to read loads nothing | not executed | Cmip5AsWritten.CommentFileAsWritten | Cmip5.CommentFileLoadsNothing |
