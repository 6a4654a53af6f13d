# dynflow-utils: a Dafny model of the two CSV tools

This project models the core of the two Go command-line tools of
dynflow-utils and proves properties of the model.

- **escape-csv** (`cmd/escape-csv/main.go`) cuts a text line into cells. A cell
  that starts with `{` or `[` is a *complex* field. It ends where a stack of
  open brackets becomes empty, and a comma or the end of the line must follow
  it. Every other cell is a *simple* field that runs to the next comma. A line
  with a malformed complex field is dropped.
- **expand** (`cmd/expand/main.go`) rewrites fixed columns of `action`, `step`
  and `execution_plan` rows. Each such column is decoded and written back as
  JSON text. A value starting with `\x` is hex text that holds msgpack; any
  other value is JSON text. Flow columns of execution plans are expanded
  from the compact notation (`["S"|"C", …]` or a number) into a
  `{class, flows}` or `{class, step_id}` map.

Files:

- `wrappers.dfy`: `Option` and `Result`.
- `escape_csv.dfy`: module `EscapeCsv`, the splitter.
  - `ReadComplexField` is the bracket-stack loop. It is proved equal to `ComplexField`, which is defined from `StackAt`, the stack after the first n characters.
  - `ProcessLine` is the cell loop. It is proved equal to `Cells`.
- `hex.dfy`: module `Hex`, the behaviour of Go's `hex.DecodeString` that line 22 of `cmd/expand/main.go` relies on.
- `expand.dfy`: module `Expand`, covering detection, decode, encode, `reencode_field`, `expand_compact_flow` (a method with its loop, specified by `CompactFlow`) and `expand_flow`.
- `expand_records.dfy`: module `ExpandRecords`, covering the in-place column rewrites on `array<string>`, the layout probe of execution plans and the record-type selector of `main`.

The JSON and msgpack libraries are not modelled. They are a parameter: a `Codec` holds `jsonDecode`, `msgpackDecode` and `jsonEncode` as functions. The model only relies on the results they return, and a `None` result stands for a returned error. Go panics become a `Failure` value that propagates.

Where the source's comments and its code disagree, the model follows the code:

- `for i := range encoded_step_columns` and `for i := range encoded_action_columns` (lines 110 and 126 of `cmd/expand/main.go`) bind the index. Steps and actions therefore have columns 0, 1 and 2 rewritten, not the columns 3/12/14 and 2/6/7 that the comments list.
- `for subflow := range flow.([]interface{})[1:]` (line 68) binds the index too. The k-th child of a compact flow therefore becomes the atom with step id k, and nested flows are never expanded. `NestedFlowExample` shows this for `["S", 1, ["C", 2, 3]]`.

## Model

| member | source | states |
|---|---|---|
| `EscapeCsv.ReadSimpleField` | cmd/escape-csv/main.go:13-22 | with a comma: status nil, the field holds no comma and `line == field + "," + rest`; without one: the whole line, rest "" and EOF |
| `EscapeCsv.FirstComma` | cmd/escape-csv/main.go:14 | the position SplitN cuts at is the first comma: the character there is a comma and none comes before it; None exactly when the line has no comma |
| `EscapeCsv.BracketStep` | cmd/escape-csv/main.go:33-37 | an opener is pushed; `}` on a `{` and `]` on a `[` pop the top; every other character, a mismatched closer included, leaves the stack unchanged |
| `EscapeCsv.FirstBalanced` | cmd/escape-csv/main.go:29-48 | the scan finds the shortest prefix whose bracket stack is empty, or reports that none empties it |
| `EscapeCsv.ComplexField` | cmd/escape-csv/main.go:25-51 | never EOF; on success the field has at least two characters and either is the whole line with rest "" (status nil, not EOF) or `line == field + "," + rest`; on failure "unbalanced parentheses" with empty field and rest |
| `EscapeCsv.ComplexFieldIsShortestBalancedPrefix` | cmd/escape-csv/main.go:29-50 | on success the field is the shortest prefix whose stack is empty; the read fails exactly when the stack never empties or a character other than a comma follows the closing bracket |
| `EscapeCsv.ReadComplexField` | cmd/escape-csv/main.go:25-51 | the stack loop, with the stack seeded by `line[0]` and non-empty at every loop head, returns exactly `ComplexField(line)` |
| `EscapeCsv.NextField` | cmd/escape-csv/main.go:53-62 | `readField("")` is `("", "", EOF)`; a successful read leaves a strictly shorter rest; only a complex field can fail, and only with "unbalanced parentheses" |
| `EscapeCsv.ReadField` | cmd/escape-csv/main.go:53-62 | the executable twin of `NextField`, kept as a method because it calls the `ReadComplexField` loop: it returns exactly `NextField(line)` |
| `EscapeCsv.Cells` | cmd/escape-csv/main.go:64-80 | an empty line gives the one-cell row `[""]`; every written row has at least one cell |
| `EscapeCsv.ProcessLine` | cmd/escape-csv/main.go:64-80 | the loop terminates (the rest shrinks); it writes the cells left to right, and nothing when a read fails; the result is `Cells(line)` |
| `EscapeCsv.ComplexLineGetsEmptyTrailingCell` | cmd/escape-csv/main.go:38-43 | a line that is one complex field gives the cells `[line, ""]`, because `readField("")` appends an empty cell |
| `EscapeCsv.ComplexFieldThenRest` | cmd/escape-csv/main.go:42-43 | a complex field followed by a comma contributes only itself, and the rest is split on its own; a failing rest drops the whole line, this field included |
| `EscapeCsv.TrailingComplexFieldExample` | cmd/escape-csv/main.go:69-72 | `{"a":1}` gives the cells `{"a":1}` and "" |
| `EscapeCsv.UnclosedFieldExample` | cmd/escape-csv/main.go:74-77 | `{"a":1` is dropped: nothing is written |
| `EscapeCsv.AllSimpleLineRoundTrip` | cmd/escape-csv/main.go:64-80 | when no segment starts with `{` or `[`, the row has one cell more than the line has commas, and joining the cells with "," gives back the line |
| `Hex.DecodeString` | cmd/expand/main.go:22 | succeeds exactly on an even number of hex digits; byte k is then `16*d(s[2k]) + d(s[2k+1])`; an odd-length error implies an odd length |
| `Expand.IsHexEncoded` | cmd/expand/main.go:13-15 | definition (its ensures spells out the prefix test character by character): true exactly when the value has at least two characters and starts with a backslash followed by `x`; what routing it causes is proved in `Decode` |
| `Expand.Decode` | cmd/expand/main.go:17-38 | a hex value fails with a hex error exactly when the text after `\x` is not hex; otherwise it is the msgpack decoding of those bytes, and a msgpack error on failure; any other value is the JSON decoding of the string, and a JSON error on failure |
| `Expand.Encode` | cmd/expand/main.go:40-46 | definition (a wrapper around the encoder): the JSON encoding, or a JSON encoding error exactly when the encoder reports one |
| `Expand.ReencodeField` | cmd/expand/main.go:48-53 | "" passes through undecoded; any other value succeeds exactly when it decodes and its value encodes, and is then that encoding; a decode failure propagates |
| `Expand.ReencodeIdempotent` | cmd/expand/main.go:48-53 | given a JSON library that reads back what it writes, re-encoding an already re-encoded column changes nothing |
| `Expand.CompactFlow` | cmd/expand/main.go:55-79 | succeeds exactly on a number or on an array whose first element is "S" or "C", and then yields a verbose flow; an empty array fails on indexing; every other shape is an unknown flow type |
| `Expand.CompactArrayFlow` | cmd/expand/main.go:59-71 | "S" and "C" select the Sequence and Concurrence classes; `flows` has one entry per subflow and entry k is `Atom{step_id: k}`; with no subflows `flows` is null (a nil slice) |
| `Expand.CompactNumberFlow` | cmd/expand/main.go:72-74 | a number n becomes exactly `{class: Dynflow::Flows::Atom, step_id: n}` |
| `Expand.CompactFlowIgnoresSubflows` | cmd/expand/main.go:68-70 | the subflows are never read: arrays with the same tag and equally many subflows expand alike |
| `Expand.NestedFlowExample` | cmd/expand/main.go:67-71 | `["S", 1, ["C", 2, 3]]` becomes a Sequence of the atoms 0 and 1 |
| `Expand.ExpandCompactFlow` | cmd/expand/main.go:55-79 | the map-filling method with its subflow loop (and its call on each index) returns exactly `CompactFlow(flow)` |
| `Expand.FlowColumn` | cmd/expand/main.go:81-98 | "" passes through; decode failures propagate; a decoded map comes out as `reencode_field` gives it; a decoded string, bool or null gives the encoding of a nil map, which is `null` without failure for an encoder that marshals a nil map as json.Marshal does (`MarshalsNilAsNull`); an array or number comes out as the encoding of its verbose flow (`CompactFlow`), and as that expansion's failure when it fails; only a decoded array can fail as an unknown flow |
| `Expand.ExpandFlow` | cmd/expand/main.go:81-98 | the executable twin of `FlowColumn`, kept as a method because it calls the `ExpandCompactFlow` method: it returns exactly `FlowColumn(c, field)` |
| `ExpandRecords.Rewrite` | cmd/expand/main.go:166-171 | rewriting listed columns keeps the row length and every other column; with distinct columns it succeeds exactly when every column exists and rewrites, and each then holds its rewrite |
| `ExpandRecords.ReencodeColumns` | cmd/expand/main.go:166-168 | the in-place loop leaves the array equal to the `Rewrite` result, or reports its failure |
| `ExpandRecords.ExpandFlowColumns` | cmd/expand/main.go:169-171 | the in-place loop with `expand_flow` leaves the array equal to the `Rewrite` result, or reports its failure |
| `ExpandRecords.RangeIndices` | cmd/expand/main.go:110 | definition of what a one-variable `range` binds: the indices 0..n-1 in order (for the three-element arrays, 0, 1 and 2); the consequence for the rewritten columns is proved in `StepAndActionColumns` |
| `ExpandRecords.StepAndActionColumns` | cmd/expand/main.go:100-130 | steps and actions are rewritten alike; the rewrite succeeds exactly when the row has at least 3 columns and columns 0-2 re-encode; then the length is kept, columns 0-2 hold their re-encodings and all other columns are unchanged |
| `ExpandRecords.ExpandStep` | cmd/expand/main.go:102-114 | rewrites the array in place to `StepRecord` of its old contents, or reports the failure |
| `ExpandRecords.ExpandAction` | cmd/expand/main.go:118-130 | rewrites the array in place to `ActionRecord` of its old contents, or reports the failure |
| `ExpandRecords.PlanLayout` | cmd/expand/main.go:154-164 | a hex-encoded column 14 selects re-encode {1,13,14} and flows {11,12}; otherwise {1,12,14} and {10,11}; the two sets are disjoint and within the 15 columns |
| `ExpandRecords.ExecutionPlanColumns` | cmd/expand/main.go:132-173 | with the layout taken from column 14 before any rewrite: success exactly when every encoded column re-encodes and every flow column expands; the length is kept, encoded and flow columns hold the rewrites of their original text, all other columns are unchanged |
| `ExpandRecords.ExpandExecutionPlan` | cmd/expand/main.go:132-173 | the probe and the two in-place loops leave the array equal to `ExecutionPlanRecord` of its old contents, or report the failure (also for a row without column 14) |
| `ExpandRecords.SelectRecordType` | cmd/expand/main.go:176-193 | succeeds exactly on one argument equal to "action", "step" or "execution_plan", picking the type of that name; a wrong argument count or an unknown token is a usage error |
| `ExpandRecords.SelectByName` | cmd/expand/main.go:183-189 | each record type is selected by its own name |
| `ExpandRecords.ExpandRecord` | cmd/expand/main.go:205 | the selected expansion function rewrites the array to `ExpandedRecord` of its old contents |
| `ExpandRecords.EmptyColumnsPassThrough` | cmd/expand/main.go:48-53 | for every record type and every column, an empty column stays empty in a successful rewrite |

## Left out

- Both `main` loops are not modelled. This covers reading stdin (`bufio.ReadString`, `csv.Reader`), `strings.TrimSpace`, the line counter, stderr messages, `os.Exit`, `csv.Writer` quoting and `Flush`. `ProcessLine` returns the row it would write, or None for a skipped line; `ExpandRecord` handles one record.
- The JSON and msgpack libraries are a `Codec` parameter. Their text layout, map key order and number formatting are not modelled. No round trip of theirs is asserted; `ReencodeIdempotent` takes one as a hypothesis.
- All numbers are one `Num(int)` constructor, so floating point is not modelled. Go decides by the dynamic type: line 72 matches `float64` or `int`, while line 94 matches `float64` only. JSON numbers are `float64`, so both lines take them. A msgpack integer can come back as `int` (taken at line 72 but not at line 94) or as another integer type (taken by neither). The model collapses them: every decoded number counts as a number there.
- Expand.FlowColumn: promises `null` for a decoded string, bool or null only for an encoder that satisfies `MarshalsNilAsNull`, because the encoder is a parameter and json.Marshal's behaviour on a nil map is not modelled otherwise.
- Any decoded map is an `Obj`. Whether msgpack returns `map[string]interface{}`, the only type line 90 matches, is not modelled.
- Go panics and process termination are a `Failure` result. A row that is too short for its indices, which makes Go panic, is `IndexOutOfRange`. After a failure the methods say nothing about the array, since the process would abort.
- Hex.DecodeString: on an invalid character it reports the character, where Go reports the first byte of its UTF-8 encoding. Lines are sequences of characters, not bytes; the splitter only inspects `{ } [ ] ,`.
