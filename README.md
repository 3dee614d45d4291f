# udp-csv-server in Dafny

A model of the sequential core of `udp-csv-server`, a small Rust program that
collects accelerometer-style readings from several devices over UDP into a
column-oriented CSV buffer, saves the buffer as `output.csv`, and in its
`aggregate` mode resamples that file onto the timestamps of one reference
device and writes `output_aggregated.csv`.

The model has five modules:

- `Text` (`text.dfy`): the pieces of Rust's string library the program
  relies on, on `seq<char>`.
  - `str::split`, as a leftmost, non-overlapping match.
  - `str::replace`, as a join of the same split, the way the library builds it.
  - `str::trim`, using the Unicode White_Space characters.
  - Parsing a `u8` (an optional `+`, then decimal digits, value at most 255) and printing a `u8`.
- `Parser` (`parser.dfy`): the datagram parser, `parse_sensordata` and
  `parse_sensor_batch`.
- `Registry` (`registry.dfy`): the parts of `main` that build the buffer.
  - The parser for the device-declaration line.
  - The initial five-column layout per device, in an arbitrary enumeration
    order (the `HashMap` iteration order).
  - The per-batch append. The buffer is the class `Buffer`, which owns the
    columns and the device map and keeps the layout invariant `Valid()`.
- `Table` (`table.dfy`): the serializer `save_file`.
- `Aggregate` (`aggregate.dfy`): the resampling engine `aggregate`, in five steps.
  - Loading the file into compacted columns.
  - Choosing the reference block with the strictly smallest time span.
  - The midpoint windows.
  - The scan with its early `break`, the means and the carry-forward.
  - The header rewrite and the output text. The output grid is an
    `array2<real>` filled in place, as `target_csv` is.

The floating-point parse `str::parse::<f64>` is the parameter
`parse: string -> Option<real>`. The printer `format!("{}", …)` for `f64` is
the parameter `fmt: real -> string`. Numbers are exact reals, so midpoints and
means are exact.

Panics of the Rust program are preconditions: a `requires` on the operation
says what must hold for the program not to panic. There are two exceptions:

- The device-declaration line parser returns a `Result` naming the failing part.
- Appending a batch that names an undeclared device returns `false`. The
  pushes made before the offending reading stay in the buffer, as they do in
  the program before it panics.

`parse_sensor_batch` never panics. Its `Option` result is modelled as an
`Option`, `None` in exactly the cases where the Rust function returns `None`.

The cells of the buffer the server builds hold no comma and no newline when
no device name and no printed number holds one (`Registry.HeadersFree`,
`Registry.AppendedFree`; names never hold a comma, `Registry.DeclaredNamesFree`).
Those are the conditions under which the serializer's rows split back into
their cells (`Table.RowFields`, `Table.RenderLines`).

Three behaviours of the Rust program are modelled as the code has them:

- Carry-forward happens only from reference row 3 on (`row_target > 2`).
- The output grid has as many rows as the reference column has cells,
  header included, so its last row is never written and stays zero.
- The header rewrite removes every non-overlapping `,Time (s),`.

## Model

| member | source | states |
|---|---|---|
| Text.Trim | src/main.rs:29-32 | definition of `str::trim`: the leading and then the trailing Unicode whitespace removed |
| Text.TrimSpec | src/main.rs:29-32 | `trim` keeps a middle part whose ends are not whitespace and removes only whitespace on both sides |
| Text.TrimPadded | src/main.rs:29-32 | whitespace added on either side of a field does not change its trimmed form |
| Text.TrimIdempotent | src/main.rs:29-32 | trimming twice is trimming once |
| Text.TrimFree | src/main.rs:229 | trimming brings in no character the text does not have |
| Text.SplitOn | src/main.rs:38 | definition of `str::split`: the pieces between the leftmost non-overlapping matches of the pattern, in order |
| Text.FindFromSpec | src/main.rs:38 | the match found is at or after the start, is an occurrence, and no occurrence lies before it |
| Text.FindFirst | src/main.rs:38 | the leftmost occurrence is the one with none before it |
| Text.JoinSplitOn | src/main.rs:38 | joining the pieces of a split with the separator gives back the input |
| Text.SplitOnPiecesFree | src/main.rs:38 | no piece of a split contains the separator |
| Text.SplitOnCons | src/main.rs:100 | a prefix without the separator, then the separator, splits off as the first piece |
| Text.SplitOnAbsent | src/main.rs:100 | a text without the separator splits into itself alone |
| Text.SplitCons | src/main.rs:100 | the single-character form of SplitOnCons |
| Text.SplitAbsent | src/main.rs:227 | a text without the separator character splits into itself alone |
| Text.SplitPair | src/main.rs:227 | two texts without the separator, joined by it, split back into exactly those two |
| Text.SplitFree | src/main.rs:226-227 | a character absent from a text is absent from every piece of its split |
| Text.SplitSeparatorFree | src/main.rs:226 | no piece of a split holds the separator character |
| Text.SplitTerminated | src/main.rs:100-101 | splitting pieces that each end in a separator gives the pieces and a final empty field |
| Text.ReplaceAll | src/main.rs:195 | definition of `str::replace`: the pieces of the split joined with the replacement |
| Text.JoinCons | src/main.rs:38 | joining a first part and the rest puts one separator between them |
| Text.JoinLength | src/main.rs:195 | a join is as long as its parts plus one separator between each pair |
| Text.RemoveAllLength | src/main.rs:195 | replacing by the empty text shortens the input by the pattern's length once per occurrence removed |
| Text.ReplaceAbsent | src/main.rs:195 | replacing a pattern that does not occur leaves the text unchanged |
| Text.JoinFree | src/main.rs:195 | a character in neither the parts nor the separator is not in their join |
| Text.PartsOfJoin | src/main.rs:195 | a character absent from a join is absent from every part |
| Text.ReplaceAllFree | src/main.rs:195 | replacing cannot introduce a character that is in neither the input nor the replacement |
| Text.TerminatedSnoc | src/main.rs:80-91 | writing one more piece and its terminator extends the text at the end |
| Text.FormatNat | src/main.rs:238-240 | definition of printing a `u8`: its decimal digits with no leading zero |
| Text.ParseU8 | src/main.rs:228 | definition of parsing a `u8`: an optional `+`, then one or more decimal digits whose value is at most 255 |
| Text.FormatNatSpec | src/main.rs:238-240 | a printed `u8` is a non-empty run of decimal digits denoting the number |
| Text.ParseFormatU8 | src/main.rs:228 | parsing a printed `u8` gives the number back |
| Text.ParseU8TrimPadded | src/main.rs:29 | a device id padded with whitespace parses as the bare id |
| Parser.ParseSensorData | src/main.rs:27-34 | definition of `parse_sensordata`: four fields, each trimmed, the id parsed as a `u8` and X, Y, Z by the number parser; no reading when any of them fails |
| Parser.ParseSensorBatch | src/main.rs:36-58 | the result is a batch exactly when the timestamp parses, the remaining fields come in fours, and every group parses; the batch then has the untrimmed first field as its timestamp and exactly `(parts-1)/4` readings, reading `i` being group `i`'s parse |
| Parser.ParseSensorDataPadded | src/main.rs:27-34 | whitespace around any of a reading's fields leaves its parse unchanged |
| Parser.TimestampNotTrimmed | src/main.rs:39-40 | a payload that starts with a space fails when the number parser rejects leading spaces, because the timestamp is not trimmed |
| Parser.GroupCount | src/main.rs:47-52 | the groups after the timestamp fit in the fields, with fewer than four fields left over |
| Registry.ParseDeclaration | src/main.rs:227-230 | definition of one part of the declaration line: split at colons, the trimmed first piece parsed as the id, the trimmed second piece as the name; an error when the id does not parse or there is no second piece |
| Registry.DeclaredIdsSpec | src/main.rs:226-231 | an id is declared exactly when some part declares it |
| Registry.RegisterStep | src/main.rs:230 | inserting a declaration keeps the map's keys the declared ids, and each name the last declared for it |
| Registry.Register | src/main.rs:226-231 | the insertions succeed exactly when every part parsed; an error is that of the first part that did not; on success the map holds exactly the declared ids, each with its last name |
| Registry.ParseDevices | src/main.rs:226-231 | the line parses exactly when every part parses; an error is the first failing part's; on success the map holds exactly the declared ids, each with the name of its last declaration |
| Registry.DeclarationRoundTrip | src/main.rs:226-231 | a printed `id:name` declaration parses back to the same id and name |
| Registry.DeclarationNameFree | src/main.rs:227-229 | a character absent from a part is absent from the name it declares |
| Registry.LastExists | src/main.rs:230 | every declared id has a last declaration |
| Registry.DeclaredNamesFree | src/main.rs:226-231 | no registered name holds a comma, nor any character absent from the declaration line |
| Registry.DigitsPlain | src/main.rs:238-240 | a printed id holds no colon and has no whitespace at its ends |
| Registry.Headers | src/main.rs:236-244 | the layout has five columns per device |
| Registry.HeadersBlock | src/main.rs:236-244 | columns `5k..5k+4` are the time header, the X, Y and Z labels with the name and id, and an empty spacer, for the `k`-th device visited |
| Registry.PushHeaders | src/main.rs:237-241 | the five pushes for one device append exactly its header block |
| Registry.PlaceDevice | src/main.rs:242 | setting the offset of the `k`-th visited device to `5k` leaves every other device's entry unchanged |
| Registry.LayOutDevice | src/main.rs:236-243 | one pass of the layout loop extends the headers by the next device's block and gives that device the offset `5k` |
| Registry.LayoutColumns | src/main.rs:233-244 | the layout loop builds exactly those headers and a map giving the `k`-th visited device the offset `5k` and its name, for every declared device |
| Registry.HeadersLayout | src/main.rs:233-244 | the layout loop's headers and offsets form a valid buffer |
| Registry.LabelFree | src/main.rs:238-240 | a data column header holds a comma or a newline only if the device name does |
| Registry.HeadersFree | src/main.rs:236-244 | when no device name holds a comma (or a newline), no header cell does |
| Registry.Buffer.constructor | src/main.rs:233-244 | the new buffer is valid, holds the headers, and records each device's name and offset `5k` in visiting order |
| Registry.Appended | src/main.rs:270-279 | definition of the append loop: for each reading in order, the batch time and its X, Y and Z printed onto its device's four data columns |
| Registry.DeviceCellsCount | src/main.rs:270-279 | each data column of a device receives one cell per reading of that device |
| Registry.PushReadingColumn | src/main.rs:275-278 | pushing one reading adds the time or axis cell to each of its device's four data columns and changes no other column |
| Registry.AppendedLast | src/main.rs:270-279 | the table after a batch prefix is the table after all but its last reading with that reading pushed |
| Registry.AppendedLastColumn | src/main.rs:270-279 | the last reading adds one cell to a data column of device `id` exactly when it is that device's |
| Registry.AppendedDeviceColumn | src/main.rs:270-279 | appending readings extends each data column of a device by that device's cells in reading order |
| Registry.AppendedOtherColumn | src/main.rs:270-279 | a column outside every device's data columns (a spacer) is not changed by appending |
| Registry.DeclaredPrefix | src/main.rs:270-274 | the readings before the first undeclared one are all declared, and the next one, if any, is not |
| Registry.BlockPush | src/main.rs:275-278 | pushing a reading into one block keeps every block shaped |
| Registry.LayoutOffsets | src/main.rs:242-243 | in a valid buffer a device's data columns overlap no other device's, and its offset is a multiple of five inside the table |
| Registry.OffsetsSeparated | src/main.rs:242-243 | offsets `5k` for distinct visited devices give disjoint four-column ranges, each inside the table |
| Registry.LayoutPush | src/main.rs:275-278 | pushing a declared device's reading keeps the buffer valid |
| Registry.AppendedSnoc | src/main.rs:270-279 | appending one more reading is one more round of pushes |
| Registry.FitsSnoc | src/main.rs:270-274 | a declared reading whose columns exist extends a run of readings that fit |
| Registry.LayoutAppended | src/main.rs:270-279 | appending any declared readings keeps the buffer valid |
| Registry.PushFree | src/main.rs:275-278 | pushing a cell without a character keeps every cell without it |
| Registry.AppendedFree | src/main.rs:270-279 | when the time and every printed number lack a character, appending readings never brings it into the buffer |
| Registry.AppendReadings | src/main.rs:270-279 | the append loop stops at the first undeclared reading and leaves exactly the pushes of the readings before it |
| Registry.Buffer.AppendBatch | src/main.rs:270-279 | the buffer stays valid with the same devices; the result is true exactly when every reading's device is declared; the columns are the old ones with the declared prefix of the batch appended, the batch timestamp in each time cell |
| Table.RowBytes | src/main.rs:81-89 | the inner loop writes each column's cell of the row followed by a comma, and a bare comma past a column's end |
| Table.SaveFile | src/main.rs:78-94 | the bytes written are the rendered table: each row's cells each followed by a comma, and a newline after each row |
| Table.RowFields | src/main.rs:81-89 | when no cell contains a comma, each line has exactly one comma per column, and its fields are the row's cells |
| Table.TerminatedFree | src/main.rs:80-91 | a character that is neither in the pieces nor the terminator is not in the written text |
| Table.RenderLines | src/main.rs:80-91 | when no cell contains a newline, the file splits into exactly its rows and the empty text after the last newline |
| Aggregate.Lines | src/main.rs:100 | the input always has at least one line |
| Aggregate.LoadColumn | src/main.rs:103-110 | the inner loading loop collects field `column_i` of every line with more than one field, in order, skipping empty fields |
| Aggregate.Load | src/main.rs:96-111 | definition of the loaded table: for each field of the first line, that field of every line with more than one field, empty fields skipped |
| Aggregate.LoadTable | src/main.rs:96-111 | the loader builds one column per field of the first line, each the in-order non-empty fields of the lines with more than one field |
| Aggregate.ColumnOfRendered | src/main.rs:100-111 | loading a column of a saved table gives that column's written cells without the empty ones |
| Aggregate.SpacerOfRendered | src/main.rs:100-111 | the extra field after the final comma of each line loads as an empty column |
| Aggregate.RenderedRows | src/main.rs:80-91 | a saved table reads back as one line per written row, split into that row's cells and an empty last field, then one empty line |
| Aggregate.LoadRendered | src/main.rs:78-111 | loading a saved table gives back its columns without their empty cells, plus one empty column |
| Aggregate.Reference | src/main.rs:115-126 | definition of the reference block: block 0 first, then each later block whose span is strictly smaller than the best so far |
| Aggregate.ReferenceAmong | src/main.rs:118-126 | the chosen block is among the candidates examined |
| Aggregate.ReferenceAmongMinimal | src/main.rs:118-126 | the chosen block's span is at most every examined block's, and strictly smaller than every earlier block's |
| Aggregate.ReferenceIsFirstMinimum | src/main.rs:115-126 | the reference block is the first block of minimum span |
| Aggregate.FirstMinimumUnique | src/main.rs:122 | there is only one first block of minimum span, so ties go to the lowest index |
| Aggregate.SelectReference | src/main.rs:115-126 | the selection loop returns the first block of minimum span |
| Aggregate.WindowAt | src/main.rs:136-151 | definition of the window of reference row `t`: its timestamp, and the midpoints with the previous and next timestamps (or the timestamp itself at either end) |
| Aggregate.WindowsAdjacent | src/main.rs:140-151 | one window's upper bound is the next window's lower bound |
| Aggregate.WindowEnds | src/main.rs:140-149 | the first window starts at its own timestamp and the last window ends at its own |
| Aggregate.WindowHoldsTarget | src/main.rs:140-151 | with sorted reference timestamps, each window holds its own timestamp |
| Aggregate.CoveredFrom | src/main.rs:161-162 | a timestamp from a window's lower bound up to the last reference timestamp is counted in that window or a later one |
| Aggregate.CountedExactlyOnce | src/main.rs:140-162 | with strictly increasing reference timestamps, every timestamp in the reference range is counted in exactly one window |
| Aggregate.LaterWindowMisses | src/main.rs:140-162 | with strictly increasing reference timestamps, a timestamp counted in one window is not counted in any later window |
| Aggregate.Scan | src/main.rs:153-171 | definition of the scan of a block from a row: a counted sample adds its X, Y, Z and one to the count, a sample past the window stops the scan, any other is skipped |
| Aggregate.ScanStep | src/main.rs:159-171 | one step of the scan: a counted sample is added, a sample past the window stops the scan, any other is skipped |
| Aggregate.AccumulateBlock | src/main.rs:153-171 | the accumulator loop with its `break` computes the sums and count of the scan |
| Aggregate.NothingLater | src/main.rs:168-169 | when every later sample is past the window, the full scan collects nothing more |
| Aggregate.ScanUnbroken | src/main.rs:159-171 | with a sorted block and a window holding its timestamp, stopping at the first sample past the window collects exactly what the unbroken scan collects |
| Aggregate.SortedScan | src/main.rs:136-171 | with a sorted reference column and a sorted block, every window's scan with `break` collects what the unbroken scan does |
| Aggregate.OutCell | src/main.rs:173-190 | definition of a data cell for reference row `t`: the window's mean, else the cell of row `t - 1` from `t > 2` on, else zero |
| Aggregate.Expected | src/main.rs:128-190 | definition of every grid cell: zero in the last row, the reference time in column 0, and the data cell elsewhere |
| Aggregate.CarryForward | src/main.rs:173-190 | the cell of an empty window from row 3 on is the mean of the last non-empty window before it, if that window is at row 2 or later |
| Aggregate.NothingToCarry | src/main.rs:173-183 | when every window from row 2 up to a row is empty, that row's cell is zero |
| Aggregate.ExpectedData | src/main.rs:175-190 | output column `3b+1+axis` holds the value of block `b` on that axis, one row up |
| Aggregate.RowFinished | src/main.rs:136-192 | a row whose cells are all written makes the next row the one being filled |
| Aggregate.ZeroCell | src/main.rs:173-183 | a cell the Rust program leaves untouched already holds its expected value, zero |
| Aggregate.SetCell | src/main.rs:188-190 | writing the next cell to fill with its expected value extends the filled part by one cell |
| Aggregate.CellRule | src/main.rs:173-190 | a data cell is its window's mean when the window holds samples, otherwise the cell above from output row 2 on, otherwise zero |
| Aggregate.MeanBlock | src/main.rs:185-190 | for a window with samples, the three data cells of a block are the sums divided by the count |
| Aggregate.EmptyWindowCells | src/main.rs:173-183 | for an empty window, the three data cells repeat the row above from output row 2 on and are zero before |
| Aggregate.CarriedBlock | src/main.rs:174-180 | for an empty window from output row 2 on, the finished cells above already hold the expected values |
| Aggregate.ZeroBlock | src/main.rs:173-183 | for an empty window before output row 2, the untouched zero cells already hold the expected values |
| Aggregate.SetBlock | src/main.rs:188-190 | writing a block's three expected values fills the row up to that block's end |
| Aggregate.WriteBlock | src/main.rs:173-190 | after the scan each block's three cells of the row hold their expected values, so the row is filled up to that block's end |
| Aggregate.Resample | src/main.rs:128-192 | the filled grid has `3*blocks+1` columns and as many rows as the reference column; every cell holds its expected value: the reference time in column 0, means or carried values in the data columns, and zero in the last row |
| Aggregate.FormattedCell | src/main.rs:199 | each printed cell is the printed value of the array cell |
| Aggregate.FormatRow | src/main.rs:198-202 | one row of the output has each printed value followed by a comma |
| Aggregate.WriteAggregated | src/main.rs:194-205 | the bytes written are the rewritten header, a newline, and the grid written row by row with a comma after every value |
| Aggregate.Aggregate | src/main.rs:96-206 | aggregation writes the text computed by load, reference selection and resampling |
| Aggregate.GridShape | src/main.rs:128-139 | the grid has `3*blocks+1` columns as long as the reference column, a zero last row, the reference times in column 0 and per-block values elsewhere |
| Aggregate.AggregatedHeader | src/main.rs:195 | definition of the header rewrite: every non-overlapping `,Time (s),` in the first line removed |
| Aggregate.LinesFree | src/main.rs:100 | no loaded line holds a newline |
| Aggregate.HeaderFree | src/main.rs:195 | the rewritten header holds no newline |
| Aggregate.FormattedFree | src/main.rs:199 | a character that no printed number holds is in no printed cell |
| Aggregate.OutputLines | src/main.rs:194-204 | a header without a newline followed by a written table splits into the header, one line per row with one field per column and an empty last field, and a final empty text |
| Aggregate.AggregatedLines | src/main.rs:194-204 | when printed numbers hold no comma or newline, the output is the rewritten header, then one line per reference cell, each with one field per output column, then the empty text after the last newline |

## Left out

- UDP socket binding and receiving, and `get_next_data`'s error handling: network I/O.
- Reading and writing `output.csv`, `output_aggregated.csv` and standard input.
  The model works on the text read and returns the text written.
- The mutex, the atomic quit flag, the channel and the Ctrl-C handler. These
  are concurrency and signal handling; the buffer is single-threaded here, and
  saving it on Ctrl-C is `Table.SaveFile` applied to its columns.
- IEEE-754 `f64` behaviour: the textual round trip of parse and `format!`,
  rounding in midpoints and means, NaN comparisons. `parse` and `fmt` are
  parameters, and numbers are exact reals.
- `String::from_utf8_lossy`: the payload starts as a string.
- The error message `parse_sensor_batch` prints to standard output when the
  field count is not one plus a multiple of four: console output. The model
  returns `None` there, as the function does, without the message.
- Panics, which are preconditions (`Aggregatable`, `Selectable`, `Resamplable`,
  `Loadable`). The undeclared device in a batch is an exception: it gives
  `false` after the pushes made before it.
  - `Aggregate.Loadable` also demands that every line of the input that has
    more than one field has at least as many fields as the first line: the
    Rust program reads each such line's field for every column of the first
    line.
- Aggregate.AccumulateBlock: `counted` is a Rust `i32`; the model's count is
  unbounded, and overflow past 2^31 - 1 samples is not modelled.
- Registry.Buffer.constructor: the `HashMap` iteration order is the parameter
  `visit`, any enumeration of the declared ids without repetition.
- Registry.ParseDevices: the panic messages of `expect` are not
  modelled. The error instead names the part that failed (not an integer, or
  no name after the id).
- `Text` models `u8` parsing and printing concretely. `f64` parsing and
  printing are outside it.
- The Rust program's timestamp field is not trimmed although the other fields are;
  the model follows the code here, and `save_file` counts its rows from column
  0 rather than the longest column, which the model also follows.
