# dsfmt: a verified model of the diskstats formatter

`dsfmt` reads Linux `/proc/diskstats` lines from standard input and prints
them as a table. This project models the core of `main.go` in Dafny and
proves what that core promises.

- **Normalising and splitting a line.** Every run of `\s` characters
  becomes one space. The line is trimmed of Unicode white space and split
  on single spaces into columns (`text.dfy`, module `Text`).
- **Converting columns.** Counters go through `MustAtoi`. Time columns are
  read by `MustParseDuration` applied to the column followed by `"ms"`
  (`numbers.dfy`, module `Numbers`).
- **Parsing a line into a `DiskStat`.** The 14 mandatory columns are always
  read. The 4 discard columns are read when the line has more than 14
  columns, and the 2 flush columns when it has more than 18. A panic
  (conversion failure, or an index past the end of the line) becomes a
  `ParseError` naming the first faulty column (`diskstat.dfy`, module
  `DiskStats`).
- **The input loop of `main`.** Blank lines are skipped. Every other
  record is appended to the list under its device name, and the line's
  column count becomes the display tier (14 with `--short`). The first
  line that fails ends the run. The loop is the method
  `Aggregation.CollectStats`, proved against the function `Collect`
  (`aggregate.dfy`).
- **Building the table.** The header is built by appends. The nested
  loops over the map and each device's list build one row per record.
  The map is visited in an order the model leaves open: `BuildData` picks
  each next device name arbitrarily and returns the order it used as a
  ghost result (`table.dfy`, module `Table`).

`results.dfy` holds the `Option` and `Result` types shared by the modules.

## Model

| member | source | states |
|---|---|---|
| Text.IsRegexSpace | main.go:67 | The `\s` class of Go's regular expressions: tab, newline, form feed, carriage return and space, ASCII only. `CollapseGap` and `CollapseSolid` show that the replacement treats exactly these characters as separators. |
| Text.IsSpace | main.go:99 | The white space `strings.TrimSpace` removes: the Latin-1 white space (tab, newline, vertical tab, form feed, carriage return, space, NEL, no-break space) and the other Unicode White_Space code points. `TrimLeftSpaces` and `TrimRightSpaces` show that exactly these are cut. |
| Text.Normalise | main.go:99 | The result is empty exactly when the line is all white space. Otherwise it starts and ends with a non-space. No two spaces are adjacent, and no `\s` character other than the space remains. |
| Text.NormalisedBlank | main.go:99 | Collapsing `\s` runs and then trimming yields the empty text exactly for blank lines. |
| Text.NormalisedShape | main.go:99 | The normalised line has no double space, and the space is its only `\s` character. |
| Text.CollapseBlank | main.go:99 | Replacing `\s+` by one space keeps a line blank exactly when it was blank. |
| Text.CollapseNoDoubleSpace | main.go:99 | After the replacement no two spaces are adjacent. |
| Text.CollapsePlainSpaces | main.go:99 | After the replacement the space is the only `\s` character left. |
| Text.CollapseSpace | main.go:67 | Empty exactly when the input is empty. The first character is a space exactly when the input began with a `\s` character. |
| Text.TrimSpace | main.go:99 | The result is a slice of the text with only white space cut off at either end. It is empty exactly when the text is all white space, and otherwise its first and last characters are not white space. |
| Text.TrimLeftSpace | main.go:99 | The result is a suffix of the text, the cut prefix is all white space, and the result starts with a non-space. |
| Text.TrimRightSpace | main.go:99 | The result is a prefix of the text, the cut suffix is all white space, and the result ends with a non-space. |
| Text.TrimSlice | main.go:99 | The trimmed text is the slice of the input that follows the cut white-space prefix, and everything after it is white space. |
| Text.TrimShape | main.go:99 | Helper: Trimming leaves nothing exactly for all-white-space text, and otherwise starts at a non-space. |
| Text.TrimKeepsShape | main.go:99 | Trimming cuts out a piece of the text, so it keeps the no-double-space and plain-space properties. |
| Text.TrimLeftSpaces | main.go:99 | Trimming white space in front of a non-space text gives exactly that text. |
| Text.TrimRightSpaces | main.go:99 | Trimming white space after a text that ends in a non-space gives exactly that text. |
| Text.GapDropped | main.go:67 | Helper: Skipping a `\s` run in front of a non-`\s` character leaves exactly the rest. |
| Text.CollapseGap | main.go:67 | A `\s` run followed by a non-`\s` character collapses to one space, or to nothing if the run is empty. |
| Text.CollapseSolid | main.go:67 | Text without `\s` characters passes through the replacement unchanged. |
| Text.CollapseLayout | main.go:67 | Fields separated by arbitrary `\s` runs collapse to the fields joined by single spaces, with at most one space at each end. |
| Text.Split | main.go:103 | Splitting gives at least one piece, and no piece contains a space. |
| Text.JoinSplit | main.go:103 | Joining the pieces of a split with single spaces restores the text. |
| Text.SplitJoin | main.go:103 | Splitting the join of space-free fields gives the fields back. |
| Text.SplitFree | main.go:103 | Helper: A text without spaces splits into itself. |
| Text.SplitPrefix | main.go:103 | Helper: A space-free prefix followed by a space becomes the first piece. |
| Text.SplitTailNonEmpty | main.go:103 | Without double spaces or a trailing space, every piece after the first is non-empty. |
| Text.Columns | main.go:99-103 | A line always yields at least one column, and joining the columns with single spaces gives the normalised line. |
| Text.ColumnsOfNormalised | main.go:99-103 | A non-blank line gives non-empty, space-free columns, and joining them with single spaces gives the normalised line. |
| Text.ColumnsOfLayout | main.go:99-103 | Space-free fields separated and surrounded by any `\s` runs normalise to the fields joined by single spaces, and split back into exactly those fields. |
| Text.JoinEnds | main.go:103 | A join of non-empty solid fields starts and ends with a non-space. |
| Numbers.DigitsValue | main.go:197-203 | The value of a digit string, read most significant digit first. `DigitsOfNat` and `CanonicalRoundTrip` show that it inverts decimal rendering. |
| Numbers.SignedDecimal | main.go:197-203 | The unbounded reading of an optional sign and at least one digit. `SignedDecimalOfRendering` shows that it inverts `IntToDecimal` for every integer, and `RejectsNonDigit` that any other character makes it fail. |
| Numbers.Atoi | main.go:197-203 | A successful conversion is within the 64-bit integer range. |
| Numbers.ParseMillis | main.go:189-195 | A successful conversion is a 64-bit nanosecond count and a whole number of milliseconds. |
| Numbers.NatToDigits | main.go:158 | Decimal rendering is a non-empty digit string without a superfluous leading zero. |
| Numbers.IntToDecimal | main.go:156-176 | The `%d` / `fmt.Sprint` text of an integer: canonical digits, with a leading `-` exactly when it is negative. `SignedDecimalOfRendering` and `AtoiOfRendering` read it back. |
| Numbers.DigitsOfNat | main.go:158 | Reading the decimal rendering of a natural number gives the number. |
| Numbers.LeadingDigitPositive | main.go:197-203 | Helper: A digit string that does not start with `0` has a positive value. |
| Numbers.CanonicalRoundTrip | main.go:197-203 | Rendering the value of a canonical digit string gives the string back. |
| Numbers.SignedDecimalOfRendering | main.go:197-203 | Reading the rendering of any integer, sign included, gives the integer. |
| Numbers.AtoiOfRendering | main.go:197-203 | Every 64-bit integer survives rendering followed by `MustAtoi`. |
| Numbers.RenderingOfAtoi | main.go:197-203 | A canonical column that converts has its digit value, and renders as the same text. |
| Numbers.MillisOfRendering | main.go:189-195 | Every millisecond count within the bound converts to that many milliseconds in nanoseconds, and one past the bound is rejected. |
| Numbers.RejectsNonDigit | main.go:189-203 | A non-digit after the optional sign makes both conversions fail. |
| DiskStats.ColumnKind | main.go:109-132 | The column layout of a line: column 2 is the device name, columns 6, 10, 12, 13, 17 and 19 are times in milliseconds, and every other column is a counter. |
| DiskStats.ColumnsRead | main.go:108-133 | The parser reads 14 columns, 18 when the line has more than 14, and 20 when it has more than 18. All of them lie within the line exactly when its width is 14, 18 or at least 20. |
| DiskStats.IntColumn | main.go:197-203 | Reading a counter column succeeds exactly when the column is present and `MustAtoi` accepts it, with `MustAtoi`'s value. A failure names that column. |
| DiskStats.MillisColumn | main.go:189-195 | Reading a time column succeeds exactly when the column is present and `MustParseDuration(col + "ms")` accepts it, with that duration. A failure names that column. |
| DiskStats.Identity | main.go:109-111 | A success needs at least 3 columns and takes the name from column 2, and a failure names one of columns 0-2. `IdentityOutcome` gives the full outcome. |
| DiskStats.Counters | main.go:112-119 | A success needs the group's four columns to be present, and a failure names one of them. `CountersOutcome` gives the full outcome. |
| DiskStats.InFlight | main.go:120-122 | A success needs 14 columns, and a failure names one of columns 11-13. `InFlightOutcome` gives the full outcome. |
| DiskStats.Flushes | main.go:130-133 | A success needs 20 columns, and a failure names column 18 or 19. `FlushesOutcome` gives the full outcome. |
| DiskStats.Mandatory | main.go:108-123 | A success needs 14 columns and takes the name from column 2, and a failure names one of columns 0-13. `MandatoryOutcome` gives the full outcome. |
| DiskStats.ParseLine | main.go:108-133 | A line that parses has 14, 18 or at least 20 columns, and its name is column 2. A failure names a column the parser reads. `ParseLineOutcome` and `ParseLineDescribes` give the exact outcome and value. |
| DiskStats.ColumnOutcome | main.go:109-122 | Reading one column succeeds exactly when it is present and converts as its kind demands. Otherwise the error names that column. |
| DiskStats.IdentityOutcome | main.go:109-111 | Columns 0-2 succeed exactly when all convert. Otherwise the first faulty one is reported. |
| DiskStats.CountersOutcome | main.go:112-119 | Any four-column group succeeds exactly when all four convert. Otherwise the first faulty one is reported. |
| DiskStats.InFlightOutcome | main.go:120-122 | The same for columns 11-13. |
| DiskStats.FlushesOutcome | main.go:130-133 | The same for columns 18-19. |
| DiskStats.MandatoryOutcome | main.go:108-123 | The same for columns 0-13. |
| DiskStats.ParseLineOutcome | main.go:108-133 | A line parses exactly when every column the parser reads is present and converts. A failure names the first faulty column in reading order, and that column is one the parser reads. |
| DiskStats.WidthDecides | main.go:108-133 | A line with fewer than 14 columns, or with 15-17 or 19 columns, never parses. For well-formed columns, a line parses exactly when it has 14, 18, or at least 20 columns, and otherwise fails with a missing column at its length. |
| DiskStats.ParseLineDescribes | main.go:108-133 | A line parses to `d` exactly when `d` takes every field from its column. With 14 columns the discard and flush fields are zero, and with 18 the flush fields are zero. |
| DiskStats.ParsedDescribes | main.go:108-133 | The record a line parses to takes every field from its column. |
| DiskStats.DescribesParses | main.go:108-133 | A record that takes every field from its column is what the line parses to. |
| DiskStats.MandatoryValue | main.go:108-123 | The mandatory fields come from columns 0-13, and the optional ones start at zero. |
| DiskStats.CountersValue | main.go:124-128 | A four-column group takes its values from its columns, in order. |
| DiskStats.ParseLineName | main.go:111 | A parsed line has at least 14 columns, and its device name is column 2 verbatim. |
| DiskStats.DescribesUnique | main.go:108-133 | A line describes at most one record. |
| DiskStats.ExtraColumnsIgnored | main.go:124-133 | Appending columns to a line of at least 20 leaves its outcome, error included, unchanged. |
| Aggregation.Scan | main.go:99-133 | What one line amounts to: skipped, a record with the line's width, or the error that stops the run. `ScanOutcome` characterises each case in terms of blankness, `Describes` and the parser's error. |
| Aggregation.Append | main.go:134 | The map with a record appended to its device's list. `AppendOnly` and `AppendKeepsGrouped` state its effect. |
| Aggregation.Gather | main.go:96-135 | A failure names a bad line of the input. `GatherFailsAtFirstBad`, `GatherGroups` and `GatherTier` give the outcome in full. |
| Aggregation.Collect | main.go:96-135 | The outcome of the input loop, whose failure names a line of the input. `CollectFailsAtFirstBadLine`, `CollectGroups` and `ColsLenOfLastLine` give it in full. |
| Aggregation.CollectStats | main.go:96-135 | The input loop, which updates the map and the tier line by line, ends with the outcome `Collect` specifies. |
| Aggregation.GatherSkip | main.go:100-102 | A blank line leaves the loop state unchanged. |
| Aggregation.GatherRecord | main.go:103-134 | A record is appended under its name, and its column count (14 with `short`) becomes the tier. |
| Aggregation.GatherBad | main.go:108-133 | A line that fails ends the whole run, with its index and error. |
| Aggregation.GatherStopsAtFailure | main.go:98-135 | Once a line fails, later lines do not change the outcome. |
| Aggregation.GatherFailsAtFirstBad | main.go:98-135 | The loop finishes exactly when no line is bad. Otherwise it reports the first bad line and its error. |
| Aggregation.AppendOnly | main.go:134 | Appending adds the record at the end of its device's list, leaves every other list unchanged, and adds at most its name to the keys. |
| Aggregation.AppendKeepsGrouped | main.go:134 | Appending keeps every list non-empty and holding only records of its own name. |
| Aggregation.ScanOutcome | main.go:99-133 | A line is skipped exactly when blank. It yields record `d` exactly when `d` describes its columns, and error `e` exactly when the parser reports `e`. |
| Aggregation.ScanBad | main.go:99-133 | A line is bad exactly when it is non-blank and its columns do not parse, and then it carries the parser's error. |
| Aggregation.ScanSkip | main.go:99-102 | A line is skipped exactly when it is blank. |
| Aggregation.ScanRecord | main.go:103-133 | A non-blank line that parses yields its record and its column count. |
| Aggregation.NoBadIffAllParse | main.go:99-133 | No scanned line is bad exactly when every non-blank line parses. |
| Aggregation.GatherGroups | main.go:96-134 | Without bad lines, each device's list is exactly that device's records in input order, and a name is present exactly when it has a record. |
| Aggregation.GatherTier | main.go:104-107 | The tier is set by the last record: 14 with `short`, otherwise its column count. |
| Aggregation.GatherAllSkip | main.go:96-102 | Input made of blank lines only leaves the empty map and tier 0. |
| Aggregation.GatherExtends | main.go:134 | The lists for a prefix of the input are prefixes of the lists for the whole input. |
| Aggregation.FilterSnoc | main.go:134 | Helper: A device's subsequence grows by a record exactly when the record carries its name. |
| Aggregation.BlankLineIgnored | main.go:99-102 | A blank line changes neither the records nor the tier. |
| Aggregation.CollectAppends | main.go:103-134 | A line that parses appends its record at the end of the list under column 2, leaves every other list unchanged, and sets the tier to its column count (14 with `short`). |
| Aggregation.CollectFailsAtFirstBadLine | main.go:98-135 | The run finishes exactly when every non-blank line parses. Otherwise it stops at the first non-blank line that does not, with that line's error. |
| Aggregation.CollectGroups | main.go:96-134 | After a successful run, each device's list is exactly its records in input order, and a name is present exactly when it has a record. |
| Aggregation.ColsLenOfLastLine | main.go:104-107 | The final tier is the column count of the last non-blank line, or 14 with `short`. |
| Aggregation.AllBlankInput | main.go:96-102 | Input without a non-blank line gives no records and tier 0. |
| Aggregation.CollectExtends | main.go:134 | Reading more input only extends each device's list. |
| Table.Width | main.go:143-152 | The number of table columns at a tier: 10, 13 above 14, and 15 above 18. `Header` and `Row` both have this width. |
| Table.Header | main.go:143-152 | The header has 10 columns, 13 when the tier is above 14, and 15 when it is above 18. |
| Table.FormatHeader | main.go:143-152 | Appending the column groups as the program does builds exactly `Header`. |
| Table.BaseCells | main.go:155-166 | The ten cells every row has. `RowEchoesColumns` shows that, for canonical columns, they repeat the line's columns. |
| Table.DiscardCells | main.go:167-172 | The three discard cells. `OptionalCells` shows that they echo columns 14-17, or read as zeros when the line has no discard group. |
| Table.FlushCells | main.go:173-177 | The two flush cells. `OptionalCells` shows that they echo columns 18-19, or read as zeros when the line has no flush group. |
| Table.Row | main.go:155-177 | A row has as many cells as the header at the same tier. |
| Table.RowLayout | main.go:155-177 | Cells 0-9 are the base cells, 10-12 the discard cells, and 13-14 the flush cells. |
| Table.FormatRow | main.go:155-177 | Appending the cell groups as the program does builds exactly `Row`. |
| Table.HeaderNests | main.go:143-152 | A lower tier's header is a prefix of a higher tier's. |
| Table.RowNests | main.go:155-177 | A lower tier's row is a prefix of a higher tier's row for the same record. |
| Table.DeviceRowsSnoc | main.go:154-178 | Helper: One more record adds its row at the end of the device's rows. |
| Table.DeviceRowsAt | main.go:154-178 | Helper: The `j`-th row of a device is the row of its `j`-th record. |
| Table.AppendRow | main.go:178 | Appending the next record's row extends the rows built so far. |
| Table.AppendDeviceRows | main.go:154-179 | The inner loop appends a device's rows in record order, and every row has the header's width. |
| Table.BuildData | main.go:140-179 | The order of visiting devices lists every name exactly once. The header is `Header`, and the data are the devices' rows in that order. The row count is the total number of records, and every row is as wide as the header. |
| Table.DataRows | main.go:153-179 | The rows of the devices in visiting order, device after device. `DeviceBlock` places each device's block, and `DataRowsLength` counts the rows. |
| Table.DataRowsSnoc | main.go:153-179 | Visiting one more device appends its rows and adds its record count. |
| Table.DeviceBlock | main.go:153-179 | Each device's rows form one contiguous block in record order, between the rows of the devices visited before and after it. |
| Table.DataRowsLength | main.go:153-179 | The number of rows is the total number of records under the visited names. |
| Table.FilterTotalSnoc | main.go:153-179 | Counting records by name grows by one exactly when the new record's name is visited. |
| Table.FilterTotalAll | main.go:153-179 | When every record's name is visited exactly once, counting by name counts every record. |
| Table.FilterTotalEmpty | main.go:153-179 | Helper: No records count as zero under any order. |
| Table.FilterHas | main.go:134 | Every record is in its own device's subsequence. |
| Table.TotalOfGroups | main.go:153-179 | When each list is its device's subsequence, the total under an order equals the count by name. |
| Table.RowCount | main.go:153-179 | However the map is traversed, the table has one row per record read. |
| Table.Echo | main.go:156-165 | A canonical column that converts to `v` is the decimal text of `v`. |
| Table.EchoInt | main.go:156-165 | An integer column of a canonical line renders back as itself. |
| Table.EchoMillis | main.go:159-165 | A time column of a canonical line holds its milliseconds. |
| Table.DescribedEchoes | main.go:108-133 | Every integer field of a record parsed from canonical columns renders as its column, and every time field is its column in milliseconds. Absent groups are zero. |
| Table.RowEchoesColumns | main.go:155-166 | For canonical columns, the device cell is `cols[2] + " " + cols[0] + "/" + cols[1]`. The pair cells are `cols[3] + " / " + cols[4]` and `cols[7] + " / " + cols[8]`, and the counter cells are their columns verbatim. |
| Table.OptionalCells | main.go:167-177 | The discard and flush cells echo columns 14-19 when the line has them, and read `0 / 0`, `0` and a zero duration when it does not. |
| Table.ZeroDiscards | main.go:167-172 | Zero discard fields render as `0 / 0`, `0` and a zero duration. |
| Table.ZeroFlushes | main.go:173-177 | Zero flush fields render as `0` and a zero duration. |
| Table.Report | main.go:92-187 | The whole program either stops at the first failing line with its error, or yields the header and one row per record. Rows are grouped per device in the order the map was visited, and every row is as wide as the header. |

## Left out

- Reading standard input with `bufio.Scanner` and logging a scanner error (main.go:95, 137-139): this is I/O, so the input is a sequence of lines. The scanner's line-length limit is not modelled.
- Flag parsing (main.go:93-94): `short` is a plain boolean parameter.
- `tablewriter` rendering, cell merging and border settings (main.go:142, 181-186): an external library with cosmetic effects. The model stops at the header and data handed to it.
- Go map iteration order (main.go:153): it is unspecified. `BuildData` chooses each next device arbitrarily, and the contracts hold for every order.
- A panic is not modelled as a crash. `MustAtoi`, `MustParseDuration` and an index past the end of `cols` produce a `ParseError`. The run ends with the index of the offending line and that error; the panic message text is not modelled.
- When several columns of one line are faulty, the error names the first in reading order (column 0 upward). Go evaluates the `MustAtoi` and `MustParseDuration` calls of the composite literal left to right, so this is exactly the program's behaviour when only conversions fail. Where an index-out-of-range panic falls relative to those calls is unspecified in Go. The model reports a missing column in its reading-order position.
- ParseMillis: accepts only an optional sign followed by decimal digits, as a whole number of milliseconds bounded by the 64-bit nanosecond range. `time.ParseDuration` also accepts fractions (`1.5ms`) and leading compound units (`1h5ms`). Columns of that shape are rejected here although the program would accept them.
- `time.Duration.String` (main.go:159-176): standard-library formatting, passed in as the parameter `fmtDur`. The model states which duration each cell shows, not its text.
- `strconv.Atoi` is modelled for a 64-bit `int`: an optional sign, decimal digits, and rejection outside the 64-bit range. Underscores and other bases are not accepted by `Atoi` and are not modelled.
- Strings are sequences of code points. Invalid UTF-8 in the input, which Go would keep as raw bytes, is not represented.
