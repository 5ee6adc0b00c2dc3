/**
 * The table the program prints: its header, one row of formatted cells per
 * record, and the nested loops that collect the rows device by device
 * (main.go:140-179). How a duration is written out is left to a parameter
 * `fmtDur`; every other cell is a decimal rendering of a field.
 */
module Table {
  import opened Results
  import opened Numbers
  import opened DiskStats
  import opened Aggregation

  /** The number of columns of the table at tier `colsLen`. */
  function Width(colsLen: int): nat {
    if colsLen > 18 then 15 else if colsLen > 14 then 13 else 10
  }

  /** The header: ten columns, three more for discards when the tier is
      above 14, two more for flushes when it is above 18 (main.go:143-152). */
  function Header(colsLen: int): (r: seq<string>)
    ensures |r| == Width(colsLen)
  {
    ["Device",
     "Reads / Merged", "Sectors Read", "Read Time",
     "Writes / Merged", "Sectors Written", "Write Time",
     "IOs Now", "IOs Time", "Weighted IOs Time"]
    + (if colsLen > 14 then ["Discards / Merged", "Sectors Discarded", "Discard Time"] else [])
    + (if colsLen > 18 then ["Flushes", "Time Flushing"] else [])
  }

  /** `"a / b"`, the cell for a completed count and its merged count. */
  function Pair(a: int, b: int): string {
    IntToDecimal(a) + " / " + IntToDecimal(b)
  }

  /** The ten cells every row has (main.go:155-166). */
  function BaseCells(d: DiskStat, fmtDur: Duration -> string): (r: seq<string>)
    ensures |r| == 10
  {
    [d.deviceName + " " + IntToDecimal(d.majorNumber) + "/" + IntToDecimal(d.minorNumber),
     Pair(d.readsCompleted, d.readsMerged),
     IntToDecimal(d.sectorsRead),
     fmtDur(d.timeSpentReading),
     Pair(d.writesCompleted, d.writesMerged),
     IntToDecimal(d.sectorsWritten),
     fmtDur(d.timeSpentWriting),
     IntToDecimal(d.iosInProgress),
     fmtDur(d.timeSpentDoingIOs),
     fmtDur(d.weightedTimeSpentDoingIOs)]
  }

  /** The three discard cells (main.go:168-171). */
  function DiscardCells(d: DiskStat, fmtDur: Duration -> string): (r: seq<string>)
    ensures |r| == 3
  {
    [Pair(d.discardsCompletedSuccessfully, d.discardsMerged),
     IntToDecimal(d.sectorsDiscarded),
     fmtDur(d.timeSpentDiscarding)]
  }

  /** The two flush cells (main.go:174-176). */
  function FlushCells(d: DiskStat, fmtDur: Duration -> string): (r: seq<string>)
    ensures |r| == 2
  {
    [IntToDecimal(d.flushRequestsCompleted), fmtDur(d.timeSpentFlushing)]
  }

  /** The row for one record at tier `colsLen` (main.go:155-177). */
  function Row(d: DiskStat, colsLen: int, fmtDur: Duration -> string): (r: seq<string>)
    ensures |r| == Width(colsLen)
  {
    BaseCells(d, fmtDur)
    + (if colsLen > 14 then DiscardCells(d, fmtDur) else [])
    + (if colsLen > 18 then FlushCells(d, fmtDur) else [])
  }

  /** Where each group of cells sits in a row. */
  lemma RowLayout(d: DiskStat, colsLen: int, fmtDur: Duration -> string)
    ensures Row(d, colsLen, fmtDur)[..10] == BaseCells(d, fmtDur)
    ensures colsLen > 14 ==> Row(d, colsLen, fmtDur)[10..13] == DiscardCells(d, fmtDur)
    ensures colsLen > 18 ==> Row(d, colsLen, fmtDur)[13..] == FlushCells(d, fmtDur)
  {
  }

  /** The rows of one device's records, in the order they arrived. */
  function DeviceRows(recs: seq<DiskStat>, colsLen: int, fmtDur: Duration -> string): (r: seq<seq<string>>)
    ensures |r| == |recs|
  {
    MapSeq(d => Row(d, colsLen, fmtDur), recs)
  }

  lemma DeviceRowsSnoc(recs: seq<DiskStat>, j: nat, colsLen: int, fmtDur: Duration -> string)
    requires j < |recs|
    ensures DeviceRows(recs[..j + 1], colsLen, fmtDur) == DeviceRows(recs[..j], colsLen, fmtDur) + [Row(recs[j], colsLen, fmtDur)]
  {
    var f := d => Row(d, colsLen, fmtDur);
    assert recs[..j + 1] == recs[..j] + [recs[j]];
    MapConcat(f, recs[..j], [recs[j]]);
    MapAt(f, [recs[j]], 0);
  }

  /** The `j`-th row of a device is the row of its `j`-th record. */
  lemma DeviceRowsAt(recs: seq<DiskStat>, j: nat, colsLen: int, fmtDur: Duration -> string)
    requires j < |recs|
    ensures DeviceRows(recs, colsLen, fmtDur)[j] == Row(recs[j], colsLen, fmtDur)
  {
    MapAt(d => Row(d, colsLen, fmtDur), recs, j);
  }

  /** `f`'s sequences for the elements of `xs`, one after another. */
  function FlatMap<A, B>(f: A -> seq<B>, xs: seq<A>): seq<B> {
    if xs == [] then [] else FlatMap(f, xs[..|xs| - 1]) + f(xs[|xs| - 1])
  }

  lemma {:induction false} FlatMapConcat<A, B>(f: A -> seq<B>, xs: seq<A>, ys: seq<A>)
    ensures FlatMap(f, xs + ys) == FlatMap(f, xs) + FlatMap(f, ys)
  {
    if ys == [] {
      assert xs + ys == xs;
    } else {
      var n := |ys| - 1;
      assert (xs + ys)[..|xs| + n] == xs + ys[..n];
      FlatMapConcat(f, xs, ys[..n]);
    }
  }

  /** The rows of the devices named in `order`, device after device. */
  function DataRows(stats: map<string, seq<DiskStat>>, order: seq<string>, colsLen: int,
                    fmtDur: Duration -> string): seq<seq<string>> {
    FlatMap(k => DeviceRows(StatsOf(stats, k), colsLen, fmtDur), order)
  }

  lemma DataRowsSnoc(stats: map<string, seq<DiskStat>>, order: seq<string>, name: string,
                     colsLen: int, fmtDur: Duration -> string)
    ensures DataRows(stats, order + [name], colsLen, fmtDur)
         == DataRows(stats, order, colsLen, fmtDur) + DeviceRows(StatsOf(stats, name), colsLen, fmtDur)
    ensures Total(stats, order + [name]) == Total(stats, order) + |StatsOf(stats, name)|
  {
    assert (order + [name])[..|order|] == order;
  }

  /** No name occurs twice in `order`. */
  predicate Distinct(order: seq<string>) {
    forall i, j :: 0 <= i < j < |order| ==> order[i] != order[j]
  }

  /** `order` lists every name of `keys` exactly once. */
  predicate IsOrdering(order: seq<string>, keys: set<string>) {
    && Distinct(order)
    && (forall k :: k in order ==> k in keys)
    && (forall k :: k in keys ==> k in order)
  }

  /** The number of records kept under the names in `order`. */
  function Total(stats: map<string, seq<DiskStat>>, order: seq<string>): nat {
    if order == [] then 0
    else
      var n := |order| - 1;
      Total(stats, order[..n]) + |StatsOf(stats, order[n])|
  }

  /** Appending the row of the next record extends a device's rows. */
  lemma AppendRow(before: seq<seq<string>>, data: seq<seq<string>>, recs: seq<DiskStat>, j: nat,
                  row: seq<string>, colsLen: int, fmtDur: Duration -> string)
    requires j < |recs|
    requires data == before + DeviceRows(recs[..j], colsLen, fmtDur)
    requires row == Row(recs[j], colsLen, fmtDur)
    ensures data + [row] == before + DeviceRows(recs[..j + 1], colsLen, fmtDur)
  {
    DeviceRowsSnoc(recs, j, colsLen, fmtDur);
    var rows := DeviceRows(recs[..j], colsLen, fmtDur);
    assert (before + rows) + [row] == before + (rows + [row]);
  }

  /** The header, built by appending column groups as the program does
      (main.go:143-152). */
  method FormatHeader(colsLen: int) returns (headers: seq<string>)
    ensures headers == Header(colsLen)
  {
    headers := ["Device",
      "Reads / Merged", "Sectors Read", "Read Time",
      "Writes / Merged", "Sectors Written", "Write Time",
      "IOs Now", "IOs Time", "Weighted IOs Time"];
    if colsLen > 14 {
      headers := headers + ["Discards / Merged", "Sectors Discarded", "Discard Time"];
    }
    if colsLen > 18 {
      headers := headers + ["Flushes", "Time Flushing"];
    }
  }

  /** One row, built by appending cell groups as the program does
      (main.go:155-177). */
  method FormatRow(dev: DiskStat, colsLen: int, fmtDur: Duration -> string) returns (row: seq<string>)
    ensures row == Row(dev, colsLen, fmtDur)
  {
    row := [dev.deviceName + " " + IntToDecimal(dev.majorNumber) + "/" + IntToDecimal(dev.minorNumber),
      IntToDecimal(dev.readsCompleted) + " / " + IntToDecimal(dev.readsMerged),
      IntToDecimal(dev.sectorsRead),
      fmtDur(dev.timeSpentReading),
      IntToDecimal(dev.writesCompleted) + " / " + IntToDecimal(dev.writesMerged),
      IntToDecimal(dev.sectorsWritten),
      fmtDur(dev.timeSpentWriting),
      IntToDecimal(dev.iosInProgress),
      fmtDur(dev.timeSpentDoingIOs),
      fmtDur(dev.weightedTimeSpentDoingIOs)];
    assert row == BaseCells(dev, fmtDur);
    if colsLen > 14 {
      row := row + [IntToDecimal(dev.discardsCompletedSuccessfully) + " / " + IntToDecimal(dev.discardsMerged),
        IntToDecimal(dev.sectorsDiscarded),
        fmtDur(dev.timeSpentDiscarding)];
    }
    if colsLen > 18 {
      row := row + [IntToDecimal(dev.flushRequestsCompleted), fmtDur(dev.timeSpentFlushing)];
    }
  }

  /** The inner loop: the rows of one device's records appended in order
      (main.go:154-178). */
  method AppendDeviceRows(data: seq<seq<string>>, stat: seq<DiskStat>, colsLen: int, fmtDur: Duration -> string)
    returns (out: seq<seq<string>>)
    requires forall i :: 0 <= i < |data| ==> |data[i]| == Width(colsLen)
    ensures out == data + DeviceRows(stat, colsLen, fmtDur)
    ensures forall i :: 0 <= i < |out| ==> |out[i]| == Width(colsLen)
  {
    out := data;
    var j := 0;
    while j < |stat|
      invariant 0 <= j <= |stat|
      invariant out == data + DeviceRows(stat[..j], colsLen, fmtDur)
      invariant forall i :: 0 <= i < |out| ==> |out[i]| == Width(colsLen)
    {
      var row := FormatRow(stat[j], colsLen, fmtDur);
      AppendRow(data, out, stat, j, row, colsLen, fmtDur);
      out := out + [row];
      j := j + 1;
    }
    assert stat[..j] == stat;
  }

  /** The header and the rows, built by appending as the program does, with
      the devices visited in an order the map does not fix (main.go:140-179). */
  method BuildData(stats: map<string, seq<DiskStat>>, colsLen: int, fmtDur: Duration -> string)
    returns (headers: seq<string>, data: seq<seq<string>>, ghost order: seq<string>)
    ensures IsOrdering(order, stats.Keys)
    ensures headers == Header(colsLen)
    ensures data == DataRows(stats, order, colsLen, fmtDur)
    ensures |data| == Total(stats, order)
    ensures forall i :: 0 <= i < |data| ==> |data[i]| == |headers|
  {
    headers := FormatHeader(colsLen);
    data := [];
    order := [];
    var remaining := stats.Keys;
    while remaining != {}
      invariant remaining <= stats.Keys
      invariant Distinct(order)
      invariant forall k :: k in order <==> k in stats.Keys && k !in remaining
      invariant data == DataRows(stats, order, colsLen, fmtDur)
      invariant |data| == Total(stats, order)
      invariant forall i :: 0 <= i < |data| ==> |data[i]| == Width(colsLen)
      decreases remaining
    {
      var name :| name in remaining;
      var stat := stats[name];
      data := AppendDeviceRows(data, stat, colsLen, fmtDur);
      DataRowsSnoc(stats, order, name, colsLen, fmtDur);
      order := order + [name];
      remaining := remaining - {name};
    }
  }

  /** A wider tier only adds columns at the end: the header at a lower
      tier is a prefix of the header at a higher one (main.go:143-152). */
  lemma HeaderNests(lower: int, higher: int)
    requires lower <= higher
    ensures Header(lower) <= Header(higher)
  {
  }

  /** The same holds for every row: `--short` drops trailing cells only. */
  lemma RowNests(d: DiskStat, lower: int, higher: int, fmtDur: Duration -> string)
    requires lower <= higher
    ensures Row(d, lower, fmtDur) <= Row(d, higher, fmtDur)
  {
  }

  /** Every column the parser converts is a digit string without
      superfluous leading zeros. */
  predicate CanonicalLine(cols: seq<string>) {
    forall i :: 0 <= i < |cols| && i < 20 && ColumnKind(i) != Name ==> Canonical(cols[i])
  }

  /** The duration a digit column denotes as milliseconds. */
  function Nanos(s: string): Duration
    requires AllDigits(s)
  {
    DigitsValue(s) * NanosPerMilli
  }

  /** A canonical column that reads as `v` is what `v` renders as. */
  lemma Echo(s: string, v: int)
    requires Canonical(s) && Atoi(s) == Some(v)
    ensures IntToDecimal(v) == s
  {
    RenderingOfAtoi(s);
  }

  /** The fields of a record read from canonical columns render as
      those columns. */
  lemma DescribedEchoes(cols: seq<string>, d: DiskStat)
    requires Describes(cols, d) && CanonicalLine(cols)
    ensures AcceptedWidth(|cols|) && d.deviceName == cols[2]
    ensures IntToDecimal(d.majorNumber) == cols[0] && IntToDecimal(d.minorNumber) == cols[1]
    ensures IntToDecimal(d.readsCompleted) == cols[3] && IntToDecimal(d.readsMerged) == cols[4]
    ensures IntToDecimal(d.sectorsRead) == cols[5] && d.timeSpentReading == Nanos(cols[6])
    ensures IntToDecimal(d.writesCompleted) == cols[7] && IntToDecimal(d.writesMerged) == cols[8]
    ensures IntToDecimal(d.sectorsWritten) == cols[9] && d.timeSpentWriting == Nanos(cols[10])
    ensures IntToDecimal(d.iosInProgress) == cols[11]
    ensures d.timeSpentDoingIOs == Nanos(cols[12]) && d.weightedTimeSpentDoingIOs == Nanos(cols[13])
    ensures |cols| > 14 ==>
      && IntToDecimal(d.discardsCompletedSuccessfully) == cols[14] && IntToDecimal(d.discardsMerged) == cols[15]
      && IntToDecimal(d.sectorsDiscarded) == cols[16] && d.timeSpentDiscarding == Nanos(cols[17])
    ensures |cols| > 18 ==>
      IntToDecimal(d.flushRequestsCompleted) == cols[18] && d.timeSpentFlushing == Nanos(cols[19])
    ensures |cols| == 14 ==>
      && d.discardsCompletedSuccessfully == 0 && d.discardsMerged == 0
      && d.sectorsDiscarded == 0 && d.timeSpentDiscarding == 0
    ensures |cols| <= 18 ==> d.flushRequestsCompleted == 0 && d.timeSpentFlushing == 0
  {
    EchoInt(cols, 0, d.majorNumber);
    EchoInt(cols, 1, d.minorNumber);
    EchoInt(cols, 3, d.readsCompleted);
    EchoInt(cols, 4, d.readsMerged);
    EchoInt(cols, 5, d.sectorsRead);
    EchoMillis(cols, 6, d.timeSpentReading);
    EchoInt(cols, 7, d.writesCompleted);
    EchoInt(cols, 8, d.writesMerged);
    EchoInt(cols, 9, d.sectorsWritten);
    EchoMillis(cols, 10, d.timeSpentWriting);
    EchoInt(cols, 11, d.iosInProgress);
    EchoMillis(cols, 12, d.timeSpentDoingIOs);
    EchoMillis(cols, 13, d.weightedTimeSpentDoingIOs);
    if |cols| > 14 {
      EchoInt(cols, 14, d.discardsCompletedSuccessfully);
      EchoInt(cols, 15, d.discardsMerged);
      EchoInt(cols, 16, d.sectorsDiscarded);
      EchoMillis(cols, 17, d.timeSpentDiscarding);
    }
    if |cols| > 18 {
      EchoInt(cols, 18, d.flushRequestsCompleted);
      EchoMillis(cols, 19, d.timeSpentFlushing);
    }
  }

  /** An integer column of a canonical line renders back as itself. */
  lemma EchoInt(cols: seq<string>, i: nat, v: int)
    requires IntAt(cols, i, v) && CanonicalLine(cols) && i < 20 && ColumnKind(i) == Integer
    ensures IntToDecimal(v) == cols[i]
  {
    Echo(cols[i], v);
  }

  /** A duration column of a canonical line holds its milliseconds. */
  lemma EchoMillis(cols: seq<string>, i: nat, v: Duration)
    requires MillisAt(cols, i, v) && CanonicalLine(cols) && i < 20 && ColumnKind(i) == Millis
    ensures AllDigits(cols[i]) && v == Nanos(cols[i])
  {
  }

  /** For canonical digit columns, the integer cells of a row reproduce the
      columns of the line they came from, and each duration cell shows the
      column's milliseconds (main.go:155-166, 197-203). */
  lemma RowEchoesColumns(cols: seq<string>, d: DiskStat, colsLen: int, fmtDur: Duration -> string)
    requires ParseLine(cols) == Ok(d) && CanonicalLine(cols)
    ensures |cols| >= 14
    ensures Row(d, colsLen, fmtDur)[..10] ==
      [cols[2] + " " + cols[0] + "/" + cols[1],
       cols[3] + " / " + cols[4],
       cols[5],
       fmtDur(Nanos(cols[6])),
       cols[7] + " / " + cols[8],
       cols[9],
       fmtDur(Nanos(cols[10])),
       cols[11],
       fmtDur(Nanos(cols[12])),
       fmtDur(Nanos(cols[13]))]
  {
    assert Describes(cols, d) by {
      ParseLineDescribes(cols, d);
    }
    DescribedEchoes(cols, d);
    RowLayout(d, colsLen, fmtDur);
  }

  /** The discard and flush cells of a line that carries those groups echo
      its columns, and the cells of a group the line lacks read zero
      (main.go:124-133, 167-177). */
  lemma OptionalCells(cols: seq<string>, d: DiskStat, colsLen: int, fmtDur: Duration -> string)
    requires ParseLine(cols) == Ok(d) && CanonicalLine(cols)
    ensures AcceptedWidth(|cols|)
    ensures colsLen > 14 && |cols| > 14 ==>
      Row(d, colsLen, fmtDur)[10..13] == [cols[14] + " / " + cols[15], cols[16], fmtDur(Nanos(cols[17]))]
    ensures colsLen > 14 && |cols| == 14 ==>
      Row(d, colsLen, fmtDur)[10..13] == ["0 / 0", "0", fmtDur(0)]
    ensures colsLen > 18 && |cols| > 18 ==>
      Row(d, colsLen, fmtDur)[13..] == [cols[18], fmtDur(Nanos(cols[19]))]
    ensures colsLen > 18 && |cols| <= 18 ==>
      Row(d, colsLen, fmtDur)[13..] == ["0", fmtDur(0)]
  {
    assert Describes(cols, d) by {
      ParseLineDescribes(cols, d);
    }
    DescribedEchoes(cols, d);
    RowLayout(d, colsLen, fmtDur);
    if |cols| == 14 {
      ZeroDiscards(d, fmtDur);
    }
    if |cols| <= 18 {
      ZeroFlushes(d, fmtDur);
    }
  }

  lemma ZeroDiscards(d: DiskStat, fmtDur: Duration -> string)
    requires d.discardsCompletedSuccessfully == 0 && d.discardsMerged == 0
    requires d.sectorsDiscarded == 0 && d.timeSpentDiscarding == 0
    ensures DiscardCells(d, fmtDur) == ["0 / 0", "0", fmtDur(0)]
  {
    assert IntToDecimal(0) == "0";
    assert Pair(0, 0) == "0 / 0";
  }

  lemma ZeroFlushes(d: DiskStat, fmtDur: Duration -> string)
    requires d.flushRequestsCompleted == 0 && d.timeSpentFlushing == 0
    ensures FlushCells(d, fmtDur) == ["0", fmtDur(0)]
  {
    assert IntToDecimal(0) == "0";
  }

  /** Each device's rows form one contiguous block, in the order its
      records arrived, between the rows of the devices visited before it
      and those visited after it (main.go:153-179). */
  lemma DeviceBlock(stats: map<string, seq<DiskStat>>, order: seq<string>, m: nat,
                    colsLen: int, fmtDur: Duration -> string)
    requires m < |order|
    ensures DataRows(stats, order, colsLen, fmtDur)
         == DataRows(stats, order[..m], colsLen, fmtDur)
            + DeviceRows(StatsOf(stats, order[m]), colsLen, fmtDur)
            + DataRows(stats, order[m + 1..], colsLen, fmtDur)
    ensures var recs := StatsOf(stats, order[m]);
      forall j :: 0 <= j < |recs| ==> DeviceRows(recs, colsLen, fmtDur)[j] == Row(recs[j], colsLen, fmtDur)
  {
    var f := k => DeviceRows(StatsOf(stats, k), colsLen, fmtDur);
    assert order == order[..m + 1] + order[m + 1..];
    FlatMapConcat(f, order[..m + 1], order[m + 1..]);
    assert order[..m + 1][..m] == order[..m];
    var recs := StatsOf(stats, order[m]);
    forall j | 0 <= j < |recs|
      ensures DeviceRows(recs, colsLen, fmtDur)[j] == Row(recs[j], colsLen, fmtDur)
    {
      DeviceRowsAt(recs, j, colsLen, fmtDur);
    }
  }

  /** The sum, over the names in `order`, of the number of records of each. */
  function FilterTotal(recs: seq<DiskStat>, order: seq<string>): nat {
    if order == [] then 0
    else
      var n := |order| - 1;
      FilterTotal(recs, order[..n]) + |Filter(recs, order[n])|
  }

  /** One more record adds one to the sum when its name is listed once. */
  lemma {:induction false} FilterTotalSnoc(recs: seq<DiskStat>, d: DiskStat, order: seq<string>)
    requires Distinct(order)
    ensures FilterTotal(recs + [d], order) == FilterTotal(recs, order) + if d.deviceName in order then 1 else 0
  {
    if order != [] {
      var n := |order| - 1;
      assert Distinct(order[..n]);
      FilterTotalSnoc(recs, d, order[..n]);
      FilterSnoc(recs, d, order[n]);
      assert order == order[..n] + [order[n]];
      assert d.deviceName in order[..n] ==> d.deviceName != order[n];
    }
  }

  /** Counting each listed device's records counts every record once when
      every record's name is listed once. */
  lemma {:induction false} FilterTotalAll(recs: seq<DiskStat>, order: seq<string>)
    requires Distinct(order)
    requires forall j :: 0 <= j < |recs| ==> recs[j].deviceName in order
    ensures FilterTotal(recs, order) == |recs|
  {
    if recs == [] {
      FilterTotalEmpty(order);
    } else {
      var n := |recs| - 1;
      FilterTotalAll(recs[..n], order);
      assert recs == recs[..n] + [recs[n]];
      FilterTotalSnoc(recs[..n], recs[n], order);
    }
  }

  lemma {:induction false} FilterTotalEmpty(order: seq<string>)
    ensures FilterTotal([], order) == 0
  {
    if order != [] {
      FilterTotalEmpty(order[..|order| - 1]);
    }
  }

  /** A record is among the records of its own device. */
  lemma {:induction false} FilterHas(recs: seq<DiskStat>, j: nat)
    requires j < |recs|
    ensures recs[j] in Filter(recs, recs[j].deviceName)
  {
    var n := |recs| - 1;
    if j < n {
      FilterHas(recs[..n], j);
    }
  }

  lemma {:induction false} TotalOfGroups(stats: map<string, seq<DiskStat>>, recs: seq<DiskStat>, order: seq<string>)
    requires forall k :: StatsOf(stats, k) == Filter(recs, k)
    ensures Total(stats, order) == FilterTotal(recs, order)
  {
    if order != [] {
      TotalOfGroups(stats, recs, order[..|order| - 1]);
    }
  }

  /** The rows number the total of the lists visited. */
  lemma {:induction false} DataRowsLength(stats: map<string, seq<DiskStat>>, order: seq<string>,
                                          colsLen: int, fmtDur: Duration -> string)
    ensures |DataRows(stats, order, colsLen, fmtDur)| == Total(stats, order)
  {
    if order != [] {
      DataRowsLength(stats, order[..|order| - 1], colsLen, fmtDur);
    }
  }

  /** However the map is traversed, the table has one row per record read
      (main.go:134, 153-179). */
  lemma RowCount(lines: seq<string>, short: bool, order: seq<string>, fmtDur: Duration -> string)
    requires Collect(lines, short).Ok?
    requires IsOrdering(order, Collect(lines, short).value.stats.Keys)
    ensures var s := Collect(lines, short).value;
      |DataRows(s.stats, order, s.colsLen, fmtDur)| == |Parsed(lines)|
  {
    var s := Collect(lines, short).value;
    var recs := Parsed(lines);
    CollectFailsAtFirstBadLine(lines, short);
    CollectGroups(lines, short);
    forall j | 0 <= j < |recs| ensures recs[j].deviceName in order {
      FilterHas(recs, j);
    }
    FilterTotalAll(recs, order);
    TotalOfGroups(s.stats, recs, order);
    DataRowsLength(s.stats, order, s.colsLen, fmtDur);
  }

  /** The whole program on `lines`: either the first line that stops it,
      or the header and the rows it prints (main.go:92-187). */
  method Report(lines: seq<string>, short: bool, fmtDur: Duration -> string)
    returns (r: Result<(seq<string>, seq<seq<string>>), Failure>, ghost order: seq<string>)
    ensures r.Err? <==> Collect(lines, short).Err?
    ensures r.Err? ==> r.error == Collect(lines, short).error
    ensures r.Ok? ==>
      var s := Collect(lines, short).value;
      && IsOrdering(order, s.stats.Keys)
      && r.value.0 == Header(s.colsLen)
      && r.value.1 == DataRows(s.stats, order, s.colsLen, fmtDur)
      && |r.value.1| == |Parsed(lines)|
      && (forall i :: 0 <= i < |r.value.1| ==> |r.value.1[i]| == |r.value.0|)
  {
    var collected := CollectStats(lines, short);
    if collected.Err? {
      return Err(collected.error), [];
    }
    var s := collected.value;
    var headers, data;
    headers, data, order := BuildData(s.stats, s.colsLen, fmtDur);
    RowCount(lines, short, order, fmtDur);
    r := Ok((headers, data));
  }
}
