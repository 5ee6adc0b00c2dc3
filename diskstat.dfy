/**
 * One line of the block-device statistics table: the record it becomes and
 * the column-by-column conversion that builds it (main.go:69-90, 108-133).
 */
module DiskStats {
  import opened Results
  import opened Numbers

  /** A span of time in nanoseconds. */
  type Duration = int

  /** One parsed line. Optional groups a line does not carry stay zero. */
  datatype DiskStat = DiskStat(
    majorNumber: int,
    minorNumber: int,
    deviceName: string,
    readsCompleted: int,
    readsMerged: int,
    sectorsRead: int,
    timeSpentReading: Duration,
    writesCompleted: int,
    writesMerged: int,
    sectorsWritten: int,
    timeSpentWriting: Duration,
    iosInProgress: int,
    timeSpentDoingIOs: Duration,
    weightedTimeSpentDoingIOs: Duration,
    discardsCompletedSuccessfully: int,
    discardsMerged: int,
    sectorsDiscarded: int,
    timeSpentDiscarding: Duration,
    flushRequestsCompleted: int,
    timeSpentFlushing: Duration)

  /** Why a line cannot be turned into a record; each case is a panic of
      the program: a column index past the end, a column that is not an
      integer, or one that is not a millisecond count (`text` is the string
      handed to the conversion). */
  datatype ParseError =
    | MissingColumn(column: nat)
    | NotAnInteger(column: nat, text: string)
    | NotADuration(column: nat, text: string)

  /** How a column is read. */
  datatype Kind = Integer | Name | Millis

  /** The column layout of a statistics line: field 3 is the device name,
      fields 7, 11, 13, 14, 18 and 20 are times in milliseconds, the rest
      are counters (numbered from 1; indices here start at 0). */
  function ColumnKind(i: nat): Kind {
    if i == 2 then Name
    else if i == 6 || i == 10 || i == 12 || i == 13 || i == 17 || i == 19 then Millis
    else Integer
  }

  /** How many columns the parser reads from a line of `n` columns: the 14
      mandatory ones, the 4 discard ones when there are more than 14, and
      the 2 flush ones when there are more than 18. */
  function ColumnsRead(n: nat): (r: nat)
    ensures 14 <= r <= 20
    ensures r <= n <==> AcceptedWidth(n)
  {
    if n > 18 then 20 else if n > 14 then 18 else 14
  }

  /** Column `i` is present and converts as its kind demands. */
  predicate ColumnOk(cols: seq<string>, i: nat) {
    i < |cols| &&
    match ColumnKind(i)
    case Name => true
    case Integer => Atoi(cols[i]).Some?
    case Millis => ParseMillis(cols[i]).Some?
  }

  function IntColumn(cols: seq<string>, i: nat): (r: Result<int, ParseError>)
    ensures r.Ok? <==> i < |cols| && Atoi(cols[i]).Some?
    ensures r.Ok? ==> Atoi(cols[i]) == Some(r.value)
    ensures r.Err? ==> r.error.column == i
  {
    if i >= |cols| then Err(MissingColumn(i))
    else match Atoi(cols[i])
      case Some(v) => Ok(v)
      case None => Err(NotAnInteger(i, cols[i]))
  }

  function MillisColumn(cols: seq<string>, i: nat): (r: Result<Duration, ParseError>)
    ensures r.Ok? <==> i < |cols| && ParseMillis(cols[i]).Some?
    ensures r.Ok? ==> ParseMillis(cols[i]) == Some(r.value)
    ensures r.Err? ==> r.error.column == i
  {
    if i >= |cols| then Err(MissingColumn(i))
    else match ParseMillis(cols[i])
      case Some(v) => Ok(v)
      case None => Err(NotADuration(i, cols[i] + "ms"))
  }

  function NameColumn(cols: seq<string>, i: nat): Result<string, ParseError> {
    if i >= |cols| then Err(MissingColumn(i)) else Ok(cols[i])
  }

  /** The identity columns 0-2: major number, minor number, device name. */
  function Identity(cols: seq<string>): (r: Result<(int, int, string), ParseError>)
    ensures r.Ok? ==> 3 <= |cols| && r.value.2 == cols[2]
    ensures r.Err? ==> r.error.column < 3
  {
    var major :- IntColumn(cols, 0);
    var minor :- IntColumn(cols, 1);
    var name :- NameColumn(cols, 2);
    Ok((major, minor, name))
  }

  /** Four columns from `at` on: completed, merged, sectors, and time in
      milliseconds; the layout of the read, write and discard groups. */
  function Counters(cols: seq<string>, at: nat): (r: Result<(int, int, int, Duration), ParseError>)
    ensures r.Ok? ==> at + 4 <= |cols|
    ensures r.Err? ==> at <= r.error.column < at + 4
  {
    var completed :- IntColumn(cols, at);
    var merged :- IntColumn(cols, at + 1);
    var sectors :- IntColumn(cols, at + 2);
    var time :- MillisColumn(cols, at + 3);
    Ok((completed, merged, sectors, time))
  }

  /** The columns 11-13: I/Os in progress, time doing I/Os, weighted time. */
  function InFlight(cols: seq<string>): (r: Result<(int, Duration, Duration), ParseError>)
    ensures r.Ok? ==> 14 <= |cols|
    ensures r.Err? ==> 11 <= r.error.column < 14
  {
    var now :- IntColumn(cols, 11);
    var time :- MillisColumn(cols, 12);
    var weighted :- MillisColumn(cols, 13);
    Ok((now, time, weighted))
  }

  /** The two flush columns 18-19. */
  function Flushes(cols: seq<string>): (r: Result<(int, Duration), ParseError>)
    ensures r.Ok? ==> 20 <= |cols|
    ensures r.Err? ==> 18 <= r.error.column < 20
  {
    var completed :- IntColumn(cols, 18);
    var time :- MillisColumn(cols, 19);
    Ok((completed, time))
  }

  /** The fourteen mandatory columns 0-13, optional groups zero (main.go:108-123). */
  function Mandatory(cols: seq<string>): (r: Result<DiskStat, ParseError>)
    ensures r.Ok? ==> 14 <= |cols| && r.value.deviceName == cols[2]
    ensures r.Err? ==> r.error.column < 14
  {
    var id :- Identity(cols);
    var reading :- Counters(cols, 3);
    var writing :- Counters(cols, 7);
    var ios :- InFlight(cols);
    Ok(DiskStat(id.0, id.1, id.2,
                reading.0, reading.1, reading.2, reading.3,
                writing.0, writing.1, writing.2, writing.3,
                ios.0, ios.1, ios.2,
                0, 0, 0, 0, 0, 0))
  }

  /** The record for one line's columns, or the panic the program would
      raise, for the first faulty column in left-to-right order
      (main.go:108-133). */
  function ParseLine(cols: seq<string>): (r: Result<DiskStat, ParseError>)
    ensures r.Ok? ==> AcceptedWidth(|cols|) && r.value.deviceName == cols[2]
    ensures r.Err? ==> r.error.column < ColumnsRead(|cols|)
  {
    var base :- Mandatory(cols);
    var discarded :-
      if |cols| > 14 then
        var discards :- Counters(cols, 14);
        Ok(base.(discardsCompletedSuccessfully := discards.0, discardsMerged := discards.1,
                 sectorsDiscarded := discards.2, timeSpentDiscarding := discards.3))
      else Ok(base);
    if |cols| > 18 then
      var flushes :- Flushes(cols);
      Ok(discarded.(flushRequestsCompleted := flushes.0, timeSpentFlushing := flushes.1))
    else Ok(discarded)
  }

  /** The error the program raises for column `i` when it is faulty. */
  function Fault(cols: seq<string>, i: nat): ParseError {
    if i >= |cols| then MissingColumn(i)
    else if ColumnKind(i) == Millis then NotADuration(i, cols[i] + "ms")
    else NotAnInteger(i, cols[i])
  }

  /** `e` names the first column, in reading order, that is missing or does
      not convert, and says which way it failed. */
  predicate ReportsFirstFault(cols: seq<string>, e: ParseError) {
    && !ColumnOk(cols, e.column)
    && (forall i :: 0 <= i < e.column ==> ColumnOk(cols, i))
    && match e
       case MissingColumn(c) => c >= |cols|
       case NotAnInteger(c, text) => c < |cols| && ColumnKind(c) == Integer && text == cols[c]
       case NotADuration(c, text) => c < |cols| && ColumnKind(c) == Millis && text == cols[c] + "ms"
  }

  /** `r`, the result of reading columns `lo` to `hi - 1` in order,
      succeeds exactly when they are all good, and otherwise carries the
      fault of the first bad one. */
  predicate GroupOutcome<T>(cols: seq<string>, lo: nat, hi: nat, r: Result<T, ParseError>) {
    && (r.Ok? <==> forall i :: lo <= i < hi ==> ColumnOk(cols, i))
    && (r.Err? ==>
          && lo <= r.error.column < hi
          && r.error == Fault(cols, r.error.column)
          && !ColumnOk(cols, r.error.column)
          && forall i :: lo <= i < r.error.column ==> ColumnOk(cols, i))
  }

  lemma ColumnOutcome(cols: seq<string>, i: nat)
    ensures ColumnKind(i) == Integer ==> GroupOutcome(cols, i, i + 1, IntColumn(cols, i))
    ensures ColumnKind(i) == Millis ==> GroupOutcome(cols, i, i + 1, MillisColumn(cols, i))
    ensures ColumnKind(i) == Name ==> GroupOutcome(cols, i, i + 1, NameColumn(cols, i))
  {
    assert (forall j :: i <= j < i + 1 ==> ColumnOk(cols, j)) <==> ColumnOk(cols, i) by {
      if ColumnOk(cols, i) {
        forall j | i <= j < i + 1 ensures ColumnOk(cols, j) { assert j == i; }
      }
    }
  }

  lemma IdentityOutcome(cols: seq<string>)
    ensures GroupOutcome(cols, 0, 3, Identity(cols))
  {
    ColumnOutcome(cols, 0);
    ColumnOutcome(cols, 1);
    ColumnOutcome(cols, 2);
  }

  lemma CountersOutcome(cols: seq<string>, at: nat)
    requires at == 3 || at == 7 || at == 14
    ensures GroupOutcome(cols, at, at + 4, Counters(cols, at))
  {
    ColumnOutcome(cols, at);
    ColumnOutcome(cols, at + 1);
    ColumnOutcome(cols, at + 2);
    ColumnOutcome(cols, at + 3);
  }

  lemma InFlightOutcome(cols: seq<string>)
    ensures GroupOutcome(cols, 11, 14, InFlight(cols))
  {
    ColumnOutcome(cols, 11);
    ColumnOutcome(cols, 12);
    ColumnOutcome(cols, 13);
  }

  lemma FlushesOutcome(cols: seq<string>)
    ensures GroupOutcome(cols, 18, 20, Flushes(cols))
  {
    ColumnOutcome(cols, 18);
    ColumnOutcome(cols, 19);
  }

  lemma MandatoryOutcome(cols: seq<string>)
    ensures GroupOutcome(cols, 0, 14, Mandatory(cols))
  {
    IdentityOutcome(cols);
    CountersOutcome(cols, 3);
    CountersOutcome(cols, 7);
    InFlightOutcome(cols);
  }

  /** A line converts exactly when every column the parser reads is present
      and well formed; otherwise the error is the first faulty column
      (main.go:108-133, 189-203). */
  lemma ParseLineOutcome(cols: seq<string>)
    ensures ParseLine(cols).Ok? <==> forall i :: 0 <= i < ColumnsRead(|cols|) ==> ColumnOk(cols, i)
    ensures ParseLine(cols).Err? ==> ParseLine(cols).error.column < ColumnsRead(|cols|)
    ensures ParseLine(cols).Err? ==> ReportsFirstFault(cols, ParseLine(cols).error)
  {
    MandatoryOutcome(cols);
    CountersOutcome(cols, 14);
    FlushesOutcome(cols);
  }

  /** The column counts the parser accepts: 14, 18, and 20 or more. */
  predicate AcceptedWidth(n: nat) {
    n == 14 || n == 18 || n >= 20
  }

  /** Every column present in the line converts as its kind demands. */
  predicate WellFormed(cols: seq<string>) {
    forall i :: 0 <= i < |cols| ==> ColumnOk(cols, i)
  }

  /** Column counts alone decide the outcome of a well-formed line: 14, 18
      and 20 or more columns convert, and any other count makes the parser
      index a column that is not there (main.go:108-133). */
  lemma WidthDecides(cols: seq<string>)
    ensures !AcceptedWidth(|cols|) ==> ParseLine(cols).Err?
    ensures WellFormed(cols) ==> (ParseLine(cols).Ok? <==> AcceptedWidth(|cols|))
    ensures WellFormed(cols) && !AcceptedWidth(|cols|) ==> ParseLine(cols) == Err(MissingColumn(|cols|))
  {
    ParseLineOutcome(cols);
    if !AcceptedWidth(|cols|) {
      assert |cols| < ColumnsRead(|cols|) && !ColumnOk(cols, |cols|);
      if WellFormed(cols) {
        var e := ParseLine(cols).error;
        assert !ColumnOk(cols, e.column);
        assert e.column == |cols|;
      }
    } else {
      assert ColumnsRead(|cols|) <= |cols|;
    }
  }

  /** Column `i` reads as the integer `v`. */
  predicate IntAt(cols: seq<string>, i: nat, v: int) {
    i < |cols| && Atoi(cols[i]) == Some(v)
  }

  /** Column `i` reads as the duration `v`, a whole number of milliseconds. */
  predicate MillisAt(cols: seq<string>, i: nat, v: Duration) {
    i < |cols| && ParseMillis(cols[i]) == Some(v)
  }

  /** The fields `d` holds for a line of columns `cols`, field by field:
      every mandatory field from its column, the discard group from columns
      14-17 when there are more than 14 columns and zero otherwise, the
      flush group from columns 18-19 when there are more than 18 columns and
      zero otherwise; the column count is one the parser accepts. */
  predicate Describes(cols: seq<string>, d: DiskStat) {
    && AcceptedWidth(|cols|)
    && IntAt(cols, 0, d.majorNumber) && IntAt(cols, 1, d.minorNumber)
    && d.deviceName == cols[2]
    && IntAt(cols, 3, d.readsCompleted) && IntAt(cols, 4, d.readsMerged)
    && IntAt(cols, 5, d.sectorsRead) && MillisAt(cols, 6, d.timeSpentReading)
    && IntAt(cols, 7, d.writesCompleted) && IntAt(cols, 8, d.writesMerged)
    && IntAt(cols, 9, d.sectorsWritten) && MillisAt(cols, 10, d.timeSpentWriting)
    && IntAt(cols, 11, d.iosInProgress) && MillisAt(cols, 12, d.timeSpentDoingIOs)
    && MillisAt(cols, 13, d.weightedTimeSpentDoingIOs)
    && (if |cols| > 14 then
          && IntAt(cols, 14, d.discardsCompletedSuccessfully) && IntAt(cols, 15, d.discardsMerged)
          && IntAt(cols, 16, d.sectorsDiscarded) && MillisAt(cols, 17, d.timeSpentDiscarding)
        else
          && d.discardsCompletedSuccessfully == 0 && d.discardsMerged == 0
          && d.sectorsDiscarded == 0 && d.timeSpentDiscarding == 0)
    && (if |cols| > 18 then
          IntAt(cols, 18, d.flushRequestsCompleted) && MillisAt(cols, 19, d.timeSpentFlushing)
        else
          d.flushRequestsCompleted == 0 && d.timeSpentFlushing == 0)
  }

  lemma CountersValue(cols: seq<string>, at: nat)
    requires Counters(cols, at).Ok?
    ensures var c := Counters(cols, at).value;
      IntAt(cols, at, c.0) && IntAt(cols, at + 1, c.1) && IntAt(cols, at + 2, c.2) && MillisAt(cols, at + 3, c.3)
  {
  }

  lemma MandatoryValue(cols: seq<string>)
    requires Mandatory(cols).Ok?
    ensures var d := Mandatory(cols).value;
      && IntAt(cols, 0, d.majorNumber) && IntAt(cols, 1, d.minorNumber) && d.deviceName == cols[2]
      && IntAt(cols, 3, d.readsCompleted) && IntAt(cols, 4, d.readsMerged)
      && IntAt(cols, 5, d.sectorsRead) && MillisAt(cols, 6, d.timeSpentReading)
      && IntAt(cols, 7, d.writesCompleted) && IntAt(cols, 8, d.writesMerged)
      && IntAt(cols, 9, d.sectorsWritten) && MillisAt(cols, 10, d.timeSpentWriting)
      && IntAt(cols, 11, d.iosInProgress) && MillisAt(cols, 12, d.timeSpentDoingIOs)
      && MillisAt(cols, 13, d.weightedTimeSpentDoingIOs)
      && d.discardsCompletedSuccessfully == 0 && d.discardsMerged == 0
      && d.sectorsDiscarded == 0 && d.timeSpentDiscarding == 0
      && d.flushRequestsCompleted == 0 && d.timeSpentFlushing == 0
  {
    CountersValue(cols, 3);
    CountersValue(cols, 7);
  }

  /** A successful parse describes its line field by field, and the fields
      a line describes are what it parses to: the description and the
      parser agree exactly (main.go:108-133). */
  lemma ParseLineDescribes(cols: seq<string>, d: DiskStat)
    ensures ParseLine(cols) == Ok(d) <==> Describes(cols, d)
  {
    if Describes(cols, d) {
      DescribesParses(cols, d);
    }
    if ParseLine(cols) == Ok(d) {
      ParsedDescribes(cols);
    }
  }

  /** The record a line parses to describes it. */
  lemma ParsedDescribes(cols: seq<string>)
    requires ParseLine(cols).Ok?
    ensures Describes(cols, ParseLine(cols).value)
  {
    WidthDecides(cols);
    MandatoryValue(cols);
    if |cols| > 14 {
      CountersValue(cols, 14);
    }
  }

  /** A record that describes a line is what the line parses to. */
  lemma DescribesParses(cols: seq<string>, d: DiskStat)
    requires Describes(cols, d)
    ensures ParseLine(cols) == Ok(d)
  {
    assert Identity(cols) == Ok((d.majorNumber, d.minorNumber, d.deviceName));
    assert Counters(cols, 3) == Ok((d.readsCompleted, d.readsMerged, d.sectorsRead, d.timeSpentReading));
    assert Counters(cols, 7) == Ok((d.writesCompleted, d.writesMerged, d.sectorsWritten, d.timeSpentWriting));
    assert InFlight(cols) == Ok((d.iosInProgress, d.timeSpentDoingIOs, d.weightedTimeSpentDoingIOs));
    if |cols| > 14 {
      assert Counters(cols, 14) == Ok((d.discardsCompletedSuccessfully, d.discardsMerged, d.sectorsDiscarded, d.timeSpentDiscarding));
    }
    if |cols| > 18 {
      assert Flushes(cols) == Ok((d.flushRequestsCompleted, d.timeSpentFlushing));
    }
  }

  /** The device name of a parsed line is its third column, verbatim. */
  lemma ParseLineName(cols: seq<string>)
    requires ParseLine(cols).Ok?
    ensures |cols| >= 14 && ParseLine(cols).value.deviceName == cols[2]
  {
    MandatoryValue(cols);
    ParseLineOutcome(cols);
  }

  /** A line describes at most one record. */
  lemma DescribesUnique(cols: seq<string>, d: DiskStat, e: DiskStat)
    requires Describes(cols, d) && Describes(cols, e)
    ensures d == e
  {
  }

  /** Columns after index 19 are never read: appending more columns to a
      line of at least 20 leaves its outcome unchanged, error included. */
  lemma ExtraColumnsIgnored(cols: seq<string>, more: seq<string>)
    requires |cols| >= 20
    ensures ParseLine(cols + more) == ParseLine(cols)
  {
    var long := cols + more;
    assert forall i :: 0 <= i < 20 ==> (ColumnOk(long, i) <==> ColumnOk(cols, i)) by {
      forall i | 0 <= i < 20 ensures ColumnOk(long, i) <==> ColumnOk(cols, i) {
        assert long[i] == cols[i];
      }
    }
    ParseLineOutcome(cols);
    ParseLineOutcome(long);
    if ParseLine(cols).Ok? {
      var d := ParseLine(cols).value;
      ParseLineDescribes(cols, d);
      assert Describes(long, d) by {
        assert long[..20] == cols[..20];
        assert forall i :: 0 <= i < 20 ==> long[i] == cols[i];
      }
      ParseLineDescribes(long, d);
    } else {
      var a := ParseLine(cols).error;
      var b := ParseLine(long).error;
      assert !ColumnOk(long, a.column);
      assert !ColumnOk(cols, b.column);
      assert a.column == b.column;
      assert long[a.column] == cols[a.column];
    }
  }
}
