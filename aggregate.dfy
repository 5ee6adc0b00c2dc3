/**
 * The input loop of the program (main.go:96-135): every non-blank line is
 * normalised, split and parsed, its record is appended to the list kept
 * under its device name, and the column count of the line becomes the
 * display tier. The first line that does not parse ends the run.
 */
module Aggregation {
  import opened Results
  import opened Text
  import opened DiskStats

  /** The run stopped at input line `line` (counted from 0). */
  datatype Failure = LineError(line: nat, error: ParseError)

  /** What the loop has gathered: the records per device name, in arrival
      order, and the column count that decides the table's tier. */
  datatype Summary = Summary(stats: map<string, seq<DiskStat>>, colsLen: int)

  /** What one input line amounts to: nothing (a blank line), a record
      together with the line's column count, or the error that stops the
      run. */
  datatype Scanned = Skip | Record(stat: DiskStat, width: nat) | Bad(error: ParseError)

  /** Normalise, split and parse one line (main.go:99-133). */
  function Scan(line: string): Scanned {
    var norm := Normalise(line);
    if norm == [] then Skip
    else
      var cols := Split(norm);
      match ParseLine(cols)
      case Ok(d) => Record(d, |cols|)
      case Err(e) => Bad(e)
  }

  /** The list kept under `name`; a name not yet seen has the empty list. */
  function StatsOf(stats: map<string, seq<DiskStat>>, name: string): seq<DiskStat> {
    if name in stats then stats[name] else []
  }

  /** `stats` with `d` appended to the list under its device name
      (main.go:134). */
  function Append(stats: map<string, seq<DiskStat>>, d: DiskStat): map<string, seq<DiskStat>> {
    stats[d.deviceName := StatsOf(stats, d.deviceName) + [d]]
  }

  /** The state after the loop has consumed the scanned lines `items`, or
      the first line that made it stop. */
  function Gather(items: seq<Scanned>, short: bool): (r: Result<Summary, Failure>)
    ensures r.Err? ==> r.error.line < |items| && items[r.error.line].Bad?
  {
    if items == [] then Ok(Summary(map[], 0))
    else
      var n := |items| - 1;
      var s :- Gather(items[..n], short);
      match items[n]
      case Skip => Ok(s)
      case Record(d, w) => Ok(Summary(Append(s.stats, d), if short then 14 else w))
      case Bad(e) => Err(LineError(n, e))
  }

  /** `f` applied to every element of `xs`, in order. */
  function MapSeq<A, B>(f: A -> B, xs: seq<A>): seq<B> {
    seq(|xs|, j requires 0 <= j < |xs| => f(xs[j]))
  }

  lemma MapConcat<A, B>(f: A -> B, xs: seq<A>, ys: seq<A>)
    ensures MapSeq(f, xs + ys) == MapSeq(f, xs) + MapSeq(f, ys)
  {
    var all := xs + ys;
    forall j | 0 <= j < |all|
      ensures MapSeq(f, all)[j] == (MapSeq(f, xs) + MapSeq(f, ys))[j]
    {
      if j < |xs| {
        assert all[j] == xs[j];
      } else {
        assert all[j] == ys[j - |xs|];
      }
    }
  }

  lemma MapAt<A, B>(f: A -> B, xs: seq<A>, j: nat)
    requires j < |xs|
    ensures MapSeq(f, xs)[j] == f(xs[j])
  {
  }

  lemma MapPrefix<A, B>(f: A -> B, xs: seq<A>, n: nat)
    requires n <= |xs|
    ensures MapSeq(f, xs[..n]) == MapSeq(f, xs)[..n]
  {
  }

  /** Every line scanned, in order. */
  function ScanAll(lines: seq<string>): seq<Scanned> {
    MapSeq(Scan, lines)
  }

  /** The outcome of the input loop over `lines`. */
  function Collect(lines: seq<string>, short: bool): (r: Result<Summary, Failure>)
    ensures r.Err? ==> r.error.line < |lines|
  {
    Gather(ScanAll(lines), short)
  }

  /** The input loop of main (main.go:96-135), over local variables that it
      updates line by line. */
  method CollectStats(lines: seq<string>, short: bool) returns (r: Result<Summary, Failure>)
    ensures r == Collect(lines, short)
  {
    ghost var items := ScanAll(lines);
    var stats: map<string, seq<DiskStat>> := map[];
    var colsLen := 0;
    var i := 0;
    while i < |lines|
      invariant 0 <= i <= |lines|
      invariant Gather(items[..i], short) == Ok(Summary(stats, colsLen))
    {
      ghost var item := Scan(lines[i]);
      assert items[i] == item by {
        MapAt(Scan, lines, i);
      }
      var line := Normalise(lines[i]);
      if line == [] {
        assert item == Skip;
        GatherSkip(items, i, short);
        i := i + 1;
        continue;
      }
      var cols := Split(line);
      colsLen := |cols|;
      if short {
        colsLen := 14;
      }
      var parsed := ParseLine(cols);
      if parsed.Err? {
        assert item == Bad(parsed.error);
        GatherBad(items, i, short);
        return Err(LineError(i, parsed.error));
      }
      var d := parsed.value;
      assert item == Record(d, |cols|);
      GatherRecord(items, i, short);
      stats := stats[d.deviceName := StatsOf(stats, d.deviceName) + [d]];
      i := i + 1;
    }
    assert items[..i] == items;
    return Ok(Summary(stats, colsLen));
  }

  /** One step of the loop: a blank line changes nothing. */
  lemma GatherSkip(items: seq<Scanned>, i: nat, short: bool)
    requires i < |items| && items[i] == Skip
    ensures Gather(items[..i + 1], short) == Gather(items[..i], short)
  {
    assert items[..i + 1][..i] == items[..i];
  }

  /** One step of the loop: a record is appended and its width becomes the
      tier. */
  lemma GatherRecord(items: seq<Scanned>, i: nat, short: bool)
    requires i < |items| && items[i].Record? && Gather(items[..i], short).Ok?
    ensures Gather(items[..i + 1], short)
         == Ok(Summary(Append(Gather(items[..i], short).value.stats, items[i].stat),
                       if short then 14 else items[i].width))
  {
    assert items[..i + 1][..i] == items[..i];
  }

  /** One step of the loop: a line that does not parse ends the run with
      its index and error. */
  lemma GatherBad(items: seq<Scanned>, i: nat, short: bool)
    requires i < |items| && items[i].Bad? && Gather(items[..i], short).Ok?
    ensures Gather(items, short) == Err(LineError(i, items[i].error))
  {
    assert items[..i + 1][..i] == items[..i];
    GatherStopsAtFailure(items, i + 1, short);
  }

  /** Appending touches one list only: the record goes to the end of the
      list under its device name, every other list is unchanged, and the
      names present grow by that one name at most (main.go:134). */
  lemma AppendOnly(stats: map<string, seq<DiskStat>>, d: DiskStat)
    ensures StatsOf(Append(stats, d), d.deviceName) == StatsOf(stats, d.deviceName) + [d]
    ensures forall k :: k != d.deviceName ==> StatsOf(Append(stats, d), k) == StatsOf(stats, k)
    ensures Append(stats, d).Keys == stats.Keys + {d.deviceName}
  {
  }

  /** A line is skipped exactly when it is all white space; it yields a
      record exactly when the record describes its columns field by field,
      and an error exactly when the parser reports one (main.go:99-133). */
  lemma ScanOutcome(line: string, d: DiskStat, w: nat, e: ParseError)
    ensures Scan(line) == Skip <==> AllSpace(line)
    ensures Scan(line) == Record(d, w) <==> !AllSpace(line) && w == |Columns(line)| && Describes(Columns(line), d)
    ensures Scan(line) == Bad(e) <==> !AllSpace(line) && ParseLine(Columns(line)) == Err(e)
  {
    ParseLineDescribes(Columns(line), d);
  }

  /** Once a line fails, the lines after it are never read. */
  lemma {:induction false} GatherStopsAtFailure(items: seq<Scanned>, n: nat, short: bool)
    requires n <= |items| && Gather(items[..n], short).Err?
    ensures Gather(items, short) == Gather(items[..n], short)
  {
    if n < |items| {
      var m := |items| - 1;
      assert items[..m][..n] == items[..n];
      GatherStopsAtFailure(items[..m], n, short);
    } else {
      assert items[..n] == items;
    }
  }

  predicate NoBad(items: seq<Scanned>) {
    forall j :: 0 <= j < |items| ==> !items[j].Bad?
  }

  /** The loop gets through all lines exactly when none is bad, and
      otherwise stops at the first bad one with its error. */
  lemma {:induction false} GatherFailsAtFirstBad(items: seq<Scanned>, short: bool)
    ensures Gather(items, short).Ok? <==> NoBad(items)
    ensures Gather(items, short).Err? ==>
      var f := Gather(items, short).error;
      f.line < |items| && items[f.line] == Bad(f.error) && NoBad(items[..f.line])
  {
    if items != [] {
      var n := |items| - 1;
      var init := items[..n];
      GatherFailsAtFirstBad(init, short);
      assert forall j :: 0 <= j < n ==> init[j] == items[j];
      if Gather(init, short).Err? {
        var f := Gather(init, short).error;
        assert items[..f.line] == init[..f.line];
      } else {
        assert items[..n] == init;
      }
    }
  }

  /** The records among the scanned lines, in input order. */
  function Records(items: seq<Scanned>): seq<DiskStat> {
    if items == [] then []
    else
      var n := |items| - 1;
      Records(items[..n]) + if items[n].Record? then [items[n].stat] else []
  }

  /** The records of `recs` that belong to device `name`, in order. */
  function Filter(recs: seq<DiskStat>, name: string): (r: seq<DiskStat>)
    ensures |r| <= |recs|
  {
    if recs == [] then []
    else
      Filter(recs[..|recs| - 1], name)
        + if recs[|recs| - 1].deviceName == name then [recs[|recs| - 1]] else []
  }

  /** Each list holds records of its own device only, and no list is empty. */
  predicate Grouped(stats: map<string, seq<DiskStat>>) {
    forall k :: k in stats ==> stats[k] != [] && forall j :: 0 <= j < |stats[k]| ==> stats[k][j].deviceName == k
  }

  lemma FilterSnoc(recs: seq<DiskStat>, d: DiskStat, name: string)
    ensures Filter(recs + [d], name) == Filter(recs, name) + if d.deviceName == name then [d] else []
  {
    assert (recs + [d])[..|recs|] == recs;
  }

  /** Appending a record keeps the lists grouped by name. */
  lemma AppendKeepsGrouped(stats: map<string, seq<DiskStat>>, d: DiskStat)
    requires Grouped(stats)
    ensures Grouped(Append(stats, d))
  {
    var t: map<string, seq<DiskStat>> := Append(stats, d);
    forall k | k in t
      ensures t[k] != [] && forall j :: 0 <= j < |t[k]| ==> t[k][j].deviceName == k
    {
      if k == d.deviceName {
        assert t[k] == StatsOf(stats, k) + [d];
      } else {
        assert t[k] == stats[k];
      }
    }
  }

  /** When no line is bad, the list under every name is the subsequence of
      that device's records in input order, a name has a list exactly when
      some record carries it, and the lists are grouped by name. */
  lemma {:induction false} GatherGroups(items: seq<Scanned>, short: bool)
    requires NoBad(items)
    ensures Gather(items, short).Ok?
    ensures var s := Gather(items, short).value;
      && Grouped(s.stats)
      && (forall k :: StatsOf(s.stats, k) == Filter(Records(items), k))
      && (forall k :: k in s.stats <==> Filter(Records(items), k) != [])
  {
    GatherFailsAtFirstBad(items, short);
    if items != [] {
      var n := |items| - 1;
      var init := items[..n];
      assert NoBad(init) by {
        assert forall j :: 0 <= j < n ==> init[j] == items[j];
      }
      GatherGroups(init, short);
      var s := Gather(init, short).value;
      var t := Gather(items, short).value;
      var p := Records(init);
      if items[n].Record? {
        var d := items[n].stat;
        assert t.stats == Append(s.stats, d);
        assert Records(items) == p + [d];
        AppendKeepsGrouped(s.stats, d);
        AppendOnly(s.stats, d);
        forall k ensures StatsOf(t.stats, k) == Filter(p + [d], k) {
          FilterSnoc(p, d, k);
        }
        forall k ensures k in t.stats <==> Filter(p + [d], k) != [] {
          assert k !in t.stats ==> StatsOf(t.stats, k) == [];
        }
      } else {
        assert Records(items) == p;
      }
    }
  }

  /** The tier is set by the last line that yields a record. */
  lemma {:induction false} GatherTier(items: seq<Scanned>, short: bool, i: nat)
    requires Gather(items, short).Ok?
    requires i < |items| && items[i].Record?
    requires forall j :: i < j < |items| ==> items[j] == Skip
    ensures Gather(items, short).value.colsLen == if short then 14 else items[i].width
  {
    var n := |items| - 1;
    var init := items[..n];
    if i < n {
      assert forall j :: i < j < n ==> init[j] == items[j];
      GatherTier(init, short, i);
    }
  }

  /** Lines that all yield nothing leave no record and the tier at 0. */
  lemma {:induction false} GatherAllSkip(items: seq<Scanned>, short: bool)
    requires forall j :: 0 <= j < |items| ==> items[j] == Skip
    ensures Gather(items, short) == Ok(Summary(map[], 0))
  {
    if items != [] {
      var n := |items| - 1;
      assert forall j :: 0 <= j < n ==> items[..n][j] == items[j];
      GatherAllSkip(items[..n], short);
    }
  }

  /** More input only extends each list. */
  lemma {:induction false} GatherExtends(items: seq<Scanned>, more: seq<Scanned>, short: bool)
    requires Gather(items + more, short).Ok?
    ensures Gather(items, short).Ok?
    ensures forall k :: StatsOf(Gather(items, short).value.stats, k) <= StatsOf(Gather(items + more, short).value.stats, k)
  {
    var all := items + more;
    if more == [] {
      assert all == items;
    } else {
      var n := |all| - 1;
      assert all[..n] == items + more[..|more| - 1];
      GatherExtends(items, more[..|more| - 1], short);
    }
  }

  /** A line made only of white space is skipped: it adds no record and
      leaves the tier as it was (main.go:99-102). */
  lemma BlankLineIgnored(lines: seq<string>, line: string, short: bool)
    requires AllSpace(line)
    ensures Collect(lines + [line], short) == Collect(lines, short)
  {
    MapConcat(Scan, lines, [line]);
    var items := ScanAll(lines + [line]);
    assert items[..|lines|] == ScanAll(lines);
    ScanSkip(line);
  }

  /** A non-blank line that parses, read after `lines`, appends its record
      at the end of the list under its device name (column 2 verbatim),
      leaves every other list as it was, and sets the tier to its column
      count, or 14 with `short` (main.go:103-107, 134). */
  lemma CollectAppends(lines: seq<string>, line: string, short: bool)
    requires Collect(lines, short).Ok?
    requires !AllSpace(line) && ParseLine(Columns(line)).Ok?
    ensures Collect(lines + [line], short).Ok?
    ensures var s := Collect(lines, short).value;
      var t := Collect(lines + [line], short).value;
      var d := ParseLine(Columns(line)).value;
      && d.deviceName == Columns(line)[2]
      && StatsOf(t.stats, d.deviceName) == StatsOf(s.stats, d.deviceName) + [d]
      && (forall k :: k != d.deviceName ==> StatsOf(t.stats, k) == StatsOf(s.stats, k))
      && t.stats.Keys == s.stats.Keys + {d.deviceName}
      && t.colsLen == (if short then 14 else |Columns(line)|)
  {
    var d := ParseLine(Columns(line)).value;
    ParseLineName(Columns(line));
    MapConcat(Scan, lines, [line]);
    var items := ScanAll(lines + [line]);
    assert items[..|lines|] == ScanAll(lines);
    ScanRecord(line);
    assert items[|lines|] == Record(d, |Columns(line)|);
    AppendOnly(Collect(lines, short).value.stats, d);
  }

  /** Every non-blank line parses. */
  predicate AllParse(lines: seq<string>) {
    forall j :: 0 <= j < |lines| && !AllSpace(lines[j]) ==> ParseLine(Columns(lines[j])).Ok?
  }

  lemma ScanBad(line: string)
    ensures Scan(line).Bad? <==> !AllSpace(line) && ParseLine(Columns(line)).Err?
    ensures Scan(line).Bad? ==> ParseLine(Columns(line)) == Err(Scan(line).error)
  {
  }

  lemma ScanSkip(line: string)
    ensures Scan(line) == Skip <==> AllSpace(line)
  {
  }

  lemma ScanRecord(line: string)
    requires !AllSpace(line) && ParseLine(Columns(line)).Ok?
    ensures Scan(line) == Record(ParseLine(Columns(line)).value, |Columns(line)|)
  {
  }

  lemma NoBadIffAllParse(lines: seq<string>)
    ensures NoBad(ScanAll(lines)) <==> AllParse(lines)
  {
    forall j | 0 <= j < |lines|
      ensures ScanAll(lines)[j].Bad? <==> !AllSpace(lines[j]) && ParseLine(Columns(lines[j])).Err?
    {
      MapAt(Scan, lines, j);
      ScanBad(lines[j]);
    }
  }

  /** The run gets through the whole input exactly when every non-blank
      line parses; otherwise it stops at the first non-blank line that does
      not, with that line's error (main.go:98-135, 189-203). */
  lemma CollectFailsAtFirstBadLine(lines: seq<string>, short: bool)
    ensures Collect(lines, short).Ok? <==> AllParse(lines)
    ensures Collect(lines, short).Err? ==>
      var f := Collect(lines, short).error;
      && f.line < |lines|
      && !AllSpace(lines[f.line])
      && ParseLine(Columns(lines[f.line])) == Err(f.error)
      && AllParse(lines[..f.line])
  {
    var items := ScanAll(lines);
    GatherFailsAtFirstBad(items, short);
    NoBadIffAllParse(lines);
    if Collect(lines, short).Err? {
      var f := Collect(lines, short).error;
      MapAt(Scan, lines, f.line);
      ScanBad(lines[f.line]);
      MapPrefix(Scan, lines, f.line);
      NoBadIffAllParse(lines[..f.line]);
    }
  }

  /** The records of the non-blank lines, in input order. */
  function Parsed(lines: seq<string>): seq<DiskStat> {
    Records(ScanAll(lines))
  }

  /** After a run over lines that all parse, the list under every device
      name is exactly the subsequence of that device's records in input
      order, a name has a list exactly when some record carries it, and
      the lists are grouped by name (main.go:96, 134). */
  lemma CollectGroups(lines: seq<string>, short: bool)
    requires AllParse(lines)
    ensures Collect(lines, short).Ok?
    ensures var s := Collect(lines, short).value;
      && Grouped(s.stats)
      && (forall k :: StatsOf(s.stats, k) == Filter(Parsed(lines), k))
      && (forall k :: k in s.stats <==> Filter(Parsed(lines), k) != [])
  {
    CollectFailsAtFirstBadLine(lines, short);
    GatherFailsAtFirstBad(ScanAll(lines), short);
    GatherGroups(ScanAll(lines), short);
  }

  /** The tier after a run is set by the last non-blank line: its column
      count, or 14 with `short` (main.go:104-107). */
  lemma ColsLenOfLastLine(lines: seq<string>, short: bool, i: nat)
    requires Collect(lines, short).Ok?
    requires i < |lines| && !AllSpace(lines[i])
    requires forall j :: i < j < |lines| ==> AllSpace(lines[j])
    ensures Collect(lines, short).value.colsLen == if short then 14 else |Columns(lines[i])|
  {
    var items := ScanAll(lines);
    CollectFailsAtFirstBadLine(lines, short);
    MapAt(Scan, lines, i);
    ScanRecord(lines[i]);
    forall j | i < j < |lines| ensures items[j] == Skip {
      MapAt(Scan, lines, j);
      ScanSkip(lines[j]);
    }
    GatherTier(items, short, i);
  }

  /** Input with no non-blank line leaves no record and the tier at 0
      (main.go:96-97). */
  lemma AllBlankInput(lines: seq<string>, short: bool)
    requires forall j :: 0 <= j < |lines| ==> AllSpace(lines[j])
    ensures Collect(lines, short) == Ok(Summary(map[], 0))
  {
    forall j | 0 <= j < |lines| ensures ScanAll(lines)[j] == Skip {
      MapAt(Scan, lines, j);
      ScanSkip(lines[j]);
    }
    GatherAllSkip(ScanAll(lines), short);
  }

  /** Running over more input only extends each device's list: the lists
      for a prefix of the input are prefixes of the lists for the whole
      (main.go:134). */
  lemma CollectExtends(lines: seq<string>, more: seq<string>, short: bool)
    requires Collect(lines + more, short).Ok?
    ensures Collect(lines, short).Ok?
    ensures forall k :: StatsOf(Collect(lines, short).value.stats, k) <= StatsOf(Collect(lines + more, short).value.stats, k)
  {
    MapConcat(Scan, lines, more);
    GatherExtends(ScanAll(lines), ScanAll(more), short);
  }
}
