/**
 * Line normalisation: every run of `\s` white space becomes one space, the
 * result is trimmed of Unicode white space at both ends, and it is split on
 * single spaces into columns.
 */
module Text {

  /** The characters of the regular-expression class `\s`: tab, newline,
      form feed, carriage return and space (ASCII only). */
  predicate IsRegexSpace(c: char) {
    c == '\t' || c == '\n' || c == '\U{000C}' || c == '\r' || c == ' '
  }

  /** The characters that trimming treats as white space: the Latin-1 ones
      (tab, newline, vertical tab, form feed, carriage return, space, NEL,
      no-break space) and the other Unicode White_Space code points. */
  predicate IsSpace(c: char) {
    || c == '\t' || c == '\n' || c == '\U{000B}' || c == '\U{000C}' || c == '\r' || c == ' '
    || c == '\U{0085}' || c == '\U{00A0}' || c == '\U{1680}'
    || ('\U{2000}' <= c <= '\U{200A}')
    || c == '\U{2028}' || c == '\U{2029}' || c == '\U{202F}' || c == '\U{205F}' || c == '\U{3000}'
  }

  predicate AllSpace(s: string) {
    forall i :: 0 <= i < |s| ==> IsSpace(s[i])
  }

  predicate AllRegexSpace(s: string) {
    forall i :: 0 <= i < |s| ==> IsRegexSpace(s[i])
  }

  /** No character of `s` is white space of either kind. */
  predicate Solid(s: string) {
    forall i :: 0 <= i < |s| ==> !IsSpace(s[i])
  }

  lemma SplitAt<T>(s: seq<T>, k: nat)
    requires k <= |s|
    ensures s == s[..k] + s[k..]
  {
  }

  lemma HeadTail<T>(s: seq<T>)
    requires s != []
    ensures s == [s[0]] + s[1..]
  {
  }

  lemma TailOfConcat<T>(a: seq<T>, b: seq<T>)
    requires a != []
    ensures (a + b)[1..] == a[1..] + b
  {
  }

  lemma DropOfConcat<T>(a: seq<T>, b: seq<T>)
    ensures (a + b)[|a|..] == b
  {
  }

  lemma PrefixOfConcat<T>(a: seq<T>, b: seq<T>)
    ensures (a + b)[..|a|] == a
  {
  }

  lemma Assoc<T>(a: seq<T>, b: seq<T>, c: seq<T>)
    ensures (a + b) + c == a + (b + c)
  {
  }

  lemma SliceOfSlice<T>(s: seq<T>, k: nat, m: nat)
    requires k + m <= |s|
    ensures s[k..][..m] == s[k..k + m]
  {
  }

  lemma DropOfDrop<T>(s: seq<T>, k: nat, m: nat)
    requires k + m <= |s|
    ensures s[k..][m..] == s[k + m..]
  {
  }

  lemma AllSpaceConcat(a: string, b: string)
    ensures AllSpace(a + b) <==> AllSpace(a) && AllSpace(b)
  {
    if AllSpace(a) && AllSpace(b) {
      forall i | 0 <= i < |a + b| ensures IsSpace((a + b)[i]) {
        if i < |a| { assert (a + b)[i] == a[i]; } else { assert (a + b)[i] == b[i - |a|]; }
      }
    }
    if AllSpace(a + b) {
      forall i | 0 <= i < |a| ensures IsSpace(a[i]) { assert (a + b)[i] == a[i]; }
      forall i | 0 <= i < |b| ensures IsSpace(b[i]) { assert (a + b)[|a| + i] == b[i]; }
    }
  }

  /** Nowhere in `s` do two spaces follow each other. */
  predicate NoDoubleSpace(s: string) {
    forall i :: 0 <= i < |s| - 1 ==> !DoubleSpaceAt(s, i)
  }

  /** Positions `i` and `i + 1` of `s` both hold a space. */
  predicate DoubleSpaceAt(s: string, i: nat)
    requires i + 1 < |s|
  {
    s[i] == ' ' && s[i + 1] == ' '
  }

  /** The only `\s` character left in `s` is the plain space. */
  predicate OnlyPlainSpaces(s: string) {
    forall i :: 0 <= i < |s| && IsRegexSpace(s[i]) ==> s[i] == ' '
  }

  /** The end of the run of characters satisfying `p` that starts at `i`. */
  function RunEnd(p: char -> bool, s: string, i: nat): (n: nat)
    requires i <= |s|
    ensures i <= n <= |s|
    ensures forall j :: i <= j < n ==> p(s[j])
    ensures n == |s| || !p(s[n])
    decreases |s| - i
  {
    if i < |s| && p(s[i]) then RunEnd(p, s, i + 1) else i
  }

  /** The start of the run of characters satisfying `p` that ends at `e`. */
  function RunStart(p: char -> bool, s: string, e: nat): (n: nat)
    requires e <= |s|
    ensures n <= e
    ensures forall j :: n <= j < e ==> p(s[j])
    ensures n == 0 || !p(s[n - 1])
  {
    if e > 0 && p(s[e - 1]) then RunStart(p, s, e - 1) else e
  }

  /** A run is determined by where it starts and the first character past it. */
  lemma RunEndIs(p: char -> bool, s: string, i: nat, m: nat)
    requires i <= m <= |s|
    requires forall j :: i <= j < m ==> p(s[j])
    requires m == |s| || !p(s[m])
    ensures RunEnd(p, s, i) == m
  {
  }

  lemma RunStartIs(p: char -> bool, s: string, e: nat, m: nat)
    requires m <= e <= |s|
    requires forall j :: m <= j < e ==> p(s[j])
    requires m == 0 || !p(s[m - 1])
    ensures RunStart(p, s, e) == m
  {
  }

  /** `s` without its leading run of `\s` characters. */
  function DropRegexSpace(s: string): (r: string)
    ensures |r| <= |s| && r == s[|s| - |r|..]
    ensures AllRegexSpace(s[..|s| - |r|])
    ensures r == [] || !IsRegexSpace(r[0])
  {
    var n := RunEnd(IsRegexSpace, s, 0);
    assert AllRegexSpace(s[..n]) by {
      forall j | 0 <= j < n ensures IsRegexSpace(s[..n][j]) {
        assert s[..n][j] == s[j];
      }
    }
    s[n..]
  }

  /** Replaces every maximal run of `\s` characters by a single space, as a
      global regular-expression replacement of `\s+` by " " does. */
  function CollapseSpace(s: string): (r: string)
    ensures r == [] <==> s == []
    ensures r != [] ==> (r[0] == ' ' <==> IsRegexSpace(s[0]))
    decreases |s|
  {
    if s == [] then []
    else if IsRegexSpace(s[0]) then " " + CollapseSpace(DropRegexSpace(s))
    else [s[0]] + CollapseSpace(s[1..])
  }

  /** Collapsing leaves no two spaces side by side. */
  lemma {:induction false} CollapseNoDoubleSpace(s: string)
    ensures NoDoubleSpace(CollapseSpace(s))
    decreases |s|
  {
    if s != [] {
      var r := CollapseSpace(s);
      var head, rest := if IsRegexSpace(s[0]) then ' ' else s[0], if IsRegexSpace(s[0]) then DropRegexSpace(s) else s[1..];
      var tail := CollapseSpace(rest);
      assert r == [head] + tail;
      CollapseNoDoubleSpace(rest);
      forall i | 0 <= i < |r| - 1
        ensures !DoubleSpaceAt(r, i)
      {
        if i == 0 {
          assert r[1] == tail[0];
        } else {
          assert r[i] == tail[i - 1] && r[i + 1] == tail[i];
          assert !DoubleSpaceAt(tail, i - 1);
        }
      }
    }
  }

  /** Collapsing replaces every `\s` character other than the space. */
  lemma {:induction false} CollapsePlainSpaces(s: string)
    ensures OnlyPlainSpaces(CollapseSpace(s))
    decreases |s|
  {
    if s != [] {
      var r := CollapseSpace(s);
      var head, rest := if IsRegexSpace(s[0]) then ' ' else s[0], if IsRegexSpace(s[0]) then DropRegexSpace(s) else s[1..];
      var tail := CollapseSpace(rest);
      assert r == [head] + tail;
      CollapsePlainSpaces(rest);
      forall i | 0 < i < |r| ensures r[i] == tail[i - 1] { }
    }
  }

  /** A line is blank after collapsing exactly when it was blank before. */
  lemma {:induction false} CollapseBlank(s: string)
    ensures AllSpace(CollapseSpace(s)) <==> AllSpace(s)
    decreases |s|
  {
    if s != [] {
      var rest := if IsRegexSpace(s[0]) then DropRegexSpace(s) else s[1..];
      CollapseBlank(rest);
      assert AllSpace(CollapseSpace(s)) <==> IsSpace(CollapseSpace(s)[0]) && AllSpace(CollapseSpace(rest)) by {
        assert CollapseSpace(s) == [CollapseSpace(s)[0]] + CollapseSpace(rest);
        AllSpaceConcat([CollapseSpace(s)[0]], CollapseSpace(rest));
      }
      if IsRegexSpace(s[0]) {
        DropKeepsBlank(s);
      } else {
        HeadTail(s);
        AllSpaceConcat([s[0]], s[1..]);
      }
    }
  }

  /** Dropping leading `\s` characters does not change blankness. */
  lemma DropKeepsBlank(s: string)
    ensures AllSpace(DropRegexSpace(s)) <==> AllSpace(s)
  {
    var rest := DropRegexSpace(s);
    var gap := s[..|s| - |rest|];
    SplitAt(s, |s| - |rest|);
    assert AllSpace(gap) by {
      forall i | 0 <= i < |gap| ensures IsSpace(gap[i]) { assert IsRegexSpace(gap[i]); }
    }
    AllSpaceConcat(gap, rest);
  }

  /** `s` without its leading white space. */
  function TrimLeftSpace(s: string): (r: string)
    ensures |r| <= |s| && r == s[|s| - |r|..]
    ensures AllSpace(s[..|s| - |r|])
    ensures r == [] || !IsSpace(r[0])
  {
    var n := RunEnd(IsSpace, s, 0);
    assert AllSpace(s[..n]) by {
      forall j | 0 <= j < n ensures IsSpace(s[..n][j]) {
        assert s[..n][j] == s[j];
      }
    }
    s[n..]
  }

  /** `s` without its trailing white space. */
  function TrimRightSpace(s: string): (r: string)
    ensures |r| <= |s| && r == s[..|r|]
    ensures AllSpace(s[|r|..])
    ensures r == [] || !IsSpace(r[|r| - 1])
  {
    var n := RunStart(IsSpace, s, |s|);
    assert AllSpace(s[n..]) by {
      forall j | 0 <= j < |s| - n ensures IsSpace(s[n..][j]) {
        assert s[n..][j] == s[n + j];
      }
    }
    s[..n]
  }

  /** Removes leading and trailing white space: the result is a slice of
      `s` with nothing but white space cut off at either end. */
  function TrimSpace(s: string): (r: string)
    ensures r == [] <==> AllSpace(s)
    ensures r != [] ==> !IsSpace(r[0]) && !IsSpace(r[|r| - 1])
    ensures exists k: nat :: k + |r| <= |s| && r == s[k..k + |r|] && AllSpace(s[..k]) && AllSpace(s[k + |r|..])
  {
    TrimShape(s);
    TrimSlice(s);
    TrimRightSpace(TrimLeftSpace(s))
  }

  /** Trimming cuts white space only: the trimmed text sits in `s` right
      after the cut prefix, and everything after it is white space. */
  lemma TrimSlice(s: string)
    ensures var t := TrimLeftSpace(s); var r := TrimRightSpace(t); var k := |s| - |t|;
      && k + |r| <= |s| && r == s[k..k + |r|]
      && AllSpace(s[..k]) && AllSpace(s[k + |r|..])
  {
    var t := TrimLeftSpace(s);
    var r := TrimRightSpace(t);
    var k := |s| - |t|;
    SliceOfSlice(s, k, |r|);
    DropOfDrop(s, k, |r|);
  }

  lemma TrimShape(s: string)
    ensures TrimRightSpace(TrimLeftSpace(s)) == [] <==> AllSpace(s)
    ensures var r := TrimRightSpace(TrimLeftSpace(s)); r != [] ==> !IsSpace(r[0])
  {
    var t := TrimLeftSpace(s);
    var r := TrimRightSpace(t);
    var k := |s| - |t|;
    assert AllSpace(s) <==> AllSpace(t) by {
      SplitAt(s, k);
      AllSpaceConcat(s[..k], t);
    }
    assert AllSpace(t) <==> AllSpace(r) by {
      SplitAt(t, |r|);
      AllSpaceConcat(r, t[|r|..]);
    }
    if r != [] {
      assert r[0] == t[0];
    }
  }

  /** A piece of a text without double spaces has none either, and the
      same holds for plain spaces. */
  lemma SliceShape(s: string, k: nat, m: nat)
    requires k <= m <= |s|
    ensures NoDoubleSpace(s) ==> NoDoubleSpace(s[k..m])
    ensures OnlyPlainSpaces(s) ==> OnlyPlainSpaces(s[k..m])
  {
    var r := s[k..m];
    if NoDoubleSpace(s) {
      forall i | 0 <= i < |r| - 1 ensures !DoubleSpaceAt(r, i) {
        assert r[i] == s[k + i] && r[i + 1] == s[k + i + 1];
        assert !DoubleSpaceAt(s, k + i);
      }
    }
    if OnlyPlainSpaces(s) {
      forall i | 0 <= i < |r| && IsRegexSpace(r[i]) ensures r[i] == ' ' {
        assert r[i] == s[k + i];
      }
    }
  }

  /** The normalised form of one input line (main.go:99). */
  function Normalise(line: string): (r: string)
    ensures r == [] <==> AllSpace(line)
    ensures r != [] ==> !IsSpace(r[0]) && !IsSpace(r[|r| - 1])
    ensures NoDoubleSpace(r)
    ensures OnlyPlainSpaces(r)
  {
    NormalisedBlank(line);
    NormalisedShape(line);
    TrimSpace(CollapseSpace(line))
  }

  lemma NormalisedBlank(line: string)
    ensures TrimSpace(CollapseSpace(line)) == [] <==> AllSpace(line)
  {
    CollapseBlank(line);
  }

  lemma NormalisedShape(line: string)
    ensures NoDoubleSpace(TrimSpace(CollapseSpace(line)))
    ensures OnlyPlainSpaces(TrimSpace(CollapseSpace(line)))
  {
    CollapseNoDoubleSpace(line);
    CollapsePlainSpaces(line);
    TrimKeepsShape(CollapseSpace(line));
  }

  /** Trimming a text cuts out a piece of it, so it keeps its spacing. */
  lemma TrimKeepsShape(c: string)
    ensures NoDoubleSpace(c) ==> NoDoubleSpace(TrimSpace(c))
    ensures OnlyPlainSpaces(c) ==> OnlyPlainSpaces(TrimSpace(c))
  {
    var r := TrimSpace(c);
    var k := |c| - |TrimLeftSpace(c)|;
    assert k + |r| <= |c| && r == c[k..k + |r|] by {
      SliceOfSlice(c, k, |r|);
    }
    SliceShape(c, k, k + |r|);
  }

  /** Splits `s` at every space; consecutive spaces give empty pieces. */
  function Split(s: string): (r: seq<string>)
    ensures |r| >= 1
    ensures forall k :: 0 <= k < |r| ==> ' ' !in r[k]
  {
    if s == [] then [""]
    else
      var rest := Split(s[1..]);
      if s[0] == ' ' then [""] + rest
      else [[s[0]] + rest[0]] + rest[1..]
  }

  /** Concatenates `fields` with one space between neighbours. */
  function Join(fields: seq<string>): string {
    if fields == [] then ""
    else if |fields| == 1 then fields[0]
    else fields[0] + " " + Join(fields[1..])
  }

  /** The columns of one input line (main.go:99, 103). */
  function Columns(line: string): (r: seq<string>)
    ensures |r| >= 1
    ensures Join(r) == Normalise(line)
  {
    JoinSplit(Normalise(line));
    Split(Normalise(line))
  }

  /** Joining the pieces of a split with single spaces restores the text. */
  lemma {:induction false} JoinSplit(s: string)
    ensures Join(Split(s)) == s
  {
    if s != [] {
      var rest := Split(s[1..]);
      JoinSplit(s[1..]);
      if s[0] != ' ' {
        if |rest| > 1 {
          assert Join(rest) == rest[0] + " " + Join(rest[1..]);
        }
      }
    }
  }

  /** Splitting a join of space-free fields gives the fields back. */
  lemma {:induction false} SplitJoin(fields: seq<string>)
    requires |fields| >= 1
    requires forall k :: 0 <= k < |fields| ==> ' ' !in fields[k]
    ensures Split(Join(fields)) == fields
  {
    if |fields| == 1 {
      SplitFree(fields[0]);
    } else {
      SplitJoin(fields[1..]);
      SplitPrefix(fields[0], Join(fields[1..]));
      HeadTail(fields);
    }
  }

  /** A text without spaces splits into itself. */
  lemma {:induction false} SplitFree(f: string)
    requires ' ' !in f
    ensures Split(f) == [f]
  {
    if f != [] {
      SplitFree(f[1..]);
      HeadTail(f);
    }
  }

  /** A space-free prefix followed by a space becomes the first piece. */
  lemma {:induction false} SplitPrefix(f: string, tail: string)
    requires ' ' !in f
    ensures Split(f + " " + tail) == [f] + Split(tail)
  {
    if f == [] {
      assert f + " " + tail == " " + tail;
      assert (" " + tail)[1..] == tail;
    } else {
      SplitPrefix(f[1..], tail);
      assert (f + " " + tail)[1..] == f[1..] + " " + tail;
      HeadTail(f);
    }
  }

  /** Every piece after the first is non-empty when no two spaces meet and
      the text does not end in a space. */
  lemma {:induction false} SplitTailNonEmpty(s: string)
    requires NoDoubleSpace(s)
    requires s == [] || s[|s| - 1] != ' '
    ensures forall k :: 1 <= k < |Split(s)| ==> Split(s)[k] != []
  {
    if s != [] {
      var rest := Split(s[1..]);
      assert NoDoubleSpace(s[1..]) by {
        forall i | 0 <= i < |s[1..]| - 1 ensures !DoubleSpaceAt(s[1..], i) {
          assert !DoubleSpaceAt(s, i + 1);
        }
      }
      SplitTailNonEmpty(s[1..]);
      if s[0] == ' ' {
        assert |s| >= 2;
        assert !DoubleSpaceAt(s, 0);
        assert rest[0] != [] by {
          var restRest := Split(s[2..]);
          assert s[1..][1..] == s[2..];
        }
      }
    }
  }

  /** A normalised, non-blank line splits into non-empty, space-free
      columns, and joining them with single spaces restores the line. */
  lemma ColumnsOfNormalised(line: string)
    requires !AllSpace(line)
    ensures forall k :: 0 <= k < |Columns(line)| ==> Columns(line)[k] != [] && ' ' !in Columns(line)[k]
    ensures Join(Columns(line)) == Normalise(line)
  {
    var n := Normalise(line);
    SplitTailNonEmpty(n);
    JoinSplit(n);
    assert Split(n)[0] != [] by {
      assert n[0] != ' ';
    }
  }

  /** A line laid out as `gaps[0] + fields[0] + gaps[1] + ... + fields[n-1] + gaps[n]`. */
  function Layout(fields: seq<string>, gaps: seq<string>): string
    requires |gaps| == |fields| + 1
  {
    if fields == [] then gaps[0]
    else gaps[0] + fields[0] + Layout(fields[1..], gaps[1..])
  }

  /** `gaps` is a valid spacing for `fields`: the outer gaps may be empty,
      the inner ones may not, and all consist of `\s` characters. */
  predicate Spacing(fields: seq<string>, gaps: seq<string>) {
    && |gaps| == |fields| + 1
    && (forall k :: 0 <= k < |gaps| ==> AllRegexSpace(gaps[k]))
    && (forall k :: 0 < k < |fields| ==> gaps[k] != [])
  }

  /** One space for a non-empty gap, nothing for an empty one. */
  function Mark(gap: string): string {
    if gap == [] then "" else " "
  }

  lemma MarkBlank(gap: string)
    ensures AllSpace(Mark(gap)) && |Mark(gap)| <= 1
  {
    if gap != [] {
      assert Mark(gap)[0] == ' ';
    }
  }

  /** Collapsing a `\s` run in front of a non-space gives one space. */
  lemma CollapseGap(gap: string, t: string)
    requires AllRegexSpace(gap)
    requires t == [] || !IsRegexSpace(t[0])
    ensures CollapseSpace(gap + t) == Mark(gap) + CollapseSpace(t)
  {
    if gap != [] {
      GapDropped(gap, t);
      assert IsRegexSpace((gap + t)[0]);
    } else {
      assert gap + t == t;
    }
  }

  lemma GapDropped(gap: string, t: string)
    requires AllRegexSpace(gap)
    requires t == [] || !IsRegexSpace(t[0])
    ensures DropRegexSpace(gap + t) == t
  {
    var s := gap + t;
    forall j | 0 <= j < |gap| ensures IsRegexSpace(s[j]) {
      assert s[j] == gap[j];
    }
    if t != [] {
      assert s[|gap|] == t[0];
    }
    RunEndIs(IsRegexSpace, s, 0, |gap|);
    DropOfConcat(gap, t);
  }

  /** Collapsing leaves a run of non-`\s` characters alone. */
  lemma {:induction false} CollapseSolid(f: string, t: string)
    requires forall i :: 0 <= i < |f| ==> !IsRegexSpace(f[i])
    ensures CollapseSpace(f + t) == f + CollapseSpace(t)
  {
    if f != [] {
      CollapseSolid(f[1..], t);
      var s := f + t;
      assert s[0] == f[0] && !IsRegexSpace(s[0]);
      TailOfConcat(f, t);
      assert CollapseSpace(s) == [s[0]] + CollapseSpace(s[1..]);
      HeadTail(f);
    } else {
      assert f + t == t;
    }
  }

  lemma {:induction false} CollapseLayout(fields: seq<string>, gaps: seq<string>)
    requires |fields| >= 1 && Spacing(fields, gaps)
    requires forall k :: 0 <= k < |fields| ==> fields[k] != [] && Solid(fields[k])
    ensures CollapseSpace(Layout(fields, gaps)) == Mark(gaps[0]) + Join(fields) + Mark(gaps[|fields|])
  {
    CollapseLayoutHead(fields, gaps);
    var tail := CollapseSpace(Layout(fields[1..], gaps[1..]));
    if |fields| == 1 {
      assert tail == Mark(gaps[1]) by {
        CollapseGap(gaps[1], "");
        assert gaps[1] + "" == gaps[1];
      }
    } else {
      assert Spacing(fields[1..], gaps[1..]) by {
        forall k | 0 < k < |fields[1..]| ensures gaps[1..][k] != [] {
          assert gaps[1..][k] == gaps[k + 1];
        }
      }
      assert gaps[1..][|fields[1..]|] == gaps[|fields|];
      assert gaps[1..][0] != [];
      CollapseLayout(fields[1..], gaps[1..]);
      Regroup(CollapseSpace(Layout(fields, gaps)), Mark(gaps[0]), fields[0], tail, Join(fields[1..]), Mark(gaps[|fields|]), Join(fields));
    }
  }

  /** The first gap and field of a layout collapse on their own. */
  lemma CollapseLayoutHead(fields: seq<string>, gaps: seq<string>)
    requires |fields| >= 1 && Spacing(fields, gaps)
    requires fields[0] != [] && Solid(fields[0])
    ensures CollapseSpace(Layout(fields, gaps)) == Mark(gaps[0]) + (fields[0] + CollapseSpace(Layout(fields[1..], gaps[1..])))
  {
    var f := fields[0];
    var inner := Layout(fields[1..], gaps[1..]);
    assert Layout(fields, gaps) == gaps[0] + (f + inner);
    assert forall i :: 0 <= i < |f| ==> !IsRegexSpace(f[i]) by {
      forall i | 0 <= i < |f| ensures !IsRegexSpace(f[i]) { assert !IsSpace(f[i]); }
    }
    assert (f + inner)[0] == f[0];
    CollapseGap(gaps[0], f + inner);
    CollapseSolid(f, inner);
  }

  lemma Regroup(c: string, m0: string, f: string, tail: string, rest: string, m1: string, whole: string)
    requires c == m0 + (f + tail)
    requires tail == " " + rest + m1
    requires whole == f + " " + rest
    ensures c == m0 + whole + m1
  {
  }

  lemma TrimLeftSpaces(sp: string, t: string)
    requires AllSpace(sp)
    requires t != [] && !IsSpace(t[0])
    ensures TrimLeftSpace(sp + t) == t
  {
    var s := sp + t;
    forall j | 0 <= j < |sp| ensures IsSpace(s[j]) {
      assert s[j] == sp[j];
    }
    assert s[|sp|] == t[0];
    RunEndIs(IsSpace, s, 0, |sp|);
    DropOfConcat(sp, t);
  }

  lemma TrimRightSpaces(t: string, sp: string)
    requires AllSpace(sp)
    requires t != [] && !IsSpace(t[|t| - 1])
    ensures TrimRightSpace(t + sp) == t
  {
    var s := t + sp;
    forall j | |t| <= j < |s| ensures IsSpace(s[j]) {
      assert s[j] == sp[j - |t|];
    }
    assert s[|t| - 1] == t[|t| - 1];
    RunStartIs(IsSpace, s, |s|, |t|);
    PrefixOfConcat(t, sp);
  }

  /** Irregular spacing does not matter: a line whose space-free fields are
      separated by any runs of `\s` (and surrounded by any) normalises to the
      fields joined by single spaces and splits back into exactly those
      fields (main.go:99, 103). */
  lemma ColumnsOfLayout(fields: seq<string>, gaps: seq<string>)
    requires |fields| >= 1 && Spacing(fields, gaps)
    requires forall k :: 0 <= k < |fields| ==> fields[k] != [] && Solid(fields[k])
    ensures Normalise(Layout(fields, gaps)) == Join(fields)
    ensures Columns(Layout(fields, gaps)) == fields
  {
    var j := Join(fields);
    CollapseLayout(fields, gaps);
    JoinEnds(fields);
    var a, b := Mark(gaps[0]), Mark(gaps[|fields|]);
    Assoc(a, j, b);
    MarkBlank(gaps[0]);
    MarkBlank(gaps[|fields|]);
    TrimLeftSpaces(a, j + b);
    TrimRightSpaces(j, b);
    forall k | 0 <= k < |fields| ensures ' ' !in fields[k] {
      forall i | 0 <= i < |fields[k]| ensures fields[k][i] != ' ' {
        assert !IsSpace(fields[k][i]);
      }
    }
    SplitJoin(fields);
  }

  /** The join of non-empty solid fields starts and ends with a non-space. */
  lemma {:induction false} JoinEnds(fields: seq<string>)
    requires |fields| >= 1
    requires forall k :: 0 <= k < |fields| ==> fields[k] != [] && Solid(fields[k])
    ensures Join(fields) != [] && !IsSpace(Join(fields)[0]) && !IsSpace(Join(fields)[|Join(fields)| - 1])
  {
    if |fields| > 1 {
      JoinEnds(fields[1..]);
      var j := Join(fields);
      assert j == fields[0] + " " + Join(fields[1..]);
      assert j[0] == fields[0][0];
      assert j[|j| - 1] == Join(fields[1..])[|Join(fields[1..])| - 1];
    } else {
      assert fields[0][0] == Join(fields)[0];
    }
  }
}
