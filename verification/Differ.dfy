/** Reading `git diff --numstat` and `git diff --name-status` into change units. */
module Differ {
  import opened Options
  import opened Text
  import opened Sums

  datatype Stat = Stat(added: int, deleted: int, binary: bool)

  datatype Entry = Entry(code: string, path: string, previous: Option<string>)

  datatype Change = Added | Modified | Deleted | Renamed | Copied

  datatype Unit = Unit(path: string, previous: Option<string>, change: Change, stat: Stat)

  // ---- numstat -----------------------------------------------------------------------------------

  type StatRow = (string, Stat)

  function RowFrom(parts: seq<string>): Option<StatRow> {
    if |parts| < 3 then None
    else if parts[0] == "-" && parts[1] == "-" then Some((parts[2], Stat(0, 0, true)))
    else
      var added, deleted := ParseInt(parts[0]), ParseInt(parts[1]);
      if added.None? || deleted.None? then None
      else Some((parts[2], Stat(added.value, deleted.value, false)))
  }

  function RowOf(line: string): Option<StatRow> {
    RowFrom(SplitTabsUpTo(Strip(line), 2))
  }

  function RowsOf(lines: seq<string>): seq<StatRow> {
    if lines == [] then []
    else if RowOf(lines[0]).None? then RowsOf(lines[1..])
    else [RowOf(lines[0]).value] + RowsOf(lines[1..])
  }

  function Store(stats: map<string, Stat>, rows: seq<StatRow>): map<string, Stat>
    decreases |rows|
  {
    if rows == [] then stats else Store(stats[rows[0].0 := rows[0].1], rows[1..])
  }

  method ParseNumstat(numstat: string) returns (stats: map<string, Stat>)
    ensures stats == Store(map[], RowsOf(Lines(numstat)))
  {
    stats := map[];
    var lines := Lines(numstat);
    for i := 0 to |lines|
      invariant Store(stats, RowsOf(lines[i..])) == Store(map[], RowsOf(lines))
    {
      assert lines[i..][1..] == lines[i + 1..];
      RowStored(stats, lines[i..]);
      var line := Strip(lines[i]);
      if line == "" {
        continue;
      }
      var parts := SplitTabsUpTo(line, 2);
      if |parts| < 3 {
        continue;
      }
      if parts[0] == "-" && parts[1] == "-" {
        stats := stats[parts[2] := Stat(0, 0, true)];
      } else {
        var added, deleted := ParseInt(parts[0]), ParseInt(parts[1]);
        if added.None? || deleted.None? {
          continue;
        }
        stats := stats[parts[2] := Stat(added.value, deleted.value, false)];
      }
    }
  }

  lemma RowStored(stats: map<string, Stat>, lines: seq<string>)
    requires lines != []
    ensures Store(stats, RowsOf(lines)) ==
            if RowOf(lines[0]).None? then Store(stats, RowsOf(lines[1..]))
            else Store(stats[RowOf(lines[0]).value.0 := RowOf(lines[0]).value.1], RowsOf(lines[1..]))
  {
    if RowOf(lines[0]).Some? {
      var rows := RowsOf(lines);
      assert rows[1..] == RowsOf(lines[1..]);
    }
  }

  predicate Names(rows: seq<StatRow>, path: string) {
    exists i :: 0 <= i < |rows| && rows[i].0 == path
  }

  /** A path keeps the figures of its last row. */
  lemma {:induction false} StoreMeaning(stats: map<string, Stat>, rows: seq<StatRow>, path: string)
    ensures path in Store(stats, rows) <==> path in stats || Names(rows, path)
    ensures !Names(rows, path) && path in stats ==> Store(stats, rows)[path] == stats[path]
    ensures forall i :: 0 <= i < |rows| && rows[i].0 == path && !Names(rows[i + 1..], path) ==>
              path in Store(stats, rows) && Store(stats, rows)[path] == rows[i].1
    decreases |rows|
  {
    if rows != [] {
      var rest := rows[1..];
      StoreMeaning(stats[rows[0].0 := rows[0].1], rest, path);
      assert Names(rows, path) <==> rows[0].0 == path || Names(rest, path) by {
        if i :| 0 <= i < |rest| && rest[i].0 == path {
          assert rows[i + 1].0 == path;
        }
        if i :| 0 <= i < |rows| && rows[i].0 == path {
          assert i > 0 ==> rest[i - 1].0 == path;
        }
      }
      forall i | 0 < i < |rows| ensures rest[i - 1] == rows[i] && rest[i..] == rows[i + 1..] {
      }
    }
  }

  /** What git can print on one line and leave its end visible. */
  predicate Printable(path: string) {
    path != "" && !IsSpace(path[|path| - 1]) && NoneOf(path, IsBreak)
  }

  predicate RowPrintable(r: StatRow) {
    && Printable(r.0) && r.1.added >= 0 && r.1.deleted >= 0
    && (r.1.binary ==> r.1.added == 0 && r.1.deleted == 0)
  }

  function Figure(n: int, binary: bool): string {
    if binary || n < 0 then "-" else Decimal(n)
  }

  function RowText(r: StatRow): string {
    Figure(r.1.added, r.1.binary) + "\t" + (Figure(r.1.deleted, r.1.binary) + "\t" + r.0)
  }

  lemma FigureShape(n: int, binary: bool)
    requires n >= 0
    ensures var f := Figure(n, binary); f != "" && !IsSpace(f[0]) && NoneOf(f, IsBreak) && NoneOf(f, IsTab)
    ensures !binary ==> Figure(n, binary) != "-" && ParseInt(Figure(n, binary)) == Some(n)
  {
    DecimalRoundTrip(n);
    DecimalDigits(n);
    var f := Figure(n, binary);
    assert forall i :: 0 <= i < |f| ==> !IsSpace(f[i]);
  }

  /** Three fields with tabs between them make one line that nothing strips. */
  lemma FieldsShape(a: string, b: string, c: string)
    requires a != "" && !IsSpace(a[0]) && NoneOf(a, IsBreak) && NoneOf(b, IsBreak) && Printable(c)
    ensures var l := a + "\t" + (b + "\t" + c); Trim(l) && NoneOf(l, IsBreak)
  {
    var m := b + "\t" + c;
    var l := a + "\t" + m;
    PairShape(b, c);
    assert l[0] == a[0] && l[|l| - 1] == m[|m| - 1];
    PairShape(a, m);
  }

  lemma PairShape(a: string, c: string)
    requires NoneOf(a, IsBreak) && Printable(c)
    ensures Printable(a + "\t" + c)
    ensures a != "" && !IsSpace(a[0]) ==> Trim(a + "\t" + c)
  {
    var l := a + "\t" + c;
    assert forall i :: 0 <= i < |a| ==> l[i] == a[i];
    assert l[|a|] == '\t' && forall i :: |a| < i < |l| ==> l[i] == c[i - |a| - 1];
  }

  lemma SplitThree(a: string, b: string, c: string)
    requires NoneOf(a, IsTab) && NoneOf(b, IsTab)
    ensures SplitTabsUpTo(a + "\t" + (b + "\t" + c), 2) == [a, b, c]
  {
    SplitTabsUpToCons(a, b + "\t" + c, 2);
    SplitTabsUpToCons(b, c, 1);
    assert SplitTabsUpTo(c, 0) == [c];
  }

  lemma RowFromFigures(r: StatRow)
    requires RowPrintable(r)
    ensures RowFrom([Figure(r.1.added, r.1.binary), Figure(r.1.deleted, r.1.binary), r.0]) == Some(r)
  {
    FigureShape(r.1.added, r.1.binary);
    FigureShape(r.1.deleted, r.1.binary);
  }

  lemma RowTextParses(r: StatRow)
    requires RowPrintable(r)
    ensures RowOf(RowText(r)) == Some(r) && NoneOf(RowText(r), IsBreak)
  {
    var a, d := Figure(r.1.added, r.1.binary), Figure(r.1.deleted, r.1.binary);
    FigureShape(r.1.added, r.1.binary);
    FigureShape(r.1.deleted, r.1.binary);
    FieldsShape(a, d, r.0);
    StripTrim(RowText(r));
    SplitThree(a, d, r.0);
    RowFromFigures(r);
  }

  function PrintRows(rows: seq<StatRow>): string {
    if rows == [] then "" else RowText(rows[0]) + "\n" + PrintRows(rows[1..])
  }

  lemma {:induction false} NumstatRoundTrip(rows: seq<StatRow>)
    requires forall r :: r in rows ==> RowPrintable(r)
    ensures RowsOf(Lines(PrintRows(rows))) == rows
  {
    if rows != [] {
      RowTextParses(rows[0]);
      LinesCons(RowText(rows[0]), PrintRows(rows[1..]));
      var ls := Lines(PrintRows(rows));
      assert ls[0] == RowText(rows[0]) && ls[1..] == Lines(PrintRows(rows[1..]));
      NumstatRoundTrip(rows[1..]);
    }
  }

  // ---- name-status -------------------------------------------------------------------------------

  predicate Moves(code: string) {
    code != "" && (code[0] == 'R' || code[0] == 'C')
  }

  function EntryOf(line: string): Option<Entry> {
    EntryFrom(SplitTabs(Strip(line)))
  }

  function EntryFrom(parts: seq<string>): Option<Entry>
    requires parts != []
  {
    var code := parts[0];
    if |parts| < 2 then None
    else if !Moves(code) then Some(Entry(code, parts[1], None))
    else if |parts| == 2 then Some(Entry(code[..1], parts[1], None))
    else Some(Entry(code[..1], parts[2], Some(parts[1])))
  }

  function EntriesOf(lines: seq<string>): seq<Entry> {
    if lines == [] then []
    else if EntryOf(lines[0]).None? then EntriesOf(lines[1..])
    else [EntryOf(lines[0]).value] + EntriesOf(lines[1..])
  }

  lemma EntryRead(entries: seq<Entry>, lines: seq<string>)
    requires lines != []
    ensures entries + EntriesOf(lines) ==
            if EntryOf(lines[0]).None? then entries + EntriesOf(lines[1..])
            else (entries + [EntryOf(lines[0]).value]) + EntriesOf(lines[1..])
  {
  }

  lemma NothingOnABlankLine(line: string)
    requires Strip(line) == ""
    ensures EntryOf(line).None?
  {
  }

  method ParseNameStatus(nameStatus: string) returns (entries: seq<Entry>)
    ensures entries == EntriesOf(Lines(nameStatus))
  {
    entries := [];
    var lines := Lines(nameStatus);
    for i := 0 to |lines|
      invariant entries + EntriesOf(lines[i..]) == EntriesOf(lines)
    {
      assert lines[i..][1..] == lines[i + 1..];
      EntryRead(entries, lines[i..]);
      var line := Strip(lines[i]);
      if line == "" {
        NothingOnABlankLine(lines[i]);
        continue;
      }
      var parts := SplitTabs(line);
      var code := parts[0];
      if Moves(code) {
        if |parts| >= 3 {
          entries := entries + [Entry(code[..1], parts[2], Some(parts[1]))];
        } else if |parts| == 2 {
          entries := entries + [Entry(code[..1], parts[1], None)];
        }
      } else if |parts| >= 2 {
        entries := entries + [Entry(code, parts[1], None)];
      }
    }
  }

  predicate EntryPrintable(e: Entry) {
    && e.code != "" && !IsSpace(e.code[0]) && NoneOf(e.code, IsBreak) && NoneOf(e.code, IsTab)
    && (Moves(e.code) ==> |e.code| == 1)
    && (e.previous.Some? ==>
          Moves(e.code) && NoneOf(e.previous.value, IsBreak) && NoneOf(e.previous.value, IsTab))
    && Printable(e.path) && NoneOf(e.path, IsTab)
  }

  /** The similarity index that git writes after `R` and `C`. */
  predicate ScorePrintable(e: Entry, score: string) {
    NoneOf(score, IsBreak) && NoneOf(score, IsTab) && (!Moves(e.code) ==> score == "")
  }

  function EntryText(e: Entry, score: string): string {
    var head := e.code + score;
    if e.previous.None? then head + "\t" + e.path
    else head + "\t" + (e.previous.value + "\t" + e.path)
  }

  lemma SplitTabsTwo(a: string, c: string)
    requires NoneOf(a, IsTab) && NoneOf(c, IsTab)
    ensures SplitTabs(a + "\t" + c) == [a, c]
  {
    SplitTabsCons(a, c);
    SplitTabsNone(c);
  }

  lemma SplitTabsThree(a: string, b: string, c: string)
    requires NoneOf(a, IsTab) && NoneOf(b, IsTab) && NoneOf(c, IsTab)
    ensures SplitTabs(a + "\t" + (b + "\t" + c)) == [a, b, c]
  {
    SplitTabsCons(a, b + "\t" + c);
    SplitTabsTwo(b, c);
  }

  lemma EntryTextParses(e: Entry, score: string)
    requires EntryPrintable(e) && ScorePrintable(e, score)
    ensures EntryOf(EntryText(e, score)) == Some(e) && NoneOf(EntryText(e, score), IsBreak)
  {
    var head := e.code + score;
    HeadShape(e, score);
    if e.previous.None? {
      PairShape(head, e.path);
      SplitTabsTwo(head, e.path);
    } else {
      FieldsShape(head, e.previous.value, e.path);
      SplitTabsThree(head, e.previous.value, e.path);
    }
    StripTrim(EntryText(e, score));
    EntryFromFields(e, head);
  }

  lemma EntryFromFields(e: Entry, head: string)
    requires EntryPrintable(e)
    requires Moves(head) <==> Moves(e.code)
    requires e.code == if Moves(head) then head[..1] else head
    ensures e.previous.None? ==> EntryFrom([head, e.path]) == Some(e)
    ensures e.previous.Some? ==> EntryFrom([head, e.previous.value, e.path]) == Some(e)
  {
  }

  lemma HeadShape(e: Entry, score: string)
    requires EntryPrintable(e) && ScorePrintable(e, score)
    ensures var head := e.code + score;
            && head != "" && !IsSpace(head[0]) && NoneOf(head, IsBreak) && NoneOf(head, IsTab)
            && (Moves(head) <==> Moves(e.code))
            && e.code == if Moves(head) then head[..1] else head
  {
    var head := e.code + score;
    assert head[0] == e.code[0];
    assert forall i :: 0 <= i < |head| ==>
      head[i] == if i < |e.code| then e.code[i] else score[i - |e.code|];
    assert head[..|e.code|] == e.code;
    assert score == "" ==> head == e.code;
  }

  function PrintEntries(es: seq<(Entry, string)>): string {
    if es == [] then "" else EntryText(es[0].0, es[0].1) + "\n" + PrintEntries(es[1..])
  }

  function Unscored(es: seq<(Entry, string)>): seq<Entry> {
    if es == [] then [] else [es[0].0] + Unscored(es[1..])
  }

  /** Entries come back in order; of a status letter with a score only the letter is kept. */
  lemma {:induction false} NameStatusRoundTrip(es: seq<(Entry, string)>)
    requires forall e :: e in es ==> EntryPrintable(e.0) && ScorePrintable(e.0, e.1)
    ensures EntriesOf(Lines(PrintEntries(es))) == Unscored(es)
  {
    if es != [] {
      var l := EntryText(es[0].0, es[0].1);
      EntryTextParses(es[0].0, es[0].1);
      LinesCons(l, PrintEntries(es[1..]));
      var ls := Lines(PrintEntries(es));
      assert ls[0] == l && ls[1..] == Lines(PrintEntries(es[1..]));
      NameStatusRoundTrip(es[1..]);
    }
  }

  // ---- Units -------------------------------------------------------------------------------------

  function ChangeOf(code: string): Change {
    if code == "A" then Added
    else if code == "D" then Deleted
    else if code == "R" then Renamed
    else if code == "C" then Copied
    else Modified
  }

  const NO_STAT := Stat(0, 0, false)

  function Figures(stats: map<string, Stat>, path: string): Stat {
    if path in stats then stats[path] else NO_STAT
  }

  /** The key under which a unit finds its figures. */
  function KeyOf(stats: map<string, Stat>, e: Entry): string {
    if e.path !in stats && e.previous.Some? && e.previous.value != "" then e.previous.value else e.path
  }

  predicate Describes(u: Unit, stats: map<string, Stat>, e: Entry) {
    && u.path == e.path && u.previous == e.previous
    && u.change == ChangeOf(e.code)
    && u.stat == Figures(stats, KeyOf(stats, e))
  }

  method UnitsFor(stats: map<string, Stat>, entries: seq<Entry>) returns (units: seq<Unit>)
    ensures |units| == |entries|
    ensures forall i :: 0 <= i < |units| ==> Describes(units[i], stats, entries[i])
  {
    units := [];
    for i := 0 to |entries|
      invariant |units| == i
      invariant forall j :: 0 <= j < i ==> Describes(units[j], stats, entries[j])
    {
      var e := entries[i];
      var stat := Figures(stats, e.path);
      if e.previous.Some? && e.previous.value != "" && e.path !in stats {
        stat := Figures(stats, e.previous.value);
      }
      units := units + [Unit(e.path, e.previous, ChangeOf(e.code), stat)];
    }
  }

  /** One unit per entry, in order. */
  predicate Described(numstat: string, nameStatus: string, units: seq<Unit>) {
    var stats := Store(map[], RowsOf(Lines(numstat)));
    var entries := EntriesOf(Lines(nameStatus));
    && |units| == |entries|
    && forall i :: 0 <= i < |units| ==> Describes(units[i], stats, entries[i])
  }

  method ParseDiff(numstat: string, nameStatus: string) returns (units: seq<Unit>)
    ensures Described(numstat, nameStatus, units)
  {
    var stats := ParseNumstat(numstat);
    var entries := ParseNameStatus(nameStatus);
    units := UnitsFor(stats, entries);
  }

  // ---- Totals ------------------------------------------------------------------------------------

  predicate Distinct(paths: seq<string>) {
    forall i, j :: 0 <= i < j < |paths| ==> paths[i] != paths[j]
  }

  ghost function RowPaths(rows: seq<StatRow>): seq<string> {
    Map(rows, (r: StatRow) => r.0)
  }

  ghost function EntryPaths(entries: seq<Entry>): seq<string> {
    Map(entries, (e: Entry) => e.path)
  }

  ghost function RowTotal(rows: seq<StatRow>, count: Stat -> real): real {
    SumBy(rows, (r: StatRow) => count(r.1))
  }

  ghost function UnitTotal(units: seq<Unit>, count: Stat -> real): real {
    SumBy(units, (u: Unit) => count(u.stat))
  }

  lemma {:induction false} DistinctCounts(paths: seq<string>)
    requires Distinct(paths)
    ensures forall p :: multiset(paths)[p] == if p in paths then 1 else 0
  {
    if paths != [] {
      var n := |paths| - 1;
      DistinctCounts(paths[..n]);
      assert paths == paths[..n] + [paths[n]];
    }
  }

  lemma SamePathsPermute(a: seq<string>, b: seq<string>)
    requires Distinct(a) && Distinct(b) && forall p :: p in a <==> p in b
    ensures multiset(a) == multiset(b)
  {
    DistinctCounts(a);
    DistinctCounts(b);
  }

  lemma RowFigures(rows: seq<StatRow>, i: nat)
    requires i < |rows| && Distinct(RowPaths(rows))
    ensures Figures(Store(map[], rows), rows[i].0) == rows[i].1
  {
    var path := rows[i].0;
    assert !Names(rows[i + 1..], path);
    StoreMeaning(map[], rows, path);
  }

  /**
   * When the two outputs name the same paths, each once, the units add up to what numstat counted:
   * added lines, deleted lines, binary files or any other figure.
   */
  lemma TotalsAgree(rows: seq<StatRow>, entries: seq<Entry>, units: seq<Unit>, count: Stat -> real)
    requires Distinct(RowPaths(rows)) && Distinct(EntryPaths(entries))
    requires forall p :: p in RowPaths(rows) <==> p in EntryPaths(entries)
    requires |units| == |entries|
    requires forall i :: 0 <= i < |units| ==> Describes(units[i], Store(map[], rows), entries[i])
    ensures UnitTotal(units, count) == RowTotal(rows, count)
  {
    var stats := Store(map[], rows);
    var at := (p: string) => count(Figures(stats, p));
    RowTotalByPath(rows, stats, count);
    UnitTotalByPath(entries, units, rows, count);
    SamePathsPermute(RowPaths(rows), EntryPaths(entries));
    SumByPermutation(RowPaths(rows), EntryPaths(entries), at);
  }

  lemma RowTotalByPath(rows: seq<StatRow>, stats: map<string, Stat>, count: Stat -> real)
    requires Distinct(RowPaths(rows)) && stats == Store(map[], rows)
    ensures RowTotal(rows, count) == SumBy(RowPaths(rows), (p: string) => count(Figures(stats, p)))
  {
    forall r | r in rows ensures Figures(stats, r.0) == r.1 {
      var i :| 0 <= i < |rows| && rows[i] == r;
      RowFigures(rows, i);
    }
    SumByMap(rows, (r: StatRow) => r.0, (p: string) => count(Figures(stats, p)), (r: StatRow) => count(r.1));
  }

  lemma PathsFound(rows: seq<StatRow>, path: string)
    requires path in RowPaths(rows)
    ensures path in Store(map[], rows)
  {
    var i :| 0 <= i < |rows| && RowPaths(rows)[i] == path;
    assert rows[i].0 == path;
    StoreMeaning(map[], rows, path);
  }

  lemma UnitTotalByPath(entries: seq<Entry>, units: seq<Unit>, rows: seq<StatRow>, count: Stat -> real)
    requires forall p :: p in EntryPaths(entries) ==> p in RowPaths(rows)
    requires |units| == |entries|
    requires forall i :: 0 <= i < |units| ==> Describes(units[i], Store(map[], rows), entries[i])
    ensures UnitTotal(units, count) ==
            SumBy(EntryPaths(entries), (p: string) => count(Figures(Store(map[], rows), p)))
  {
    var stats := Store(map[], rows);
    forall u | u in units ensures u.stat == Figures(stats, u.path) {
      var i :| 0 <= i < |units| && units[i] == u;
      assert EntryPaths(entries)[i] == entries[i].path;
      PathsFound(rows, entries[i].path);
    }
    assert Map(units, (u: Unit) => u.path) == EntryPaths(entries);
    SumByMap(units, (u: Unit) => u.path, (p: string) => count(Figures(stats, p)), (u: Unit) => count(u.stat));
  }

  /** The last row that names `path`. */
  lemma {:induction false} LastNamed(rows: seq<StatRow>, path: string) returns (i: nat)
    requires Names(rows, path)
    ensures i < |rows| && rows[i].0 == path && !Names(rows[i + 1..], path)
    decreases |rows|
  {
    if Names(rows[1..], path) {
      var j := LastNamed(rows[1..], path);
      i := j + 1;
      assert rows[1..][j + 1..] == rows[i + 1..];
    } else {
      i := 0;
    }
  }

  /** The key a unit's figures are looked up under, told from the rows. */
  function KeyAmong(rows: seq<StatRow>, e: Entry): string {
    if !Names(rows, e.path) && e.previous.Some? && e.previous.value != "" then e.previous.value else e.path
  }

  /**
   * Where a unit's figures come from, for every list of rows: the last row under its path or, if
   * there is none, under its non-empty previous path; with neither, the unit shows nothing.
   */
  lemma FiguresExactly(rows: seq<StatRow>, e: Entry, u: Unit)
    requires Describes(u, Store(map[], rows), e)
    ensures !Names(rows, KeyAmong(rows, e)) ==> u.stat == Stat(0, 0, false)
    ensures Names(rows, KeyAmong(rows, e)) ==>
              exists i :: && 0 <= i < |rows| && rows[i].0 == KeyAmong(rows, e)
                          && !Names(rows[i + 1..], KeyAmong(rows, e)) && u.stat == rows[i].1
  {
    var key := KeyAmong(rows, e);
    StoreMeaning(map[], rows, e.path);
    StoreMeaning(map[], rows, key);
    if Names(rows, key) {
      var i := LastNamed(rows, key);
    }
  }

  /**
   * Numstat names a renamed file by one text for both paths. Whatever that text is and whatever
   * other files changed, with no row under either path alone the unit shows no changed lines.
   */
  lemma ArrowRowIsLost(rows: seq<StatRow>, before: string, after: string, u: Unit)
    requires Describes(u, Store(map[], rows), Entry("R", after, Some(before)))
    requires !Names(rows, after) && (before == "" || !Names(rows, before))
    ensures u.change == Renamed && u.stat == Stat(0, 0, false)
  {
    FiguresExactly(rows, Entry("R", after, Some(before)), u);
  }

  /** The `old => new` spelling is such a text, whatever git counted under it. */
  lemma ArrowKeyNamesNeither(before: string, after: string, counted: Stat)
    ensures var rows := [(before + " => " + after, counted)];
            !Names(rows, after) && !Names(rows, before)
  {
    var key := before + " => " + after;
    assert |key| > |before| && |key| > |after|;
  }
}
