/** The deterministic scoring engine: loops over findings, and the closed form they compute. */
module Scoring {
  import opened Options
  import opened Rounding
  import opened Sums
  import opened Ordering

  /** A finding as the engine reads it; `None` is an absent attribute, `objectId` its identity. */
  datatype Finding = Finding(
    objectId: nat,
    findingId: Option<string>,
    dedupeKey: Option<string>,
    category: Option<string>,
    severity: Option<string>,
    confidence: Option<real>)

  /** A finding without a usable text key is identified by the object itself. */
  datatype Key = Text(text: string) | Identity(objectId: nat)

  datatype Detail = Detail(
    findingId: string,
    category: string,
    severity: string,
    confidence: real,
    base: real,
    weighted: real,
    actual: real)

  datatype Row = Row(detail: Detail, capped: Option<real>)

  datatype Cap = Cap(category: string, raw: real)

  datatype Limitation = NoFindings | DuplicatesRemoved(count: nat)

  datatype ScoreResult = ScoreResult(
    finalScore: real,
    grade: char,
    confidence: real,
    deductions: seq<Row>,
    caps: seq<Cap>,
    limitations: seq<Limitation>)

  const CATEGORY_CAP := 35.0

  function Truthy(o: Option<string>): bool {
    o.Some? && o.value != ""
  }

  function KeyOf(f: Finding): Key {
    if Truthy(f.dedupeKey) then Text(f.dedupeKey.value)
    else if Truthy(f.findingId) then Text(f.findingId.value)
    else Identity(f.objectId)
  }

  function LowerChar(c: char): char {
    if 'A' <= c <= 'Z' then c - 'A' + 'a' else c
  }

  function Lower(s: string): string {
    seq(|s|, i requires 0 <= i < |s| => LowerChar(s[i]))
  }

  function Category(f: Finding): string {
    Lower(if f.category.Some? then f.category.value else "unknown")
  }

  function Severity(f: Finding): string {
    Lower(if f.severity.Some? then f.severity.value else "informational")
  }

  function Base(severity: string): (b: real)
    ensures 0.5 <= b <= 25.0
  {
    if severity == "critical" then 25.0
    else if severity == "high" then 10.0
    else if severity == "medium" then 5.0
    else if severity == "low" then 2.0
    else 0.5
  }

  function Confidence(f: Finding): (c: real)
    ensures 0.0 <= c <= 1.0
  {
    var raw := if f.confidence.Some? then f.confidence.value else 0.7;
    if raw < 0.0 then 0.0 else if raw > 1.0 then 1.0 else raw
  }

  /** `weighted` is the finding's share of the confidence average, before dividing. */
  function DetailOf(f: Finding): Detail {
    ChargedExactly(f, Base(Severity(f)) * Confidence(f))
  }

  function ChargedExactly(f: Finding, exact: real): Detail {
    Detail(
      if f.findingId.Some? then f.findingId.value else "",
      Category(f), Severity(f), Confidence(f), Base(Severity(f)),
      exact, Round4(exact))
  }

  function Grade(score: real): char {
    if score >= 90.0 then 'A'
    else if score >= 75.0 then 'B'
    else if score >= 60.0 then 'C'
    else if score >= 40.0 then 'D'
    else 'F'
  }

  function Max(x: real, y: real): real {
    if x < y then y else x
  }

  function Min(x: real, y: real): real {
    if x < y then x else y
  }

  // ---- The closed form -------------------------------------------------------------------

  ghost function Keys(fs: seq<Finding>): set<Key> {
    set f | f in fs :: KeyOf(f)
  }

  /** The findings whose key does not occur earlier, in order. */
  ghost function FirstPerKey(fs: seq<Finding>): seq<Finding> {
    if fs == [] then []
    else
      var init, last := fs[..|fs| - 1], fs[|fs| - 1];
      if KeyOf(last) in Keys(init) then FirstPerKey(init) else FirstPerKey(init) + [last]
  }

  ghost function Charges(us: seq<Finding>): seq<Detail> {
    Map(us, DetailOf)
  }

  ghost function Categories(ds: seq<Detail>): set<string> {
    set d | d in ds :: d.category
  }

  ghost function InCategory(cat: string): Detail -> real {
    (d: Detail) => if d.category == cat then d.actual else 0.0
  }

  ghost function CategoryTotal(ds: seq<Detail>, cat: string): real {
    SumBy(ds, InCategory(cat))
  }

  /** Deduction over a set of categories, each capped; no order is chosen. */
  ghost function CappedSum(cats: set<string>, ds: seq<Detail>): real {
    if cats == {} then 0.0
    else
      var c :| c in cats;
      CappedTotal(ds)(c) + CappedSum(cats - {c}, ds)
  }

  ghost function TotalDeduction(ds: seq<Detail>): real {
    CappedSum(Categories(ds), ds)
  }

  function FinalScore(deduction: real): real {
    Round2(Max(0.0, 100.0 - deduction))
  }

  function Average(weighted: real, weight: real): real {
    if weight > 0.0 then Round3(weighted / weight) else 1.0
  }

  ghost function Score(fs: seq<Finding>): real {
    FinalScore(TotalDeduction(Charges(FirstPerKey(fs))))
  }

  ghost function BaseWeight(): Detail -> real {
    (d: Detail) => d.base
  }

  ghost function ConfidenceWeight(): Detail -> real {
    (d: Detail) => d.weighted
  }

  ghost function WeightedConfidence(fs: seq<Finding>): real {
    var ds := Charges(FirstPerKey(fs));
    Average(SumBy(ds, ConfidenceWeight()), SumBy(ds, BaseWeight()))
  }

  // ---- The rows ----------------------------------------------------------------------------

  ghost function DetailsOf(ds: seq<Detail>, cat: string): seq<Detail> {
    if ds == [] then []
    else
      var last := ds[|ds| - 1];
      var before := DetailsOf(ds[..|ds| - 1], cat);
      if last.category == cat then before + [last] else before
  }

  function SumActual(ds: seq<Detail>): real {
    if ds == [] then 0.0 else SumActual(ds[..|ds| - 1]) + ds[|ds| - 1].actual
  }

  /** What one row of a category with the given total is charged after the cap. */
  function CappedValue(d: Detail, total: real): real {
    if total > CATEGORY_CAP then Scaled(d.actual, CATEGORY_CAP / total) else d.actual
  }

  function Scaled(actual: real, ratio: real): real {
    Round4(actual * ratio)
  }

  function CappedRows(ds: seq<Detail>, total: real): seq<Row> {
    seq(|ds|, i requires 0 <= i < |ds| => Row(ds[i], Some(CappedValue(ds[i], total))))
  }

  ghost function RowsOf(ds: seq<Detail>, cat: string): seq<Row> {
    CappedRows(DetailsOf(ds, cat), CategoryTotal(ds, cat))
  }

  ghost function CapsOf(ds: seq<Detail>, cat: string): seq<Cap> {
    var raw := CategoryTotal(ds, cat);
    if raw > CATEGORY_CAP then [Cap(cat, raw)] else []
  }

  ghost function AllRows(cats: seq<string>, ds: seq<Detail>): seq<Row> {
    if cats == [] then [] else AllRows(cats[..|cats| - 1], ds) + RowsOf(ds, cats[|cats| - 1])
  }

  ghost function AllCaps(cats: seq<string>, ds: seq<Detail>): seq<Cap> {
    if cats == [] then [] else AllCaps(cats[..|cats| - 1], ds) + CapsOf(ds, cats[|cats| - 1])
  }

  ghost function CappedTotal(ds: seq<Detail>): string -> real {
    (cat: string) => Min(CATEGORY_CAP, CategoryTotal(ds, cat))
  }

  lemma SumBySnoc(ds: seq<Detail>, d: Detail, g: Detail -> real)
    ensures SumBy(ds + [d], g) == SumBy(ds, g) + g(d)
  {
    assert (ds + [d])[..|ds|] == ds;
  }

  lemma SumActualSnoc(ds: seq<Detail>, d: Detail)
    ensures SumActual(ds + [d]) == SumActual(ds) + d.actual
  {
    assert (ds + [d])[..|ds|] == ds;
  }

  lemma {:induction false} SumActualIsCategoryTotal(ds: seq<Detail>, cat: string)
    ensures SumActual(DetailsOf(ds, cat)) == CategoryTotal(ds, cat)
    ensures (DetailsOf(ds, cat) == []) == (cat !in Categories(ds))
  {
    if ds != [] {
      var init, last := ds[..|ds| - 1], ds[|ds| - 1];
      SumActualIsCategoryTotal(init, cat);
      assert ds == init + [last];
      assert Categories(ds) == Categories(init) + {last.category};
      SumActualSnoc(DetailsOf(init, cat), last);
      SumBySnoc(init, last, InCategory(cat));
    }
  }

  lemma {:induction false} CappedSumSplit(cats: set<string>, ds: seq<Detail>, c: string)
    requires c in cats
    ensures CappedSum(cats, ds)
         == CappedTotal(ds)(c) + CappedSum(cats - {c}, ds)
    decreases |cats|
  {
    var d :| d in cats
          && CappedSum(cats, ds)
             == CappedTotal(ds)(d) + CappedSum(cats - {d}, ds);
    if d != c {
      CappedSumSplit(cats - {d}, ds, c);
      CappedSumSplit(cats - {c}, ds, d);
      assert cats - {d} - {c} == cats - {c} - {d};
    }
  }

  // ---- The engine --------------------------------------------------------------------------

  method Deduplicate(findings: seq<Finding>) returns (unique: seq<Finding>, dupes: nat)
    ensures unique == FirstPerKey(findings)
    ensures dupes == |findings| - |unique|
  {
    var seen: set<Key> := {};
    unique, dupes := [], 0;
    for i := 0 to |findings|
      invariant seen == Keys(findings[..i])
      invariant unique == FirstPerKey(findings[..i])
      invariant dupes == i - |unique|
    {
      var f := findings[i];
      assert findings[..i + 1][..i] == findings[..i];
      assert findings[..i + 1] == findings[..i] + [f];
      if KeyOf(f) in seen {
        dupes := dupes + 1;
      } else {
        seen := seen + {KeyOf(f)};
        unique := unique + [f];
      }
    }
    assert findings[..|findings|] == findings;
  }

  ghost predicate Grouped(details: map<string, seq<Detail>>, ds: seq<Detail>) {
    && details.Keys == Categories(ds)
    && forall c :: c in details ==> details[c] == DetailsOf(ds, c)
  }

  lemma GroupedSnoc(details: map<string, seq<Detail>>, ds: seq<Detail>, d: Detail)
    requires Grouped(details, ds)
    ensures var rows := if d.category in details then details[d.category] else [];
            Grouped(details[d.category := rows + [d]], ds + [d])
  {
    assert (ds + [d])[..|ds|] == ds;
    assert Categories(ds + [d]) == Categories(ds) + {d.category};
    SumActualIsCategoryTotal(ds, d.category);
  }

  /** What the grouping loop carries: rows by category, and the two running sums. */
  datatype Groups = Groups(details: map<string, seq<Detail>>, numerator: real, denominator: real) {
    function Add(d: Detail): Groups {
      var rows := if d.category in details then details[d.category] else [];
      Groups(details[d.category := rows + [d]], numerator + d.weighted, denominator + d.base)
    }
  }

  ghost function GroupsOf(us: seq<Finding>): Groups {
    if us == [] then Groups(map[], 0.0, 0.0)
    else GroupsOf(us[..|us| - 1]).Add(DetailOf(us[|us| - 1]))
  }

  lemma {:induction false} GroupsMeaning(us: seq<Finding>)
    ensures var g := GroupsOf(us);
            && Grouped(g.details, Charges(us))
            && g.numerator == SumBy(Charges(us), ConfidenceWeight())
            && g.denominator == SumBy(Charges(us), BaseWeight())
  {
    if us != [] {
      var init, d := us[..|us| - 1], DetailOf(us[|us| - 1]);
      GroupsMeaning(init);
      assert Charges(us) == Charges(init) + [d];
      GroupedSnoc(GroupsOf(init).details, Charges(init), d);
      SumBySnoc(Charges(init), d, ConfidenceWeight());
      SumBySnoc(Charges(init), d, BaseWeight());
    }
  }

  lemma GroupsStep(us: seq<Finding>, i: nat)
    requires i < |us|
    ensures GroupsOf(us[..i + 1]) == GroupsOf(us[..i]).Add(DetailOf(us[i]))
  {
    assert us[..i + 1][..i] == us[..i];
  }

  method GroupByCategory(unique: seq<Finding>)
    returns (details: map<string, seq<Detail>>, numerator: real, denominator: real)
    ensures Groups(details, numerator, denominator) == GroupsOf(unique)
  {
    details, numerator, denominator := map[], 0.0, 0.0;
    for i := 0 to |unique|
      invariant Groups(details, numerator, denominator) == GroupsOf(unique[..i])
    {
      var d := DetailOf(unique[i]);
      GroupsStep(unique, i);
      var rows := if d.category in details then details[d.category] else [];
      details := details[d.category := rows + [d]];
      numerator := numerator + d.weighted;
      denominator := denominator + d.base;
    }
    assert unique[..|unique|] == unique;
  }

  /** Step 3's inner loops: the rows of one category, their capped values written in place. */
  method CapCategory(details: seq<Detail>) returns (rows: seq<Row>, charged: real, raw: real)
    ensures raw == SumActual(details)
    ensures rows == CappedRows(details, raw)
    ensures charged == Min(CATEGORY_CAP, raw)
  {
    raw := SumActual(details);
    rows := seq(|details|, i requires 0 <= i < |details| => Row(details[i], None));
    charged := raw;
    if raw > CATEGORY_CAP {
      var ratio := CATEGORY_CAP / raw;
      for i := 0 to |rows|
        invariant |rows| == |details|
        invariant forall j :: 0 <= j < |rows| ==> rows[j].detail == details[j]
        invariant forall j :: 0 <= j < i ==> rows[j].capped == Some(CappedValue(details[j], raw))
      {
        rows := rows[i := rows[i].(capped := Some(Scaled(rows[i].detail.actual, ratio)))];
      }
      charged := CATEGORY_CAP;
    } else {
      for i := 0 to |rows|
        invariant |rows| == |details|
        invariant forall j :: 0 <= j < |rows| ==> rows[j].detail == details[j]
        invariant forall j :: 0 <= j < i ==> rows[j].capped == Some(CappedValue(details[j], raw))
      {
        rows := rows[i := rows[i].(capped := Some(rows[i].detail.actual))];
      }
    }
  }

  /** Charging the categories one by one, in any order, charges the capped sum. */
  lemma {:induction false} ChargedInOrder(order: seq<string>, cats: set<string>, ds: seq<Detail>)
    requires Lists(order, cats)
    requires forall i, j :: 0 <= i < j < |order| ==> order[i] != order[j]
    ensures SumBy(order, CappedTotal(ds)) == CappedSum(cats, ds)
  {
    if order == [] {
      assert cats == {} by { assert forall c :: c in cats ==> c in order; }
    } else {
      var init, last := order[..|order| - 1], order[|order| - 1];
      assert order == init + [last];
      assert Lists(init, cats - {last});
      ChargedInOrder(init, cats - {last}, ds);
      CappedSumSplit(cats, ds, last);
    }
  }

  method ApplyCaps(details: map<string, seq<Detail>>, order: seq<string>, ghost ds: seq<Detail>)
    returns (rows: seq<Row>, caps: seq<Cap>, total: real)
    requires forall c :: c in order ==> c in details && details[c] == DetailsOf(ds, c)
    ensures total == SumBy(order, CappedTotal(ds))
    ensures rows == AllRows(order, ds)
    ensures caps == AllCaps(order, ds)
  {
    rows, caps, total := [], [], 0.0;
    for i := 0 to |order|
      invariant rows == AllRows(order[..i], ds)
      invariant caps == AllCaps(order[..i], ds)
      invariant total == SumBy(order[..i], CappedTotal(ds))
    {
      var cat := order[i];
      assert order[..i + 1][..i] == order[..i];
      SumActualIsCategoryTotal(ds, cat);
      var catRows, charged, raw := CapCategory(details[cat]);
      if raw > CATEGORY_CAP {
        caps := caps + [Cap(cat, raw)];
      }
      total := total + charged;
      rows := rows + catRows;
    }
    assert order[..|order|] == order;
  }

  lemma EmptyScore()
    ensures Score([]) == 100.0 && WeightedConfidence([]) == 1.0
    ensures SortedStrings(Categories([])) == []
  {
    assert Categories([]) == {};
    HalfEvenInteger(10000);
  }

  ghost function Deductions(fs: seq<Finding>): seq<Row> {
    var ds := Charges(FirstPerKey(fs));
    AllRows(SortedStrings(Categories(ds)), ds)
  }

  ghost function CapsApplied(fs: seq<Finding>): seq<Cap> {
    var ds := Charges(FirstPerKey(fs));
    AllCaps(SortedStrings(Categories(ds)), ds)
  }

  ghost function Limitations(fs: seq<Finding>): seq<Limitation> {
    var dupes := |fs| - |FirstPerKey(fs)|;
    if fs == [] then [NoFindings]
    else if dupes > 0 then [DuplicatesRemoved(dupes)]
    else []
  }

  method ComputeScore(findings: seq<Finding>) returns (r: ScoreResult)
    ensures r.finalScore == Score(findings)
    ensures r.grade == Grade(Score(findings))
    ensures r.confidence == WeightedConfidence(findings)
    ensures r.deductions == Deductions(findings)
    ensures r.caps == CapsApplied(findings)
    ensures r.limitations == Limitations(findings)
  {
    if findings == [] {
      EmptyScore();
      return ScoreResult(100.0, 'A', 1.0, [], [], [NoFindings]);
    }
    var unique, dupes := Deduplicate(findings);
    var details, numerator, denominator := GroupByCategory(unique);
    GroupsMeaning(unique);
    ghost var ds := Charges(unique);
    var order := SortedStrings(details.Keys);
    var rows, caps, total := ApplyCaps(details, order, ds);
    ChargedInOrder(order, details.Keys, ds);
    var finalScore := FinalScore(total);
    var confidence := Average(numerator, denominator);
    var limitations := if dupes > 0 then [DuplicatesRemoved(dupes)] else [];
    r := ScoreResult(finalScore, Grade(finalScore), confidence, rows, caps, limitations);
  }
}
