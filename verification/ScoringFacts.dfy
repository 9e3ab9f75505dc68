/** What the engine's keys, tables, defaults and limits mean, told from the findings' own fields. */
module ScoringFacts {
  import opened Options
  import opened Rounding
  import opened Sums
  import opened Ordering
  import opened Scoring
  import opened ScoringLaws

  // ---- Which findings are the same ---------------------------------------------------------------

  predicate Blank(o: Option<string>) {
    o == None || o == Some("")
  }

  /** `t` identifies the finding: its dedupe key or, without one, its finding id. */
  predicate IdentifiedBy(f: Finding, t: string) {
    t != "" && (f.dedupeKey == Some(t) || (Blank(f.dedupeKey) && f.findingId == Some(t)))
  }

  ghost predicate SameFinding(f: Finding, g: Finding) {
    || (exists t :: IdentifiedBy(f, t) && IdentifiedBy(g, t))
    || (Blank(f.dedupeKey) && Blank(f.findingId) && Blank(g.dedupeKey) && Blank(g.findingId)
        && f.objectId == g.objectId)
  }

  lemma SameKeyExactly(f: Finding, g: Finding)
    ensures KeyOf(f) == KeyOf(g) <==> SameFinding(f, g)
  {
    if KeyOf(f) == KeyOf(g) && KeyOf(f).Text? {
      assert IdentifiedBy(f, KeyOf(f).text) && IdentifiedBy(g, KeyOf(f).text);
    }
  }

  /** A finding is dropped if and only if an earlier one is the same. */
  lemma DroppedExactly(fs: seq<Finding>, g: Finding)
    ensures FirstPerKey(fs + [g])
         == if exists f :: f in fs && SameFinding(f, g) then FirstPerKey(fs) else FirstPerKey(fs) + [g]
  {
    assert (fs + [g])[..|fs|] == fs;
    forall f | f in fs ensures KeyOf(f) == KeyOf(g) <==> SameFinding(f, g) {
      SameKeyExactly(f, g);
    }
    assert KeyOf(g) in Keys(fs) <==> exists f :: f in fs && KeyOf(f) == KeyOf(g);
  }

  /** One dedupe key, one finding, whatever the finding ids. */
  lemma SharedDedupeKeyChangesNothing(fs: seq<Finding>, f: Finding, g: Finding)
    requires f in fs && f.dedupeKey == g.dedupeKey && f.dedupeKey.Some? && f.dedupeKey.value != ""
    ensures Score(fs + [g]) == Score(fs)
    ensures WeightedConfidence(fs + [g]) == WeightedConfidence(fs)
  {
    assert IdentifiedBy(f, f.dedupeKey.value) && IdentifiedBy(g, f.dedupeKey.value);
    DroppedExactly(fs, g);
  }

  lemma LimitationsExactly(fs: seq<Finding>)
    ensures NoFindings in Limitations(fs) <==> fs == []
    ensures forall n: nat :: DuplicatesRemoved(n) in Limitations(fs) <==> n > 0 && n + |FirstPerKey(fs)| == |fs|
    ensures |Limitations(fs)| <= 1
  {
    FewerKept(fs);
  }

  lemma {:induction false} FewerKept(fs: seq<Finding>)
    ensures |FirstPerKey(fs)| <= |fs|
  {
    if fs != [] {
      FewerKept(fs[..|fs| - 1]);
    }
  }

  // ---- What one finding is charged ---------------------------------------------------------------

  lemma LowerIsAscii()
    ensures Lower("AMZ amz @[`{ 09") == "amz amz @[`{ 09"
  {
  }

  /** Points by severity, in any letter case; an absent or unknown one counts as informational. */
  lemma PointsBySeverity(f: Finding)
    ensures var s := if f.severity.Some? then Lower(f.severity.value) else "informational";
            var points := DetailOf(f).base;
            && DetailOf(f).severity == s
            && (points == 25.0 <==> s == "critical")
            && (points == 10.0 <==> s == "high")
            && (points == 5.0 <==> s == "medium")
            && (points == 2.0 <==> s == "low")
            && (points == 0.5 <==> s !in ["critical", "high", "medium", "low"])
  {
  }

  /** The confidence is 0.7 if absent and brought between 0 and 1; other absent fields have defaults. */
  lemma DefaultsOfOne(f: Finding)
    ensures var c := if f.confidence.Some? then f.confidence.value else 0.7;
            && (0.0 <= c <= 1.0 ==> DetailOf(f).confidence == c)
            && (c < 0.0 ==> DetailOf(f).confidence == 0.0) && (c > 1.0 ==> DetailOf(f).confidence == 1.0)
    ensures DetailOf(f).category == if f.category.Some? then Lower(f.category.value) else "unknown"
    ensures DetailOf(f).findingId == if f.findingId.Some? then f.findingId.value else ""
  {
  }

  /** The weight is exact, the charge is rounded to four places. */
  predicate Charged(exact: real, weighted: real, actual: real) {
    weighted == exact && RoundedTo(exact, 10000.0, actual) && -0.00005 <= actual - exact <= 0.00005
  }

  /** `r` is a multiple of one part in `scale`, the nearest to `x`, the even one of two. */
  predicate RoundedTo(x: real, scale: real, r: real) {
    r * scale == (r * scale).Floor as real && NearestEven(x * scale, (r * scale).Floor)
  }

  lemma ChargedNear(f: Finding, exact: real)
    ensures var d := ChargedExactly(f, exact); Charged(exact, d.weighted, d.actual)
  {
    NearRound4(exact);
  }

  /** A finding is charged its points times its confidence, within half a rounding unit. */
  lemma ChargeOfOne(f: Finding, exact: real)
    requires exact == Base(Severity(f)) * Confidence(f)
    ensures Charged(exact, DetailOf(f).weighted, DetailOf(f).actual)
  {
    assert DetailOf(f) == ChargedExactly(f, exact);
    ChargedNear(f, exact);
  }

  lemma TermsOfOne(f: Finding)
    ensures DetailOf(f).base == Base(Severity(f)) && DetailOf(f).confidence == Confidence(f)
  {
  }

  lemma ToScale(y: real, scale: real, r: real)
    requires r * scale == HalfEven(y) as real
    ensures r * scale == (r * scale).Floor as real && NearestEven(y, (r * scale).Floor)
  {
    WholeFloor(r * scale, HalfEven(y));
    HalfEvenExactly(y, HalfEven(y));
  }

  lemma NearRound4(x: real)
    ensures -0.00005 <= Round4(x) - x <= 0.00005 && RoundedTo(x, 10000.0, Round4(x))
  {
    ToScale(x * 10000.0, 10000.0, Round4(x));
  }

  // ---- From deductions to the result -------------------------------------------------------------

  lemma GradeBands(score: real)
    ensures Grade(score) in "ABCDF"
    ensures (Grade(score) == 'A' <==> 90.0 <= score) && (Grade(score) == 'B' <==> 75.0 <= score < 90.0)
    ensures (Grade(score) == 'C' <==> 60.0 <= score < 75.0) && (Grade(score) == 'D' <==> 40.0 <= score < 60.0)
    ensures Grade(score) == 'F' <==> score < 40.0
  {
  }

  /** The score is what is left of 100 to the nearest hundredth, and nothing from 100 points on. */
  lemma FinalScoreNear(deduction: real)
    ensures deduction <= 100.0 ==> -0.005 <= FinalScore(deduction) - (100.0 - deduction) <= 0.005
    ensures deduction >= 100.0 ==> FinalScore(deduction) == 0.0
    ensures deduction <= 100.0 ==> RoundedTo(100.0 - deduction, 100.0, FinalScore(deduction))
  {
    HalfEvenInteger(0);
    HalfEvenExactly((100.0 - deduction) * 100.0, HalfEven((100.0 - deduction) * 100.0));
  }

  /** The confidence is the weighted mean to the nearest thousandth, and 1 without any weight. */
  lemma AverageNear(weighted: real, weight: real)
    ensures weight > 0.0 ==> -0.0005 <= Average(weighted, weight) - weighted / weight <= 0.0005
    ensures weight == 0.0 ==> Average(weighted, weight) == 1.0
    ensures weight > 0.0 ==> RoundedTo(weighted / weight, 1000.0, Average(weighted, weight))
  {
    if weight > 0.0 {
      NearRound3(weighted / weight);
    }
  }

  lemma NearRound3(x: real)
    ensures -0.0005 <= Round3(x) - x <= 0.0005 && RoundedTo(x, 1000.0, Round3(x))
  {
    ToScale(x * 1000.0, 1000.0, Round3(x));
  }

  // ---- Rows and caps -----------------------------------------------------------------------------

  lemma {:induction false} CapsOver(cats: seq<string>, ds: seq<Detail>, c: Cap)
    ensures c in AllCaps(cats, ds)
       <==> c.category in cats && c.raw == CategoryTotal(ds, c.category) && c.raw > 35.0
  {
    if cats != [] {
      CapsOver(cats[..|cats| - 1], ds, c);
    }
  }

  /** Exactly the categories over 35 points are reported as capped, with their raw totals. */
  lemma CappedExactly(fs: seq<Finding>, c: Cap)
    ensures c in CapsApplied(fs)
       <==> c.raw == CategoryTotal(Charges(FirstPerKey(fs)), c.category) && c.raw > 35.0
  {
    var ds := Charges(FirstPerKey(fs));
    CapsOver(SortedStrings(Categories(ds)), ds, c);
    if c.category !in Categories(ds) {
      CategoryTotalOutside(ds, c.category);
    }
  }

  /** A row for every charge and no other, each category's rows together. */
  ghost function DetailsIn(rows: seq<Row>): seq<Detail> {
    Map(rows, (r: Row) => r.detail)
  }

  lemma DetailsInAppend(a: seq<Row>, b: seq<Row>)
    ensures DetailsIn(a + b) == DetailsIn(a) + DetailsIn(b)
  {
  }

  ghost function OfCategories(ds: seq<Detail>, cats: set<string>): seq<Detail> {
    if ds == [] then []
    else
      var before := OfCategories(ds[..|ds| - 1], cats);
      if ds[|ds| - 1].category in cats then before + [ds[|ds| - 1]] else before
  }

  ghost function Members(cats: seq<string>): set<string> {
    set c | c in cats
  }

  lemma {:induction false} OneMoreCategory(ds: seq<Detail>, cats: set<string>, cat: string)
    requires cat !in cats
    ensures multiset(OfCategories(ds, cats + {cat})) == multiset(OfCategories(ds, cats)) + multiset(DetailsOf(ds, cat))
  {
    if ds != [] {
      OneMoreCategory(ds[..|ds| - 1], cats, cat);
    }
  }

  lemma RowsSnoc(init: seq<string>, last: string, ds: seq<Detail>)
    requires multiset(DetailsIn(AllRows(init, ds))) == multiset(OfCategories(ds, Members(init)))
    requires last !in init
    ensures multiset(DetailsIn(AllRows(init, ds) + RowsOf(ds, last)))
         == multiset(OfCategories(ds, Members(init) + {last}))
  {
    DetailsInAppend(AllRows(init, ds), RowsOf(ds, last));
    assert DetailsIn(RowsOf(ds, last)) == DetailsOf(ds, last);
    OneMoreCategory(ds, Members(init), last);
  }

  lemma {:induction false} RowsOver(cats: seq<string>, ds: seq<Detail>)
    requires forall i, j :: 0 <= i < j < |cats| ==> cats[i] != cats[j]
    ensures multiset(DetailsIn(AllRows(cats, ds))) == multiset(OfCategories(ds, Members(cats)))
  {
    if cats == [] {
      NoCategories(ds);
      assert Members(cats) == {};
    } else {
      var init, last := cats[..|cats| - 1], cats[|cats| - 1];
      RowsOver(init, ds);
      RowsSnoc(init, last, ds);
      assert cats == init + [last];
      assert Members(cats) == Members(init) + {last};
    }
  }

  lemma {:induction false} NoCategories(ds: seq<Detail>)
    ensures OfCategories(ds, {}) == []
  {
    if ds != [] {
      NoCategories(ds[..|ds| - 1]);
    }
  }

  lemma {:induction false} AllCategories(ds: seq<Detail>, cats: set<string>)
    requires Categories(ds) <= cats
    ensures OfCategories(ds, cats) == ds
  {
    if ds != [] {
      var init := ds[..|ds| - 1];
      assert ds == init + [ds[|ds| - 1]];
      assert ds[|ds| - 1].category in Categories(ds);
      assert forall d :: d in init ==> d.category in Categories(ds);
      AllCategories(init, cats);
    }
  }

  lemma RowsAreTheCharges(fs: seq<Finding>)
    ensures multiset(DetailsIn(Deductions(fs))) == multiset(Charges(FirstPerKey(fs)))
  {
    var ds := Charges(FirstPerKey(fs));
    var cats := SortedStrings(Categories(ds));
    RowsOver(cats, ds);
    assert Members(cats) == Categories(ds);
    AllCategories(ds, Categories(ds));
  }

  // ---- Worse findings ----------------------------------------------------------------------------

  /** Finding for finding the same, but charged at least as much. */
  ghost predicate Worse(fs: seq<Finding>, gs: seq<Finding>) {
    Paired(fs, gs, WorseOne)
  }

  predicate WorseOne(f: Finding, g: Finding) {
    KeyOf(f) == KeyOf(g) && Category(f) == Category(g) && DetailOf(f).actual <= DetailOf(g).actual
  }

  lemma KeysSnoc(fs: seq<Finding>, f: Finding)
    ensures Keys(fs + [f]) == Keys(fs) + {KeyOf(f)}
  {
  }

  ghost predicate Paired(us: seq<Finding>, vs: seq<Finding>, rel: (Finding, Finding) -> bool) {
    |us| == |vs| && forall i :: 0 <= i < |us| ==> rel(us[i], vs[i])
  }

  /** Lists whose keys agree one by one keep the same positions. */
  lemma {:induction false} KeptPaired(fs: seq<Finding>, gs: seq<Finding>, rel: (Finding, Finding) -> bool)
    requires Paired(fs, gs, rel) && forall f, g :: rel(f, g) ==> KeyOf(f) == KeyOf(g)
    ensures Keys(fs) == Keys(gs) && Paired(FirstPerKey(fs), FirstPerKey(gs), rel)
  {
    if fs != [] {
      var n := |fs| - 1;
      KeptPaired(fs[..n], gs[..n], rel);
      assert fs == fs[..n] + [fs[n]] && gs == gs[..n] + [gs[n]];
      KeysSnoc(fs[..n], fs[n]);
      KeysSnoc(gs[..n], gs[n]);
    }
  }

  lemma {:induction false} SumByPaired(us: seq<Finding>, vs: seq<Finding>, h: Finding -> real)
    requires Paired(us, vs, (f, g) => h(f) <= h(g))
    ensures SumBy(us, h) <= SumBy(vs, h)
  {
    if us != [] {
      SumByPaired(us[..|us| - 1], vs[..|vs| - 1], h);
    }
  }

  lemma WorseTotals(us: seq<Finding>, vs: seq<Finding>, cat: string)
    requires Paired(us, vs, WorseOne)
    ensures CategoryTotal(Charges(us), cat) <= CategoryTotal(Charges(vs), cat)
  {
    var h := (f: Finding) => InCategory(cat)(DetailOf(f));
    SumByMap(us, DetailOf, InCategory(cat), h);
    SumByMap(vs, DetailOf, InCategory(cat), h);
    forall i | 0 <= i < |us| ensures h(us[i]) <= h(vs[i]) {
      assert WorseOne(us[i], vs[i]);
      NotNegative(us[i]);
    }
    SumByPaired(us, vs, h);
  }

  lemma NotNegative(f: Finding)
    ensures 0.0 <= DetailOf(f).actual
  {
    DetailSound(f);
  }

  /** Making findings more severe or more certain never raises the score or improves the grade. */
  lemma WorseNeverHelps(fs: seq<Finding>, gs: seq<Finding>)
    requires Worse(fs, gs)
    ensures Score(gs) <= Score(fs) && Grade(Score(fs)) <= Grade(Score(gs))
  {
    var us, vs := FirstPerKey(fs), FirstPerKey(gs);
    KeptPaired(fs, gs, WorseOne);
    forall c ensures CategoryTotal(Charges(us), c) <= CategoryTotal(Charges(vs), c) {
      WorseTotals(us, vs, c);
    }
    TotalDeductionLe(Charges(us), Charges(vs));
    FinalScoreAntitone(TotalDeduction(Charges(us)), TotalDeduction(Charges(vs)));
    GradeMonotone(Score(gs), Score(fs));
  }

  // ---- Two findings ------------------------------------------------------------------------------

  predicate FullyCritical(f: Finding, cat: string) {
    f.severity == Some("critical") && f.confidence == Some(1.0) && f.category == Some(cat)
  }

  lemma OneCategory(ds: seq<Detail>, cat: string)
    requires ds != [] && forall d :: d in ds ==> d.category == cat
    ensures TotalDeduction(ds) == Min(CATEGORY_CAP, CategoryTotal(ds, cat))
  {
    assert ds[0] in ds;
    assert Categories(ds) == {cat};
    CappedSumSplit({cat}, ds, cat);
    assert {cat} - {cat} == {};
  }

  lemma CriticalCharge(f: Finding, cat: string)
    requires FullyCritical(f, cat)
    ensures DetailOf(f).actual == 25.0 && DetailOf(f).category == Lower(cat)
  {
    assert Lower("critical") == "critical";
    HalfEvenInteger(250000);
  }

  lemma CriticalTotal(us: seq<Finding>, f: Finding, cat: string)
    requires FullyCritical(f, cat)
    ensures CategoryTotal(Charges(us + [f]), Lower(cat)) == CategoryTotal(Charges(us), Lower(cat)) + 25.0
  {
    CriticalCharge(f, cat);
    CategoryTotalSnoc(us, f, Lower(cat));
  }

  lemma CriticalScore(fs: seq<Finding>, us: seq<Finding>, cat: string)
    requires us == FirstPerKey(fs) && us != [] && forall f :: f in us ==> FullyCritical(f, cat)
    ensures Score(fs) == FinalScore(Min(CATEGORY_CAP, CategoryTotal(Charges(us), Lower(cat))))
  {
    forall d | d in Charges(us) ensures d.category == Lower(cat) {
      var i :| 0 <= i < |us| && Charges(us)[i] == d;
      CriticalCharge(us[i], cat);
    }
    OneCategory(Charges(us), Lower(cat));
  }

  lemma KeptOfTwo(f: Finding, g: Finding)
    ensures FirstPerKey([f, g]) == if SameFinding(f, g) then [f] else [f, g]
  {
    assert [f][..0] == [];
    assert FirstPerKey([f]) == [f];
    assert [f] + [g] == [f, g];
    DroppedExactly([f], g);
  }

  lemma CriticalTotals(f: Finding, g: Finding, cat: string)
    requires FullyCritical(f, cat) && FullyCritical(g, cat)
    ensures CategoryTotal(Charges([f]), Lower(cat)) == 25.0
    ensures CategoryTotal(Charges([f, g]), Lower(cat)) == 50.0
  {
    assert CategoryTotal(Charges([]), Lower(cat)) == 0.0;
    CriticalTotal([], f, cat);
    assert [] + [f] == [f];
    CriticalTotal([f], g, cat);
    assert [f] + [g] == [f, g];
  }

  lemma ScoresLeft()
    ensures FinalScore(Min(CATEGORY_CAP, 25.0)) == 75.0
    ensures FinalScore(Min(CATEGORY_CAP, 50.0)) == 65.0
  {
    HalfEvenInteger(7500);
    HalfEvenInteger(6500);
  }

  /**
   * Two critical findings of one category: 75 points are left and grade B if they are the same
   * finding, 65 and grade C, at the cap, if they are not.
   */
  lemma TwoCritical(f: Finding, g: Finding, cat: string)
    requires FullyCritical(f, cat) && FullyCritical(g, cat)
    ensures Score([f, g]) == (if SameFinding(f, g) then 75.0 else 65.0)
    ensures Grade(Score([f, g])) == (if SameFinding(f, g) then 'B' else 'C')
  {
    KeptOfTwo(f, g);
    CriticalTotals(f, g, cat);
    CriticalScore([f, g], FirstPerKey([f, g]), cat);
    ScoresLeft();
  }
}
