/** Laws of the score over whole finding lists, proved about the closed form. */
module ScoringLaws {
  import opened Options
  import opened Rounding
  import opened Sums
  import opened Ordering
  import opened Scoring

  // ---- Facts about one finding ---------------------------------------------------------------

  /** A deduction is a whole number of ten-thousandths, and the weights are in range. */
  ghost predicate Sound(d: Detail) {
    && 0.0 <= d.actual
    && d.actual == HalfEven(d.actual * 10000.0) as real / 10000.0
    && 0.5 <= d.base
    && 0.0 <= d.weighted <= d.base
  }

  lemma ProductRange(x: real, y: real)
    requires 0.0 <= x <= 1.0 && 0.0 <= y
    ensures 0.0 <= x * y <= y && x * y == y * x
  {
    assert (1.0 - x) * y >= 0.0;
  }

  lemma RoundedSound(x: real)
    requires 0.0 <= x
    ensures 0.0 <= Round4(x)
    ensures Round4(x) == HalfEven(Round4(x) * 10000.0) as real / 10000.0
  {
    HalfEvenMonotone(0.0, x * 10000.0);
    HalfEvenInteger(HalfEven(x * 10000.0));
  }

  lemma DetailSound(f: Finding)
    ensures Sound(DetailOf(f))
  {
    var base, conf := Base(Severity(f)), Confidence(f);
    ProductRange(conf, base);
    RoundedSound(base * conf);
  }

  lemma ChargesSound(us: seq<Finding>)
    ensures forall d :: d in Charges(us) ==> Sound(d)
  {
    forall d | d in Charges(us) ensures Sound(d) {
      var i :| 0 <= i < |us| && Charges(us)[i] == d;
      DetailSound(us[i]);
    }
  }

  lemma CategoryTotalNonNegative(ds: seq<Detail>, cat: string)
    requires forall d :: d in ds ==> Sound(d)
    ensures 0.0 <= CategoryTotal(ds, cat)
  {
    SumByNonNegative(ds, InCategory(cat));
  }

  lemma CategoryTotalOutside(ds: seq<Detail>, cat: string)
    requires cat !in Categories(ds)
    ensures CategoryTotal(ds, cat) == 0.0
  {
    SumByZero(ds, InCategory(cat));
  }

  // ---- The capped sum over sets of categories ------------------------------------------------

  lemma {:induction false} CappedSumLe(cats: set<string>, ds: seq<Detail>, es: seq<Detail>)
    requires forall c :: c in cats ==> CategoryTotal(ds, c) <= CategoryTotal(es, c)
    ensures CappedSum(cats, ds) <= CappedSum(cats, es)
    decreases |cats|
  {
    if cats != {} {
      var c :| c in cats;
      CappedSumSplit(cats, ds, c);
      CappedSumSplit(cats, es, c);
      CappedSumLe(cats - {c}, ds, es);
    }
  }

  lemma {:induction false} CappedSumWiden(cats: set<string>, wide: set<string>, ds: seq<Detail>)
    requires Categories(ds) <= cats <= wide
    ensures CappedSum(wide, ds) == CappedSum(cats, ds)
    decreases |wide|
  {
    if cats != wide {
      var c :| c in wide && c !in cats;
      CappedSumSplit(wide, ds, c);
      CategoryTotalOutside(ds, c);
      CappedSumWiden(cats, wide - {c}, ds);
    }
  }

  lemma {:induction false} CappedSumNonNegative(cats: set<string>, ds: seq<Detail>)
    requires forall d :: d in ds ==> Sound(d)
    ensures 0.0 <= CappedSum(cats, ds)
    decreases |cats|
  {
    if cats != {} {
      var c :| c in cats;
      CappedSumSplit(cats, ds, c);
      CategoryTotalNonNegative(ds, c);
      CappedSumNonNegative(cats - {c}, ds);
    }
  }

  /** A category-wise larger list never deducts less. */
  lemma TotalDeductionLe(ds: seq<Detail>, es: seq<Detail>)
    requires forall c :: CategoryTotal(ds, c) <= CategoryTotal(es, c)
    ensures TotalDeduction(ds) <= TotalDeduction(es)
  {
    var wide := Categories(ds) + Categories(es);
    CappedSumWiden(Categories(ds), wide, ds);
    CappedSumWiden(Categories(es), wide, es);
    CappedSumLe(wide, ds, es);
  }

  /** Outside one category no less is deducted; that category makes up for at most its cap. */
  lemma TotalDeductionButOne(ds: seq<Detail>, es: seq<Detail>, cat: string)
    requires forall d :: d in es ==> Sound(d)
    requires forall c :: c != cat ==> CategoryTotal(ds, c) <= CategoryTotal(es, c)
    ensures TotalDeduction(ds) <= TotalDeduction(es) + CATEGORY_CAP
  {
    var wide := Categories(ds) + Categories(es) + {cat};
    CappedSumWiden(Categories(ds), wide, ds);
    CappedSumWiden(Categories(es), wide, es);
    CappedSumSplit(wide, ds, cat);
    CappedSumSplit(wide, es, cat);
    CategoryTotalNonNegative(es, cat);
    CappedSumLe(wide - {cat}, ds, es);
  }

  lemma FinalScoreAntitone(x: real, y: real)
    requires x <= y
    ensures FinalScore(y) <= FinalScore(x)
  {
    HalfEvenMonotone(Max(0.0, 100.0 - y) * 100.0, Max(0.0, 100.0 - x) * 100.0);
  }

  lemma FinalScoreShift(x: real, y: real)
    requires y <= x + CATEGORY_CAP
    ensures FinalScore(x) <= FinalScore(y) + CATEGORY_CAP
  {
    var low := Max(0.0, 100.0 - y) * 100.0;
    var high := Max(0.0, 100.0 - x) * 100.0;
    assert high <= low + 3500.0;
    HalfEvenMonotone(high, low + 3500.0);
    HalfEvenShift(low, 3500);
  }

  // ---- The first finding per key -------------------------------------------------------------

  ghost predicate DistinctKeys(fs: seq<Finding>) {
    forall i, j :: 0 <= i < j < |fs| ==> KeyOf(fs[i]) != KeyOf(fs[j])
  }

  lemma {:induction false} DistinctKeysKeepAll(fs: seq<Finding>)
    requires DistinctKeys(fs)
    ensures FirstPerKey(fs) == fs
  {
    if fs != [] {
      var init, last := fs[..|fs| - 1], fs[|fs| - 1];
      DistinctKeysKeepAll(init);
      assert KeyOf(last) !in Keys(init);
      assert fs == init + [last];
    }
  }

  lemma DistinctKeysReorder(fs: seq<Finding>, gs: seq<Finding>)
    requires DistinctKeys(fs) && multiset(fs) == multiset(gs)
    ensures DistinctKeys(gs)
  {
    forall i, j | 0 <= i < j < |gs| ensures KeyOf(gs[i]) != KeyOf(gs[j]) {
      assert gs[i] in multiset(fs) && gs[j] in multiset(fs);
      var a :| 0 <= a < |fs| && fs[a] == gs[i];
      var b :| 0 <= b < |fs| && fs[b] == gs[j];
      if a == b {
        Occurrences(gs, i, j);
        SingleOccurrence(fs, a);
        assert false;
      }
    }
  }

  lemma Occurrences(gs: seq<Finding>, i: nat, j: nat)
    requires i < j < |gs| && gs[i] == gs[j]
    ensures multiset(gs)[gs[i]] >= 2
  {
    assert gs == gs[..i] + [gs[i]] + gs[i + 1..j] + [gs[j]] + gs[j + 1..];
  }

  lemma SingleOccurrence(fs: seq<Finding>, a: nat)
    requires DistinctKeys(fs) && a < |fs|
    ensures multiset(fs)[fs[a]] == 1
  {
    assert fs == fs[..a] + [fs[a]] + fs[a + 1..];
    assert fs[a] !in fs[..a] && fs[a] !in fs[a + 1..];
  }

  lemma {:induction false} KnownKeysAddNothing(fs: seq<Finding>, gs: seq<Finding>)
    requires Keys(gs) <= Keys(fs)
    ensures FirstPerKey(fs + gs) == FirstPerKey(fs)
  {
    if gs == [] {
      assert fs + gs == fs;
    } else {
      var init, last := gs[..|gs| - 1], gs[|gs| - 1];
      assert gs == init + [last];
      assert (fs + gs)[..|fs + gs| - 1] == fs + init;
      assert KeyOf(last) in Keys(gs);
      assert KeyOf(last) in Keys(fs + init) by {
        var f :| f in fs && KeyOf(f) == KeyOf(last);
        assert f in fs + init;
      }
      assert Keys(init) <= Keys(gs);
      KnownKeysAddNothing(fs, init);
    }
  }

  // ---- Main results --------------------------------------------------------------------------

  /** The score sees the surviving findings as a multiset: their order does not matter. */
  lemma ScoreIgnoresOrder(fs: seq<Finding>, gs: seq<Finding>)
    requires multiset(FirstPerKey(fs)) == multiset(FirstPerKey(gs))
    ensures Score(fs) == Score(gs)
    ensures Grade(Score(fs)) == Grade(Score(gs))
    ensures WeightedConfidence(fs) == WeightedConfidence(gs)
  {
    var us, vs := FirstPerKey(fs), FirstPerKey(gs);
    TotalDeductionReorder(us, vs);
    ChargesReorder(us, vs, BaseWeight());
    ChargesReorder(us, vs, ConfidenceWeight());
  }

  lemma TotalDeductionReorder(us: seq<Finding>, vs: seq<Finding>)
    requires multiset(us) == multiset(vs)
    ensures TotalDeduction(Charges(us)) == TotalDeduction(Charges(vs))
  {
    forall c ensures CategoryTotal(Charges(us), c) == CategoryTotal(Charges(vs), c) {
      ChargesReorder(us, vs, InCategory(c));
    }
    TotalDeductionLe(Charges(us), Charges(vs));
    TotalDeductionLe(Charges(vs), Charges(us));
  }

  lemma ChargesReorder(us: seq<Finding>, vs: seq<Finding>, g: Detail -> real)
    requires multiset(us) == multiset(vs)
    ensures SumBy(Charges(us), g) == SumBy(Charges(vs), g)
  {
    var h := (f: Finding) => g(DetailOf(f));
    SumByMap(us, DetailOf, g, h);
    SumByMap(vs, DetailOf, g, h);
    SumByPermutation(us, vs, h);
  }

  lemma ReorderingDistinctFindings(fs: seq<Finding>, gs: seq<Finding>)
    requires DistinctKeys(fs) && multiset(fs) == multiset(gs)
    ensures Score(fs) == Score(gs)
    ensures Grade(Score(fs)) == Grade(Score(gs))
    ensures WeightedConfidence(fs) == WeightedConfidence(gs)
  {
    DistinctKeysReorder(fs, gs);
    DistinctKeysKeepAll(fs);
    DistinctKeysKeepAll(gs);
    ScoreIgnoresOrder(fs, gs);
  }

  /** Findings whose keys are all known already change nothing; delivering a list twice is one case. */
  lemma DuplicatesChangeNothing(fs: seq<Finding>, gs: seq<Finding>)
    requires Keys(gs) <= Keys(fs)
    ensures Score(fs + gs) == Score(fs)
    ensures WeightedConfidence(fs + gs) == WeightedConfidence(fs)
    ensures Deductions(fs + gs) == Deductions(fs) && CapsApplied(fs + gs) == CapsApplied(fs)
  {
    KnownKeysAddNothing(fs, gs);
  }

  lemma AppendNeverRaises(fs: seq<Finding>, f: Finding)
    ensures Score(fs + [f]) <= Score(fs)
    ensures Grade(Score(fs)) <= Grade(Score(fs + [f]))
  {
    assert (fs + [f])[..|fs|] == fs;
    var us, vs := FirstPerKey(fs), FirstPerKey(fs + [f]);
    if us != vs {
      assert vs == us + [f];
      TotalDeductionSnoc(us, f);
      FinalScoreAntitone(TotalDeduction(Charges(us)), TotalDeduction(Charges(vs)));
    }
    GradeMonotone(Score(fs + [f]), Score(fs));
  }

  lemma GradeMonotone(low: real, high: real)
    requires low <= high
    ensures Grade(high) <= Grade(low)
  {
  }

  lemma TotalDeductionSnoc(us: seq<Finding>, f: Finding)
    ensures TotalDeduction(Charges(us)) <= TotalDeduction(Charges(us + [f]))
  {
    forall c ensures CategoryTotal(Charges(us), c) <= CategoryTotal(Charges(us + [f]), c) {
      CategoryTotalSnoc(us, f, c);
    }
    TotalDeductionLe(Charges(us), Charges(us + [f]));
  }

  lemma CategoryTotalSnoc(us: seq<Finding>, f: Finding, cat: string)
    ensures CategoryTotal(Charges(us + [f]), cat)
         == CategoryTotal(Charges(us), cat)
            + (if Category(f) == cat then DetailOf(f).actual else 0.0)
    ensures 0.0 <= DetailOf(f).actual
  {
    DetailSound(f);
    assert (us + [f])[..|us|] == us;
    SumBySnoc(Charges(us), DetailOf(f), InCategory(cat));
  }

  ghost function Without(fs: seq<Finding>, cat: string): seq<Finding> {
    if fs == [] then []
    else
      var init, last := Without(fs[..|fs| - 1], cat), fs[|fs| - 1];
      if Category(last) == cat then init else init + [last]
  }

  lemma {:induction false} WithoutKeepsKeys(fs: seq<Finding>, cat: string)
    ensures Keys(Without(fs, cat)) <= Keys(fs)
  {
    if fs != [] {
      var init, last := fs[..|fs| - 1], fs[|fs| - 1];
      WithoutKeepsKeys(init, cat);
      assert fs == init + [last];
      assert Keys(fs) == Keys(init) + {KeyOf(last)};
      assert Keys(Without(init, cat) + [last]) == Keys(Without(init, cat)) + {KeyOf(last)};
    }
  }

  /** Dropping a category can only uncover findings of other categories, never lose them. */
  lemma {:induction false} WithoutUncovers(fs: seq<Finding>, cat: string, other: string)
    requires other != cat
    ensures CategoryTotal(Charges(FirstPerKey(fs)), other)
         <= CategoryTotal(Charges(FirstPerKey(Without(fs, cat))), other)
  {
    if fs != [] {
      var init, last := fs[..|fs| - 1], fs[|fs| - 1];
      assert fs == init + [last];
      WithoutUncovers(init, cat, other);
      WithoutKeepsKeys(init, cat);
      WithoutStep(init, last, cat);
      UncoverStep(FirstPerKey(init), FirstPerKey(fs), FirstPerKey(Without(init, cat)),
                  FirstPerKey(Without(fs, cat)), last, cat, other);
    }
  }

  lemma UncoverStep(
    us: seq<Finding>, us': seq<Finding>, vs: seq<Finding>, vs': seq<Finding>,
    last: Finding, cat: string, other: string)
    requires other != cat
    requires CategoryTotal(Charges(us), other) <= CategoryTotal(Charges(vs), other)
    requires (us' == us || us' == us + [last]) && (vs' == vs || vs' == vs + [last])
    requires vs' == vs && Category(last) != cat ==> us' == us
    ensures CategoryTotal(Charges(us'), other) <= CategoryTotal(Charges(vs'), other)
  {
    CategoryTotalSnoc(us, last, other);
    CategoryTotalSnoc(vs, last, other);
  }

  lemma WithoutStep(init: seq<Finding>, last: Finding, cat: string)
    requires Keys(Without(init, cat)) <= Keys(init)
    ensures var fs := init + [last];
            var us, vs := FirstPerKey(init), FirstPerKey(Without(init, cat));
            && (FirstPerKey(fs) == us || FirstPerKey(fs) == us + [last])
            && (FirstPerKey(Without(fs, cat)) == vs || FirstPerKey(Without(fs, cat)) == vs + [last])
            && (FirstPerKey(Without(fs, cat)) == vs && Category(last) != cat ==> FirstPerKey(fs) == us)
  {
    assert (init + [last])[..|init|] == init;
    var kept := Without(init, cat);
    assert (kept + [last])[..|kept|] == kept;
  }

  /** No category is worth more than its cap, exactly: rounding does not add a cent. */
  lemma RemovingACategoryRaisesByAtMostTheCap(fs: seq<Finding>, cat: string)
    ensures Score(Without(fs, cat)) <= Score(fs) + CATEGORY_CAP
  {
    var ds, es := Charges(FirstPerKey(fs)), Charges(FirstPerKey(Without(fs, cat)));
    forall c | c != cat ensures CategoryTotal(ds, c) <= CategoryTotal(es, c) {
      WithoutUncovers(fs, cat, c);
    }
    ChargesSound(FirstPerKey(Without(fs, cat)));
    TotalDeductionButOne(ds, es, cat);
    FinalScoreShift(TotalDeduction(es), TotalDeduction(ds));
  }

  lemma ScoreInRange(fs: seq<Finding>)
    ensures 0.0 <= Score(fs) <= 100.0
    ensures 0.0 <= WeightedConfidence(fs) <= 1.0
  {
    var ds := Charges(FirstPerKey(fs));
    ChargesSound(FirstPerKey(fs));
    CappedSumNonNegative(Categories(ds), ds);
    FinalScoreInRange(TotalDeduction(ds));
    SumByNonNegative(ds, ConfidenceWeight());
    SumByLe(ds, ConfidenceWeight(), BaseWeight());
    AverageInRange(SumBy(ds, ConfidenceWeight()), SumBy(ds, BaseWeight()));
  }

  lemma FinalScoreInRange(deduction: real)
    requires 0.0 <= deduction
    ensures 0.0 <= FinalScore(deduction) <= 100.0
  {
    var left := Max(0.0, 100.0 - deduction);
    HalfEvenInteger(0);
    HalfEvenInteger(10000);
    HalfEvenMonotone(0.0, left * 100.0);
    HalfEvenMonotone(left * 100.0, 10000.0);
  }

  lemma AverageInRange(weighted: real, weight: real)
    requires 0.0 <= weighted <= weight
    ensures 0.0 <= Average(weighted, weight) <= 1.0
  {
    if weight > 0.0 {
      var q := weighted / weight;
      assert q * weight == weighted;
      assert 0.0 <= q <= 1.0;
      HalfEvenInteger(0);
      HalfEvenInteger(1000);
      HalfEvenMonotone(0.0, q * 1000.0);
      HalfEvenMonotone(q * 1000.0, 1000.0);
    }
  }

  // ---- Conservation of the cap over the rows -------------------------------------------------

  ghost function CappedOf(): Row -> real {
    (r: Row) => if r.capped.Some? then r.capped.value else 0.0
  }

  lemma RoundedNear(share: real, actual: real)
    requires share <= actual
    requires actual == HalfEven(actual * 10000.0) as real / 10000.0
    ensures -0.00005 <= Round4(share) - share <= 0.00005
    ensures Round4(share) <= actual
  {
    HalfEvenMonotone(share * 10000.0, actual * 10000.0);
  }

  lemma ScaledNear(actual: real, ratio: real)
    requires 0.0 <= actual && 0.0 <= ratio <= 1.0
    requires actual == HalfEven(actual * 10000.0) as real / 10000.0
    ensures -0.00005 <= Scaled(actual, ratio) - actual * ratio <= 0.00005
    ensures Scaled(actual, ratio) <= actual
  {
    ProductRange(ratio, actual);
    RoundedNear(actual * ratio, actual);
  }

  /** The exact share of a row under the cap, before rounding. */
  ghost function Share(ratio: real): Detail -> real {
    (d: Detail) => d.actual * ratio
  }

  lemma {:induction false} ShareSum(ds: seq<Detail>, ratio: real)
    ensures SumBy(ds, Share(ratio)) == SumActual(ds) * ratio
  {
    if ds != [] {
      ShareSum(ds[..|ds| - 1], ratio);
      Distribute(SumActual(ds[..|ds| - 1]), ds[|ds| - 1].actual, ratio);
    }
  }

  lemma {:induction false} CappedRowsSum(ds: seq<Detail>, total: real)
    requires forall d :: d in ds ==> Sound(d)
    requires total > CATEGORY_CAP
    ensures var slack := 0.00005 * |ds| as real;
            var exact := SumBy(ds, Share(CATEGORY_CAP / total));
            -slack <= SumBy(CappedRows(ds, total), CappedOf()) - exact <= slack
  {
    if ds != [] {
      var init, last := ds[..|ds| - 1], ds[|ds| - 1];
      CappedRowsSum(init, total);
      CappedRowsSnoc(init, last, total);
      assert ds == init + [last];
      CappedValueNear(last, total);
    }
  }

  lemma CappedValueNear(d: Detail, total: real)
    requires Sound(d) && total > CATEGORY_CAP
    ensures var share := Share(CATEGORY_CAP / total)(d);
            -0.00005 <= CappedValue(d, total) - share <= 0.00005
    ensures CappedValue(d, total) <= d.actual
  {
    Quotient(total);
    ScaledNear(d.actual, CATEGORY_CAP / total);
  }

  lemma CappedRowsSnoc(ds: seq<Detail>, d: Detail, total: real)
    ensures SumBy(CappedRows(ds + [d], total), CappedOf())
         == SumBy(CappedRows(ds, total), CappedOf()) + CappedValue(d, total)
  {
    assert CappedRows(ds + [d], total)[..|ds|] == CappedRows(ds, total);
  }

  lemma Distribute(x: real, y: real, z: real)
    ensures (x + y) * z == x * z + y * z
  {
  }

  lemma {:induction false} UncappedRowsSum(ds: seq<Detail>, total: real)
    requires total <= CATEGORY_CAP
    ensures SumBy(CappedRows(ds, total), CappedOf()) == SumActual(ds)
  {
    if ds != [] {
      UncappedRowsSum(ds[..|ds| - 1], total);
      assert CappedRows(ds, total)[..|ds| - 1] == CappedRows(ds[..|ds| - 1], total);
    }
  }

  lemma {:induction false} DetailsOfMembers(ds: seq<Detail>, cat: string)
    ensures forall d :: d in DetailsOf(ds, cat) ==> d in ds && d.category == cat
  {
    if ds != [] {
      DetailsOfMembers(ds[..|ds| - 1], cat);
    }
  }

  /** The rows of a category add up to what it is charged, within half a unit per row. */
  lemma CapIsConserved(fs: seq<Finding>, cat: string)
    ensures var ds := Charges(FirstPerKey(fs));
            var rows := RowsOf(ds, cat);
            var charged := Min(CATEGORY_CAP, CategoryTotal(ds, cat));
            var slack := 0.00005 * |rows| as real;
            && -slack <= SumBy(rows, CappedOf()) - charged <= slack
            && forall r :: r in rows ==> r.capped.Some? && r.capped.value <= r.detail.actual
  {
    var ds := Charges(FirstPerKey(fs));
    ChargesSound(FirstPerKey(fs));
    DetailsOfMembers(ds, cat);
    SumActualIsCategoryTotal(ds, cat);
    CapIsConservedIn(DetailsOf(ds, cat), CategoryTotal(ds, cat));
    CappedNeverAboveActual(DetailsOf(ds, cat), CategoryTotal(ds, cat));
  }

  lemma CapIsConservedIn(mine: seq<Detail>, total: real)
    requires forall d :: d in mine ==> Sound(d)
    requires total == SumActual(mine)
    ensures var slack := 0.00005 * |mine| as real;
            var charged := Min(CATEGORY_CAP, total);
            -slack <= SumBy(CappedRows(mine, total), CappedOf()) - charged <= slack
  {
    if total > CATEGORY_CAP {
      CappedRowsSum(mine, total);
      SharesFillTheCap(mine, total);
    } else {
      UncappedRowsSum(mine, total);
    }
  }

  lemma SharesFillTheCap(mine: seq<Detail>, total: real)
    requires total == SumActual(mine) && total > CATEGORY_CAP
    ensures SumBy(mine, Share(CATEGORY_CAP / total)) == CATEGORY_CAP
  {
    ShareSum(mine, CATEGORY_CAP / total);
    Quotient(total);
  }

  lemma CappedNeverAboveActual(mine: seq<Detail>, total: real)
    requires forall d :: d in mine ==> Sound(d)
    ensures forall r :: r in CappedRows(mine, total) ==> r.capped.Some? && r.capped.value <= r.detail.actual
  {
    forall i | 0 <= i < |mine| ensures CappedValue(mine[i], total) <= mine[i].actual {
      assert mine[i] in mine;
      if total > CATEGORY_CAP {
        CappedValueNear(mine[i], total);
      }
    }
  }

  lemma Quotient(total: real)
    requires total > CATEGORY_CAP
    ensures 0.0 <= CATEGORY_CAP / total <= 1.0
    ensures total * (CATEGORY_CAP / total) == CATEGORY_CAP
  {
    assert total * (CATEGORY_CAP / total) == CATEGORY_CAP;
  }
}
