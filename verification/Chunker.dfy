/** Cutting a text into token-bounded, possibly overlapping pieces. */
module Chunker {
  import opened Options
  import opened Text

  predicate Blank(s: string) {
    forall i :: 0 <= i < |s| ==> IsSpace(s[i])
  }

  /** Tokens are estimated as a quarter of the characters, at least one. */
  function CountTokens(text: string): nat {
    if |text| / 4 < 1 then 1 else |text| / 4
  }

  /** Index of the last space in `text[lo..hi]`, or -1. */
  function LastSpace(text: string, lo: nat, hi: nat): (r: int)
    requires lo <= hi <= |text|
    ensures r == -1 || lo <= r < hi
    decreases hi - lo
  {
    if lo == hi then -1
    else if text[hi - 1] == ' ' then hi - 1
    else LastSpace(text, lo, hi - 1)
  }

  function Keep(out: seq<string>, piece: string): seq<string> {
    if Blank(piece) then out else out + [piece]
  }

  lemma {:induction false} LastSpaceIsLast(text: string, lo: nat, hi: nat)
    requires lo <= hi <= |text|
    ensures var r := LastSpace(text, lo, hi);
            && (r != -1 ==> text[r] == ' ')
            && forall k :: lo <= k < hi && r < k ==> text[k] != ' '
    decreases hi - lo
  {
    if lo < hi && text[hi - 1] != ' ' {
      LastSpaceIsLast(text, lo, hi - 1);
    }
  }

  /** One cutting job, in characters. */
  datatype Cutter = Cutter(text: string, budget: nat, overlap: nat) {

    function End(i: nat): (e: nat)
      requires i < |text|
      ensures i <= e <= i + budget && e <= |text|
      ensures budget > 0 ==> i < e
      ensures i + budget >= |text| ==> e == |text|
    {
      var end := if i + budget < |text| then i + budget else |text|;
      if end < |text| then
        var ws := LastSpace(text, i, end);
        if ws > i then ws else end
      else end
    }

    /** Where the next window starts, after a cut that did not reach the end. */
    function Next(i: nat): (j: nat)
      requires i < |text|
      ensures j <= End(i)
    {
      var end := End(i);
      if end <= overlap then end else end - overlap
    }

    ghost predicate Finishes(i: nat, fuel: nat)
      requires i < |text|
      decreases fuel
    {
      fuel > 0 && (End(i) >= |text| || Finishes(Next(i), fuel - 1))
    }

    ghost predicate Terminates() {
      |text| > 0 && exists fuel: nat :: Finishes(0, fuel)
    }

    /** The windows cut from `i` on, as start and end positions. */
    ghost function Cuts(i: nat, fuel: nat): (cs: seq<(nat, nat)>)
      requires i < |text|
      ensures forall c :: c in cs ==> c.0 <= c.1 <= |text|
      decreases fuel
    {
      if fuel == 0 then []
      else if End(i) >= |text| then [(i, End(i))]
      else [(i, End(i))] + Cuts(Next(i), fuel - 1)
    }

    ghost function Slices(): seq<(nat, nat)>
      requires Terminates()
    {
      var fuel: nat :| Finishes(0, fuel);
      Cuts(0, fuel)
    }

    /** The texts of the windows, in order after `out`, blank ones dropped. */
    ghost function Pieces(out: seq<string>, cs: seq<(nat, nat)>): seq<string>
      requires forall c :: c in cs ==> c.0 <= c.1 <= |text|
      decreases cs
    {
      if cs == [] then out else Pieces(Keep(out, text[cs[0].0..cs[0].1]), cs[1..])
    }

    /** A window whose last space lies within the overlap of its own start. */
    ghost predicate Hazard(f: nat) {
      f + budget < |text| && End(f) <= f + overlap
    }
  }

  // ---- The cutting loop ----------------------------------------------------------------------

  /** What the cutter returns when it returns. */
  ghost function SplitSpec(text: string, maxTokens: nat, overlapTokens: nat): seq<string>
    requires SplitReturns(text, maxTokens, overlapTokens)
  {
    var c := Cutter(text, 4 * maxTokens, 4 * overlapTokens);
    if Blank(text) then []
    else if |text| <= c.budget then [text]
    else c.Pieces([], c.Slices())
  }

  ghost predicate SplitReturns(text: string, maxTokens: nat, overlapTokens: nat) {
    var c := Cutter(text, 4 * maxTokens, 4 * overlapTokens);
    Blank(text) || |text| <= c.budget || c.Terminates()
  }

  lemma {:induction false} FuelIrrelevant(c: Cutter, i: nat, f: nat, g: nat)
    requires i < |c.text| && c.Finishes(i, f) && c.Finishes(i, g)
    ensures c.Cuts(i, f) == c.Cuts(i, g)
    decreases f
  {
    if c.End(i) < |c.text| {
      FuelIrrelevant(c, c.Next(i), f - 1, g - 1);
    }
  }

  lemma PiecesCons(c: Cutter, out: seq<string>, a: nat, b: nat, cs: seq<(nat, nat)>)
    requires a <= b <= |c.text| && forall x :: x in cs ==> x.0 <= x.1 <= |c.text|
    ensures c.Pieces(out, [(a, b)] + cs) == c.Pieces(Keep(out, c.text[a..b]), cs)
  {
    assert ([(a, b)] + cs)[1..] == cs;
  }

  lemma CutsCons(c: Cutter, i: nat, fuel: nat)
    requires i < |c.text| && fuel > 0
    ensures c.Cuts(i, fuel) == [(i, c.End(i))] + (if c.End(i) < |c.text| then c.Cuts(c.Next(i), fuel - 1) else [])
  {
  }

  /** One window more in `out`, one window less to cut. */
  lemma PiecesTurn(c: Cutter, out: seq<string>, i: nat, fuel: nat)
    requires i < |c.text| && fuel > 0
    ensures var grown := Keep(out, c.text[i..c.End(i)]);
            c.Pieces(out, c.Cuts(i, fuel))
            == if c.End(i) < |c.text| then c.Pieces(grown, c.Cuts(c.Next(i), fuel - 1)) else grown
  {
    CutsCons(c, i, fuel);
    PiecesCons(c, out, i, c.End(i), if c.End(i) < |c.text| then c.Cuts(c.Next(i), fuel - 1) else []);
  }

  method SplitByTokens(text: string, maxTokens: nat, overlapTokens: nat) returns (out: seq<string>)
    requires SplitReturns(text, maxTokens, overlapTokens)
    ensures out == SplitSpec(text, maxTokens, overlapTokens)
  {
    if Blank(text) {
      return [];
    }
    var charBudget := maxTokens * 4;
    var overlapChars := overlapTokens * 4;
    if |text| <= charBudget {
      return [text];
    }
    ghost var c := Cutter(text, charBudget, overlapChars);
    ghost var fuel: nat :| c.Finishes(0, fuel) && c.Slices() == c.Cuts(0, fuel);
    out := CutLoop(Cutter(text, charBudget, overlapChars), fuel);
  }

  /** One turn of the loop: cut the window at `i`, keep it unless blank, move on or stop. */
  method CutWindow(c: Cutter, out: seq<string>, i: nat)
    returns (grown: seq<string>, next: nat, last: bool)
    requires i < |c.text|
    ensures grown == Keep(out, c.text[i..c.End(i)])
    ensures last == (c.End(i) >= |c.text|)
    ensures !last ==> next == c.Next(i)
  {
    var n := |c.text|;
    var end := if i + c.budget < n then i + c.budget else n;
    if end < n {
      var ws := LastSpace(c.text, i, end);
      if ws > i {
        end := ws;
      }
    }
    var piece := c.text[i..end];
    grown, next, last := out, end, end >= n;
    if !Blank(piece) {
      grown := grown + [piece];
    }
    if !last {
      var back := if c.overlap > 0 then end - c.overlap else end;
      next := if back <= 0 then end else back;
    }
  }

  method CutLoop(c: Cutter, ghost fuel: nat) returns (out: seq<string>)
    requires c.text != "" && c.Finishes(0, fuel)
    ensures out == c.Pieces([], c.Cuts(0, fuel))
  {
    out := [];
    var i := 0;
    ghost var left := fuel;
    while i < |c.text|
      invariant 0 <= i < |c.text| && c.Finishes(i, left)
      invariant c.Pieces(out, c.Cuts(i, left)) == c.Pieces([], c.Cuts(0, fuel))
      decreases left
    {
      PiecesTurn(c, out, i, left);
      var next, last;
      out, next, last := CutWindow(c, out, i);
      if last {
        break;
      }
      i, left := next, left - 1;
    }
  }

  // ---- Coverage and bounds, whenever the loop ends -------------------------------------------

  lemma {:induction false} CutsCover(c: Cutter, i: nat, fuel: nat, k: nat)
    requires i <= k < |c.text| && c.Finishes(i, fuel)
    ensures exists x :: x in c.Cuts(i, fuel) && x.0 <= k < x.1
    decreases fuel
  {
    if k < c.End(i) {
      assert c.Cuts(i, fuel)[0] == (i, c.End(i));
    } else {
      CutsCover(c, c.Next(i), fuel - 1, k);
      var x :| x in c.Cuts(c.Next(i), fuel - 1) && x.0 <= k < x.1;
      assert x in c.Cuts(i, fuel);
    }
  }

  /** Nothing of the text is lost, for every budget and overlap for which the loop ends. */
  lemma EveryIndexIsCovered(c: Cutter, k: nat)
    requires c.Terminates() && k < |c.text|
    ensures exists x :: x in c.Slices() && x.0 <= k < x.1
  {
    var fuel: nat :| c.Finishes(0, fuel) && c.Slices() == c.Cuts(0, fuel);
    CutsCover(c, 0, fuel, k);
  }

  /** Consecutive windows share the overlap, or nothing if that would reach back to 0. */
  function Follower(c: Cutter, end: nat): nat {
    if end <= c.overlap then end else end - c.overlap
  }

  ghost predicate Linked(c: Cutter, cs: seq<(nat, nat)>) {
    && (forall x :: x in cs ==> x.0 <= x.1 <= x.0 + c.budget && x.1 <= |c.text|)
    && (forall k :: 0 <= k < |cs| - 1 ==> cs[k + 1].0 == Follower(c, cs[k].1))
  }

  lemma LinkedCons(c: Cutter, x: (nat, nat), rest: seq<(nat, nat)>)
    requires x.0 <= x.1 <= x.0 + c.budget && x.1 <= |c.text|
    requires rest != [] && Linked(c, rest) && rest[0].0 == Follower(c, x.1)
    ensures Linked(c, [x] + rest)
  {
    var cs := [x] + rest;
    forall k | 0 <= k < |cs| - 1 ensures cs[k + 1].0 == Follower(c, cs[k].1) {
      if k > 0 {
        assert cs[k] == rest[k - 1] && cs[k + 1] == rest[k];
      }
    }
  }

  lemma {:induction false} CutsLinked(c: Cutter, i: nat, fuel: nat)
    requires i < |c.text| && c.Finishes(i, fuel)
    ensures var cs := c.Cuts(i, fuel);
            cs != [] && cs[0].0 == i && cs[|cs| - 1].1 == |c.text| && Linked(c, cs)
    decreases fuel
  {
    if c.End(i) < |c.text| {
      CutsLinked(c, c.Next(i), fuel - 1);
      LinkedCons(c, (i, c.End(i)), c.Cuts(c.Next(i), fuel - 1));
    }
  }

  lemma SlicesLinked(c: Cutter)
    requires c.Terminates()
    ensures var cs := c.Slices();
            cs != [] && cs[0].0 == 0 && cs[|cs| - 1].1 == |c.text| && Linked(c, cs)
  {
    var fuel: nat :| c.Finishes(0, fuel) && c.Slices() == c.Cuts(0, fuel);
    CutsLinked(c, 0, fuel);
  }

  // ---- Without overlap: an exact partition ----------------------------------------------------

  ghost function Concat(c: Cutter, cs: seq<(nat, nat)>): string
    requires forall x :: x in cs ==> x.0 <= x.1 <= |c.text|
  {
    if cs == [] then "" else c.text[cs[0].0..cs[0].1] + Concat(c, cs[1..])
  }

  lemma {:induction false} FinishesWithoutOverlap(c: Cutter, i: nat)
    requires c.overlap == 0 && c.budget > 0 && i < |c.text|
    ensures c.Finishes(i, |c.text| - i)
    decreases |c.text| - i
  {
    if c.End(i) < |c.text| {
      FinishesWithoutOverlap(c, c.Next(i));
      MoreFuel(c, c.Next(i), |c.text| - c.Next(i), |c.text| - i - 1);
    }
  }

  lemma {:induction false} MoreFuel(c: Cutter, i: nat, f: nat, g: nat)
    requires i < |c.text| && c.Finishes(i, f) && f <= g
    ensures c.Finishes(i, g)
    decreases f
  {
    if c.End(i) < |c.text| {
      MoreFuel(c, c.Next(i), f - 1, g - 1);
    }
  }

  lemma {:induction false} CutsConcat(c: Cutter, i: nat, fuel: nat)
    requires c.overlap == 0 && i < |c.text| && c.Finishes(i, fuel)
    ensures Concat(c, c.Cuts(i, fuel)) == c.text[i..]
    decreases fuel
  {
    var cs := c.Cuts(i, fuel);
    if c.End(i) < |c.text| {
      CutsConcat(c, c.Next(i), fuel - 1);
      assert cs[1..] == c.Cuts(c.Next(i), fuel - 1);
      assert c.text[i..c.End(i)] + c.text[c.End(i)..] == c.text[i..];
    } else {
      assert cs[1..] == [];
    }
  }

  /** With no overlap the loop always ends and its windows are exactly the text, in order. */
  lemma PartitionWithoutOverlap(text: string, maxTokens: nat)
    requires maxTokens >= 1 && text != ""
    ensures var c := Cutter(text, 4 * maxTokens, 0);
            && c.Terminates()
            && (forall x :: x in c.Slices() ==> x.0 <= x.1 <= |text|)
            && Concat(c, c.Slices()) == text
            && Linked(c, c.Slices())
  {
    var c := Cutter(text, 4 * maxTokens, 0);
    FinishesWithoutOverlap(c, 0);
    var fuel: nat :| c.Finishes(0, fuel) && c.Slices() == c.Cuts(0, fuel);
    CutsConcat(c, 0, fuel);
    SlicesLinked(c);
  }

  // ---- With overlap: exactly when the loop ends -----------------------------------------------

  lemma EndMonotone(c: Cutter, i: nat, j: nat)
    requires c.budget > 0 && i <= j < |c.text|
    ensures c.End(i) <= c.End(j)
  {
    if j + c.budget < |c.text| {
      var p := LastSpace(c.text, i, i + c.budget);
      var q := LastSpace(c.text, j, j + c.budget);
      LastSpaceIsLast(c.text, i, i + c.budget);
      LastSpaceIsLast(c.text, j, j + c.budget);
      if p > j {
        assert q >= p;
      } else if p <= i && q > j {
        assert c.text[q] == ' ';
        assert q >= i + c.budget;
      }
    }
  }

  /** Stepping back by the overlap never shortens the reach of the window. */
  lemma EndOfNext(c: Cutter, i: nat)
    requires 0 < c.overlap < c.budget && i < |c.text|
    requires c.overlap < c.End(i) < |c.text|
    ensures c.End(c.Next(i)) >= c.End(i)
  {
    var e := c.End(i);
    var j := e - c.overlap;
    if j >= i {
      EndMonotone(c, i, j);
    } else {
      LastSpaceIsLast(c.text, i, i + c.budget);
      LastSpaceIsLast(c.text, j, j + c.budget);
      assert LastSpace(c.text, j, j + c.budget) >= e;
    }
  }

  /** Below a hazard the loop can never get past it. */
  lemma {:induction false} HazardTraps(c: Cutter, i: nat, f: nat, fuel: nat)
    requires 0 < c.overlap < c.budget && c.Hazard(f)
    requires i <= f && c.End(i) > c.overlap
    ensures !c.Finishes(i, fuel)
    decreases fuel
  {
    EndMonotone(c, i, f);
    if fuel > 0 {
      EndOfNext(c, i);
      HazardTraps(c, c.Next(i), f, fuel - 1);
    }
  }

  lemma {:induction false} FinishesWithoutHazard(c: Cutter, i: nat)
    requires 0 < c.overlap < c.budget && i < |c.text|
    requires forall f :: i <= f ==> !c.Hazard(f)
    ensures c.Finishes(i, |c.text| - i)
    decreases |c.text| - i
  {
    if i + c.budget < |c.text| {
      assert !c.Hazard(i);
      FinishesWithoutHazard(c, c.Next(i));
      MoreFuel(c, c.Next(i), |c.text| - c.Next(i), |c.text| - i - 1);
    }
  }

  lemma SecondWindowReaches(c: Cutter)
    requires 0 < c.overlap < c.budget < |c.text|
    ensures c.End(c.Next(0)) > c.overlap
  {
    var e := c.End(0);
    if e <= c.overlap {
      assert LastSpace(c.text, 0, c.budget) == e;
      if e + c.budget < |c.text| {
        var q := LastSpace(c.text, e, e + c.budget);
        LastSpaceIsLast(c.text, 0, c.budget);
        LastSpaceIsLast(c.text, e, e + c.budget);
        assert q > e ==> q >= c.budget;
      }
    } else {
      EndMonotone(c, 0, c.Next(0));
    }
  }

  /**
   * For every text longer than the budget and every overlap below it: the loop ends exactly when
   * no full window from the second start on has its last space within the overlap of its start.
   */
  lemma TerminationExactly(c: Cutter)
    requires 0 < c.overlap < c.budget < |c.text|
    ensures c.Terminates() <==> forall f :: c.Next(0) <= f ==> !c.Hazard(f)
  {
    var s := c.Next(0);
    if forall f :: s <= f ==> !c.Hazard(f) {
      FinishesWithoutHazard(c, s);
      assert c.Finishes(0, |c.text| - s + 1);
    } else {
      var f :| s <= f && c.Hazard(f);
      SecondWindowReaches(c);
      forall fuel: nat ensures !c.Finishes(0, fuel) {
        if fuel > 0 {
          HazardTraps(c, s, f, fuel - 1);
        }
      }
    }
  }

  /** Every run of characters other than the space is shorter than `bound`. */
  ghost predicate RunsShorterThan(text: string, bound: int) {
    forall s, t :: 0 <= s < t <= |text| && SpaceFree(text, s, t) ==> t - s < bound
  }

  ghost predicate SpaceFree(text: string, s: nat, t: nat)
    requires s <= t <= |text|
  {
    forall k :: s <= k < t ==> text[k] != ' '
  }

  lemma ShortRunsReach(c: Cutter, f: nat)
    requires !Blank(c.text) && RunsShorterThan(c.text, c.budget - c.overlap - 1)
    requires f + c.budget < |c.text|
    ensures c.overlap < c.budget
    ensures c.End(f) > f + c.overlap
  {
    var k :| 0 <= k < |c.text| && !IsSpace(c.text[k]);
    assert SpaceFree(c.text, k, k + 1);
    var s, t := f + c.overlap + 1, f + c.budget;
    assert !SpaceFree(c.text, s, t);
    var w :| s <= w < t && c.text[w] == ' ';
    LastSpaceIsLast(c.text, f, t);
    assert LastSpace(c.text, f, t) >= w;
  }

  /** Texts with short runs: the loop ends, and consecutive windows share exactly the overlap. */
  lemma ShortRunsShareTheOverlap(text: string, maxTokens: nat, overlapTokens: nat)
    requires overlapTokens > 0 && !Blank(text) && |text| > 4 * maxTokens
    requires RunsShorterThan(text, 4 * (maxTokens - overlapTokens) - 1)
    ensures var c := Cutter(text, 4 * maxTokens, 4 * overlapTokens);
            && c.Terminates()
            && var cs := c.Slices();
               && cs != [] && cs[0].0 == 0 && cs[|cs| - 1].1 == |text|
               && Overlapping(cs, 4 * overlapTokens)
  {
    var c := Cutter(text, 4 * maxTokens, 4 * overlapTokens);
    ShortRunsReach(c, 0);
    forall f | c.Next(0) <= f ensures !c.Hazard(f) {
      if f + c.budget < |text| {
        ShortRunsReach(c, f);
      }
    }
    TerminationExactly(c);
    var fuel: nat :| c.Finishes(0, fuel) && c.Slices() == c.Cuts(0, fuel);
    ShortRunsCuts(c, 0, fuel);
    SlicesLinked(c);
  }

  /** Each window starts after the one before it and repeats exactly its last `overlap` characters. */
  ghost predicate Overlapping(cs: seq<(nat, nat)>, overlap: nat) {
    forall k :: 0 <= k < |cs| - 1 ==> cs[k].0 < cs[k + 1].0 == cs[k].1 - overlap
  }

  lemma OverlappingCons(x: (nat, nat), rest: seq<(nat, nat)>, overlap: nat)
    requires rest != [] && Overlapping(rest, overlap) && x.0 < rest[0].0 == x.1 - overlap
    ensures Overlapping([x] + rest, overlap)
  {
    var cs := [x] + rest;
    forall k | 0 <= k < |cs| - 1 ensures cs[k].0 < cs[k + 1].0 == cs[k].1 - overlap {
      if k > 0 {
        assert cs[k] == rest[k - 1] && cs[k + 1] == rest[k];
      }
    }
  }

  lemma {:induction false} ShortRunsCuts(c: Cutter, i: nat, fuel: nat)
    requires !Blank(c.text) && RunsShorterThan(c.text, c.budget - c.overlap - 1)
    requires i < |c.text| && c.Finishes(i, fuel)
    ensures Overlapping(c.Cuts(i, fuel), c.overlap)
    decreases fuel
  {
    if c.End(i) < |c.text| {
      ShortRunsReach(c, i);
      ShortRunsCuts(c, c.Next(i), fuel - 1);
      CutsLinked(c, c.Next(i), fuel - 1);
      OverlappingCons((i, c.End(i)), c.Cuts(c.Next(i), fuel - 1), c.overlap);
    }
  }

  /** An overlap of at least the budget never gets through a text longer than the two together. */
  lemma {:induction false} OverlapTooLarge(c: Cutter, i: nat, fuel: nat)
    requires c.overlap >= c.budget && c.overlap + c.budget < |c.text|
    requires i <= c.overlap
    ensures !c.Finishes(i, fuel)
    decreases fuel
  {
    if fuel > 0 {
      OverlapTooLarge(c, c.Next(i), fuel - 1);
    }
  }

  // ---- Every budget and overlap ----------------------------------------------------------------

  /** The loop needs exactly `fuel` turns from `i`. */
  ghost predicate Takes(c: Cutter, i: nat, fuel: nat)
    requires i < |c.text|
  {
    fuel > 0 && c.Finishes(i, fuel) && !c.Finishes(i, fuel - 1)
  }

  lemma TakesOnce(c: Cutter, i: nat, f: nat, g: nat)
    requires i < |c.text| && Takes(c, i, f) && Takes(c, i, g)
    ensures f == g
  {
    if f < g {
      MoreFuel(c, i, f, g - 1);
    } else if g < f {
      MoreFuel(c, i, g, f - 1);
    }
  }

  lemma {:induction false} TurnsExist(c: Cutter, i: nat, fuel: nat) returns (f: nat)
    requires i < |c.text| && c.Finishes(i, fuel)
    ensures f <= fuel && Takes(c, i, f)
    decreases fuel
  {
    f := fuel;
    if c.Finishes(i, fuel - 1) {
      f := TurnsExist(c, i, fuel - 1);
    }
  }

  /** The starts of the windows from `i` on. */
  ghost function StartsFrom(c: Cutter, i: nat, fuel: nat): set<nat>
    requires i < |c.text|
    decreases fuel
  {
    if fuel == 0 then {}
    else if c.End(i) >= |c.text| then {i}
    else {i} + StartsFrom(c, c.Next(i), fuel - 1)
  }

  /** A loop that ends is never twice at the same start. */
  lemma {:induction false} StartsDiffer(c: Cutter, i: nat, fuel: nat)
    requires i < |c.text| && Takes(c, i, fuel)
    ensures |StartsFrom(c, i, fuel)| == fuel
    ensures forall j :: j in StartsFrom(c, i, fuel) ==>
              j < |c.text| && exists f: nat :: f <= fuel && Takes(c, j, f)
    decreases fuel
  {
    if c.End(i) < |c.text| {
      assert c.Finishes(c.Next(i), fuel - 1) && fuel >= 2;
      assert !c.Finishes(c.Next(i), fuel - 2);
      StartsDiffer(c, c.Next(i), fuel - 1);
      if i in StartsFrom(c, c.Next(i), fuel - 1) {
        var f: nat :| f <= fuel - 1 && Takes(c, i, f);
        TakesOnce(c, i, f, fuel);
        assert false;
      }
    }
  }

  lemma {:induction false} BoundedSet(s: set<nat>, n: nat)
    requires forall x :: x in s ==> x < n
    ensures |s| <= n
  {
    if n > 0 {
      BoundedSet(s - {n - 1}, n - 1);
    } else {
      assert s == {};
    }
  }

  /**
   * For every budget and every overlap, larger ones included: the loop ends if and only if it ends
   * within as many turns as the text has characters.
   */
  lemma DecidedWithinTheLength(c: Cutter)
    requires c.text != ""
    ensures c.Terminates() <==> c.Finishes(0, |c.text|)
  {
    if c.Terminates() {
      var fuel: nat :| c.Finishes(0, fuel);
      var f := TurnsExist(c, 0, fuel);
      StartsDiffer(c, 0, f);
      BoundedSet(StartsFrom(c, 0, f), |c.text|);
      MoreFuel(c, 0, f, |c.text|);
    }
  }

  /** The windows are those of any run long enough to end. */
  lemma SlicesAreTheCuts(c: Cutter, fuel: nat)
    requires c.text != "" && c.Finishes(0, fuel)
    ensures c.Terminates() && c.Slices() == c.Cuts(0, fuel)
  {
    var f: nat :| c.Finishes(0, f) && c.Slices() == c.Cuts(0, f);
    FuelIrrelevant(c, 0, f, fuel);
  }

  /** Without a budget no turn gets anywhere. */
  lemma NoBudgetNeverEnds(c: Cutter)
    requires c.budget == 0 && c.text != ""
    ensures !c.Terminates()
  {
    forall fuel: nat ensures !c.Finishes(0, fuel) {
      NoBudgetNoEnd(c, 0, fuel);
    }
  }

  lemma {:induction false} NoBudgetNoEnd(c: Cutter, i: nat, fuel: nat)
    requires c.budget == 0 && i < |c.text|
    ensures !c.Finishes(i, fuel)
    decreases fuel
  {
    if fuel > 0 {
      NoBudgetNoEnd(c, c.Next(i), fuel - 1);
    }
  }

  /** A text on which the real loop stands still at position 1. */
  lemma RepeatedState()
    ensures var c := Cutter("aaaaa bbbbbbbbbbbb", 8, 4);
            c.Next(0) == 1 && c.Next(1) == 1 && !c.Terminates()
  {
    var c := Cutter("aaaaa bbbbbbbbbbbb", 8, 4);
    assert LastSpace(c.text, 0, 8) == 5;
    assert LastSpace(c.text, 1, 9) == 5;
    assert c.Hazard(1);
    TerminationExactly(c);
  }

  // ---- The hybrid chunker --------------------------------------------------------------------

  datatype Strategy = MarkdownHeading | CodeFunction | Paragraph | TokenCap

  datatype Chunk = Chunk(content: string, tokenCount: nat, strategy: Strategy)

  /** Where the three regular expressions match in a text. */
  datatype Matches = Matches(headings: seq<nat>, definitions: seq<nat>, breaks: seq<(nat, nat)>) {
    ghost predicate For(text: string) {
      && Starts(headings, text) && Starts(definitions, text)
      && (forall k :: 0 <= k < |breaks| ==> breaks[k].0 <= breaks[k].1 <= |text|)
      && (forall k :: 0 <= k < |breaks| - 1 ==> breaks[k].1 <= breaks[k + 1].0)
    }
  }

  ghost predicate Starts(starts: seq<nat>, text: string) {
    && (forall k :: 0 <= k < |starts| ==> starts[k] <= |text|)
    && (forall k :: 0 <= k < |starts| - 1 ==> starts[k] <= starts[k + 1])
  }

  /** `p` is a contiguous part of `text`. */
  ghost predicate Within(p: string, text: string) {
    exists a, b :: 0 <= a <= b <= |text| && p == text[a..b]
  }

  lemma WithinTrans(p: string, q: string, text: string)
    requires Within(p, q) && Within(q, text)
    ensures Within(p, text)
  {
    var a, b :| 0 <= a <= b <= |q| && p == q[a..b];
    var x, y :| 0 <= x <= y <= |text| && q == text[x..y];
    assert |q| == y - x;
    forall i | 0 <= i < |p| ensures p[i] == text[x + a..x + b][i] {
      assert p[i] == q[a + i] == text[x + a + i];
    }
    assert p == text[x + a..x + b];
  }

  lemma StripWithin(s: string)
    ensures Within(Strip(s), s)
  {
    StripFacts(s);
    var a, b :| Between(s, a, b, Strip(s));
  }

  /** Keeps a stripped piece unless nothing is left of it. */
  function KeepStripped(out: seq<string>, piece: string): seq<string> {
    if Strip(piece) == "" then out else out + [Strip(piece)]
  }

  function SectionEnd(text: string, starts: seq<nat>, k: nat): nat
    requires k < |starts|
  {
    if k + 1 < |starts| then starts[k + 1] else |text|
  }

  /** The stripped sections that begin at the first `k` starts. */
  ghost function Sections(text: string, starts: seq<nat>, k: nat): seq<string>
    requires Starts(starts, text) && k <= |starts|
  {
    if k == 0 then []
    else
      KeepStripped(Sections(text, starts, k - 1), text[starts[k - 1]..SectionEnd(text, starts, k - 1)])
  }

  /** The stripped stretches between the first `k` paragraph breaks. */
  function Paragraphs(text: string, m: Matches, k: nat): seq<string>
    requires m.For(text) && k <= |m.breaks| + 1
  {
    if k == 0 then []
    else
      var from := if k == 1 then 0 else m.breaks[k - 2].1;
      var to := if k <= |m.breaks| then m.breaks[k - 1].0 else |text|;
      KeepStripped(Paragraphs(text, m, k - 1), text[from..to])
  }

  method SplitBySections(text: string, starts: seq<nat>, m: Matches) returns (out: seq<string>)
    requires m.For(text) && Starts(starts, text)
    ensures out == if starts == [] then Paragraphs(text, m, |m.breaks| + 1)
                   else Sections(text, starts, |starts|)
  {
    if starts == [] {
      return Paragraphs(text, m, |m.breaks| + 1);
    }
    out := [];
    for i := 0 to |starts|
      invariant out == Sections(text, starts, i)
    {
      var piece := Strip(text[starts[i]..SectionEnd(text, starts, i)]);
      if piece != "" {
        out := out + [piece];
      }
    }
  }

  lemma {:induction false} SectionsWithin(text: string, starts: seq<nat>, k: nat)
    requires Starts(starts, text) && k <= |starts|
    ensures forall p :: p in Sections(text, starts, k) ==> Within(p, text)
  {
    if k > 0 {
      SectionsWithin(text, starts, k - 1);
      var raw := text[starts[k - 1]..SectionEnd(text, starts, k - 1)];
      StripWithin(raw);
      WithinTrans(Strip(raw), raw, text);
    }
  }

  lemma {:induction false} ParagraphsWithin(text: string, m: Matches, k: nat)
    requires m.For(text) && k <= |m.breaks| + 1
    ensures forall p :: p in Paragraphs(text, m, k) ==> Within(p, text)
  {
    if k > 0 {
      ParagraphsWithin(text, m, k - 1);
      var from := if k == 1 then 0 else m.breaks[k - 2].1;
      var to := if k <= |m.breaks| then m.breaks[k - 1].0 else |text|;
      StripWithin(text[from..to]);
      WithinTrans(Strip(text[from..to]), text[from..to], text);
    }
  }

  lemma {:induction false} PiecesBounded(c: Cutter, out: seq<string>, cs: seq<(nat, nat)>)
    requires forall x :: x in cs ==> x.0 <= x.1 <= x.0 + c.budget && x.1 <= |c.text|
    requires forall p :: p in out ==> |p| <= c.budget && Within(p, c.text)
    ensures forall p :: p in c.Pieces(out, cs) ==> |p| <= c.budget && Within(p, c.text)
    decreases cs
  {
    if cs != [] {
      var piece := c.text[cs[0].0..cs[0].1];
      assert Within(piece, c.text);
      PiecesBounded(c, Keep(out, piece), cs[1..]);
    }
  }

  /** Whatever the overlap, no piece is over the budget and every piece is part of the text. */
  lemma SplitBounded(text: string, maxTokens: nat, overlapTokens: nat)
    requires SplitReturns(text, maxTokens, overlapTokens)
    ensures forall p :: p in SplitSpec(text, maxTokens, overlapTokens) ==>
              |p| <= 4 * maxTokens && Within(p, text)
  {
    var c := Cutter(text, 4 * maxTokens, 4 * overlapTokens);
    if !Blank(text) {
      if |text| <= c.budget {
        assert text == text[0..|text|];
      } else {
        SlicesLinked(c);
        PiecesBounded(c, [], c.Slices());
      }
    }
  }

  datatype HybridChunker = HybridChunker(
    maxTokens: nat, overlapTokens: nat, primary: Option<Strategy>)
  {
    function StrategyFor(fileType: string): Strategy {
      if primary.Some? then primary.value
      else if fileType == "md" then MarkdownHeading
      else if fileType in ["py", "go", "java", "js", "ts"] then CodeFunction
      else Paragraph
    }

    /** The pieces before the size limit is applied. */
    ghost function Primary(text: string, strategy: Strategy, m: Matches): seq<string>
      requires m.For(text)
      requires strategy == TokenCap ==> SplitReturns(text, maxTokens, 0)
    {
      match strategy
      case MarkdownHeading =>
        if m.headings == [] then Paragraphs(text, m, |m.breaks| + 1)
        else Sections(text, m.headings, |m.headings|)
      case CodeFunction =>
        if m.definitions == [] then Paragraphs(text, m, |m.breaks| + 1)
        else Sections(text, m.definitions, |m.definitions|)
      case Paragraph => Paragraphs(text, m, |m.breaks| + 1)
      case TokenCap => SplitSpec(text, maxTokens, 0)
    }

    /** Every cut the chunker has to make ends. */
    ghost predicate Returns(text: string, strategy: Strategy, m: Matches)
      requires m.For(text)
    {
      && (strategy == TokenCap ==> SplitReturns(text, maxTokens, 0))
      && forall p :: p in Primary(text, strategy, m) && CountTokens(p) > maxTokens ==>
           SplitReturns(p, maxTokens, overlapTokens)
    }

    /** The pieces after the size limit, in order. */
    ghost function Fitted(pieces: seq<string>): seq<string>
      requires forall p :: p in pieces && CountTokens(p) > maxTokens ==>
                 SplitReturns(p, maxTokens, overlapTokens)
    {
      if pieces == [] then []
      else
        var p := pieces[|pieces| - 1];
        Fitted(pieces[..|pieces| - 1])
        + (if CountTokens(p) > maxTokens then SplitSpec(p, maxTokens, overlapTokens) else [p])
    }

    ghost function Chunks(pieces: seq<string>, strategy: Strategy): seq<Chunk> {
      if pieces == [] then []
      else
        var p := pieces[|pieces| - 1];
        var before := Chunks(pieces[..|pieces| - 1], strategy);
        if Blank(p) then before else before + [Chunk(p, CountTokens(p), strategy)]
    }

    method FitPieces(pieces: seq<string>) returns (out: seq<string>)
      requires forall p :: p in pieces && CountTokens(p) > maxTokens ==>
                 SplitReturns(p, maxTokens, overlapTokens)
      ensures out == Fitted(pieces)
    {
      out := [];
      for i := 0 to |pieces|
        invariant out == Fitted(pieces[..i])
      {
        var p := pieces[i];
        assert pieces[..i + 1][..i] == pieces[..i];
        if CountTokens(p) > maxTokens {
          var parts := SplitByTokens(p, maxTokens, overlapTokens);
          out := out + parts;
        } else {
          out := out + [p];
        }
      }
      assert pieces[..|pieces|] == pieces;
    }

    method Emit(pieces: seq<string>, strategy: Strategy) returns (chunks: seq<Chunk>)
      ensures chunks == Chunks(pieces, strategy)
    {
      chunks := [];
      for i := 0 to |pieces|
        invariant chunks == Chunks(pieces[..i], strategy)
      {
        assert pieces[..i + 1][..i] == pieces[..i];
        if !Blank(pieces[i]) {
          chunks := chunks + [Chunk(pieces[i], CountTokens(pieces[i]), strategy)];
        }
      }
      assert pieces[..|pieces|] == pieces;
    }

    method ChunkText(text: string, fileType: string, m: Matches) returns (chunks: seq<Chunk>)
      requires m.For(text) && Returns(text, StrategyFor(fileType), m)
      ensures chunks
           == (if Blank(text) then []
               else Chunks(Fitted(Primary(text, StrategyFor(fileType), m)), StrategyFor(fileType)))
    {
      if Blank(text) {
        return [];
      }
      var strategy := StrategyFor(fileType);
      var pieces;
      match strategy {
        case MarkdownHeading => pieces := SplitBySections(text, m.headings, m);
        case CodeFunction => pieces := SplitBySections(text, m.definitions, m);
        case Paragraph => pieces := Paragraphs(text, m, |m.breaks| + 1);
        case TokenCap => pieces := SplitByTokens(text, maxTokens, 0);
      }
      var out := FitPieces(pieces);
      chunks := Emit(out, strategy);
    }

    lemma {:induction false} FittedBounded(pieces: seq<string>, text: string)
      requires forall p :: p in pieces ==> Within(p, text)
      requires forall p :: p in pieces && CountTokens(p) > maxTokens ==>
                 SplitReturns(p, maxTokens, overlapTokens)
      ensures forall q :: q in Fitted(pieces) ==>
                Within(q, text) && (CountTokens(q) <= maxTokens || |q| <= 4 * maxTokens)
    {
      if pieces != [] {
        var init, p := pieces[..|pieces| - 1], pieces[|pieces| - 1];
        FittedBounded(init, text);
        if CountTokens(p) > maxTokens {
          SplitBounded(p, maxTokens, overlapTokens);
          forall q | q in SplitSpec(p, maxTokens, overlapTokens) ensures Within(q, text) {
            WithinTrans(q, p, text);
          }
        }
      }
    }

    lemma {:induction false} ChunksOf(pieces: seq<string>, strategy: Strategy)
      ensures forall c :: c in Chunks(pieces, strategy) ==>
                c.content in pieces && !Blank(c.content) && c.tokenCount == CountTokens(c.content)
    {
      if pieces != [] {
        ChunksOf(pieces[..|pieces| - 1], strategy);
      }
    }

    /**
     * For every strategy: no chunk counts more tokens than the limit, and every chunk is a
     * non-blank contiguous part of the text.
     */
    lemma EveryChunkFits(text: string, strategy: Strategy, m: Matches)
      requires m.For(text) && Returns(text, strategy, m)
      ensures forall c :: c in Chunks(Fitted(Primary(text, strategy, m)), strategy) ==>
                1 <= c.tokenCount <= maxTokens && !Blank(c.content) && Within(c.content, text)
    {
      var pieces := Primary(text, strategy, m);
      ParagraphsWithin(text, m, |m.breaks| + 1);
      SectionsWithin(text, m.headings, |m.headings|);
      SectionsWithin(text, m.definitions, |m.definitions|);
      if strategy == TokenCap {
        SplitBounded(text, maxTokens, 0);
      }
      FittedBounded(pieces, text);
      ChunksOf(Fitted(pieces), strategy);
      forall q | q in Fitted(pieces) && !Blank(q) ensures CountTokens(q) <= maxTokens {
        assert |q| > 0;
      }
    }
  }
}
