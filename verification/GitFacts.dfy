/** What single lines, fields and rules read as, told on their own characters. */
module GitFacts {
  import opened Options
  import opened Text
  import Differ
  import Codeowners

  // ---- Lines and numbers -------------------------------------------------------------------------

  lemma BreaksByCode(c: char)
    ensures IsBreak(c) <==>
            c as int in {0x0a, 0x0b, 0x0c, 0x0d, 0x1c, 0x1d, 0x1e, 0x85, 0x2028, 0x2029}
  {
  }

  /** Every boundary ends one line; a carriage return and the line feed after it are one boundary. */
  lemma LineByLine(l: string, c: char, rest: string)
    requires NoneOf(l, IsBreak) && IsBreak(c)
    ensures Lines(l) == if l == "" then [] else [l]
    ensures !(c == '\r' && "\n" <= rest) ==> Lines(l + [c] + rest) == [l] + Lines(rest)
    ensures c == '\r' ==> Lines(l + [c] + ("\n" + rest)) == [l] + Lines(rest)
  {
    assert l != "" ==> Find(l, IsBreak) == |l|;
    if !(c == '\r' && "\n" <= rest) {
      OneLine(l, c, rest);
    }
    CrLf(l, rest);
  }

  lemma OneLine(l: string, c: char, rest: string)
    requires NoneOf(l, IsBreak) && IsBreak(c) && !(c == '\r' && "\n" <= rest)
    ensures Lines(l + [c] + rest) == [l] + Lines(rest)
  {
    var s := l + [c] + rest;
    FindAfter(l, c, rest, IsBreak);
    assert s[|l|] == c && s[..|l|] == l && s[|l| + 1..] == rest;
    assert |rest| > 0 ==> s[|l| + 1] == rest[0];
  }

  lemma CrLf(l: string, rest: string)
    requires NoneOf(l, IsBreak)
    ensures Lines(l + ['\r'] + ("\n" + rest)) == [l] + Lines(rest)
  {
    var s := l + ['\r'] + ("\n" + rest);
    FindAfter(l, '\r', "\n" + rest, IsBreak);
    assert s[|l|] == '\r' && s[|l| + 1] == '\n' && s[..|l|] == l && s[|l| + 2..] == rest;
  }

  /** A numeral: digits at both ends, and single underscores at most between two digits. */
  predicate Numeral(s: string) {
    && s != "" && IsDigit(s[0]) && IsDigit(s[|s| - 1])
    && (forall i :: 0 <= i < |s| ==> IsDigit(s[i]) || s[i] == '_')
    && (forall i :: 0 < i < |s| ==> IsDigit(s[i - 1]) || IsDigit(s[i]))
  }

  lemma {:induction false} NumeralExactly(s: string)
    ensures ParseNat(s).Some? <==> Numeral(s)
    decreases |s|
  {
    var n := |s| - 1;
    if n > 0 && IsDigit(s[n]) {
      var t := if s[n - 1] == '_' then s[..n - 1] else s[..n];
      NumeralExactly(t);
      if Numeral(t) {
        assert forall i :: 0 <= i < |t| ==> s[i] == t[i];
        assert IsDigit(t[|t| - 1]);
      }
      if Numeral(s) {
        assert s[n - 1] == '_' ==> IsDigit(s[n - 2]);
        assert forall i :: 0 <= i < |t| ==> s[i] == t[i];
      }
    }
  }

  function Shifted(high: Option<nat>, c: char): Option<nat>
    requires IsDigit(c)
  {
    if high.None? then None else Some(10 * high.value + (c - '0') as nat)
  }

  /** One digit more after a digit: ten times the number and the digit. */
  lemma {:induction false} OneMoreDigit(s: string, c: char)
    requires s != "" && IsDigit(s[|s| - 1]) && IsDigit(c)
    ensures ParseNat(s + [c]) == Shifted(ParseNat(s), c)
  {
    var t := s + [c];
    assert t[..|t| - 1] == s && t[|t| - 2] == s[|s| - 1];
  }

  /** With an underscore before it, the same. */
  lemma {:induction false} UnderscoreIsSkipped(s: string, c: char)
    requires s != "" && IsDigit(s[|s| - 1]) && IsDigit(c)
    ensures ParseNat(s + ['_', c]) == Shifted(ParseNat(s), c)
  {
    var t := s + ['_', c];
    assert t[..|t| - 2] == s && t[|t| - 2] == '_';
  }

  lemma OneDigit(c: char)
    requires IsDigit(c)
    ensures ParseNat([c]) == Some((c - '0') as nat)
  {
  }

  function Negative(n: Option<nat>): Option<int> {
    if n.None? then None else Some(0 - n.value)
  }

  lemma {:induction false} SignedNumbers(d: string)
    requires d != "" && Trim(d)
    ensures ParseInt(['-'] + d) == Negative(ParseNat(d))
    ensures ParseInt(['+'] + d) == ParseNat(d)
  {
    Signed('-', d);
    Signed('+', d);
  }

  lemma {:induction false} Signed(c: char, d: string)
    requires d != "" && Trim(d) && !IsSpace(c)
    ensures Strip([c] + d) == [c] + d && ([c] + d)[1..] == d
  {
    StripTrim([c] + d);
  }

  lemma NoNumber()
    ensures ParseInt("-") == ParseInt("+") == ParseInt("") == None
  {
    StripTrim("-");
    StripTrim("+");
  }

  // ---- Fields of a diff --------------------------------------------------------------------------

  /** Two dashes make a binary file without lines; anything else is two numbers or no row at all. */
  lemma RowReads(a: string, d: string, path: string)
    ensures var r := Differ.RowFrom([a, d, path]);
            if a == "-" && d == "-" then r == Some((path, Differ.Stat(0, 0, true)))
            else if ParseInt(a).Some? && ParseInt(d).Some? then
              r == Some((path, Differ.Stat(ParseInt(a).value, ParseInt(d).value, false)))
            else r == None
    ensures (a == "-") != (d == "-") ==> Differ.RowFrom([a, d, path]) == None
    ensures Differ.RowFrom([]) == Differ.RowFrom([a]) == Differ.RowFrom([a, d]) == None
  {
    NoNumber();
  }

  /** Renames and copies have two paths, the old one first; every other code has one. */
  lemma EntryReads(code: string, a: string, b: string)
    ensures Differ.EntryFrom([code]) == None
    ensures "R" <= code || "C" <= code ==>
              && Differ.EntryFrom([code, a, b]) == Some(Differ.Entry([code[0]], b, Some(a)))
              && Differ.EntryFrom([code, a]) == Some(Differ.Entry([code[0]], a, None))
    ensures !("R" <= code || "C" <= code) ==>
              Differ.EntryFrom([code, a, b]) == Differ.EntryFrom([code, a]) == Some(Differ.Entry(code, a, None))
  {
    assert code != "" ==> code[..1] == [code[0]];
  }

  lemma StatusLetters(code: string)
    ensures Differ.ChangeOf("A") == Differ.Added && Differ.ChangeOf("D") == Differ.Deleted
    ensures Differ.ChangeOf("R") == Differ.Renamed && Differ.ChangeOf("C") == Differ.Copied
    ensures Differ.ChangeOf("M") == Differ.ChangeOf("T") == Differ.ChangeOf("U") == Differ.Modified
    ensures code !in ["A", "D", "R", "C"] ==> Differ.ChangeOf(code) == Differ.Modified
  {
  }

  /**
   * What git prints comes back unit by unit: the `i`th entry's paths, whatever score it was printed
   * with, and the figures of the only row that names its path.
   */
  lemma PrintedDiffReads(
    rows: seq<Differ.StatRow>, es: seq<(Differ.Entry, string)>, units: seq<Differ.Unit>, i: nat, j: nat)
    requires forall r :: r in rows ==> Differ.RowPrintable(r)
    requires forall e :: e in es ==> Differ.EntryPrintable(e.0) && Differ.ScorePrintable(e.0, e.1)
    requires Differ.Described(Differ.PrintRows(rows), Differ.PrintEntries(es), units)
    requires i < |es| && j < |rows| && rows[j].0 == es[i].0.path
    requires Differ.Distinct(Differ.RowPaths(rows))
    ensures |units| == |es| && units[i].path == es[i].0.path && units[i].previous == es[i].0.previous
    ensures units[i].stat == rows[j].1
  {
    Differ.NumstatRoundTrip(rows);
    Differ.NameStatusRoundTrip(es);
    UnscoredAt(es, i);
    Differ.RowFigures(rows, j);
    Differ.StoreMeaning(map[], rows, rows[j].0);
  }

  lemma {:induction false} UnscoredAt(es: seq<(Differ.Entry, string)>, i: nat)
    requires i < |es|
    ensures |Differ.Unscored(es)| == |es| && Differ.Unscored(es)[i] == es[i].0
  {
    if i > 0 {
      UnscoredAt(es[1..], i - 1);
    } else if |es| > 1 {
      UnscoredAt(es[1..], 0);
    }
  }

  // ---- Owners ------------------------------------------------------------------------------------

  lemma DirectoryExactly(p: string)
    ensures Codeowners.IsDirectory(p) <==> exists q :: p == q + "/"
  {
    if Codeowners.IsDirectory(p) {
      assert p == p[..|p| - 1] + "/";
    }
  }

  /** The rule that matches the path and after which none does names the owner. */
  lemma OwnerOf(rules: seq<Codeowners.Rule>, fp: string, i: nat)
    requires i < |rules| && Codeowners.Matches(rules[i].pattern, fp)
    requires forall j :: i < j < |rules| ==> !Codeowners.Matches(rules[j].pattern, fp)
    ensures Codeowners.LastMatch(rules, Codeowners.Hits(fp)) == Some(rules[i].owners)
  {
    Codeowners.LastMatchDecides(rules, i, Codeowners.Hits(fp));
  }
}
