/** CODEOWNERS files: which rule owns a path. */
module Codeowners {
  import opened Options
  import opened Text

  datatype Rule = Rule(pattern: string, owners: string)

  // ---- Globs -------------------------------------------------------------------------------------

  /** `*` stands for any string, `/` included, `?` for any one character, all else for itself. */
  predicate Match(p: string, s: string)
    decreases |p|
  {
    if p == "" then s == ""
    else if p[0] == '*' then exists k: nat | k <= |s| :: Match(p[1..], s[k..])
    else s != "" && (p[0] == '?' || p[0] == s[0]) && Match(p[1..], s[1..])
  }

  predicate Wild(c: char) {
    c == '*' || c == '?'
  }

  predicate SplitAt(p: string, q: string, s: string, k: nat) {
    k <= |s| && Match(p, s[..k]) && Match(q, s[k..])
  }

  /** A pattern splits a string: together with the one-character patterns this fixes `Match`. */
  lemma {:induction false} MatchSplits(p: string, q: string, s: string)
    ensures Match(p + q, s) <==> exists k: nat | k <= |s| :: SplitAt(p, q, s, k)
    decreases |p|
  {
    if p == "" {
      assert p + q == q && s[0..] == s;
      assert Match(q, s) ==> SplitAt(p, q, s, 0);
    } else if p[0] == '*' {
      StarSplits(p, q, s);
    } else if s != "" {
      CharSplits(p, q, s);
    }
  }

  lemma {:induction false} CharSplits(p: string, q: string, s: string)
    requires p != "" && p[0] != '*' && s != ""
    ensures Match(p + q, s) <==> exists k: nat | k <= |s| :: SplitAt(p, q, s, k)
    decreases |p|, 0
  {
    assert (p + q)[1..] == p[1..] + q && (p + q)[0] == p[0];
    MatchSplits(p[1..], q, s[1..]);
    if k: nat :| k <= |s| && SplitAt(p, q, s, k) {
      assert k > 0 && s[..k][1..] == s[1..][..k - 1] && s[k..] == s[1..][k - 1..];
      assert SplitAt(p[1..], q, s[1..], k - 1);
    }
    if Match(p + q, s) {
      var k: nat :| k <= |s[1..]| && SplitAt(p[1..], q, s[1..], k);
      assert s[..k + 1][1..] == s[1..][..k] && s[k + 1..] == s[1..][k..];
      assert SplitAt(p, q, s, k + 1);
    }
  }

  lemma {:induction false} StarSplits(p: string, q: string, s: string)
    requires p != "" && p[0] == '*'
    ensures Match(p + q, s) <==> exists k: nat | k <= |s| :: SplitAt(p, q, s, k)
    decreases |p|, 0
  {
    assert (p + q)[1..] == p[1..] + q;
    if Match(p + q, s) {
      var j: nat :| j <= |s| && Match(p[1..] + q, s[j..]);
      MatchSplits(p[1..], q, s[j..]);
      var k: nat :| k <= |s[j..]| && SplitAt(p[1..], q, s[j..], k);
      assert s[j..][..k] == s[..j + k][j..] && s[j..][k..] == s[j + k..];
      assert SplitAt(p, q, s, j + k);
    }
    if k: nat :| k <= |s| && SplitAt(p, q, s, k) {
      var j: nat :| j <= |s[..k]| && Match(p[1..], s[..k][j..]);
      MatchSplits(p[1..], q, s[j..]);
      assert s[..k][j..] == s[j..][..k - j] && s[k..] == s[j..][k - j..];
      assert SplitAt(p[1..], q, s[j..], k - j);
    }
  }

  lemma MatchOne(c: char, s: string)
    ensures Match([c], s) <==> c == '*' || (|s| == 1 && (c == '?' || s == [c]))
  {
    if c == '*' {
      assert [c][1..] == "" && s[|s|..] == "";
    }
  }

  lemma {:induction false} LiteralMatch(p: string, s: string)
    requires NoneOf(p, Wild)
    ensures Match(p, s) <==> p == s
  {
    if p != "" && s != "" {
      LiteralMatch(p[1..], s[1..]);
      assert p == [p[0]] + p[1..] && s == [s[0]] + s[1..];
    }
  }

  /** `p.replace("**", "*")`: left to right, the replaced text is not looked at again. */
  function Squeeze(p: string): string {
    if |p| < 2 then p
    else if p[0] == '*' && p[1] == '*' then "*" + Squeeze(p[2..])
    else [p[0]] + Squeeze(p[1..])
  }

  lemma DoubleStar(p: string, s: string)
    requires |p| >= 2 && p[0] == '*' && p[1] == '*'
    ensures Match(p, s) <==> exists k: nat | k <= |s| :: Match(p[2..], s[k..])
  {
    assert p[1..][1..] == p[2..];
    if k: nat :| k <= |s| && Match(p[1..], s[k..]) {
      var j: nat :| j <= |s[k..]| && Match(p[1..][1..], s[k..][j..]);
      assert s[k..][j..] == s[k + j..];
    }
    if k: nat :| k <= |s| && Match(p[2..], s[k..]) {
      assert s[k..][0..] == s[k..];
      assert Match(p[1..], s[k..]);
    }
  }

  /** The rewriting keeps the set of strings that the pattern matches. */
  lemma {:induction false} SqueezePreservesMatch(p: string, s: string)
    ensures Match(Squeeze(p), s) <==> Match(p, s)
    decreases |p|
  {
    if |p| >= 2 {
      if p[0] == '*' && p[1] == '*' {
        DoubleStar(p, s);
        assert Squeeze(p)[1..] == Squeeze(p[2..]);
        forall k: nat | k <= |s| ensures Match(Squeeze(p[2..]), s[k..]) <==> Match(p[2..], s[k..]) {
          SqueezePreservesMatch(p[2..], s[k..]);
        }
      } else {
        assert Squeeze(p)[1..] == Squeeze(p[1..]);
        forall k: nat | k <= |s| ensures Match(Squeeze(p[1..]), s[k..]) <==> Match(p[1..], s[k..]) {
          SqueezePreservesMatch(p[1..], s[k..]);
        }
      }
    }
  }

  // ---- One rule ----------------------------------------------------------------------------------

  function LeftSlashes(s: string): string {
    if s != "" && s[0] == '/' then LeftSlashes(s[1..]) else s
  }

  predicate IsDirectory(p: string) {
    p != "" && p[|p| - 1] == '/'
  }

  predicate OccursAt(fp: string, i: nat, p: string) {
    i + |p| <= |fp| && fp[i..i + |p|] == p
  }

  function Basename(fp: string): (b: string)
    ensures '/' !in b && |b| <= |fp| && fp[|fp| - |b|..] == b
    ensures |b| == |fp| || fp[|fp| - |b| - 1] == '/'
  {
    if fp == "" || fp[|fp| - 1] == '/' then ""
    else Basename(fp[..|fp| - 1]) + [fp[|fp| - 1]]
  }

  predicate Matches(pattern: string, fp: string) {
    var p := LeftSlashes(pattern);
    if IsDirectory(p) then
      p <= fp || exists i: nat | i <= |fp| :: OccursAt(fp, i, "/" + p)
    else if '/' !in p then Match(p, Basename(fp))
    else Match(Squeeze(p), fp) || Match("/" + Squeeze(p), "/" + fp)
  }

  /** Position `i` starts a component of the path. */
  predicate Boundary(fp: string, i: nat) {
    i == 0 || (i <= |fp| && fp[i - 1] == '/')
  }

  lemma AfterSlash(fp: string, i: nat, p: string)
    ensures OccursAt(fp, i, "/" + p) <==> i < |fp| && fp[i] == '/' && OccursAt(fp, i + 1, p)
  {
    if i + 1 + |p| <= |fp| {
      assert fp[i..i + 1 + |p|] == [fp[i]] + fp[i + 1..i + 1 + |p|];
      assert ("/" + p)[1..] == p;
      assert ([fp[i]] + fp[i + 1..i + 1 + |p|])[1..] == fp[i + 1..i + 1 + |p|];
    }
  }

  /**
   * A directory pattern owns the paths that hold it from the start of a component on; a pattern with
   * a slash is one glob over the path; any other is a glob over the last component.
   */
  lemma MatchesMeaning(pattern: string, fp: string)
    ensures var p := LeftSlashes(pattern);
            Matches(pattern, fp) <==>
            if IsDirectory(p) then exists i: nat | i <= |fp| :: Boundary(fp, i) && OccursAt(fp, i, p)
            else Match(p, if '/' in p then fp else Basename(fp))
  {
    var p := LeftSlashes(pattern);
    if IsDirectory(p) {
      forall i: nat ensures OccursAt(fp, i, "/" + p) <==> i < |fp| && fp[i] == '/' && OccursAt(fp, i + 1, p) {
        AfterSlash(fp, i, p);
      }
      assert p <= fp <==> OccursAt(fp, 0, p);
      if i: nat :| i <= |fp| && OccursAt(fp, i, "/" + p) {
        assert Boundary(fp, i + 1);
      }
      if i: nat :| i <= |fp| && Boundary(fp, i) && OccursAt(fp, i, p) {
        assert i > 0 ==> OccursAt(fp, i - 1, "/" + p);
      }
    } else if '/' in p {
      SqueezePreservesMatch(p, fp);
      assert ("/" + Squeeze(p))[1..] == Squeeze(p) && ("/" + fp)[1..] == fp;
    }
  }

  /** A leading slash, which anchors a pattern at the root in GitHub's files, changes nothing here. */
  lemma LeadingSlashIsIgnored(pattern: string, fp: string)
    ensures Matches("/" + pattern, fp) <==> Matches(pattern, fp)
  {
    assert ("/" + pattern)[1..] == pattern;
  }

  /** So a directory pattern owns every directory of that name, however deep. */
  lemma DirectoryAtAnyDepth(pattern: string, above: string, below: string)
    requires IsDirectory(LeftSlashes(pattern))
    ensures Matches(pattern, above + "/" + LeftSlashes(pattern) + below)
  {
    var p := LeftSlashes(pattern);
    var fp := above + "/" + p + below;
    assert fp == above + ("/" + p) + below;
    assert OccursAt(fp, |above|, "/" + p);
  }

  // ---- The rule list -----------------------------------------------------------------------------

  function Hits(fp: string): Rule -> bool {
    (r: Rule) => Matches(r.pattern, fp)
  }

  /** The documented search: from the last rule to the first, stop at the first match. */
  function LastMatch(rules: seq<Rule>, hit: Rule -> bool): Option<string> {
    if rules == [] then None
    else
      var last := rules[|rules| - 1];
      if hit(last) then Some(last.owners) else LastMatch(rules[..|rules| - 1], hit)
  }

  method FindOwner(rules: seq<Rule>, fp: string) returns (matched: Option<string>)
    ensures matched == LastMatch(rules, Hits(fp))
  {
    matched := None;
    for i := 0 to |rules|
      invariant matched == LastMatch(rules[..i], Hits(fp))
    {
      assert rules[..i + 1][..i] == rules[..i];
      if Matches(rules[i].pattern, fp) {
        matched := Some(rules[i].owners);
      }
    }
    assert rules[..|rules|] == rules;
  }

  /** The rule after which none matches decides. */
  lemma {:induction false} LastMatchDecides(rules: seq<Rule>, i: nat, hit: Rule -> bool)
    requires i < |rules| && hit(rules[i])
    requires forall j :: i < j < |rules| ==> !hit(rules[j])
    ensures LastMatch(rules, hit) == Some(rules[i].owners)
  {
    var n := |rules| - 1;
    if i < n {
      assert forall j :: 0 <= j < n ==> rules[..n][j] == rules[j];
      LastMatchDecides(rules[..n], i, hit);
    }
  }

  /** A path has an owner exactly when some rule matches it. */
  lemma {:induction false} OwnedExactly(rules: seq<Rule>, hit: Rule -> bool)
    ensures LastMatch(rules, hit).Some? <==> exists r :: r in rules && hit(r)
  {
    if rules != [] {
      var n := |rules| - 1;
      OwnedExactly(rules[..n], hit);
      assert forall r :: r in rules <==> r in rules[..n] || r == rules[n];
    }
  }

  /** Rules added at the end of a file override what it said, where they match. */
  lemma {:induction false} LaterRulesWin(a: seq<Rule>, b: seq<Rule>, hit: Rule -> bool)
    ensures LastMatch(a + b, hit) == if LastMatch(b, hit).Some? then LastMatch(b, hit) else LastMatch(a, hit)
  {
    if b == [] {
      assert a + b == a;
    } else {
      var n := |b| - 1;
      assert (a + b)[..|a + b| - 1] == a + b[..n];
      LaterRulesWin(a, b[..n], hit);
    }
  }

  // ---- Reading the file --------------------------------------------------------------------------

  function RuleOf(line: string): Option<Rule> {
    var l := Strip(line);
    if l == "" || l[0] == '#' || |Words(l)| < 2 then None
    else Some(Rule(Words(l)[0], Join(Words(l)[1..])))
  }

  function RulesOf(lines: seq<string>): seq<Rule> {
    if lines == [] then []
    else if RuleOf(lines[0]).None? then RulesOf(lines[1..])
    else [RuleOf(lines[0]).value] + RulesOf(lines[1..])
  }

  method FromText(text: string) returns (rules: seq<Rule>)
    ensures rules == RulesOf(Lines(text))
  {
    rules := [];
    var lines := Lines(text);
    for i := 0 to |lines|
      invariant rules + RulesOf(lines[i..]) == RulesOf(lines)
    {
      assert lines[i..][1..] == lines[i + 1..];
      var line := Strip(lines[i]);
      if line == "" || line[0] == '#' {
        continue;
      }
      var parts := Words(line);
      if |parts| < 2 {
        continue;
      }
      rules := rules + [Rule(parts[0], Join(parts[1..]))];
    }
  }

  function LineFor(r: Rule): string {
    r.pattern + " " + r.owners
  }

  function Print(rules: seq<Rule>): string {
    if rules == [] then "" else LineFor(rules[0]) + "\n" + Print(rules[1..])
  }

  predicate WellFormed(r: Rule) {
    && IsWord(r.pattern) && r.pattern[0] != '#'
    && Words(r.owners) != [] && Join(Words(r.owners)) == r.owners
  }

  lemma LineForShape(r: Rule)
    requires IsWord(r.pattern)
    requires r.owners != "" && !IsSpace(r.owners[|r.owners| - 1]) && NoneOf(r.owners, IsBreak)
    ensures Trim(LineFor(r)) && LineFor(r)[0] == r.pattern[0]
    ensures NoneOf(LineFor(r), IsBreak)
  {
    var l := LineFor(r);
    var n := |r.pattern|;
    assert forall i :: 0 <= i < n ==> l[i] == r.pattern[i];
    assert l[n] == ' ';
    assert forall i :: n < i < |l| ==> l[i] == r.owners[i - n - 1];
  }

  lemma LineForRule(r: Rule)
    requires WellFormed(r)
    ensures RuleOf(LineFor(r)) == Some(r)
    ensures NoneOf(LineFor(r), IsBreak)
  {
    WordsAreWords(r.owners);
    JoinOfWords(Words(r.owners));
    LineForShape(r);
    StripTrim(LineFor(r));
    WordsCons(r.pattern, r.owners);
    assert Words(LineFor(r))[1..] == Words(r.owners);
  }

  /** Reading what was printed gives back the rules, in order. */
  lemma {:induction false} PrintThenRead(rules: seq<Rule>)
    requires forall r :: r in rules ==> WellFormed(r)
    ensures RulesOf(Lines(Print(rules))) == rules
  {
    if rules != [] {
      LineForRule(rules[0]);
      LinesCons(LineFor(rules[0]), Print(rules[1..]));
      var ls := Lines(Print(rules));
      assert ls[0] == LineFor(rules[0]) && ls[1..] == Lines(Print(rules[1..]));
      PrintThenRead(rules[1..]);
    }
  }

  lemma RuleOfIsWellFormed(line: string)
    ensures RuleOf(line).Some? ==> WellFormed(RuleOf(line).value)
  {
    var l := Strip(line);
    if RuleOf(line).Some? {
      WordsAreWords(l);
      var ws := Words(l)[1..];
      assert forall w :: w in ws ==> w in Words(l);
      WordsOfJoin(ws);
      StripFacts(line);
      FirstWord(l);
    }
  }

  /** Whatever the text, printing its rules and reading them again changes nothing. */
  lemma {:induction false} ReadPrintRead(lines: seq<string>)
    ensures RulesOf(Lines(Print(RulesOf(lines)))) == RulesOf(lines)
  {
    AllWellFormed(lines);
    PrintThenRead(RulesOf(lines));
  }

  lemma {:induction false} AllWellFormed(lines: seq<string>)
    ensures forall r :: r in RulesOf(lines) ==> WellFormed(r)
  {
    if lines != [] {
      RuleOfIsWellFormed(lines[0]);
      AllWellFormed(lines[1..]);
    }
  }
}
