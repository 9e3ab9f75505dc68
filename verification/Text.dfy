/** The string operations the parsers use: strip, splitlines, split, join, decimal numbers. */
module Text {
  import opened Options

  /** Line boundaries of Python's `str.splitlines`. */
  predicate IsBreak(c: char) {
    || '\n' <= c <= '\r' || '\U{1c}' <= c <= '\U{1e}' || c == '\U{85}'
    || c == '\U{2028}' || c == '\U{2029}'
  }

  /** White space: the Latin-1 characters of Python's `str.isspace`, and the line boundaries. */
  predicate IsSpace(c: char) {
    IsBreak(c) || c == ' ' || c == '\t' || c == '\U{1f}' || c == '\U{a0}'
  }

  predicate NoneOf(s: string, bad: char -> bool) {
    forall i :: 0 <= i < |s| ==> !bad(s[i])
  }

  function StripLeft(s: string): string {
    if s != "" && IsSpace(s[0]) then StripLeft(s[1..]) else s
  }

  function StripRight(s: string): string {
    if s != "" && IsSpace(s[|s| - 1]) then StripRight(s[..|s| - 1]) else s
  }

  function Strip(s: string): string {
    StripRight(StripLeft(s))
  }

  /** Nothing to strip at either end. */
  predicate Trim(s: string) {
    s != "" && !IsSpace(s[0]) && !IsSpace(s[|s| - 1])
  }

  lemma StripTrim(s: string)
    requires Trim(s)
    ensures Strip(s) == s
  {
  }

  /** Only white space is stripped, and all of it at both ends. */
  lemma StripFacts(s: string)
    ensures Strip(s) == "" || Trim(Strip(s))
    ensures exists a, b :: Between(s, a, b, Strip(s))
  {
    StripTrims(s);
    StripCuts(s);
  }

  lemma StripTrims(s: string)
    ensures Strip(s) == "" || Trim(Strip(s))
  {
    var t := StripLeft(s);
    StripLeftFacts(s);
    StripRightFacts(t);
    var b :| 0 <= b <= |t| && StripRight(t) == t[..b];
    assert b > 0 ==> t[..b][0] == t[0];
  }

  lemma StripCuts(s: string)
    ensures exists a, b :: Between(s, a, b, Strip(s))
  {
    var t := StripLeft(s);
    StripLeftFacts(s);
    StripRightFacts(t);
    var a :| 0 <= a <= |s| && t == s[a..] && AllSpace(s[..a]);
    var b :| 0 <= b <= |t| && Strip(s) == t[..b] && AllSpace(t[b..]);
    SliceTwice(s, a, b);
    assert Between(s, a, a + b, Strip(s));
  }

  lemma SliceTwice(s: string, a: nat, b: nat)
    requires a + b <= |s|
    ensures s[a..][..b] == s[a..a + b] && s[a..][b..] == s[a + b..]
  {
  }

  /** `p` is the part of `s` from `a` to `b`, and nothing but white space is around it. */
  predicate Between(s: string, a: int, b: int, p: string) {
    0 <= a <= b <= |s| && p == s[a..b] && AllSpace(s[..a]) && AllSpace(s[b..])
  }

  predicate AllSpace(s: string) {
    forall i :: 0 <= i < |s| ==> IsSpace(s[i])
  }

  lemma OneMoreSpace(s: string, a: nat)
    requires s != "" && IsSpace(s[0]) && a <= |s| - 1 && AllSpace(s[1..][..a])
    ensures s[1..][a..] == s[a + 1..] && AllSpace(s[..a + 1])
  {
    assert s[..a + 1] == [s[0]] + s[1..][..a];
  }

  lemma {:induction false} StripLeftFacts(s: string)
    ensures StripLeft(s) != "" ==> !IsSpace(StripLeft(s)[0])
    ensures exists a :: 0 <= a <= |s| && StripLeft(s) == s[a..] && AllSpace(s[..a])
  {
    if s != "" && IsSpace(s[0]) {
      StripLeftFacts(s[1..]);
      var a :| 0 <= a <= |s[1..]| && StripLeft(s[1..]) == s[1..][a..] && AllSpace(s[1..][..a]);
      OneMoreSpace(s, a);
    } else {
      assert s[0..] == s && AllSpace(s[..0]);
    }
  }

  lemma {:induction false} StripRightFacts(s: string)
    ensures StripRight(s) != "" ==> !IsSpace(StripRight(s)[|StripRight(s)| - 1])
    ensures exists b :: 0 <= b <= |s| && StripRight(s) == s[..b] && AllSpace(s[b..])
  {
    if s != "" && IsSpace(s[|s| - 1]) {
      var n := |s| - 1;
      StripRightFacts(s[..n]);
      var b :| 0 <= b <= n && StripRight(s[..n]) == s[..n][..b] && AllSpace(s[..n][b..]);
      assert s[..n][..b] == s[..b] && s[b..] == s[..n][b..] + [s[n]];
    } else {
      assert s[..|s|] == s && AllSpace(s[|s|..]);
    }
  }

  lemma {:induction false} AllSpaceStrips(s: string)
    requires AllSpace(s)
    ensures Strip(s) == ""
  {
    if s != "" {
      AllSpaceStrips(s[1..]);
    }
  }

  // ---- Splitting ---------------------------------------------------------------------------------

  /** The first position that satisfies `p`, or the length. */
  function Find(s: string, p: char -> bool): (k: nat)
    ensures k <= |s|
    ensures k < |s| ==> p(s[k])
    ensures forall i :: 0 <= i < k ==> !p(s[i])
  {
    if s == "" || p(s[0]) then 0 else 1 + Find(s[1..], p)
  }

  lemma {:induction false} FindAfter(l: string, c: char, rest: string, p: char -> bool)
    requires NoneOf(l, p) && p(c)
    ensures Find(l + [c] + rest, p) == |l|
  {
    var s := l + [c] + rest;
    assert s[|l|] == c;
    assert forall i :: 0 <= i < |l| ==> s[i] == l[i];
  }

  function Lines(s: string): seq<string>
    decreases |s|
  {
    if s == "" then []
    else
      var k := Find(s, IsBreak);
      if k == |s| then [s]
      else if s[k] == '\r' && k + 1 < |s| && s[k + 1] == '\n' then [s[..k]] + Lines(s[k + 2..])
      else [s[..k]] + Lines(s[k + 1..])
  }

  lemma LinesCons(l: string, rest: string)
    requires NoneOf(l, IsBreak)
    ensures Lines(l + "\n" + rest) == [l] + Lines(rest)
  {
    var s := l + "\n" + rest;
    FindAfter(l, '\n', rest, IsBreak);
    assert s == l + ['\n'] + rest;
    assert s[..|l|] == l && s[|l| + 1..] == rest;
  }

  predicate IsTab(c: char) {
    c == '\t'
  }

  function SplitTabs(s: string): (parts: seq<string>)
    ensures parts != []
    decreases |s|
  {
    var k := Find(s, IsTab);
    if k == |s| then [s] else [s[..k]] + SplitTabs(s[k + 1..])
  }

  /** At most `max` splits; the last part keeps its tabs. */
  function SplitTabsUpTo(s: string, max: nat): seq<string>
    decreases max
  {
    var k := Find(s, IsTab);
    if max == 0 || k == |s| then [s] else [s[..k]] + SplitTabsUpTo(s[k + 1..], max - 1)
  }

  lemma SplitTabsCons(l: string, rest: string)
    requires NoneOf(l, IsTab)
    ensures SplitTabs(l + "\t" + rest) == [l] + SplitTabs(rest)
  {
    var s := l + "\t" + rest;
    FindAfter(l, '\t', rest, IsTab);
    assert s == l + ['\t'] + rest;
    assert s[..|l|] == l && s[|l| + 1..] == rest;
  }

  lemma SplitTabsUpToCons(l: string, rest: string, max: nat)
    requires NoneOf(l, IsTab) && max > 0
    ensures SplitTabsUpTo(l + "\t" + rest, max) == [l] + SplitTabsUpTo(rest, max - 1)
  {
    var s := l + "\t" + rest;
    FindAfter(l, '\t', rest, IsTab);
    assert s == l + ['\t'] + rest;
    assert s[..|l|] == l && s[|l| + 1..] == rest;
  }

  lemma SplitTabsNone(s: string)
    requires NoneOf(s, IsTab)
    ensures SplitTabs(s) == [s]
  {
    assert Find(s, IsTab) == |s|;
  }

  /** Python's `split()`: the runs of characters that are not white space. */
  function Words(s: string): seq<string>
    decreases |s|
  {
    if s == "" then []
    else if IsSpace(s[0]) then Words(s[1..])
    else
      var k := Find(s, IsSpace);
      [s[..k]] + Words(s[k..])
  }

  predicate IsWord(w: string) {
    w != "" && NoneOf(w, IsSpace)
  }

  lemma WordsCons(w: string, rest: string)
    requires IsWord(w)
    ensures Words(w + " " + rest) == [w] + Words(rest)
  {
    var s := w + " " + rest;
    FindAfter(w, ' ', rest, IsSpace);
    assert s == w + [' '] + rest;
    assert s[0] == w[0];
    assert s[..|w|] == w && s[|w|..] == " " + rest;
    assert (" " + rest)[1..] == rest;
  }

  lemma WordsLast(w: string)
    requires IsWord(w)
    ensures Words(w) == [w]
  {
    assert Find(w, IsSpace) == |w|;
    assert w[..|w|] == w && w[|w|..] == "";
  }

  /** Words with single spaces between them. */
  function Join(ws: seq<string>): string {
    if ws == [] then ""
    else if |ws| == 1 then ws[0]
    else ws[0] + " " + Join(ws[1..])
  }

  lemma {:induction false} WordsOfJoin(ws: seq<string>)
    requires forall w :: w in ws ==> IsWord(w)
    ensures Words(Join(ws)) == ws
  {
    if |ws| == 1 {
      WordsLast(ws[0]);
    } else if |ws| > 1 {
      WordsOfJoin(ws[1..]);
      WordsCons(ws[0], Join(ws[1..]));
    }
  }

  lemma {:induction false} WordsAreWords(s: string)
    ensures forall w :: w in Words(s) ==> IsWord(w)
    decreases |s|
  {
    if s != "" {
      if IsSpace(s[0]) {
        WordsAreWords(s[1..]);
      } else {
        WordsAreWords(s[Find(s, IsSpace)..]);
      }
    }
  }

  lemma {:induction false} JoinOfWords(ws: seq<string>)
    requires ws != [] && forall w :: w in ws ==> IsWord(w)
    ensures var s := Join(ws); s != "" && !IsSpace(s[|s| - 1]) && NoneOf(s, IsBreak)
  {
    assert ws[0] in ws && forall i :: 0 <= i < |ws[0]| ==> !IsSpace(ws[0][i]);
    if |ws| > 1 {
      JoinOfWords(ws[1..]);
    }
  }

  lemma FirstWord(s: string)
    requires s != "" && !IsSpace(s[0])
    ensures Words(s) != [] && Words(s)[0] != "" && Words(s)[0][0] == s[0]
  {
  }

  // ---- Decimal numbers ---------------------------------------------------------------------------

  function Digit(n: nat): char
    requires n < 10
  {
    '0' + n as char
  }

  function Decimal(n: nat): (s: string)
    ensures s != ""
  {
    if n < 10 then [Digit(n)] else Decimal(n / 10) + [Digit(n % 10)]
  }

  predicate IsDigit(c: char) {
    '0' <= c <= '9'
  }

  /** Digits, with single underscores allowed between them. */
  function ParseNat(s: string): Option<nat>
    decreases |s|
  {
    var n := |s| - 1;
    if s == "" || !IsDigit(s[n]) then None
    else
      var d := (s[n] - '0') as nat;
      if n == 0 then Some(d)
      else
        var high := ParseNat(if s[n - 1] == '_' then s[..n - 1] else s[..n]);
        if high.None? then None else Some(10 * high.value + d)
  }

  /** Python's `int`: white space around, one sign, digits. */
  function ParseInt(s: string): Option<int> {
    var t := Strip(s);
    if t == "" then None
    else if t[0] == '-' then
      var n := ParseNat(t[1..]);
      if n.None? then None else Some(0 - n.value)
    else if t[0] == '+' then ParseNat(t[1..])
    else ParseNat(t)
  }

  lemma {:induction false} DecimalDigits(n: nat)
    ensures forall i :: 0 <= i < |Decimal(n)| ==> IsDigit(Decimal(n)[i])
    ensures ParseNat(Decimal(n)) == Some(n)
  {
    if n >= 10 {
      DecimalDigits(n / 10);
      var s := Decimal(n);
      assert s[..|s| - 1] == Decimal(n / 10);
    }
  }

  lemma DigitsStay(s: string)
    requires s != "" && forall i :: 0 <= i < |s| ==> IsDigit(s[i])
    ensures Trim(s) && NoneOf(s, IsSpace)
    ensures ParseInt(s) == ParseNat(s)
  {
    assert IsDigit(s[0]) && IsDigit(s[|s| - 1]);
    StripTrim(s);
  }

  lemma DecimalRoundTrip(n: nat)
    ensures ParseInt(Decimal(n)) == Some(n)
    ensures Trim(Decimal(n)) && NoneOf(Decimal(n), IsSpace)
  {
    DecimalDigits(n);
    DigitsStay(Decimal(n));
  }
}
