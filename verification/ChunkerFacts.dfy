/** Which parts of a text become chunks: windows, sections, paragraphs, and nothing else. */
module ChunkerFacts {
  import opened Options
  import opened Text
  import opened Chunker

  // ---- Windows -----------------------------------------------------------------------------------

  /** A full window ends at the last space after its start, or at the budget if there is none. */
  lemma EndExactly(c: Cutter, i: nat)
    requires i < |c.text|
    ensures i + c.budget >= |c.text| ==> c.End(i) == |c.text|
    ensures i + c.budget < |c.text| ==>
              var e := c.End(i);
              && i <= e <= i + c.budget
              && (forall k :: e < k < i + c.budget ==> c.text[k] != ' ')
              && (e < i + c.budget ==> i < e && c.text[e] == ' ')
              && (e == i + c.budget ==> forall k :: i < k < i + c.budget ==> c.text[k] != ' ')
  {
    if i + c.budget < |c.text| {
      LastSpaceIsLast(c.text, i, i + c.budget);
    }
  }

  /** The windows that are not blank become pieces, in order and unchanged. */
  ghost function NonBlank(c: Cutter, cs: seq<(nat, nat)>): seq<string>
    requires forall x :: x in cs ==> x.0 <= x.1 <= |c.text|
  {
    if cs == [] then []
    else
      var piece := c.text[cs[0].0..cs[0].1];
      if Strip(piece) == "" then NonBlank(c, cs[1..]) else [piece] + NonBlank(c, cs[1..])
  }

  lemma PiecesCase(c: Cutter, out: seq<string>, cs: seq<(nat, nat)>)
    requires cs != [] && forall x :: x in cs ==> x.0 <= x.1 <= |c.text|
    ensures var piece := c.text[cs[0].0..cs[0].1];
            c.Pieces(out, cs) == c.Pieces(if Strip(piece) == "" then out else out + [piece], cs[1..])
  {
    BlankIsStripped(c.text[cs[0].0..cs[0].1]);
  }

  lemma {:induction false} PiecesAreNonBlank(c: Cutter, out: seq<string>, cs: seq<(nat, nat)>)
    requires forall x :: x in cs ==> x.0 <= x.1 <= |c.text|
    ensures c.Pieces(out, cs) == out + NonBlank(c, cs)
    decreases |cs|
  {
    if cs != [] {
      var piece := c.text[cs[0].0..cs[0].1];
      PiecesCase(c, out, cs);
      PiecesAreNonBlank(c, if Strip(piece) == "" then out else out + [piece], cs[1..]);
    }
  }

  lemma BlankIsStripped(s: string)
    ensures Blank(s) <==> Strip(s) == ""
  {
    StripFacts(s);
    if Blank(s) {
      AllSpaceStrips(s);
    } else {
      var a, b :| Between(s, a, b, Strip(s));
      assert s == s[..a] + s[a..b] + s[b..];
    }
  }

  /** Blank texts give nothing, texts within the budget themselves, others their windows. */
  lemma SplitFacts(text: string, maxTokens: nat, overlapTokens: nat)
    requires SplitReturns(text, maxTokens, overlapTokens)
    ensures var pieces := SplitSpec(text, maxTokens, overlapTokens);
            var c := Cutter(text, 4 * maxTokens, 4 * overlapTokens);
            if Strip(text) == "" then pieces == []
            else if |text| <= 4 * maxTokens then pieces == [text]
            else c.Terminates() && pieces == NonBlank(c, c.Slices())
  {
    BlankIsStripped(text);
    var c := Cutter(text, 4 * maxTokens, 4 * overlapTokens);
    if !Blank(text) && |text| > 4 * maxTokens {
      PiecesAreNonBlank(c, [], c.Slices());
    }
  }

  lemma TokensOf(text: string)
    ensures var n := CountTokens(text);
            n >= 1 && (n > 1 ==> 4 * n <= |text|) && |text| < 4 * (n + 1)
  {
  }

  // ---- Sections and paragraphs -------------------------------------------------------------------

  /** From the first start on the windows tile the text; each runs to the next start. */
  ghost predicate Tiles(text: string, starts: seq<nat>, ws: seq<(nat, nat)>) {
    && |ws| == |starts|
    && (forall i :: 0 <= i < |ws| ==> ws[i].0 == starts[i] && ws[i].0 <= ws[i].1 <= |text|)
    && (forall i :: 0 <= i < |ws| - 1 ==> ws[i].1 == ws[i + 1].0)
    && (ws != [] ==> ws[|ws| - 1].1 == |text|)
  }

  /** The windows between the breaks, the first from the beginning, the last to the end. */
  ghost predicate BetweenBreaks(text: string, breaks: seq<(nat, nat)>, ws: seq<(nat, nat)>) {
    && |ws| == |breaks| + 1
    && (forall i :: 0 <= i < |ws| ==> ws[i].0 <= ws[i].1 <= |text|)
    && ws[0].0 == 0 && ws[|breaks|].1 == |text|
    && (forall i :: 0 <= i < |breaks| ==> ws[i].1 == breaks[i].0 && ws[i + 1].0 == breaks[i].1)
  }

  /** The windows stripped, the empty ones dropped, in order. */
  ghost function Stripped(text: string, ws: seq<(nat, nat)>): seq<string>
    requires forall i :: 0 <= i < |ws| ==> ws[i].0 <= ws[i].1 <= |text|
  {
    if ws == [] then []
    else
      var before, s := Stripped(text, ws[..|ws| - 1]), Strip(text[ws[|ws| - 1].0..ws[|ws| - 1].1]);
      if s == "" then before else before + [s]
  }

  lemma {:induction false} SectionsUpTo(text: string, starts: seq<nat>, ws: seq<(nat, nat)>, k: nat)
    requires Starts(starts, text) && Tiles(text, starts, ws) && k <= |starts|
    ensures Sections(text, starts, k) == Stripped(text, ws[..k])
  {
    if k > 0 {
      SectionsUpTo(text, starts, ws, k - 1);
      assert ws[..k][..k - 1] == ws[..k - 1];
      assert ws[k - 1].1 == SectionEnd(text, starts, k - 1);
    }
  }

  /** Sections are the tiles from the first match on, so none spans a match. */
  lemma SectionsAreTiles(text: string, starts: seq<nat>, ws: seq<(nat, nat)>)
    requires Starts(starts, text) && Tiles(text, starts, ws)
    ensures Sections(text, starts, |starts|) == Stripped(text, ws)
  {
    SectionsUpTo(text, starts, ws, |starts|);
    assert ws[..|starts|] == ws;
  }

  lemma {:induction false} ParagraphsUpTo(text: string, m: Matches, ws: seq<(nat, nat)>, k: nat)
    requires m.For(text) && BetweenBreaks(text, m.breaks, ws) && k <= |ws|
    ensures Paragraphs(text, m, k) == Stripped(text, ws[..k])
  {
    if k > 0 {
      ParagraphsUpTo(text, m, ws, k - 1);
      assert ws[..k][..k - 1] == ws[..k - 1];
      assert k > 1 ==> ws[k - 2 + 1].0 == m.breaks[k - 2].1;
    }
  }

  lemma ParagraphsAreBetween(text: string, m: Matches, ws: seq<(nat, nat)>)
    requires m.For(text) && BetweenBreaks(text, m.breaks, ws)
    ensures Paragraphs(text, m, |m.breaks| + 1) == Stripped(text, ws)
  {
    ParagraphsUpTo(text, m, ws, |ws|);
    assert ws[..|ws|] == ws;
  }

  lemma {:induction false} StrippedFrom(text: string, ws: seq<(nat, nat)>, p: string)
    requires forall i :: 0 <= i < |ws| ==> ws[i].0 <= ws[i].1 <= |text|
    requires p in Stripped(text, ws)
    ensures p != "" && exists i :: 0 <= i < |ws| && p == Strip(text[ws[i].0..ws[i].1])
  {
    var n := |ws| - 1;
    if p in Stripped(text, ws[..n]) {
      StrippedFrom(text, ws[..n], p);
      var i :| 0 <= i < n && p == Strip(text[ws[..n][i].0..ws[..n][i].1]);
      assert ws[..n][i] == ws[i];
    }
  }

  /** No section reaches past the next match: each lies between its own start and the one after. */
  lemma NoSectionSpansAMatch(text: string, starts: seq<nat>, ws: seq<(nat, nat)>, p: string)
    requires Starts(starts, text) && Tiles(text, starts, ws) && p in Sections(text, starts, |starts|)
    ensures exists i :: 0 <= i < |starts| && p == Strip(text[starts[i]..ws[i].1])
              && forall j :: i < j < |starts| ==> ws[i].1 <= starts[j]
  {
    SectionsAreTiles(text, starts, ws);
    StrippedFrom(text, ws, p);
    var i :| 0 <= i < |ws| && p == Strip(text[ws[i].0..ws[i].1]);
    forall j | i < j < |starts| ensures ws[i].1 <= starts[j] {
      StartsAscend(text, starts, i + 1, j);
    }
  }

  lemma {:induction false} StartsAscend(text: string, starts: seq<nat>, i: nat, j: nat)
    requires Starts(starts, text) && i <= j < |starts|
    ensures starts[i] <= starts[j]
    decreases j - i
  {
    if i < j {
      StartsAscend(text, starts, i, j - 1);
    }
  }

  ghost function TextOf(text: string, ws: seq<(nat, nat)>): string
    requires forall i :: 0 <= i < |ws| ==> ws[i].0 <= ws[i].1 <= |text|
  {
    if ws == [] then ""
    else TextOf(text, ws[..|ws| - 1]) + text[ws[|ws| - 1].0..ws[|ws| - 1].1]
  }

  lemma {:induction false} TilesUpTo(text: string, starts: seq<nat>, ws: seq<(nat, nat)>, k: nat)
    requires Tiles(text, starts, ws) && 0 < k <= |ws|
    ensures starts[0] <= ws[k - 1].1 && TextOf(text, ws[..k]) == text[starts[0]..ws[k - 1].1]
  {
    assert ws[..k][..k - 1] == ws[..k - 1];
    if k > 1 {
      TilesUpTo(text, starts, ws, k - 1);
    } else {
      assert ws[..0] == [];
    }
  }

  /** Unstripped, the sections are the text from the first match on. */
  lemma SectionsCoverTheRest(text: string, starts: seq<nat>, ws: seq<(nat, nat)>)
    requires Tiles(text, starts, ws) && starts != []
    ensures TextOf(text, ws) == text[starts[0]..]
  {
    TilesUpTo(text, starts, ws, |ws|);
    assert ws[..|ws|] == ws;
  }

  // ---- The hybrid chunker ------------------------------------------------------------------------

  lemma StrategyTable(h: HybridChunker, fileType: string)
    ensures h.primary.Some? ==> h.StrategyFor(fileType) == h.primary.value
    ensures h.primary.None? ==>
              && (h.StrategyFor(fileType) == MarkdownHeading <==> fileType == "md")
              && (h.StrategyFor(fileType) == CodeFunction <==> fileType in ["py", "go", "java", "js", "ts"])
              && h.StrategyFor(fileType) != TokenCap
  {
  }

  /** The pieces by strategy; without a match, headings and definitions fall back to paragraphs. */
  lemma PrimaryPieces(h: HybridChunker, text: string, m: Matches, ws: seq<(nat, nat)>)
    requires m.For(text)
    ensures m.headings != [] && Tiles(text, m.headings, ws) ==>
              h.Primary(text, MarkdownHeading, m) == Stripped(text, ws)
    ensures m.definitions != [] && Tiles(text, m.definitions, ws) ==>
              h.Primary(text, CodeFunction, m) == Stripped(text, ws)
    ensures BetweenBreaks(text, m.breaks, ws) ==>
              && h.Primary(text, Paragraph, m) == Stripped(text, ws)
              && (m.headings == [] ==> h.Primary(text, MarkdownHeading, m) == Stripped(text, ws))
              && (m.definitions == [] ==> h.Primary(text, CodeFunction, m) == Stripped(text, ws))
  {
    if Tiles(text, m.headings, ws) {
      SectionsAreTiles(text, m.headings, ws);
    }
    if Tiles(text, m.definitions, ws) {
      SectionsAreTiles(text, m.definitions, ws);
    }
    if BetweenBreaks(text, m.breaks, ws) {
      ParagraphsAreBetween(text, m, ws);
    }
  }

  ghost predicate CanFit(h: HybridChunker, pieces: seq<string>) {
    forall p :: p in pieces && CountTokens(p) > h.maxTokens ==> SplitReturns(p, h.maxTokens, h.overlapTokens)
  }

  /** A piece within the limit stays as it is, any other is cut with the overlap. */
  ghost function FittedPiece(h: HybridChunker, p: string): seq<string>
    requires CountTokens(p) > h.maxTokens ==> SplitReturns(p, h.maxTokens, h.overlapTokens)
  {
    if 4 * (h.maxTokens + 1) <= |p| || h.maxTokens == 0 then SplitSpec(p, h.maxTokens, h.overlapTokens) else [p]
  }

  /** Each piece is fitted on its own, after those before it. */
  lemma FittedSnoc(h: HybridChunker, pieces: seq<string>, p: string)
    requires CanFit(h, pieces + [p])
    ensures CanFit(h, pieces) && (CountTokens(p) > h.maxTokens ==> SplitReturns(p, h.maxTokens, h.overlapTokens))
    ensures h.Fitted([]) == []
    ensures h.Fitted(pieces + [p]) == h.Fitted(pieces) + FittedPiece(h, p)
  {
    assert p in pieces + [p] && forall q :: q in pieces ==> q in pieces + [p];
    assert (pieces + [p])[..|pieces|] == pieces;
    TokensOf(p);
  }

  /** A chunk for every piece that is not blank, in order, marked with the primary strategy. */
  lemma {:induction false} ChunksAppend(h: HybridChunker, a: seq<string>, b: seq<string>, strategy: Strategy)
    ensures h.Chunks(a + b, strategy) == h.Chunks(a, strategy) + h.Chunks(b, strategy)
  {
    if b == [] {
      assert a + b == a;
    } else {
      assert (a + b)[..|a + b| - 1] == a + b[..|b| - 1];
      ChunksAppend(h, a, b[..|b| - 1], strategy);
    }
  }

  lemma ChunkOfOne(h: HybridChunker, p: string, strategy: Strategy)
    ensures Strip(p) == "" ==> h.Chunks([p], strategy) == []
    ensures Strip(p) != "" ==>
              |h.Chunks([p], strategy)| == 1 && h.Chunks([p], strategy)[0].content == p
              && h.Chunks([p], strategy)[0].strategy == strategy
  {
    BlankIsStripped(p);
    assert [p][..0] == [];
  }
}
