/** The review agent: a bounded loop of provider calls and tool rounds over a growing transcript. */
module AgentLoop {
  import opened Options

  /** A requested tool use; a field the provider left out is `None`. */
  datatype ToolUse = ToolUse(id: Option<string>, name: Option<string>, input: string)

  datatype ToolResult = ToolResult(toolUseId: string, content: string, isError: bool)

  datatype Role = User | Assistant

  datatype Content = Text(text: string) | Results(results: seq<ToolResult>)

  datatype Message = Message(role: Role, content: Content)

  datatype Response = Response(content: Option<string>, endTurn: bool, toolUses: seq<ToolUse>)

  datatype ToolOutcome = Output(text: string) | Raises(error: string)

  /**
   * The outside world: what the provider answers to a transcript in a round (`None` is an
   * exception), what the `i`th tool of a round does, and what is read out of the final text.
   */
  datatype World<!F> = World(
    provider: (nat, seq<Message>) -> Option<Response>,
    tools: (nat, nat) -> ToolOutcome,
    parse: Option<string> -> Option<seq<F>>)

  const OUTPUT_LIMIT := 8000

  function Clip(s: string): string {
    if |s| > OUTPUT_LIMIT then s[..OUTPUT_LIMIT] else s
  }

  /** The one result of a tool use; without an id there is none, and the loop crashes. */
  function ResultFor(tu: ToolUse, o: ToolOutcome): (r: ToolResult)
    requires tu.id.Some?
    ensures r.toolUseId == tu.id.value
    ensures r.isError <==> tu.name.None? || o.Raises?
    ensures !r.isError ==> |r.content| <= OUTPUT_LIMIT && r.content <= o.text
  {
    if tu.name.None? then ToolResult(tu.id.value, "(tool error: 'name')", true)
    else
      match o
      case Output(text) => ToolResult(tu.id.value, Clip(text), false)
      case Raises(e) => ToolResult(tu.id.value, "(tool error: " + e + ")", true)
  }

  predicate AllHaveIds(uses: seq<ToolUse>) {
    forall i :: 0 <= i < |uses| ==> uses[i].id.Some?
  }

  function ResultsOf<F>(w: World<F>, round: nat, uses: seq<ToolUse>): (rs: seq<ToolResult>)
    requires AllHaveIds(uses)
    ensures |rs| == |uses|
  {
    seq(|uses|, i requires 0 <= i < |uses| => ResultFor(uses[i], w.tools(round, i)))
  }

  datatype Ending = Answered(text: Option<string>) | MaxIter | Crashed

  /** What is left of a run from a transcript: its ending, the final transcript, the calls made. */
  ghost function LoopFrom<F>(w: World<F>, ms: seq<Message>, round: nat, max: nat)
    : (Ending, seq<Message>, nat)
    decreases max - round
  {
    if round >= max then (MaxIter, ms, round)
    else
      var r := w.provider(round, ms);
      if r.None? then (Crashed, ms, round + 1)
      else
        var said := ms + [Message(Assistant, Text(if r.value.content.Some? then r.value.content.value else ""))];
        if r.value.endTurn || r.value.toolUses == [] then (Answered(r.value.content), said, round + 1)
        else if !AllHaveIds(r.value.toolUses) then (Crashed, said, round + 1)
        else
          LoopFrom(w, said + [Message(User, Results(ResultsOf(w, round, r.value.toolUses)))], round + 1, max)
  }

  class Transcript {
    var messages: seq<Message>

    constructor (first: string)
      ensures messages == [Message(User, Text(first))]
    {
      messages := [Message(User, Text(first))];
    }
  }

  /** The results of one round, in order; false if a use has no id. */
  method RunTools<F>(w: World<F>, round: nat, uses: seq<ToolUse>)
    returns (ok: bool, results: seq<ToolResult>)
    ensures ok == AllHaveIds(uses)
    ensures ok ==> results == ResultsOf(w, round, uses)
  {
    results := [];
    for i := 0 to |uses|
      invariant AllHaveIds(uses[..i])
      invariant |results| == i
      invariant forall k :: 0 <= k < i ==> results[k] == ResultFor(uses[k], w.tools(round, k))
    {
      assert uses[..i + 1] == uses[..i] + [uses[i]];
      if uses[i].id.None? {
        return false, results;
      }
      results := results + [ResultFor(uses[i], w.tools(round, i))];
    }
    assert uses[..|uses|] == uses;
    ok := true;
  }

  method Loop<F>(w: World<F>, t: Transcript, max: nat) returns (ending: Ending, calls: nat)
    modifies t
    ensures (ending, t.messages, calls) == LoopFrom(w, old(t.messages), 0, max)
  {
    calls := 0;
    while calls < max
      invariant calls <= max
      invariant LoopFrom(w, t.messages, calls, max) == LoopFrom(w, old(t.messages), 0, max)
    {
      var round := calls;
      var r := w.provider(round, t.messages);
      calls := calls + 1;
      if r.None? {
        return Crashed, calls;
      }
      var resp := r.value;
      t.messages := t.messages
        + [Message(Assistant, Text(if resp.content.Some? then resp.content.value else ""))];
      if resp.endTurn || resp.toolUses == [] {
        return Answered(resp.content), calls;
      }
      var ok, results := RunTools(w, round, resp.toolUses);
      if !ok {
        return Crashed, calls;
      }
      t.messages := t.messages + [Message(User, Results(results))];
    }
    ending := MaxIter;
  }

  /** Every way out but an answer that parses counts as no findings. */
  method ReviewAll<F>(w: World<F>, prompt: string, max: nat)
    returns (findings: seq<F>, t: Transcript, calls: nat)
    ensures var (e, ms, n) := LoopFrom(w, [Message(User, Text(prompt))], 0, max);
            && t.messages == ms && calls == n
            && findings == (if e.Answered? && w.parse(e.text).Some? then w.parse(e.text).value else [])
  {
    t := new Transcript(prompt);
    var ending;
    ending, calls := Loop(w, t, max);
    findings := [];
    if ending.Answered? {
      var parsed := w.parse(ending.text);
      if parsed.Some? {
        findings := parsed.value;
      }
    }
  }

  // ---- The shape of every transcript -------------------------------------------------------------

  /** Users at the even positions, the assistant at the odd ones. */
  ghost predicate Alternates(ms: seq<Message>) {
    forall i :: 0 <= i < |ms| ==> (ms[i].role == User <==> i % 2 == 0)
  }

  /** Round `r` of the transcript: what the provider was shown and asked for got its answers. */
  ghost predicate RoundMatches<F>(w: World<F>, ms: seq<Message>, r: nat)
    requires 2 * r + 2 < |ms|
  {
    var asked := w.provider(r, ms[..2 * r + 1]);
    && asked.Some? && AllHaveIds(asked.value.toolUses) && !asked.value.endTurn
    && ms[2 * r + 1] == Message(Assistant, Text(SaidText(asked.value.content)))
    && ms[2 * r + 2].content.Results?
    && var rs := ms[2 * r + 2].content.results;
       && |rs| == |asked.value.toolUses| > 0
       && forall i :: 0 <= i < |rs| ==>
            && rs[i].toolUseId == asked.value.toolUses[i].id.value
            && rs[i] == ResultFor(asked.value.toolUses[i], w.tools(r, i))
  }

  /** After `k` complete tool rounds, each of which asked for tools and did not end the turn. */
  ghost predicate Shape<F>(w: World<F>, ms: seq<Message>, k: nat) {
    && |ms| == 1 + 2 * k
    && Alternates(ms)
    && forall r :: 0 <= r < k ==> RoundMatches(w, ms, r)
  }

  lemma ShapeGrows<F>(w: World<F>, ms: seq<Message>, k: nat, text: string, rs: seq<ToolResult>)
    requires Shape(w, ms, k)
    requires w.provider(k, ms).Some? && AllHaveIds(w.provider(k, ms).value.toolUses)
    requires w.provider(k, ms).value.toolUses != [] && !w.provider(k, ms).value.endTurn
    requires text == SaidText(w.provider(k, ms).value.content)
    requires rs == ResultsOf(w, k, w.provider(k, ms).value.toolUses)
    ensures Shape(w, ms + [Message(Assistant, Text(text))] + [Message(User, Results(rs))], k + 1)
  {
    var ns := ms + [Message(Assistant, Text(text))] + [Message(User, Results(rs))];
    assert ns[..2 * k + 1] == ms;
    forall r | 0 <= r < k ensures RoundMatches(w, ns, r) {
      assert ns[..2 * r + 1] == ms[..2 * r + 1];
      assert ns[2 * r + 2] == ms[2 * r + 2];
      assert RoundMatches(w, ms, r);
    }
    assert ns[2 * k + 2] == Message(User, Results(rs));
    var uses := w.provider(k, ms).value.toolUses;
    forall i | 0 <= i < |rs| ensures rs[i].toolUseId == uses[i].id.value {
      assert rs[i] == ResultFor(uses[i], w.tools(k, i));
    }
    assert RoundMatches(w, ns, k);
  }

  function SaidText(content: Option<string>): string {
    if content.Some? then content.value else ""
  }

  /**
   * How a run ends at its last call, shown `ms`: the provider fails and nothing is added; or its
   * text is added, an absent one as empty, and it answers with that text, or is cut off by a tool
   * use without an id.
   */
  ghost predicate EndsAt<F>(w: World<F>, ms: seq<Message>, e: Ending, out: seq<Message>, calls: nat) {
    && 1 <= calls && Shape(w, ms, calls - 1)
    && var r := w.provider(calls - 1, ms);
       if r.None? then e == Crashed && out == ms
       else
         && out == ms + [Message(Assistant, Text(SaidText(r.value.content)))]
         && (r.value.endTurn || r.value.toolUses == [] ==> e == Answered(r.value.content))
         && (!r.value.endTurn && r.value.toolUses != [] ==> e == Crashed && !AllHaveIds(r.value.toolUses))
  }

  /** What holds of the outcome `o` of every run: the bounds, and how it ended. */
  ghost predicate Outcome<F>(w: World<F>, ms: seq<Message>, o: (Ending, seq<Message>, nat), max: nat) {
    && o.2 <= max && Alternates(o.1) && ms <= o.1
    && (o.0.MaxIter? ==> Shape(w, o.1, max) && o.2 == max)
    && (!o.0.MaxIter? ==>
          1 <= o.2 && |o.1| >= 2 * o.2 - 1 && EndsAt(w, o.1[..2 * o.2 - 1], o.0, o.1, o.2))
  }

  ghost predicate Goes<F>(w: World<F>, ms: seq<Message>, k: nat) {
    var r := w.provider(k, ms);
    r.Some? && !r.value.endTurn && r.value.toolUses != [] && AllHaveIds(r.value.toolUses)
  }

  lemma LastCall<F>(w: World<F>, ms: seq<Message>, k: nat, max: nat)
    requires k < max && Shape(w, ms, k) && !Goes(w, ms, k)
    ensures Outcome(w, ms, LoopFrom(w, ms, k, max), max)
  {
    var r := w.provider(k, ms);
    if r.None? {
      assert ms[..2 * k + 1] == ms;
    } else {
      var said := ms + [Message(Assistant, Text(SaidText(r.value.content)))];
      assert said[..2 * k + 1] == ms;
      assert said[2 * k + 1].role == Assistant;
    }
  }

  /**
   * For every provider and every tool behaviour: the provider is called at most `max` times; the
   * transcript alternates, starting with the user; after `k` tool rounds it is 1 + 2k messages
   * long, one more if the assistant spoke last; every tool round has one result per requested use,
   * with its id, in order; and the run ends only after `max` rounds or by its last call.
   */
  lemma {:induction false} TranscriptShape<F>(w: World<F>, ms: seq<Message>, k: nat, max: nat)
    requires k <= max && Shape(w, ms, k)
    ensures Outcome(w, ms, LoopFrom(w, ms, k, max), max)
    decreases max - k
  {
    if k < max {
      if Goes(w, ms, k) {
        var r := w.provider(k, ms).value;
        var text, rs := SaidText(r.content), ResultsOf(w, k, r.toolUses);
        ShapeGrows(w, ms, k, text, rs);
        TranscriptShape(w, ms + [Message(Assistant, Text(text))] + [Message(User, Results(rs))], k + 1, max);
      } else {
        LastCall(w, ms, k, max);
      }
    }
  }

  /** A tool's output is passed on whole up to 8000 characters; an error names its cause. */
  lemma ResultFacts(tu: ToolUse, o: ToolOutcome)
    requires tu.id.Some?
    ensures var r := ResultFor(tu, o);
            && (tu.name.Some? && o.Output? ==>
                  && r.content <= o.text && (|o.text| <= 8000 ==> r.content == o.text)
                  && (|o.text| > 8000 ==> |r.content| == 8000))
            && (tu.name.Some? && o.Raises? ==> r.content == "(tool error: " + o.error + ")")
            && (tu.name.None? ==> r.content == "(tool error: 'name')")
  {
  }
}
