/** What incremental syncs never make good: rows and links missed once, and runs that miss them. */
module LostRows {
  import opened Options
  import opened Tables
  import opened Mirror
  import opened MirrorLaws
  import opened IncrementalSync
  import opened UpToDate

  /** No row for the assignment; no link on the issue. */
  predicate Lacks(src: Source, m: Mirror, p: Payload)
    requires src != Iterations && Valid(src, p)
  {
    if src == Assignments then
      !(p["issue_id"].text in m.issues.rows && RowKey(m, p) in m.assignments.rows)
    else
      !(p["id"].text in m.issues.rows && m.issues.rows[p["id"].text].content.iteration.Some?)
  }

  predicate SameRow(src: Source, p: Payload, q: Payload)
    requires Valid(src, p)
  {
    Valid(src, q) && KeyOf(src, q) == KeyOf(src, p)
  }

  predicate Passed(cursor: Option<int>, x: Item) {
    cursor.Some? && x.updatedAt <= cursor.value
  }

  lemma {:induction false} NoAssignmentWrite(m: Mirror, ps: seq<Payload>, p: Payload)
    requires ValidAssignment(p) && IdsOk(m.issues) && p["issue_id"].text in m.issues.rows
    requires forall q: Payload :: q in ps ==> !SameRow(Assignments, p, q)
    ensures LastWrite(AssignmentWrites(m.issues, m.people, ps), RowKey(m, p)) == None
  {
    if ps != [] {
      var init, q := ps[..|ps| - 1], ps[|ps| - 1];
      NoAssignmentWrite(m, init, p);
      assert q in ps && !SameRow(Assignments, p, q);
    }
  }

  lemma {:induction false} NoIssueWrite(its: Table<string, Iteration>, ps: seq<Payload>, p: Payload)
    requires ValidIssue(p) && forall q: Payload :: q in ps ==> !SameRow(Issues, p, q)
    ensures LastWrite(IssueWrites(its, ps), p["id"].text) == None
  {
    if ps != [] {
      var init, q := ps[..|ps| - 1], ps[|ps| - 1];
      NoIssueWrite(its, init, p);
      assert q in ps && !SameRow(Issues, p, q);
    }
  }

  /** Only a payload about the row itself mends it; an issue or iteration that comes later does not. */
  lemma BatchMendsNothing(batch: Source, m: Mirror, ps: seq<Payload>, src: Source, p: Payload)
    requires src != Iterations && Valid(src, p) && References(m) && Lacks(src, m, p)
    requires batch == src ==> forall q: Payload :: q in ps ==> !SameRow(src, p, q)
    requires UpsertAll(batch, Open(m), ps).tx.Open?
    ensures Lacks(src, UpsertAll(batch, Open(m), ps).tx.m, p)
  {
    BatchIsWrites(batch, m, ps);
    BatchKeepsReferences(batch, m, ps);
    if batch == src {
      if src == Issues {
        NoIssueWrite(m.iterations, ps, p);
        PutAllMeaning(m.issues, IssueWrites(m.iterations, ps), p["id"].text);
      } else if p["issue_id"].text in m.issues.rows {
        NoAssignmentWrite(m, ps, p);
        PutAllMeaning(m.assignments, AssignmentWrites(m.issues, m.people, ps), RowKey(m, p));
      }
    }
  }

  ghost predicate OnlyItemFor(src: Source, r: Remote, x: Item)
    requires Valid(src, x.payload)
  {
    forall id :: id in r.items && SameRow(src, x.payload, r.items[id].payload) ==> r.items[id] == x
  }

  /** The cursor has passed the item, and the mirror lacks its row or its link. */
  ghost predicate Stuck(s: State, src: Source, x: Item)
    requires src != Iterations && Valid(src, x.payload)
  {
    && src in s.remote && OnlyItemFor(src, s.remote[src], x)
    && Passed(CursorOf(s.store.cursors, src), x) && Lacks(src, s.store.mirror, x.payload)
    && (s.session.Some? ==> !s.full && SessionStuck(s.session.value, src, x))
  }

  ghost predicate SessionStuck(s: Sess, src: Source, x: Item)
    requires src != Iterations && Valid(src, x.payload)
  {
    && Passed(CursorOf(s.cursors, src), x)
    && (src in s.newCursors ==> x.updatedAt <= s.newCursors[src])
    && (s.tx.Open? ==> Lacks(src, s.tx.m, x.payload))
  }

  /** Neither a full sync nor news about the row. */
  predicate LeavesAlone(ev: Event, src: Source, x: Item)
    requires Valid(src, x.payload)
  {
    && (ev.Start? ==> !ev.full)
    && (ev.Change? && ev.src == src ==> !SameRow(src, x.payload, ev.item.payload))
  }

  /** An honest answer to a cursor that has passed `x` says nothing about its row. */
  lemma NotAnswered(src: Source, r: Remote, cursor: Option<int>, items: seq<Item>, x: Item)
    requires Valid(src, x.payload) && OnlyItemFor(src, r, x)
    requires Honours(r, cursor, items) && Passed(cursor, x)
    ensures forall q: Payload :: q in Payloads(items) ==> !SameRow(src, x.payload, q)
    ensures items != [] ==> x.updatedAt <= MaxUpdated(items)
  {
    forall q: Payload | q in Payloads(items) ensures !SameRow(src, x.payload, q) {
      PayloadFrom(items, q);
      var y :| y in items && y.payload == q;
      assert y.updatedAt > cursor.value;
    }
    if items != [] {
      assert items[0] in items && items[0].updatedAt > cursor.value;
    }
  }

  lemma FetchStepStuck(s: Sess, batch: Source, items: seq<Item>, src: Source, x: Item)
    requires src != Iterations && Valid(src, x.payload) && SessionStuck(s, src, x) && TxOk(s.tx)
    requires batch == src ==>
               && (forall q: Payload :: q in Payloads(items) ==> !SameRow(src, x.payload, q))
               && (items != [] ==> x.updatedAt <= MaxUpdated(items))
    ensures SessionStuck(FetchStep(s, batch, Some(items)), src, x)
  {
    if s.tx.Open? && UpsertAll(batch, s.tx, Payloads(items)).tx.Open? {
      BatchMendsNothing(batch, s.tx.m, Payloads(items), src, x.payload);
    }
  }

  lemma FetchKeepsStuck(s: State, items: seq<Item>, src: Source, x: Item)
    requires src != Iterations && Valid(src, x.payload)
    requires Inv(s) && Stuck(s, src, x) && Enabled(s, FetchOk(items))
    ensures Stuck(Next(s, FetchOk(items)), src, x)
  {
    var batch, sess := SourceAt(s.stage), s.session.value;
    if batch == src {
      NotAnswered(src, s.remote[src], CursorOf(sess.cursors, src), items, x);
    }
    FetchStepStuck(sess, batch, items, src, x);
  }

  lemma StepKeepsStuck(s: State, ev: Event, src: Source, x: Item)
    requires src != Iterations && Valid(src, x.payload) && Inv(s) && Stuck(s, src, x)
    requires Enabled(s, ev) && LeavesAlone(ev, src, x)
    ensures Stuck(Next(s, ev), src, x)
  {
    if ev.FetchOk? {
      FetchKeepsStuck(s, ev.items, src, x);
    }
  }

  lemma {:induction false} StuckAlong(states: seq<State>, evs: seq<Event>, k: nat, src: Source, x: Item)
    requires Trace(states, evs) && Inv(states[0]) && k < |states|
    requires src != Iterations && Valid(src, x.payload) && Stuck(states[0], src, x)
    requires forall ev :: ev in evs ==> LeavesAlone(ev, src, x)
    ensures Stuck(states[k], src, x)
  {
    if k > 0 {
      StuckAlong(states, evs, k - 1, src, x);
      InvAlong(states, evs, k - 1);
      assert evs[k - 1] in evs;
      StepKeepsStuck(states[k - 1], evs[k - 1], src, x);
    }
  }

  /**
   * An assignment passed by the cursor without a row, because its issue was not stored when it was
   * fetched, stays without one through every sequence of incremental syncs, whatever else changes,
   * its issue's arrival included, until its own item changes or a full sync is run.
   */
  lemma SkippedAssignmentStaysMissing(states: seq<State>, evs: seq<Event>, k: nat, x: Item)
    requires Trace(states, evs) && Inv(states[0]) && k < |states|
    requires ValidAssignment(x.payload) && Stuck(states[0], Assignments, x)
    requires forall ev :: ev in evs ==> LeavesAlone(ev, Assignments, x)
    ensures Stuck(states[k], Assignments, x) && !Shows(Assignments, states[k].store.mirror, x.payload)
  {
    StuckAlong(states, evs, k, Assignments, x);
  }

  /** Likewise an issue passed by the cursor without its link stays unlinked. */
  lemma UnlinkedIssueStaysUnlinked(states: seq<State>, evs: seq<Event>, k: nat, x: Item)
    requires Trace(states, evs) && Inv(states[0]) && k < |states|
    requires ValidIssue(x.payload) && Stuck(states[0], Issues, x)
    requires forall ev :: ev in evs ==> LeavesAlone(ev, Issues, x)
    ensures var rows := states[k].store.mirror.issues.rows;
            x.payload["id"].text in rows ==> rows[x.payload["id"].text].content.iteration.None?
  {
    StuckAlong(states, evs, k, Issues, x);
  }

  // ---- How they come about -----------------------------------------------------------------------

  /** `evs` lead from `s` to `t`. */
  ghost predicate Leads(s: State, evs: seq<Event>, t: State)
    decreases |evs|
  {
    if evs == [] then s == t else Enabled(s, evs[0]) && Leads(Next(s, evs[0]), evs[1..], t)
  }

  lemma {:induction false} LeadsIsATrace(s: State, evs: seq<Event>, t: State) returns (states: seq<State>)
    requires Leads(s, evs, t)
    ensures Trace(states, evs) && states[0] == s && states[|evs|] == t
    decreases |evs|
  {
    if evs == [] {
      states := [s];
    } else {
      var rest := LeadsIsATrace(Next(s, evs[0]), evs[1..], t);
      states := [s] + rest;
      forall i | 0 <= i < |evs| ensures Enabled(states[i], evs[i]) && states[i + 1] == Next(states[i], evs[i]) {
        if i > 0 {
          assert evs[1..][i - 1] == evs[i];
        }
      }
    }
  }

  lemma {:induction false} LeadsOn(s: State, a: seq<Event>, t: State, b: seq<Event>, u: State)
    requires Leads(s, a, t) && Leads(t, b, u)
    ensures Leads(s, a + b, u)
    decreases |a|
  {
    if a == [] {
      assert a + b == b;
    } else {
      assert (a + b)[1..] == a[1..] + b;
      LeadsOn(Next(s, a[0]), a[1..], t, b, u);
    }
  }

  lemma LeadsCons(s: State, ev: Event, evs: seq<Event>, t: State)
    requires Enabled(s, ev) && Leads(Next(s, ev), evs, t)
    ensures Leads(s, [ev] + evs, t)
  {
    assert ([ev] + evs)[1..] == evs;
  }

  /** An incremental sync under way. */
  function Midway(s: State, sess: Sess, stage: nat): State {
    State(s.remote, s.store, Some(sess), false, stage)
  }

  lemma FetchLeads(s: State, sess: Sess, stage: nat, items: seq<Item>, rest: seq<Event>, t: State)
    requires stage < 3 && SourceAt(stage) in s.remote
    requires Honours(s.remote[SourceAt(stage)], CursorOf(sess.cursors, SourceAt(stage)), items)
    requires Leads(Midway(s, FetchStep(sess, SourceAt(stage), Some(items)), stage + 1), rest, t)
    ensures Leads(Midway(s, sess, stage), [FetchOk(items)] + rest, t)
  {
    LeadsCons(Midway(s, sess, stage), FetchOk(items), rest, t);
  }

  function LastEvents(): seq<Event> {
    [Finish(None, true), Commit(true)]
  }

  /** One incremental sync that goes through, with its three answers. */
  function SyncEvents(a: seq<Item>, b: seq<Item>, c: seq<Item>): seq<Event> {
    [Start(false)] + ([FetchOk(a)] + ([FetchOk(b)] + ([FetchOk(c)] + LastEvents())))
  }

  /** After the cursors are written and all is committed. */
  function Ended(s: State, f: Sess): State {
    State(s.remote, CommitStep(s.store, FinishStep(f, true), true), None, false, 4)
  }

  ghost function AfterSync(s: State, a: seq<Item>, b: seq<Item>, c: seq<Item>): State {
    var f := FetchStep(FetchStep(Begin(s.store), Iterations, Some(a)), Issues, Some(b));
    Ended(s, FetchStep(f, Assignments, Some(c)))
  }

  lemma EndLeads(s: State, f: Sess)
    ensures Leads(Midway(s, f, 3), LastEvents(), Ended(s, f))
  {
    var done := Midway(s, FinishStep(f, true), 4);
    assert Leads(Ended(s, f), [], Ended(s, f));
    LeadsCons(done, Commit(true), [], Ended(s, f));
    LeadsCons(Midway(s, f, 3), Finish(None, true), [Commit(true)], Ended(s, f));
    assert [Commit(true)] + [] == [Commit(true)];
    assert [Finish(None, true)] + [Commit(true)] == LastEvents();
  }

  lemma ThirdLeads(s: State, sess: Sess, c: seq<Item>)
    requires Assignments in s.remote
    requires Honours(s.remote[Assignments], CursorOf(sess.cursors, Assignments), c)
    ensures Leads(Midway(s, sess, 2), [FetchOk(c)] + LastEvents(), Ended(s, FetchStep(sess, Assignments, Some(c))))
  {
    var f := FetchStep(sess, Assignments, Some(c));
    EndLeads(s, f);
    FetchLeads(s, sess, 2, c, LastEvents(), Ended(s, f));
  }

  lemma SecondLeads(s: State, sess: Sess, b: seq<Item>, c: seq<Item>, t: State)
    requires Issues in s.remote
    requires Honours(s.remote[Issues], CursorOf(sess.cursors, Issues), b)
    requires Leads(Midway(s, FetchStep(sess, Issues, Some(b)), 2), [FetchOk(c)] + LastEvents(), t)
    ensures Leads(Midway(s, sess, 1), [FetchOk(b)] + ([FetchOk(c)] + LastEvents()), t)
  {
    FetchLeads(s, sess, 1, b, [FetchOk(c)] + LastEvents(), t);
  }

  lemma FirstLeads(s: State, a: seq<Item>, rest: seq<Event>, t: State)
    requires s.session.None? && Iterations in s.remote
    requires Honours(s.remote[Iterations], CursorOf(s.store.cursors, Iterations), a)
    requires Leads(Midway(s, FetchStep(Begin(s.store), Iterations, Some(a)), 1), rest, t)
    ensures Leads(s, [Start(false)] + ([FetchOk(a)] + rest), t)
  {
    FetchLeads(s, Begin(s.store), 0, a, rest, t);
    LeadsCons(s, Start(false), [FetchOk(a)] + rest, t);
  }

  lemma FetchKeepsCursors(s: Sess, src: Source, r: Option<seq<Item>>)
    ensures FetchStep(s, src, r).cursors == s.cursors
  {
  }

  /** An undisturbed sync over honest answers is a trace of the protocol. */
  lemma WholeSync(s: State, a: seq<Item>, b: seq<Item>, c: seq<Item>)
    requires s.session.None? && Iterations in s.remote && Issues in s.remote && Assignments in s.remote
    requires Honours(s.remote[Iterations], CursorOf(s.store.cursors, Iterations), a)
    requires Honours(s.remote[Issues], CursorOf(s.store.cursors, Issues), b)
    requires Honours(s.remote[Assignments], CursorOf(s.store.cursors, Assignments), c)
    ensures Leads(s, SyncEvents(a, b, c), AfterSync(s, a, b, c))
  {
    var s1 := FetchStep(Begin(s.store), Iterations, Some(a));
    var s2 := FetchStep(s1, Issues, Some(b));
    FetchKeepsCursors(Begin(s.store), Iterations, Some(a));
    FetchKeepsCursors(s1, Issues, Some(b));
    ThirdLeads(s, s2, c);
    SecondLeads(s, s1, b, c, AfterSync(s, a, b, c));
    FirstLeads(s, a, [FetchOk(b)] + ([FetchOk(c)] + LastEvents()), AfterSync(s, a, b, c));
  }

  // ---- Two inputs --------------------------------------------------------------------------------

  function EmptyMirror(people: map<string, nat>): Mirror {
    Mirror(Table(map[], 0), Table(map[], 0), Table(map[], 0), people)
  }

  /** Nothing is mirrored yet, and the remote holds one item. */
  function Beginning(people: map<string, nat>, src: Source, x: Item): State {
    var none := Remote(map[], 0);
    var all := map[Iterations := none, Issues := none, Assignments := none];
    State(all[src := Remote(map[x.id := x], x.updatedAt)], Store(EmptyMirror(people), map[], {}), None, false, 0)
  }

  lemma BeginningInv(people: map<string, nat>, src: Source, x: Item)
    ensures Inv(Beginning(people, src, x))
  {
  }

  lemma OneStep(src: Source, tx: Tx, p: Payload)
    ensures UpsertAll(src, tx, [p]).tx == UpsertStep(src, tx, p).0
    ensures UpsertAll(src, tx, []).tx == tx
  {
    assert [p][..0] == [];
    assert UpsertAll(src, tx, []) == Batch(tx, 0, []);
  }

  /** A fetch that brings nothing. */
  lemma EmptyFetch(s: Sess, src: Source)
    requires !s.failed && s.tx.Open?
    ensures var t := FetchStep(s, src, Some([]));
            && t.tx == s.tx && t.cursors == s.cursors && t.newCursors == s.newCursors
            && t.handed == s.handed && !t.failed
  {
    assert Payloads([]) == [];
    OneStep(src, s.tx, map[]);
    assert (set x: Item | x in [] :: (src, x)) == {};
  }

  lemma SingleFetch(s: Sess, src: Source, x: Item)
    requires !s.failed && s.tx.Open?
    ensures var t := FetchStep(s, src, Some([x]));
            && t.tx == UpsertStep(src, s.tx, x.payload).0 && t.cursors == s.cursors
            && t.newCursors == s.newCursors[src := x.updatedAt]
            && t.handed == s.handed + {(src, x)} && !t.failed
  {
    assert Payloads([x]) == [x.payload];
    OneStep(src, s.tx, x.payload);
    assert (set y | y in [x] :: (src, y)) == {(src, x)};
  }

  /** The one answer of a sync in which a single source has news. */
  function Only(src: Source, at: Source, x: Item): seq<Item> {
    if src == at then [x] else []
  }

  /** `x` is the only news on the remote, and it is of source `src`. */
  ghost predicate OnlyNews(s: State, src: Source, x: Item) {
    && Iterations in s.remote && Issues in s.remote && Assignments in s.remote
    && forall at :: at in s.remote ==> Honours(s.remote[at], CursorOf(s.store.cursors, at), Only(src, at, x))
  }

  function FirstSync(src: Source, x: Item): seq<Event> {
    SyncEvents(Only(src, Iterations, x), Only(src, Issues, x), Only(src, Assignments, x))
  }

  /** The session of a sync in which a single source has news. */
  lemma FetchNews(st: Store, src: Source, x: Item)
    requires UpsertStep(src, Open(st.mirror), x.payload).0.Open?
    ensures var s1 := FetchStep(Begin(st), Iterations, Some(Only(src, Iterations, x)));
            var s2 := FetchStep(s1, Issues, Some(Only(src, Issues, x)));
            var f := FetchStep(s2, Assignments, Some(Only(src, Assignments, x)));
            && f.tx == UpsertStep(src, Open(st.mirror), x.payload).0 && !f.failed
            && f.cursors == st.cursors && f.newCursors == map[src := x.updatedAt]
            && f.handed == st.handed + {(src, x)}
  {
    var s0 := Begin(st);
    match src {
      case Iterations =>
        SingleFetch(s0, Iterations, x);
        var s1 := FetchStep(s0, Iterations, Some([x]));
        EmptyFetch(s1, Issues);
        EmptyFetch(FetchStep(s1, Issues, Some([])), Assignments);
      case Issues =>
        EmptyFetch(s0, Iterations);
        var s1 := FetchStep(s0, Iterations, Some([]));
        SingleFetch(s1, Issues, x);
        EmptyFetch(FetchStep(s1, Issues, Some([x])), Assignments);
      case Assignments =>
        EmptyFetch(s0, Iterations);
        var s1 := FetchStep(s0, Iterations, Some([]));
        EmptyFetch(s1, Issues);
        SingleFetch(FetchStep(s1, Issues, Some([])), Assignments, x);
    }
  }

  lemma SyncOfOne(s: State, src: Source, x: Item) returns (t: State)
    requires s.session.None? && OnlyNews(s, src, x)
    requires UpsertStep(src, Open(s.store.mirror), x.payload).0.Open?
    ensures Leads(s, FirstSync(src, x), t) && t.remote == s.remote && t.session.None?
    ensures t.store == Store(UpsertStep(src, Open(s.store.mirror), x.payload).0.m,
                             WriteCursors(s.store.cursors, map[src := x.updatedAt]),
                             s.store.handed + {(src, x)})
  {
    FetchNews(s.store, src, x);
    t := AfterSync(s, Only(src, Iterations, x), Only(src, Issues, x), Only(src, Assignments, x));
    WholeSync(s, Only(src, Iterations, x), Only(src, Issues, x), Only(src, Assignments, x));
  }

  /** The events: a sync that sees `x`, the arrival of `y`, a sync that sees `y`. */
  function LateArrival(src: Source, x: Item, other: Source, y: Item): seq<Event> {
    FirstSync(src, x) + ([Change(other, y)] + FirstSync(other, y))
  }

  lemma FirstRun(people: map<string, nat>, src: Source, x: Item) returns (mid: State)
    requires UpsertStep(src, Open(EmptyMirror(people)), x.payload).0.Open?
    ensures Leads(Beginning(people, src, x), FirstSync(src, x), mid)
    ensures mid.remote == Beginning(people, src, x).remote && mid.session.None?
    ensures mid.store.mirror == UpsertStep(src, Open(EmptyMirror(people)), x.payload).0.m
    ensures mid.store.cursors == map[src := Some(x.updatedAt)]
  {
    var start := Beginning(people, src, x);
    forall at | at in start.remote ensures Honours(start.remote[at], None, Only(src, at, x)) {
    }
    mid := SyncOfOne(start, src, x);
  }

  lemma SecondRun(people: map<string, nat>, src: Source, x: Item, other: Source, y: Item, mid: State)
    returns (end: State)
    requires src != other && y.updatedAt > 0 && mid.session.None?
    requires mid.remote == Beginning(people, src, x).remote && mid.store.cursors == map[src := Some(x.updatedAt)]
    requires UpsertStep(other, Open(mid.store.mirror), y.payload).0.Open?
    ensures Leads(mid, [Change(other, y)] + FirstSync(other, y), end) && end.session.None?
    ensures end.store.mirror == UpsertStep(other, Open(mid.store.mirror), y.payload).0.m
  {
    assert Enabled(mid, Change(other, y));
    var changed := Next(mid, Change(other, y));
    forall at | at in changed.remote
      ensures Honours(changed.remote[at], CursorOf(changed.store.cursors, at), Only(other, at, y))
    {
    }
    end := SyncOfOne(changed, other, y);
    LeadsCons(mid, Change(other, y), FirstSync(other, y), end);
  }

  /** From an empty mirror: first `x` is synced, then `y` appears and is synced. */
  lemma LateArrivalRuns(people: map<string, nat>, src: Source, x: Item, other: Source, y: Item)
    returns (mid: State, end: State)
    requires src != other && y.updatedAt > 0
    requires UpsertStep(src, Open(EmptyMirror(people)), x.payload).0.Open?
    requires var m := UpsertStep(src, Open(EmptyMirror(people)), x.payload).0.m;
             UpsertStep(other, Open(m), y.payload).0.Open?
    ensures Leads(Beginning(people, src, x), FirstSync(src, x), mid)
    ensures Leads(Beginning(people, src, x), LateArrival(src, x, other, y), end)
    ensures mid.remote == Beginning(people, src, x).remote && mid.session.None? && end.session.None?
    ensures var m := UpsertStep(src, Open(EmptyMirror(people)), x.payload).0.m;
            && mid.store.mirror == m
            && mid.store.cursors == map[src := Some(x.updatedAt)]
            && end.store.mirror == UpsertStep(other, Open(m), y.payload).0.m
  {
    mid := FirstRun(people, src, x);
    end := SecondRun(people, src, x, other, y, mid);
    LeadsOn(Beginning(people, src, x), FirstSync(src, x), mid, [Change(other, y)] + FirstSync(other, y), end);
  }

  /**
   * An honest run that loses an assignment: it is synced before its issue exists; then the issue
   * appears and is synced, and still there is no row.
   */
  lemma SkippedAssignmentExample(people: map<string, nat>, x: Item, y: Item) returns (mid: State, end: State)
    requires ValidAssignment(x.payload) && ValidIssue(y.payload) && y.updatedAt > 0
    requires y.payload["id"].text == x.payload["issue_id"].text
    requires IssueAllowed(IssueOf(Table(map[], 0), y.payload))
    ensures Inv(Beginning(people, Assignments, x))
    ensures Leads(Beginning(people, Assignments, x), FirstSync(Assignments, x), mid) && Stuck(mid, Assignments, x)
    ensures Leads(Beginning(people, Assignments, x), LateArrival(Assignments, x, Issues, y), end)
    ensures x.payload["issue_id"].text in end.store.mirror.issues.rows
    ensures Lacks(Assignments, end.store.mirror, x.payload)
  {
    BeginningInv(people, Assignments, x);
    mid, end := LateArrivalRuns(people, Assignments, x, Issues, y);
  }

  /** Likewise for an issue synced before its iteration exists. */
  lemma UnlinkedIssueExample(people: map<string, nat>, x: Item, y: Item) returns (mid: State, end: State)
    requires ValidIssue(x.payload) && ValidIteration(y.payload) && y.updatedAt > 0
    requires IsText(x.payload, "iteration_id") && y.payload["id"].text == x.payload["iteration_id"].text
    requires IssueAllowed(IssueOf(Table(map[], 0), x.payload)) && IterationAllowed(IterationOf(y.payload))
    ensures Inv(Beginning(people, Issues, x))
    ensures Leads(Beginning(people, Issues, x), FirstSync(Issues, x), mid) && Stuck(mid, Issues, x)
    ensures Leads(Beginning(people, Issues, x), LateArrival(Issues, x, Iterations, y), end)
    ensures x.payload["iteration_id"].text in end.store.mirror.iterations.rows
    ensures x.payload["id"].text in end.store.mirror.issues.rows && Lacks(Issues, end.store.mirror, x.payload)
  {
    BeginningInv(people, Issues, x);
    mid, end := LateArrivalRuns(people, Issues, x, Iterations, y);
  }
}
