/** When a row of the mirror shows the remote item it came from. */
module UpToDate {
  import opened Options
  import opened Tables
  import opened Mirror
  import opened MirrorLaws
  import opened IncrementalSync

  // ---- What one batch shows ----------------------------------------------------------------------

  predicate Valid(src: Source, p: Payload) {
    match src
    case Iterations => ValidIteration(p)
    case Issues => ValidIssue(p)
    case Assignments => ValidAssignment(p)
  }

  /** What identifies the row of a payload on the PM side. */
  function KeyOf(src: Source, p: Payload): (string, string, string)
    requires Valid(src, p)
  {
    if src == Assignments then (p["issue_id"].text, p["user_id"].text, p["role"].text)
    else (p["id"].text, "", "")
  }

  function RowKey(m: Mirror, p: Payload): AssignmentKey
    requires ValidAssignment(p) && p["issue_id"].text in m.issues.rows
  {
    (m.issues.rows[p["issue_id"].text].id, p["user_id"].text, p["role"].text)
  }

  /** The row is there with the payload's content; an issue's link is as its upsert resolved it. */
  predicate Shows(src: Source, m: Mirror, p: Payload)
    requires Valid(src, p)
  {
    match src
    case Iterations =>
      p["id"].text in m.iterations.rows && m.iterations.rows[p["id"].text].content == IterationOf(p)
    case Issues =>
      && p["id"].text in m.issues.rows
      && var c := m.issues.rows[p["id"].text].content;
         c == IssueOf(m.iterations, p).(iteration := c.iteration)
    case Assignments =>
      && p["issue_id"].text in m.issues.rows && RowKey(m, p) in m.assignments.rows
      && m.assignments.rows[RowKey(m, p)].content == AssignmentOf(m.people, p)
  }

  /** An upsert gets as far as the table. */
  predicate Reaches(src: Source, m: Mirror, p: Payload)
    requires Valid(src, p)
  {
    src == Assignments ==> p["issue_id"].text in m.issues.rows
  }

  /** No two different payloads are about the same row. */
  ghost predicate Consistent(src: Source, ps: seq<Payload>) {
    forall p: Payload, q: Payload ::
      p in ps && q in ps && Valid(src, p) && Valid(src, q) && KeyOf(src, p) == KeyOf(src, q) ==> p == q
  }

  lemma {:induction false} LastIteration(ps: seq<Payload>, p: Payload)
    requires ValidIteration(p) && Consistent(Iterations, ps)
    ensures p in ps ==> LastWrite(IterationWrites(ps), p["id"].text) == Some(IterationOf(p))
    ensures (forall q: Payload :: q in ps && ValidIteration(q) ==> q["id"] != p["id"]) ==>
              LastWrite(IterationWrites(ps), p["id"].text) == None
  {
    if ps != [] {
      var init, q := ps[..|ps| - 1], ps[|ps| - 1];
      LastIteration(init, p);
      assert forall x :: x in ps <==> x in init || x == q;
      assert q in ps && (ValidIteration(q) && p in ps && q["id"].text == p["id"].text ==> q == p);
    }
  }

  lemma {:induction false} LastIssue(its: Table<string, Iteration>, ps: seq<Payload>, p: Payload)
    requires ValidIssue(p) && Consistent(Issues, ps)
    ensures p in ps ==> LastWrite(IssueWrites(its, ps), p["id"].text) == Some(IssueOf(its, p))
    ensures (forall q: Payload :: q in ps && ValidIssue(q) ==> q["id"] != p["id"]) ==>
              LastWrite(IssueWrites(its, ps), p["id"].text) == None
  {
    if ps != [] {
      var init, q := ps[..|ps| - 1], ps[|ps| - 1];
      LastIssue(its, init, p);
      assert forall x :: x in ps <==> x in init || x == q;
      assert q in ps && (ValidIssue(q) && p in ps && q["id"].text == p["id"].text ==> q == p);
    }
  }

  lemma {:induction false} LastAssignment(m: Mirror, ps: seq<Payload>, p: Payload)
    requires ValidAssignment(p) && Consistent(Assignments, ps) && IdsOk(m.issues)
    requires p["issue_id"].text in m.issues.rows
    ensures p in ps ==>
              LastWrite(AssignmentWrites(m.issues, m.people, ps), RowKey(m, p)) == Some(AssignmentOf(m.people, p))
  {
    if ps != [] {
      var init, q := ps[..|ps| - 1], ps[|ps| - 1];
      LastAssignment(m, init, p);
      assert forall x :: x in ps <==> x in init || x == q;
      if ValidAssignment(q) && q["issue_id"].text in m.issues.rows && RowKey(m, q) == RowKey(m, p) {
        assert KeyOf(Assignments, q) == KeyOf(Assignments, p);
      }
    }
  }

  /**
   * A batch whose session stays open shows a valid payload if and only if its upsert gets as far as
   * the table: always, except for an assignment whose issue is not stored yet.
   */
  lemma BatchShowsExactly(src: Source, m: Mirror, ps: seq<Payload>, p: Payload)
    requires IdsOk(m.issues) && UpsertAll(src, Open(m), ps).tx.Open?
    requires p in ps && Valid(src, p) && Consistent(src, ps)
    ensures Shows(src, UpsertAll(src, Open(m), ps).tx.m, p) <==> Reaches(src, m, p)
  {
    BatchIsWrites(src, m, ps);
    match src {
      case Iterations =>
        LastIteration(ps, p);
        PutAllMeaning(m.iterations, IterationWrites(ps), p["id"].text);
      case Issues =>
        LastIssue(m.iterations, ps, p);
        PutAllMeaning(m.issues, IssueWrites(m.iterations, ps), p["id"].text);
      case Assignments =>
        if p["issue_id"].text in m.issues.rows {
          LastAssignment(m, ps, p);
          PutAllMeaning(m.assignments, AssignmentWrites(m.issues, m.people, ps), RowKey(m, p));
        }
    }
  }

  /**
   * An issue ends up linked if and only if its iteration was stored when the issue was upserted,
   * whatever iterations arrive later.
   */
  lemma LinkedExactly(m: Mirror, ps: seq<Payload>, p: Payload, later: seq<Payload>)
    requires p in ps && ValidIssue(p) && Consistent(Issues, ps)
    requires UpsertAll(Iterations, UpsertAll(Issues, Open(m), ps).tx, later).tx.Open?
    ensures var m' := UpsertAll(Iterations, UpsertAll(Issues, Open(m), ps).tx, later).tx.m;
            && p["id"].text in m'.issues.rows
            && (m'.issues.rows[p["id"].text].content.iteration.Some?
                <==> IsText(p, "iteration_id") && p["iteration_id"].text in m.iterations.rows)
  {
    AbortedStays(Iterations, later);
    LastIssue(m.iterations, ps, p);
    LinkIsDecidedAtUpsert(m, ps, p["id"].text, later);
  }

  // ---- Iterations and issues over every run ------------------------------------------------------

  /** The payload of a remote iteration or issue carries the id of the item. */
  predicate Keyed(src: Source, x: Item) {
    src != Assignments && Valid(src, x.payload) ==> x.payload["id"].text == x.id
  }

  ghost predicate KeyedItems(src: Source, items: map<string, Item>) {
    forall id :: id in items ==> Keyed(src, items[id])
  }

  ghost predicate KeyedRemote(remote: map<Source, Remote>) {
    forall src :: src in remote ==> KeyedItems(src, remote[src].items)
  }

  /** Whatever version is remote now and has been handed over is what the mirror shows. */
  ghost predicate Replicated(src: Source, r: Remote, handed: set<(Source, Item)>, m: Mirror) {
    && (forall x :: (src, x) in handed ==> x.updatedAt <= r.clock)
    && (forall id :: id in r.items && (src, r.items[id]) in handed && Valid(src, r.items[id].payload) ==>
          Shows(src, m, r.items[id].payload))
  }

  ghost predicate AllReplicated(remote: map<Source, Remote>, handed: set<(Source, Item)>, m: Mirror) {
    forall src :: src in remote && src != Assignments ==> Replicated(src, remote[src], handed, m)
  }

  ghost predicate Fresh(s: State) {
    && KeyedRemote(s.remote)
    && AllReplicated(s.remote, s.store.handed, s.store.mirror)
    && (s.session.Some? && s.session.value.tx.Open? ==>
          AllReplicated(s.remote, s.session.value.handed, s.session.value.tx.m))
  }

  /** Every item is the remote's own. */
  ghost predicate Genuine(r: Remote, items: seq<Item>) {
    forall x :: x in items ==> x.id in r.items && r.items[x.id] == x
  }

  lemma PayloadFrom(items: seq<Item>, p: Payload)
    requires p in Payloads(items)
    ensures exists x :: x in items && x.payload == p
  {
    var i :| 0 <= i < |items| && Payloads(items)[i] == p;
    assert items[i] in items;
  }

  lemma ItemPayload(items: seq<Item>, x: Item)
    requires x in items
    ensures x.payload in Payloads(items)
  {
    var i :| 0 <= i < |items| && items[i] == x;
    assert Payloads(items)[i] == x.payload;
  }

  lemma GenuineConsistent(src: Source, r: Remote, items: seq<Item>)
    requires src != Assignments && Genuine(r, items) && KeyedItems(src, r.items)
    ensures Consistent(src, Payloads(items))
  {
    forall p: Payload, q: Payload | p in Payloads(items) && q in Payloads(items)
        && Valid(src, p) && Valid(src, q) && KeyOf(src, p) == KeyOf(src, q)
      ensures p == q
    {
      PayloadFrom(items, p);
      PayloadFrom(items, q);
      var x :| x in items && x.payload == p;
      var y :| y in items && y.payload == q;
    }
  }

  /** A batch leaves the rows of items it does not contain as they are. */
  lemma BatchLeavesOthers(src: Source, r: Remote, m: Mirror, items: seq<Item>, x: Item)
    requires src != Assignments && RemoteOk(r) && Genuine(r, items) && KeyedItems(src, r.items)
    requires x !in items && x.id in r.items && r.items[x.id] == x
    requires Valid(src, x.payload) && Shows(src, m, x.payload)
    requires UpsertAll(src, Open(m), Payloads(items)).tx.Open?
    ensures Shows(src, UpsertAll(src, Open(m), Payloads(items)).tx.m, x.payload)
  {
    var ps, p := Payloads(items), x.payload;
    GenuineConsistent(src, r, items);
    forall q: Payload | q in ps && Valid(src, q) ensures q["id"] != p["id"] {
      PayloadFrom(items, q);
      var y :| y in items && y.payload == q;
    }
    BatchIsWrites(src, m, ps);
    if src == Iterations {
      LastIteration(ps, p);
      PutAllMeaning(m.iterations, IterationWrites(ps), p["id"].text);
    } else {
      LastIssue(m.iterations, ps, p);
      PutAllMeaning(m.issues, IssueWrites(m.iterations, ps), p["id"].text);
    }
  }

  lemma BatchOfOtherSource(src: Source, other: Source, m: Mirror, ps: seq<Payload>, p: Payload)
    requires other != src && other != Assignments && Valid(other, p) && Shows(other, m, p)
    requires UpsertAll(src, Open(m), ps).tx.Open?
    ensures Shows(other, UpsertAll(src, Open(m), ps).tx.m, p)
  {
    BatchIsWrites(src, m, ps);
  }

  lemma FetchReplicates(src: Source, r: Remote, handed: set<(Source, Item)>, m: Mirror, items: seq<Item>)
    requires src != Assignments && RemoteOk(r) && Genuine(r, items) && KeyedItems(src, r.items)
    requires IdsOk(m.issues) && Replicated(src, r, handed, m)
    requires UpsertAll(src, Open(m), Payloads(items)).tx.Open?
    ensures Replicated(src, r, handed + (set x | x in items :: (src, x)),
                       UpsertAll(src, Open(m), Payloads(items)).tx.m)
  {
    GenuineConsistent(src, r, items);
    forall id | id in r.items && (src, r.items[id]) in handed + (set x | x in items :: (src, x))
             && Valid(src, r.items[id].payload)
      ensures Shows(src, UpsertAll(src, Open(m), Payloads(items)).tx.m, r.items[id].payload)
    {
      if r.items[id] in items {
        ItemPayload(items, r.items[id]);
        BatchShowsExactly(src, m, Payloads(items), r.items[id].payload);
      } else {
        BatchLeavesOthers(src, r, m, items, r.items[id]);
      }
    }
  }

  lemma BatchReplicatesAll(
    src: Source, remote: map<Source, Remote>, handed: set<(Source, Item)>, m: Mirror, items: seq<Item>)
    requires src in remote && RemoteOk(remote[src]) && Genuine(remote[src], items)
    requires KeyedRemote(remote) && IdsOk(m.issues) && AllReplicated(remote, handed, m)
    requires UpsertAll(src, Open(m), Payloads(items)).tx.Open?
    ensures AllReplicated(remote, handed + (set x | x in items :: (src, x)),
                          UpsertAll(src, Open(m), Payloads(items)).tx.m)
  {
    var more := handed + (set x | x in items :: (src, x));
    var m' := UpsertAll(src, Open(m), Payloads(items)).tx.m;
    forall other | other in remote && other != Assignments
      ensures Replicated(other, remote[other], more, m')
    {
      if other == src {
        FetchReplicates(src, remote[src], handed, m, items);
      } else {
        assert forall x :: (other, x) in more <==> (other, x) in handed;
        forall id | id in remote[other].items && (other, remote[other].items[id]) in more
                 && Valid(other, remote[other].items[id].payload)
          ensures Shows(other, m', remote[other].items[id].payload)
        {
          BatchOfOtherSource(src, other, m, Payloads(items), remote[other].items[id].payload);
        }
      }
    }
  }

  lemma FetchKeepsFresh(s: State, items: seq<Item>)
    requires Inv(s) && Fresh(s) && Enabled(s, FetchOk(items))
    ensures Fresh(Next(s, FetchOk(items)))
  {
    var src, sess := SourceAt(s.stage), s.session.value;
    if !sess.failed {
      if sess.tx.Aborted? {
        AbortedStays(src, Payloads(items));
      } else if UpsertAll(src, sess.tx, Payloads(items)).tx.Open? {
        BatchReplicatesAll(src, s.remote, sess.handed, sess.tx.m, items);
      }
    }
  }

  /** A new version is not among those handed over, for its timestamp is later than theirs. */
  lemma ChangeReplicated(src: Source, r: Remote, item: Item, handed: set<(Source, Item)>, m: Mirror)
    requires RemoteOk(r) && Replicated(src, r, handed, m) && item.updatedAt > r.clock
    ensures Replicated(src, Remote(r.items[item.id := item], item.updatedAt), handed, m)
  {
  }

  lemma ChangeKeepsFresh(s: State, ev: Event)
    requires Inv(s) && Fresh(s) && Enabled(s, ev) && (ev.Change? || ev.Delete?)
    requires ev.Change? ==> Keyed(ev.src, ev.item)
    ensures Fresh(Next(s, ev))
  {
    if ev.Change? && ev.src != Assignments {
      var r := s.remote[ev.src];
      ChangeReplicated(ev.src, r, ev.item, s.store.handed, s.store.mirror);
      if s.session.Some? && s.session.value.tx.Open? {
        ChangeReplicated(ev.src, r, ev.item, s.session.value.handed, s.session.value.tx.m);
      }
    }
  }

  lemma StepKeepsFresh(s: State, ev: Event)
    requires Inv(s) && Fresh(s) && Enabled(s, ev)
    requires ev.Change? ==> Keyed(ev.src, ev.item)
    ensures Fresh(Next(s, ev))
  {
    match ev {
      case Change(_, _) => ChangeKeepsFresh(s, ev);
      case Delete(_, _) => ChangeKeepsFresh(s, ev);
      case Start(_) =>
      case FetchOk(items) => FetchKeepsFresh(s, items);
      case FetchFailed =>
      case Finish(_, _) =>
      case Commit(_) =>
    }
  }

  lemma {:induction false} FreshAlong(states: seq<State>, evs: seq<Event>, k: nat)
    requires Trace(states, evs) && Inv(states[0]) && Fresh(states[0]) && k < |states|
    requires forall ev :: ev in evs && ev.Change? ==> Keyed(ev.src, ev.item)
    ensures Inv(states[k]) && Fresh(states[k])
  {
    if k > 0 {
      FreshAlong(states, evs, k - 1);
      assert evs[k - 1] in evs;
      StepKeepsInv(states[k - 1], evs[k - 1]);
      StepKeepsFresh(states[k - 1], evs[k - 1]);
    }
  }

  /**
   * In every state of every sequence of syncs, with failures anywhere and the remote changing in
   * between: every valid iteration and issue that the remote holds at or below the committed cursor
   * is shown by the committed mirror in its present version.
   */
  lemma CurrentUpToTheCursor(states: seq<State>, evs: seq<Event>, k: nat, src: Source, id: string)
    requires Trace(states, evs) && Inv(states[0]) && Fresh(states[0]) && k < |states|
    requires forall ev :: ev in evs && ev.Change? ==> Keyed(ev.src, ev.item)
    requires src != Assignments && src in states[k].remote && id in states[k].remote[src].items
    requires Valid(src, states[k].remote[src].items[id].payload)
    requires var c := CursorOf(states[k].store.cursors, src);
             c.Some? && states[k].remote[src].items[id].updatedAt <= c.value
    ensures Shows(src, states[k].store.mirror, states[k].remote[src].items[id].payload)
  {
    FreshAlong(states, evs, k);
    NothingBelowTheCursorIsMissed(states, evs, k);
  }
}
