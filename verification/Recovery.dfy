/** What a full sync makes good: the cursors are reset, and the next incremental sync asks for all. */
module Recovery {
  import opened Options
  import opened Tables
  import opened Mirror
  import opened MirrorLaws
  import opened IncrementalSync
  import opened UpToDate
  import opened LostRows

  // ---- The full sync -----------------------------------------------------------------------------

  ghost predicate AnswersAll(fetch: FullFetch) {
    fetch(Iterations).Some? && fetch(Issues).Some? && fetch(Assignments).Some?
  }

  ghost function FullFeed(fetch: FullFetch): Feed
    requires AnswersAll(fetch)
  {
    Feed(Payloads(fetch(Iterations).value), Payloads(fetch(Issues).value), Payloads(fetch(Assignments).value))
  }

  /** A full sync is the three batches in order; it fails exactly by an answer, an abort or its cursors. */
  lemma FullRunIsSync(st: Store, fetch: FullFetch, users: Option<nat>, cursorsOk: bool)
    requires AnswersAll(fetch)
    ensures var s := FullRun(st, fetch, users, cursorsOk);
            var tx := Sync(Open(st.mirror), FullFeed(fetch), 3);
            && (s.failed <==> users.None? || tx.Aborted? || !cursorsOk)
            && s.users == users
            && (s.failed ==> s.tx == if users.None? then tx else Aborted)
            && (!s.failed ==> s.tx == tx)
            && (s.failed ==> s.cursors == st.cursors)
  {
    var f := FullFeed(fetch);
    AbortedStays(Issues, f.issues);
    AbortedStays(Assignments, f.assignments);
  }

  lemma FullRunNeedsAnswers(st: Store, fetch: FullFetch, users: Option<nat>, cursorsOk: bool)
    requires !AnswersAll(fetch)
    ensures FullRun(st, fetch, users, cursorsOk).failed
    ensures FullRun(st, fetch, users, cursorsOk).cursors == st.cursors
  {
  }

  /** The counts of a full sync that succeeds: how many payloads of each batch were upserted. */
  lemma FullRunCounts(st: Store, fetch: FullFetch, users: Option<nat>)
    requires AnswersAll(fetch) && !FullRun(st, fetch, users, true).failed
    ensures var f := FullFeed(fetch);
            var a := UpsertAll(Iterations, Open(st.mirror), f.iterations);
            var b := UpsertAll(Issues, a.tx, f.issues);
            var c := UpsertAll(Assignments, b.tx, f.assignments);
            FullRun(st, fetch, users, true).stats
            == map[Iterations := a.succeeded, Issues := b.succeeded, Assignments := c.succeeded]
  {
  }

  ghost predicate NoCursors(cs: Cursors) {
    forall src :: CursorOf(cs, src) == None
  }

  /** The client as it is when it is asked without a cursor. */
  ghost function AskedForAll(fetch: Fetch): Fetch {
    (src: Source, cursor: Option<int>) => fetch(src, None)
  }

  lemma FullRunCursors(st: Store, fetch: FullFetch, users: Option<nat>)
    requires !FullRun(st, fetch, users, true).failed
    ensures var cursors := CommitStep(st, FullRun(st, fetch, users, true), true).cursors;
            NoCursors(cursors) && forall src :: src in cursors
  {
    var cursors := CommitStep(st, FullRun(st, fetch, users, true), true).cursors;
    forall src: Source ensures src in cursors {
      match src
      case Iterations =>
      case Issues =>
      case Assignments =>
    }
  }

  lemma AskedWithoutCursors(st: Store, next: Fetch, cursorsOk: bool)
    requires NoCursors(st.cursors)
    ensures IncrementalRun(st, next, cursorsOk) == IncrementalRun(st, AskedForAll(next), cursorsOk)
  {
  }

  /** After a committed full sync the next incremental run asks for everything. */
  lemma FullSyncResets(st: Store, fetch: FullFetch, users: Option<nat>, next: Fetch, cursorsOk: bool)
    requires !FullRun(st, fetch, users, true).failed
    ensures var after := CommitStep(st, FullRun(st, fetch, users, true), true);
            && NoCursors(after.cursors)
            && IncrementalRun(after, next, cursorsOk) == IncrementalRun(after, AskedForAll(next), cursorsOk)
  {
    FullRunCursors(st, fetch, users);
    AskedWithoutCursors(CommitStep(st, FullRun(st, fetch, users, true), true), next, cursorsOk);
  }

  /** In the protocol: the commit of a full sync that did not fail leaves no cursor. */
  lemma FullCommitResets(s: State, users: nat)
    requires s.session.Some? && s.full && s.stage == 3 && !s.session.value.failed && s.session.value.tx.Open?
    ensures var done := Next(s, Finish(Some(users), true));
            Enabled(s, Finish(Some(users), true)) && Enabled(done, Commit(true))
            && NoCursors(Next(done, Commit(true)).store.cursors)
            && Next(done, Commit(true)).session.None?
  {
  }

  // ---- Full and incremental runs as traces of the protocol -----------------------------------------

  /** Filtered lists: every item is a present one of its source. */
  ghost predicate Lists(s: State, fetch: FullFetch) {
    && s.session.None? && AllSources(s.remote) && AnswersAll(fetch)
    && forall src, x :: src in s.remote && fetch(src).Some? && x in fetch(src).value ==>
         x.id in s.remote[src].items && s.remote[src].items[x.id] == x
  }

  function FullMidway(s: State, sess: Sess, stage: nat): State {
    State(s.remote, s.store, Some(sess), true, stage)
  }

  ghost function FullEvents(fetch: FullFetch, users: Option<nat>): seq<Event>
    requires AnswersAll(fetch)
  {
    [Start(true)] + ([FetchOk(fetch(Iterations).value)] + ([FetchOk(fetch(Issues).value)]
      + ([FetchOk(fetch(Assignments).value)] + ([Finish(users, true)] + ([Commit(true)] + [])))))
  }

  lemma FullFetchLeads(s: State, fetch: FullFetch, sess: Sess, stage: nat, rest: seq<Event>, t: State)
    requires Lists(s, fetch) && stage < 3
    requires Leads(FullMidway(s, FullFetchStep(sess, SourceAt(stage), fetch(SourceAt(stage))), stage + 1), rest, t)
    ensures Leads(FullMidway(s, sess, stage), [FetchOk(fetch(SourceAt(stage)).value)] + rest, t)
  {
    LeadsCons(FullMidway(s, sess, stage), FetchOk(fetch(SourceAt(stage)).value), rest, t);
  }

  function FullEnded(s: State, f: Sess): State {
    State(s.remote, CommitStep(s.store, f, true), None, true, 4)
  }

  lemma FullEndLeads(s: State, sess: Sess, users: Option<nat>)
    ensures Leads(FullMidway(s, sess, 3), [Finish(users, true)] + ([Commit(true)] + []),
                  FullEnded(s, FullFinishStep(sess, users, true)))
  {
    var f := FullFinishStep(sess, users, true);
    assert Leads(FullEnded(s, f), [], FullEnded(s, f));
    LeadsCons(FullMidway(s, f, 4), Commit(true), [], FullEnded(s, f));
    LeadsCons(FullMidway(s, sess, 3), Finish(users, true), [Commit(true)] + [], FullEnded(s, f));
  }

  lemma LaterFetchesLead(s: State, fetch: FullFetch, s1: Sess, s3: Sess, end: seq<Event>, t: State)
    requires Lists(s, fetch) && Leads(FullMidway(s, s3, 3), end, t)
    requires s3 == FullFetchStep(FullFetchStep(s1, Issues, fetch(Issues)), Assignments, fetch(Assignments))
    ensures Leads(FullMidway(s, s1, 1),
                  [FetchOk(fetch(Issues).value)] + ([FetchOk(fetch(Assignments).value)] + end), t)
  {
    FullFetchLeads(s, fetch, FullFetchStep(s1, Issues, fetch(Issues)), 2, end, t);
    FullFetchLeads(s, fetch, s1, 1, [FetchOk(fetch(Assignments).value)] + end, t);
  }

  /** An undisturbed full sync is a trace that ends with what the code commits. */
  lemma WholeFullSync(s: State, fetch: FullFetch, users: Option<nat>)
    requires Lists(s, fetch)
    ensures Leads(s, FullEvents(fetch, users), FullEnded(s, FullRun(s.store, fetch, users, true)))
  {
    var s1 := FullFetchStep(Begin(s.store), Iterations, fetch(Iterations));
    var s3 := FullFetchStep(FullFetchStep(s1, Issues, fetch(Issues)), Assignments, fetch(Assignments));
    var t := FullEnded(s, FullFinishStep(s3, users, true));
    var end := [Finish(users, true)] + ([Commit(true)] + []);
    FullEndLeads(s, s3, users);
    LaterFetchesLead(s, fetch, s1, s3, end, t);
    end := [FetchOk(fetch(Issues).value)] + ([FetchOk(fetch(Assignments).value)] + end);
    FullFetchLeads(s, fetch, Begin(s.store), 0, end, t);
    LeadsCons(s, Start(true), [FetchOk(fetch(Iterations).value)] + end, t);
  }

  /** And the undisturbed incremental sync commits what the code does with the same answers. */
  lemma WholeSyncIsRun(s: State, fetch: Fetch, a: seq<Item>, b: seq<Item>, c: seq<Item>)
    requires fetch(Iterations, CursorOf(s.store.cursors, Iterations)) == Some(a)
    requires fetch(Issues, CursorOf(s.store.cursors, Issues)) == Some(b)
    requires fetch(Assignments, CursorOf(s.store.cursors, Assignments)) == Some(c)
    ensures AfterSync(s, a, b, c).store == CommitStep(s.store, IncrementalRun(s.store, fetch, true), true)
  {
    FetchKeepsCursors(Begin(s.store), Iterations, Some(a));
    FetchKeepsCursors(FetchStep(Begin(s.store), Iterations, Some(a)), Issues, Some(b));
  }

  // ---- The incremental sync after it -------------------------------------------------------------

  ghost predicate AllSources(remote: map<Source, Remote>) {
    Iterations in remote && Issues in remote && Assignments in remote
  }

  /** The answers to a sync without cursors: every item of the remote. */
  ghost predicate Everything(s: State, a: seq<Item>, b: seq<Item>, c: seq<Item>) {
    && s.session.None? && NoCursors(s.store.cursors) && AllSources(s.remote)
    && Honours(s.remote[Iterations], None, a) && Honours(s.remote[Issues], None, b)
    && Honours(s.remote[Assignments], None, c)
  }

  /** The session before each batch of such a sync, while it stays open. */
  lemma StagesOf(s: State, a: seq<Item>, b: seq<Item>, c: seq<Item>)
    requires s.session.None? && AfterSync(s, a, b, c).store != s.store
    ensures var ta := UpsertAll(Iterations, Open(s.store.mirror), Payloads(a)).tx;
            var tb := UpsertAll(Issues, ta, Payloads(b)).tx;
            var tc := UpsertAll(Assignments, tb, Payloads(c)).tx;
            && ta.Open? && tb.Open? && tc.Open?
            && AfterSync(s, a, b, c).store.mirror == tc.m
            && AfterSync(s, a, b, c).store.handed
               == s.store.handed + (set x | x in a :: (Iterations, x)) + (set x | x in b :: (Issues, x))
                  + (set x | x in c :: (Assignments, x))
  {
    AbortedStays(Issues, Payloads(b));
    AbortedStays(Assignments, Payloads(c));
  }

  /** Once it is committed, every remote item has been handed over. */
  lemma AllHandedOver(s: State, a: seq<Item>, b: seq<Item>, c: seq<Item>)
    requires Everything(s, a, b, c) && AfterSync(s, a, b, c).store != s.store
    requires forall src :: src in s.remote ==> RemoteOk(s.remote[src])
    ensures Leads(s, SyncEvents(a, b, c), AfterSync(s, a, b, c))
    ensures forall src, id :: src in s.remote && id in s.remote[src].items ==>
              (src, s.remote[src].items[id]) in AfterSync(s, a, b, c).store.handed
  {
    WholeSync(s, a, b, c);
    StagesOf(s, a, b, c);
    forall src, id | src in s.remote && id in s.remote[src].items
      ensures (src, s.remote[src].items[id]) in AfterSync(s, a, b, c).store.handed
    {
      var x := s.remote[src].items[id];
      match src {
        case Iterations => assert x in a;
        case Issues => assert x in b;
        case Assignments => assert x in c;
      }
    }
  }

  lemma RowThereExactly(m: Mirror, ps: seq<Payload>, p: Payload)
    requires References(m) && p in ps && ValidAssignment(p) && Consistent(Assignments, ps)
    requires UpsertAll(Assignments, Open(m), ps).tx.Open?
    ensures var m' := UpsertAll(Assignments, Open(m), ps).tx.m;
            !Lacks(Assignments, m', p) <==> p["issue_id"].text in m'.issues.rows
  {
    BatchIsWrites(Assignments, m, ps);
    BatchShowsExactly(Assignments, m, ps, p);
  }

  lemma LinkAfterBatch(m: Mirror, ps: seq<Payload>, p: Payload)
    requires p in ps && ValidIssue(p) && Consistent(Issues, ps)
    requires UpsertAll(Issues, Open(m), ps).tx.Open?
    ensures var m' := UpsertAll(Issues, Open(m), ps).tx.m;
            && m'.iterations == m.iterations && p["id"].text in m'.issues.rows
            && m'.issues.rows[p["id"].text].content.iteration == LinkOf(m.iterations, p)
  {
    BatchIsWrites(Issues, m, ps);
    LastIssue(m.iterations, ps, p);
    PutAllMeaning(m.issues, IssueWrites(m.iterations, ps), p["id"].text);
  }

  lemma AssignmentsLeaveTheRest(m: Mirror, ps: seq<Payload>)
    requires UpsertAll(Assignments, Open(m), ps).tx.Open?
    ensures var m' := UpsertAll(Assignments, Open(m), ps).tx.m;
            m'.iterations == m.iterations && m'.issues == m.issues && m'.people == m.people
  {
    BatchIsWrites(Assignments, m, ps);
  }

  lemma LinkThereExactly(m: Mirror, ps: seq<Payload>, p: Payload, rest: seq<Payload>)
    requires p in ps && ValidIssue(p) && Consistent(Issues, ps)
    requires UpsertAll(Assignments, UpsertAll(Issues, Open(m), ps).tx, rest).tx.Open?
    ensures var m' := UpsertAll(Assignments, UpsertAll(Issues, Open(m), ps).tx, rest).tx.m;
            !Lacks(Issues, m', p)
            <==> IsText(p, "iteration_id") && p["iteration_id"].text in m'.iterations.rows
  {
    AbortedStays(Assignments, rest);
    LinkAfterBatch(m, ps, p);
    AssignmentsLeaveTheRest(UpsertAll(Issues, Open(m), ps).tx.m, rest);
  }

  /**
   * And nothing stays stuck without reason: an assignment has its row if and only if its issue is
   * stored by then, an issue its link if and only if its iteration is.
   */
  lemma StuckNoLonger(s: State, a: seq<Item>, b: seq<Item>, c: seq<Item>, src: Source, x: Item)
    requires Everything(s, a, b, c) && AfterSync(s, a, b, c).store != s.store
    requires References(s.store.mirror) && src != Iterations && Valid(src, x.payload)
    requires x in if src == Issues then b else c
    requires Consistent(Issues, Payloads(b)) && Consistent(Assignments, Payloads(c))
    ensures var m := AfterSync(s, a, b, c).store.mirror;
            !Lacks(src, m, x.payload)
            <==> if src == Assignments then x.payload["issue_id"].text in m.issues.rows
                 else IsText(x.payload, "iteration_id") && x.payload["iteration_id"].text in m.iterations.rows
  {
    StagesOf(s, a, b, c);
    var ta := UpsertAll(Iterations, Open(s.store.mirror), Payloads(a)).tx;
    var tb := UpsertAll(Issues, ta, Payloads(b)).tx;
    if src == Assignments {
      BatchKeepsReferences(Iterations, s.store.mirror, Payloads(a));
      BatchKeepsReferences(Issues, ta.m, Payloads(b));
      ItemPayload(c, x);
      RowThereExactly(tb.m, Payloads(c), x.payload);
    } else {
      ItemPayload(b, x);
      LinkThereExactly(ta.m, Payloads(b), x.payload, Payloads(c));
    }
  }
}
