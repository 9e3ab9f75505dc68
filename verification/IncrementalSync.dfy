/** Incremental and full synchronisation: per-source cursors over a remote that keeps changing. */
module IncrementalSync {
  import opened Options
  import opened Tables
  import opened Mirror
  import opened MirrorLaws

  datatype Item = Item(id: string, updatedAt: int, payload: Payload)

  type Cursors = map<Source, Option<int>>

  /** The committed database; `handed` records which item versions went to an upsert. */
  datatype Store = Store(mirror: Mirror, cursors: Cursors, handed: set<(Source, Item)>)

  /** A sync in progress; `users` is the number of users listed, by a full sync only. */
  datatype Sess = Sess(
    tx: Tx, cursors: Cursors, handed: set<(Source, Item)>, newCursors: map<Source, int>,
    stats: map<Source, nat>, users: Option<nat>, failed: bool)

  function CursorOf(cs: Cursors, src: Source): Option<int> {
    if src in cs then cs[src] else None
  }

  function Payloads(items: seq<Item>): seq<Payload> {
    seq(|items|, i requires 0 <= i < |items| => items[i].payload)
  }

  function MaxUpdated(items: seq<Item>): (m: int)
    requires items != []
    ensures exists x :: x in items && x.updatedAt == m
    ensures forall x :: x in items ==> x.updatedAt <= m
  {
    if |items| == 1 then items[0].updatedAt
    else
      var rest := MaxUpdated(items[1..]);
      if items[0].updatedAt > rest then items[0].updatedAt else rest
  }

  // ---- One run, transaction by transaction -------------------------------------------------------

  function Begin(st: Store): Sess {
    Sess(Open(st.mirror), st.cursors, st.handed, map[], map[], None, false)
  }

  /** Read the cursor, fetch the source, upsert the batch, remember the new cursor. */
  ghost function FetchStep(s: Sess, src: Source, r: Option<seq<Item>>): Sess {
    if s.failed then s
    else if s.tx.Aborted? || r.None? then s.(failed := true)
    else
      var b := UpsertAll(src, s.tx, Payloads(r.value));
      s.(tx := b.tx,
         handed := s.handed + (set x | x in r.value :: (src, x)),
         newCursors := Noted(s.newCursors, src, r.value),
         stats := s.stats[src := b.succeeded])
  }

  function Noted(new_: map<Source, int>, src: Source, items: seq<Item>): map<Source, int> {
    if items == [] then new_ else new_[src := MaxUpdated(items)]
  }

  function WriteCursors(cs: Cursors, new_: map<Source, int>): Cursors {
    map src: Source | src in cs.Keys + new_.Keys :: if src in new_ then Some(new_[src]) else cs[src]
  }

  /** The cursors are written last; a rejected write takes the whole transaction with it. */
  function FinishStep(s: Sess, ok: bool): Sess {
    if s.failed then s
    else if s.tx.Aborted? || !ok then s.(tx := Aborted, failed := true)
    else s.(cursors := WriteCursors(s.cursors, s.newCursors))
  }

  /** Committed also after a failed fetch; an aborted session cannot commit. */
  function CommitStep(st: Store, s: Sess, ok: bool): Store {
    if ok && s.tx.Open? then Store(s.tx.m, s.cursors, s.handed) else st
  }

  /**
   * On an aborted session the audit record cannot be written, so the run raises instead of
   * returning its result; it also raises when the commit does.
   */
  predicate Raises(s: Sess, commitOk: bool) {
    s.tx.Aborted? || !commitOk
  }

  /** The full sync: filtered lists, and every cursor reset at the end. */
  ghost function FullFetchStep(s: Sess, src: Source, r: Option<seq<Item>>): Sess {
    if s.failed then s
    else if r.None? then s.(failed := true)
    else
      var b := UpsertAll(src, s.tx, Payloads(r.value));
      s.(tx := b.tx,
         handed := s.handed + (set x | x in r.value :: (src, x)),
         stats := s.stats[src := b.succeeded])
  }

  function FullFinishStep(s: Sess, users: Option<nat>, ok: bool): Sess {
    if s.failed then s
    else if users.None? then s.(failed := true)
    else if s.tx.Aborted? || !ok then s.(tx := Aborted, users := users, failed := true)
    else s.(cursors := map[Iterations := None, Issues := None, Assignments := None], users := users)
  }

  // ---- The code of one run -----------------------------------------------------------------------

  /** What a client answers to a source and an `updated_after`; `None` is an exception. */
  type Fetch = (Source, Option<int>) -> Option<seq<Item>>

  ghost function FetchFrom(s: Sess, src: Source, fetch: Fetch): Sess {
    FetchStep(s, src, fetch(src, CursorOf(s.cursors, src)))
  }

  ghost function IncrementalRun(st: Store, fetch: Fetch, cursorsOk: bool): Sess {
    var a := FetchFrom(Begin(st), Iterations, fetch);
    var b := FetchFrom(a, Issues, fetch);
    var c := FetchFrom(b, Assignments, fetch);
    FinishStep(c, cursorsOk)
  }

  /** What the filtered lists of a full sync hold. */
  type FullFetch = Source -> Option<seq<Item>>

  ghost function FullRun(st: Store, fetch: FullFetch, users: Option<nat>, cursorsOk: bool): Sess {
    var a := FullFetchStep(Begin(st), Iterations, fetch(Iterations));
    var b := FullFetchStep(a, Issues, fetch(Issues));
    var c := FullFetchStep(b, Assignments, fetch(Assignments));
    FullFinishStep(c, users, cursorsOk)
  }

  class Replica {
    var mirror: Mirror
    var cursors: Cursors
    ghost var handed: set<(Source, Item)>

    constructor (people: map<string, nat>)
      ensures mirror == Mirror(Table(map[], 0), Table(map[], 0), Table(map[], 0), people)
      ensures cursors == map[] && handed == {}
    {
      mirror := Mirror(Table(map[], 0), Table(map[], 0), Table(map[], 0), people);
      cursors, handed := map[], {};
    }

    ghost function View(): Store
      reads this
    {
      Store(mirror, cursors, handed)
    }

    /** One source of a run; false is an exception. */
    method PullSource(
      session: Session, src: Source, fetch: Fetch, news: map<Source, int>, counts: map<Source, nat>,
      ghost s: Sess)
      returns (ok: bool, newCursors: map<Source, int>, stats: map<Source, nat>, ghost t: Sess)
      requires session.View() == s.tx && s.newCursors == news && s.stats == counts
      requires s.cursors == cursors && !s.failed
      modifies session
      ensures t == FetchFrom(s, src, fetch)
      ensures ok == !t.failed && session.View() == t.tx
      ensures t.newCursors == newCursors && t.stats == stats && t.cursors == cursors
    {
      newCursors, stats := news, counts;
      t := FetchFrom(s, src, fetch);
      if session.aborted {
        return false, newCursors, stats, t;
      }
      var r := fetch(src, CursorOf(cursors, src));
      if r.None? {
        return false, newCursors, stats, t;
      }
      var count, missing := session.UpsertBatch(src, Payloads(r.value));
      stats := stats[src := count];
      if r.value != [] {
        newCursors := newCursors[src := MaxUpdated(r.value)];
      }
      ok := true;
    }

    /** The audit record and the commit come last; if either raises the other results are lost. */
    method RunIncrementalSync(fetch: Fetch, cursorsOk: bool, commitOk: bool)
      returns (raised: bool, success: bool, stats: map<Source, nat>, news: map<Source, int>)
      modifies this
      ensures var s := IncrementalRun(old(View()), fetch, cursorsOk);
              && View() == CommitStep(old(View()), s, commitOk)
              && raised == Raises(s, commitOk)
              && success == !s.failed && stats == s.stats && news == s.newCursors
    {
      var session := new Session(mirror);
      ghost var s := Begin(View());
      stats, news := map[], map[];
      success, news, stats, s := PullSource(session, Iterations, fetch, news, stats, s);
      if success {
        success, news, stats, s := PullSource(session, Issues, fetch, news, stats, s);
      }
      if success {
        success, news, stats, s := PullSource(session, Assignments, fetch, news, stats, s);
      }
      var written := cursors;
      s := FinishStep(s, cursorsOk);
      if success {
        if session.aborted || !cursorsOk {
          session.aborted := true;
          success := false;
        } else {
          written := WriteCursors(cursors, news);
        }
      }
      raised := session.aborted || !commitOk;
      if !raised {
        mirror := Mirror(session.iterations, session.issues, session.assignments, session.people);
        cursors := written;
        handed := s.handed;
      }
    }

    method PullWhole(session: Session, src: Source, fetch: FullFetch, counts: map<Source, nat>, ghost s: Sess)
      returns (ok: bool, stats: map<Source, nat>, ghost t: Sess)
      requires session.View() == s.tx && s.cursors == cursors && s.stats == counts
      requires s.users.None? && !s.failed
      modifies session
      ensures t == FullFetchStep(s, src, fetch(src))
      ensures ok == !t.failed && session.View() == t.tx && t.cursors == cursors
      ensures t.stats == stats && t.users.None?
    {
      t := FullFetchStep(s, src, fetch(src));
      var r := fetch(src);
      stats, ok := counts, r.Some?;
      if ok {
        var count, missing := session.UpsertBatch(src, Payloads(r.value));
        stats := stats[src := count];
      }
    }

    method RunFullSync(fetch: FullFetch, users: Option<nat>, cursorsOk: bool, commitOk: bool)
      returns (raised: bool, success: bool, stats: map<Source, nat>, listed: Option<nat>)
      modifies this
      ensures var s := FullRun(old(View()), fetch, users, cursorsOk);
              && View() == CommitStep(old(View()), s, commitOk)
              && raised == Raises(s, commitOk)
              && success == !s.failed && stats == s.stats && listed == s.users
    {
      var session := new Session(mirror);
      ghost var s := Begin(View());
      stats, listed := map[], None;
      success, stats, s := PullWhole(session, Iterations, fetch, stats, s);
      if success {
        success, stats, s := PullWhole(session, Issues, fetch, stats, s);
      }
      if success {
        success, stats, s := PullWhole(session, Assignments, fetch, stats, s);
      }
      var written := cursors;
      s := FullFinishStep(s, users, cursorsOk);
      if success {
        listed := users;
        success := users.Some?;
      }
      if success {
        if session.aborted || !cursorsOk {
          session.aborted := true;
          success := false;
        } else {
          written := map[Iterations := None, Issues := None, Assignments := None];
        }
      }
      raised := session.aborted || !commitOk;
      if !raised {
        mirror := Mirror(session.iterations, session.issues, session.assignments, session.people);
        cursors := written;
        handed := s.handed;
      }
    }
  }

  // ---- The protocol: syncs over a changing remote ------------------------------------------------

  /** One source on the remote side; `clock` bounds every timestamp given out so far. */
  datatype Remote = Remote(items: map<string, Item>, clock: int)

  datatype State = State(
    remote: map<Source, Remote>, store: Store, session: Option<Sess>, full: bool, stage: nat)

  datatype Event =
    | Change(src: Source, item: Item)
    | Delete(src: Source, id: string)
    | Start(full: bool)
    | FetchOk(items: seq<Item>)
    | FetchFailed
    | Finish(users: Option<nat>, ok: bool)
    | Commit(ok: bool)

  function SourceAt(stage: nat): Source {
    if stage == 0 then Iterations else if stage == 1 then Issues else Assignments
  }

  /** The server honours `updated_after`: exactly the items changed since, in any order. */
  ghost predicate Honours(r: Remote, cursor: Option<int>, items: seq<Item>) {
    forall x :: x in items <==>
      x.id in r.items && r.items[x.id] == x && (cursor.Some? ==> x.updatedAt > cursor.value)
  }

  ghost predicate Enabled(s: State, ev: Event) {
    match ev
    case Change(src, item) => src in s.remote && item.updatedAt > s.remote[src].clock
    case Delete(src, id) => src in s.remote
    case Start(full) => s.session.None?
    case FetchOk(items) =>
      && s.session.Some? && s.stage < 3 && SourceAt(s.stage) in s.remote
      && var r := s.remote[SourceAt(s.stage)];
         if s.full then forall x :: x in items ==> x.id in r.items && r.items[x.id] == x
         else Honours(r, CursorOf(s.session.value.cursors, SourceAt(s.stage)), items)
    case FetchFailed => s.session.Some? && s.stage < 3
    case Finish(users, ok) => s.session.Some? && s.stage == 3
    case Commit(ok) => s.session.Some? && (s.stage == 4 || s.session.value.failed)
  }

  ghost function Next(s: State, ev: Event): State
    requires Enabled(s, ev)
  {
    match ev
    case Change(src, item) =>
      var r := s.remote[src];
      s.(remote := s.remote[src := Remote(r.items[item.id := item], item.updatedAt)])
    case Delete(src, id) =>
      var r := s.remote[src];
      s.(remote := s.remote[src := Remote(r.items - {id}, r.clock)])
    case Start(full) => s.(session := Some(Begin(s.store)), full := full, stage := 0)
    case FetchOk(items) =>
      var src := SourceAt(s.stage);
      var t := if s.full then FullFetchStep(s.session.value, src, Some(items))
               else FetchStep(s.session.value, src, Some(items));
      s.(session := Some(t), stage := s.stage + 1)
    case FetchFailed =>
      s.(session := Some(s.session.value.(failed := true)), stage := s.stage + 1)
    case Finish(users, ok) =>
      var t := if s.full then FullFinishStep(s.session.value, users, ok)
               else FinishStep(s.session.value, ok);
      s.(session := Some(t), stage := 4)
    case Commit(ok) => s.(store := CommitStep(s.store, s.session.value, ok), session := None)
  }

  /** Everything at or below the cursor has been handed over, and the cursor is not in the future. */
  ghost predicate Caught(src: Source, r: Remote, cursor: Option<int>, handed: set<(Source, Item)>) {
    cursor.Some? ==>
      && cursor.value <= r.clock
      && forall id :: id in r.items && r.items[id].updatedAt <= cursor.value ==>
           (src, r.items[id]) in handed
  }

  ghost predicate RemoteOk(r: Remote) {
    forall id :: id in r.items ==> r.items[id].id == id && r.items[id].updatedAt <= r.clock
  }

  ghost predicate CaughtUp(remote: map<Source, Remote>, cs: Cursors, handed: set<(Source, Item)>) {
    forall src :: src in remote ==> Caught(src, remote[src], CursorOf(cs, src), handed)
  }

  ghost predicate CaughtNew(remote: map<Source, Remote>, new_: map<Source, int>, handed: set<(Source, Item)>) {
    forall src :: src in new_ ==> src in remote && Caught(src, remote[src], Some(new_[src]), handed)
  }

  ghost predicate TxOk(tx: Tx) {
    tx.Open? ==> References(tx.m)
  }

  ghost predicate Inv(s: State) {
    && (forall src :: src in s.remote ==> RemoteOk(s.remote[src]))
    && References(s.store.mirror)
    && CaughtUp(s.remote, s.store.cursors, s.store.handed)
    && (s.session.Some? ==>
          && TxOk(s.session.value.tx)
          && CaughtUp(s.remote, s.session.value.cursors, s.session.value.handed)
          && CaughtNew(s.remote, s.session.value.newCursors, s.session.value.handed))
  }

  /** After an honest fetch the whole source has been handed over. */
  lemma FetchCatchesUp(src: Source, r: Remote, cursor: Option<int>, handed: set<(Source, Item)>, items: seq<Item>)
    requires RemoteOk(r) && Caught(src, r, cursor, handed) && Honours(r, cursor, items)
    ensures var all := handed + (set x | x in items :: (src, x));
            && (forall id :: id in r.items ==> (src, r.items[id]) in all)
            && (items != [] ==> Caught(src, r, Some(MaxUpdated(items)), all))
  {
    forall id | id in r.items
      ensures (src, r.items[id]) in handed + (set x | x in items :: (src, x))
    {
      if !(cursor.Some? && r.items[id].updatedAt <= cursor.value) {
        assert r.items[id] in items;
      }
    }
  }

  lemma BatchKeepsTxOk(src: Source, tx: Tx, ps: seq<Payload>)
    requires TxOk(tx)
    ensures TxOk(UpsertAll(src, tx, ps).tx)
  {
    if tx.Open? {
      if UpsertAll(src, tx, ps).tx.Open? {
        BatchKeepsReferences(src, tx.m, ps);
      }
    } else {
      AbortedStays(src, ps);
    }
  }

  lemma FetchKeepsInv(s: State, items: seq<Item>)
    requires Inv(s) && Enabled(s, FetchOk(items))
    ensures Inv(Next(s, FetchOk(items)))
  {
    var src := SourceAt(s.stage);
    var sess := s.session.value;
    BatchKeepsTxOk(src, sess.tx, Payloads(items));
    if !s.full {
      FetchCatchesUp(src, s.remote[src], CursorOf(sess.cursors, src), sess.handed, items);
    }
  }

  lemma ChangeKeepsCaught(src: Source, r: Remote, item: Item, cursor: Option<int>, handed: set<(Source, Item)>)
    requires RemoteOk(r) && Caught(src, r, cursor, handed) && item.updatedAt > r.clock
    ensures Caught(src, Remote(r.items[item.id := item], item.updatedAt), cursor, handed)
    ensures RemoteOk(Remote(r.items[item.id := item], item.updatedAt))
  {
  }

  lemma ChangeKeepsCaughtUp(
    remote: map<Source, Remote>, src: Source, item: Item, cs: Cursors, new_: map<Source, int>,
    handed: set<(Source, Item)>)
    requires src in remote && RemoteOk(remote[src]) && item.updatedAt > remote[src].clock
    requires CaughtUp(remote, cs, handed) && CaughtNew(remote, new_, handed)
    ensures var after := remote[src := Remote(remote[src].items[item.id := item], item.updatedAt)];
            CaughtUp(after, cs, handed) && CaughtNew(after, new_, handed)
  {
    ChangeKeepsCaught(src, remote[src], item, CursorOf(cs, src), handed);
    if src in new_ {
      ChangeKeepsCaught(src, remote[src], item, Some(new_[src]), handed);
    }
  }

  lemma RemoteChangeKeepsInv(s: State, ev: Event)
    requires Inv(s) && Enabled(s, ev) && (ev.Change? || ev.Delete?)
    ensures Inv(Next(s, ev))
  {
    if ev.Change? {
      ChangeKeepsCaught(ev.src, s.remote[ev.src], ev.item, None, {});
      ChangeKeepsCaughtUp(s.remote, ev.src, ev.item, s.store.cursors, map[], s.store.handed);
      if s.session.Some? {
        var t := s.session.value;
        ChangeKeepsCaughtUp(s.remote, ev.src, ev.item, t.cursors, t.newCursors, t.handed);
      }
    }
  }

  lemma StepKeepsInv(s: State, ev: Event)
    requires Inv(s) && Enabled(s, ev)
    ensures Inv(Next(s, ev))
  {
    match ev {
      case Change(_, _) => RemoteChangeKeepsInv(s, ev);
      case Delete(_, _) => RemoteChangeKeepsInv(s, ev);
      case Start(_) =>
      case FetchOk(items) => FetchKeepsInv(s, items);
      case FetchFailed =>
      case Finish(_, _) =>
      case Commit(_) =>
    }
  }

  ghost predicate Trace(states: seq<State>, evs: seq<Event>) {
    && |states| == |evs| + 1
    && forall i :: 0 <= i < |evs| ==>
         Enabled(states[i], evs[i]) && states[i + 1] == Next(states[i], evs[i])
  }

  /**
   * In every state of every sequence of syncs, incremental or full, failing anywhere, with the
   * remote changing between and during them: whatever a source holds at or below its committed
   * cursor has been handed to its upsert, and the committed mirror's references hold.
   */
  lemma NothingBelowTheCursorIsMissed(states: seq<State>, evs: seq<Event>, k: nat)
    requires Trace(states, evs) && Inv(states[0]) && k < |states|
    ensures var s := states[k];
            && References(s.store.mirror)
            && forall src, id :: src in s.remote && id in s.remote[src].items
                 && CursorOf(s.store.cursors, src).Some?
                 && s.remote[src].items[id].updatedAt <= CursorOf(s.store.cursors, src).value
                 ==> (src, s.remote[src].items[id]) in s.store.handed
  {
    InvAlong(states, evs, k);
    forall src | src in states[k].remote
      ensures Caught(src, states[k].remote[src], CursorOf(states[k].store.cursors, src), states[k].store.handed)
    {
    }
  }

  lemma {:induction false} InvAlong(states: seq<State>, evs: seq<Event>, k: nat)
    requires Trace(states, evs) && Inv(states[0]) && k < |states|
    ensures Inv(states[k])
  {
    if k > 0 {
      InvAlong(states, evs, k - 1);
      StepKeepsInv(states[k - 1], evs[k - 1]);
    }
  }

  // ---- A failed run, then a successful one -------------------------------------------------------

  /** The client answers the first `good` sources and fails from then on. */
  ghost function FailingAfter(fetch: Fetch, good: nat): Fetch {
    (src: Source, cursor: Option<int>) =>
      if (src == Iterations && good < 1) || (src == Issues && good < 2) || (src == Assignments && good < 3)
      then None else fetch(src, cursor)
  }

  ghost predicate Answers(cs: Cursors, fetch: Fetch) {
    && fetch(Iterations, CursorOf(cs, Iterations)).Some?
    && fetch(Issues, CursorOf(cs, Issues)).Some?
    && fetch(Assignments, CursorOf(cs, Assignments)).Some?
  }

  ghost function FeedOf(cs: Cursors, fetch: Fetch): Feed
    requires Answers(cs, fetch)
  {
    Feed(Payloads(fetch(Iterations, CursorOf(cs, Iterations)).value),
         Payloads(fetch(Issues, CursorOf(cs, Issues)).value),
         Payloads(fetch(Assignments, CursorOf(cs, Assignments)).value))
  }

  /** `s` has been through the first `stage` batches of the feed; it fails only by abort. */
  ghost predicate At(s: Sess, st: Store, f: Feed, stage: nat) {
    && s.cursors == st.cursors
    && s.tx == Sync(Open(st.mirror), f, stage)
    && (s.failed ==> s.tx.Aborted?)
  }

  lemma StageDone(s: Sess, st: Store, fetch: Fetch, stage: nat)
    requires stage < 3 && Answers(st.cursors, fetch) && At(s, st, FeedOf(st.cursors, fetch), stage)
    ensures At(FetchFrom(s, SourceAt(stage), fetch), st, FeedOf(st.cursors, fetch), stage + 1)
  {
    var f := FeedOf(st.cursors, fetch);
    AbortedStays(Iterations, f.iterations);
    AbortedStays(Issues, f.issues);
    AbortedStays(Assignments, f.assignments);
  }

  /** A run whose client fails after `good` sources has done that many batches of the feed. */
  lemma RunIsSync(st: Store, fetch: Fetch, good: nat, cursorsOk: bool)
    requires good <= 3 && Answers(st.cursors, fetch)
    ensures var s := IncrementalRun(st, FailingAfter(fetch, good), cursorsOk);
            var tx := Sync(Open(st.mirror), FeedOf(st.cursors, fetch), good);
            && (s.failed <==> good < 3 || tx.Aborted? || !cursorsOk)
            && (s.failed ==> s.cursors == st.cursors)
            && (s.tx == tx || (s.failed && s.tx.Aborted?))
  {
    var failing := FailingAfter(fetch, good);
    var s0 := Begin(st);
    var s1 := FetchFrom(s0, Iterations, failing);
    if good >= 1 {
      StageDone(s0, st, fetch, 0);
      assert s1 == FetchFrom(s0, Iterations, fetch);
    }
    var s2 := FetchFrom(s1, Issues, failing);
    if good >= 2 {
      StageDone(s1, st, fetch, 1);
      assert s2 == FetchFrom(s1, Issues, fetch);
    }
    var s3 := FetchFrom(s2, Assignments, failing);
    if good >= 3 {
      StageDone(s2, st, fetch, 2);
      assert s3 == FetchFrom(s2, Assignments, fetch);
    }
  }

  /** The cursors a successful run writes depend only on the old cursors and the answers. */
  ghost function CursorsAfter(cs: Cursors, fetch: Fetch): Cursors
    requires Answers(cs, fetch)
  {
    var a := Noted(map[], Iterations, fetch(Iterations, CursorOf(cs, Iterations)).value);
    var b := Noted(a, Issues, fetch(Issues, CursorOf(cs, Issues)).value);
    WriteCursors(cs, Noted(b, Assignments, fetch(Assignments, CursorOf(cs, Assignments)).value))
  }

  lemma CursorsOfRun(st: Store, fetch: Fetch)
    requires !IncrementalRun(st, fetch, true).failed
    ensures Answers(st.cursors, fetch)
    ensures IncrementalRun(st, fetch, true).cursors == CursorsAfter(st.cursors, fetch)
  {
  }

  lemma SameAnswers(st: Store, fetch: Fetch, cursorsOk: bool)
    ensures IncrementalRun(st, FailingAfter(fetch, 3), cursorsOk) == IncrementalRun(st, fetch, cursorsOk)
  {
  }

  /** What the store holds after a failed run, and after a successful one. */
  lemma SuccessfulRun(st: Store, fetch: Fetch)
    requires !IncrementalRun(st, fetch, true).failed
    ensures Answers(st.cursors, fetch)
    ensures var t := CommitStep(st, IncrementalRun(st, fetch, true), true);
            && Sync(Open(st.mirror), FeedOf(st.cursors, fetch), 3) == Open(t.mirror)
            && t.cursors == CursorsAfter(st.cursors, fetch)
  {
    CursorsOfRun(st, fetch);
    SameAnswers(st, fetch, true);
    RunIsSync(st, fetch, 3, true);
  }

  lemma FailedRun(st: Store, fetch: Fetch, good: nat, cursorsOk: bool, commitOk: bool)
    requires good <= 3 && Answers(st.cursors, fetch)
    requires IncrementalRun(st, FailingAfter(fetch, good), cursorsOk).failed
    ensures var half := CommitStep(st, IncrementalRun(st, FailingAfter(fetch, good), cursorsOk), commitOk);
            && half.cursors == st.cursors
            && (half.mirror == st.mirror
                || Open(half.mirror) == Sync(Open(st.mirror), FeedOf(st.cursors, fetch), good))
  {
    RunIsSync(st, fetch, good, cursorsOk);
  }

  /** One run that fails: at the client after `good` sources, at the cursors, or at the commit. */
  datatype Trouble = Trouble(good: nat, cursorsOk: bool, commitOk: bool)

  ghost function FailingRun(st: Store, fetch: Fetch, e: Trouble): Sess {
    IncrementalRun(st, FailingAfter(fetch, e.good), e.cursorsOk)
  }

  ghost function AfterTrouble(st: Store, fetch: Fetch, e: Trouble): Store {
    CommitStep(st, FailingRun(st, fetch, e), e.commitOk)
  }

  /** The store after any number of runs, each of which fails or is not committed. */
  ghost function AfterTroubles(st: Store, fetch: Fetch, es: seq<Trouble>): Store
    decreases |es|
  {
    if es == [] then st else AfterTroubles(AfterTrouble(st, fetch, es[0]), fetch, es[1..])
  }

  ghost predicate AllFail(st: Store, fetch: Fetch, es: seq<Trouble>)
    decreases |es|
  {
    es != [] ==>
      && es[0].good <= 3 && (FailingRun(st, fetch, es[0]).failed || !es[0].commitOk)
      && AllFail(AfterTrouble(st, fetch, es[0]), fetch, es[1..])
  }

  /** A failed run keeps the cursors and what the whole feed amounts to. */
  lemma TroubleKeepsTarget(st: Store, fetch: Fetch, e: Trouble)
    requires e.good <= 3 && Answers(st.cursors, fetch)
    requires FailingRun(st, fetch, e).failed || !e.commitOk
    ensures var half := AfterTrouble(st, fetch, e);
            var f := FeedOf(st.cursors, fetch);
            && half.cursors == st.cursors
            && WrittenUpTo(half.mirror, f, 3) == WrittenUpTo(st.mirror, f, 3)
  {
    var f := FeedOf(st.cursors, fetch);
    if FailingRun(st, fetch, e).failed {
      FailedRun(st, fetch, e.good, e.cursorsOk, e.commitOk);
      if AfterTrouble(st, fetch, e).mirror != st.mirror {
        OpenIsWritten(st.mirror, f, e.good);
        StartOver(st.mirror, f, e.good);
      }
    }
  }

  lemma {:induction false} TroublesKeepTarget(st: Store, fetch: Fetch, es: seq<Trouble>)
    requires Answers(st.cursors, fetch) && AllFail(st, fetch, es)
    ensures var half := AfterTroubles(st, fetch, es);
            var f := FeedOf(st.cursors, fetch);
            && half.cursors == st.cursors
            && WrittenUpTo(half.mirror, f, 3) == WrittenUpTo(st.mirror, f, 3)
    decreases |es|
  {
    if es != [] {
      TroubleKeepsTarget(st, fetch, es[0]);
      TroublesKeepTarget(AfterTrouble(st, fetch, es[0]), fetch, es[1..]);
    }
  }

  /**
   * Any number of runs fail, each at the client after any number of sources, at the cursors or at
   * the commit, their partial work committed or lost; the next run over the same remote succeeds.
   * The mirror, internal ids included, and the cursors are those of a single successful run.
   */
  lemma RetryEqualsOneRun(st: Store, fetch: Fetch, es: seq<Trouble>)
    requires AllFail(st, fetch, es)
    requires !IncrementalRun(st, fetch, true).failed
    requires !IncrementalRun(AfterTroubles(st, fetch, es), fetch, true).failed
    ensures var half := AfterTroubles(st, fetch, es);
            var retried := CommitStep(half, IncrementalRun(half, fetch, true), true);
            var once := CommitStep(st, IncrementalRun(st, fetch, true), true);
            && half.cursors == st.cursors
            && retried.mirror == once.mirror && retried.cursors == once.cursors
  {
    var half := AfterTroubles(st, fetch, es);
    SuccessfulRun(st, fetch);
    TroublesKeepTarget(st, fetch, es);
    SuccessfulRun(half, fetch);
    OpenIsWritten(st.mirror, FeedOf(st.cursors, fetch), 3);
    OpenIsWritten(half.mirror, FeedOf(st.cursors, fetch), 3);
  }

  lemma TroubleKeepsAccepted(st: Store, fetch: Fetch, e: Trouble)
    requires e.good <= 3 && Answers(st.cursors, fetch)
    requires FeedAccepted(st.mirror, FeedOf(st.cursors, fetch))
    requires FailingRun(st, fetch, e).failed || !e.commitOk
    ensures AfterTrouble(st, fetch, e).cursors == st.cursors
    ensures FeedAccepted(AfterTrouble(st, fetch, e).mirror, FeedOf(st.cursors, fetch))
  {
    var f := FeedOf(st.cursors, fetch);
    if FailingRun(st, fetch, e).failed {
      FailedRun(st, fetch, e.good, e.cursorsOk, e.commitOk);
      if AfterTrouble(st, fetch, e).mirror != st.mirror {
        OpenIsWritten(st.mirror, f, e.good);
        AcceptedAgain(st.mirror, f, e.good);
      }
    }
  }

  /** With constraints met and one owner per issue key, the single and the later run succeed. */
  lemma {:induction false} AcceptedRetrySucceeds(st: Store, fetch: Fetch, es: seq<Trouble>)
    requires Answers(st.cursors, fetch) && FeedAccepted(st.mirror, FeedOf(st.cursors, fetch))
    requires AllFail(st, fetch, es)
    ensures !IncrementalRun(st, fetch, true).failed
    ensures !IncrementalRun(AfterTroubles(st, fetch, es), fetch, true).failed
    decreases |es|
  {
    AcceptedFeedReplays(st.mirror, FeedOf(st.cursors, fetch), 3);
    SameAnswers(st, fetch, true);
    RunIsSync(st, fetch, 3, true);
    if es != [] {
      TroubleKeepsAccepted(st, fetch, es[0]);
      AcceptedRetrySucceeds(AfterTrouble(st, fetch, es[0]), fetch, es[1..]);
    }
  }
}
