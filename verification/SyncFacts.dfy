/** What one incremental sync does with answers, cursors and counts, source by source. */
module SyncFacts {
  import opened Options
  import opened Mirror
  import opened IncrementalSync

  /** The answer a run gets from a source: it is asked with the cursor stored for it. */
  function Answer(st: Store, fetch: Fetch, src: Source): Option<seq<Item>> {
    fetch(src, if src in st.cursors then st.cursors[src] else None)
  }

  ghost predicate AllAnswered(st: Store, fetch: Fetch) {
    forall src :: Answer(st, fetch, src).Some?
  }

  /** One source: its batch on the open session, counted under its name; on a lost one the run fails. */
  lemma OneSource(s: Sess, src: Source, items: seq<Item>)
    requires !s.failed
    ensures var t := FetchStep(s, src, Some(items));
            && (t.failed <==> s.tx.Aborted?)
            && t.cursors == s.cursors && t.users == s.users
            && (s.tx.Open? ==>
                  var b := UpsertAll(src, s.tx, Payloads(items));
                  t.tx == b.tx && t.stats == s.stats[src := b.succeeded])
  {
  }

  ghost predicate IsRun(st: Store, fetch: Fetch, cursorsOk: bool, s: Sess, a: Batch, b: Batch, c: Batch)
    requires AllAnswered(st, fetch)
  {
    && a == UpsertAll(Iterations, Open(st.mirror), Payloads(Answer(st, fetch, Iterations).value))
    && b == UpsertAll(Issues, a.tx, Payloads(Answer(st, fetch, Issues).value))
    && c == UpsertAll(Assignments, b.tx, Payloads(Answer(st, fetch, Assignments).value))
    && (s.failed <==> a.tx.Aborted? || b.tx.Aborted? || c.tx.Aborted? || !cursorsOk)
    && (s.failed ==> s.tx.Aborted?)
    && (!s.failed ==>
          && s.tx == c.tx && s.users == None
          && s.stats == map[Iterations := a.succeeded, Issues := b.succeeded, Assignments := c.succeeded])
  }

  /**
   * A run whose sources all answer fails exactly by a session lost on the way or by its cursors, and
   * then all its work is lost; otherwise it is the three batches over the answers, in order.
   */
  lemma RunExactly(st: Store, fetch: Fetch, cursorsOk: bool) returns (a: Batch, b: Batch, c: Batch)
    requires AllAnswered(st, fetch)
    ensures IsRun(st, fetch, cursorsOk, IncrementalRun(st, fetch, cursorsOk), a, b, c)
  {
    var fa := Answer(st, fetch, Iterations).value;
    var fb := Answer(st, fetch, Issues).value;
    var fc := Answer(st, fetch, Assignments).value;
    a := UpsertAll(Iterations, Open(st.mirror), Payloads(fa));
    b := UpsertAll(Issues, a.tx, Payloads(fb));
    c := UpsertAll(Assignments, b.tx, Payloads(fc));
    var s0 := Begin(st);
    OneSource(s0, Iterations, fa);
    var s1 := FetchStep(s0, Iterations, Some(fa));
    OneSource(s1, Issues, fb);
    var s2 := FetchStep(s1, Issues, Some(fb));
    if s1.tx.Open? {
      OneSource(s2, Assignments, fc);
    }
  }

  lemma RunNeedsAnswers(st: Store, fetch: Fetch, cursorsOk: bool)
    requires !AllAnswered(st, fetch)
    ensures IncrementalRun(st, fetch, cursorsOk).failed
  {
    var src :| Answer(st, fetch, src).None?;
    match src {
      case Iterations =>
      case Issues =>
      case Assignments =>
    }
  }

  /** A failed run writes no cursor, whether or not its rows are committed. */
  lemma FailedRunKeepsCursors(st: Store, fetch: Fetch, cursorsOk: bool, commitOk: bool)
    requires IncrementalRun(st, fetch, cursorsOk).failed
    ensures CommitStep(st, IncrementalRun(st, fetch, cursorsOk), commitOk).cursors == st.cursors
  {
  }

  /** The cursor for an answer: its latest time, or the old one if the answer is empty. */
  ghost predicate Follows(before: Option<int>, items: seq<Item>, after: Option<int>) {
    if items == [] then after == before
    else
      && after.Some?
      && (exists x :: x in items && x.updatedAt == after.value)
      && forall x :: x in items ==> x.updatedAt <= after.value
  }

  lemma CursorsWritten(st: Store, fetch: Fetch)
    requires !IncrementalRun(st, fetch, true).failed && AllAnswered(st, fetch)
    ensures var s := IncrementalRun(st, fetch, true);
            && s.cursors == WriteCursors(st.cursors, s.newCursors)
            && s.newCursors == Noted(Noted(Noted(map[], Iterations, Answer(st, fetch, Iterations).value),
                                           Issues, Answer(st, fetch, Issues).value),
                                     Assignments, Answer(st, fetch, Assignments).value)
  {
  }

  lemma NewCursors(st: Store, fetch: Fetch, src: Source)
    requires !IncrementalRun(st, fetch, true).failed && AllAnswered(st, fetch)
    ensures var s := IncrementalRun(st, fetch, true);
            var items := Answer(st, fetch, src).value;
            && (src in s.newCursors <==> items != [])
            && (src in s.newCursors ==> s.newCursors[src] == MaxUpdated(items))
            && CursorOf(s.cursors, src) == if src in s.newCursors then Some(s.newCursors[src]) else CursorOf(st.cursors, src)
  {
    CursorsWritten(st, fetch);
    NotedBy(src, Answer(st, fetch, Iterations).value, Answer(st, fetch, Issues).value,
            Answer(st, fetch, Assignments).value);
  }

  lemma NotedBy(src: Source, a: seq<Item>, b: seq<Item>, c: seq<Item>)
    ensures var items := match src case Iterations => a case Issues => b case Assignments => c;
            var news := Noted(Noted(Noted(map[], Iterations, a), Issues, b), Assignments, c);
            && (src in news <==> items != [])
            && (src in news ==> news[src] == MaxUpdated(items))
  {
  }

  /** After a committed run every cursor is the latest time of its source's answer, or as it was. */
  lemma CursorsAfterRun(st: Store, fetch: Fetch, src: Source)
    requires !IncrementalRun(st, fetch, true).failed && AllAnswered(st, fetch)
    ensures var after := CommitStep(st, IncrementalRun(st, fetch, true), true);
            Follows(CursorOf(st.cursors, src), Answer(st, fetch, src).value, CursorOf(after.cursors, src))
  {
    NewCursors(st, fetch, src);
    var items := Answer(st, fetch, src).value;
    if items != [] {
      var m := MaxUpdated(items);
    }
  }

  /** A run's work is committed exactly if its session is still open and the commit goes through. */
  lemma CommittedExactly(st: Store, s: Sess, commitOk: bool)
    ensures Raises(s, commitOk) ==> CommitStep(st, s, commitOk) == st
    ensures !Raises(s, commitOk) ==>
              s.tx.Open? && CommitStep(st, s, commitOk) == Store(s.tx.m, s.cursors, s.handed)
  {
  }

  /** In the protocol a fetch, failed or not, moves the session on to the next source. */
  lemma FetchMovesOn(s: State, ev: Event)
    requires Enabled(s, ev) && (ev.FetchOk? || ev.FetchFailed?)
    ensures var t := Next(s, ev);
            && t.session.Some? && t.stage == s.stage + 1
            && t.store == s.store && t.remote == s.remote && t.full == s.full
            && (ev.FetchFailed? ==> t.session.value.failed && t.session.value.tx == s.session.value.tx)
  {
  }
}
