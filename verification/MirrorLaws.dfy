/** What whole batches do to the mirror: last writer wins, replay, stable ids, references. */
module MirrorLaws {
  import opened Options
  import opened Tables
  import opened Mirror

  // ---- The writes a batch amounts to -------------------------------------------------------------

  ghost function IterationWrites(ps: seq<Payload>): seq<(string, Iteration)> {
    if ps == [] then []
    else
      var before, p := IterationWrites(ps[..|ps| - 1]), ps[|ps| - 1];
      if ValidIteration(p) then before + [(p["id"].text, IterationOf(p))] else before
  }

  ghost function IssueWrites(its: Table<string, Iteration>, ps: seq<Payload>): seq<(string, Issue)> {
    if ps == [] then []
    else
      var before, p := IssueWrites(its, ps[..|ps| - 1]), ps[|ps| - 1];
      if ValidIssue(p) then before + [(p["id"].text, IssueOf(its, p))] else before
  }

  ghost function AssignmentWrites(
    issues: Table<string, Issue>, people: map<string, nat>, ps: seq<Payload>)
    : seq<(AssignmentKey, Assignment)>
  {
    if ps == [] then []
    else
      var before, p := AssignmentWrites(issues, people, ps[..|ps| - 1]), ps[|ps| - 1];
      if ValidAssignment(p) && p["issue_id"].text in issues.rows then
        before + [((issues.rows[p["issue_id"].text].id, p["user_id"].text, p["role"].text),
                   AssignmentOf(people, p))]
      else before
  }

  /** The mirror after a batch that the database did not reject. */
  ghost function Written(src: Source, m: Mirror, ps: seq<Payload>): Mirror {
    match src
    case Iterations => m.(iterations := PutAll(m.iterations, IterationWrites(ps)))
    case Issues => m.(issues := PutAll(m.issues, IssueWrites(m.iterations, ps)))
    case Assignments =>
      m.(assignments := PutAll(m.assignments, AssignmentWrites(m.issues, m.people, ps)))
  }

  lemma PutAllSnoc<K(!new), C(!new)>(t: Table<K, C>, ws: seq<(K, C)>, w: (K, C))
    ensures PutAll(t, ws + [w]) == Put(PutAll(t, ws), w.0, w.1)
  {
    assert (ws + [w])[..|ws|] == ws;
  }

  lemma {:induction false} AbortedStays(src: Source, ps: seq<Payload>)
    ensures UpsertAll(src, Aborted, ps).tx == Aborted
  {
    if ps != [] {
      AbortedStays(src, ps[..|ps| - 1]);
    }
  }

  /** A valid payload that the tables refuse: a constraint fails, or another issue has the key. */
  predicate Rejected(src: Source, m: Mirror, p: Payload) {
    match src
    case Iterations => ValidIteration(p) && !IterationAllowed(IterationOf(p))
    case Issues =>
      && ValidIssue(p)
      && (!IssueAllowed(IssueOf(m.iterations, p)) || KeyTaken(m.issues, p["id"].text, p["key"].text))
    case Assignments =>
      && ValidAssignment(p) && p["issue_id"].text in m.issues.rows
      && !AssignmentAllowed(p["role"].text, AssignmentOf(m.people, p))
  }

  /** The `k`th payload is refused by the tables as its predecessors left them. */
  ghost predicate RejectedAt(src: Source, m: Mirror, ps: seq<Payload>, k: int) {
    0 <= k < |ps| && Rejected(src, Written(src, m, ps[..k]), ps[k])
  }

  ghost predicate SomeRejected(src: Source, m: Mirror, ps: seq<Payload>) {
    exists k :: RejectedAt(src, m, ps, k)
  }

  /** One payload on the tables as its predecessors left them. */
  lemma StepOnWritten(src: Source, m: Mirror, init: seq<Payload>, p: Payload)
    ensures UpsertStep(src, Open(Written(src, m, init)), p).0
         == if Rejected(src, Written(src, m, init), p) then Aborted
            else Open(Written(src, m, init + [p]))
  {
    assert (init + [p])[..|init|] == init;
    match src {
      case Iterations =>
        if ValidIteration(p) {
          PutAllSnoc(m.iterations, IterationWrites(init), (p["id"].text, IterationOf(p)));
        }
      case Issues =>
        if ValidIssue(p) {
          PutAllSnoc(m.issues, IssueWrites(m.iterations, init),
                     (p["id"].text, IssueOf(m.iterations, p)));
        }
      case Assignments =>
        if ValidAssignment(p) && p["issue_id"].text in m.issues.rows {
          var k := (m.issues.rows[p["issue_id"].text].id, p["user_id"].text, p["role"].text);
          PutAllSnoc(m.assignments, AssignmentWrites(m.issues, m.people, init),
                     (k, AssignmentOf(m.people, p)));
        }
    }
  }

  lemma SomeRejectedSnoc(src: Source, m: Mirror, ps: seq<Payload>, n: nat)
    requires |ps| == n + 1
    ensures SomeRejected(src, m, ps) <==> SomeRejected(src, m, ps[..n]) || RejectedAt(src, m, ps, n)
  {
    forall k | 0 <= k < n ensures RejectedAt(src, m, ps, k) <==> RejectedAt(src, m, ps[..n], k) {
      assert ps[..n][..k] == ps[..k];
    }
    if k :| RejectedAt(src, m, ps, k) {
      assert k < n ==> RejectedAt(src, m, ps[..n], k);
    }
    if k :| RejectedAt(src, m, ps[..n], k) {
      assert RejectedAt(src, m, ps, k);
    }
  }

  /**
   * What a batch amounts to, exactly: the session is lost if and only if the tables refuse some
   * payload as they stand when its turn comes, and otherwise every valid payload is written.
   */
  lemma {:induction false} BatchIsWrites(src: Source, m: Mirror, ps: seq<Payload>)
    ensures UpsertAll(src, Open(m), ps).tx
         == if SomeRejected(src, m, ps) then Aborted else Open(Written(src, m, ps))
  {
    if ps != [] {
      var n := |ps| - 1;
      BatchIsWrites(src, m, ps[..n]);
      SomeRejectedSnoc(src, m, ps, n);
      StepOnWritten(src, m, ps[..n], ps[n]);
      assert ps[..n] + [ps[n]] == ps;
    }
  }

  lemma {:induction false} AfterAbort(src: Source, before: Batch, tx: Tx, ps: seq<Payload>, rest: seq<Payload>)
    requires UpsertAll(src, tx, ps) == before && before.tx.Aborted?
    ensures UpsertAll(src, tx, ps + rest) == before
  {
    if rest == [] {
      assert ps + rest == ps;
    } else {
      var init := rest[..|rest| - 1];
      assert (ps + rest)[..|ps + rest| - 1] == ps + init;
      AfterAbort(src, before, tx, ps, init);
    }
  }

  /** After a refused payload nothing counts any more, however good the rest of the batch is. */
  lemma BadRowBlocksTheRest(src: Source, m: Mirror, init: seq<Payload>, bad: Payload, rest: seq<Payload>)
    requires UpsertAll(src, Open(m), init).tx.Open?
    requires Rejected(src, Written(src, m, init), bad)
    ensures var b := UpsertAll(src, Open(m), init + [bad] + rest);
            b.tx == Aborted && b.succeeded == UpsertAll(src, Open(m), init).succeeded
  {
    var ps := init + [bad];
    assert ps[..|ps| - 1] == init;
    BatchIsWrites(src, m, init);
    StepOnWritten(src, m, init, bad);
    AfterAbort(src, UpsertAll(src, Open(m), ps), Open(m), ps, rest);
  }

  function SamplePayload(id: string, start: int, end: int): Payload {
    map["id" := JText(id), "name" := JText("n"), "status" := JText("active"),
        "start_date" := JDate(start), "end_date" := JDate(end)]
  }

  /** An iteration that ends before it starts takes a good one after it down. */
  lemma BadRowExample(m: Mirror)
    ensures var bad, good := SamplePayload("a", 7, 1), SamplePayload("b", 1, 7);
            && UpsertAll(Iterations, Open(m), [good]).succeeded == 1
            && UpsertAll(Iterations, Open(m), [bad, good]).succeeded == 0
            && UpsertAll(Iterations, Open(m), [bad, good]).tx == Aborted
  {
    var bad, good := SamplePayload("a", 7, 1), SamplePayload("b", 1, 7);
    assert [good][..0] == [];
    assert ValidIteration(good) && IterationAllowed(IterationOf(good));
    assert ValidIteration(bad) && !IterationAllowed(IterationOf(bad));
    BadRowBlocksTheRest(Iterations, m, [], bad, [good]);
    assert [] + [bad] + [good] == [bad, good];
  }

  // ---- When the database accepts a batch ---------------------------------------------------------

  /** Each issue key belongs to one PM id, in the batch and against the table. */
  ghost predicate KeysOwned(t: Table<string, Issue>, ws: seq<(string, Issue)>) {
    && (forall v, w :: v in ws && w in ws && v.1.key == w.1.key ==> v.0 == w.0)
    && (forall w, id :: w in ws && id in t.rows && t.rows[id].content.key == w.1.key ==> id == w.0)
  }

  /** The CHECK constraints hold of every valid payload, and issue keys have one owner. */
  ghost predicate Accepted(src: Source, m: Mirror, ps: seq<Payload>) {
    match src
    case Iterations => forall p: Payload :: p in ps && ValidIteration(p) ==> IterationAllowed(IterationOf(p))
    case Issues =>
      && (forall p: Payload :: p in ps && ValidIssue(p) ==> IssueAllowed(IssueOf(m.iterations, p)))
      && KeysOwned(m.issues, IssueWrites(m.iterations, ps))
    case Assignments =>
      forall p: Payload :: p in ps && ValidAssignment(p) ==>
        AssignmentAllowed(p["role"].text, AssignmentOf(m.people, p))
  }

  lemma {:induction false} RowsFromWrites(t: Table<string, Issue>, ws: seq<(string, Issue)>, id: string)
    requires id in PutAll(t, ws).rows
    ensures var c := PutAll(t, ws).rows[id].content;
            (id, c) in ws || (id in t.rows && t.rows[id].content == c)
  {
    if ws != [] {
      var init, w := ws[..|ws| - 1], ws[|ws| - 1];
      if w.0 != id {
        RowsFromWrites(t, init, id);
      }
    }
  }

  lemma {:induction false} IssueWriteAllowed(its: Table<string, Iteration>, ps: seq<Payload>)
    ensures forall w :: w in IssueWrites(its, ps) ==>
              exists p: Payload :: p in ps && ValidIssue(p) && w == (p["id"].text, IssueOf(its, p))
    ensures forall p: Payload :: p in ps && ValidIssue(p) ==>
              (p["id"].text, IssueOf(its, p)) in IssueWrites(its, ps)
  {
    if ps != [] {
      IssueWriteAllowed(its, ps[..|ps| - 1]);
    }
  }

  lemma NoKeyTaken(t: Table<string, Issue>, ws: seq<(string, Issue)>, init: seq<(string, Issue)>, w: (string, Issue))
    requires KeysOwned(t, ws) && w in ws && forall v :: v in init ==> v in ws
    ensures !KeyTaken(PutAll(t, init), w.0, w.1.key)
  {
    forall other | other in PutAll(t, init).rows && PutAll(t, init).rows[other].content.key == w.1.key
      ensures other == w.0
    {
      RowsFromWrites(t, init, other);
    }
  }

  lemma {:induction false} AcceptedStaysOpen(src: Source, m: Mirror, all: seq<Payload>, ps: seq<Payload>)
    requires Accepted(src, m, all) && forall p: Payload :: p in ps ==> p in all
    ensures UpsertAll(src, Open(m), ps).tx == Open(Written(src, m, ps))
  {
    BatchIsWrites(src, m, ps);
    if ps != [] {
      var init, p := ps[..|ps| - 1], ps[|ps| - 1];
      AcceptedStaysOpen(src, m, all, init);
      if src == Issues && ValidIssue(p) {
        var ws, vs := IssueWrites(m.iterations, all), IssueWrites(m.iterations, init);
        IssueWriteAllowed(m.iterations, all);
        IssueWriteAllowed(m.iterations, init);
        NoKeyTaken(m.issues, ws, vs, (p["id"].text, IssueOf(m.iterations, p)));
      }
    }
  }

  // ---- A whole sync ------------------------------------------------------------------------------

  /** Payloads for the three sources, in the order they are upserted. */
  datatype Feed = Feed(iterations: seq<Payload>, issues: seq<Payload>, assignments: seq<Payload>)

  /** The three batches, up to `stage` of them. */
  ghost function Sync(tx: Tx, f: Feed, stage: nat): Tx {
    var a := if stage >= 1 then UpsertAll(Iterations, tx, f.iterations).tx else tx;
    var b := if stage >= 2 then UpsertAll(Issues, a, f.issues).tx else a;
    if stage >= 3 then UpsertAll(Assignments, b, f.assignments).tx else b
  }

  ghost function WrittenUpTo(m: Mirror, f: Feed, stage: nat): Mirror {
    var a := if stage >= 1 then Written(Iterations, m, f.iterations) else m;
    var b := if stage >= 2 then Written(Issues, a, f.issues) else a;
    if stage >= 3 then Written(Assignments, b, f.assignments) else b
  }

  ghost predicate FeedAccepted(m: Mirror, f: Feed) {
    var a := Written(Iterations, m, f.iterations);
    var b := Written(Issues, a, f.issues);
    && Accepted(Iterations, m, f.iterations)
    && Accepted(Issues, a, f.issues)
    && Accepted(Assignments, b, f.assignments)
  }

  lemma SyncIsWritten(m: Mirror, f: Feed, stage: nat)
    requires FeedAccepted(m, f)
    ensures Sync(Open(m), f, stage) == Open(WrittenUpTo(m, f, stage))
  {
    var a := Written(Iterations, m, f.iterations);
    var b := Written(Issues, a, f.issues);
    AcceptedStaysOpen(Iterations, m, f.iterations, f.iterations);
    AcceptedStaysOpen(Issues, a, f.issues, f.issues);
    AcceptedStaysOpen(Assignments, b, f.assignments, f.assignments);
  }

  lemma WrittenTwice(src: Source, m: Mirror, ps: seq<Payload>)
    ensures Written(src, Written(src, m, ps), ps) == Written(src, m, ps)
  {
    match src {
      case Iterations => PutAllIdempotent(m.iterations, IterationWrites(ps));
      case Issues => PutAllIdempotent(m.issues, IssueWrites(m.iterations, ps));
      case Assignments =>
        PutAllIdempotent(m.assignments, AssignmentWrites(m.issues, m.people, ps));
    }
  }

  /** After the first stages, starting over ends in the same mirror as starting fresh. */
  lemma StartOver(m: Mirror, f: Feed, stage: nat)
    ensures WrittenUpTo(WrittenUpTo(m, f, stage), f, 3) == WrittenUpTo(m, f, 3)
  {
    var a := Written(Iterations, m, f.iterations);
    WrittenTwice(Iterations, m, f.iterations);
    WrittenTwice(Issues, a, f.issues);
    WrittenTwice(Assignments, Written(Issues, a, f.issues), f.assignments);
  }

  /** A feed that was accepted once is accepted again, whatever part of it is already stored. */
  lemma AcceptedAgain(m: Mirror, f: Feed, stage: nat)
    requires FeedAccepted(m, f)
    ensures FeedAccepted(WrittenUpTo(m, f, stage), f)
  {
    var a := Written(Iterations, m, f.iterations);
    var ws := IssueWrites(a.iterations, f.issues);
    WrittenTwice(Iterations, m, f.iterations);
    forall w, id | w in ws && id in PutAll(a.issues, ws).rows
                 && PutAll(a.issues, ws).rows[id].content.key == w.1.key
      ensures id == w.0
    {
      RowsFromWrites(a.issues, ws, id);
    }
  }

  lemma {:induction false} OpenIsWritten(m: Mirror, f: Feed, stage: nat)
    requires Sync(Open(m), f, stage).Open?
    ensures Sync(Open(m), f, stage) == Open(WrittenUpTo(m, f, stage))
  {
    var a := Written(Iterations, m, f.iterations);
    BatchIsWrites(Iterations, m, f.iterations);
    BatchIsWrites(Issues, if stage >= 1 then a else m, f.issues);
    BatchIsWrites(Assignments, Written(Issues, a, f.issues), f.assignments);
    AbortedStays(Issues, f.issues);
    AbortedStays(Assignments, f.assignments);
  }

  /**
   * A sync that failed after any number of batches, its partial work committed, followed by a
   * successful one over the same feed leaves the mirror of one successful sync, internal ids
   * included. Replaying a successful sync is the case of three batches.
   */
  lemma FailedThenSuccessful(m: Mirror, f: Feed, stage: nat)
    requires Sync(Sync(Open(m), f, stage), f, 3).Open? && Sync(Open(m), f, 3).Open?
    ensures Sync(Sync(Open(m), f, stage), f, 3) == Sync(Open(m), f, 3)
  {
    if Sync(Open(m), f, stage).Aborted? {
      AbortedSync(f);
    }
    OpenIsWritten(m, f, stage);
    OpenIsWritten(m, f, 3);
    OpenIsWritten(WrittenUpTo(m, f, stage), f, 3);
    StartOver(m, f, stage);
  }

  lemma AbortedSync(f: Feed)
    ensures Sync(Aborted, f, 3) == Aborted
  {
    AbortedStays(Iterations, f.iterations);
    AbortedStays(Issues, f.issues);
    AbortedStays(Assignments, f.assignments);
  }

  /** With constraints met and one owner per issue key, both syncs do succeed. */
  lemma AcceptedFeedReplays(m: Mirror, f: Feed, stage: nat)
    requires FeedAccepted(m, f)
    ensures Sync(Open(m), f, stage).Open? && Sync(Open(m), f, 3).Open?
    ensures Sync(Sync(Open(m), f, stage), f, 3) == Sync(Open(m), f, 3)
  {
    SyncIsWritten(m, f, stage);
    SyncIsWritten(m, f, 3);
    AcceptedAgain(m, f, stage);
    SyncIsWritten(WrittenUpTo(m, f, stage), f, 3);
    FailedThenSuccessful(m, f, stage);
  }

  // ---- Replaying a committed batch ---------------------------------------------------------------

  predicate IdAt(ps: seq<Payload>, i: int, id: string) {
    0 <= i < |ps| && ValidIssue(ps[i]) && ps[i]["id"].text == id
  }

  /** Of two issues with one key, the later takes it over: first named after `k`, last at `l`. */
  ghost predicate HandsOver(ps: seq<Payload>, k: int, l: int) {
    && 0 <= k < l < |ps| && ValidIssue(ps[k]) && ValidIssue(ps[l])
    && ps[k]["id"].text != ps[l]["id"].text && ps[k]["key"].text == ps[l]["key"].text
    && (forall i :: i < k ==> !IdAt(ps, i, ps[l]["id"].text))
    && (forall i :: i > l ==> !IdAt(ps, i, ps[l]["id"].text))
  }

  /** The last payload about an issue decides its last write. */
  lemma {:induction false} LastIssueAt(its: Table<string, Iteration>, ps: seq<Payload>, id: string)
    returns (l: int)
    ensures l < 0 ==> LastWrite(IssueWrites(its, ps), id).None? && forall i :: !IdAt(ps, i, id)
    ensures l >= 0 ==>
              && IdAt(ps, l, id) && (forall i :: i > l ==> !IdAt(ps, i, id))
              && LastWrite(IssueWrites(its, ps), id) == Some(IssueOf(its, ps[l]))
  {
    if ps == [] {
      return -1;
    }
    var n := |ps| - 1;
    if IdAt(ps, n, id) {
      return n;
    }
    l := LastIssueAt(its, ps[..n], id);
    assert forall i :: i < n ==> (IdAt(ps, i, id) <==> IdAt(ps[..n], i, id));
  }

  /** The key that issue `id` has once the first `k` payloads are written, if it has one. */
  function KeyIn(t: Table<string, Issue>, id: string): Option<string> {
    if id in t.rows then Some(t.rows[id].content.key) else None
  }

  /** The issues before the `k`th payload, the first time and on the replay. */
  ghost function FirstTime(m: Mirror, ps: seq<Payload>, k: nat): Table<string, Issue>
    requires k <= |ps|
  {
    PutAll(m.issues, IssueWrites(m.iterations, ps[..k]))
  }

  ghost function OnReplay(m: Mirror, ps: seq<Payload>, k: nat): Table<string, Issue>
    requires k <= |ps|
  {
    PutAll(PutAll(m.issues, IssueWrites(m.iterations, ps)), IssueWrites(m.iterations, ps[..k]))
  }

  /** A replay sees an issue differently only before the first payload about it: as the last left it. */
  lemma KeySeen(m: Mirror, ps: seq<Payload>, k: nat, id: string) returns (l: int)
    requires k < |ps|
    ensures l < 0 ==> KeyIn(OnReplay(m, ps, k), id) == KeyIn(FirstTime(m, ps, k), id)
    ensures l < 0 ==> (exists i :: i < k && IdAt(ps, i, id)) || forall i :: !IdAt(ps, i, id)
    ensures l >= 0 ==>
              && IdAt(ps, l, id) && (forall i :: i > l ==> !IdAt(ps, i, id))
              && (forall i :: i < k ==> !IdAt(ps, i, id))
              && KeyIn(OnReplay(m, ps, k), id) == Some(ps[l]["key"].text)
  {
    var its := m.iterations;
    var early, all := IssueWrites(its, ps[..k]), IssueWrites(its, ps);
    var e := LastIssueAt(its, ps[..k], id);
    l := LastIssueAt(its, ps, id);
    assert forall i :: i < k ==> (IdAt(ps, i, id) <==> IdAt(ps[..k], i, id));
    PutAllMeaning(m.issues, early, id);
    PutAllMeaning(m.issues, all, id);
    PutAllMeaning(PutAll(m.issues, all), early, id);
    if e >= 0 {
      assert IdAt(ps, e, id);
      l := -1;
    }
  }

  lemma KeyTakenBy(t: Table<string, Issue>, id: string, key: string)
    ensures KeyTaken(t, id, key) <==> exists other :: other != id && KeyIn(t, other) == Some(key)
  {
    if KeyTaken(t, id, key) {
      var other :| other in t.rows && other != id && t.rows[other].content.key == key;
      assert KeyIn(t, other) == Some(key);
    }
  }

  lemma TakerHandsOver(m: Mirror, ps: seq<Payload>, k: nat, other: string)
    requires k < |ps| && ValidIssue(ps[k]) && other != ps[k]["id"].text
    requires KeyIn(OnReplay(m, ps, k), other) == Some(ps[k]["key"].text)
    requires KeyIn(FirstTime(m, ps, k), other) != Some(ps[k]["key"].text)
    ensures exists l :: HandsOver(ps, k, l)
  {
    var l := KeySeen(m, ps, k, other);
    assert HandsOver(ps, k, l);
  }

  lemma HandsOverTakes(m: Mirror, ps: seq<Payload>, k: nat, l: int)
    requires HandsOver(ps, k, l)
    ensures KeyIn(OnReplay(m, ps, k), ps[l]["id"].text) == Some(ps[k]["key"].text)
  {
    var id := ps[l]["id"].text;
    assert IdAt(ps, l, id);
    var j := KeySeen(m, ps, k, id);
    assert j == l;
  }

  lemma ReplayTakenAt(m: Mirror, ps: seq<Payload>, k: nat, id: string, key: string)
    requires k < |ps| && ValidIssue(ps[k]) && ps[k]["id"].text == id && ps[k]["key"].text == key
    requires !KeyTaken(FirstTime(m, ps, k), id, key)
    ensures KeyTaken(OnReplay(m, ps, k), id, key) <==> exists l :: HandsOver(ps, k, l)
  {
    KeyTakenBy(FirstTime(m, ps, k), id, key);
    KeyTakenBy(OnReplay(m, ps, k), id, key);
    if other :| other != id && KeyIn(OnReplay(m, ps, k), other) == Some(key) {
      TakerHandsOver(m, ps, k, other);
    }
    if l :| HandsOver(ps, k, l) {
      HandsOverTakes(m, ps, k, l);
    }
  }

  lemma ReplayRefusedAt(m: Mirror, ps: seq<Payload>, k: nat)
    requires k < |ps| && !SomeRejected(Issues, m, ps)
    ensures RejectedAt(Issues, Written(Issues, m, ps), ps, k) <==> exists l :: HandsOver(ps, k, l)
  {
    assert !RejectedAt(Issues, m, ps, k);
    if ValidIssue(ps[k]) {
      ReplayTakenAt(m, ps, k, ps[k]["id"].text, ps[k]["key"].text);
    }
  }

  /**
   * Exactly when a committed batch can be replayed: iterations and assignments always; issues
   * unless the batch hands a key over to an issue that it names only later.
   */
  lemma ReplayExactly(src: Source, m: Mirror, ps: seq<Payload>)
    requires UpsertAll(src, Open(m), ps).tx.Open?
    ensures var tx := UpsertAll(src, Open(m), ps).tx;
            UpsertAll(src, tx, ps).tx
            == if src == Issues && exists k, l :: HandsOver(ps, k, l) then Aborted else tx
  {
    BatchIsWrites(src, m, ps);
    var m' := Written(src, m, ps);
    BatchIsWrites(src, m', ps);
    WrittenTwice(src, m, ps);
    forall k | 0 <= k < |ps|
      ensures RejectedAt(src, m', ps, k) <==> src == Issues && exists l :: HandsOver(ps, k, l)
    {
      if src == Issues {
        ReplayRefusedAt(m, ps, k);
      } else {
        assert !RejectedAt(src, m, ps, k);
      }
    }
    if src == Issues && exists k, l :: HandsOver(ps, k, l) {
      var k, l :| HandsOver(ps, k, l);
      assert RejectedAt(src, m', ps, k);
    }
  }

  function SampleIssue(id: string, key: string): Payload {
    map["id" := JText(id), "key" := JText(key), "title" := JText("t"), "type" := JText("task"),
        "priority" := JText("low"), "status" := JText("open")]
  }

  function SampleRow(key: string): Issue {
    Issue(key, "t", "task", "low", "open", None, None, None, None)
  }

  lemma SampleIssueStep(m: Mirror, id: string, key: string)
    ensures UpsertStep(Issues, Open(m), SampleIssue(id, key)).0
         == if KeyTaken(m.issues, id, key) then Aborted
            else Open(m.(issues := Put(m.issues, id, SampleRow(key))))
    ensures Rejected(Issues, m, SampleIssue(id, key)) <==> KeyTaken(m.issues, id, key)
  {
    var p := SampleIssue(id, key);
    assert ValidIssue(p) && IssueOf(m.iterations, p) == SampleRow(key);
  }

  /** Issue `a` gives up key `k` for `l`, and `b` takes it. */
  function Handover(a: string, b: string, k: string, l: string): seq<Payload> {
    [SampleIssue(a, k), SampleIssue(a, l), SampleIssue(b, k)]
  }

  lemma HandoverAccepted(m: Mirror, a: string, b: string, k: string, l: string)
    requires m.issues.rows == map[] && a != b && k != l
    ensures var tx := UpsertAll(Issues, Open(m), Handover(a, b, k, l)).tx;
            tx.Open? && KeyTaken(tx.m.issues, a, k)
  {
    SampleIssueStep(m, a, k);
    var m1 := m.(issues := Put(m.issues, a, SampleRow(k)));
    SampleIssueStep(m1, a, l);
    var m2 := m1.(issues := Put(m1.issues, a, SampleRow(l)));
    SampleIssueStep(m2, b, k);
    var m3 := m2.(issues := Put(m2.issues, b, SampleRow(k)));
    ThreeSteps(Issues, Open(m), SampleIssue(a, k), SampleIssue(a, l), SampleIssue(b, k));
    assert b in m3.issues.rows && m3.issues.rows[b].content.key == k;
  }

  /** A key that passes from one issue to another within a batch is accepted once only. */
  lemma ReplayMayBeRefused(m: Mirror, a: string, b: string, k: string, l: string)
    requires m.issues.rows == map[] && a != b && k != l
    ensures var ps := Handover(a, b, k, l);
            var tx := UpsertAll(Issues, Open(m), ps).tx;
            tx.Open? && UpsertAll(Issues, tx, ps).tx == Aborted
  {
    HandoverAccepted(m, a, b, k, l);
    var tx := UpsertAll(Issues, Open(m), Handover(a, b, k, l)).tx;
    SampleIssueStep(tx.m, a, k);
    FirstRefused(Issues, tx.m, SampleIssue(a, k), [SampleIssue(a, l), SampleIssue(b, k)]);
    assert [SampleIssue(a, k)] + [SampleIssue(a, l), SampleIssue(b, k)] == Handover(a, b, k, l);
  }

  lemma FirstRefused(src: Source, m: Mirror, p: Payload, rest: seq<Payload>)
    requires Rejected(src, m, p)
    ensures UpsertAll(src, Open(m), [p] + rest).tx == Aborted
  {
    assert Written(src, m, []) == m;
    BadRowBlocksTheRest(src, m, [], p, rest);
    assert [] + [p] + rest == [p] + rest;
  }

  lemma ThreeSteps(src: Source, tx: Tx, p: Payload, q: Payload, r: Payload)
    ensures UpsertAll(src, tx, [p, q, r]).tx
         == UpsertStep(src, UpsertStep(src, UpsertStep(src, tx, p).0, q).0, r).0
  {
    var ps := [p, q, r];
    assert ps[..2] == [p, q] && [p, q][..1] == [p] && [p][..0] == [];
    assert UpsertAll(src, tx, [p]).tx == UpsertStep(src, tx, p).0;
    assert UpsertAll(src, tx, [p, q]).tx == UpsertStep(src, UpsertAll(src, tx, [p]).tx, q).0;
  }

  // ---- Stable ids and references -----------------------------------------------------------------

  ghost predicate HasId<K(!new), C(!new)>(t: Table<K, C>, id: nat) {
    exists k :: k in t.rows && t.rows[k].id == id
  }

  /** Every stored assignment has its issue, every stored link its iteration. */
  ghost predicate References(m: Mirror) {
    && IdsOk(m.iterations) && IdsOk(m.issues) && IdsOk(m.assignments)
    && (forall id :: id in m.issues.rows && m.issues.rows[id].content.iteration.Some? ==>
          HasId(m.iterations, m.issues.rows[id].content.iteration.value))
    && (forall k :: k in m.assignments.rows ==> HasId(m.issues, k.0))
  }

  ghost predicate Grows(m: Mirror, m': Mirror) {
    && KeepsIds(m.iterations, m'.iterations)
    && KeepsIds(m.issues, m'.issues)
    && KeepsIds(m.assignments, m'.assignments)
    && m'.people == m.people
  }

  lemma HasIdKept<K(!new), C(!new)>(t: Table<K, C>, t': Table<K, C>, id: nat)
    requires HasId(t, id) && KeepsIds(t, t')
    ensures HasId(t', id)
  {
    var k :| k in t.rows && t.rows[k].id == id;
    assert k in t'.rows && t'.rows[k].id == id;
  }

  lemma PutKeepsIds<K(!new), C(!new)>(t: Table<K, C>, k: K, c: C)
    requires IdsOk(t)
    ensures IdsOk(Put(t, k, c)) && KeepsIds(t, Put(t, k, c))
  {
  }

  lemma StepKeepsReferences(src: Source, m: Mirror, p: Payload)
    requires References(m) && UpsertStep(src, Open(m), p).0.Open?
    ensures var m' := UpsertStep(src, Open(m), p).0.m; References(m') && Grows(m, m')
  {
    match src {
      case Iterations =>
        if ValidIteration(p) {
          PutKeepsIds(m.iterations, p["id"].text, IterationOf(p));
          var its := Put(m.iterations, p["id"].text, IterationOf(p));
          forall id | id in m.issues.rows && m.issues.rows[id].content.iteration.Some?
            ensures HasId(its, m.issues.rows[id].content.iteration.value)
          {
            HasIdKept(m.iterations, its, m.issues.rows[id].content.iteration.value);
          }
        }
      case Issues =>
        if ValidIssue(p) {
          var c := IssueOf(m.iterations, p);
          PutKeepsIds(m.issues, p["id"].text, c);
          var issues := Put(m.issues, p["id"].text, c);
          forall k | k in m.assignments.rows ensures HasId(issues, k.0) {
            HasIdKept(m.issues, issues, k.0);
          }
        }
      case Assignments =>
        if ValidAssignment(p) && p["issue_id"].text in m.issues.rows {
          var k := (m.issues.rows[p["issue_id"].text].id, p["user_id"].text, p["role"].text);
          PutKeepsIds(m.assignments, k, AssignmentOf(m.people, p));
          assert HasId(m.issues, k.0);
        }
    }
  }

  lemma GrowsTrans(a: Mirror, b: Mirror, c: Mirror)
    requires Grows(a, b) && Grows(b, c)
    ensures Grows(a, c)
  {
  }

  /** Every batch keeps the references and never changes an internal id once given to a PM id. */
  lemma {:induction false} BatchKeepsReferences(src: Source, m: Mirror, ps: seq<Payload>)
    requires References(m) && UpsertAll(src, Open(m), ps).tx.Open?
    ensures var m' := UpsertAll(src, Open(m), ps).tx.m; References(m') && Grows(m, m')
  {
    if ps != [] {
      var init, p := ps[..|ps| - 1], ps[|ps| - 1];
      BatchKeepsReferences(src, m, init);
      var mid := UpsertAll(src, Open(m), init).tx.m;
      StepKeepsReferences(src, mid, p);
      GrowsTrans(m, mid, UpsertAll(src, Open(m), ps).tx.m);
    }
  }

  // ---- What the comments promise and the code does not do ---------------------------------------

  /**
   * The missing-field report is always empty except for unsynced issues: a payload that lacks a
   * required field is rejected by validation before its missing fields are reported.
   */
  lemma {:induction false} MissingFieldsNeverReported(src: Source, tx: Tx, ps: seq<Payload>)
    ensures OnlyUnsynced(src, UpsertAll(src, tx, ps).missing)
  {
    if ps != [] {
      var before := UpsertAll(src, tx, ps[..|ps| - 1]);
      var (tx', o) := UpsertStep(src, before.tx, ps[|ps| - 1]);
      MissingFieldsNeverReported(src, tx, ps[..|ps| - 1]);
      StepReports(src, before.tx, ps[|ps| - 1]);
      if o.Done? {
        OnlyUnsyncedAppend(src, before.missing, o.missing);
      }
    }
  }

  ghost predicate OnlyUnsynced(src: Source, missing: seq<string>) {
    && (src != Assignments ==> missing == [])
    && forall i :: 0 <= i < |missing| ==> missing[i] == "issue_not_synced"
  }

  lemma OnlyUnsyncedAppend(src: Source, a: seq<string>, b: seq<string>)
    requires OnlyUnsynced(src, a) && OnlyUnsynced(src, b)
    ensures OnlyUnsynced(src, a + b)
  {
    forall i | 0 <= i < |a + b| ensures (a + b)[i] == "issue_not_synced" {
      if i < |a| {
        assert (a + b)[i] == a[i];
      } else {
        assert (a + b)[i] == b[i - |a|];
      }
    }
  }

  lemma StepReports(src: Source, tx: Tx, p: Payload)
    ensures var o := UpsertStep(src, tx, p).1; o.Done? ==> OnlyUnsynced(src, o.missing)
  {
    NothingMissing(p);
    assert [] + ["issue_not_synced"] == ["issue_not_synced"];
  }

  lemma NothingMissing(p: Payload)
    ensures ValidIteration(p) ==> DetectMissing(p, ITERATION_FIELDS) == []
    ensures ValidIssue(p) ==> DetectMissing(p, ISSUE_FIELDS) == []
    ensures ValidAssignment(p) ==> DetectMissing(p, ASSIGNMENT_FIELDS) == []
  {
    if ValidIteration(p) {
      AllPresent(p, ITERATION_FIELDS);
    }
    if ValidIssue(p) {
      AllPresent(p, ISSUE_FIELDS);
    }
    if ValidAssignment(p) {
      AllPresent(p, ASSIGNMENT_FIELDS);
    }
  }

  lemma {:induction false} AllPresent(p: Payload, required: seq<string>)
    requires forall f :: f in required ==> f in p && !p[f].JNull?
    ensures DetectMissing(p, required) == []
  {
    if required != [] {
      AllPresent(p, required[1..]);
    }
  }

  /**
   * A link is decided when the issue is upserted: it is the iteration's id if that row was there,
   * null otherwise. A later batch of iterations leaves every issue row as it is, so nothing is
   * filled in afterwards.
   */
  lemma LinkIsDecidedAtUpsert(m: Mirror, ps: seq<Payload>, id: string, later: seq<Payload>)
    requires LastWrite(IssueWrites(m.iterations, ps), id).Some?
    requires UpsertAll(Issues, Open(m), ps).tx.Open?
    requires UpsertAll(Iterations, UpsertAll(Issues, Open(m), ps).tx, later).tx.Open?
    ensures var c := LastWrite(IssueWrites(m.iterations, ps), id).value;
            var m' := UpsertAll(Iterations, UpsertAll(Issues, Open(m), ps).tx, later).tx.m;
            id in m'.issues.rows && m'.issues.rows[id].content == c
  {
    BatchIsWrites(Issues, m, ps);
    PutAllMeaning(m.issues, IssueWrites(m.iterations, ps), id);
    BatchIsWrites(Iterations, Written(Issues, m, ps), later);
  }
}
