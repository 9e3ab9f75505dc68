/**
 * The analysis pipeline as a protocol of committed transactions. Any number of workers and HTTP
 * requests act on the same database; one event is one transaction, or one check before it.
 */
module Pipeline {
  import opened Options

  type RunId = nat

  datatype Status =
    | TriggerReceived | GitFetching | GitIngested | ReviewStarted | ReviewCompleted
    | Scored | Completed | PartialAnalysis | Rejected | Failed

  /** `closed`: the row has a completion time. */
  datatype RunRow = RunRow(status: Status, failureReason: Option<string>, closed: bool)

  /** The tables; a score or report row is known by its run. */
  datatype Db = Db(runs: map<RunId, RunRow>, scores: seq<RunId>, reports: seq<RunId>)

  datatype Kind = Worker | HttpIngest | HttpReview | HttpScore | HttpReport

  datatype Pc =
    | IngestBegin | IngestFetch | ReviewBegin | Reviewing
    | ScoreGuard | ScoreInsert | ReportGuard | ReportInsert | Finalize
    | Raising(reason: string) | Done | Raised

  /** One execution; `scored` and `reported` record which rows it inserted itself. */
  datatype Exec = Exec(run: RunId, kind: Kind, pc: Pc, scored: bool, reported: bool)

  datatype State = State(db: Db, execs: seq<Exec>)

  /**
   * What the environment does to one step. `RecordFailure` marks the run and raises, with a text
   * for each; `Lost` commits the step, skipping the review or not, and raises all the same.
   */
  datatype Choice =
    | Succeed | SkipReview | Raise(reason: string)
    | RecordFailure(recorded: string, raised: string) | Lost(skip: bool, reason: string)

  datatype Event = Deliver(run: RunId, kind: Kind) | Proceed(exec: nat, choice: Choice)

  // ---- Steps -----------------------------------------------------------------------------------

  predicate Terminal(s: Status) {
    s == Completed || s == PartialAnalysis || s == Failed || s == Rejected
  }

  function SetStatus(db: Db, run: RunId, status: Status, reason: Option<string>): Db {
    if run !in db.runs then db
    else
      var row := db.runs[run];
      db.(runs := db.runs[run := RunRow(
        status,
        if reason.Some? then reason else row.failureReason,
        row.closed || Terminal(status))])
  }

  function FirstPc(kind: Kind): Pc {
    match kind
    case Worker => IngestBegin
    case HttpIngest => IngestBegin
    case HttpReview => ReviewBegin
    case HttpScore => ScoreGuard
    case HttpReport => ReportGuard
  }

  /** After a phase a worker goes on; a request has returned. */
  function Then(x: Exec, pc: Pc): Exec {
    x.(pc := if x.kind == Worker then pc else Done)
  }

  /** An exception: a worker still has to mark the run, a request is answered at once. */
  function Throw(x: Exec, reason: string): Exec {
    x.(pc := if x.kind == Worker then Raising(reason) else Raised)
  }

  function IngestStep(db: Db, x: Exec, c: Choice): (Db, Exec)
    requires x.pc == IngestBegin || x.pc == IngestFetch
  {
    if x.pc == IngestBegin then
      if x.run !in db.runs then (db, Throw(x, "run not found"))
      else if c.Raise? then (db, Throw(x, c.reason))
      else (SetStatus(db, x.run, GitFetching, None), x.(pc := IngestFetch))
    else
      match c
      case Raise(r) => (db, Throw(x, r))
      case RecordFailure(r, e) => (SetStatus(db, x.run, Failed, Some(r)), Throw(x, e))
      case _ => (SetStatus(db, x.run, GitIngested, None), Then(x, ReviewBegin))
  }

  function ReviewStep(db: Db, x: Exec, c: Choice): (Db, Exec)
    requires x.pc == ReviewBegin || x.pc == Reviewing
  {
    if c.Raise? then (db, Throw(x, c.reason))
    else if c.RecordFailure? && x.kind == Worker then
      (SetStatus(db, x.run, Failed, Some(c.recorded)), Throw(x, c.raised))
    else if x.pc == ReviewBegin then
      if c.SkipReview? && x.kind == Worker then
        (SetStatus(db, x.run, ReviewCompleted, None), Then(x, ScoreGuard))
      else if x.run !in db.runs then (db, Throw(x, "run not found"))
      else (SetStatus(db, x.run, ReviewStarted, None), x.(pc := Reviewing))
    else
      (SetStatus(db, x.run, ReviewCompleted, None), Then(x, ScoreGuard))
  }

  function ScoreStep(db: Db, x: Exec, c: Choice): (Db, Exec)
    requires x.pc == ScoreGuard || x.pc == ScoreInsert
  {
    if c.Raise? then (db, Throw(x, c.reason))
    else if x.run !in db.runs then (db, Throw(x, "run not found"))
    else if x.run in db.scores then (db, Throw(x, "already scored"))
    else if x.pc == ScoreGuard then (db, x.(pc := ScoreInsert))
    else
      (SetStatus(db, x.run, Scored, None).(scores := db.scores + [x.run]),
       Then(x, ReportGuard).(scored := true))
  }

  function ReportStep(db: Db, x: Exec, c: Choice): (Db, Exec)
    requires x.pc == ReportGuard || x.pc == ReportInsert
  {
    if c.Raise? then (db, Throw(x, c.reason))
    else if x.run !in db.runs then (db, Throw(x, "run not found"))
    else if x.run in db.reports then (db, Throw(x, "already reported"))
    else if x.pc == ReportGuard then (db, x.(pc := ReportInsert))
    else (db.(reports := db.reports + [x.run]), Then(x, Finalize).(reported := true))
  }

  const REASON_LIMIT := 500

  function Cut(reason: string): string {
    if |reason| > REASON_LIMIT then reason[..REASON_LIMIT] else reason
  }

  function Act(db: Db, x: Exec, c: Choice): (Db, Exec) {
    match x.pc
    case IngestBegin => IngestStep(db, x, c)
    case IngestFetch => IngestStep(db, x, c)
    case ReviewBegin => ReviewStep(db, x, c)
    case Reviewing => ReviewStep(db, x, c)
    case ScoreGuard => ScoreStep(db, x, c)
    case ScoreInsert => ScoreStep(db, x, c)
    case ReportGuard => ReportStep(db, x, c)
    case ReportInsert => ReportStep(db, x, c)
    case Finalize =>
      if c.Raise? then (db, Throw(x, c.reason))
      else (SetStatus(db, x.run, Completed, None), x.(pc := Done))
    case Raising(r) =>
      (if c.Raise? then db else SetStatus(db, x.run, Failed, Some(Cut(r))), x.(pc := Raised))
    case Done => (db, x)
    case Raised => (db, x)
  }

  /** What a step commits, its answer lost or not. */
  function Effect(c: Choice): Choice {
    if c.Lost? then (if c.skip then SkipReview else Succeed) else c
  }

  predicate Stopped(pc: Pc) {
    pc.Raising? || pc.Raised?
  }

  function ExecStep(db: Db, x: Exec, c: Choice): (Db, Exec) {
    var (db', y) := Act(db, x, Effect(c));
    if c.Lost? && x.pc != Done && !Stopped(y.pc) then (db', Throw(y, c.reason)) else (db', y)
  }

  function Step(s: State, ev: Event): State {
    match ev
    case Deliver(run, kind) =>
      s.(execs := s.execs + [Exec(run, kind, FirstPc(kind), false, false)])
    case Proceed(e, c) =>
      if e >= |s.execs| then s
      else
        var (db, x) := ExecStep(s.db, s.execs[e], c);
        State(db, s.execs[e := x])
  }

  function Run(s: State, evs: seq<Event>): State
    decreases evs
  {
    if evs == [] then s else Run(Step(s, evs[0]), evs[1..])
  }

  // ---- The invariant ---------------------------------------------------------------------------

  ghost predicate NoRepeats(rows: seq<RunId>) {
    forall i, j :: 0 <= i < j < |rows| ==> rows[i] != rows[j]
  }

  predicate PastScore(pc: Pc) {
    pc == ReportGuard || pc == ReportInsert || pc == Finalize || pc == Done
  }

  predicate PastReport(pc: Pc) {
    pc == Finalize || pc == Done
  }

  ghost predicate ExecOk(db: Db, x: Exec) {
    && (x.scored ==> x.run in db.scores)
    && (x.reported ==> x.run in db.reports)
    && (x.kind == Worker && PastScore(x.pc) ==> x.scored && x.run in db.runs)
    && (x.kind == Worker && PastReport(x.pc) ==> x.reported)
    && (x.pc == Finalize ==> x.kind == Worker)
    && (x.pc.Raising? ==> x.kind == Worker)
    && (x.reported && !x.pc.Done? && !x.pc.Finalize? ==> x.pc.Raising? || x.pc.Raised?)
  }

  ghost predicate Inv(s: State) {
    && NoRepeats(s.db.scores)
    && NoRepeats(s.db.reports)
    && (forall e :: 0 <= e < |s.execs| ==> ExecOk(s.db, s.execs[e]))
    && (forall d, e :: 0 <= d < e < |s.execs| && s.execs[d].run == s.execs[e].run ==>
          !(s.execs[d].scored && s.execs[e].scored) && !(s.execs[d].reported && s.execs[e].reported))
    && (forall r :: r in s.db.runs && s.db.runs[r].status == Completed ==>
          r in s.db.scores && r in s.db.reports)
    && (forall r :: r in s.db.runs && Terminal(s.db.runs[r].status) ==> s.db.runs[r].closed)
    && (forall r :: r in s.db.runs && s.db.runs[r].status == Failed ==>
          s.db.runs[r].failureReason.Some?)
  }

  /** Before any execution, with the tables in order. */
  ghost predicate Init(s: State) {
    s.execs == [] && Inv(s)
  }

  lemma DeliverKeepsInv(s: State, run: RunId, kind: Kind)
    requires Inv(s)
    ensures Inv(Step(s, Deliver(run, kind)))
  {
  }

  /** What one transaction does to the tables, as far as other executions can tell. */
  ghost predicate Extends(db: Db, db': Db, x: Exec, x': Exec) {
    && x'.run == x.run && x'.kind == x.kind
    && db'.runs.Keys == db.runs.Keys
    && (db'.scores == db.scores || (db'.scores == db.scores + [x.run] && x.run !in db.scores && x'.scored))
    && (db'.reports == db.reports || (db'.reports == db.reports + [x.run] && x.run !in db.reports && x'.reported))
    && (x'.scored && !x.scored ==> x.run !in db.scores && x.run in db'.scores)
    && (x'.reported && !x.reported ==> x.run !in db.reports && x.run in db'.reports)
    && (x.scored ==> x'.scored) && (x.reported ==> x'.reported)
    && (forall r :: r in db.runs && r != x.run ==> db'.runs[r] == db.runs[r])
    && (x.run in db.runs ==> RowExtends(db.runs[x.run], db'.runs[x.run], x.pc))
  }

  ghost predicate RowExtends(row: RunRow, row': RunRow, pc: Pc) {
    && (row'.status == Completed ==> row.status == Completed || pc == Finalize)
    && (Terminal(row'.status) ==> row'.closed || row' == row)
    && (row'.status == Failed ==> row'.failureReason.Some? || row' == row)
    && (row.failureReason.Some? ==> row'.failureReason.Some?)
    && (row.closed ==> row'.closed)
  }

  lemma IngestStepExtends(db: Db, x: Exec, c: Choice)
    requires ExecOk(db, x) && (x.pc == IngestBegin || x.pc == IngestFetch)
    ensures var (db', x') := IngestStep(db, x, c); Extends(db, db', x, x') && ExecOk(db', x')
  {
  }

  lemma ReviewStepExtends(db: Db, x: Exec, c: Choice)
    requires ExecOk(db, x) && (x.pc == ReviewBegin || x.pc == Reviewing)
    ensures var (db', x') := ReviewStep(db, x, c); Extends(db, db', x, x') && ExecOk(db', x')
  {
  }

  lemma ScoreStepExtends(db: Db, x: Exec, c: Choice)
    requires ExecOk(db, x) && (x.pc == ScoreGuard || x.pc == ScoreInsert)
    ensures var (db', x') := ScoreStep(db, x, c); Extends(db, db', x, x') && ExecOk(db', x')
  {
  }

  lemma ReportStepExtends(db: Db, x: Exec, c: Choice)
    requires ExecOk(db, x) && (x.pc == ReportGuard || x.pc == ReportInsert)
    ensures var (db', x') := ReportStep(db, x, c); Extends(db, db', x, x') && ExecOk(db', x')
  {
  }

  lemma ExecStepExtends(db: Db, x: Exec, c: Choice)
    requires ExecOk(db, x)
    ensures var (db', x') := ExecStep(db, x, c); Extends(db, db', x, x') && ExecOk(db', x')
  {
    ActExtends(db, x, Effect(c));
    var (db', y) := Act(db, x, Effect(c));
    ThrowOk(db', y, if c.Lost? then c.reason else "");
  }

  lemma ThrowOk(db: Db, x: Exec, reason: string)
    requires ExecOk(db, x)
    ensures ExecOk(db, Throw(x, reason))
  {
  }

  lemma ActExtends(db: Db, x: Exec, c: Choice)
    requires ExecOk(db, x)
    ensures var (db', x') := Act(db, x, c); Extends(db, db', x, x') && ExecOk(db', x')
  {
    match x.pc {
      case IngestBegin => IngestStepExtends(db, x, c);
      case IngestFetch => IngestStepExtends(db, x, c);
      case ReviewBegin => ReviewStepExtends(db, x, c);
      case Reviewing => ReviewStepExtends(db, x, c);
      case ScoreGuard => ScoreStepExtends(db, x, c);
      case ScoreInsert => ScoreStepExtends(db, x, c);
      case ReportGuard => ReportStepExtends(db, x, c);
      case ReportInsert => ReportStepExtends(db, x, c);
      case Finalize =>
      case Raising(r) =>
      case Done =>
      case Raised =>
    }
  }

  lemma ProceedKeepsInv(s: State, e: nat, c: Choice)
    requires Inv(s) && e < |s.execs|
    ensures Inv(Step(s, Proceed(e, c)))
  {
    ExecStepExtends(s.db, s.execs[e], c);
  }

  lemma StepKeepsInv(s: State, ev: Event)
    requires Inv(s)
    ensures Inv(Step(s, ev))
  {
    match ev {
      case Deliver(run, kind) => DeliverKeepsInv(s, run, kind);
      case Proceed(e, c) => if e < |s.execs| { ProceedKeepsInv(s, e, c); }
    }
  }

  lemma {:induction false} RunKeepsInv(s: State, evs: seq<Event>)
    requires Inv(s)
    ensures Inv(Run(s, evs))
    decreases |evs|
  {
    if evs != [] {
      StepKeepsInv(s, evs[0]);
      RunKeepsInv(Step(s, evs[0]), evs[1..]);
    }
  }

  // ---- Safety over every interleaving ------------------------------------------------------------

  ghost predicate HasCompleted(s: State, e: int) {
    0 <= e < |s.execs| && s.execs[e].kind == Worker && s.execs[e].pc == Done
  }

  /**
   * For every interleaving of workers and requests, with failures anywhere: a run has at most one
   * score and one report, at most one worker returns completed for it, and status completed
   * means that both rows exist.
   */
  lemma PipelineSafety(s: State, evs: seq<Event>)
    requires Init(s)
    ensures var t := Run(s, evs);
            && NoRepeats(t.db.scores) && NoRepeats(t.db.reports)
            && (forall d, e :: (HasCompleted(t, d) && HasCompleted(t, e)
                                && t.execs[d].run == t.execs[e].run) ==> d == e)
            && (forall e :: HasCompleted(t, e) ==>
                  t.execs[e].run in t.db.scores && t.execs[e].run in t.db.reports)
            && (forall r :: r in t.db.runs && t.db.runs[r].status == Completed ==>
                  r in t.db.scores && r in t.db.reports)
  {
    RunKeepsInv(s, evs);
    var t := Run(s, evs);
    forall d, e | HasCompleted(t, d) && HasCompleted(t, e) && t.execs[d].run == t.execs[e].run
      ensures d == e
    {
    }
  }

  /** Rows are never taken back, and a failure reason or a completion time, once set, stays set. */
  lemma {:induction false} HistoryOnlyGrows(s: State, evs: seq<Event>)
    requires Inv(s)
    ensures var t := Run(s, evs);
            && s.db.scores <= t.db.scores && s.db.reports <= t.db.reports
            && t.db.runs.Keys == s.db.runs.Keys
            && forall r :: r in s.db.runs ==>
                 && (s.db.runs[r].failureReason.Some? ==> t.db.runs[r].failureReason.Some?)
                 && (s.db.runs[r].closed ==> t.db.runs[r].closed)
    decreases |evs|
  {
    if evs != [] {
      StepKeepsInv(s, evs[0]);
      StepGrows(s, evs[0]);
      HistoryOnlyGrows(Step(s, evs[0]), evs[1..]);
    }
  }

  lemma StepGrows(s: State, ev: Event)
    requires Inv(s)
    ensures var t := Step(s, ev);
            && s.db.scores <= t.db.scores && s.db.reports <= t.db.reports
            && t.db.runs.Keys == s.db.runs.Keys
            && forall r :: r in s.db.runs ==>
                 && (s.db.runs[r].failureReason.Some? ==> t.db.runs[r].failureReason.Some?)
                 && (s.db.runs[r].closed ==> t.db.runs[r].closed)
  {
    if ev.Proceed? && ev.exec < |s.execs| {
      ExecStepExtends(s.db, s.execs[ev.exec], ev.choice);
    }
  }

  // ---- Which runs can still complete -------------------------------------------------------------

  ghost predicate CompletedFor(s: State, r: RunId) {
    exists e :: HasCompleted(s, e) && s.execs[e].run == r
  }

  ghost predicate CanComplete(s: State, r: RunId) {
    exists evs :: CompletedFor(Run(s, evs), r)
  }

  ghost predicate Reporting(s: State, r: RunId, e: int) {
    && 0 <= e < |s.execs| && s.execs[e].run == r && s.execs[e].kind == Worker
    && (s.execs[e].pc == ReportGuard || s.execs[e].pc == ReportInsert)
  }

  ghost predicate Finalizing(s: State, r: RunId, e: int) {
    0 <= e < |s.execs| && s.execs[e].run == r && s.execs[e].pc == Finalize
  }

  /** A check of the tables and the live executions, made without looking ahead. */
  ghost predicate Live(s: State, r: RunId) {
    || CompletedFor(s, r)
    || (exists e :: Finalizing(s, r, e))
    || (r in s.db.runs && r !in s.db.reports
        && (r !in s.db.scores || exists e :: Reporting(s, r, e)))
  }

  lemma DeadStays(s: State, ev: Event, r: RunId)
    requires Inv(s) && Live(Step(s, ev), r)
    ensures Live(s, r)
  {
    var t := Step(s, ev);
    match ev {
      case Deliver(run, kind) =>
        if CompletedFor(t, r) {
          var e :| HasCompleted(t, e) && t.execs[e].run == r;
          assert HasCompleted(s, e);
        } else if e :| Finalizing(t, r, e) {
          assert Finalizing(s, r, e);
        } else if r in s.db.scores {
          var e :| Reporting(t, r, e);
          assert Reporting(s, r, e);
        }
      case Proceed(d, c) =>
        if d < |s.execs| {
          DeadStaysProceed(s, d, c, r);
        }
    }
  }

  lemma DeadStaysProceed(s: State, d: nat, c: Choice, r: RunId)
    requires Inv(s) && d < |s.execs| && Live(Step(s, Proceed(d, c)), r)
    ensures Live(s, r)
  {
    var t := Step(s, Proceed(d, c));
    var x := s.execs[d];
    ExecStepExtends(s.db, x, c);
    ExecStepFrom(s.db, x, c);
    if CompletedFor(t, r) {
      var e :| HasCompleted(t, e) && t.execs[e].run == r;
      assert e != d ==> HasCompleted(s, e);
      assert e == d ==> HasCompleted(s, d) || Finalizing(s, r, d);
    } else if e :| Finalizing(t, r, e) {
      assert e != d ==> Finalizing(s, r, e);
      assert e == d ==> Finalizing(s, r, d) || Reporting(s, r, d);
    } else if r in s.db.scores {
      var e :| Reporting(t, r, e);
      assert e != d ==> Reporting(s, r, e);
      assert e == d ==> Reporting(s, r, d);
    }
  }

  /** The only ways into the last steps of a worker. */
  lemma ExecStepFrom(db: Db, x: Exec, c: Choice)
    requires ExecOk(db, x)
    ensures var x' := ExecStep(db, x, c).1;
            && (x'.pc == Done && x.kind == Worker ==> x.pc == Done || x.pc == Finalize)
            && (x'.pc == Finalize ==>
                  x.pc == ReportInsert && x.run in db.runs && x.run !in db.reports)
            && (x'.pc == ReportInsert ==> x.pc == ReportGuard)
            && (x'.pc == ReportGuard && x.kind == Worker ==> x.pc == ScoreInsert && x.run !in db.scores)
  {
    var d := Effect(c);
    if x.pc == IngestBegin || x.pc == IngestFetch {
      assert Act(db, x, d) == IngestStep(db, x, d);
    } else if x.pc == ReviewBegin || x.pc == Reviewing {
      assert Act(db, x, d) == ReviewStep(db, x, d);
    } else if x.pc == ScoreGuard || x.pc == ScoreInsert {
      assert Act(db, x, d) == ScoreStep(db, x, d);
    } else if x.pc == ReportGuard || x.pc == ReportInsert {
      assert Act(db, x, d) == ReportStep(db, x, d);
    }
  }

  lemma {:induction false} CompletionNeedsLive(s: State, evs: seq<Event>, r: RunId)
    requires Inv(s) && CompletedFor(Run(s, evs), r)
    ensures Live(s, r)
    decreases |evs|
  {
    if evs != [] {
      StepKeepsInv(s, evs[0]);
      CompletionNeedsLive(Step(s, evs[0]), evs[1..], r);
      DeadStays(s, evs[0], r);
    }
  }

  lemma StepBack(s: State, ev: Event, r: RunId)
    requires CanComplete(Step(s, ev), r)
    ensures CanComplete(s, r)
  {
    var evs :| CompletedFor(Run(Step(s, ev), evs), r);
    assert ([ev] + evs)[1..] == evs;
    assert CompletedFor(Run(s, [ev] + evs), r);
  }

  lemma FromFinalize(s: State, r: RunId, e: nat)
    requires Inv(s) && Finalizing(s, r, e)
    ensures CanComplete(s, r)
  {
    var t := Step(s, Proceed(e, Succeed));
    assert HasCompleted(t, e);
    assert CompletedFor(Run(t, []), r);
    StepBack(s, Proceed(e, Succeed), r);
  }

  lemma FromReporting(s: State, r: RunId, e: nat)
    requires Inv(s) && Reporting(s, r, e) && r !in s.db.reports
    ensures CanComplete(s, r)
    decreases s.execs[e].pc == ReportGuard
  {
    var t := Step(s, Proceed(e, Succeed));
    StepKeepsInv(s, Proceed(e, Succeed));
    if s.execs[e].pc == ReportInsert {
      FromFinalize(t, r, e);
    } else {
      FromReporting(t, r, e);
    }
    StepBack(s, Proceed(e, Succeed), r);
  }

  function Rank(pc: Pc): nat {
    match pc
    case IngestBegin => 5
    case IngestFetch => 4
    case ReviewBegin => 3
    case ScoreGuard => 2
    case ScoreInsert => 1
    case _ => 0
  }

  /** A worker that meets no score and no report, and no failure, gets through. */
  lemma FromStart(s: State, r: RunId, e: nat)
    requires Inv(s) && r in s.db.runs && r !in s.db.scores && r !in s.db.reports
    requires e < |s.execs| && s.execs[e].run == r && s.execs[e].kind == Worker
    requires Rank(s.execs[e].pc) > 0
    ensures CanComplete(s, r)
    decreases Rank(s.execs[e].pc)
  {
    var ev := Proceed(e, SkipReview);
    var t := Step(s, ev);
    StepKeepsInv(s, ev);
    if s.execs[e].pc == ScoreInsert {
      FromReporting(t, r, e);
    } else {
      FromStart(t, r, e);
    }
    StepBack(s, ev, r);
  }

  /**
   * Exactly which runs some worker can still bring to completed. Retrying does not help a run
   * that already has a score: either the worker that scored it is still alive, or it is too late.
   */
  lemma CompletableExactly(s: State, r: RunId)
    requires Inv(s)
    ensures CanComplete(s, r) <==> Live(s, r)
  {
    if CanComplete(s, r) {
      var evs :| CompletedFor(Run(s, evs), r);
      CompletionNeedsLive(s, evs, r);
    }
    if Live(s, r) {
      if CompletedFor(s, r) {
        assert CompletedFor(Run(s, []), r);
      } else if e :| Finalizing(s, r, e) {
        FromFinalize(s, r, e);
      } else if r !in s.db.scores {
        var ev := Deliver(r, Worker);
        StepKeepsInv(s, ev);
        FromStart(Step(s, ev), r, |s.execs|);
        StepBack(s, ev, r);
      } else {
        var e :| Reporting(s, r, e);
        FromReporting(s, r, e);
      }
    }
  }

  /** Once the worker that scored a run has stopped, nothing can complete the run. */
  lemma StoppedScorerIsFinal(s: State, r: RunId, e: nat)
    requires Inv(s) && e < |s.execs| && s.execs[e].run == r && s.execs[e].scored
    requires Stopped(s.execs[e].pc)
    ensures !CanComplete(s, r)
  {
    OnlyScorer(s, r, e);
    CompletableExactly(s, r);
  }

  /**
   * The retry that the worker's re-raise asks for: once a worker has failed between its score and
   * completed, by an exception before or after the commit of any of those steps, no redelivery,
   * request or interleaving can complete the run.
   */
  lemma RetryAfterScoringIsFutile(s: State, r: RunId, e: nat, c: Choice)
    requires Inv(s) && (Reporting(s, r, e) || Finalizing(s, r, e))
    requires c.Raise? || c.Lost?
    ensures !CanComplete(Step(s, Proceed(e, c)), r)
  {
    var t := Step(s, Proceed(e, c));
    StepKeepsInv(s, Proceed(e, c));
    assert s.execs[e].scored;
    StopsScored(s.db, s.execs[e], c);
    StoppedScorerIsFinal(t, r, e);
  }

  lemma StopsScored(db: Db, x: Exec, c: Choice)
    requires x.pc == ReportGuard || x.pc == ReportInsert || x.pc == Finalize
    requires c.Raise? || c.Lost?
    ensures var y := ExecStep(db, x, c).1; Stopped(y.pc) && y.scored == x.scored && y.run == x.run
  {
  }

  lemma OnlyScorer(t: State, r: RunId, e: nat)
    requires Inv(t) && e < |t.execs| && t.execs[e].run == r && t.execs[e].scored
    requires !PastScore(t.execs[e].pc)
    ensures !Live(t, r)
  {
    forall d | 0 <= d < |t.execs| && t.execs[d].run == r && t.execs[d].kind == Worker
      ensures !PastScore(t.execs[d].pc)
    {
    }
  }

  // ---- What becomes of a completed run -----------------------------------------------------------

  ghost predicate StatusIs(s: State, r: RunId, status: Status) {
    r in s.db.runs && s.db.runs[r].status == status
  }

  /** A step of an execution on run `r` that writes a status other than completed. */
  predicate Overwrites(s: State, ev: Event, r: RunId) {
    && ev.Proceed? && ev.exec < |s.execs| && s.execs[ev.exec].run == r && !ev.choice.Raise?
    && var pc := s.execs[ev.exec].pc;
       pc == IngestBegin || pc == IngestFetch || pc == ReviewBegin || pc == Reviewing || pc.Raising?
  }

  /** Exactly which steps take the status completed away again. */
  lemma CompletedKeptExactly(s: State, ev: Event, r: RunId)
    requires Inv(s) && StatusIs(s, r, Completed)
    ensures StatusIs(Step(s, ev), r, Completed) <==> !Overwrites(s, ev, r)
  {
    if ev.Proceed? && ev.exec < |s.execs| {
      var x := s.execs[ev.exec];
      ExecStepExtends(s.db, x, ev.choice);
      if x.run == r {
        ActOnCompleted(s.db, x, Effect(ev.choice));
      }
    }
  }

  lemma ActOnCompleted(db: Db, x: Exec, c: Choice)
    requires x.run in db.runs && db.runs[x.run].status == Completed && x.run in db.scores
    requires !c.Lost?
    ensures Act(db, x, c).0.runs[x.run].status == Completed
       <==> c.Raise? || !(x.pc == IngestBegin || x.pc == IngestFetch || x.pc == ReviewBegin
                          || x.pc == Reviewing || x.pc.Raising?)
  {
    if x.pc == IngestBegin || x.pc == IngestFetch {
      assert Act(db, x, c) == IngestStep(db, x, c);
    } else if x.pc == ReviewBegin || x.pc == Reviewing {
      assert Act(db, x, c) == ReviewStep(db, x, c);
    } else if x.pc == ScoreGuard || x.pc == ScoreInsert {
      assert Act(db, x, c) == ScoreStep(db, x, c);
    } else if x.pc == ReportGuard || x.pc == ReportInsert {
      assert Act(db, x, c) == ReportStep(db, x, c);
    }
  }

  ghost predicate CanFail(s: State, r: RunId) {
    exists evs :: StatusIs(Run(s, evs), r, Failed)
  }

  lemma FailBack(s: State, ev: Event, r: RunId)
    requires CanFail(Step(s, ev), r)
    ensures CanFail(s, r)
  {
    var evs :| StatusIs(Run(Step(s, ev), evs), r, Failed);
    assert ([ev] + evs)[1..] == evs;
    assert StatusIs(Run(s, [ev] + evs), r, Failed);
  }

  /** A worker on a scored run is stopped by the score guard and then marks the run. */
  lemma WorkerFailsScoredRun(s: State, r: RunId, e: nat)
    requires r in s.db.runs && r in s.db.scores
    requires e < |s.execs| && s.execs[e].run == r && s.execs[e].kind == Worker
    requires s.execs[e].pc.Raising? || Rank(s.execs[e].pc) > 1
    ensures CanFail(s, r)
    decreases Rank(s.execs[e].pc)
  {
    var ev := Proceed(e, SkipReview);
    var t := Step(s, ev);
    if s.execs[e].pc.Raising? {
      assert StatusIs(Run(t, []), r, Failed);
    } else if s.execs[e].pc == ScoreGuard {
      var mark := Proceed(e, Succeed);
      assert StatusIs(Run(Step(t, mark), []), r, Failed);
      FailBack(t, mark, r);
    } else {
      WorkerFailsScoredRun(t, r, e);
    }
    FailBack(s, ev, r);
  }

  /** Completed is not final: one more delivery of its job can always turn the run to failed. */
  lemma RedeliveryUndoesCompletion(s: State, r: RunId)
    requires Inv(s) && StatusIs(s, r, Completed)
    ensures CanFail(s, r)
  {
    var ev := Deliver(r, Worker);
    WorkerFailsScoredRun(Step(s, ev), r, |s.execs|);
    FailBack(s, ev, r);
  }

  /** The reason recorded with a failing review gives way to the raised text, an empty one included. */
  lemma RecordedReasonIsOverwritten(s: State, e: nat, recorded: string, raised: string)
    requires e < |s.execs| && s.execs[e].kind == Worker && s.execs[e].pc == Reviewing
    requires s.execs[e].run in s.db.runs
    ensures var r := s.execs[e].run;
            var t := Step(s, Proceed(e, RecordFailure(recorded, raised)));
            && t.db.runs[r].failureReason == Some(recorded)
            && Step(t, Proceed(e, Succeed)).db.runs[r].failureReason == Some(Cut(raised))
  {
  }
}
