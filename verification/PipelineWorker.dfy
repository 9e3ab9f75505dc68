/** The worker's own code over mutable tables, proved to take exactly the steps of the protocol. */
module PipelineWorker {
  import opened Options
  import opened Pipeline

  /** What the environment does to one pipeline execution, step by step. */
  datatype World = World(
    begin: Choice, fetch: Choice, review: Choice, reviewing: Choice,
    scoreGuard: Choice, scoreInsert: Choice, reportGuard: Choice, reportInsert: Choice,
    finalize: Choice, mark: Choice)
  {
    function At(pc: Pc): Choice {
      match pc
      case IngestBegin => begin
      case IngestFetch => fetch
      case ReviewBegin => review
      case Reviewing => reviewing
      case ScoreGuard => scoreGuard
      case ScoreInsert => scoreInsert
      case ReportGuard => reportGuard
      case ReportInsert => reportInsert
      case Finalize => finalize
      case Raising(_) => mark
      case Done => mark
      case Raised => mark
    }

    /** `n` steps of the protocol taken by one execution alone. */
    ghost function Alone(db: Db, x: Exec, n: nat): (Db, Exec)
      decreases n
    {
      if n == 0 then (db, x)
      else
        var (db', x') := ExecStep(db, x, At(x.pc));
        Alone(db', x', n - 1)
    }

    ghost predicate Leads(db: Db, x: Exec, db': Db, y: Exec) {
      exists n: nat :: Alone(db, x, n) == (db', y)
    }

    lemma {:induction false} AloneAdds(db: Db, x: Exec, n: nat, m: nat)
      ensures Alone(db, x, n + m) == Alone(Alone(db, x, n).0, Alone(db, x, n).1, m)
      decreases n
    {
      if n > 0 {
        var (db', x') := ExecStep(db, x, At(x.pc));
        AloneAdds(db', x', n - 1, m);
      }
    }

    lemma LeadsOn(d: Db, x: Exec, d': Db, y: Exec, d'': Db, z: Exec)
      requires Leads(d, x, d', y) && Leads(d', y, d'', z)
      ensures Leads(d, x, d'', z)
    {
      var n: nat :| Alone(d, x, n) == (d', y);
      var m: nat :| Alone(d', y, m) == (d'', z);
      AloneAdds(d, x, n, m);
    }

    lemma LeadsOne(d: Db, x: Exec)
      ensures var (d', y) := ExecStep(d, x, At(x.pc)); Leads(d, x, d', y)
    {
      var (d', y) := ExecStep(d, x, At(x.pc));
      assert Alone(d', y, 0) == (d', y);
      assert Alone(d, x, 1) == (d', y);
    }

    /** Steps taken alone are a run of the protocol, so every safety result applies to them. */
    lemma {:induction false} AloneIsARun(db: Db, x: Exec, n: nat)
      ensures exists evs :: Run(State(db, [x]), evs) == State(Alone(db, x, n).0, [Alone(db, x, n).1])
      decreases n
    {
      if n == 0 {
        assert Run(State(db, [x]), []) == State(db, [x]);
      } else {
        var ev := Proceed(0, At(x.pc));
        var (db', x') := ExecStep(db, x, At(x.pc));
        AloneIsARun(db', x', n - 1);
        var evs :| Run(State(db', [x']), evs)
                   == State(Alone(db', x', n - 1).0, [Alone(db', x', n - 1).1]);
        assert [x][0 := x'] == [x'];
        assert ([ev] + evs)[1..] == evs;
        assert Run(State(db, [x]), [ev] + evs) == Run(Step(State(db, [x]), ev), evs);
      }
    }
  }

  class Backend {
    var runs: map<RunId, RunRow>
    var scores: seq<RunId>
    var reports: seq<RunId>

    constructor ()
      ensures View() == Db(map[], [], [])
    {
      runs, scores, reports := map[], [], [];
    }

    ghost function View(): Db
      reads this
    {
      Db(runs, scores, reports)
    }

    method UpdateStatus(run: RunId, status: Status, reason: Option<string>) returns (found: bool)
      modifies this
      ensures View() == SetStatus(old(View()), run, status, reason)
      ensures found == (run in old(runs))
    {
      found := run in runs;
      if found {
        var row := runs[run].(status := status);
        if reason.Some? {
          row := row.(failureReason := reason);
        }
        if Terminal(status) {
          row := row.(closed := true);
        }
        runs := runs[run := row];
      }
    }

    method Ingest(run: RunId, w: World, ghost x: Exec) returns (error: Option<string>, ghost y: Exec)
      requires x.run == run && x.kind == Worker && x.pc == IngestBegin
      modifies this
      ensures w.Leads(old(View()), x, View(), y)
      ensures y.pc == (if error.Some? then Raising(error.value) else ReviewBegin)
      ensures y.run == run && y.kind == Worker
    {
      w.LeadsOne(View(), x);
      y := ExecStep(View(), x, w.begin).1;
      if run !in runs {
        return Some("run not found"), y;
      }
      if w.begin.Raise? {
        return Some(w.begin.reason), y;
      }
      var _ := UpdateStatus(run, GitFetching, None);
      if w.begin.Lost? {
        return Some(w.begin.reason), y;
      }
      ghost var d, z := View(), y;
      w.LeadsOne(d, z);
      y := ExecStep(d, z, w.fetch).1;
      match w.fetch {
        case Raise(r) =>
          error := Some(r);
        case RecordFailure(r, e) =>
          var _ := UpdateStatus(run, Failed, Some(r));
          error := Some(e);
        case Lost(_, e) =>
          var _ := UpdateStatus(run, GitIngested, None);
          error := Some(e);
        case _ =>
          var _ := UpdateStatus(run, GitIngested, None);
          error := None;
      }
      w.LeadsOn(old(View()), x, d, z, View(), y);
    }

    method Review(run: RunId, w: World, ghost x: Exec) returns (error: Option<string>, ghost y: Exec)
      requires x.run == run && x.kind == Worker && x.pc == ReviewBegin
      modifies this
      ensures w.Leads(old(View()), x, View(), y)
      ensures y.pc == (if error.Some? then Raising(error.value) else ScoreGuard)
      ensures y.run == run && y.kind == Worker
    {
      w.LeadsOne(View(), x);
      y := ExecStep(View(), x, w.review).1;
      match w.review {
        case Raise(r) =>
          return Some(r), y;
        case RecordFailure(r, e) =>
          var _ := UpdateStatus(run, Failed, Some(r));
          return Some(e), y;
        case SkipReview =>
          var _ := UpdateStatus(run, ReviewCompleted, None);
          return None, y;
        case Lost(skip, e) =>
          if skip {
            var _ := UpdateStatus(run, ReviewCompleted, None);
            return Some(e), y;
          }
        case Succeed =>
      }
      if run !in runs {
        return Some("run not found"), y;
      }
      var _ := UpdateStatus(run, ReviewStarted, None);
      if w.review.Lost? {
        return Some(w.review.reason), y;
      }
      ghost var d, z := View(), y;
      w.LeadsOne(d, z);
      y := ExecStep(d, z, w.reviewing).1;
      match w.reviewing {
        case Raise(r) =>
          error := Some(r);
        case RecordFailure(r, e) =>
          var _ := UpdateStatus(run, Failed, Some(r));
          error := Some(e);
        case Lost(_, e) =>
          var _ := UpdateStatus(run, ReviewCompleted, None);
          error := Some(e);
        case _ =>
          var _ := UpdateStatus(run, ReviewCompleted, None);
          error := None;
      }
      w.LeadsOn(old(View()), x, d, z, View(), y);
    }

    method ScoreRun(run: RunId, w: World, ghost x: Exec) returns (error: Option<string>, ghost y: Exec)
      requires x.run == run && x.kind == Worker && x.pc == ScoreGuard
      modifies this
      ensures w.Leads(old(View()), x, View(), y)
      ensures y.pc == (if error.Some? then Raising(error.value) else ReportGuard)
      ensures y.run == run && y.kind == Worker
      ensures error.None? ==> run in runs && run in scores
    {
      w.LeadsOne(View(), x);
      y := ExecStep(View(), x, w.scoreGuard).1;
      if w.scoreGuard.Raise? {
        return Some(w.scoreGuard.reason), y;
      }
      if run !in runs {
        return Some("run not found"), y;
      }
      if run in scores {
        return Some("already scored"), y;
      }
      if w.scoreGuard.Lost? {
        return Some(w.scoreGuard.reason), y;
      }
      ghost var d, z := View(), y;
      w.LeadsOne(d, z);
      y := ExecStep(d, z, w.scoreInsert).1;
      w.LeadsOn(d, x, d, z, ExecStep(d, z, w.scoreInsert).0, y);
      if w.scoreInsert.Raise? {
        return Some(w.scoreInsert.reason), y;
      }
      scores := scores + [run];
      var _ := UpdateStatus(run, Scored, None);
      error := if w.scoreInsert.Lost? then Some(w.scoreInsert.reason) else None;
    }

    method GenerateReport(run: RunId, w: World, ghost x: Exec)
      returns (error: Option<string>, ghost y: Exec)
      requires x.run == run && x.kind == Worker && x.pc == ReportGuard
      modifies this
      ensures w.Leads(old(View()), x, View(), y)
      ensures y.pc == (if error.Some? then Raising(error.value) else Finalize)
      ensures y.run == run && y.kind == Worker
      ensures error.None? ==> run in runs && run in reports && scores == old(scores)
    {
      w.LeadsOne(View(), x);
      y := ExecStep(View(), x, w.reportGuard).1;
      if w.reportGuard.Raise? {
        return Some(w.reportGuard.reason), y;
      }
      if run !in runs {
        return Some("run not found"), y;
      }
      if run in reports {
        return Some("already reported"), y;
      }
      if w.reportGuard.Lost? {
        return Some(w.reportGuard.reason), y;
      }
      ghost var d, z := View(), y;
      w.LeadsOne(d, z);
      y := ExecStep(d, z, w.reportInsert).1;
      w.LeadsOn(d, x, d, z, ExecStep(d, z, w.reportInsert).0, y);
      if w.reportInsert.Raise? {
        return Some(w.reportInsert.reason), y;
      }
      reports := reports + [run];
      error := if w.reportInsert.Lost? then Some(w.reportInsert.reason) else None;
    }

    method Complete(run: RunId, w: World, ghost x: Exec) returns (error: Option<string>, ghost y: Exec)
      requires x.run == run && x.kind == Worker && x.pc == Finalize
      modifies this
      ensures w.Leads(old(View()), x, View(), y)
      ensures y.pc == (if error.Some? then Raising(error.value) else Done)
      ensures y.run == run && y.kind == Worker
      ensures error.None? && run in old(runs) ==> run in runs && runs[run].status == Completed && runs[run].closed
      ensures scores == old(scores) && reports == old(reports)
    {
      w.LeadsOne(View(), x);
      y := ExecStep(View(), x, w.finalize).1;
      if w.finalize.Raise? {
        return Some(w.finalize.reason), y;
      }
      var _ := UpdateStatus(run, Completed, None);
      error := if w.finalize.Lost? then Some(w.finalize.reason) else None;
    }

    /** Best effort: a failure while marking the run is swallowed. */
    method MarkFailed(run: RunId, reason: string, w: World, ghost x: Exec) returns (ghost y: Exec)
      requires x.run == run && x.pc == Raising(reason)
      modifies this
      ensures w.Leads(old(View()), x, View(), y) && y == x.(pc := Raised)
      ensures !w.mark.Raise? && run in old(runs) ==>
                && run in runs && runs[run].status == Failed && runs[run].closed
                && runs[run].failureReason == Some(if |reason| > 500 then reason[..500] else reason)
      ensures w.mark.Raise? ==> View() == old(View())
      ensures runs.Keys == old(runs.Keys)
    {
      w.LeadsOne(View(), x);
      y := x.(pc := Raised);
      if !w.mark.Raise? {
        var _ := UpdateStatus(run, Failed, Some(Cut(reason)));
      }
    }

    /** Git ingestion and review; on the first exception the rest is skipped. */
    method Analyse(run: RunId, w: World, ghost x: Exec) returns (error: Option<string>, ghost y: Exec)
      requires x.run == run && x.kind == Worker && x.pc == IngestBegin
      modifies this
      ensures w.Leads(old(View()), x, View(), y)
      ensures y.pc == (if error.Some? then Raising(error.value) else ScoreGuard)
      ensures y.run == run && y.kind == Worker
    {
      error, y := Ingest(run, w, x);
      if error.None? {
        ghost var d, z := View(), y;
        error, y := Review(run, w, y);
        w.LeadsOn(old(View()), x, d, z, View(), y);
      }
    }

    /** Scoring, report and the final status. */
    method Publish(run: RunId, w: World, ghost x: Exec) returns (error: Option<string>, ghost y: Exec)
      requires x.run == run && x.kind == Worker && x.pc == ScoreGuard
      modifies this
      ensures w.Leads(old(View()), x, View(), y)
      ensures y.pc == (if error.Some? then Raising(error.value) else Done)
      ensures y.run == run && y.kind == Worker
      ensures error.None? ==>
                && run in runs && runs[run].status == Completed && runs[run].closed
                && run in scores && run in reports
    {
      error, y := ScoreRun(run, w, x);
      if error.None? {
        ghost var d, z := View(), y;
        error, y := GenerateReport(run, w, y);
        w.LeadsOn(old(View()), x, d, z, View(), y);
      }
      if error.None? {
        ghost var d, z := View(), y;
        error, y := Complete(run, w, y);
        w.LeadsOn(old(View()), x, d, z, View(), y);
      }
    }

    /** True for completed, with the run completed and both rows there; false when the exception is raised again. */
    method FullPipeline(run: RunId, w: World) returns (completed: bool, ghost y: Exec)
      modifies this
      ensures w.Leads(old(View()), Exec(run, Worker, IngestBegin, false, false), View(), y)
      ensures y.pc == (if completed then Done else Raised)
      ensures completed ==>
                && run in runs && runs[run].status == Completed && runs[run].closed
                && run in scores && run in reports
      ensures !completed && !w.mark.Raise? && run in runs ==>
                && runs[run].status == Failed && runs[run].closed
                && runs[run].failureReason.Some? && |runs[run].failureReason.value| <= 500
    {
      ghost var x := Exec(run, Worker, IngestBegin, false, false);
      var error;
      error, y := Analyse(run, w, x);
      if error.None? {
        ghost var d, z := View(), y;
        error, y := Publish(run, w, y);
        w.LeadsOn(old(View()), x, d, z, View(), y);
      }
      completed := error.None?;
      if error.Some? {
        ghost var d, z := View(), y;
        y := MarkFailed(run, error.value, w, y);
        w.LeadsOn(old(View()), x, d, z, View(), y);
      }
    }
  }
}
