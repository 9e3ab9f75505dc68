/** What the steps of the pipeline do to a run, status by status. */
module PipelineFacts {
  import opened Options
  import opened Pipeline

  // ---- One status update -------------------------------------------------------------------------

  /** The run's row alone changes: its status, its reason if one is given, its completion if final. */
  lemma StatusUpdate(db: Db, run: RunId, status: Status, reason: Option<string>)
    requires run in db.runs
    ensures var db' := SetStatus(db, run, status, reason);
            && db'.scores == db.scores && db'.reports == db.reports && db'.runs.Keys == db.runs.Keys
            && (forall r :: r in db.runs && r != run ==> db'.runs[r] == db.runs[r])
            && db'.runs[run].status == status
            && (reason.Some? ==> db'.runs[run].failureReason == reason)
            && (reason.None? ==> db'.runs[run].failureReason == db.runs[run].failureReason)
            && (db'.runs[run].closed
                <==> db.runs[run].closed || status in {Completed, PartialAnalysis, Failed, Rejected})
  {
  }

  lemma CutFacts(reason: string)
    ensures Cut(reason) <= reason && |Cut(reason)| <= 500
    ensures |Cut(reason)| < |reason| ==> |Cut(reason)| == 500
  {
  }

  // ---- Completed -----------------------------------------------------------------------------------

  ghost predicate Finished(db: Db, r: RunId) {
    r in db.runs && db.runs[r].status == Completed && db.runs[r].closed && r in db.scores && r in db.reports
  }

  /** A step that takes a worker to its end leaves the run completed and closed, with both rows. */
  lemma DoneMeansCompleted(db: Db, x: Exec, c: Choice)
    requires ExecOk(db, x) && x.kind == Worker && x.pc != Done
    ensures var (db', y) := ExecStep(db, x, c); y.pc == Done ==> Finished(db', x.run)
  {
    ExecStepFrom(db, x, c);
    ExecStepExtends(db, x, c);
  }

  lemma StepCompletes(s: State, ev: Event, e: nat)
    requires Inv(s) && HasCompleted(Step(s, ev), e) && !HasCompleted(s, e)
    ensures Finished(Step(s, ev).db, Step(s, ev).execs[e].run)
  {
    if ev.Proceed? && ev.exec < |s.execs| {
      var x := s.execs[ev.exec];
      if x.kind == Worker && x.pc != Done {
        DoneMeansCompleted(s.db, x, ev.choice);
      }
      ExecStepExtends(s.db, x, ev.choice);
    }
  }

  /** At the event by which a worker returns completed, its run is completed and has both rows. */
  lemma {:induction false} CompletedWhenReturned(s: State, evs: seq<Event>, e: nat) returns (k: nat)
    requires Inv(s) && HasCompleted(Run(s, evs), e) && !HasCompleted(s, e)
    ensures k < |evs|
    ensures !HasCompleted(Run(s, evs[..k]), e) && HasCompleted(Run(s, evs[..k + 1]), e)
    ensures Finished(Run(s, evs[..k + 1]).db, Run(s, evs[..k + 1]).execs[e].run)
    decreases |evs|
  {
    var t := Step(s, evs[0]);
    StepKeepsInv(s, evs[0]);
    if HasCompleted(t, e) {
      k := 0;
      assert evs[..1][1..] == [] && Run(t, []) == t;
      StepCompletes(s, evs[0], e);
    } else {
      var j := CompletedWhenReturned(t, evs[1..], e);
      k := j + 1;
      assert evs[..k][1..] == evs[1..][..j] && evs[..k + 1][1..] == evs[1..][..j + 1];
    }
  }

  // ---- The undisturbed run -------------------------------------------------------------------------

  ghost predicate Shows(db: Db, r: RunId, status: Status) {
    r in db.runs && db.runs[r].status == status
  }

  /** Ingestion and review of an execution that meets no failure. */
  lemma AnalysisPasses(db: Db, x: Exec)
    requires x.run in db.runs && x.pc == IngestBegin && x.kind == Worker
    ensures var (d1, x1) := ExecStep(db, x, Succeed);
            var (d2, x2) := ExecStep(d1, x1, Succeed);
            var (d3, x3) := ExecStep(d2, x2, Succeed);
            var (d4, x4) := ExecStep(d3, x3, Succeed);
            && Shows(d1, x.run, GitFetching) && Shows(d2, x.run, GitIngested)
            && Shows(d3, x.run, ReviewStarted) && Shows(d4, x.run, ReviewCompleted)
            && x4 == x.(pc := ScoreGuard)
            && d4.scores == db.scores && d4.reports == db.reports
    ensures var (d1, x1) := ExecStep(db, x, Succeed);
            var (d2, x2) := ExecStep(d1, x1, Succeed);
            var (d3, x3) := ExecStep(d2, x2, SkipReview);
            Shows(d3, x.run, ReviewCompleted) && x3 == x.(pc := ScoreGuard)
  {
  }

  /** Scoring, report and end: the score is set at the insert, the report sets no status. */
  lemma PublicationPasses(db: Db, x: Exec)
    requires x.run in db.runs && x.run !in db.scores && x.run !in db.reports
    requires x.pc == ScoreGuard && x.kind == Worker
    ensures var (d1, x1) := ExecStep(db, x, Succeed);
            var (d2, x2) := ExecStep(d1, x1, Succeed);
            var (d3, x3) := ExecStep(d2, x2, Succeed);
            var (d4, x4) := ExecStep(d3, x3, Succeed);
            var (d5, x5) := ExecStep(d4, x4, Succeed);
            && d1 == db && Shows(d2, x.run, Scored) && d2.scores == db.scores + [x.run]
            && d3 == d2 && d4.runs == d2.runs && d4.reports == db.reports + [x.run]
            && Finished(d5, x.run) && x5.pc == Done
  {
  }

  // ---- Requests ------------------------------------------------------------------------------------

  /** What each request does on its own, when nothing fails. */
  lemma RequestPasses(db: Db, r: RunId, kind: Kind)
    requires r in db.runs && kind != Worker
    requires kind == HttpScore ==> r !in db.scores
    requires kind == HttpReport ==> r !in db.reports
    ensures var (d1, x1) := ExecStep(db, Exec(r, kind, FirstPc(kind), false, false), Succeed);
            var (d2, x2) := ExecStep(d1, x1, Succeed);
            && x1.pc != Done && x2.pc == Done
            && (kind == HttpIngest ==> Shows(d1, r, GitFetching) && Shows(d2, r, GitIngested))
            && (kind == HttpReview ==> Shows(d1, r, ReviewStarted) && Shows(d2, r, ReviewCompleted))
            && (kind == HttpScore ==> d1 == db && Shows(d2, r, Scored) && d2.scores == db.scores + [r])
            && (kind == HttpReport ==> d1 == db && d2.runs == db.runs && d2.reports == db.reports + [r])
            && (kind != HttpScore ==> d2.scores == db.scores) && (kind != HttpReport ==> d2.reports == db.reports)
  {
  }

  // ---- Failures ------------------------------------------------------------------------------------

  predicate Running(x: Exec) {
    x.pc != Done && !Stopped(x.pc)
  }

  /** An exception leaves the tables as they are; a worker goes on to mark its run, a request is over. */
  lemma RaiseChangesNothing(db: Db, x: Exec, reason: string)
    requires Running(x) && x.run in db.runs
    ensures var (db', y) := ExecStep(db, x, Raise(reason));
            db' == db && y == x.(pc := if x.kind == Worker then Raising(reason) else Raised)
  {
  }

  /** So does a run that is unknown when a phase looks for it. */
  lemma UnknownRun(db: Db, x: Exec)
    requires x.run !in db.runs
    requires x.pc in {IngestBegin, ReviewBegin, ScoreGuard, ScoreInsert, ReportGuard, ReportInsert}
    ensures var (db', y) := ExecStep(db, x, Succeed);
            db' == db && y == x.(pc := if x.kind == Worker then Raising("run not found") else Raised)
  {
  }

  /** A second score or report is refused at the check and again at the insert. */
  lemma SecondRowRefused(db: Db, x: Exec)
    requires x.run in db.runs
    requires ((x.pc == ScoreGuard || x.pc == ScoreInsert) && x.run in db.scores)
             || ((x.pc == ReportGuard || x.pc == ReportInsert) && x.run in db.reports)
    ensures var (db', y) := ExecStep(db, x, Succeed); db' == db && Stopped(y.pc) && y.run == x.run
  {
  }

  /** A recorded failure marks the run with the recorded text and raises the other. */
  lemma FailureIsRecorded(db: Db, x: Exec, recorded: string, raised: string)
    requires x.run in db.runs
    requires x.pc == IngestFetch || (x.pc in {ReviewBegin, Reviewing} && x.kind == Worker)
    ensures var (db', y) := ExecStep(db, x, RecordFailure(recorded, raised));
            && Shows(db', x.run, Failed) && db'.runs[x.run].closed
            && db'.runs[x.run].failureReason == Some(recorded)
            && y == x.(pc := if x.kind == Worker then Raising(raised) else Raised)
  {
  }

  /** The final mark, unless it raises itself: failed, closed, with at most 500 characters of reason. */
  lemma MarkOfFailure(db: Db, x: Exec, c: Choice)
    requires x.run in db.runs && x.pc.Raising?
    ensures var (db', y) := ExecStep(db, x, c);
            && y == x.(pc := Raised)
            && (c.Raise? ==> db' == db)
            && (!c.Raise? ==>
                  && Shows(db', x.run, Failed) && db'.runs[x.run].closed
                  && db'.runs[x.run].failureReason == Some(Cut(x.pc.reason)))
  {
  }

  /** A lost answer: the tables as if the step had gone through, the execution stopped all the same. */
  lemma LostCommits(db: Db, x: Exec, skip: bool, reason: string)
    requires Running(x)
    ensures var (db', y) := ExecStep(db, x, Lost(skip, reason));
            var (d, z) := ExecStep(db, x, if skip then SkipReview else Succeed);
            && db' == d && Stopped(y.pc) && y.scored == z.scored && y.reported == z.reported
            && (!Stopped(z.pc) && x.kind == Worker ==> y.pc == Raising(reason))
  {
  }

  /** What has returned or raised stays as it is. */
  lemma EndedStaysEnded(db: Db, x: Exec, c: Choice)
    requires x.pc == Done || x.pc == Raised
    ensures ExecStep(db, x, c) == (db, x)
  {
  }

  /** A delivery adds one execution at its first step, and nothing else. */
  lemma DeliveryBegins(s: State, run: RunId, kind: Kind)
    ensures var t := Step(s, Deliver(run, kind));
            && t.db == s.db && |t.execs| == |s.execs| + 1 && t.execs[..|s.execs|] == s.execs
            && var x := t.execs[|s.execs|];
               && x.run == run && x.kind == kind && !x.scored && !x.reported
               && (x.pc == IngestBegin <==> kind == Worker || kind == HttpIngest)
               && (x.pc == ReviewBegin <==> kind == HttpReview)
               && (x.pc == ScoreGuard <==> kind == HttpScore)
               && (x.pc == ReportGuard <==> kind == HttpReport)
  {
  }
}
