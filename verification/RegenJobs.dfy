/** Background regeneration jobs, one lock section at a time, any number of them interleaved. */
module RegenJobs {
  import opened Options
  import Text

  datatype Status = Queued | Running | Succeeded | Failed

  datatype Phase = Waiting | Pulling | Regenerating | Done

  datatype Pull = Pull(ok: bool, error: Option<string>)

  /** One entry of the job table. */
  datatype Job = Job(
    status: Status, phase: Phase, scope: Option<string>, started: bool, finished: bool,
    processed: seq<string>, failed: seq<(string, string)>, error: Option<string>,
    pull: Option<Pull>)

  datatype Kind = Regen | RepullRegen

  /** Where the background function of a job stands; `plan` is the list of scopes it decided on. */
  datatype Pc =
    | NotStarted | PullNow | AfterPull | Planning
    | Scopes(plan: seq<string>, next: nat) | MarkFailed(error: string)
    | Finally(plan: seq<string>) | Finished(plan: seq<string>)

  datatype Worker = Worker(kind: Kind, pc: Pc)

  /** How `git pull` can fail; a non-zero return code comes with what was printed. */
  datatype PullFailure =
    | TimedOut | Raised(kind: string, text: string) | NonZero(stderr: string, stdout: string)
  {
    function Printed(): string
      requires NonZero?
    {
      var s := Text.Strip(if stderr != "" then stderr else stdout);
      if s == "" then "git pull returned non-zero" else s
    }

    /** The text in the pull result. */
    function InPull(): string {
      match this
      case TimedOut => "git pull timed out after 60s"
      case Raised(kind, text) => "git pull raised " + kind + ": " + text
      case NonZero(_, _) => First(Printed(), 500)
    }

    /** The text in the job, which is not the same. */
    function InJob(): string {
      match this
      case TimedOut => "git pull timeout"
      case Raised(_, text) => text
      case NonZero(_, _) => "git pull failed: " + First(Printed(), 200)
    }
  }

  function First(s: string, n: nat): string {
    if |s| > n then s[..n] else s
  }

  /** What happens outside the lock before the next section. */
  datatype Choice =
    | Fine | PullFails(failure: PullFailure) | Listing(scopes: seq<string>) | Problem(error: string)

  function NewJob(scope: Option<string>): Job {
    Job(Queued, Waiting, scope, false, false, [], [], None, None)
  }

  function PlanFor(scope: Option<string>, c: Choice): seq<string> {
    if scope.Some? && scope.value != "" then [scope.value]
    else if c.Listing? then c.scopes
    else []
  }

  /** The next lock section of one job. */
  function Section(j: Job, w: Worker, c: Choice): (Job, Worker) {
    match w.pc
    case NotStarted =>
      if w.kind == Regen then
        (j.(status := Running, phase := Regenerating, started := true), w.(pc := Planning))
      else
        (j.(status := Running, phase := Pulling, started := true), w.(pc := PullNow))
    case PullNow =>
      if c.PullFails? then
        (j.(pull := Some(Pull(false, Some(c.failure.InPull()))), status := Failed,
            error := Some(c.failure.InJob()), phase := Done, finished := true),
         w.(pc := Finished([])))
      else (j.(pull := Some(Pull(true, None))), w.(pc := AfterPull))
    case AfterPull => (j.(phase := Regenerating), w.(pc := Planning))
    case Planning =>
      if c.Problem? then (j, w.(pc := MarkFailed(c.error)))
      else (j, w.(pc := Scopes(PlanFor(j.scope, c), 0)))
    case Scopes(plan, k) =>
      if k >= |plan| then
        (j.(status := if j.failed == [] then Succeeded else Failed), w.(pc := Finally(plan)))
      else if c.Problem? then
        (j.(failed := j.failed + [(plan[k], c.error)]), w.(pc := Scopes(plan, k + 1)))
      else (j.(processed := j.processed + [plan[k]]), w.(pc := Scopes(plan, k + 1)))
    case MarkFailed(e) =>
      (j.(status := Failed, error := Some(e)), w.(pc := Finally([])))
    case Finally(plan) => (j.(phase := Done, finished := true), w.(pc := Finished(plan)))
    case Finished(_) => (j, w)
  }

  /** The job table; a run id is a position in it. */
  datatype State = State(jobs: seq<Job>, workers: seq<Worker>)

  datatype Event = Post(kind: Kind, scope: Option<string>) | Advance(run: nat, choice: Choice)

  function Step(s: State, ev: Event): State
    requires |s.jobs| == |s.workers|
    ensures |Step(s, ev).jobs| == |Step(s, ev).workers|
  {
    match ev
    case Post(kind, scope) =>
      State(s.jobs + [NewJob(scope)], s.workers + [Worker(kind, NotStarted)])
    case Advance(i, c) =>
      if i >= |s.jobs| then s
      else
        var (j, w) := Section(s.jobs[i], s.workers[i], c);
        State(s.jobs[i := j], s.workers[i := w])
  }

  function RunAll(s: State, evs: seq<Event>): (t: State)
    requires |s.jobs| == |s.workers|
    ensures |t.jobs| == |t.workers|
    decreases evs
  {
    if evs == [] then s else RunAll(Step(s, evs[0]), evs[1..])
  }

  // ---- Invariant of one job ----------------------------------------------------------------------

  /** `plan` split, in order, into the processed and the failed scopes. */
  ghost predicate Split(plan: seq<string>, processed: seq<string>, failed: seq<(string, string)>) {
    if plan == [] then processed == [] && failed == []
    else
      var init, last := plan[..|plan| - 1], plan[|plan| - 1];
      || (processed != [] && processed[|processed| - 1] == last
          && Split(init, processed[..|processed| - 1], failed))
      || (failed != [] && failed[|failed| - 1].0 == last
          && Split(init, processed, failed[..|failed| - 1]))
  }

  predicate Terminal(s: Status) {
    s == Succeeded || s == Failed
  }

  predicate Untouched(j: Job) {
    j.processed == [] && j.failed == []
  }

  ghost predicate JobOk(j: Job, w: Worker) {
    && (j.pull.Some? && !j.pull.value.ok ==> Untouched(j) && w.pc.Finished? && j.error.Some?)
    && (j.started <==> !w.pc.NotStarted?)
    && PullOk(j, w)
    && match w.pc
       case NotStarted => j == NewJob(j.scope)
       case PullNow => j.status == Running && j.phase == Pulling && Untouched(j) && j.error.None? && !j.finished
       case AfterPull => j.status == Running && j.phase == Pulling && Untouched(j) && j.error.None? && !j.finished
       case Planning => j.status == Running && j.phase == Regenerating && Untouched(j) && j.error.None? && !j.finished
       case Scopes(plan, k) =>
         && j.status == Running && j.phase == Regenerating && j.error.None? && !j.finished
         && k <= |plan| && Split(plan[..k], j.processed, j.failed)
       case MarkFailed(_) => j.status == Running && j.phase == Regenerating && Untouched(j) && j.error.None? && !j.finished
       case Finally(plan) => Terminal(j.status) && j.phase == Regenerating && Outcome(j, plan) && !j.finished
       case Finished(plan) => Terminal(j.status) && j.phase == Done && Outcome(j, plan) && j.finished
  }

  /** Both texts of a failed pull tell of one failure. */
  ghost predicate SameFailure(inPull: Option<string>, inJob: Option<string>) {
    exists f: PullFailure :: inPull == Some(f.InPull()) && inJob == Some(f.InJob())
  }

  /** Only a repull job pulls, and it does so first; a failed pull is the error of the job. */
  ghost predicate PullOk(j: Job, w: Worker) {
    && (j.pull.Some? <==> w.kind == RepullRegen && !w.pc.NotStarted? && !w.pc.PullNow?)
    && (j.pull.Some? && j.pull.value.ok ==> j.pull.value.error.None?)
    && (j.pull.Some? && !j.pull.value.ok ==> SameFailure(j.pull.value.error, j.error))
    && (w.pc.PullNow? || w.pc.AfterPull? ==> w.kind == RepullRegen)
  }

  /** An error means failed; otherwise the plan was gone through and the verdict is about it. */
  ghost predicate Outcome(j: Job, plan: seq<string>) {
    if j.error.Some? then j.status == Failed && Untouched(j)
    else Split(plan, j.processed, j.failed) && (j.status == Succeeded <==> j.failed == [])
  }

  lemma SplitProcessed(plan: seq<string>, k: nat, processed: seq<string>, failed: seq<(string, string)>)
    requires k < |plan| && Split(plan[..k], processed, failed)
    ensures Split(plan[..k + 1], processed + [plan[k]], failed)
  {
    assert plan[..k + 1][..k] == plan[..k];
    assert (processed + [plan[k]])[..|processed|] == processed;
  }

  lemma SplitFailed(plan: seq<string>, k: nat, processed: seq<string>, failed: seq<(string, string)>, e: string)
    requires k < |plan| && Split(plan[..k], processed, failed)
    ensures Split(plan[..k + 1], processed, failed + [(plan[k], e)])
  {
    assert plan[..k + 1][..k] == plan[..k];
    assert (failed + [(plan[k], e)])[..|failed|] == failed;
  }

  function Rank(s: Status): nat {
    match s
    case Queued => 0
    case Running => 1
    case Succeeded => 2
    case Failed => 2
  }

  lemma SectionOk(j: Job, w: Worker, c: Choice)
    requires JobOk(j, w)
    ensures var (j', w') := Section(j, w, c);
            && JobOk(j', w')
            && (Terminal(j.status) ==> j'.status == j.status)
            && Rank(j.status) <= Rank(j'.status) <= Rank(j.status) + 1
            && j'.scope == j.scope && w'.kind == w.kind
  {
    if w.pc.Scopes? {
      ScopesSectionOk(j, w, c);
    }
  }

  lemma ScopesSectionOk(j: Job, w: Worker, c: Choice)
    requires JobOk(j, w) && w.pc.Scopes?
    ensures JobOk(Section(j, w, c).0, Section(j, w, c).1)
  {
    var Scopes(plan, k) := w.pc;
    if k >= |plan| {
      assert plan[..k] == plan;
    } else if c.Problem? {
      SplitFailed(plan, k, j.processed, j.failed, c.error);
    } else {
      SplitProcessed(plan, k, j.processed, j.failed);
    }
  }

  ghost predicate Inv(s: State) {
    |s.jobs| == |s.workers| && forall i :: 0 <= i < |s.jobs| ==> JobOk(s.jobs[i], s.workers[i])
  }

  lemma StepKeepsInv(s: State, ev: Event)
    requires Inv(s)
    ensures Inv(Step(s, ev))
    ensures |s.jobs| <= |Step(s, ev).jobs|
    ensures forall i :: 0 <= i < |s.jobs| && !(ev.Advance? && ev.run == i) ==>
              Step(s, ev).jobs[i] == s.jobs[i] && Step(s, ev).workers[i] == s.workers[i]
    ensures forall i :: 0 <= i < |s.jobs| ==> Moves(s.jobs[i], Step(s, ev).jobs[i])
  {
    if ev.Advance? && ev.run < |s.jobs| {
      SectionOk(s.jobs[ev.run], s.workers[ev.run], ev.choice);
    }
  }

  /** Status only moves on: queued, running, one terminal value. */
  predicate Moves(j: Job, j': Job) {
    Rank(j.status) <= Rank(j'.status) && (Terminal(j.status) ==> j'.status == j.status)
  }

  /**
   * Over every interleaving of any number of jobs: an entry waits in the queue until it is started;
   * the outcome of the pull is recorded for repull jobs only and before anything is regenerated; a
   * finished phase means a terminal status and a finish time, a failed pull leaves no scope touched
   * and is the job's error, and a job that is done without error has split its whole plan, in order,
   * into processed and failed scopes.
   */
  lemma {:induction false} JobSafety(s: State, evs: seq<Event>)
    requires Inv(s)
    ensures var t := RunAll(s, evs);
            && Inv(t) && |s.jobs| <= |t.jobs|
            && (forall i :: 0 <= i < |s.jobs| ==> Moves(s.jobs[i], t.jobs[i]))
            && (forall i :: 0 <= i < |t.jobs| ==> Promise(t.jobs[i], t.workers[i]))
    decreases |evs|
  {
    if evs != [] {
      StepKeepsInv(s, evs[0]);
      JobSafety(Step(s, evs[0]), evs[1..]);
    }
  }

  /** What a client that polls one entry may rely on. */
  ghost predicate Promise(j: Job, w: Worker) {
    && (j.status == Queued <==> !j.started)
    && (j.phase == Waiting <==> !j.started)
    && (w.kind == Regen ==> j.pull.None?)
    && (w.kind == RepullRegen && j.phase != Waiting && j.phase != Pulling ==>
          j.pull.Some? && (if j.pull.value.ok then j.pull.value.error.None?
                           else SameFailure(j.pull.value.error, j.error)))
    && (j.phase == Done <==> j.finished)
    && (j.phase == Done ==> Terminal(j.status) && w.pc.Finished?)
    && (j.pull.Some? && !j.pull.value.ok ==> j.processed == [] && j.failed == [] && j.status == Failed)
    && (j.phase == Done && j.error.None? ==>
          && Split(w.pc.plan, j.processed, j.failed)
          && (j.status == Succeeded <==> j.failed == []))
  }

  ghost function Names(failed: seq<(string, string)>): seq<string> {
    if failed == [] then [] else Names(failed[..|failed| - 1]) + [failed[|failed| - 1].0]
  }

  lemma Snoc(s: seq<string>)
    requires s != []
    ensures multiset(s) == multiset(s[..|s| - 1]) + multiset{s[|s| - 1]}
  {
    assert s == s[..|s| - 1] + [s[|s| - 1]];
  }

  /** In a split every planned scope is on exactly one of the two lists, as often as it was planned. */
  lemma {:induction false} SplitCounts(plan: seq<string>, processed: seq<string>, failed: seq<(string, string)>)
    requires Split(plan, processed, failed)
    ensures multiset(plan) == multiset(processed) + multiset(Names(failed))
  {
    if plan != [] {
      var init := plan[..|plan| - 1];
      Snoc(plan);
      if processed != [] && processed[|processed| - 1] == plan[|plan| - 1]
         && Split(init, processed[..|processed| - 1], failed) {
        SplitCounts(init, processed[..|processed| - 1], failed);
        Snoc(processed);
      } else {
        SplitCounts(init, processed, failed[..|failed| - 1]);
        Snoc(Names(failed));
      }
    }
  }
}
