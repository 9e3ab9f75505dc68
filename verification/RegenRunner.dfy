/** The background functions themselves: they write the job table and regenerate scope by scope. */
module RegenRunner {
  import opened Options
  import CodeMap
  import opened RegenJobs

  /** What the outside contributes to one job; `trees` are the errors while reading a scope's files. */
  datatype World = World(
    pullFailure: Option<PullFailure>, listing: seq<string>, providerError: Option<string>,
    trees: nat -> Option<string>, calls: nat -> CodeMap.Call)
  {
    function At(pc: Pc): Choice {
      match pc
      case PullNow => if pullFailure.Some? then PullFails(pullFailure.value) else Fine
      case Planning => if providerError.Some? then Problem(providerError.value) else Listing(listing)
      case Scopes(_, k) => if trees(k).Some? then Problem(trees(k).value) else Fine
      case _ => Fine
    }

    /** `n` lock sections of one job taken in a row. */
    ghost function Sections(j: Job, w: Worker, n: nat): (Job, Worker)
      decreases n
    {
      if n == 0 then (j, w)
      else var (j', w') := Section(j, w, At(w.pc)); Sections(j', w', n - 1)
    }

    ghost predicate Leads(j: Job, w: Worker, j': Job, w': Worker) {
      exists n: nat :: Sections(j, w, n) == (j', w')
    }

    lemma {:induction false} SectionsAdd(j: Job, w: Worker, n: nat, m: nat)
      ensures Sections(j, w, n + m) == Sections(Sections(j, w, n).0, Sections(j, w, n).1, m)
      decreases n
    {
      if n > 0 {
        var (j', w') := Section(j, w, At(w.pc));
        SectionsAdd(j', w', n - 1, m);
      }
    }

    /** Sections of one job in a row are a run of the protocol on its entry of any table. */
    lemma {:induction false} SectionsAreARun(s: State, i: nat, n: nat)
      requires |s.jobs| == |s.workers| && i < |s.jobs|
      ensures var (j, v) := Sections(s.jobs[i], s.workers[i], n);
              exists evs :: RunAll(s, evs) == State(s.jobs[i := j], s.workers[i := v])
      decreases n
    {
      if n == 0 {
        assert RunAll(s, []) == s;
      } else {
        var ev := Advance(i, At(s.workers[i].pc));
        var t := Step(s, ev);
        SectionsAreARun(t, i, n - 1);
        var (j, v) := Sections(t.jobs[i], t.workers[i], n - 1);
        var evs :| RunAll(t, evs) == State(t.jobs[i := j], t.workers[i := v]);
        assert ([ev] + evs)[1..] == evs;
        assert t.jobs[i := j] == s.jobs[i := j] && t.workers[i := v] == s.workers[i := v];
        assert RunAll(s, [ev] + evs) == State(s.jobs[i := j], s.workers[i := v]);
      }
    }

    /** So what the background functions lead to keeps what a polling client may rely on. */
    lemma LeadsIsSafe(s: State, i: nat, j: Job, v: Worker)
      requires Inv(s) && i < |s.jobs| && Leads(s.jobs[i], s.workers[i], j, v)
      ensures Inv(State(s.jobs[i := j], s.workers[i := v]))
      ensures Promise(j, v) && Moves(s.jobs[i], j)
    {
      var n: nat :| Sections(s.jobs[i], s.workers[i], n) == (j, v);
      SectionsAreARun(s, i, n);
      var evs :| RunAll(s, evs) == State(s.jobs[i := j], s.workers[i := v]);
      JobSafety(s, evs);
    }

    lemma LeadsOn(j: Job, w: Worker, j': Job, w': Worker)
      requires Leads(j, w, j', w')
      ensures var (j'', w'') := Section(j', w', At(w'.pc)); Leads(j, w, j'', w'')
    {
      var n: nat :| Sections(j, w, n) == (j', w');
      SectionsAdd(j, w, n, 1);
      var (j'', w'') := Section(j', w', At(w'.pc));
      assert Sections(j'', w'', 0) == (j'', w'');
      assert Sections(j', w', 1) == (j'', w'');
    }
  }

  // ---- The result of a job, in closed form -------------------------------------------------------

  ghost function Processed(plan: seq<string>, w: World, n: nat): seq<string>
    requires n <= |plan|
  {
    if n == 0 then []
    else if w.trees(n - 1).Some? then Processed(plan, w, n - 1)
    else Processed(plan, w, n - 1) + [plan[n - 1]]
  }

  ghost function FailedScopes(plan: seq<string>, w: World, n: nat): seq<(string, string)>
    requires n <= |plan|
  {
    if n == 0 then []
    else if w.trees(n - 1).None? then FailedScopes(plan, w, n - 1)
    else FailedScopes(plan, w, n - 1) + [(plan[n - 1], w.trees(n - 1).value)]
  }

  ghost function PlanOf(scope: Option<string>, w: World): seq<string> {
    PlanFor(scope, Listing(w.listing))
  }

  /** The entry of a new job once its background function has returned. */
  ghost function FinalJob(kind: Kind, scope: Option<string>, w: World): Job {
    var pull := if kind == Regen then None
                else if w.pullFailure.Some? then Some(Pull(false, Some(w.pullFailure.value.InPull())))
                else Some(Pull(true, None));
    if kind == RepullRegen && w.pullFailure.Some? then
      Job(Failed, Done, scope, true, true, [], [], Some(w.pullFailure.value.InJob()), pull)
    else if w.providerError.Some? then
      Job(Failed, Done, scope, true, true, [], [], w.providerError, pull)
    else
      var plan := PlanOf(scope, w);
      var bad := FailedScopes(plan, w, |plan|);
      Job(if bad == [] then Succeeded else Failed, Done, scope, true, true,
          Processed(plan, w, |plan|), bad, None, pull)
  }

  /** Store and files after the first `n` scopes; an unreadable scope is not regenerated. */
  ghost function MapAfter(st: CodeMap.State, plan: seq<string>, w: World, n: nat): CodeMap.State
    requires n <= |plan| && forall k :: w.calls(k).max >= 1
  {
    if n == 0 then st
    else
      var before := MapAfter(st, plan, w, n - 1);
      if w.trees(n - 1).Some? then before
      else
        var c := w.calls(n - 1).(scope := plan[n - 1]);
        CodeMap.Regen(before, before.store.Get(c.scope), c)
  }

  class JobTable {
    var jobs: seq<Job>

    constructor ()
      ensures jobs == []
    {
      jobs := [];
    }

    /** A post request: a new queued entry, known by its position. */
    method Post(scope: Option<string>) returns (run: nat)
      modifies this
      ensures jobs == old(jobs) + [NewJob(scope)] && run == |old(jobs)|
    {
      run := |jobs|;
      jobs := jobs + [NewJob(scope)];
    }

    /** One scope of the plan, and its section. */
    method OneScope(
      run: nat, kind: Kind, w: World, plan: seq<string>, k: nat,
      store: CodeMap.CodeMapStore, dir: CodeMap.MapsDir, ghost j0: Job)
      requires run < |jobs| && k < |plan| && w.calls(k).max >= 1
      requires w.Leads(j0, Worker(kind, NotStarted), jobs[run], Worker(kind, Scopes(plan, k)))
      modifies this, store, dir
      ensures |jobs| == |old(jobs)| && jobs == old(jobs)[run := jobs[run]]
      ensures var j := old(jobs)[run];
              jobs[run] == (if w.trees(k).Some? then j.(failed := j.failed + [(plan[k], w.trees(k).value)])
                            else j.(processed := j.processed + [plan[k]]))
      ensures w.Leads(j0, Worker(kind, NotStarted), jobs[run], Worker(kind, Scopes(plan, k + 1)))
      ensures var st := CodeMap.State(old(store.View()), old(dir.View()));
              var c := w.calls(k).(scope := plan[k]);
              CodeMap.State(store.View(), dir.View())
              == (if w.trees(k).Some? then st else CodeMap.Regen(st, st.store.Get(c.scope), c))
    {
      w.LeadsOn(j0, Worker(kind, NotStarted), jobs[run], Worker(kind, Scopes(plan, k)));
      var previous := store.Get(plan[k]);
      var j := jobs[run];
      if w.trees(k).Some? {
        jobs := jobs[run := j.(failed := j.failed + [(plan[k], w.trees(k).value)])];
      } else {
        var call := w.calls(k).(scope := plan[k]);
        CodeMap.RegenOneScope(call, previous, store, dir);
        jobs := jobs[run := j.(processed := j.processed + [plan[k]])];
      }
    }

    method AllScopes(
      run: nat, kind: Kind, w: World, plan: seq<string>,
      store: CodeMap.CodeMapStore, dir: CodeMap.MapsDir, ghost j0: Job)
      requires run < |jobs| && forall k :: w.calls(k).max >= 1
      requires w.Leads(j0, Worker(kind, NotStarted), jobs[run], Worker(kind, Scopes(plan, 0)))
      requires jobs[run].processed == [] && jobs[run].failed == []
      modifies this, store, dir
      ensures |jobs| == |old(jobs)| && jobs == old(jobs)[run := jobs[run]]
      ensures jobs[run] == old(jobs)[run].(processed := Processed(plan, w, |plan|),
                                           failed := FailedScopes(plan, w, |plan|))
      ensures w.Leads(j0, Worker(kind, NotStarted), jobs[run], Worker(kind, Scopes(plan, |plan|)))
      ensures CodeMap.State(store.View(), dir.View())
           == MapAfter(CodeMap.State(old(store.View()), old(dir.View())), plan, w, |plan|)
    {
      ghost var before, entry := jobs, jobs[run];
      for k := 0 to |plan|
        invariant |jobs| == |before| && jobs == before[run := jobs[run]]
        invariant jobs[run] == entry.(processed := Processed(plan, w, k), failed := FailedScopes(plan, w, k))
        invariant w.Leads(j0, Worker(kind, NotStarted), jobs[run], Worker(kind, Scopes(plan, k)))
        invariant CodeMap.State(store.View(), dir.View())
               == MapAfter(CodeMap.State(old(store.View()), old(dir.View())), plan, w, k)
      {
        OneScope(run, kind, w, plan, k, store, dir, j0);
      }
    }

    /** The shared core of both functions. An exception is returned, before any scope was touched. */
    method DoRegenPhase(
      run: nat, kind: Kind, w: World, store: CodeMap.CodeMapStore, dir: CodeMap.MapsDir,
      ghost j0: Job)
      returns (error: Option<string>)
      requires run < |jobs| && forall k :: w.calls(k).max >= 1
      requires w.Leads(j0, Worker(kind, NotStarted), jobs[run], Worker(kind, Planning))
      requires jobs[run].processed == [] && jobs[run].failed == []
      modifies this, store, dir
      ensures |jobs| == |old(jobs)| && jobs == old(jobs)[run := jobs[run]]
      ensures error == w.providerError
      ensures error.Some? ==>
                && jobs == old(jobs)
                && w.Leads(j0, Worker(kind, NotStarted), jobs[run], Worker(kind, MarkFailed(error.value)))
                && store.View() == old(store.View()) && dir.View() == old(dir.View())
      ensures error.None? ==>
                var plan := PlanOf(old(jobs)[run].scope, w);
                && jobs[run] == old(jobs)[run].(processed := Processed(plan, w, |plan|),
                                                failed := FailedScopes(plan, w, |plan|))
                && w.Leads(j0, Worker(kind, NotStarted), jobs[run], Worker(kind, Scopes(plan, |plan|)))
                && CodeMap.State(store.View(), dir.View())
                   == MapAfter(CodeMap.State(old(store.View()), old(dir.View())), plan, w, |plan|)
    {
      w.LeadsOn(j0, Worker(kind, NotStarted), jobs[run], Worker(kind, Planning));
      if w.providerError.Some? {
        return w.providerError;
      }
      var scope := jobs[run].scope;
      var plan := if scope.Some? && scope.value != "" then [scope.value] else w.listing;
      AllScopes(run, kind, w, plan, store, dir, j0);
      error := None;
    }

    method Conclude(run: nat, kind: Kind, w: World, error: Option<string>, ghost plan: seq<string>, ghost j0: Job)
      requires run < |jobs|
      requires w.Leads(j0, Worker(kind, NotStarted), jobs[run],
                       Worker(kind, if error.Some? then MarkFailed(error.value) else Scopes(plan, |plan|)))
      modifies this
      ensures |jobs| == |old(jobs)| && jobs == old(jobs)[run := jobs[run]]
      ensures var j := old(jobs)[run];
              jobs[run] == (if error.Some? then j.(status := Failed, error := error)
                            else j.(status := if j.failed == [] then Succeeded else Failed))
                           .(phase := Done, finished := true)
      ensures w.Leads(j0, Worker(kind, NotStarted), jobs[run],
                      Worker(kind, Finished(if error.Some? then [] else plan)))
    {
      ghost var pc := if error.Some? then MarkFailed(error.value) else Scopes(plan, |plan|);
      ghost var last := if error.Some? then [] else plan;
      w.LeadsOn(j0, Worker(kind, NotStarted), jobs[run], Worker(kind, pc));
      var j := jobs[run];
      if error.Some? {
        jobs := jobs[run := j.(status := Failed, error := error)];
      } else {
        jobs := jobs[run := j.(status := if j.failed == [] then Succeeded else Failed)];
      }
      w.LeadsOn(j0, Worker(kind, NotStarted), jobs[run], Worker(kind, Finally(last)));
      jobs := jobs[run := jobs[run].(phase := Done, finished := true)];
    }

    /** Both background functions; the pull is for repull jobs only. */
    method RunJob(run: nat, kind: Kind, w: World, store: CodeMap.CodeMapStore, dir: CodeMap.MapsDir)
      requires run < |jobs| && jobs[run] == NewJob(jobs[run].scope)
      requires forall k :: w.calls(k).max >= 1
      modifies this, store, dir
      ensures jobs == old(jobs)[run := FinalJob(kind, old(jobs)[run].scope, w)]
      ensures exists plan :: w.Leads(old(jobs)[run], Worker(kind, NotStarted), jobs[run], Worker(kind, Finished(plan)))
      ensures var plan := PlanOf(old(jobs)[run].scope, w);
              CodeMap.State(store.View(), dir.View())
              == (if (kind == RepullRegen && w.pullFailure.Some?) || w.providerError.Some?
                  then CodeMap.State(old(store.View()), old(dir.View()))
                  else MapAfter(CodeMap.State(old(store.View()), old(dir.View())), plan, w, |plan|))
    {
      ghost var j0, w0 := jobs[run], Worker(kind, NotStarted);
      assert w.Sections(j0, w0, 0) == (j0, w0);
      w.LeadsOn(j0, w0, j0, w0);
      var j := jobs[run].(status := Running, started := true);
      if kind == Regen {
        jobs := jobs[run := j.(phase := Regenerating)];
      } else {
        jobs := jobs[run := j.(phase := Pulling)];
        w.LeadsOn(j0, w0, jobs[run], Worker(kind, PullNow));
        if w.pullFailure.Some? {
          jobs := jobs[run := jobs[run].(
            pull := Some(Pull(false, Some(w.pullFailure.value.InPull()))), status := Failed,
            error := Some(w.pullFailure.value.InJob()), phase := Done, finished := true)];
          return;
        }
        jobs := jobs[run := jobs[run].(pull := Some(Pull(true, None)))];
        w.LeadsOn(j0, w0, jobs[run], Worker(kind, AfterPull));
        jobs := jobs[run := jobs[run].(phase := Regenerating)];
      }
      var error := DoRegenPhase(run, kind, w, store, dir, j0);
      ghost var plan := PlanOf(j0.scope, w);
      Conclude(run, kind, w, error, plan, j0);
    }
  }

  // ---- What a job's success means ----------------------------------------------------------------

  lemma {:induction false} NoFailedScopes(plan: seq<string>, w: World, n: nat)
    requires n <= |plan|
    ensures FailedScopes(plan, w, n) == [] <==> forall k :: 0 <= k < n ==> w.trees(k).None?
    ensures FailedScopes(plan, w, n) == [] ==> Processed(plan, w, n) == plan[..n]
  {
    if n > 0 {
      NoFailedScopes(plan, w, n - 1);
      assert plan[..n] == plan[..n - 1] + [plan[n - 1]];
    }
  }

  /**
   * A job succeeds exactly when the pull, the provider and the reading of every scope succeed.
   * How the regenerations end does not enter: a scope whose regeneration fails is processed.
   */
  lemma SucceedsExactly(kind: Kind, scope: Option<string>, w: World)
    ensures var j := FinalJob(kind, scope, w);
            var plan := PlanOf(scope, w);
            && (j.status == Succeeded <==>
                  && (kind == RepullRegen ==> w.pullFailure.None?)
                  && w.providerError.None?
                  && forall k :: 0 <= k < |plan| ==> w.trees(k).None?)
            && (j.status == Succeeded ==> j.processed == plan)
  {
    var plan := PlanOf(scope, w);
    NoFailedScopes(plan, w, |plan|);
    assert plan[..|plan|] == plan;
  }

  predicate FreshIn(s: CodeMap.Store, scope: string) {
    scope in s.scopes && !s.scopes[scope].stale
  }

  /** Position `k` is the last of the first `n` to regenerate its scope. */
  ghost predicate LastToRegenerate(plan: seq<string>, w: World, k: nat, n: nat) {
    && k < n <= |plan| && w.trees(k).None?
    && forall j :: k < j < n ==> plan[j] != plan[k] || w.trees(j).Some?
  }

  /** What decides a scope's freshness is the last regeneration of it. */
  lemma {:induction false} FreshExactly(st: CodeMap.State, plan: seq<string>, w: World, k: nat, n: nat)
    requires LastToRegenerate(plan, w, k, n) && forall i :: w.calls(i).max >= 1
    ensures FreshIn(MapAfter(st, plan, w, n).store, plan[k])
       <==> CodeMap.Deciding(w.calls(k).(scope := plan[k])).Succeeds?
    decreases n
  {
    if k < n - 1 {
      FreshExactly(st, plan, w, k, n - 1);
    }
  }

  /**
   * Whatever a succeeded job's plan of distinct scopes, a scope is fresh afterwards if and only if
   * its own regeneration succeeded; the status of the job says nothing about it.
   */
  lemma SucceededJobFreshExactly(kind: Kind, scope: Option<string>, w: World, st: CodeMap.State, k: nat)
    requires forall i :: w.calls(i).max >= 1
    requires FinalJob(kind, scope, w).status == Succeeded
    requires k < |PlanOf(scope, w)|
    requires forall i, j :: 0 <= i < j < |PlanOf(scope, w)| ==> PlanOf(scope, w)[i] != PlanOf(scope, w)[j]
    ensures var plan := PlanOf(scope, w);
            FreshIn(MapAfter(st, plan, w, |plan|).store, plan[k])
            <==> CodeMap.Deciding(w.calls(k).(scope := plan[k])).Succeeds?
  {
    SucceedsExactly(kind, scope, w);
    FreshExactly(st, PlanOf(scope, w), w, k, |PlanOf(scope, w)|);
  }

  /** The smallest case: the only scope of a succeeded job is stale in the store. */
  lemma SuccessfulJobMayLeaveAllStale(scope: string, w: World, st: CodeMap.State)
    requires scope != "" && w.providerError.None? && w.trees(0).None?
    requires forall k :: w.calls(k).max >= 1
    requires !CodeMap.Deciding(w.calls(0)).Succeeds?
    ensures FinalJob(Regen, Some(scope), w).status == Succeeded
    ensures var t := MapAfter(st, [scope], w, 1);
            scope in t.store.scopes && t.store.scopes[scope].stale
  {
    SucceedsExactly(Regen, Some(scope), w);
    AfterOneScope(st, scope, w);
  }

  lemma AfterOneScope(st: CodeMap.State, scope: string, w: World)
    requires w.trees(0).None? && forall k :: w.calls(k).max >= 1
    ensures var c := w.calls(0).(scope := scope);
            MapAfter(st, [scope], w, 1) == CodeMap.Regen(st, st.store.Get(scope), c)
            && CodeMap.Deciding(c) == CodeMap.Deciding(w.calls(0))
  {
    assert MapAfter(st, [scope], w, 0) == st;
  }
}
