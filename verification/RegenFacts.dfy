/** What one background function leaves in the job table, on the outcomes of pull, provider and files. */
module RegenFacts {
  import opened Options
  import opened RegenJobs
  import opened RegenRunner
  import CodeMap
  import Text

  /** A named scope is planned alone; no scope, or an empty one, means the whole listing. */
  lemma PlanExactly(scope: Option<string>, w: World)
    ensures scope == None || scope == Some("") ==> PlanOf(scope, w) == w.listing
    ensures forall s :: scope == Some(s) && s != "" ==> PlanOf(scope, w) == [s]
  {
  }

  /** A scope is reported as failed, with the error, if and only if its files could not be read. */
  lemma {:induction false} FailedExactly(plan: seq<string>, w: World, n: nat, p: (string, string))
    requires n <= |plan|
    ensures p in FailedScopes(plan, w, n) <==> exists k :: 0 <= k < n && w.trees(k) == Some(p.1) && plan[k] == p.0
  {
    if n > 0 {
      FailedExactly(plan, w, n - 1, p);
    }
  }

  /** The two lists share the plan out in its order. */
  lemma {:induction false} ListsSplitThePlan(plan: seq<string>, w: World, n: nat)
    requires n <= |plan|
    ensures Split(plan[..n], Processed(plan, w, n), FailedScopes(plan, w, n))
  {
    if n > 0 {
      ListsSplitThePlan(plan, w, n - 1);
      if w.trees(n - 1).Some? {
        SplitFailed(plan, n - 1, Processed(plan, w, n - 1), FailedScopes(plan, w, n - 1), w.trees(n - 1).value);
      } else {
        SplitProcessed(plan, n - 1, Processed(plan, w, n - 1), FailedScopes(plan, w, n - 1));
      }
    }
  }

  lemma OtherPullTexts(kind: string, text: string)
    ensures TimedOut.InPull() == "git pull timed out after 60s" && TimedOut.InJob() == "git pull timeout"
    ensures var f := Raised(kind, text); f.InPull() == "git pull raised " + kind + ": " + f.InJob() && f.InJob() == text
  {
  }

  /** The job tells no more of what git printed than the pull result, and each is cut. */
  lemma PullTexts(f: PullFailure)
    requires f.NonZero?
    ensures var s := Text.Strip(if f.stderr == "" then f.stdout else f.stderr);
            && 0 < |f.InPull()| <= 500
            && (s == "" ==> f.InPull() == "git pull returned non-zero")
            && (s != "" ==> f.InPull() <= s && (|s| <= 500 ==> f.InPull() == s))
    ensures exists t :: f.InJob() == "git pull failed: " + t && t <= f.InPull()
              && |t| <= 200 && (|f.InPull()| <= 200 ==> t == f.InPull())
  {
    assert First(f.Printed(), 200) <= f.InPull();
  }

  /**
   * Every job ends done, started and finished, succeeded or failed. Its error is the first early
   * one, the pull's before the provider's, and then no scope is touched; without one, the lists share
   * out the plan and name exactly the unreadable scopes. A pull is reported for repull jobs only.
   */
  lemma ReportOf(kind: Kind, scope: Option<string>, w: World)
    ensures var j := FinalJob(kind, scope, w);
            var plan := PlanOf(scope, w);
            && j.phase == Done && j.started && j.finished && j.scope == scope
            && (kind == Regen ==> j.pull == None)
            && (kind == RepullRegen && w.pullFailure.None? ==> j.pull == Some(Pull(true, None)))
            && (if kind == RepullRegen && w.pullFailure.Some? then
                  && j.pull == Some(Pull(false, Some(w.pullFailure.value.InPull())))
                  && j.error == Some(w.pullFailure.value.InJob())
                else j.error == w.providerError)
            && (j.error.Some? ==> j.status == Failed && j.processed == [] && j.failed == [])
            && (j.error.None? ==>
                  && j.status == (if j.failed == [] then Succeeded else Failed)
                  && Split(plan, j.processed, j.failed)
                  && forall p :: p in j.failed <==>
                       exists k :: 0 <= k < |plan| && w.trees(k) == Some(p.1) && plan[k] == p.0)
  {
    var plan := PlanOf(scope, w);
    ListsSplitThePlan(plan, w, |plan|);
    assert plan[..|plan|] == plan;
    forall p ensures p in FailedScopes(plan, w, |plan|) <==>
                       exists k :: 0 <= k < |plan| && w.trees(k) == Some(p.1) && plan[k] == p.0
    {
      FailedExactly(plan, w, |plan|, p);
    }
  }

  ghost predicate Renews(plan: seq<string>, w: World, k: nat, scope: string)
    requires k < |plan| && w.calls(k).max >= 1
  {
    plan[k] == scope && w.trees(k).None? && CodeMap.Deciding(w.calls(k).(scope := scope)).Succeeds?
  }

  /** The positions below `n` whose regeneration of `scope` succeeds. */
  ghost function Renewals(plan: seq<string>, w: World, n: nat, scope: string): set<nat>
    requires n <= |plan| && forall k :: w.calls(k).max >= 1
  {
    set k: nat | k < n && Renews(plan, w, k, scope)
  }

  lemma RenewalsStep(plan: seq<string>, w: World, n: nat, scope: string)
    requires n < |plan| && forall k :: w.calls(k).max >= 1
    ensures |Renewals(plan, w, n + 1, scope)|
         == |Renewals(plan, w, n, scope)| + (if Renews(plan, w, n, scope) then 1 else 0)
  {
    var before := Renewals(plan, w, n, scope);
    assert Renewals(plan, w, n + 1, scope) == if Renews(plan, w, n, scope) then before + {n} else before;
  }

  lemma VersionStep(st: CodeMap.State, plan: seq<string>, w: World, n: nat, scope: string)
    requires n < |plan| && (forall k :: w.calls(k).max >= 1) && CodeMap.Law(MapAfter(st, plan, w, n), scope)
    ensures var t := MapAfter(st, plan, w, n + 1);
            && CodeMap.Law(t, scope)
            && CodeMap.StoreVersion(t, scope)
               == CodeMap.StoreVersion(MapAfter(st, plan, w, n), scope) + (if Renews(plan, w, n, scope) then 1 else 0)
  {
    if w.trees(n).None? {
      CodeMap.RegenStep(MapAfter(st, plan, w, n), w.calls(n).(scope := plan[n]), scope);
    }
  }

  /** Whatever the plan, a scope's version grows by the number of its successful regenerations. */
  lemma {:induction false} JobVersions(st: CodeMap.State, plan: seq<string>, w: World, n: nat, scope: string)
    requires n <= |plan| && (forall k :: w.calls(k).max >= 1) && CodeMap.Law(st, scope)
    ensures var t := MapAfter(st, plan, w, n);
            && CodeMap.Law(t, scope)
            && CodeMap.StoreVersion(t, scope) == CodeMap.StoreVersion(st, scope) + |Renewals(plan, w, n, scope)|
  {
    if n == 0 {
      assert Renewals(plan, w, n, scope) == {};
    } else {
      JobVersions(st, plan, w, n - 1, scope);
      RenewalsStep(plan, w, n - 1, scope);
      VersionStep(st, plan, w, n - 1, scope);
    }
  }
}
