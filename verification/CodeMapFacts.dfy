/** What attempts, puts, files and cards amount to, told from their own fields. */
module CodeMapFacts {
  import opened Options
  import opened CodeMap

  // ---- Which attempt decides ---------------------------------------------------------------------

  predicate TransientFailure(a: Attempt) {
    (a.FailsBeforeWrite? || a.FailsAfterWrite?) && a.transient
  }

  /** The first attempt that is no transient failure, or the last one allowed. */
  ghost predicate Decides(c: Call, d: nat) {
    && d < c.max && (forall i: nat :: i < d ==> TransientFailure(c.attempts(i)))
    && (d == c.max - 1 || !TransientFailure(c.attempts(d)))
  }

  lemma {:induction false} DecisiveFrom(attempts: nat -> Attempt, k: nat, max: nat)
    requires k < max
    ensures var d := Decisive(attempts, k, max);
            && (forall i: nat :: k <= i < d ==> TransientFailure(attempts(i)))
            && (d == max - 1 || !TransientFailure(attempts(d)))
    decreases max - k
  {
    if k < max - 1 && Retried(attempts(k)) {
      DecisiveFrom(attempts, k + 1, max);
    }
  }

  lemma DecidesOnce(c: Call, d: nat)
    requires c.max >= 1 && Decides(c, d)
    ensures Deciding(c) == c.attempts(d) && Decisive(c.attempts, 0, c.max) == d
  {
    DecisiveFrom(c.attempts, 0, c.max);
    assert !(Decisive(c.attempts, 0, c.max) < d) && !(d < Decisive(c.attempts, 0, c.max));
  }

  /** A call succeeds if and only if some allowed attempt does, after transient failures only. */
  lemma SucceedsExactly(c: Call)
    requires c.max >= 1
    ensures Deciding(c).Succeeds?
       <==> exists k: nat :: k < c.max && c.attempts(k).Succeeds?
              && forall i: nat :: i < k ==> TransientFailure(c.attempts(i))
  {
    DecisiveFrom(c.attempts, 0, c.max);
    if k: nat :| k < c.max && c.attempts(k).Succeeds? && forall i: nat :: i < k ==> TransientFailure(c.attempts(i)) {
      DecidesOnce(c, k);
    }
  }

  /** What the store shows of the scope afterwards, by the attempt that decides. */
  lemma RegenOutcome(st: State, c: Call, d: nat)
    requires c.max >= 1 && Decides(c, d)
    ensures var g := Regen(st, st.store.Get(c.scope), c).store.Get(c.scope);
            var a := c.attempts(d);
            && g.Some?
            && (a.Succeeds? ==>
                  && !g.value.stale && g.value.staleReason == None
                  && g.value.modules == a.graph.modules && g.value.edges == a.graph.edges
                  && g.value.headSha == a.graph.headSha
                  && g.value.version == (if c.scope in st.store.scopes then st.store.scopes[c.scope].version + 1 else 1))
            && (!a.Succeeds? ==>
                  && g.value.stale
                  && g.value.staleReason == Some(if a.reason == "" then "unknown" else a.reason)
                  && (c.scope in st.store.scopes ==>
                        g.value == st.store.scopes[c.scope].(stale := true, staleReason := g.value.staleReason))
                  && (c.scope !in st.store.scopes ==>
                        && g.value.scope == c.scope && g.value.version == 0 && g.value.headSha == c.headSha
                        && g.value.modules == [] && g.value.edges == []))
  {
    DecidesOnce(c, d);
  }

  // ---- The store ---------------------------------------------------------------------------------

  /** A put is about one scope: only the stale mark of the graph, the streak and the pull time change. */
  lemma PutFacts(s: Store, scope: string, g: ScopeGraph, stale: bool, reason: Option<string>, now: int)
    ensures var t := s.Put(scope, g, stale, reason, now);
            && t.lastPullAt == Some(now)
            && t.scopes.Keys == s.scopes.Keys + {scope}
            && (forall o :: o in s.scopes && o != scope ==> t.scopes[o] == s.scopes[o])
            && (forall o :: o != scope ==> t.Streak(o) == s.Streak(o))
            && t.scopes[scope] == g.(stale := stale, staleReason := t.scopes[scope].staleReason)
            && (!stale ==> t.scopes[scope].staleReason == None && t.Streak(scope) == 0)
            && (stale ==> t.Streak(scope) == s.Streak(scope) + 1)
            && (stale && reason.Some? && reason.value != "" ==> t.scopes[scope].staleReason == reason)
            && (stale && (reason == None || reason == Some("")) ==> t.scopes[scope].staleReason == Some("unknown"))
  {
  }

  lemma StatusFacts(s: Store, scope: string)
    requires scope in s.scopes
    ensures var g, o := s.scopes[scope], StatusOf(s, scope);
            && o.version == g.version && o.headSha == g.headSha && o.stale == g.stale
            && o.staleReason == g.staleReason && o.moduleCount == |g.modules|
            && o.staleStreak == (if scope in s.staleStreak then s.staleStreak[scope] else 0)
  {
  }

  // ---- The files ---------------------------------------------------------------------------------

  /** What an attempt leaves on disk, by where it ends. */
  lemma AttemptFiles(d: Disk, scope: string, previous: Option<ScopeGraph>, a: Attempt)
    ensures var t := DiskAfter(d, scope, previous, a);
            && (a.FailsBeforeWrite? ==> t == d)
            && (!a.FailsBeforeWrite? ==>
                  && t.graphs.Keys == d.graphs.Keys + {scope}
                  && (forall o :: o in d.graphs && o != scope ==> t.graphs[o] == d.graphs[o])
                  && t.graphs[scope]
                     == a.graph.(version := t.graphs[scope].version, stale := false, staleReason := None)
                  && t.graphs[scope].version == (if previous.Some? then previous.value.version + 1 else 1))
            && (a.FailsAfterWrite? ==> t.index == d.index)
            && (a.Succeeds? ==>
                  && t.index.Keys == d.index.Keys + {scope}
                  && (forall o :: o in d.index && o != scope ==> t.index[o] == d.index[o])
                  && t.index[scope].version == t.graphs[scope].version
                  && t.index[scope].headSha == a.graph.headSha && t.index[scope].moduleCount == |a.graph.modules|)
  {
  }

  /** The cards an attempt writes: those of its first modules, as many as it got to. */
  lemma AttemptCards(d: Disk, scope: string, previous: Option<ScopeGraph>, a: Attempt, file: string)
    requires !a.FailsBeforeWrite? && (a.FailsAfterWrite? ==> a.cards <= |a.graph.modules|)
    ensures var t := DiskAfter(d, scope, previous, a);
            var n := if a.Succeeds? then |a.graph.modules| else a.cards;
            var k := (scope, file);
            match Owner(a.graph, file, n)
            case Some(m) =>
              && k in t.cards && t.cards[k].moduleId == m.id && t.cards[k].responsibility == m.responsibility
              && t.cards[k].version == t.graphs[scope].version && t.cards[k].headSha == a.graph.headSha
            case None => (k in t.cards <==> k in d.cards) && (k in d.cards ==> t.cards[k] == d.cards[k])
  {
    var g := Versioned(a.graph, previous);
    var n := if a.Succeeds? then |a.graph.modules| else a.cards;
    OwnerOfModules(g, a.graph, file, n);
    CardsBelongToOwners(d.cards, scope, g, n, file);
    if Owner(g, file, n).None? {
      CardsElsewhere(d.cards, scope, g, n, file);
    }
  }

  lemma {:induction false} OwnerOfModules(g: ScopeGraph, h: ScopeGraph, file: string, n: nat)
    requires g.modules == h.modules && n <= |g.modules|
    ensures Owner(g, file, n) == Owner(h, file, n)
  {
    if n > 0 {
      OwnerOfModules(g, h, file, n - 1);
    }
  }

  /** A card is not touched by modules of other names. */
  lemma {:induction false} CardsElsewhere(
    cards: map<(string, string), Card>, scope: string, g: ScopeGraph, n: nat, file: string)
    requires n <= |g.modules| && Owner(g, file, n).None?
    ensures var after := CardsWritten(cards, scope, g, n);
            (scope, file) in cards ==> (scope, file) in after && after[(scope, file)] == cards[(scope, file)]
  {
    if n > 0 {
      CardsElsewhere(cards, scope, g, n - 1, file);
      CardsBelongToOwners(cards, scope, g, n - 1, file);
    }
  }

  /** A module's file is named by what follows the last slash of its id. */
  lemma {:induction false} SegmentIsLast(id: string)
    ensures var s := LastSegment(id);
            && '/' !in s && |s| <= |id| && id[|id| - |s|..] == s
            && (|s| == |id| || id[|id| - |s| - 1] == '/')
    decreases |id|
  {
    if '/' in id {
      SegmentIsLast(AfterSlash(id));
      AfterSlashIsSuffix(id);
    }
  }

  lemma {:induction false} AfterSlashIsSuffix(id: string)
    requires '/' in id
    ensures var r := AfterSlash(id); id[|id| - |r|..] == r && id[|id| - |r| - 1] == '/'
    decreases |id|
  {
    if id[0] != '/' {
      AfterSlashIsSuffix(id[1..]);
    }
  }
}
