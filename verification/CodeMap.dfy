/** The code map: scope graphs, the in-memory store, the files, and regeneration of one scope. */
module CodeMap {
  import opened Options

  datatype CodeModule = CodeModule(
    id: string, path: string, name: string, kind: string, responsibility: string,
    entryPoints: seq<string>, keyFiles: seq<string>)

  datatype Edge = Edge(source: string, target: string, via: Option<string>)

  datatype ScopeGraph = ScopeGraph(
    scope: string, version: nat, headSha: string, stale: bool, staleReason: Option<string>,
    modules: seq<CodeModule>, edges: seq<Edge>)

  // ---- The store ---------------------------------------------------------------------------------

  datatype Store = Store(
    scopes: map<string, ScopeGraph>, staleStreak: map<string, nat>, lastPullAt: Option<int>)
  {
    function Streak(scope: string): nat {
      if scope in staleStreak then staleStreak[scope] else 0
    }

    function Get(scope: string): Option<ScopeGraph> {
      if scope in scopes then Some(scopes[scope]) else None
    }

    function Put(scope: string, g: ScopeGraph, stale: bool, reason: Option<string>, now: int): Store {
      var kept := if stale then g.(stale := true, staleReason := Some(Reason(reason)))
                  else g.(stale := false, staleReason := None);
      Store(scopes[scope := kept],
            staleStreak[scope := if stale then Streak(scope) + 1 else 0],
            Some(now))
    }
  }

  /** An empty reason counts as none. */
  function Reason(reason: Option<string>): string {
    if reason.Some? && reason.value != "" then reason.value else "unknown"
  }

  datatype ScopeStatus = ScopeStatus(
    version: nat, headSha: string, stale: bool, staleReason: Option<string>, staleStreak: nat,
    moduleCount: nat)

  function StatusOf(s: Store, scope: string): ScopeStatus
    requires scope in s.scopes
  {
    var g := s.scopes[scope];
    ScopeStatus(g.version, g.headSha, g.stale, g.staleReason, s.Streak(scope), |g.modules|)
  }

  class CodeMapStore {
    var scopes: map<string, ScopeGraph>
    var staleStreak: map<string, nat>
    var lastPullAt: Option<int>

    constructor ()
      ensures View() == Store(map[], map[], None)
    {
      scopes, staleStreak, lastPullAt := map[], map[], None;
    }

    ghost function View(): Store
      reads this
    {
      Store(scopes, staleStreak, lastPullAt)
    }

    method Put(scope: string, graph: ScopeGraph, stale: bool, reason: Option<string>, now: int)
      modifies this
      ensures View() == old(View()).Put(scope, graph, stale, reason, now)
    {
      var g := graph;
      if stale {
        g := g.(stale := true, staleReason := Some(Reason(reason)));
        var streak := if scope in staleStreak then staleStreak[scope] else 0;
        staleStreak := staleStreak[scope := streak + 1];
      } else {
        g := g.(stale := false, staleReason := None);
        staleStreak := staleStreak[scope := 0];
      }
      scopes := scopes[scope := g];
      lastPullAt := Some(now);
    }

    method Get(scope: string) returns (g: Option<ScopeGraph>)
      ensures g == View().Get(scope)
    {
      g := if scope in scopes then Some(scopes[scope]) else None;
    }

    /** The last error is the reason of some stale scope, or none if nothing is stale. */
    method Status() returns (out: map<string, ScopeStatus>, pulled: Option<int>, lastError: Option<string>)
      ensures out.Keys == scopes.Keys
      ensures forall s :: s in out ==> out[s] == StatusOf(View(), s)
      ensures pulled == lastPullAt
      ensures if forall s :: s in scopes ==> !scopes[s].stale then lastError == None
              else exists s :: s in scopes && scopes[s].stale && lastError == scopes[s].staleReason
    {
      out, pulled, lastError := map[], lastPullAt, None;
      var rest := scopes.Keys;
      var found := false;
      while rest != {}
        invariant rest <= scopes.Keys && out.Keys == scopes.Keys - rest
        invariant forall s :: s in out ==> out[s] == StatusOf(View(), s)
        invariant !found ==> lastError == None && forall s :: s in out ==> !scopes[s].stale
        invariant found ==> exists s :: s in scopes && scopes[s].stale && lastError == scopes[s].staleReason
        decreases rest
      {
        var name :| name in rest;
        var g := scopes[name];
        var streak := if name in staleStreak then staleStreak[name] else 0;
        out := out[name := ScopeStatus(
          g.version, g.headSha, g.stale, g.staleReason, streak, |g.modules|)];
        if g.stale && !found {
          lastError, found := g.staleReason, true;
        }
        rest := rest - {name};
      }
    }
  }

  // ---- The files ---------------------------------------------------------------------------------

  datatype Card = Card(moduleId: string, version: nat, headSha: string, responsibility: string)

  datatype IndexEntry = IndexEntry(version: nat, headSha: string, moduleCount: nat)

  /** `cards` is keyed by scope and file name. */
  datatype Disk = Disk(
    graphs: map<string, ScopeGraph>,
    cards: map<(string, string), Card>,
    index: map<string, IndexEntry>)

  function LastSegment(id: string): string
    decreases |id|
  {
    if '/' in id then LastSegment(AfterSlash(id)) else id
  }

  function AfterSlash(id: string): (r: string)
    requires '/' in id
    ensures |r| < |id|
  {
    if id[0] == '/' then id[1..] else AfterSlash(id[1..])
  }

  function CardOf(m: CodeModule, g: ScopeGraph): Card {
    Card(m.id, g.version, g.headSha, m.responsibility)
  }

  /** The cards after the first `n` modules of `g` are written. */
  function CardsWritten(
    cards: map<(string, string), Card>, scope: string, g: ScopeGraph, n: nat)
    : map<(string, string), Card>
  {
    if n == 0 then cards
    else
      var before := CardsWritten(cards, scope, g, n - 1);
      if n > |g.modules| then before
      else
        var m := g.modules[n - 1];
        before[(scope, LastSegment(m.id)) := CardOf(m, g)]
  }

  // ---- One regeneration --------------------------------------------------------------------------

  /** What one attempt meets: the model's graph, and where it fails, if it does. */
  datatype Attempt =
    | FailsBeforeWrite(transient: bool, reason: string)
    | FailsAfterWrite(graph: ScopeGraph, cards: nat, transient: bool, reason: string)
    | Succeeds(graph: ScopeGraph)

  function Versioned(g: ScopeGraph, previous: Option<ScopeGraph>): ScopeGraph {
    g.(version := if previous.Some? then previous.value.version + 1 else 1,
       stale := false, staleReason := None)
  }

  /** The files after one attempt. */
  function DiskAfter(d: Disk, scope: string, previous: Option<ScopeGraph>, a: Attempt): Disk {
    match a
    case FailsBeforeWrite(_, _) => d
    case FailsAfterWrite(graph, n, _, _) =>
      var g := Versioned(graph, previous);
      d.(graphs := d.graphs[scope := g], cards := CardsWritten(d.cards, scope, g, n))
    case Succeeds(graph) =>
      var g := Versioned(graph, previous);
      Disk(d.graphs[scope := g],
           CardsWritten(d.cards, scope, g, |g.modules|),
           d.index[scope := IndexEntry(g.version, g.headSha, |g.modules|)])
  }

  predicate Retried(a: Attempt) {
    !a.Succeeds? && a.transient
  }

  /** The attempt that decides: the first that is not retried, or the last allowed. */
  function Decisive(attempts: nat -> Attempt, k: nat, max: nat): (d: nat)
    requires k < max
    ensures k <= d < max
    decreases max - k
  {
    if k == max - 1 || !Retried(attempts(k)) then k else Decisive(attempts, k + 1, max)
  }

  /** The files after attempts `k` to `d`. */
  function DiskThrough(
    d0: Disk, scope: string, previous: Option<ScopeGraph>, attempts: nat -> Attempt, k: nat, d: nat)
    : Disk
    requires k <= d
    decreases d - k
  {
    var d1 := DiskAfter(d0, scope, previous, attempts(k));
    if k == d then d1 else DiskThrough(d1, scope, previous, attempts, k + 1, d)
  }

  function Placeholder(scope: string, headSha: string, reason: string): ScopeGraph {
    ScopeGraph(scope, 0, headSha, true, Some(reason), [], [])
  }

  /** A call for one scope, with everything the outside contributes. */
  datatype Call = Call(scope: string, attempts: nat -> Attempt, max: nat, headSha: string, now: int)

  datatype State = State(store: Store, disk: Disk)

  function Deciding(c: Call): Attempt
    requires c.max >= 1
  {
    c.attempts(Decisive(c.attempts, 0, c.max))
  }

  function StoreAfter(s: Store, previous: Option<ScopeGraph>, c: Call): Store
    requires c.max >= 1
  {
    var a := Deciding(c);
    if a.Succeeds? then s.Put(c.scope, Versioned(a.graph, previous), false, None, c.now)
    else if previous.Some? then s.Put(c.scope, previous.value, true, Some(a.reason), c.now)
    else s.Put(c.scope, Placeholder(c.scope, c.headSha, a.reason), true, Some(a.reason), c.now)
  }

  function Regen(st: State, previous: Option<ScopeGraph>, c: Call): State
    requires c.max >= 1
  {
    State(StoreAfter(st.store, previous, c),
          DiskThrough(st.disk, c.scope, previous, c.attempts, 0, Decisive(c.attempts, 0, c.max)))
  }

  class MapsDir {
    var graphs: map<string, ScopeGraph>
    var cards: map<(string, string), Card>
    var index: map<string, IndexEntry>

    constructor (d: Disk)
      ensures View() == d
    {
      graphs, cards, index := d.graphs, d.cards, d.index;
    }

    ghost function View(): Disk
      reads this
    {
      Disk(graphs, cards, index)
    }

    method WriteCards(scope: string, g: ScopeGraph, n: nat)
      modifies this
      ensures View() == old(View()).(cards := CardsWritten(old(cards), scope, g, n))
    {
      var i := 0;
      while i < n
        invariant 0 <= i <= n
        invariant View() == old(View()).(cards := CardsWritten(old(cards), scope, g, i))
      {
        if i < |g.modules| {
          var m := g.modules[i];
          cards := cards[(scope, LastSegment(m.id)) := CardOf(m, g)];
        }
        i := i + 1;
      }
    }

    /** Without a provider: the given scopes at version 0, all others gone from the index. */
    method WriteFallbackIndex(scopes: set<string>, headSha: string)
      modifies this
      ensures View() == old(View()).(index := map s | s in scopes :: IndexEntry(0, headSha, 0))
    {
      index := map s | s in scopes :: IndexEntry(0, headSha, 0);
    }

    /** The body of the try block; `None` is success. */
    method TryOnce(scope: string, previous: Option<ScopeGraph>, a: Attempt)
      returns (g: Option<ScopeGraph>)
      modifies this
      ensures View() == DiskAfter(old(View()), scope, previous, a)
      ensures g == (if a.Succeeds? then Some(Versioned(a.graph, previous)) else None)
    {
      if a.FailsBeforeWrite? {
        return None;
      }
      var renewed := Versioned(a.graph, previous);
      graphs := graphs[scope := renewed];
      if a.FailsAfterWrite? {
        WriteCards(scope, renewed, a.cards);
        return None;
      }
      WriteCards(scope, renewed, |renewed.modules|);
      index := index[scope := IndexEntry(renewed.version, renewed.headSha, |renewed.modules|)];
      g := Some(renewed);
    }
  }

  method RegenOneScope(
    c: Call, previous: Option<ScopeGraph>, store: CodeMapStore, dir: MapsDir)
    requires c.max >= 1
    modifies store, dir
    ensures State(store.View(), dir.View())
         == Regen(State(old(store.View()), old(dir.View())), previous, c)
  {
    var attempt := 0;
    var reason := "";
    ghost var d := Decisive(c.attempts, 0, c.max);
    while true
      invariant attempt <= d && Decisive(c.attempts, attempt, c.max) == d
      invariant store.View() == old(store.View())
      invariant DiskThrough(dir.View(), c.scope, previous, c.attempts, attempt, d)
             == DiskThrough(old(dir.View()), c.scope, previous, c.attempts, 0, d)
      decreases d - attempt
    {
      var a := c.attempts(attempt);
      var renewed := dir.TryOnce(c.scope, previous, a);
      if renewed.Some? {
        store.Put(c.scope, renewed.value, false, None, c.now);
        return;
      }
      reason := a.reason;
      if a.transient && attempt < c.max - 1 {
        attempt := attempt + 1;
        continue;
      }
      break;
    }
    if previous.Some? {
      store.Put(c.scope, previous.value, true, Some(reason), c.now);
    } else {
      store.Put(c.scope, Placeholder(c.scope, c.headSha, reason), true, Some(reason), c.now);
    }
  }

  /** What a load makes of a store: graph files become fresh entries, other entries stay. */
  ghost predicate Loaded(before: Store, graphs: map<string, ScopeGraph>, after: Store) {
    && after.scopes.Keys == before.scopes.Keys + graphs.Keys
    && (forall s :: s in graphs ==>
          after.scopes[s] == graphs[s].(stale := false, staleReason := None) && after.Streak(s) == 0)
    && (forall s :: s !in graphs ==>
          (s in before.scopes ==> after.scopes[s] == before.scopes[s]) && after.Streak(s) == before.Streak(s))
  }

  /** Every readable graph file becomes a fresh store entry. */
  method LoadDiskIntoStore(dir: MapsDir, store: CodeMapStore, now: int)
    modifies store
    ensures Loaded(old(store.View()), dir.graphs, store.View())
  {
    var rest := dir.graphs.Keys;
    while rest != {}
      invariant rest <= dir.graphs.Keys
      invariant store.scopes.Keys == old(store.scopes.Keys) + (dir.graphs.Keys - rest)
      invariant forall s :: s in dir.graphs.Keys - rest ==>
                  && store.scopes[s] == dir.graphs[s].(stale := false, staleReason := None)
                  && store.View().Streak(s) == 0
      invariant forall s :: s in rest || s !in dir.graphs ==>
                  && (s in old(store.scopes) ==> store.scopes[s] == old(store.scopes)[s])
                  && store.View().Streak(s) == old(store.View()).Streak(s)
      decreases rest
    {
      var s :| s in rest;
      store.Put(s, dir.graphs[s], false, None, now);
      rest := rest - {s};
    }
  }

  // ---- The version law ---------------------------------------------------------------------------

  /** Calls one after the other, each reading the store's graph first. */
  ghost function RunAll(st: State, cs: seq<Call>): State
    requires forall c :: c in cs ==> c.max >= 1
  {
    if cs == [] then st
    else
      var before := RunAll(st, cs[..|cs| - 1]);
      var c := cs[|cs| - 1];
      Regen(before, before.store.Get(c.scope), c)
  }

  ghost function Successes(cs: seq<Call>, scope: string): nat
    requires forall c :: c in cs ==> c.max >= 1
  {
    if cs == [] then 0
    else
      var c := cs[|cs| - 1];
      Successes(cs[..|cs| - 1], scope) + (if c.scope == scope && Deciding(c).Succeeds? then 1 else 0)
  }

  /** Failed calls since the last successful one, `start` before the first call. */
  ghost function FailureStreak(cs: seq<Call>, scope: string, start: nat): nat
    requires forall c :: c in cs ==> c.max >= 1
  {
    if cs == [] then start
    else
      var c := cs[|cs| - 1];
      var before := FailureStreak(cs[..|cs| - 1], scope, start);
      if c.scope != scope then before else if Deciding(c).Succeeds? then 0 else before + 1
  }

  function StoreVersion(st: State, scope: string): nat {
    if scope in st.store.scopes then st.store.scopes[scope].version else 0
  }

  function DiskVersion(st: State, scope: string): nat {
    if scope in st.disk.graphs then st.disk.graphs[scope].version else 0
  }

  function IndexVersion(st: State, scope: string): nat {
    if scope in st.disk.index then st.disk.index[scope].version else 0
  }

  /** Store and graph files agree, and nothing is stale; the index may lag behind. */
  ghost predicate Agree(st: State) {
    forall s :: && StoreVersion(st, s) == DiskVersion(st, s)
                && st.store.Streak(s) == 0
                && (s in st.store.scopes ==> !st.store.scopes[s].stale)
  }

  ghost predicate Law(st: State, scope: string) {
    var v := StoreVersion(st, scope);
    && v <= DiskVersion(st, scope) <= v + 1
    && (scope in st.store.scopes ==>
          (st.store.scopes[scope].stale <==> st.store.Streak(scope) > 0))
  }

  lemma {:induction false} DiskThroughVersion(
    d0: Disk, scope: string, previous: Option<ScopeGraph>, attempts: nat -> Attempt, k: nat, d: nat)
    requires k <= d
    requires forall i :: k <= i < d ==> !attempts(i).Succeeds?
    ensures var d1 := DiskThrough(d0, scope, previous, attempts, k, d);
            var renewed := if previous.Some? then previous.value.version + 1 else 1;
            && (forall s :: s != scope ==>
                  && (s in d1.graphs <==> s in d0.graphs) && (s in d0.graphs ==> d1.graphs[s] == d0.graphs[s])
                  && (s in d1.index <==> s in d0.index) && (s in d0.index ==> d1.index[s] == d0.index[s]))
            && (scope in d0.graphs ==> scope in d1.graphs)
            && (scope in d1.graphs ==>
                  d1.graphs[scope].version == renewed
                  || (scope in d0.graphs && d1.graphs[scope] == d0.graphs[scope]))
            && (attempts(d).Succeeds? ==>
                  && scope in d1.graphs && d1.graphs[scope] == Versioned(attempts(d).graph, previous)
                  && scope in d1.index && d1.index[scope].version == renewed)
            && (!attempts(d).Succeeds? ==>
                  (scope in d1.index <==> scope in d0.index)
                  && (scope in d0.index ==> d1.index[scope] == d0.index[scope]))
    decreases d - k
  {
    if k < d {
      DiskThroughVersion(DiskAfter(d0, scope, previous, attempts(k)), scope, previous, attempts, k + 1, d);
    }
  }

  lemma {:induction false} OnlyLastSucceeds(attempts: nat -> Attempt, k: nat, max: nat)
    requires k < max
    ensures forall i :: k <= i < Decisive(attempts, k, max) ==> Retried(attempts(i))
    decreases max - k
  {
    if k < max - 1 && Retried(attempts(k)) {
      OnlyLastSucceeds(attempts, k + 1, max);
    }
  }

  /** One call, as seen from any scope. */
  lemma RegenStep(st: State, c: Call, scope: string)
    requires c.max >= 1 && Law(st, scope)
    ensures var t := Regen(st, st.store.Get(c.scope), c);
            && Law(t, scope)
            && DiskVersion(st, scope) <= DiskVersion(t, scope)
            && (c.scope != scope ==>
                  && t.store.Get(scope) == st.store.Get(scope)
                  && t.store.Streak(scope) == st.store.Streak(scope)
                  && DiskVersion(t, scope) == DiskVersion(st, scope))
            && (c.scope == scope && Deciding(c).Succeeds? ==>
                  && StoreVersion(t, scope) == StoreVersion(st, scope) + 1
                  && DiskVersion(t, scope) == StoreVersion(t, scope)
                  && t.store.Streak(scope) == 0
                  && t.disk.graphs[scope] == t.store.scopes[scope]
                  && t.store.scopes[scope].modules == Deciding(c).graph.modules
                  && t.store.scopes[scope].edges == Deciding(c).graph.edges)
            && (c.scope == scope && !Deciding(c).Succeeds? ==>
                  && scope in t.store.scopes
                  && StoreVersion(t, scope) == StoreVersion(st, scope)
                  && t.store.Streak(scope) == st.store.Streak(scope) + 1
                  && t.store.scopes[scope].staleReason == Some(Reason(Some(Deciding(c).reason)))
                  && KeepsContent(st.store.Get(scope), t.store.scopes[scope]))
  {
    var d := Decisive(c.attempts, 0, c.max);
    OnlyLastSucceeds(c.attempts, 0, c.max);
    DiskThroughVersion(st.disk, c.scope, st.store.Get(c.scope), c.attempts, 0, d);
  }

  /** The old modules and edges, or none if there was no graph. */
  ghost predicate KeepsContent(previous: Option<ScopeGraph>, g: ScopeGraph) {
    if previous.Some? then g.modules == previous.value.modules && g.edges == previous.value.edges
    else g.modules == [] && g.edges == []
  }

  /**
   * For every sequence of sequential calls from an agreeing store and disk: the store version
   * counts the successes, the stale streak counts the failures since the last success, stale means
   * a positive streak, and the disk is at most one ahead.
   */
  lemma {:induction false} VersionLaw(st: State, cs: seq<Call>, scope: string)
    requires Agree(st) && forall c :: c in cs ==> c.max >= 1
    ensures var t := RunAll(st, cs);
            && Law(t, scope)
            && StoreVersion(t, scope) == StoreVersion(st, scope) + Successes(cs, scope)
            && t.store.Streak(scope) == FailureStreak(cs, scope, 0)
            && (FailureStreak(cs, scope, 0) == 0 ==> DiskVersion(t, scope) == StoreVersion(t, scope))
            && DiskVersion(st, scope) <= DiskVersion(t, scope)
  {
    if cs != [] {
      var init, c := cs[..|cs| - 1], cs[|cs| - 1];
      VersionLaw(st, init, scope);
      RegenStep(RunAll(st, init), c, scope);
    }
  }

  /** One call and the index: its own entry after a success, nothing otherwise. */
  lemma IndexStep(st: State, c: Call, scope: string)
    requires c.max >= 1
    ensures var t := Regen(st, st.store.Get(c.scope), c);
            if c.scope == scope && Deciding(c).Succeeds? then
              IndexVersion(t, scope) == StoreVersion(t, scope) == StoreVersion(st, scope) + 1
            else
              IndexVersion(t, scope) == IndexVersion(st, scope) && StoreVersion(t, scope) == StoreVersion(st, scope)
  {
    var d := Decisive(c.attempts, 0, c.max);
    OnlyLastSucceeds(c.attempts, 0, c.max);
    DiskThroughVersion(st.disk, c.scope, st.store.Get(c.scope), c.attempts, 0, d);
  }

  /** From any state: the index is as it was until the first success, then shows the store version. */
  lemma {:induction false} IndexLaw(st: State, cs: seq<Call>, scope: string)
    requires forall c :: c in cs ==> c.max >= 1
    ensures var t := RunAll(st, cs);
            IndexVersion(t, scope)
            == if Successes(cs, scope) == 0 then IndexVersion(st, scope) else StoreVersion(t, scope)
  {
    if cs != [] {
      var init, c := cs[..|cs| - 1], cs[|cs| - 1];
      IndexLaw(st, init, scope);
      IndexStep(RunAll(st, init), c, scope);
    }
  }

  /** Some attempt of the call fails after it has written its graph. */
  ghost predicate WritesInVain(c: Call)
    requires c.max >= 1
  {
    exists i: nat :: i <= Decisive(c.attempts, 0, c.max) && c.attempts(i).FailsAfterWrite?
  }

  /** Attempt `i` fails after its write, and none after it up to `d` does. */
  ghost predicate WritesLast(attempts: nat -> Attempt, i: nat, d: nat) {
    attempts(i).FailsAfterWrite? && forall j :: i < j <= d ==> !attempts(j).FailsAfterWrite?
  }

  lemma {:induction false} DiskThroughWrites(
    d0: Disk, scope: string, previous: Option<ScopeGraph>, attempts: nat -> Attempt, k: nat, d: nat)
    requires k <= d && forall i :: k <= i <= d ==> !attempts(i).Succeeds?
    ensures var d1 := DiskThrough(d0, scope, previous, attempts, k, d);
            && ((forall i :: k <= i <= d ==> !attempts(i).FailsAfterWrite?) ==> d1.graphs == d0.graphs)
            && (forall i :: k <= i <= d && WritesLast(attempts, i, d) ==>
                  scope in d1.graphs && d1.graphs[scope] == Versioned(attempts(i).graph, previous))
    decreases d - k
  {
    if k < d {
      DiskThroughWrites(DiskAfter(d0, scope, previous, attempts(k)), scope, previous, attempts, k + 1, d);
    }
  }

  lemma {:induction false} LastWrite(attempts: nat -> Attempt, i: nat, d: nat) returns (k: nat)
    requires i <= d && attempts(i).FailsAfterWrite?
    ensures i <= k <= d && WritesLast(attempts, k, d)
    decreases d - i
  {
    k := i;
    if j :| i < j <= d && attempts(j).FailsAfterWrite? {
      k := LastWrite(attempts, j, d);
    }
  }

  /**
   * A failing call leaves the file one version ahead of the store if and only if it was ahead
   * before or some attempt, retried or not, failed after the graph was written. What the file then
   * holds is the graph of the last such attempt, which the next load shows as fresh.
   */
  lemma LateFailureIsOnDisk(st: State, c: Call)
    requires c.max >= 1 && Law(st, c.scope) && !Deciding(c).Succeeds?
    ensures var t := Regen(st, st.store.Get(c.scope), c);
            && StoreVersion(t, c.scope) == StoreVersion(st, c.scope)
            && (DiskVersion(t, c.scope) == StoreVersion(t, c.scope) + 1
                <==> DiskVersion(st, c.scope) == StoreVersion(st, c.scope) + 1 || WritesInVain(c))
            && (WritesInVain(c) ==>
                  exists i: nat | i <= Decisive(c.attempts, 0, c.max) ::
                    && WritesLast(c.attempts, i, Decisive(c.attempts, 0, c.max))
                    && c.scope in t.disk.graphs
                    && t.disk.graphs[c.scope] == Versioned(c.attempts(i).graph, st.store.Get(c.scope)))
            && (!WritesInVain(c) ==> t.disk.graphs == st.disk.graphs)
  {
    var d := Decisive(c.attempts, 0, c.max);
    OnlyLastSucceeds(c.attempts, 0, c.max);
    DiskThroughWrites(st.disk, c.scope, st.store.Get(c.scope), c.attempts, 0, d);
    if i: nat :| i <= d && c.attempts(i).FailsAfterWrite? {
      var k := LastWrite(c.attempts, i, d);
    }
  }

  /** A call since the last success has written in vain. */
  ghost predicate Ahead(cs: seq<Call>, scope: string)
    requires forall c :: c in cs ==> c.max >= 1
  {
    if cs == [] then false
    else
      var c := cs[|cs| - 1];
      if c.scope != scope then Ahead(cs[..|cs| - 1], scope)
      else !Deciding(c).Succeeds? && (WritesInVain(c) || Ahead(cs[..|cs| - 1], scope))
  }

  /** Over every sequence of calls: exactly when the file is ahead of the store. */
  lemma {:induction false} DiskAheadExactly(st: State, cs: seq<Call>, scope: string)
    requires Agree(st) && forall c :: c in cs ==> c.max >= 1
    ensures var t := RunAll(st, cs);
            DiskVersion(t, scope) == StoreVersion(t, scope) + (if Ahead(cs, scope) then 1 else 0)
  {
    if cs != [] {
      var init, c := cs[..|cs| - 1], cs[|cs| - 1];
      DiskAheadExactly(st, init, scope);
      VersionLaw(st, init, scope);
      RegenStep(RunAll(st, init), c, scope);
      if c.scope == scope && !Deciding(c).Succeeds? {
        LateFailureIsOnDisk(RunAll(st, init), c);
      }
    }
  }

  // ---- A new process -----------------------------------------------------------------------------

  const EMPTY_STORE := Store(map[], map[], None)

  /** Whatever is on disk, a fresh store filled from it agrees with it. */
  lemma LoadAgrees(d: Disk, after: Store)
    requires Loaded(EMPTY_STORE, d.graphs, after)
    ensures Agree(State(after, d))
  {
  }

  /**
   * After a late failure the next process starts from the new graph, fresh and one version on, while
   * the index still shows the old one; the version law holds from there.
   */
  lemma LateFailureSurfaces(st: State, c: Call, after: Store)
    requires Agree(st) && c.max >= 1 && !Deciding(c).Succeeds? && WritesInVain(c)
    requires Loaded(EMPTY_STORE, Regen(st, st.store.Get(c.scope), c).disk.graphs, after)
    ensures var d := Regen(st, st.store.Get(c.scope), c).disk;
            var next := State(after, d);
            && Agree(next)
            && c.scope in after.scopes && !after.scopes[c.scope].stale
            && StoreVersion(next, c.scope) == StoreVersion(st, c.scope) + 1
            && IndexVersion(next, c.scope) == IndexVersion(st, c.scope)
  {
    LateFailureIsOnDisk(st, c);
    IndexStep(st, c, c.scope);
  }

  // ---- Cards -------------------------------------------------------------------------------------

  /** The last of the first `n` modules that uses the file name `file`. */
  ghost function Owner(g: ScopeGraph, file: string, n: nat): Option<CodeModule>
    requires n <= |g.modules|
  {
    if n == 0 then None
    else if LastSegment(g.modules[n - 1].id) == file then Some(g.modules[n - 1])
    else Owner(g, file, n - 1)
  }

  lemma {:induction false} CardsBelongToOwners(
    cards: map<(string, string), Card>, scope: string, g: ScopeGraph, n: nat, file: string)
    requires n <= |g.modules|
    ensures var after := CardsWritten(cards, scope, g, n);
            match Owner(g, file, n)
            case Some(m) => (scope, file) in after && after[(scope, file)] == CardOf(m, g)
            case None => (scope, file) in after <==> (scope, file) in cards
  {
    if n > 0 {
      CardsBelongToOwners(cards, scope, g, n - 1, file);
    }
  }

  /** A module finds its own card after a success exactly if no later module shares its file name. */
  lemma CardSurvivesExactly(cards: map<(string, string), Card>, scope: string, g: ScopeGraph, i: nat)
    requires i < |g.modules|
    requires forall j, k :: 0 <= j < k < |g.modules| ==> g.modules[j].id != g.modules[k].id
    ensures var m := g.modules[i];
            var after := CardsWritten(cards, scope, g, |g.modules|);
            && (scope, LastSegment(m.id)) in after
            && (after[(scope, LastSegment(m.id))].moduleId == m.id
                <==> forall j :: i < j < |g.modules| ==>
                       LastSegment(g.modules[j].id) != LastSegment(m.id))
  {
    var file := LastSegment(g.modules[i].id);
    CardsBelongToOwners(cards, scope, g, |g.modules|, file);
    OwnerIsLast(g, i, |g.modules|);
  }

  lemma {:induction false} OwnerIsLast(g: ScopeGraph, i: nat, n: nat)
    requires i < n <= |g.modules|
    ensures var file := LastSegment(g.modules[i].id);
            var o := Owner(g, file, n);
            && o.Some?
            && (exists j :: i <= j < n && g.modules[j] == o.value && LastSegment(g.modules[j].id) == file
                  && forall k :: j < k < n ==> LastSegment(g.modules[k].id) != file)
  {
    if LastSegment(g.modules[n - 1].id) != LastSegment(g.modules[i].id) {
      OwnerIsLast(g, i, n - 1);
    }
  }
}
