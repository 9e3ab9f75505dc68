/** What a diff lists, told from the modules' and edges' own fields. */
module GraphDiffFacts {
  import opened Options
  import opened Ordering
  import opened CodeMap
  import opened GraphDiff

  /** Each name on the list stands for its own field. */
  lemma FieldNames(a: CodeModule, b: CodeModule)
    ensures var fs := FieldsChanged(a, b, |FIELDS|);
            && ("name" in fs <==> a.name != b.name) && ("kind" in fs <==> a.kind != b.kind)
            && ("responsibility" in fs <==> a.responsibility != b.responsibility)
            && ("entry_points" in fs <==> a.entryPoints != b.entryPoints)
            && ("key_files" in fs <==> a.keyFiles != b.keyFiles)
            && forall f :: f in fs ==> f in ["name", "kind", "responsibility", "entry_points", "key_files"]
  {
    FieldsChangedMembers(a, b, |FIELDS|);
    assert FIELDS[..|FIELDS|] == FIELDS;
    assert FIELDS[0] == "name" && FIELDS[1] == "kind" && FIELDS[2] == "responsibility";
    assert FIELDS[3] == "entry_points" && FIELDS[4] == "key_files";
  }

  /** Of several modules with one id the last counts. */
  lemma {:induction false} LastModule(ms: seq<CodeModule>, id: string) returns (i: int)
    ensures i < |ms|
    ensures i < 0 ==> id !in ModuleMap(ms) && forall j :: 0 <= j < |ms| ==> ms[j].id != id
    ensures i >= 0 ==>
              && id in ModuleMap(ms) && ModuleMap(ms)[id] == ms[i] && ms[i].id == id
              && forall j :: i < j < |ms| ==> ms[j].id != id
  {
    if ms == [] {
      return -1;
    }
    var n := |ms| - 1;
    if ms[n].id == id {
      return n;
    }
    i := LastModule(ms[..n], id);
    assert forall j :: 0 <= j < n ==> ms[..n][j] == ms[j];
  }

  /** Both module lists are in order of their ids. */
  lemma ModulesInOrder(a: ScopeGraph, b: ScopeGraph)
    requires DiffOf(a, b).Ok?
    ensures IdsAscend(DiffOf(a, b).diff.addedModules) && IdsAscend(DiffOf(a, b).diff.removedModules)
  {
    var am, bm := ModuleMap(a.modules), ModuleMap(b.modules);
    ModuleMapIds(a.modules);
    ModuleMapIds(b.modules);
    PickInOrder(bm, SortedStrings(bm.Keys - am.Keys));
    PickInOrder(am, SortedStrings(am.Keys - bm.Keys));
  }

  predicate IdsAscend(ms: seq<CodeModule>) {
    forall i, j :: 0 <= i < j < |ms| ==> StringLe(ms[i].id, ms[j].id) && ms[i].id != ms[j].id
  }

  lemma PickInOrder(m: map<string, CodeModule>, ids: seq<string>)
    requires forall id :: id in ids ==> id in m
    requires (forall id :: id in m ==> m[id].id == id) && Ascending(ids, StringLe)
    ensures IdsAscend(Pick(m, ids))
  {
    assert forall i :: 0 <= i < |ids| ==> ids[i] in ids && Pick(m, ids)[i].id == ids[i];
  }

  /** The diff is of `b` against `a`: its scope is b's, it leads from a's version to b's. */
  lemma HeadOfDiff(a: ScopeGraph, b: ScopeGraph)
    requires DiffOf(a, b).Ok?
    ensures var d := DiffOf(a, b).diff; d.scope == b.scope && d.fromVersion == a.version && d.toVersion == b.version
  {
  }

  /** Two edges that differ in having a `via` at all cannot be put in order. */
  predicate Incomparable(x: Edge, y: Edge) {
    x.source == y.source && x.target == y.target && x.via.None? && y.via.Some?
  }

  /** The diff fails if and only if two such edges are among the added or among the removed ones. */
  lemma FailsExactly(a: ScopeGraph, b: ScopeGraph)
    ensures DiffOf(a, b) == TypeError
       <==> || (exists x, y :: x in b.edges && y in b.edges && x !in a.edges && y !in a.edges && Incomparable(x, y))
            || (exists x, y :: x in a.edges && y in a.edges && x !in b.edges && y !in b.edges && Incomparable(x, y))
  {
    var ae, be := EdgeSet(a.edges), EdgeSet(b.edges);
    assert forall x :: (x in be - ae <==> x in b.edges && x !in a.edges) && (x in ae - be <==> x in a.edges && x !in b.edges);
    ComparableExactly(be - ae);
    ComparableExactly(ae - be);
  }

  lemma ComparableExactly(es: set<Edge>)
    ensures !Comparable(es) <==> exists x, y :: x in es && y in es && Incomparable(x, y)
  {
    if !Comparable(es) {
      var x, y :| x in es && y in es && x.source == y.source && x.target == y.target && x.via.None? != y.via.None?;
      assert Incomparable(x, y) || Incomparable(y, x);
    }
  }

  /** The edge lists: exactly the edges of one graph only, in ascending order. */
  lemma EdgesListed(a: ScopeGraph, b: ScopeGraph, e: Edge)
    requires DiffOf(a, b).Ok?
    ensures var d := DiffOf(a, b).diff;
            && (e in d.addedEdges <==> e in b.edges && e !in a.edges)
            && (e in d.removedEdges <==> e in a.edges && e !in b.edges)
            && Ascending(d.addedEdges, EdgeLe) && Ascending(d.removedEdges, EdgeLe)
  {
  }

  lemma PickMembers(m: map<string, CodeModule>, ids: seq<string>, x: CodeModule)
    requires forall id :: id in ids ==> id in m
    ensures x in Pick(m, ids) <==> exists id :: id in ids && m[id] == x
  {
    var r := Pick(m, ids);
    if id :| id in ids && m[id] == x {
      var i :| 0 <= i < |ids| && ids[i] == id;
      assert r[i] == x;
    }
  }

  /** The module lists: exactly the modules whose id the other graph does not have. */
  lemma ModulesListed(a: ScopeGraph, b: ScopeGraph, x: CodeModule)
    requires DiffOf(a, b).Ok?
    ensures var d := DiffOf(a, b).diff;
            var am, bm := ModuleMap(a.modules), ModuleMap(b.modules);
            && (x in d.addedModules <==> x.id in bm && bm[x.id] == x && x.id !in am)
            && (x in d.removedModules <==> x.id in am && am[x.id] == x && x.id !in bm)
  {
    var am, bm := ModuleMap(a.modules), ModuleMap(b.modules);
    ModuleMapIds(a.modules);
    ModuleMapIds(b.modules);
    PickMembers(bm, SortedStrings(bm.Keys - am.Keys), x);
    PickMembers(am, SortedStrings(am.Keys - bm.Keys), x);
  }

  lemma {:induction false} ChangedMembers(am: map<string, CodeModule>, bm: map<string, CodeModule>, ids: seq<string>, c: Changed)
    requires forall id :: id in ids ==> id in am && id in bm
    ensures c in ChangedOf(am, bm, ids)
       <==> && c.id in ids && c.before == am[c.id] && c.after == bm[c.id]
            && c.fields == FieldsChanged(am[c.id], bm[c.id], |FIELDS|) && c.fields != []
  {
    if ids != [] {
      var init, last := ids[..|ids| - 1], ids[|ids| - 1];
      ChangedMembers(am, bm, init, c);
      assert forall id :: id in ids <==> id in init || id == last;
    }
  }

  /** The changed list: exactly the common modules with a changed field, the old before the new. */
  lemma ChangedListed(a: ScopeGraph, b: ScopeGraph, c: Changed)
    requires DiffOf(a, b).Ok?
    ensures var d := DiffOf(a, b).diff;
            var am, bm := ModuleMap(a.modules), ModuleMap(b.modules);
            c in d.changedModules
            <==> && c.id in am && c.id in bm && c.before == am[c.id] && c.after == bm[c.id]
                 && c.fields == FieldsChanged(c.before, c.after, |FIELDS|) && c.fields != []
  {
    var am, bm := ModuleMap(a.modules), ModuleMap(b.modules);
    ChangedMembers(am, bm, SortedStrings(am.Keys * bm.Keys), c);
  }

  /** Edges are ordered by source, then target, then `via`. */
  lemma EdgeOrder(x: Edge, y: Edge)
    requires EdgeLe(x, y) && x != y
    ensures StringLe(x.source, y.source)
    ensures x.source == y.source ==> StringLe(x.target, y.target)
    ensures x.source == y.source && x.target == y.target && x.via.Some? ==>
              y.via.Some? && StringLe(x.via.value, y.via.value)
  {
    StringLeTotal(x.source, y.source);
    StringLeTotal(x.target, y.target);
  }
}
