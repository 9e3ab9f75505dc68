/** The difference of two scope graphs, and its reading as a patch. */
module GraphDiff {
  import opened Options
  import opened Ordering
  import opened CodeMap

  datatype Changed = Changed(id: string, fields: seq<string>, before: CodeModule, after: CodeModule)

  datatype Diff = Diff(
    scope: string, fromVersion: nat, toVersion: nat,
    addedModules: seq<CodeModule>, removedModules: seq<CodeModule>, changedModules: seq<Changed>,
    addedEdges: seq<Edge>, removedEdges: seq<Edge>)

  /** Sorting fails when a missing `via` meets a text one between the same two modules. */
  datatype Outcome = Ok(diff: Diff) | TypeError

  /** Modules by id; a later module replaces an earlier one. */
  function ModuleMap(ms: seq<CodeModule>): map<string, CodeModule> {
    if ms == [] then map[] else ModuleMap(ms[..|ms| - 1])[ms[|ms| - 1].id := ms[|ms| - 1]]
  }

  lemma {:induction false} ModuleMapIds(ms: seq<CodeModule>)
    ensures forall id :: id in ModuleMap(ms) ==> ModuleMap(ms)[id].id == id
  {
    if ms != [] {
      ModuleMapIds(ms[..|ms| - 1]);
    }
  }

  /** An edge is its own key. */
  function EdgeSet(es: seq<Edge>): set<Edge> {
    set e | e in es
  }

  const FIELDS := ["name", "kind", "responsibility", "entry_points", "key_files"]

  predicate Differs(a: CodeModule, b: CodeModule, field: string) {
    if field == "name" then a.name != b.name
    else if field == "kind" then a.kind != b.kind
    else if field == "responsibility" then a.responsibility != b.responsibility
    else if field == "entry_points" then a.entryPoints != b.entryPoints
    else a.keyFiles != b.keyFiles
  }

  function FieldsChanged(a: CodeModule, b: CodeModule, n: nat): seq<string>
    requires n <= |FIELDS|
  {
    if n == 0 then []
    else
      var before := FieldsChanged(a, b, n - 1);
      if Differs(a, b, FIELDS[n - 1]) then before + [FIELDS[n - 1]] else before
  }

  predicate SameButPath(a: CodeModule, b: CodeModule) {
    a.(path := b.path) == b
  }

  predicate EdgeLe(x: Edge, y: Edge) {
    if x.source != y.source then StringLe(x.source, y.source)
    else if x.target != y.target then StringLe(x.target, y.target)
    else if x.via.None? then true
    else if y.via.None? then false
    else StringLe(x.via.value, y.via.value)
  }

  lemma EdgesTotal()
    ensures Total(EdgeLe)
  {
    StringsTotal();
    forall x, y ensures EdgeLe(x, y) || EdgeLe(y, x) {
      EdgeLeTotal(x, y);
    }
    forall x, y | EdgeLe(x, y) && EdgeLe(y, x) ensures x == y {
      EdgeLeTotal(x, y);
    }
    forall x, y, z | EdgeLe(x, y) && EdgeLe(y, z) ensures EdgeLe(x, z) {
      EdgeLeTrans(x, y, z);
    }
  }

  lemma EdgeLeTotal(x: Edge, y: Edge)
    ensures EdgeLe(x, y) || EdgeLe(y, x)
    ensures EdgeLe(x, y) && EdgeLe(y, x) ==> x == y
  {
    StringLeTotal(x.source, y.source);
    StringLeTotal(x.target, y.target);
    if x.via.Some? && y.via.Some? {
      StringLeTotal(x.via.value, y.via.value);
    }
  }

  lemma EdgeLeTrans(x: Edge, y: Edge, z: Edge)
    requires EdgeLe(x, y) && EdgeLe(y, z)
    ensures EdgeLe(x, z)
  {
    StringLeTotal(x.source, y.source);
    StringLeTotal(y.source, z.source);
    StringLeTotal(x.target, y.target);
    StringLeTotal(y.target, z.target);
    if x.source != y.source && y.source != z.source {
      StringLeTransitive(x.source, y.source, z.source);
      StringLeTotal(x.source, z.source);
    } else if x.source == y.source && y.source == z.source {
      if x.target != y.target && y.target != z.target {
        StringLeTransitive(x.target, y.target, z.target);
        StringLeTotal(x.target, z.target);
      } else if x.target == y.target && y.target == z.target {
        if x.via.Some? && y.via.Some? && z.via.Some? {
          StringLeTransitive(x.via.value, y.via.value, z.via.value);
        }
      }
    }
  }

  /** No two of the edges join the same modules, one with a `via` and one without. */
  predicate Comparable(es: set<Edge>) {
    forall x, y :: x in es && y in es && x.source == y.source && x.target == y.target ==>
      x.via.None? == y.via.None?
  }

  function SortedEdges(es: set<Edge>): (out: seq<Edge>)
    ensures Lists(out, es) && |out| == |es| && Ascending(out, EdgeLe)
  {
    EdgesTotal();
    Sorted(es, EdgeLe)
  }

  // ---- The specification -------------------------------------------------------------------------

  function Pick(m: map<string, CodeModule>, ids: seq<string>): (r: seq<CodeModule>)
    requires forall id :: id in ids ==> id in m
    ensures |r| == |ids| && forall i :: 0 <= i < |ids| ==> r[i] == m[ids[i]]
  {
    seq(|ids|, i requires 0 <= i < |ids| => m[ids[i]])
  }

  function ChangedOf(am: map<string, CodeModule>, bm: map<string, CodeModule>, ids: seq<string>): seq<Changed>
    requires forall id :: id in ids ==> id in am && id in bm
  {
    if ids == [] then []
    else
      var id := ids[|ids| - 1];
      var before := ChangedOf(am, bm, ids[..|ids| - 1]);
      var fields := FieldsChanged(am[id], bm[id], |FIELDS|);
      if fields == [] then before else before + [Changed(id, fields, am[id], bm[id])]
  }

  function DiffOf(a: ScopeGraph, b: ScopeGraph): Outcome {
    var am, bm := ModuleMap(a.modules), ModuleMap(b.modules);
    var ae, be := EdgeSet(a.edges), EdgeSet(b.edges);
    if !Comparable(be - ae) || !Comparable(ae - be) then TypeError
    else
      Ok(Diff(b.scope, a.version, b.version,
              Pick(bm, SortedStrings(bm.Keys - am.Keys)),
              Pick(am, SortedStrings(am.Keys - bm.Keys)),
              ChangedOf(am, bm, SortedStrings(am.Keys * bm.Keys)),
              SortedEdges(be - ae),
              SortedEdges(ae - be)))
  }

  // ---- The code ----------------------------------------------------------------------------------

  method ModuleFieldsChanged(a: CodeModule, b: CodeModule) returns (changed: seq<string>)
    ensures changed == FieldsChanged(a, b, |FIELDS|)
  {
    changed := [];
    for i := 0 to |FIELDS|
      invariant changed == FieldsChanged(a, b, i)
    {
      if Differs(a, b, FIELDS[i]) {
        changed := changed + [FIELDS[i]];
      }
    }
  }

  method CollectChanged(am: map<string, CodeModule>, bm: map<string, CodeModule>, ids: seq<string>)
    returns (changed: seq<Changed>)
    requires forall id :: id in ids ==> id in am && id in bm
    ensures changed == ChangedOf(am, bm, ids)
  {
    changed := [];
    for i := 0 to |ids|
      invariant changed == ChangedOf(am, bm, ids[..i])
    {
      assert ids[..i + 1][..i] == ids[..i];
      var fields := ModuleFieldsChanged(am[ids[i]], bm[ids[i]]);
      if fields != [] {
        changed := changed + [Changed(ids[i], fields, am[ids[i]], bm[ids[i]])];
      }
    }
    assert ids[..|ids|] == ids;
  }

  method DiffScopeGraphs(a: ScopeGraph, b: ScopeGraph) returns (r: Outcome)
    ensures r == DiffOf(a, b)
  {
    var am, bm := ModuleMap(a.modules), ModuleMap(b.modules);
    var added := Pick(bm, SortedStrings(bm.Keys - am.Keys));
    var removed := Pick(am, SortedStrings(am.Keys - bm.Keys));
    var changed := CollectChanged(am, bm, SortedStrings(am.Keys * bm.Keys));
    var ae, be := EdgeSet(a.edges), EdgeSet(b.edges);
    if !Comparable(be - ae) {
      return TypeError;
    }
    var addedEdges := SortedEdges(be - ae);
    if !Comparable(ae - be) {
      return TypeError;
    }
    var removedEdges := SortedEdges(ae - be);
    r := Ok(Diff(b.scope, a.version, b.version, added, removed, changed, addedEdges, removedEdges));
  }

  // ---- The diff as a patch -----------------------------------------------------------------------

  ghost function Ids(ms: seq<CodeModule>): set<string> {
    set m | m in ms :: m.id
  }

  ghost function ChangedMap(cs: seq<Changed>): map<string, CodeModule> {
    if cs == [] then map[]
    else ChangedMap(cs[..|cs| - 1])[cs[|cs| - 1].id := cs[|cs| - 1].after]
  }

  /** Drop the removed modules, add the added ones, replace the changed ones. */
  ghost function PatchModules(m: map<string, CodeModule>, d: Diff): map<string, CodeModule> {
    (m - Ids(d.removedModules)) + ModuleMap(d.addedModules) + ChangedMap(d.changedModules)
  }

  ghost function PatchEdges(es: set<Edge>, d: Diff): set<Edge> {
    es - EdgeSet(d.removedEdges) + EdgeSet(d.addedEdges)
  }

  lemma FieldsChangedEmptyExactly(a: CodeModule, b: CodeModule)
    requires a.id == b.id
    ensures FieldsChanged(a, b, |FIELDS|) == [] <==> SameButPath(a, b)
  {
    FieldsChangedMembers(a, b, |FIELDS|);
    assert FIELDS[..|FIELDS|] == FIELDS;
    assert FIELDS[0] == "name" && FIELDS[1] == "kind" && FIELDS[2] == "responsibility";
    assert FIELDS[3] == "entry_points" && FIELDS[4] == "key_files";
    var changed := FieldsChanged(a, b, |FIELDS|);
    if changed != [] {
      assert changed[0] in changed;
    } else {
      assert !Differs(a, b, FIELDS[0]) && !Differs(a, b, FIELDS[1]) && !Differs(a, b, FIELDS[2]);
      assert !Differs(a, b, FIELDS[3]) && !Differs(a, b, FIELDS[4]);
    }
  }

  /** The list names exactly the compared fields that differ, and reads the same both ways. */
  lemma {:induction false} FieldsChangedMembers(a: CodeModule, b: CodeModule, n: nat)
    requires n <= |FIELDS|
    ensures forall f :: f in FieldsChanged(a, b, n) <==> f in FIELDS[..n] && Differs(a, b, f)
    ensures FieldsChanged(a, b, n) == FieldsChanged(b, a, n)
  {
    if n > 0 {
      FieldsChangedMembers(a, b, n - 1);
      assert FIELDS[..n] == FIELDS[..n - 1] + [FIELDS[n - 1]];
    }
  }

  lemma {:induction false} PickMap(m: map<string, CodeModule>, ids: seq<string>)
    requires forall id :: id in ids ==> id in m
    requires forall id :: id in m ==> m[id].id == id
    ensures forall id :: id in ModuleMap(Pick(m, ids)) <==> id in ids
    ensures forall id :: id in ids ==> ModuleMap(Pick(m, ids))[id] == m[id]
  {
    if ids == [] {
      assert Pick(m, ids) == [];
    } else {
      var init, last := ids[..|ids| - 1], ids[|ids| - 1];
      PickMap(m, init);
      assert ids == init + [last];
      assert Pick(m, ids)[..|ids| - 1] == Pick(m, init);
      assert ModuleMap(Pick(m, ids)) == ModuleMap(Pick(m, init))[last := m[last]];
    }
  }

  lemma PickIds(m: map<string, CodeModule>, ids: seq<string>)
    requires forall id :: id in ids ==> id in m
    requires forall id :: id in m ==> m[id].id == id
    ensures forall id :: id in Ids(Pick(m, ids)) <==> id in ids
  {
    forall id | id in ids ensures id in Ids(Pick(m, ids)) {
      var i :| 0 <= i < |ids| && ids[i] == id;
      assert Pick(m, ids)[i] in Pick(m, ids);
    }
  }

  lemma {:induction false} ChangedMapOf(am: map<string, CodeModule>, bm: map<string, CodeModule>, ids: seq<string>)
    requires forall id :: id in ids ==> id in am && id in bm && am[id].id == bm[id].id == id
    ensures var cm := ChangedMap(ChangedOf(am, bm, ids));
            && (forall id :: id in cm <==> id in ids && !SameButPath(am[id], bm[id]))
            && (forall id :: id in cm ==> cm[id] == bm[id])
  {
    if ids != [] {
      var init, last := ids[..|ids| - 1], ids[|ids| - 1];
      ChangedMapOf(am, bm, init);
      assert ids == init + [last];
      FieldsChangedEmptyExactly(am[last], bm[last]);
      var cs := ChangedOf(am, bm, ids);
      if FieldsChanged(am[last], bm[last], |FIELDS|) != [] {
        assert cs[..|cs| - 1] == ChangedOf(am, bm, init);
      }
    }
  }

  ghost predicate SameModules(m: map<string, CodeModule>, n: map<string, CodeModule>) {
    m.Keys == n.Keys && forall id :: id in m ==> SameButPath(m[id], n[id])
  }

  /** Applying the diff of two graphs to the first gives the second, up to uncompared paths. */
  lemma PatchLaw(a: ScopeGraph, b: ScopeGraph)
    requires DiffOf(a, b).Ok?
    ensures var d := DiffOf(a, b).diff;
            && SameModules(PatchModules(ModuleMap(a.modules), d), ModuleMap(b.modules))
            && PatchEdges(EdgeSet(a.edges), d) == EdgeSet(b.edges)
  {
    var am, bm := ModuleMap(a.modules), ModuleMap(b.modules);
    ModuleMapIds(a.modules);
    ModuleMapIds(b.modules);
    var added, gone := SortedStrings(bm.Keys - am.Keys), SortedStrings(am.Keys - bm.Keys);
    var common := SortedStrings(am.Keys * bm.Keys);
    ModulesPatched(am, bm, added, gone, common);
    EdgesPatched(a, b);
  }

  /** The patched map, from its three parts. */
  lemma PatchedParts(
    am: map<string, CodeModule>, bm: map<string, CodeModule>,
    gone: set<string>, added: map<string, CodeModule>, changed: map<string, CodeModule>)
    requires gone == am.Keys - bm.Keys && added.Keys == bm.Keys - am.Keys
    requires forall id :: id in added ==> added[id] == bm[id]
    requires forall id :: id in changed ==> id in am && id in bm && changed[id] == bm[id]
    requires forall id :: id in am && id in bm && id !in changed ==> SameButPath(am[id], bm[id])
    ensures SameModules((am - gone) + added + changed, bm)
  {
  }

  lemma EdgesPatched(a: ScopeGraph, b: ScopeGraph)
    requires DiffOf(a, b).Ok?
    ensures PatchEdges(EdgeSet(a.edges), DiffOf(a, b).diff) == EdgeSet(b.edges)
  {
    var ae, be := EdgeSet(a.edges), EdgeSet(b.edges);
    EdgeSetOfList(SortedEdges(be - ae), be - ae);
    EdgeSetOfList(SortedEdges(ae - be), ae - be);
  }

  lemma EdgeSetOfList(es: seq<Edge>, s: set<Edge>)
    requires Lists(es, s)
    ensures EdgeSet(es) == s
  {
  }

  lemma ModulesPatched(
    am: map<string, CodeModule>, bm: map<string, CodeModule>,
    added: seq<string>, gone: seq<string>, common: seq<string>)
    requires forall id :: id in am ==> am[id].id == id
    requires forall id :: id in bm ==> bm[id].id == id
    requires Lists(added, bm.Keys - am.Keys) && Lists(gone, am.Keys - bm.Keys)
    requires Lists(common, am.Keys * bm.Keys)
    ensures SameModules((am - Ids(Pick(am, gone))) + ModuleMap(Pick(bm, added))
                        + ChangedMap(ChangedOf(am, bm, common)), bm)
  {
    PickMap(bm, added);
    PickIds(am, gone);
    ChangedMapOf(am, bm, common);
    assert Ids(Pick(am, gone)) == am.Keys - bm.Keys;
    assert ModuleMap(Pick(bm, added)).Keys == bm.Keys - am.Keys;
    PatchedParts(am, bm, Ids(Pick(am, gone)), ModuleMap(Pick(bm, added)),
                 ChangedMap(ChangedOf(am, bm, common)));
  }

  // ---- Self and reverse --------------------------------------------------------------------------

  ghost predicate Empty(d: Diff) {
    && d.addedModules == [] && d.removedModules == [] && d.changedModules == []
    && d.addedEdges == [] && d.removedEdges == []
  }

  /** The diff is empty exactly for graphs with the same edges and, but for paths, the same modules. */
  lemma EmptyExactly(a: ScopeGraph, b: ScopeGraph)
    ensures (DiffOf(a, b).Ok? && Empty(DiffOf(a, b).diff))
       <==> SameModules(ModuleMap(a.modules), ModuleMap(b.modules)) && EdgeSet(a.edges) == EdgeSet(b.edges)
  {
    if DiffOf(a, b).Ok? && Empty(DiffOf(a, b).diff) {
      PatchLaw(a, b);
      EmptyPatch(ModuleMap(a.modules), EdgeSet(a.edges), DiffOf(a, b).diff);
    }
    if SameModules(ModuleMap(a.modules), ModuleMap(b.modules)) && EdgeSet(a.edges) == EdgeSet(b.edges) {
      SameIsEmpty(a, b);
    }
  }

  lemma EmptyPatch(m: map<string, CodeModule>, es: set<Edge>, d: Diff)
    requires Empty(d)
    ensures PatchModules(m, d) == m && PatchEdges(es, d) == es
  {
  }

  lemma SameIsEmpty(a: ScopeGraph, b: ScopeGraph)
    requires SameModules(ModuleMap(a.modules), ModuleMap(b.modules))
    requires EdgeSet(a.edges) == EdgeSet(b.edges)
    ensures DiffOf(a, b).Ok? && Empty(DiffOf(a, b).diff)
  {
    var am, bm := ModuleMap(a.modules), ModuleMap(b.modules);
    ModuleMapIds(a.modules);
    ModuleMapIds(b.modules);
    assert bm.Keys - am.Keys == {} && am.Keys - bm.Keys == {};
    assert EdgeSet(b.edges) - EdgeSet(a.edges) == {};
    assert EdgeSet(a.edges) - EdgeSet(b.edges) == {};
    NothingChanged(am, bm, SortedStrings(am.Keys * bm.Keys));
  }

  lemma {:induction false} NothingChanged(am: map<string, CodeModule>, bm: map<string, CodeModule>, ids: seq<string>)
    requires forall id :: id in ids ==> id in am && id in bm && am[id].id == bm[id].id
    requires forall id :: id in ids ==> SameButPath(am[id], bm[id])
    ensures ChangedOf(am, bm, ids) == []
  {
    if ids != [] {
      NothingChanged(am, bm, ids[..|ids| - 1]);
      FieldsChangedEmptyExactly(am[ids[|ids| - 1]], bm[ids[|ids| - 1]]);
    }
  }

  ghost function Turned(cs: seq<Changed>): seq<Changed> {
    if cs == [] then []
    else
      var c := cs[|cs| - 1];
      Turned(cs[..|cs| - 1]) + [Changed(c.id, c.fields, c.after, c.before)]
  }

  lemma {:induction false} ChangedTurned(am: map<string, CodeModule>, bm: map<string, CodeModule>, ids: seq<string>)
    requires forall id :: id in ids ==> id in am && id in bm
    ensures ChangedOf(bm, am, ids) == Turned(ChangedOf(am, bm, ids))
  {
    if ids != [] {
      var init, last := ids[..|ids| - 1], ids[|ids| - 1];
      ChangedTurned(am, bm, init);
      FieldsChangedMembers(am[last], bm[last], |FIELDS|);
      var cs := ChangedOf(am, bm, ids);
      if FieldsChanged(am[last], bm[last], |FIELDS|) != [] {
        assert cs[..|cs| - 1] == ChangedOf(am, bm, init);
      }
    }
  }

  /** The other way round, added and removed change places, and so do before and after. */
  lemma ReverseLaw(a: ScopeGraph, b: ScopeGraph)
    ensures DiffOf(a, b).Ok? <==> DiffOf(b, a).Ok?
    ensures DiffOf(a, b).Ok? ==>
              var d, r := DiffOf(a, b).diff, DiffOf(b, a).diff;
              r == Diff(a.scope, d.toVersion, d.fromVersion, d.removedModules, d.addedModules,
                        Turned(d.changedModules), d.removedEdges, d.addedEdges)
  {
    var am, bm := ModuleMap(a.modules), ModuleMap(b.modules);
    assert am.Keys * bm.Keys == bm.Keys * am.Keys;
    ChangedTurned(am, bm, SortedStrings(am.Keys * bm.Keys));
  }
}
