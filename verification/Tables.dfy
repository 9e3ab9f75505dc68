/** Tables keyed by an external id, with internal ids given out on insert: upsert and its laws. */
module Tables {
  import opened Options

  datatype Row<C> = Row(id: nat, content: C)

  datatype Table<K, C> = Table(rows: map<K, Row<C>>, nextId: nat)

  /** Update the row of `k` if there is one, insert it under a fresh internal id otherwise. */
  function Put<K, C>(t: Table<K, C>, k: K, c: C): Table<K, C> {
    if k in t.rows then Table(t.rows[k := Row(t.rows[k].id, c)], t.nextId)
    else Table(t.rows[k := Row(t.nextId, c)], t.nextId + 1)
  }

  function PutAll<K, C>(t: Table<K, C>, ws: seq<(K, C)>): Table<K, C> {
    if ws == [] then t
    else
      var w := ws[|ws| - 1];
      Put(PutAll(t, ws[..|ws| - 1]), w.0, w.1)
  }

  /** The last content written to `k`. */
  function LastWrite<K(==), C>(ws: seq<(K, C)>, k: K): Option<C> {
    if ws == [] then None
    else if ws[|ws| - 1].0 == k then Some(ws[|ws| - 1].1)
    else LastWrite(ws[..|ws| - 1], k)
  }

  /** Distinct rows have distinct internal ids, all given out already. */
  ghost predicate IdsOk<K(!new), C(!new)>(t: Table<K, C>) {
    && (forall k :: k in t.rows ==> t.rows[k].id < t.nextId)
    && (forall k, l :: k in t.rows && l in t.rows && t.rows[k].id == t.rows[l].id ==> k == l)
  }

  /** `t'` has every row of `t`, under the same internal id. */
  ghost predicate KeepsIds<K(!new), C(!new)>(t: Table<K, C>, t': Table<K, C>) {
    && t.nextId <= t'.nextId
    && forall k :: k in t.rows ==> k in t'.rows && t'.rows[k].id == t.rows[k].id
  }

  lemma {:induction false} PutAllKeepsIds<K(!new), C(!new)>(t: Table<K, C>, ws: seq<(K, C)>)
    requires IdsOk(t)
    ensures IdsOk(PutAll(t, ws)) && KeepsIds(t, PutAll(t, ws))
  {
    if ws != [] {
      PutAllKeepsIds(t, ws[..|ws| - 1]);
    }
  }

  /** A loop of upserts is last-writer-wins: the meaning of every row, written or not. */
  lemma {:induction false} PutAllMeaning<K(!new), C(!new)>(t: Table<K, C>, ws: seq<(K, C)>, k: K)
    ensures var t' := PutAll(t, ws);
            && (k in t'.rows <==> k in t.rows || LastWrite(ws, k).Some?)
            && (LastWrite(ws, k).Some? ==> t'.rows[k].content == LastWrite(ws, k).value)
            && (LastWrite(ws, k).None? && k in t.rows ==> t'.rows[k] == t.rows[k])
            && (k in t.rows ==> t'.rows[k].id == t.rows[k].id)
  {
    if ws != [] {
      PutAllMeaning(t, ws[..|ws| - 1], k);
    }
  }

  lemma {:induction false} LastWriteMember<K(!new), C(!new)>(ws: seq<(K, C)>, w: (K, C))
    requires w in ws
    ensures LastWrite(ws, w.0).Some?
  {
    if ws[|ws| - 1].0 != w.0 {
      LastWriteMember(ws[..|ws| - 1], w);
    }
  }

  lemma {:induction false} KnownKeysTakeNoIds<K(!new), C(!new)>(t: Table<K, C>, ws: seq<(K, C)>)
    requires forall w :: w in ws ==> w.0 in t.rows
    ensures PutAll(t, ws).nextId == t.nextId && PutAll(t, ws).rows.Keys == t.rows.Keys
  {
    if ws != [] {
      KnownKeysTakeNoIds(t, ws[..|ws| - 1]);
    }
  }

  /** Replaying a batch on any table that already shows its last writes changes nothing. */
  lemma ReplayChangesNothing<K(!new), C(!new)>(t: Table<K, C>, ws: seq<(K, C)>)
    requires forall k :: LastWrite(ws, k).Some? ==>
               k in t.rows && t.rows[k].content == LastWrite(ws, k).value
    ensures PutAll(t, ws) == t
  {
    forall w | w in ws ensures w.0 in t.rows {
      LastWriteMember(ws, w);
    }
    KnownKeysTakeNoIds(t, ws);
    forall k | k in t.rows ensures PutAll(t, ws).rows[k] == t.rows[k] {
      PutAllMeaning(t, ws, k);
    }
    assert PutAll(t, ws).rows == t.rows;
  }

  lemma PutAllIdempotent<K(!new), C(!new)>(t: Table<K, C>, ws: seq<(K, C)>)
    ensures PutAll(PutAll(t, ws), ws) == PutAll(t, ws)
  {
    forall k | LastWrite(ws, k).Some?
      ensures k in PutAll(t, ws).rows && PutAll(t, ws).rows[k].content == LastWrite(ws, k).value
    {
      PutAllMeaning(t, ws, k);
    }
    ReplayChangesNothing(PutAll(t, ws), ws);
  }
}
