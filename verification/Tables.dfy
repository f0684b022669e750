/** Tables with a unique natural key.  The id of a row is its position. */
module Tables {
  import opened Common

  /** `kept` are the columns written only when the row is created, `value` the columns every
      upsert overwrites. */
  datatype Row<K, F, V> = Row(key: K, kept: F, value: V)

  type Table<K, F, V> = seq<Row<K, F, V>>

  datatype Write<K, V> = Write(key: K, value: V)

  function Find<K(==), F, V>(t: Table<K, F, V>, k: K): (r: Option<nat>)
    ensures r.Some? ==> r.value < |t| && t[r.value].key == k && forall i | 0 <= i < r.value :: t[i].key != k
    ensures r.None? ==> forall i | 0 <= i < |t| :: t[i].key != k
  {
    First(t, (row: Row<K, F, V>) => row.key == k)
  }

  /** Insert or overwrite. */
  function Put<K(==), F, V>(t: Table<K, F, V>, k: K, created: F, v: V): Table<K, F, V> {
    match Find(t, k)
    case Some(i) => t[i := t[i].(value := v)]
    case None => t + [Row(k, created, v)]
  }

  function Puts<K(==), F, V>(t: Table<K, F, V>, created: F, ws: seq<Write<K, V>>): Table<K, F, V> {
    if ws == [] then t
    else
      var last := ws[|ws| - 1];
      Put(Puts(t, created, ws[..|ws| - 1]), last.key, created, last.value)
  }

  ghost predicate Unique<K(!new), F(!new), V(!new)>(t: Table<K, F, V>) {
    forall i, j | 0 <= i < j < |t| :: t[i].key != t[j].key
  }

  /** `u` is `t` with values overwritten and rows appended: ids, keys and kept columns of old
      rows are as they were. */
  ghost predicate Grown<K(!new), F(!new), V(!new)>(t: Table<K, F, V>, u: Table<K, F, V>) {
    && |t| <= |u|
    && forall i | 0 <= i < |t| :: u[i].key == t[i].key && u[i].kept == t[i].kept
  }

  lemma PutFacts<K(!new), F(!new), V(!new)>(t: Table<K, F, V>, k: K, created: F, v: V)
    ensures var u := Put(t, k, created, v);
            && Grown(t, u)
            && (Unique(t) ==> Unique(u))
            && Find(u, k) == (if Find(t, k).Some? then Find(t, k) else Some(|t|))
            && u[Find(u, k).value].value == v
            && (forall i | 0 <= i < |t| && t[i].key != k :: u[i] == t[i])
            && |u| == |t| + (if Find(t, k).Some? then 0 else 1)
  {
    var u := Put(t, k, created, v);
    if Find(t, k).Some? {
      FindIsStable(t, u, k);
    } else {
      assert u[|t|].key == k;
      assert forall i | 0 <= i < |t| :: u[i] == t[i];
      match Find(u, k) case Some(i) => {} case None => {}
    }
  }

  /** A key once stored is found at the same place for ever. */
  lemma FindIsStable<K(!new), F(!new), V(!new)>(t: Table<K, F, V>, u: Table<K, F, V>, k: K)
    requires Grown(t, u) && Find(t, k).Some?
    ensures Find(u, k) == Find(t, k)
  {
  }

  lemma FindUnique<K(!new), F(!new), V(!new)>(t: Table<K, F, V>, i: nat)
    requires Unique(t) && i < |t|
    ensures Find(t, t[i].key) == Some(i)
  {
  }

  lemma {:induction false} PutsGrow<K(!new), F(!new), V(!new)>(t: Table<K, F, V>, created: F, ws: seq<Write<K, V>>)
    ensures Grown(t, Puts(t, created, ws))
    ensures Unique(t) ==> Unique(Puts(t, created, ws))
    ensures forall k :: Find(Puts(t, created, ws), k).Some? <==> Find(t, k).Some? || Writes(ws, k)
  {
    if ws != [] {
      var n := |ws| - 1;
      PutsGrow(t, created, ws[..n]);
      PutFacts(Puts(t, created, ws[..n]), ws[n].key, created, ws[n].value);
      forall k ensures Find(Puts(t, created, ws), k).Some? <==> Find(t, k).Some? || Writes(ws, k) {
        assert Writes(ws, k) <==> Writes(ws[..n], k) || ws[n].key == k;
      }
    }
  }

  ghost predicate Writes<K(!new), V(!new)>(ws: seq<Write<K, V>>, k: K) {
    exists j :: 0 <= j < |ws| && ws[j].key == k
  }

  /** The last value written to `k`, or else the one there was. */
  function LastValue<K(==), V>(ws: seq<Write<K, V>>, k: K, before: Option<V>): Option<V> {
    if ws == [] then before
    else if ws[|ws| - 1].key == k then Some(ws[|ws| - 1].value)
    else LastValue(ws[..|ws| - 1], k, before)
  }

  function ValueOf<K(==), F, V>(t: Table<K, F, V>, k: K): Option<V> {
    match Find(t, k)
    case None => None
    case Some(i) => Some(t[i].value)
  }

  /** Last write wins, key by key. */
  lemma {:induction false} PutsAreLastWrites<K(!new), F(!new), V(!new)>(t: Table<K, F, V>, created: F, ws: seq<Write<K, V>>, k: K)
    ensures ValueOf(Puts(t, created, ws), k) == LastValue(ws, k, ValueOf(t, k))
  {
    if ws != [] {
      var n := |ws| - 1;
      PutsAreLastWrites(t, created, ws[..n], k);
      var u := Puts(t, created, ws[..n]);
      PutFacts(u, ws[n].key, created, ws[n].value);
      if k != ws[n].key {
        OtherKeysKeepValue(u, ws[n].key, created, ws[n].value, k);
      }
    }
  }

  lemma OtherKeysKeepValue<K(!new), F(!new), V(!new)>(t: Table<K, F, V>, k: K, created: F, v: V, other: K)
    requires other != k
    ensures ValueOf(Put(t, k, created, v), other) == ValueOf(t, other)
  {
    PutFacts(t, k, created, v);
    if Find(t, other).Some? {
      FindIsStable(t, Put(t, k, created, v), other);
    }
  }

  lemma {:induction false} LastValueIgnoresBefore<K(!new), V(!new)>(ws: seq<Write<K, V>>, k: K, before: Option<V>)
    ensures LastValue(ws, k, LastValue(ws, k, before)) == LastValue(ws, k, before)
  {
    if Writes(ws, k) {
      WrittenValue(ws, k, before, LastValue(ws, k, before));
    } else {
      UnwrittenValue(ws, k, before);
      UnwrittenValue(ws, k, LastValue(ws, k, before));
    }
  }

  lemma {:induction false} WrittenValue<K(!new), V(!new)>(ws: seq<Write<K, V>>, k: K, before: Option<V>, before': Option<V>)
    requires Writes(ws, k)
    ensures LastValue(ws, k, before) == LastValue(ws, k, before')
  {
    if ws[|ws| - 1].key != k {
      WrittenValue(ws[..|ws| - 1], k, before, before');
    }
  }

  lemma {:induction false} UnwrittenValue<K(!new), V(!new)>(ws: seq<Write<K, V>>, k: K, before: Option<V>)
    requires !Writes(ws, k)
    ensures LastValue(ws, k, before) == before
  {
    if ws != [] {
      UnwrittenValue(ws[..|ws| - 1], k, before);
    }
  }

  /** Writing the same batch a second time changes nothing at all. */
  lemma PutsTwice<K(!new), F(!new), V(!new)>(t: Table<K, F, V>, created: F, ws: seq<Write<K, V>>)
    requires Unique(t)
    ensures Puts(Puts(t, created, ws), created, ws) == Puts(t, created, ws)
  {
    var u := Puts(t, created, ws);
    var v := Puts(u, created, ws);
    PutsGrow(t, created, ws);
    PutsGrow(u, created, ws);
    if |v| > |u| {
      FindUnique(v, |u|);
      assert Find(u, v[|u|].key).Some?;
      FindIsStable(u, v, v[|u|].key);
      assert false;
    }
    forall i | 0 <= i < |u| ensures v[i] == u[i] {
      var k := u[i].key;
      FindUnique(u, i);
      FindUnique(v, i);
      PutsAreLastWrites(t, created, ws, k);
      PutsAreLastWrites(u, created, ws, k);
      LastValueIgnoresBefore(ws, k, ValueOf(t, k));
    }
  }
}
