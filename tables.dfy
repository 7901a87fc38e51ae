/** Python's insertion-ordered `dict` with integer keys, as used by the
    score tables of semantic and hybrid search. */
module Tables {
  import opened Sequences

  /** The keys in insertion order, and what each key holds. */
  datatype Table<V> = Table(order: seq<int>, entries: map<int, V>)

  /** `{}`. */
  function Empty<V>(): (r: Table<V>)
    ensures ValidTable(r)
  {
    Table([], map[])
  }

  /** Each key is listed once, and the listed keys are exactly the stored ones. */
  ghost predicate ValidTable<V>(t: Table<V>)
  {
    Distinct(t.order) && (forall k :: k in t.entries <==> k in t.order)
  }

  /** `d[k] = v`: a new key goes to the end, a present key keeps its place. */
  function Put<V>(t: Table<V>, k: int, v: V): (r: Table<V>)
    requires ValidTable(t)
    ensures ValidTable(r)
    ensures r.entries == t.entries[k := v]
    ensures r.order == AppendNew(t.order, [k])
  {
    assert [k][..0] == [];
    if k in t.entries then Table(t.order, t.entries[k := v]) else Table(t.order + [k], t.entries[k := v])
  }

  /** `d.items()`: each key with its value, in insertion order. */
  function Items<V>(t: Table<V>): (r: seq<(int, V)>)
    requires ValidTable(t)
    ensures |r| == |t.order|
    ensures forall i :: 0 <= i < |r| ==> r[i].0 == t.order[i] && r[i].1 == t.entries[t.order[i]]
  {
    seq(|t.order|, i requires 0 <= i < |t.order| => var k := t.order[i]; assert k in t.order; (k, t.entries[k]))
  }
}
