/** A JavaScript object used as a dictionary (`Record<string, V>`): string keys
    in insertion order, each with one value. Assigning `acc[k] = v` replaces the
    value of an existing key where it stands and appends a new key at the end,
    so `Object.values` lists values in first-insertion order of their keys. */
module Records {
  import opened Common

  datatype Entry<V> = Entry(key: string, value: V)

  type Record<V> = seq<Entry<V>>

  /** `obj[k]`: the value stored under `k`, or `undefined`. */
  function Get<V>(r: Record<V>, k: string): (v: Option<V>)
    ensures v.None? <==> forall i :: 0 <= i < |r| ==> r[i].key != k
    ensures v.Some? ==> exists i :: 0 <= i < |r| && r[i] == Entry(k, v.value)
  {
    if r == [] then None
    else if r[0].key == k then Some(r[0].value)
    else Get(r[1..], k)
  }

  /** `obj[k] = v`. */
  function Set<V>(r: Record<V>, k: string, v: V): Record<V> {
    if r == [] then [Entry(k, v)]
    else if r[0].key == k then [Entry(k, v)] + r[1..]
    else [r[0]] + Set(r[1..], k, v)
  }

  /** `Object.values(obj)`. */
  function Values<V>(r: Record<V>): (vs: seq<V>)
    ensures |vs| == |r|
  {
    if r == [] then [] else [r[0].value] + Values(r[1..])
  }

  predicate DistinctKeys<V>(r: Record<V>) {
    forall i, j :: 0 <= i < j < |r| ==> r[i].key != r[j].key
  }

  /** Reading back after an assignment sees the assigned value under its key
      and leaves every other key as it was. */
  lemma {:induction false} GetSet<V>(r: Record<V>, k: string, v: V, k': string)
    ensures Get(Set(r, k, v), k') == if k' == k then Some(v) else Get(r, k')
  {
    if r != [] && r[0].key != k {
      GetSet(r[1..], k, v, k');
      assert Set(r, k, v)[1..] == Set(r[1..], k, v);
    }
  }

  /** An assignment replaces the value of a present key in place and appends
      a new key at the end; no key is ever duplicated. */
  lemma {:induction false} SetShape<V>(r: Record<V>, k: string, v: V)
    requires DistinctKeys(r)
    ensures DistinctKeys(Set(r, k, v))
    ensures Get(r, k).None? ==> Set(r, k, v) == r + [Entry(k, v)]
    ensures Get(r, k).Some? ==> |Set(r, k, v)| == |r|
    ensures Get(r, k).Some? ==> forall i :: 0 <= i < |r| ==> Set(r, k, v)[i].key == r[i].key
  {
    if r != [] && r[0].key != k {
      SetShape(r[1..], k, v);
      var s := Set(r, k, v);
      assert s == [r[0]] + Set(r[1..], k, v);
      forall i, j | 0 <= i < j < |s| ensures s[i].key != s[j].key {
        if i == 0 {
          GetSet(r[1..], k, v, r[0].key);
          assert Get(Set(r[1..], k, v), r[0].key).None?;
          assert s[j] == Set(r[1..], k, v)[j - 1];
        }
      }
    }
  }

  lemma {:induction false} ValuesAppend<V>(r: Record<V>, e: Entry<V>)
    ensures Values(r + [e]) == Values(r) + [e.value]
  {
    if r != [] {
      assert (r + [e])[1..] == r[1..] + [e];
      ValuesAppend(r[1..], e);
    }
  }
}
