/** Python dicts as they are used by the modelled code.

    A dict literal or comprehension is built by inserting its items in order;
    a later item with an existing key overwrites the earlier value.  The dicts
    that the source inverts (`vocab2idx`, `tripl2idx`, `word2idx`) are given
    here as the sequence of their items in insertion order, so that the
    inversion `{v: k for k, v in d.items()}` can be modelled exactly, including
    which key wins when two keys share a value. */
module Dicts {
  import opened Wrappers

  /** The items of a dict, in insertion order. */
  type Items<K, V> = seq<(K, V)>

  /** A real dict never holds the same key twice. */
  predicate DistinctKeys<K(==), V>(items: Items<K, V>) {
    forall i, j :: 0 <= i < j < |items| ==> items[i].0 != items[j].0
  }

  /** No two keys share a value: the dict is injective. */
  predicate DistinctValues<K, V(==)>(items: Items<K, V>) {
    forall i, j :: 0 <= i < j < |items| ==> items[i].1 != items[j].1
  }

  function Keys<K, V>(items: Items<K, V>): set<K> {
    set i | 0 <= i < |items| :: items[i].0
  }

  function Values<K, V>(items: Items<K, V>): set<V> {
    set i | 0 <= i < |items| :: items[i].1
  }

  lemma KeysAppend<K, V>(a: Items<K, V>, b: Items<K, V>)
    ensures Keys(a + b) == Keys(a) + Keys(b)
  {
    forall x | x in Keys(a + b) ensures x in Keys(a) + Keys(b) {
      var j :| 0 <= j < |a + b| && (a + b)[j].0 == x;
      if j >= |a| {
        assert b[j - |a|].0 == x;
      }
    }
    forall x | x in Keys(a) + Keys(b) ensures x in Keys(a + b) {
      if x in Keys(a) {
        var j :| 0 <= j < |a| && a[j].0 == x;
        assert (a + b)[j].0 == x;
      } else {
        var j :| 0 <= j < |b| && b[j].0 == x;
        assert (a + b)[|a| + j].0 == x;
      }
    }
  }

  /** The dict as a finite map; it is empty exactly when nothing was
      assigned. */
  function ToMap<K, V>(items: Items<K, V>): (m: map<K, V>)
    ensures items == [] <==> m == map[]
  {
    if items == [] then map[]
    else
      var last := items[|items| - 1];
      var m := ToMap(items[..|items| - 1])[last.0 := last.1];
      assert last.0 in m;
      m
  }

  /** The dict holds exactly the keys of its items. */
  lemma {:induction false} ToMapKeys<K, V>(items: Items<K, V>)
    ensures ToMap(items).Keys == Keys(items)
  {
    if items != [] {
      var n := |items| - 1;
      ToMapKeys(items[..n]);
      assert Keys(items) == Keys(items[..n]) + {items[n].0} by {
        assert forall i :: 0 <= i < n ==> items[..n][i] == items[i];
      }
    }
  }


  /** `{v: k for k, v in d.items()}`: every value becomes a key; when several
      items share a value, the last of them in insertion order wins. */
  function Invert<K, V>(items: Items<K, V>): (inv: map<V, K>)
    ensures inv.Keys == Values(items)
  {
    if items == [] then map[]
    else
      var last := items[|items| - 1];
      assert Values(items) == Values(items[..|items| - 1]) + {last.1};
      Invert(items[..|items| - 1])[last.1 := last.0]
  }

  /** `[d[k] for k in ks]`: element-wise lookup, failing with KeyError as soon
      as one key is missing. */
  function LookupAll<K, V>(d: map<K, V>, ks: seq<K>): (r: Result<seq<V>>)
    ensures r.Ok? <==> forall i :: 0 <= i < |ks| ==> ks[i] in d
    ensures r.Err? ==> r.error == KeyError
    ensures r.Ok? ==> |r.value| == |ks| && forall i :: 0 <= i < |ks| ==> r.value[i] == d[ks[i]]
  {
    if ks == [] then Ok([])
    else if ks[0] !in d then Err(KeyError)
    else
      match LookupAll(d, ks[1..])
      case Ok(rest) => Ok([d[ks[0]]] + rest)
      case Err(e) => Err(e)
  }

  /** Looking up the key of an item gives that item's value. */
  lemma {:induction false} ToMapAt<K, V>(items: Items<K, V>, i: nat)
    requires DistinctKeys(items)
    requires i < |items|
    ensures items[i].0 in ToMap(items) && ToMap(items)[items[i].0] == items[i].1
  {
    var n := |items| - 1;
    if i < n {
      ToMapAt(items[..n], i);
    }
  }

  /** Building a dict from items that may repeat a key: a key maps to the
      value of the LAST item holding it. */
  lemma {:induction false} ToMapLastWins<K, V>(items: Items<K, V>, j: nat)
    requires j < |items|
    requires forall l :: j < l < |items| ==> items[l].0 != items[j].0
    ensures items[j].0 in ToMap(items) && ToMap(items)[items[j].0] == items[j].1
  {
    var n := |items| - 1;
    if j < n {
      ToMapLastWins(items[..n], j);
    }
  }

  /** Items appended after the last write to a key leave its entry alone
      when none of them writes that key. */
  lemma {:induction false} ToMapAppendOther<K, V>(a: Items<K, V>, c: Items<K, V>, k: K)
    requires forall j :: 0 <= j < |c| ==> c[j].0 != k
    requires k in ToMap(a)
    ensures k in ToMap(a + c) && ToMap(a + c)[k] == ToMap(a)[k]
  {
    if c == [] {
      assert a + c == a;
    } else {
      var n := |c| - 1;
      ToMapAppendOther(a, c[..n], k);
      assert ToMap(a + c) == ToMap(a + c[..n])[c[n].0 := c[n].1] by {
        var ac := a + c;
        assert ac[..|ac| - 1] == a + c[..n];
        assert ac[|ac| - 1] == c[n];
      }
    }
  }

  /** Every entry of a dict built from items comes from one of the items. */
  lemma {:induction false} ToMapFromItem<K, V>(items: Items<K, V>, k: K)
    requires k in ToMap(items)
    ensures exists j :: 0 <= j < |items| && items[j] == (k, ToMap(items)[k])
  {
    var n := |items| - 1;
    if items[n].0 != k {
      ToMapFromItem(items[..n], k);
      var j :| 0 <= j < n && items[..n][j] == (k, ToMap(items[..n])[k]);
      assert items[j] == (k, ToMap(items)[k]);
    } else {
      assert items[n] == (k, ToMap(items)[k]);
    }
  }

  /** The inverse maps a value to the key of the LAST item holding it. */
  lemma {:induction false} InvertLastWins<K, V>(items: Items<K, V>, j: nat)
    requires j < |items|
    requires forall l :: j < l < |items| ==> items[l].1 != items[j].1
    ensures Invert(items)[items[j].1] == items[j].0
  {
    var n := |items| - 1;
    if j < n {
      InvertLastWins(items[..n], j);
    }
  }

  /** Every entry of the inverse comes from an item of the dict. */
  lemma {:induction false} InvertFromItem<K, V>(items: Items<K, V>, v: V)
    requires v in Invert(items)
    ensures exists j :: 0 <= j < |items| && items[j] == (Invert(items)[v], v)
  {
    var n := |items| - 1;
    if items[n].1 != v {
      InvertFromItem(items[..n], v);
      var j :| 0 <= j < n && items[..n][j] == (Invert(items[..n])[v], v);
      assert items[j] == (Invert(items)[v], v);
    } else {
      assert items[n] == (Invert(items)[v], v);
    }
  }

  /** Round trip `idx2vocab[vocab2idx[t]] == t`: when no two keys share a
      value, the inverse undoes the dict on every key. */
  lemma InvertRoundTrip<K, V>(items: Items<K, V>)
    requires DistinctKeys(items) && DistinctValues(items)
    ensures forall t :: t in ToMap(items) ==> ToMap(items)[t] in Invert(items) && Invert(items)[ToMap(items)[t]] == t
  {
    forall t | t in ToMap(items)
      ensures ToMap(items)[t] in Invert(items) && Invert(items)[ToMap(items)[t]] == t
    {
      ToMapKeys(items);
      var i :| 0 <= i < |items| && items[i].0 == t;
      ToMapAt(items, i);
      InvertLastWins(items, i);
    }
  }

  /** The other direction, which needs no injectivity: every entry of the
      inverse points back to a key that the dict maps to that entry. */
  lemma InvertSound<K, V>(items: Items<K, V>)
    requires DistinctKeys(items)
    ensures forall v :: v in Invert(items) ==> Invert(items)[v] in ToMap(items) && ToMap(items)[Invert(items)[v]] == v
  {
    forall v | v in Invert(items)
      ensures Invert(items)[v] in ToMap(items) && ToMap(items)[Invert(items)[v]] == v
    {
      InvertFromItem(items, v);
      var j :| 0 <= j < |items| && items[j] == (Invert(items)[v], v);
      ToMapAt(items, j);
    }
  }
}
