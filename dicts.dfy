/** Python dictionaries built from an ordered list of items, as a JSON object
    or a dict comprehension builds them: a later item with the same key
    overwrites an earlier one. */
module Dicts {

  predicate DistinctKeys<V>(items: seq<(string, V)>)
  {
    forall i, j :: 0 <= i < j < |items| ==> items[i].0 != items[j].0
  }

  function KeysOf<V>(items: seq<(string, V)>): set<string>
  {
    set i | 0 <= i < |items| :: items[i].0
  }

  lemma KeysOfEmpty<V>(items: seq<(string, V)>)
    ensures KeysOf(items) == {} <==> items == []
  {
    if items != [] { assert items[0].0 in KeysOf(items); }
  }

  /** The keys of a non-empty item list: those of all but the last item,
      and the last item's. */
  lemma KeysOfLast<V>(items: seq<(string, V)>)
    requires |items| > 0
    ensures KeysOf(items) == KeysOf(items[..|items| - 1]) + {items[|items| - 1].0}
  {
    var prefix := items[..|items| - 1];
    forall k | k in KeysOf(items) ensures k in KeysOf(prefix) + {items[|items| - 1].0} {
      var i :| 0 <= i < |items| && items[i].0 == k;
      if i < |items| - 1 { assert prefix[i] == items[i]; }
    }
    forall k | k in KeysOf(prefix) ensures k in KeysOf(items) {
      var i :| 0 <= i < |prefix| && prefix[i].0 == k;
      assert items[i] == prefix[i];
    }
  }

  function DictOf<V>(items: seq<(string, V)>): (d: map<string, V>)
    ensures d.Keys == KeysOf(items)
    decreases |items|
  {
    if |items| == 0 then map[]
    else
      var last := items[|items| - 1];
      KeysOfLast(items);
      DictOf(items[..|items| - 1])[last.0 := last.1]
  }

  /** With distinct keys, the dictionary holds exactly the given items. */
  lemma {:induction false} DictOfEntries<V>(items: seq<(string, V)>, k: string, v: V)
    requires DistinctKeys(items)
    ensures (k in DictOf(items) && DictOf(items)[k] == v) <==> (k, v) in items
    decreases |items|
  {
    if |items| > 0 {
      var last := items[|items| - 1];
      var prefix := items[..|items| - 1];
      assert items == prefix + [last];
      DictOfEntries(prefix, k, v);
    }
  }

  /** A dictionary does not depend on the order its (distinct-keyed) items
      were inserted in. */
  lemma InsertionOrderIrrelevant<V>(p: seq<(string, V)>, q: seq<(string, V)>)
    requires DistinctKeys(p) && DistinctKeys(q)
    requires multiset(p) == multiset(q)
    ensures DictOf(p) == DictOf(q)
  {
    forall k | k in DictOf(p) ensures k in DictOf(q) && DictOf(q)[k] == DictOf(p)[k] {
      DictOfEntries(p, k, DictOf(p)[k]);
      assert (k, DictOf(p)[k]) in multiset(q);
      DictOfEntries(q, k, DictOf(p)[k]);
    }
    forall k | k in DictOf(q) ensures k in DictOf(p) {
      DictOfEntries(q, k, DictOf(q)[k]);
      assert (k, DictOf(q)[k]) in multiset(p);
      DictOfEntries(p, k, DictOf(q)[k]);
    }
  }

  /** Writing a key twice leaves only the second value. */
  lemma OverwriteTwice<K, V>(m: map<K, V>, k: K, a: V, b: V)
    ensures m[k := a][k := b] == m[k := b]
  {
  }
}
