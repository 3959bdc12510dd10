/**
  * The aggregate checksum of `sdpremote/utils/checksum.py`: the status lines
  * of a scope, sorted by key, joined by newlines and hashed.
  */
module Checksum {
  import opened Text
  import opened Dicts

  /** `hashlib.sha256(b).hexdigest()` (section 6.2 of FIPS 180-4). The model
      never looks inside the hash: it is a parameter of every operation that
      hashes. */
  type HexDigest = seq<byte> -> string

  lemma LexAntisymmetricAll()
    ensures forall a, b :: LexLe(a, b) && LexLe(b, a) ==> a == b
  {
    forall a, b | LexLe(a, b) && LexLe(b, a) ensures a == b {
      LexAntisymmetric(a, b);
    }
  }

  /** Every non-empty key set has a smallest key. */
  lemma LeastExists(keys: set<string>)
    requires keys != {}
    ensures exists k :: k in keys && forall j :: j in keys ==> LexLe(k, j)
  {
    var k := LeastWitness(keys);
  }

  lemma {:induction false} LeastWitness(keys: set<string>) returns (k: string)
    requires keys != {}
    ensures k in keys && forall j :: j in keys ==> LexLe(k, j)
    decreases |keys|
  {
    var x :| x in keys;
    if keys == {x} {
      LexReflexive(x);
      k := x;
    } else {
      var m := LeastWitness(keys - {x});
      k := LeastOfTwo(x, m, keys - {x});
      assert keys == (keys - {x}) + {x};
    }
  }

  /** The smaller of `x` and the least element `m` of `rest` is the least
      element of `rest` with `x` added. */
  lemma LeastOfTwo(x: string, m: string, rest: set<string>) returns (k: string)
    requires m in rest && forall j :: j in rest ==> LexLe(m, j)
    ensures k in rest + {x} && forall j :: j in rest + {x} ==> LexLe(k, j)
  {
    LexTotal(x, m);
    LexReflexive(x);
    if LexLe(x, m) {
      forall j | j in rest ensures LexLe(x, j) {
        LexTransitive(x, m, j);
      }
      k := x;
    } else {
      k := m;
    }
  }

  /** The smallest key of a non-empty key set. */
  function Least(keys: set<string>): (k: string)
    requires keys != {}
    ensures k in keys
  {
    LeastExists(keys);
    LexAntisymmetricAll();
    var k :| k in keys && forall j :: j in keys ==> LexLe(k, j);
    k
  }

  lemma LeastIsLeast(keys: set<string>)
    requires keys != {}
    ensures forall j :: j in keys ==> LexLe(Least(keys), j)
  {
    LeastExists(keys);
  }

  /** `sorted` on the keys of a dictionary. */
  function SortedKeys(keys: set<string>): seq<string>
    decreases |keys|
  {
    if keys == {} then []
    else
      var k := Least(keys);
      [k] + SortedKeys(keys - {k})
  }

  /** The sorted keys list every key once, in ascending order. */
  lemma {:induction false} SortedKeysListing(keys: set<string>)
    ensures |SortedKeys(keys)| == |keys|
    ensures forall k :: k in SortedKeys(keys) <==> k in keys
    ensures StrictlyAscending(SortedKeys(keys))
    decreases |keys|
  {
    if keys != {} {
      var k := Least(keys);
      LeastIsLeast(keys);
      SortedKeysListing(keys - {k});
      var ks := SortedKeys(keys);
      assert ks == [k] + SortedKeys(keys - {k});
      forall i, j | 0 <= i < j < |ks| ensures LexLt(ks[i], ks[j]) {
        if i == 0 {
          assert ks[j] in keys - {k};
        } else {
          assert ks[i] == SortedKeys(keys - {k})[i - 1] && ks[j] == SortedKeys(keys - {k})[j - 1];
        }
      }
    }
  }

  /** The values of `m` read along the keys `ks`. */
  function ValuesAt(m: map<string, string>, ks: seq<string>): seq<string>
  {
    if ks == [] then []
    else (if ks[0] in m then [m[ks[0]]] else []) + ValuesAt(m, ks[1..])
  }

  /** Read along keys of `m`, there is one value per key, in order. */
  lemma {:induction false} ValuesAtIndex(m: map<string, string>, ks: seq<string>)
    requires forall k :: k in ks ==> k in m
    ensures |ValuesAt(m, ks)| == |ks|
    ensures forall i :: 0 <= i < |ks| ==> ValuesAt(m, ks)[i] == m[ks[i]]
  {
    if ks != [] {
      ValuesAtIndex(m, ks[1..]);
      forall i | 1 <= i < |ks| ensures ValuesAt(m, ks)[i] == m[ks[i]] {
        assert ks[1..][i - 1] == ks[i];
      }
    }
  }

  /** `map(itemgetter(1), sorted(values.items()))`: the values, by ascending
      key. */
  function ValuesInKeyOrder(m: map<string, string>): seq<string>
  {
    ValuesAt(m, SortedKeys(m.Keys))
  }

  /** The text that is hashed. */
  function Content(m: map<string, string>): string
  {
    Join(ValuesInKeyOrder(m), "\n")
  }

  /** `calc_checksum`: the hex SHA-256 of the UTF-8 encoding of the values
      read along any ascending listing of the keys and joined by newlines;
      an empty map hashes no bytes, a one-entry map just its value. */
  function CalcChecksum(sha256: HexDigest, m: map<string, string>): (h: string)
    ensures forall ks :: StrictlyAscending(ks) && (forall k :: k in ks <==> k in m) ==>
      h == sha256(EncodeUtf8(Join(ValuesAt(m, ks), "\n")))
    ensures m == map[] ==> h == sha256([])
    ensures |m| == 1 ==> h == sha256(EncodeUtf8(m[Least(m.Keys)]))
  {
    ContentAlongListings(m);
    ContentOfSmallMap(m);
    sha256(EncodeUtf8(Content(m)))
  }

  lemma SameElementsBothEmpty(a: seq<string>, b: seq<string>)
    requires forall x :: x in a <==> x in b
    ensures |a| == 0 <==> |b| == 0
  {
    if |a| > 0 { assert a[0] in b; }
    if |b| > 0 { assert b[0] in a; }
  }

  /** Two strictly ascending sequences with the same elements are equal: there
      is one sorted listing of a key set. */
  lemma {:induction false} AscendingListingUnique(a: seq<string>, b: seq<string>)
    requires StrictlyAscending(a) && StrictlyAscending(b)
    requires forall x :: x in a <==> x in b
    ensures a == b
    decreases |a|
  {
    SameElementsBothEmpty(a, b);
    if |a| > 0 {
      assert a[0] in b;
      assert b[0] in a;
      var j :| 0 <= j < |b| && b[j] == a[0];
      var i :| 0 <= i < |a| && a[i] == b[0];
      if j > 0 {
        assert LexLt(b[0], b[j]);
        if i > 0 {
          assert LexLt(a[0], a[i]);
          LexAntisymmetric(a[0], a[i]);
        }
        assert false;
      }
      assert a[0] == b[0];
      forall x ensures x in a[1..] <==> x in b[1..] {
        if x in a[1..] {
          var p :| 1 <= p < |a| && a[p] == x;
          assert LexLt(a[0], a[p]);
          assert x in a;
          var r :| 0 <= r < |b| && b[r] == x;
          assert r != 0;
          assert b[1..][r - 1] == x;
        }
        if x in b[1..] {
          var q :| 1 <= q < |b| && b[q] == x;
          assert LexLt(b[0], b[q]);
          assert x in b;
          var r :| 0 <= r < |a| && a[r] == x;
          assert r != 0;
          assert a[1..][r - 1] == x;
        }
      }
      AscendingListingUnique(a[1..], b[1..]);
      assert a == [a[0]] + a[1..];
      assert b == [b[0]] + b[1..];
    }
  }

  /** The hashed content is the values joined by newlines in ascending key
      order: for any strictly ascending listing of the keys, the content is
      the values read along that listing. */
  lemma ContentFollowsKeyOrder(m: map<string, string>, ks: seq<string>)
    requires StrictlyAscending(ks)
    requires forall k :: k in ks <==> k in m
    ensures Content(m) == Join(ValuesAt(m, ks), "\n")
  {
    SortedKeysListing(m.Keys);
    AscendingListingUnique(ks, SortedKeys(m.Keys));
  }

  /** The content read along any ascending listing of the keys. */
  lemma ContentAlongListings(m: map<string, string>)
    ensures forall ks :: StrictlyAscending(ks) && (forall k :: k in ks <==> k in m) ==>
      Content(m) == Join(ValuesAt(m, ks), "\n")
  {
    forall ks | StrictlyAscending(ks) && (forall k :: k in ks <==> k in m)
      ensures Content(m) == Join(ValuesAt(m, ks), "\n")
    {
      ContentFollowsKeyOrder(m, ks);
    }
  }

  /** A map with a single key is that key bound to its value. */
  lemma OneKey(m: map<string, string>)
    requires |m| == 1
    ensures m == map[Least(m.Keys) := m[Least(m.Keys)]]
  {
    var k := Least(m.Keys);
    var rest := m.Keys - {k};
    assert m.Keys == rest + {k};
    assert |rest| == 0;
    forall j | j in m ensures j == k {
      assert j !in rest;
    }
  }

  /** An empty map has empty content, a one-entry map its value. */
  lemma ContentOfSmallMap(m: map<string, string>)
    ensures m == map[] ==> Content(m) == ""
    ensures |m| == 1 ==> Content(m) == m[Least(m.Keys)]
  {
    if m == map[] {
      ContentFollowsKeyOrder(m, []);
    }
    if |m| == 1 {
      var k := Least(m.Keys);
      OneKey(m);
      assert ValuesAt(m, [k]) == [m[k]];
      ContentFollowsKeyOrder(m, [k]);
    }
  }

  /** A single-entry map hashes exactly that entry's value: the key only
      decides the position of its line, it is not hashed itself. */
  lemma SingleEntry(sha256: HexDigest, k: string, v: string)
    ensures Content(map[k := v]) == v
    ensures CalcChecksum(sha256, map[k := v]) == sha256(EncodeUtf8(v))
  {
    var m := map[k := v];
    assert m.Keys == {k};
    SortedKeysListing(m.Keys);
    var ks := SortedKeys(m.Keys);
    assert k in ks;
    assert ks == [k];
    assert ValuesAt(m, ks) == [v];
    assert ValuesInKeyOrder(m) == [v];
  }

  /** When no status line contains a newline, splitting the content on
      newlines gives the lines back, one per key: the content has exactly
      `|m| - 1` newlines, so there is no trailing newline. */
  lemma ContentLines(m: map<string, string>)
    requires m != map[]
    requires forall k :: k in m ==> '\n' !in m[k]
    ensures Split(Content(m), '\n') == ValuesInKeyOrder(m)
    ensures Count(Content(m), '\n') == |m| - 1
  {
    var vs := ValuesInKeyOrder(m);
    var ks := SortedKeys(m.Keys);
    SortedKeysListing(m.Keys);
    ValuesAtIndex(m, ks);
    assert |ks| == |m.Keys| == |m|;
    assert ks[0] in m;
    forall i | 0 <= i < |vs| ensures '\n' !in vs[i] {
      assert ks[i] in m;
    }
    SplitJoin(vs, '\n');
  }

  /** A dictionary of status lines hashes the same whatever order its items
      were inserted in. */
  lemma ChecksumIgnoresInsertionOrder(sha256: HexDigest, p: seq<(string, string)>, q: seq<(string, string)>)
    requires DistinctKeys(p) && DistinctKeys(q)
    requires multiset(p) == multiset(q)
    ensures CalcChecksum(sha256, DictOf(p)) == CalcChecksum(sha256, DictOf(q))
  {
    InsertionOrderIrrelevant(p, q);
  }
}
