/**
 Ordered lists of entries addressed by a key (a node file by its path, a
 systemd unit by its name), and the two ways the extension merges a new
 entry into such a list:

 - AppendUnique, the extension's own appendUniqueFile: drop every entry with
   the new entry's key, keep the rest in order, put the new entry last;
 - Upsert: replace the first entry with the same key in place, or append
   when there is none. Gardener's EnsureFileWithPath and EnsureUnitWithName
   are not part of this model; where a property needs their behaviour, it
   is stated for ensure functions that act as Upsert does.

 Everything is generic over the entry type and a key function.
 */
module Keyed {
  import opened Base

  /** The entries of xs whose key is k, in their original order. */
  function Only<T, K(==)>(xs: seq<T>, key: T -> K, k: K): (r: seq<T>)
    ensures |r| <= |xs|
    ensures forall i :: 0 <= i < |r| ==> key(r[i]) == k && r[i] in xs
  {
    if |xs| == 0 then []
    else (if key(xs[0]) == k then [xs[0]] else []) + Only(xs[1..], key, k)
  }

  /** The entries of xs whose key is not k, in their original order. */
  function Without<T, K(==)>(xs: seq<T>, key: T -> K, k: K): (r: seq<T>)
    ensures |r| <= |xs|
    ensures forall i :: 0 <= i < |r| ==> key(r[i]) != k && r[i] in xs
  {
    if |xs| == 0 then []
    else (if key(xs[0]) != k then [xs[0]] else []) + Without(xs[1..], key, k)
  }

  /** The entries of xs whose key is outside ks, in their original order. */
  function WithoutKeys<T, K(==)>(xs: seq<T>, key: T -> K, ks: set<K>): (r: seq<T>)
    ensures |r| <= |xs|
    ensures forall i :: 0 <= i < |r| ==> key(r[i]) !in ks && r[i] in xs
  {
    if |xs| == 0 then []
    else (if key(xs[0]) !in ks then [xs[0]] else []) + WithoutKeys(xs[1..], key, ks)
  }

  /** How many entries of xs carry key k. */
  function Count<T, K(==)>(xs: seq<T>, key: T -> K, k: K): nat
  {
    |Only(xs, key, k)|
  }

  /** The keys of the entries of ys. */
  function KeysOf<T, K(==)>(ys: seq<T>, key: T -> K): (ks: set<K>)
    ensures forall i :: 0 <= i < |ys| ==> key(ys[i]) in ks
  {
    if |ys| == 0 then {}
    else KeysOf(ys[..|ys| - 1], key) + {key(ys[|ys| - 1])}
  }

  /** The last entry of ys with key k, if any. */
  function LastWithKey<T, K(==)>(ys: seq<T>, key: T -> K, k: K): (r: Option<T>)
    ensures r.Some? ==> r.value in ys && key(r.value) == k
    ensures r.None? <==> k !in KeysOf(ys, key)
  {
    if |ys| == 0 then None
    else if key(ys[|ys| - 1]) == k then Some(ys[|ys| - 1])
    else LastWithKey(ys[..|ys| - 1], key, k)
  }

  /** The last entry with key k is the one at index i when no later entry has key k. */
  lemma {:induction false} LastWithKeyAt<T, K>(ys: seq<T>, key: T -> K, k: K, i: nat)
    requires i < |ys| && key(ys[i]) == k
    requires forall j :: i < j < |ys| ==> key(ys[j]) != k
    ensures LastWithKey(ys, key, k) == Some(ys[i])
    decreases |ys|
  {
    if i < |ys| - 1 {
      LastWithKeyAt(ys[..|ys| - 1], key, k, i);
      assert ys[..|ys| - 1][i] == ys[i];
    }
  }

  // ---------------------------------------------------------------------
  // Filters distribute over concatenation and commute with each other
  // ---------------------------------------------------------------------

  lemma {:induction false} OnlyConcat<T, K>(a: seq<T>, b: seq<T>, key: T -> K, k: K)
    ensures Only(a + b, key, k) == Only(a, key, k) + Only(b, key, k)
  {
    if |a| > 0 {
      OnlyConcat(a[1..], b, key, k);
      assert (a + b)[1..] == a[1..] + b;
      ConcatAssoc((if key(a[0]) == k then [a[0]] else []), Only(a[1..], key, k), Only(b, key, k));
    } else {
      assert a + b == b;
    }
  }

  lemma {:induction false} WithoutConcat<T, K>(a: seq<T>, b: seq<T>, key: T -> K, k: K)
    ensures Without(a + b, key, k) == Without(a, key, k) + Without(b, key, k)
  {
    if |a| > 0 {
      WithoutConcat(a[1..], b, key, k);
      assert (a + b)[1..] == a[1..] + b;
      ConcatAssoc((if key(a[0]) != k then [a[0]] else []), Without(a[1..], key, k), Without(b, key, k));
    } else {
      assert a + b == b;
    }
  }

  lemma {:induction false} WithoutKeysConcat<T, K>(a: seq<T>, b: seq<T>, key: T -> K, ks: set<K>)
    ensures WithoutKeys(a + b, key, ks) == WithoutKeys(a, key, ks) + WithoutKeys(b, key, ks)
  {
    if |a| > 0 {
      WithoutKeysConcat(a[1..], b, key, ks);
      assert (a + b)[1..] == a[1..] + b;
      ConcatAssoc((if key(a[0]) !in ks then [a[0]] else []), WithoutKeys(a[1..], key, ks), WithoutKeys(b, key, ks));
    } else {
      assert a + b == b;
    }
  }

  /** Removing key k leaves nothing with key k and every other key untouched. */
  lemma {:induction false} OnlyWithout<T, K>(xs: seq<T>, key: T -> K, k: K, k': K)
    ensures Only(Without(xs, key, k), key, k') == if k == k' then [] else Only(xs, key, k')
  {
    if |xs| > 0 {
      OnlyWithout(xs[1..], key, k, k');
      var head := if key(xs[0]) != k then [xs[0]] else [];
      OnlyConcat(head, Without(xs[1..], key, k), key, k');
    }
  }

  /** Removing the keys ks leaves every other key untouched. */
  lemma {:induction false} OnlyWithoutKeys<T, K>(xs: seq<T>, key: T -> K, ks: set<K>, k: K)
    ensures Only(WithoutKeys(xs, key, ks), key, k) == if k in ks then [] else Only(xs, key, k)
  {
    if |xs| > 0 {
      OnlyWithoutKeys(xs[1..], key, ks, k);
      var head := if key(xs[0]) !in ks then [xs[0]] else [];
      OnlyConcat(head, WithoutKeys(xs[1..], key, ks), key, k);
    }
  }

  lemma {:induction false} WithoutTwice<T, K>(xs: seq<T>, key: T -> K, k: K)
    ensures Without(Without(xs, key, k), key, k) == Without(xs, key, k)
  {
    if |xs| > 0 {
      WithoutTwice(xs[1..], key, k);
      var head := if key(xs[0]) != k then [xs[0]] else [];
      WithoutConcat(head, Without(xs[1..], key, k), key, k);
    }
  }

  /** Removing one more key after a set of keys is removing the larger set. */
  lemma {:induction false} WithoutAfterWithoutKeys<T, K>(xs: seq<T>, key: T -> K, ks: set<K>, k: K)
    ensures Without(WithoutKeys(xs, key, ks), key, k) == WithoutKeys(xs, key, ks + {k})
  {
    if |xs| > 0 {
      WithoutAfterWithoutKeys(xs[1..], key, ks, k);
      var head := if key(xs[0]) !in ks then [xs[0]] else [];
      WithoutConcat(head, WithoutKeys(xs[1..], key, ks), key, k);
    }
  }

  /** Removing keys none of the entries carry changes nothing. */
  lemma {:induction false} WithoutKeysNone<T, K>(xs: seq<T>, key: T -> K, ks: set<K>)
    requires forall i :: 0 <= i < |xs| ==> key(xs[i]) !in ks
    ensures WithoutKeys(xs, key, ks) == xs
  {
    if |xs| > 0 {
      WithoutKeysNone(xs[1..], key, ks);
      assert xs == [xs[0]] + xs[1..];
    }
  }

  /** Removing a set of keys twice is removing it once. */
  lemma WithoutKeysTwice<T, K>(xs: seq<T>, key: T -> K, ks: set<K>)
    ensures WithoutKeys(WithoutKeys(xs, key, ks), key, ks) == WithoutKeys(xs, key, ks)
  {
    WithoutKeysNone(WithoutKeys(xs, key, ks), key, ks);
  }

  // ---------------------------------------------------------------------
  // appendUniqueFile
  // ---------------------------------------------------------------------

  /** Drop every entry whose key is x's key, keep the others in order, append x. */
  function AppendUnique<T, K(==)>(xs: seq<T>, key: T -> K, x: T): (r: seq<T>)
    ensures |r| >= 1 && r[|r| - 1] == x
    ensures forall i :: 0 <= i < |r| - 1 ==> key(r[i]) != key(x) && r[i] in xs
  {
    Without(xs, key, key(x)) + [x]
  }

  /** After AppendUnique, x is the one entry with its key, and every other
      key has exactly the entries it had before, in the same order. */
  lemma AppendUniqueOnly<T, K>(xs: seq<T>, key: T -> K, x: T, k: K)
    ensures Only(AppendUnique(xs, key, x), key, k) == if k == key(x) then [x] else Only(xs, key, k)
    ensures Count(AppendUnique(xs, key, x), key, key(x)) == 1
  {
    OnlyConcat(Without(xs, key, key(x)), [x], key, k);
    OnlyWithout(xs, key, key(x), k);
    OnlyConcat(Without(xs, key, key(x)), [x], key, key(x));
    OnlyWithout(xs, key, key(x), key(x));
  }

  /** The entries with other keys keep their relative order: removing x's key
      from the result gives what removing it from the input gives. */
  lemma AppendUniqueKeepsOthers<T, K>(xs: seq<T>, key: T -> K, x: T)
    ensures Without(AppendUnique(xs, key, x), key, key(x)) == Without(xs, key, key(x))
  {
    WithoutConcat(Without(xs, key, key(x)), [x], key, key(x));
    WithoutTwice(xs, key, key(x));
  }

  /** Applying the same entry twice is applying it once. */
  lemma AppendUniqueIdempotent<T, K>(xs: seq<T>, key: T -> K, x: T)
    ensures AppendUnique(AppendUnique(xs, key, x), key, x) == AppendUnique(xs, key, x)
  {
    AppendUniqueKeepsOthers(xs, key, x);
  }

  /** A loop of AppendUnique calls, one per entry of ys, in order. */
  function AppendAll<T, K(==)>(xs: seq<T>, key: T -> K, ys: seq<T>): (r: seq<T>)
    ensures |ys| > 0 ==> |r| >= 1 && r[|r| - 1] == ys[|ys| - 1]
  {
    if |ys| == 0 then xs
    else AppendUnique(AppendAll(xs, key, ys[..|ys| - 1]), key, ys[|ys| - 1])
  }

  /** After the loop, every key of ys has exactly one entry, the last entry of
      ys with that key; every other key has exactly the entries it had. */
  lemma {:induction false} AppendAllOnly<T, K>(xs: seq<T>, key: T -> K, ys: seq<T>, k: K)
    ensures Only(AppendAll(xs, key, ys), key, k) ==
            match LastWithKey(ys, key, k)
            case Some(y) => [y]
            case None => Only(xs, key, k)
  {
    if |ys| > 0 {
      var init := ys[..|ys| - 1];
      AppendAllOnly(xs, key, init, k);
      AppendUniqueOnly(AppendAll(xs, key, init), key, ys[|ys| - 1], k);
    }
  }

  /** The loop's result is the input without the keys of ys (unrelated entries,
      untouched and in order) followed by what the loop builds from nothing. */
  lemma {:induction false} AppendAllShape<T, K>(xs: seq<T>, key: T -> K, ys: seq<T>)
    ensures AppendAll(xs, key, ys) == WithoutKeys(xs, key, KeysOf(ys, key)) + AppendAll([], key, ys)
  {
    if |ys| == 0 {
      WithoutKeysNone(xs, key, {});
    } else {
      var init := ys[..|ys| - 1];
      var y := ys[|ys| - 1];
      AppendAllShape(xs, key, init);
      var kept := WithoutKeys(xs, key, KeysOf(init, key));
      var built := AppendAll([], key, init);
      WithoutConcat(kept, built, key, key(y));
      WithoutAfterWithoutKeys(xs, key, KeysOf(init, key), key(y));
      assert KeysOf(ys, key) == KeysOf(init, key) + {key(y)};
    }
  }

  /** The entries the loop builds all carry keys of ys. */
  lemma {:induction false} AppendAllKeys<T, K>(key: T -> K, ys: seq<T>)
    ensures forall i :: 0 <= i < |AppendAll([], key, ys)| ==>
              key(AppendAll([], key, ys)[i]) in KeysOf(ys, key)
  {
    if |ys| > 0 {
      var init := ys[..|ys| - 1];
      AppendAllKeys(key, init);
      var r := AppendAll([], key, ys);
      forall i | 0 <= i < |r| ensures key(r[i]) in KeysOf(ys, key) {
        if i < |r| - 1 {
          assert r[i] in AppendAll([], key, init);
          var j :| 0 <= j < |AppendAll([], key, init)| && AppendAll([], key, init)[j] == r[i];
        }
      }
    }
  }

  /** Running the whole loop a second time changes nothing. */
  lemma AppendAllIdempotent<T, K>(xs: seq<T>, key: T -> K, ys: seq<T>)
    ensures AppendAll(AppendAll(xs, key, ys), key, ys) == AppendAll(xs, key, ys)
  {
    var ks := KeysOf(ys, key);
    var kept := WithoutKeys(xs, key, ks);
    var built := AppendAll([], key, ys);
    var once := AppendAll(xs, key, ys);
    AppendAllShape(xs, key, ys);
    AppendAllShape(once, key, ys);
    WithoutKeysConcat(kept, built, key, ks);
    WithoutKeysTwice(xs, key, ks);
    AppendAllKeys(key, ys);
    WithoutKeysAll(built, key, ks);
    assert WithoutKeys(once, key, ks) == kept + [];
    assert kept + [] == kept;
  }

  /** Appending y first and then the rest is appending all of [y] + ys. */
  lemma {:induction false} AppendAllCons<T, K>(xs: seq<T>, key: T -> K, y: T, ys: seq<T>)
    ensures AppendAll(AppendUnique(xs, key, y), key, ys) == AppendAll(xs, key, [y] + ys)
    decreases |ys|
  {
    var all := [y] + ys;
    if |ys| == 0 {
      assert all[..0] == [];
    } else {
      var init := ys[..|ys| - 1];
      AppendAllCons(xs, key, y, init);
      assert all[..|all| - 1] == [y] + init;
      assert all[|all| - 1] == ys[|ys| - 1];
    }
  }

  /** Removing keys every entry carries leaves nothing. */
  lemma {:induction false} WithoutKeysAll<T, K>(xs: seq<T>, key: T -> K, ks: set<K>)
    requires forall i :: 0 <= i < |xs| ==> key(xs[i]) in ks
    ensures WithoutKeys(xs, key, ks) == []
  {
    if |xs| > 0 {
      WithoutKeysAll(xs[1..], key, ks);
    }
  }

  // ---------------------------------------------------------------------
  // Replace-in-place merging
  // ---------------------------------------------------------------------

  /** The position of the first entry with key k, or -1. */
  function FirstIndex<T, K(==)>(xs: seq<T>, key: T -> K, k: K): (i: int)
    ensures -1 <= i < |xs|
    ensures i >= 0 ==> key(xs[i]) == k && forall j :: 0 <= j < i ==> key(xs[j]) != k
    ensures i == -1 ==> forall j :: 0 <= j < |xs| ==> key(xs[j]) != k
  {
    if |xs| == 0 then -1
    else if key(xs[0]) == k then 0
    else
      var i := FirstIndex(xs[1..], key, k);
      if i == -1 then -1 else i + 1
  }

  /** Replace the first entry with x's key by x, or append x when there is none. */
  function Upsert<T, K(==)>(xs: seq<T>, key: T -> K, x: T): (r: seq<T>)
    ensures |r| == if key(x) in KeysOf(xs, key) then |xs| else |xs| + 1
    ensures forall j :: 0 <= j < |xs| && key(xs[j]) != key(x) ==> r[j] == xs[j]
    ensures x in r
  {
    var i := FirstIndex(xs, key, key(x));
    KeysOfMember(xs, key, key(x));
    if i == -1 then xs + [x]
    else assert xs[i := x][i] == x; xs[i := x]
  }

  /** A key is in KeysOf exactly when some entry carries it. */
  lemma {:induction false} KeysOfMember<T, K>(ys: seq<T>, key: T -> K, k: K)
    ensures k in KeysOf(ys, key) <==> exists i :: 0 <= i < |ys| && key(ys[i]) == k
  {
    if |ys| > 0 {
      KeysOfMember(ys[..|ys| - 1], key, k);
      if k in KeysOf(ys[..|ys| - 1], key) {
        var i :| 0 <= i < |ys| - 1 && key(ys[..|ys| - 1][i]) == k;
        assert key(ys[i]) == k;
      }
    }
  }

  /** Upsert keeps every other key's entries and leaves x's key with as many
      entries as before, but at least one. */
  lemma {:induction false} UpsertCount<T, K>(xs: seq<T>, key: T -> K, x: T, k: K)
    ensures k != key(x) ==> Only(Upsert(xs, key, x), key, k) == Only(xs, key, k)
    ensures Count(Upsert(xs, key, x), key, key(x)) == if Count(xs, key, key(x)) == 0 then 1 else Count(xs, key, key(x))
  {
    var i := FirstIndex(xs, key, key(x));
    if i == -1 {
      OnlyConcat(xs, [x], key, k);
      OnlyConcat(xs, [x], key, key(x));
      OnlyNone(xs, key, key(x));
    } else {
      var r := xs[i := x];
      assert xs == xs[..i] + [xs[i]] + xs[i + 1..];
      assert r == xs[..i] + [x] + xs[i + 1..];
      OnlyConcat(xs[..i] + [xs[i]], xs[i + 1..], key, k);
      OnlyConcat(xs[..i], [xs[i]], key, k);
      OnlyConcat(xs[..i] + [x], xs[i + 1..], key, k);
      OnlyConcat(xs[..i], [x], key, k);
      OnlyConcat(xs[..i] + [xs[i]], xs[i + 1..], key, key(x));
      OnlyConcat(xs[..i], [xs[i]], key, key(x));
      OnlyConcat(xs[..i] + [x], xs[i + 1..], key, key(x));
      OnlyConcat(xs[..i], [x], key, key(x));
    }
  }

  /** No entry with key k means Only is empty. */
  lemma {:induction false} OnlyNone<T, K>(xs: seq<T>, key: T -> K, k: K)
    requires forall j :: 0 <= j < |xs| ==> key(xs[j]) != k
    ensures Only(xs, key, k) == []
  {
    if |xs| > 0 {
      OnlyNone(xs[1..], key, k);
    }
  }

  /** Upserting the same entry twice is upserting it once. */
  lemma UpsertIdempotent<T, K>(xs: seq<T>, key: T -> K, x: T)
    ensures Upsert(Upsert(xs, key, x), key, x) == Upsert(xs, key, x)
  {
    var i := FirstIndex(xs, key, key(x));
    var r := Upsert(xs, key, x);
    if i == -1 {
      assert FirstIndex(r, key, key(x)) == |xs|;
    } else {
      assert FirstIndex(r, key, key(x)) == i by {
        var j := FirstIndex(r, key, key(x));
        assert r[i] == x;
      }
    }
  }
  /** The first entry with key k, if any. */
  function FirstEntry<T, K(==)>(xs: seq<T>, key: T -> K, k: K): (r: Option<T>)
    ensures r.None? <==> forall j :: 0 <= j < |xs| ==> key(xs[j]) != k
    ensures r.Some? ==> r.value in xs && key(r.value) == k
  {
    var i := FirstIndex(xs, key, k);
    if i == -1 then None else Some(xs[i])
  }

  /** After an upsert, x is the first entry with its key, and the first entry
      of every other key is what it was. */
  lemma UpsertFirstEntry<T, K>(xs: seq<T>, key: T -> K, x: T, k: K)
    ensures FirstEntry(Upsert(xs, key, x), key, key(x)) == Some(x)
    ensures k != key(x) ==> FirstEntry(Upsert(xs, key, x), key, k) == FirstEntry(xs, key, k)
  {
    var i := FirstIndex(xs, key, key(x));
    var r := Upsert(xs, key, x);
    var ik := FirstIndex(xs, key, k);
    if i == -1 {
      assert r == xs + [x];
      assert FirstIndex(r, key, key(x)) == |xs|;
      if k != key(x) {
        assert FirstIndex(r, key, k) == ik;
      }
    } else {
      assert r == xs[i := x];
      assert r[i] == x;
      assert forall j :: 0 <= j < i ==> r[j] == xs[j];
      assert FirstIndex(r, key, key(x)) == i;
      if k != key(x) {
        assert FirstIndex(r, key, k) == ik;
      }
    }
  }

  /** Upserting the entry that is already first with its key changes nothing. */
  lemma UpsertPresent<T, K>(xs: seq<T>, key: T -> K, x: T)
    requires FirstEntry(xs, key, key(x)) == Some(x)
    ensures Upsert(xs, key, x) == xs
  {
    var i := FirstIndex(xs, key, key(x));
    assert xs[i] == x;
    assert xs[i := x] == xs;
  }

  /** No two entries of ys share a key. */
  predicate DistinctKeys<T, K(==)>(ys: seq<T>, key: T -> K)
  {
    forall i, j :: 0 <= i < j < |ys| ==> key(ys[i]) != key(ys[j])
  }

  /** Upsert each entry of ys in order. */
  function UpsertEach<T, K(==)>(xs: seq<T>, key: T -> K, ys: seq<T>): seq<T>
    decreases |ys|
  {
    if |ys| == 0 then xs else UpsertEach(Upsert(xs, key, ys[0]), key, ys[1..])
  }

  /** Apply an ensure function with each entry of ys in order. */
  function EnsureEach<T>(xs: seq<T>, ensure: (seq<T>, T) -> seq<T>, ys: seq<T>): seq<T>
    decreases |ys|
  {
    if |ys| == 0 then xs else EnsureEach(ensure(xs, ys[0]), ensure, ys[1..])
  }

  /** An ensure function that behaves as Upsert folds as UpsertEach does. */
  lemma {:induction false} EnsureEachUpsert<T, K>(xs: seq<T>, key: T -> K, ensure: (seq<T>, T) -> seq<T>, ys: seq<T>)
    requires forall zs, y :: ensure(zs, y) == Upsert(zs, key, y)
    ensures EnsureEach(xs, ensure, ys) == UpsertEach(xs, key, ys)
    decreases |ys|
  {
    if |ys| > 0 {
      EnsureEachUpsert(Upsert(xs, key, ys[0]), key, ensure, ys[1..]);
    }
  }

  /** After upserting entries with distinct keys, each of them is the first
      entry with its key. */
  lemma {:induction false} UpsertEachFirst<T, K>(xs: seq<T>, key: T -> K, ys: seq<T>, j: nat)
    requires DistinctKeys(ys, key) && j < |ys|
    ensures FirstEntry(UpsertEach(xs, key, ys), key, key(ys[j])) == Some(ys[j])
    decreases |ys|
  {
    var tail := ys[1..];
    assert DistinctKeys(tail, key) by {
      forall a, b | 0 <= a < b < |tail| ensures key(tail[a]) != key(tail[b]) {
        assert tail[a] == ys[a + 1] && tail[b] == ys[b + 1];
      }
    }
    var first := Upsert(xs, key, ys[0]);
    if j == 0 {
      UpsertFirstEntry(xs, key, ys[0], key(ys[0]));
      UpsertEachOthers(first, key, tail, key(ys[0]));
    } else {
      assert ys[j] == tail[j - 1];
      UpsertEachFirst(first, key, tail, j - 1);
    }
  }

  /** Upserting entries whose keys all differ from k keeps k's first entry. */
  lemma {:induction false} UpsertEachOthers<T, K>(xs: seq<T>, key: T -> K, ys: seq<T>, k: K)
    requires forall i :: 0 <= i < |ys| ==> key(ys[i]) != k
    ensures FirstEntry(UpsertEach(xs, key, ys), key, k) == FirstEntry(xs, key, k)
    decreases |ys|
  {
    if |ys| > 0 {
      UpsertFirstEntry(xs, key, ys[0], k);
      UpsertEachOthers(Upsert(xs, key, ys[0]), key, ys[1..], k);
    }
  }

  /** Upserting entries that are already first with their keys changes nothing. */
  lemma {:induction false} UpsertEachPresent<T, K>(xs: seq<T>, key: T -> K, ys: seq<T>)
    requires forall j :: 0 <= j < |ys| ==> FirstEntry(xs, key, key(ys[j])) == Some(ys[j])
    ensures UpsertEach(xs, key, ys) == xs
    decreases |ys|
  {
    if |ys| > 0 {
      UpsertPresent(xs, key, ys[0]);
      assert forall j :: 0 <= j < |ys| - 1 ==> ys[1..][j] == ys[j + 1];
      UpsertEachPresent(xs, key, ys[1..]);
    }
  }

  /** Upserting entries with distinct keys twice is upserting them once. */
  lemma UpsertEachIdempotent<T, K>(xs: seq<T>, key: T -> K, ys: seq<T>)
    requires DistinctKeys(ys, key)
    ensures UpsertEach(UpsertEach(xs, key, ys), key, ys) == UpsertEach(xs, key, ys)
  {
    var once := UpsertEach(xs, key, ys);
    forall j | 0 <= j < |ys| ensures FirstEntry(once, key, key(ys[j])) == Some(ys[j]) {
      UpsertEachFirst(xs, key, ys, j);
    }
    UpsertEachPresent(once, key, ys);
  }
}
