/** The order in which a `java.util.HashMap` (and the multimaps built on
    one) iterates its keys: bucket by bucket, and within one bucket in the
    order the keys were put. The bucket of a key is a parameter, since
    `String.hashCode` and the table capacity are not computed here. */
module HashMapOrder {
  import opened Common
  import opened LinkedMaps

  /** The values of a key-to-list map, list after list. */
  function Flatten<T(!new)>(values: seq<seq<T>>): (r: seq<T>)
    ensures forall i :: i in r <==> exists k :: 0 <= k < |values| && i in values[k]
  {
    if values == [] then []
    else
      var rest := Flatten(values[1..]);
      assert forall k :: 1 <= k < |values| ==> values[k] == values[1..][k - 1];
      values[0] + rest
  }

  /** Every key's bucket is at most the buckets of the keys after it. */
  predicate BucketSorted(bucket: string -> int, s: seq<string>)
    decreases |s|
  {
    s == [] || ((forall y :: y in s[1..] ==> bucket(s[0]) <= bucket(y)) && BucketSorted(bucket, s[1..]))
  }

  /** The keys of `s` that fall in bucket `b`, in their order in `s`. */
  function InBucket(bucket: string -> int, b: int, s: seq<string>): seq<string>
    decreases |s|
  {
    if s == [] then []
    else if bucket(s[0]) == b then [s[0]] + InBucket(bucket, b, s[1..])
    else InBucket(bucket, b, s[1..])
  }

  /** The order a HashMap iterates keys put in the order `keys`: a stable
      sort by bucket index. */
  function HashOrder(bucket: string -> int, keys: seq<string>): (r: seq<string>)
    ensures multiset(r) == multiset(keys)
    ensures BucketSorted(bucket, r)
  {
    if keys == [] then []
    else
      var front := keys[..|keys| - 1];
      assert keys == front + [keys[|keys| - 1]];
      InsertKeepsSorted(bucket, keys[|keys| - 1], HashOrder(bucket, front));
      InsertByBucket(bucket, keys[|keys| - 1], HashOrder(bucket, front))
  }

  /** A key put after `sorted` goes after every key of a bucket not above
      its own. */
  function InsertByBucket(bucket: string -> int, k: string, sorted: seq<string>): (r: seq<string>)
    ensures multiset(r) == multiset(sorted) + multiset{k}
  {
    if sorted == [] then [k]
    else if bucket(sorted[0]) <= bucket(k) then
      assert sorted == [sorted[0]] + sorted[1..];
      [sorted[0]] + InsertByBucket(bucket, k, sorted[1..])
    else [k] + sorted
  }

  lemma {:induction false} InsertKeepsSorted(bucket: string -> int, k: string, sorted: seq<string>)
    requires BucketSorted(bucket, sorted)
    ensures BucketSorted(bucket, InsertByBucket(bucket, k, sorted))
    decreases |sorted|
  {
    var r := InsertByBucket(bucket, k, sorted);
    if sorted == [] {
      assert r[1..] == [];
    } else if bucket(sorted[0]) <= bucket(k) {
      var rest := InsertByBucket(bucket, k, sorted[1..]);
      InsertKeepsSorted(bucket, k, sorted[1..]);
      forall x | x in rest ensures bucket(sorted[0]) <= bucket(x) {
        assert x in multiset(rest);
      }
      assert r[1..] == rest;
    } else {
      assert r[1..] == sorted;
      assert forall y :: y in sorted ==> y == sorted[0] || y in sorted[1..];
    }
  }

  /** Keys in one bucket keep the order they were put in. */
  lemma {:induction false} HashOrderKeepsBucketOrder(bucket: string -> int, keys: seq<string>, b: int)
    ensures InBucket(bucket, b, HashOrder(bucket, keys)) == InBucket(bucket, b, keys)
    decreases |keys|
  {
    if keys != [] {
      var front, last := keys[..|keys| - 1], keys[|keys| - 1];
      assert keys == front + [last];
      HashOrderKeepsBucketOrder(bucket, front, b);
      InsertKeepsBucketOrder(bucket, last, HashOrder(bucket, front), b);
      InBucketAppend(bucket, b, front, last);
    }
  }

  lemma {:induction false} InsertKeepsBucketOrder(bucket: string -> int, k: string, sorted: seq<string>, b: int)
    requires BucketSorted(bucket, sorted)
    ensures InBucket(bucket, b, InsertByBucket(bucket, k, sorted))
         == InBucket(bucket, b, sorted) + (if bucket(k) == b then [k] else [])
    decreases |sorted|
  {
    var r := InsertByBucket(bucket, k, sorted);
    if sorted == [] {
      assert r[1..] == [];
    } else if bucket(sorted[0]) <= bucket(k) {
      var rest := InsertByBucket(bucket, k, sorted[1..]);
      InsertKeepsBucketOrder(bucket, k, sorted[1..], b);
      assert r == [sorted[0]] + rest && r[1..] == rest;
    } else {
      assert r == [k] + sorted && r[1..] == sorted;
      if bucket(k) == b {
        assert forall y :: y in sorted ==> y == sorted[0] || y in sorted[1..];
        NoneInBucket(bucket, b, sorted);
      }
    }
  }

  lemma {:induction false} NoneInBucket(bucket: string -> int, b: int, s: seq<string>)
    requires forall y :: y in s ==> bucket(y) != b
    ensures InBucket(bucket, b, s) == []
    decreases |s|
  {
    if s != [] {
      assert forall y :: y in s[1..] ==> y in s;
      NoneInBucket(bucket, b, s[1..]);
    }
  }

  lemma {:induction false} InBucketAppend(bucket: string -> int, b: int, s: seq<string>, x: string)
    ensures InBucket(bucket, b, s + [x]) == InBucket(bucket, b, s) + (if bucket(x) == b then [x] else [])
    decreases |s|
  {
    if s == [] {
      assert [x][1..] == [];
    } else {
      assert (s + [x])[1..] == s[1..] + [x];
      InBucketAppend(bucket, b, s[1..], x);
    }
  }

  /** The lists stored under `ks`, list after list. */
  function ValuesFlat<T(!new)>(ks: seq<string>, m: map<string, seq<T>>): (r: seq<T>)
    requires forall k :: k in ks ==> k in m
  {
    Flatten(ValuesOf(ks, m))
  }

  lemma {:induction false} ValuesFlatCons<T(!new)>(x: string, s: seq<string>, m: map<string, seq<T>>)
    requires x in m && forall k :: k in s ==> k in m
    ensures ValuesFlat([x] + s, m) == m[x] + ValuesFlat(s, m)
  {
    assert ([x] + s)[1..] == s;
    var vs := ValuesOf([x] + s, m);
    assert vs == [m[x]] + ValuesOf(s, m);
    assert vs[1..] == ValuesOf(s, m);
  }

  lemma {:induction false} ValuesFlatAppend<T(!new)>(s: seq<string>, x: string, m: map<string, seq<T>>)
    requires x in m && forall k :: k in s ==> k in m
    ensures ValuesFlat(s + [x], m) == ValuesFlat(s, m) + m[x]
    decreases |s|
  {
    if s == [] {
      assert s + [x] == [x] + [];
      ValuesFlatCons(x, [], m);
    } else {
      assert s + [x] == [s[0]] + (s[1..] + [x]);
      assert s == [s[0]] + s[1..];
      ValuesFlatAppend(s[1..], x, m);
      ValuesFlatCons(s[0], s[1..] + [x], m);
      ValuesFlatCons(s[0], s[1..], m);
    }
  }

  lemma {:induction false} InsertKeepsKeys(bucket: string -> int, k: string, sorted: seq<string>)
    requires BucketSorted(bucket, sorted)
    ensures forall x :: x in InsertByBucket(bucket, k, sorted) ==> x == k || x in sorted
  {
    var r := InsertByBucket(bucket, k, sorted);
    forall x | x in r ensures x == k || x in sorted {
      assert x in multiset(r);
    }
  }

  lemma {:induction false} InsertKeepsValues<T(!new)>(bucket: string -> int, k: string, sorted: seq<string>, m: map<string, seq<T>>)
    requires BucketSorted(bucket, sorted)
    requires k in m && forall x :: x in sorted ==> x in m
    requires forall x :: x in InsertByBucket(bucket, k, sorted) ==> x in m
    ensures multiset(ValuesFlat(InsertByBucket(bucket, k, sorted), m))
         == multiset(ValuesFlat(sorted, m)) + multiset(m[k])
    decreases |sorted|
  {
    var r := InsertByBucket(bucket, k, sorted);
    if sorted == [] {
      assert r == [k] + [];
      ValuesFlatCons(k, [], m);
    } else if bucket(sorted[0]) <= bucket(k) {
      var rest := InsertByBucket(bucket, k, sorted[1..]);
      assert r == [sorted[0]] + rest;
      assert forall x :: x in rest ==> x in r;
      InsertKeepsValues(bucket, k, sorted[1..], m);
      ValuesFlatCons(sorted[0], rest, m);
      assert sorted == [sorted[0]] + sorted[1..];
      ValuesFlatCons(sorted[0], sorted[1..], m);
    } else {
      assert r == [k] + sorted;
      ValuesFlatCons(k, sorted, m);
    }
  }

  /** Taking the keys in hash order takes the same lists, as often. */
  lemma {:induction false} HashOrderKeepsValues<T(!new)>(bucket: string -> int, keys: seq<string>, m: map<string, seq<T>>)
    requires forall k :: k in keys ==> k in m
    ensures forall k :: k in HashOrder(bucket, keys) ==> k in m
    ensures multiset(ValuesFlat(HashOrder(bucket, keys), m)) == multiset(ValuesFlat(keys, m))
    decreases |keys|
  {
    if keys == [] {
    } else {
      var front, last := keys[..|keys| - 1], keys[|keys| - 1];
      assert keys == front + [last];
      assert forall k :: k in front ==> k in keys;
      HashOrderKeepsValues(bucket, front, m);
      InsertKeepsKeys(bucket, last, HashOrder(bucket, front));
      InsertKeepsValues(bucket, last, HashOrder(bucket, front), m);
      ValuesFlatAppend(front, last, m);
    }
  }

  /** `values()` of a multimap over a HashMap: every value of every key,
      taken key by key in the map's iteration order, so the same values as
      in put order, as often. */
  function IteratedValues<T(!new)>(bucket: string -> int, m: LinkedMap<string, seq<T>>): (r: seq<T>)
    requires m.Valid()
    ensures multiset(r) == multiset(Flatten(m.Values()))
  {
    HashOrderKeepsValues(bucket, m.keys, m.entries);
    ValuesFlat(HashOrder(bucket, m.keys), m.entries)
  }
}
