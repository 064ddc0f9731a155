/** The one ordering primitive of the manager: a stable descending sort by a key, as
    `list.sort(key=..., reverse=True)` and `sorted(..., reverse=True)` perform it. */
module StableSorting {
  /** Keys compare lexicographically. */
  datatype Key = Key(major: real, minor: real)

  /** `x` has to stand in front of `y`. */
  predicate Ahead(x: Key, y: Key) {
    x.major > y.major || (x.major == y.major && x.minor > y.minor)
  }

  ghost predicate Sorted<T>(s: seq<T>, key: T -> Key) {
    forall i, k :: 0 <= i < k < |s| ==> !Ahead(key(s[k]), key(s[i]))
  }

  /** Places `x`, which came before everything in `s`, at the first spot its key allows. */
  function Insert<T>(x: T, s: seq<T>, key: T -> Key): seq<T> {
    if s == [] || !Ahead(key(s[0]), key(x)) then [x] + s else [s[0]] + Insert(x, s[1..], key)
  }

  function Sort<T>(s: seq<T>, key: T -> Key): seq<T> {
    if s == [] then [] else Insert(s[0], Sort(s[1..], key), key)
  }

  /** The elements that satisfy `keep`, in order. */
  function Filter<T>(s: seq<T>, keep: T -> bool): seq<T> {
    if s == [] then [] else (if keep(s[0]) then [s[0]] else []) + Filter(s[1..], keep)
  }

  /** The elements whose key is `k`, in order. */
  function OfKey<T>(s: seq<T>, key: T -> Key, k: Key): seq<T> {
    if s == [] then [] else (if key(s[0]) == k then [s[0]] else []) + OfKey(s[1..], key, k)
  }

  lemma {:induction false} FilterConcat<T>(a: seq<T>, b: seq<T>, keep: T -> bool)
    ensures Filter(a + b, keep) == Filter(a, keep) + Filter(b, keep)
  {
    if a == [] {
      assert a + b == b;
    } else {
      FilterConcat(a[1..], b, keep);
      var head := if keep(a[0]) then [a[0]] else [];
      assert (a + b)[0] == a[0] && (a + b)[1..] == a[1..] + b;
      assert Filter(a + b, keep) == head + Filter(a[1..] + b, keep);
      assert Filter(a, keep) == head + Filter(a[1..], keep);
    }
  }

  lemma {:induction false} InsertElements<T>(x: T, s: seq<T>, key: T -> Key)
    ensures multiset(Insert(x, s, key)) == multiset(s) + multiset{x}
  {
    if s == [] || !Ahead(key(s[0]), key(x)) {
    } else {
      InsertElements(x, s[1..], key);
      assert s == [s[0]] + s[1..];
    }
  }

  /** Sorting neither loses nor invents an element. */
  lemma {:induction false} SortElements<T>(s: seq<T>, key: T -> Key)
    ensures multiset(Sort(s, key)) == multiset(s)
    ensures |Sort(s, key)| == |s|
  {
    if s != [] {
      SortElements(s[1..], key);
      InsertElements(s[0], Sort(s[1..], key), key);
      assert s == [s[0]] + s[1..];
    }
    assert |multiset(Sort(s, key))| == |multiset(s)|;
  }

  lemma {:induction false} InsertSorted<T>(x: T, s: seq<T>, key: T -> Key)
    requires Sorted(s, key)
    ensures Sorted(Insert(x, s, key), key)
  {
    if s == [] || !Ahead(key(s[0]), key(x)) {
      var r := [x] + s;
      forall i, k | 0 <= i < k < |r| ensures !Ahead(key(r[k]), key(r[i])) {
        if i == 0 && k > 1 { assert !Ahead(key(s[k - 1]), key(s[0])); }
      }
    } else {
      var t := Insert(x, s[1..], key);
      InsertSorted(x, s[1..], key);
      InsertElements(x, s[1..], key);
      forall k | 0 <= k < |t| ensures !Ahead(key(t[k]), key(s[0])) {
        assert t[k] in multiset(t);
        assert t[k] == x || t[k] in s[1..];
      }
    }
  }

  /** The result is in descending key order. */
  lemma {:induction false} SortSorted<T>(s: seq<T>, key: T -> Key)
    ensures Sorted(Sort(s, key), key)
  {
    if s != [] {
      SortSorted(s[1..], key);
      InsertSorted(s[0], Sort(s[1..], key), key);
    }
  }

  lemma {:induction false} InsertStable<T>(x: T, s: seq<T>, key: T -> Key, k: Key)
    ensures OfKey(Insert(x, s, key), key, k) == OfKey([x] + s, key, k)
  {
    if s == [] || !Ahead(key(s[0]), key(x)) {
    } else {
      InsertStable(x, s[1..], key, k);
      assert ([x] + s)[1..] == s;
      assert ([x] + s[1..])[1..] == s[1..];
    }
  }

  /** Ties keep their input order. */
  lemma {:induction false} SortStable<T>(s: seq<T>, key: T -> Key, k: Key)
    ensures OfKey(Sort(s, key), key, k) == OfKey(s, key, k)
  {
    if s != [] {
      SortStable(s[1..], key, k);
      InsertStable(s[0], Sort(s[1..], key), key, k);
      assert ([s[0]] + Sort(s[1..], key))[1..] == Sort(s[1..], key);
    }
  }

  /** A selection that lies inside one key class is left in place by sorting. */
  lemma {:induction false} SortKeepsClass<T(!new)>(s: seq<T>, key: T -> Key, keep: T -> bool, k: Key)
    requires forall x :: keep(x) ==> key(x) == k
    ensures Filter(Sort(s, key), keep) == Filter(s, keep)
  {
    FilterOfKey(s, key, keep, k);
    FilterOfKey(Sort(s, key), key, keep, k);
    SortStable(s, key, k);
  }

  lemma {:induction false} FilterOfKey<T(!new)>(s: seq<T>, key: T -> Key, keep: T -> bool, k: Key)
    requires forall x :: keep(x) ==> key(x) == k
    ensures Filter(OfKey(s, key, k), keep) == Filter(s, keep)
  {
    if s != [] {
      FilterOfKey(s[1..], key, keep, k);
      FilterConcat(if key(s[0]) == k then [s[0]] else [], OfKey(s[1..], key, k), keep);
    }
  }

  lemma {:induction false} OfKeyMembers<T>(s: seq<T>, key: T -> Key, k: Key, x: T)
    ensures x in OfKey(s, key, k) <==> x in s && key(x) == k
  {
    if s != [] {
      OfKeyMembers(s[1..], key, k, x);
      assert x in s <==> x == s[0] || x in s[1..];
    }
  }

  /** Descending order and input order within ties leave only one possible result, so
      any other stable sorting algorithm returns exactly `Sort(s, key)`. */
  lemma SortUnique<T>(s: seq<T>, t: seq<T>, key: T -> Key)
    requires Sorted(t, key)
    requires forall k :: OfKey(t, key, k) == OfKey(s, key, k)
    ensures t == Sort(s, key)
  {
    SortSorted(s, key);
    forall k ensures OfKey(t, key, k) == OfKey(Sort(s, key), key, k) { SortStable(s, key, k); }
    SameClasses(t, Sort(s, key), key);
  }

  lemma EmptyClasses<T>(s: seq<T>, key: T -> Key)
    requires forall k :: OfKey(s, key, k) == []
    ensures s == []
  {
    if s != [] { OfKeyMembers(s, key, key(s[0]), s[0]); }
  }

  lemma {:induction false} SameClasses<T>(a: seq<T>, b: seq<T>, key: T -> Key)
    requires Sorted(a, key) && Sorted(b, key)
    requires forall k :: OfKey(a, key, k) == OfKey(b, key, k)
    ensures a == b
  {
    if a == [] {
      if b != [] { EmptyClasses(b, key); }
    } else if b == [] {
      EmptyClasses(a, key);
    } else {
      OfKeyMembers(a, key, key(a[0]), a[0]);
      OfKeyMembers(b, key, key(a[0]), a[0]);
      OfKeyMembers(a, key, key(b[0]), b[0]);
      OfKeyMembers(b, key, key(b[0]), b[0]);
      assert OfKey(a, key, key(a[0])) == OfKey(b, key, key(a[0]));
      assert OfKey(a, key, key(b[0])) == OfKey(b, key, key(b[0]));
      assert a[0] in b && b[0] in a;
      assert key(a[0]) == key(b[0]);
      assert OfKey(a, key, key(a[0]))[0] == a[0] && OfKey(b, key, key(a[0]))[0] == b[0];
      forall k ensures OfKey(a[1..], key, k) == OfKey(b[1..], key, k) {
        var head := if key(a[0]) == k then [a[0]] else [];
        assert OfKey(a, key, k) == head + OfKey(a[1..], key, k);
        assert OfKey(b, key, k) == head + OfKey(b[1..], key, k);
        assert OfKey(a[1..], key, k) == OfKey(a, key, k)[|head|..];
        assert OfKey(b[1..], key, k) == OfKey(b, key, k)[|head|..];
        assert OfKey(a, key, k) == OfKey(b, key, k);
      }
      SameClasses(a[1..], b[1..], key);
      assert a == [a[0]] + a[1..] && b == [b[0]] + b[1..];
    }
  }
}
