/** Facts about taking a prefix of a sequence in descending order of some value, and about selecting from a
    sorted sequence. */
module TopSelection {
  import opened ClusterTypes
  import opened StableSorting

  ghost predicate Descending<T>(s: seq<T>, value: T -> real) {
    forall i, k :: 0 <= i < k < |s| ==> value(s[i]) >= value(s[k])
  }

  function Total<T>(s: seq<T>, value: T -> real): real {
    if s == [] then 0.0 else value(s[0]) + Total(s[1..], value)
  }

  function Count<T>(s: seq<T>, p: T -> bool): nat {
    if s == [] then 0 else (if p(s[0]) then 1 else 0) + Count(s[1..], p)
  }

  lemma WithoutTail<T>(s: seq<T>, i: nat)
    requires 0 < i < |s|
    ensures Without(s, i)[0] == s[0] && Without(s, i)[1..] == Without(s[1..], i - 1)
  {
  }

  lemma {:induction false} TotalWithout<T>(s: seq<T>, value: T -> real, i: nat)
    requires i < |s|
    ensures Total(Without(s, i), value) == Total(s, value) - value(s[i])
  {
    if i == 0 {
      assert Without(s, 0) == s[1..];
    } else {
      TotalWithout(s[1..], value, i - 1);
      WithoutTail(s, i);
    }
  }

  lemma {:induction false} CountWithout<T>(s: seq<T>, p: T -> bool, i: nat)
    requires i < |s|
    ensures Count(s, p) == Count(Without(s, i), p) + (if p(s[i]) then 1 else 0)
  {
    if i == 0 {
      assert Without(s, 0) == s[1..];
    } else {
      CountWithout(s[1..], p, i - 1);
      WithoutTail(s, i);
    }
  }

  lemma {:induction false} CountConcat<T>(a: seq<T>, b: seq<T>, p: T -> bool)
    ensures Count(a + b, p) == Count(a, p) + Count(b, p)
  {
    if a == [] {
      assert a + b == b;
    } else {
      CountConcat(a[1..], b, p);
      assert (a + b)[0] == a[0] && (a + b)[1..] == a[1..] + b;
    }
  }

  /** Counting does not depend on the order. */
  lemma {:induction false} CountElements<T>(a: seq<T>, b: seq<T>, p: T -> bool)
    requires multiset(a) == multiset(b)
    ensures Count(a, p) == Count(b, p)
  {
    if a == [] {
      assert |multiset(b)| == 0;
    } else {
      assert a[0] in multiset(b);
      var i :| 0 <= i < |b| && b[i] == a[0];
      assert a == [a[0]] + a[1..];
      CountElements(a[1..], Without(b, i), p);
      CountWithout(b, p, i);
    }
  }

  lemma {:induction false} CountNone<T>(s: seq<T>, p: T -> bool)
    requires forall i :: 0 <= i < |s| ==> !p(s[i])
    ensures Count(s, p) == 0
  {
    if s != [] { CountNone(s[1..], p); }
  }

  lemma {:induction false} CountSome<T>(s: seq<T>, p: T -> bool, i: nat)
    requires i < |s| && p(s[i])
    ensures Count(s, p) >= 1
  {
    if i > 0 { CountSome(s[1..], p, i - 1); }
  }

  lemma {:induction false} CountFinds<T>(s: seq<T>, p: T -> bool) returns (i: nat)
    requires Count(s, p) >= 1
    ensures i < |s| && p(s[i])
  {
    if p(s[0]) { i := 0; } else { i := CountFinds(s[1..], p); i := i + 1; }
  }

  lemma SubsetSize<T>(a: seq<T>, b: seq<T>)
    requires multiset(a) <= multiset(b)
    ensures |a| <= |b|
  {
    assert multiset(b) == multiset(a) + (multiset(b) - multiset(a));
    assert |multiset(a)| <= |multiset(b)|;
  }

  /** A value-descending sequence starts with its best choice, whatever the size of the choice. */
  lemma {:induction false} BestPrefix<T>(sorted: seq<T>, value: T -> real, choice: seq<T>)
    requires Descending(sorted, value)
    requires multiset(choice) <= multiset(sorted)
    ensures |choice| <= |sorted|
    ensures Total(choice, value) <= Total(sorted[..|choice|], value)
    decreases |sorted|
  {
    SubsetSize(choice, sorted);
    if choice != [] {
      var i := Worst(sorted, value, choice);
      BestPrefix(sorted[1..], value, Without(choice, i));
      TotalWithout(choice, value, i);
      assert sorted[..|choice|][0] == sorted[0] && sorted[..|choice|][1..] == sorted[1..][..|choice| - 1];
    }
  }

  /** An element of the choice that may be traded for the first of the sequence. */
  lemma Worst<T>(sorted: seq<T>, value: T -> real, choice: seq<T>) returns (i: nat)
    requires Descending(sorted, value) && sorted != [] && choice != []
    requires multiset(choice) <= multiset(sorted)
    ensures i < |choice| && value(choice[i]) <= value(sorted[0])
    ensures multiset(Without(choice, i)) <= multiset(sorted[1..])
  {
    if sorted[0] in choice {
      i :| 0 <= i < |choice| && choice[i] == sorted[0];
    } else {
      i := 0;
      assert choice[0] in multiset(choice);
      assert choice[0] in multiset(sorted);
      var k :| 0 <= k < |sorted| && sorted[k] == choice[0];
    }
    TradedAway(sorted, choice, i);
  }

  lemma TradedAway<T>(sorted: seq<T>, choice: seq<T>, i: nat)
    requires sorted != [] && i < |choice| && multiset(choice) <= multiset(sorted)
    requires choice[i] == sorted[0] || sorted[0] !in choice
    ensures multiset(Without(choice, i)) <= multiset(sorted[1..])
  {
    assert sorted == [sorted[0]] + sorted[1..];
  }

  /** When everything satisfying `p` stands in front, a prefix takes as many of those as it can. */
  lemma {:induction false} CountInFront<T>(s: seq<T>, p: T -> bool, m: nat)
    requires m <= |s|
    requires forall i, k :: 0 <= i < k < |s| && p(s[k]) ==> p(s[i])
    ensures Count(s[..m], p) == if m <= Count(s, p) then m else Count(s, p)
  {
    if m > 0 {
      assert s[..m][0] == s[0] && s[..m][1..] == s[1..][..m - 1];
      CountInFront(s[1..], p, m - 1);
      if !p(s[0]) { CountNone(s[1..], p); }
    }
  }

  lemma {:induction false} OfKeyConcat<T>(a: seq<T>, b: seq<T>, key: T -> Key, k: Key)
    ensures OfKey(a + b, key, k) == OfKey(a, key, k) + OfKey(b, key, k)
  {
    if a == [] {
      assert a + b == b;
    } else {
      OfKeyConcat(a[1..], b, key, k);
      var head := if key(a[0]) == k then [a[0]] else [];
      assert (a + b)[0] == a[0] && (a + b)[1..] == a[1..] + b;
      assert OfKey(a + b, key, k) == head + OfKey(a[1..] + b, key, k);
      assert OfKey(a, key, k) == head + OfKey(a[1..], key, k);
    }
  }

  /** The elements of one key in a prefix are a prefix of the elements of that key. */
  lemma OfKeyPrefix<T>(s: seq<T>, m: nat, key: T -> Key, k: Key)
    requires m <= |s|
    ensures OfKey(s[..m], key, k) <= OfKey(s, key, k)
  {
    OfKeyConcat(s[..m], s[m..], key, k);
    assert s == s[..m] + s[m..];
  }

  lemma OccursOnce<T>(s: seq<T>, x: nat)
    requires x < |s| && forall i, k :: 0 <= i < k < |s| ==> s[i] != s[k]
    ensures multiset(s)[s[x]] == 1
  {
    assert s == s[..x] + [s[x]] + s[x + 1..];
    assert s[x] !in s[..x] && s[x] !in s[x + 1..];
  }

  /** A sub-multiset of a repetition-free sequence is repetition-free. */
  lemma StillDistinct<T>(s: seq<T>, r: seq<T>)
    requires forall i, k :: 0 <= i < k < |s| ==> s[i] != s[k]
    requires multiset(r) <= multiset(s)
    ensures forall i :: 0 <= i < |r| ==> r[i] in s
    ensures forall i, k :: 0 <= i < k < |r| ==> r[i] != r[k]
  {
    forall i | 0 <= i < |r| ensures r[i] in s { assert r[i] in multiset(r); }
    forall i, k | 0 <= i < k < |r| ensures r[i] != r[k] {
      if r[i] == r[k] {
        assert multiset(r)[r[i]] >= 2 by {
          assert r == r[..i] + [r[i]] + r[i + 1..k] + [r[k]] + r[k + 1..];
        }
        var x :| 0 <= x < |s| && s[x] == r[i];
        OccursOnce(s, x);
      }
    }
  }

  // ---------- Sorting and selecting ----------

  lemma {:induction false} FilterMembers<T>(s: seq<T>, keep: T -> bool, x: T)
    ensures x in Filter(s, keep) <==> x in s && keep(x)
  {
    if s != [] { FilterMembers(s[1..], keep, x); }
  }

  lemma {:induction false} SelectionSorted<T>(s: seq<T>, key: T -> Key, keep: T -> bool)
    requires Sorted(s, key)
    ensures Sorted(Filter(s, keep), key)
  {
    if s != [] {
      SelectionSorted(s[1..], key, keep);
      var rest := Filter(s[1..], keep);
      if keep(s[0]) {
        forall i | 0 <= i < |rest| ensures !Ahead(key(rest[i]), key(s[0])) {
          FilterMembers(s[1..], keep, rest[i]);
          var k :| 0 <= k < |s[1..]| && s[1..][k] == rest[i];
        }
      }
    }
  }

  lemma {:induction false} SelectionOfKey<T>(s: seq<T>, key: T -> Key, keep: T -> bool, k: Key)
    ensures OfKey(Filter(s, keep), key, k) == Filter(OfKey(s, key, k), keep)
  {
    if s != [] {
      SelectionOfKey(s[1..], key, keep, k);
      var head := if keep(s[0]) then [s[0]] else [];
      var first := if key(s[0]) == k then [s[0]] else [];
      OfKeyConcat(head, Filter(s[1..], keep), key, k);
      FilterConcat(first, OfKey(s[1..], key, k), keep);
    }
  }

  /** Selecting from a sorted sequence is sorting the selection. */
  lemma SelectSorted<T>(s: seq<T>, key: T -> Key, keep: T -> bool)
    ensures Filter(Sort(s, key), keep) == Sort(Filter(s, keep), key)
  {
    SortSorted(s, key);
    SelectionSorted(Sort(s, key), key, keep);
    forall k ensures OfKey(Filter(Sort(s, key), keep), key, k) == OfKey(Filter(s, keep), key, k) {
      SelectionOfKey(Sort(s, key), key, keep, k);
      SelectionOfKey(s, key, keep, k);
      SortStable(s, key, k);
    }
    SortUnique(Filter(s, keep), Filter(Sort(s, key), keep), key);
  }
}
