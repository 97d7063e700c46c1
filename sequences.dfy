/** The array library calls the role picker relies on: `Array.prototype.filter`
    and `Array.prototype.sort` with a comparator that orders by a string key. */
module Sequences {
  import opened JsStrings

  /** `s.filter(p)`: the elements satisfying `p`, in their order in `s`. */
  function Filter<T>(s: seq<T>, p: T -> bool): (r: seq<T>)
    ensures |r| <= |s|
  {
    if s == [] then []
    else (if p(s[0]) then [s[0]] else []) + Filter(s[1..], p)
  }

  /** The filter keeps exactly the elements that satisfy the predicate. */
  lemma {:induction false} FilterMembers<T>(s: seq<T>, p: T -> bool)
    ensures forall x :: x in Filter(s, p) ==> x in s && p(x)
    ensures forall x :: x in s && p(x) ==> x in Filter(s, p)
  {
    if s != [] {
      FilterMembers(s[1..], p);
    }
  }

  /** Filtering a concatenation filters each part and keeps them in order. */
  lemma {:induction false} FilterConcat<T>(a: seq<T>, b: seq<T>, p: T -> bool)
    ensures Filter(a + b, p) == Filter(a, p) + Filter(b, p)
  {
    if a != [] {
      var head := if p(a[0]) then [a[0]] else [];
      assert (a + b)[0] == a[0];
      assert (a + b)[1..] == a[1..] + b;
      FilterConcat(a[1..], b, p);
      assert Filter(a + b, p) == head + (Filter(a[1..], p) + Filter(b, p));
      assert Filter(a, p) == head + Filter(a[1..], p);
    } else {
      assert a + b == b;
    }
  }

  /** A filter that every element passes changes nothing. */
  lemma {:induction false} FilterAll<T>(s: seq<T>, p: T -> bool)
    requires forall x :: x in s ==> p(x)
    ensures Filter(s, p) == s
  {
    if s != [] {
      FilterAll(s[1..], p);
      assert [s[0]] + s[1..] == s;
    }
  }

  /** A filter that no element passes leaves nothing. */
  lemma {:induction false} FilterNone<T>(s: seq<T>, p: T -> bool)
    requires forall x :: x in s ==> !p(x)
    ensures Filter(s, p) == []
  {
    if s != [] {
      FilterNone(s[1..], p);
    }
  }

  /** A predicate and its negation split a sequence: every element lands in
      exactly one of the two filters. */
  lemma {:induction false} FilterPartition<T>(s: seq<T>, p: T -> bool, q: T -> bool)
    requires forall x :: q(x) == !p(x)
    ensures multiset(Filter(s, p)) + multiset(Filter(s, q)) == multiset(s)
  {
    if s != [] {
      FilterPartition(s[1..], p, q);
      var x, t := s[0], s[1..];
      assert s == [x] + t;
      var fp, fq := Filter(t, p), Filter(t, q);
      if p(x) {
        assert Filter(s, p) == [x] + fp;
        assert Filter(s, q) == fq;
        calc {
          multiset(Filter(s, p)) + multiset(Filter(s, q));
          multiset([x] + fp) + multiset(fq);
          multiset([x]) + (multiset(fp) + multiset(fq));
          multiset([x]) + multiset(t);
          multiset(s);
        }
      } else {
        assert Filter(s, p) == fp;
        assert Filter(s, q) == [x] + fq;
        calc {
          multiset(Filter(s, p)) + multiset(Filter(s, q));
          multiset(fp) + multiset([x] + fq);
          multiset([x]) + (multiset(fp) + multiset(fq));
          multiset([x]) + multiset(t);
          multiset(s);
        }
      }
    }
  }

  /** Sorted by `key`: no later element's key is below an earlier one's. */
  ghost predicate SortedBy<T>(s: seq<T>, key: T -> string)
  {
    forall i, j :: 0 <= i < j < |s| ==> !Less(key(s[j]), key(s[i]))
  }

  /** Pairwise different values of `f`. */
  ghost predicate DistinctBy<T, K>(s: seq<T>, f: T -> K)
  {
    forall i, j :: 0 <= i < j < |s| ==> f(s[i]) != f(s[j])
  }

  /** With pairwise different values of `f`, a value of `f` picks out one position. */
  lemma DistinctByAt<T, K>(s: seq<T>, f: T -> K, i: nat, j: nat)
    requires DistinctBy(s, f)
    requires i < |s| && j < |s| && f(s[i]) == f(s[j])
    ensures i == j
  {
  }

  /** Inserts `x` before the first element whose key it is below. */
  function Insert<T>(x: T, s: seq<T>, key: T -> string): (r: seq<T>)
    ensures multiset(r) == multiset(s) + multiset{x}
  {
    if s == [] then [x]
    else if Less(key(x), key(s[0])) then [x] + s
    else
      assert s == [s[0]] + s[1..];
      [s[0]] + Insert(x, s[1..], key)
  }

  lemma {:induction false} InsertSorted<T>(x: T, s: seq<T>, key: T -> string)
    requires SortedBy(s, key)
    ensures SortedBy(Insert(x, s, key), key)
  {
    if s == [] {
    } else if Less(key(x), key(s[0])) {
      forall j | 0 <= j < |s|
        ensures !Less(key(s[j]), key(x))
      {
        var kx, k0, kj := key(x), key(s[0]), key(s[j]);
        if kj == k0 {
          LessAsymmetric(kx, k0);
        } else {
          LessTotal(k0, kj);
          LessTransitive(kx, k0, kj);
          LessAsymmetric(kx, kj);
        }
      }
    } else {
      var t := Insert(x, s[1..], key);
      InsertSorted(x, s[1..], key);
      forall e | e in t
        ensures !Less(key(e), key(s[0]))
      {
        assert e in multiset(t);
        if e != x {
          assert e in s[1..];
        }
      }
    }
  }

  lemma {:induction false} InsertDistinct<T, K>(x: T, s: seq<T>, key: T -> string, f: T -> K)
    requires DistinctBy(s, f)
    requires forall e :: e in s ==> f(e) != f(x)
    ensures DistinctBy(Insert(x, s, key), f)
  {
    if s != [] && !Less(key(x), key(s[0])) {
      var t := Insert(x, s[1..], key);
      InsertDistinct(x, s[1..], key, f);
      forall e | e in t
        ensures f(e) != f(s[0])
      {
        assert e in multiset(t);
        if e != x {
          assert e in s[1..];
        }
      }
    }
  }

  /** `s.sort((a, b) => key(a) < key(b) ? -1 : 1)`, as an insertion sort. The
      comparator never reports a tie, so the order of equal keys is left
      open; only the sortedness and the permutation are promised. */
  function SortBy<T>(s: seq<T>, key: T -> string): (r: seq<T>)
    ensures multiset(r) == multiset(s)
  {
    if s == [] then []
    else
      assert s == [s[0]] + s[1..];
      Insert(s[0], SortBy(s[1..], key), key)
  }

  lemma {:induction false} SortBySorted<T>(s: seq<T>, key: T -> string)
    ensures SortedBy(SortBy(s, key), key)
  {
    if s != [] {
      SortBySorted(s[1..], key);
      InsertSorted(s[0], SortBy(s[1..], key), key);
    }
  }

  /** Sorting keeps values that were pairwise different pairwise different. */
  lemma {:induction false} SortByDistinct<T, K>(s: seq<T>, key: T -> string, f: T -> K)
    requires DistinctBy(s, f)
    ensures DistinctBy(SortBy(s, key), f)
  {
    if s != [] {
      var t := SortBy(s[1..], key);
      SortByDistinct(s[1..], key, f);
      forall e | e in t
        ensures f(e) != f(s[0])
      {
        assert e in multiset(t);
        assert e in s[1..];
      }
      InsertDistinct(s[0], t, key, f);
    }
  }
}
