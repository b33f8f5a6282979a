/**
 * `Array.prototype.sort` with a comparator, and `Array.prototype.reverse`.
 *
 * The engine's sort is stable (required since ES2019). `StableSort` sorts
 * by insertion; with a comparator that is a total preorder on the elements
 * its result is ordered (`StableSortSorted`) and keeps elements ranked level
 * in their input order (`StableSortStable`). A comparator returns a
 * negative, zero or positive number, as in JavaScript.
 */
module Sorting {
  import Base

  /** `x` goes before the first element it does not compare after. */
  function Insert<T>(x: T, s: seq<T>, cmp: (T, T) -> int): (r: seq<T>)
    ensures |r| == |s| + 1
    ensures multiset(r) == multiset(s) + multiset{x}
  {
    if s == [] then [x]
    else if cmp(x, s[0]) <= 0 then [x] + s
    else
      assert s == [s[0]] + s[1..];
      [s[0]] + Insert(x, s[1..], cmp)
  }

  lemma {:induction false} InsertElements<T>(x: T, s: seq<T>, cmp: (T, T) -> int)
    ensures forall y :: y in Insert(x, s, cmp) ==> y == x || y in s
  {
    if s != [] && cmp(x, s[0]) > 0 {
      InsertElements(x, s[1..], cmp);
    }
  }

  /** The stable sort of `s` by `cmp`. */
  function StableSort<T>(s: seq<T>, cmp: (T, T) -> int): (r: seq<T>)
    ensures |r| == |s|
    ensures multiset(r) == multiset(s)
  {
    if s == [] then []
    else
      assert s == [s[0]] + s[1..];
      Insert(s[0], StableSort(s[1..], cmp), cmp)
  }

  predicate Sorted<T>(s: seq<T>, cmp: (T, T) -> int)
  {
    forall i, j :: 0 <= i < j < |s| ==> cmp(s[i], s[j]) <= 0
  }

  /** `cmp` is a total preorder on the elements of `s`: what a JavaScript comparator must be. */
  ghost predicate Consistent<T>(cmp: (T, T) -> int, s: seq<T>)
  {
    && (forall a, b {:trigger Connex(cmp, a, b)} :: a in s && b in s ==> Connex(cmp, a, b))
    && (forall a, b, c {:trigger Transitive(cmp, a, b, c)} :: a in s && b in s && c in s ==> Transitive(cmp, a, b, c))
  }

  predicate Connex<T>(cmp: (T, T) -> int, a: T, b: T)
  {
    cmp(a, b) <= 0 || cmp(b, a) <= 0
  }

  predicate Transitive<T>(cmp: (T, T) -> int, a: T, b: T, c: T)
  {
    cmp(a, b) <= 0 && cmp(b, c) <= 0 ==> cmp(a, c) <= 0
  }

  lemma ConsistentSub<T>(cmp: (T, T) -> int, s: seq<T>, t: seq<T>)
    requires Consistent(cmp, s)
    requires forall x :: x in t ==> x in s
    ensures Consistent(cmp, t)
  {
    forall a, b | a in t && b in t
      ensures Connex(cmp, a, b)
    {
      assert a in s && b in s;
    }
    forall a, b, c | a in t && b in t && c in t
      ensures Transitive(cmp, a, b, c)
    {
      assert a in s && b in s && c in s;
    }
  }

  lemma {:induction false} InsertSorted<T>(x: T, s: seq<T>, cmp: (T, T) -> int)
    requires Sorted(s, cmp)
    requires Consistent(cmp, [x] + s)
    ensures Sorted(Insert(x, s, cmp), cmp)
  {
    if s == [] {
    } else if cmp(x, s[0]) <= 0 {
      forall j | 0 <= j < |s|
        ensures cmp(x, s[j]) <= 0
      {
        if j > 0 {
          assert cmp(s[0], s[j]) <= 0;
          assert x in [x] + s && s[0] in [x] + s && s[j] in [x] + s;
          assert Transitive(cmp, x, s[0], s[j]);
        }
      }
      assert Insert(x, s, cmp) == [x] + s;
    } else {
      assert x in [x] + s && s[0] in [x] + s;
      assert Connex(cmp, x, s[0]);
      ConsistentSub(cmp, [x] + s, [x] + s[1..]);
      InsertSorted(x, s[1..], cmp);
      var r := Insert(x, s[1..], cmp);
      InsertElements(x, s[1..], cmp);
      forall k | 0 <= k < |r|
        ensures cmp(s[0], r[k]) <= 0
      {
        assert r[k] in r;
        if r[k] != x {
          assert r[k] in s[1..];
          var m :| 0 <= m < |s[1..]| && s[1..][m] == r[k];
          assert s[m + 1] == r[k];
        }
      }
      assert Insert(x, s, cmp) == [s[0]] + r;
    }
  }

  /** With a consistent comparator, the result is ordered. */
  lemma {:induction false} StableSortSorted<T>(s: seq<T>, cmp: (T, T) -> int)
    requires Consistent(cmp, s)
    ensures Sorted(StableSort(s, cmp), cmp)
  {
    if s != [] {
      ConsistentSub(cmp, s, s[1..]);
      StableSortSorted(s[1..], cmp);
      var r := StableSort(s[1..], cmp);
      forall y | y in [s[0]] + r
        ensures y in s
      {
        if y != s[0] {
          assert y in multiset(r);
          assert y in multiset(s[1..]);
        }
      }
      ConsistentSub(cmp, s, [s[0]] + r);
      InsertSorted(s[0], r, cmp);
    }
  }

  /** Sorting what is already ordered leaves it as it is; hence sorting twice is sorting once. */
  lemma {:induction false} StableSortOfSorted<T>(s: seq<T>, cmp: (T, T) -> int)
    requires Sorted(s, cmp)
    ensures StableSort(s, cmp) == s
  {
    if s != [] {
      StableSortOfSorted(s[1..], cmp);
      assert s == [s[0]] + s[1..];
    }
  }

  lemma StableSortIdempotent<T>(s: seq<T>, cmp: (T, T) -> int)
    requires Consistent(cmp, s)
    ensures StableSort(StableSort(s, cmp), cmp) == StableSort(s, cmp)
  {
    StableSortSorted(s, cmp);
    StableSortOfSorted(StableSort(s, cmp), cmp);
  }

  // ---------------------------------------------------------------- stability

  /** The elements `cmp` ranks level with `x`: neither goes after the other. */
  function TiedWith<T>(cmp: (T, T) -> int, x: T): T -> bool
  {
    (y: T) => cmp(x, y) <= 0 && cmp(y, x) <= 0
  }

  /** Filtering a list with a head keeps the head when `p` does, then filters the tail. */
  lemma FilterCons<T(!new)>(a: T, t: seq<T>, p: T -> bool)
    ensures Base.Filter([a] + t, p) == (if p(a) then [a] else []) + Base.Filter(t, p)
  {
    assert ([a] + t)[0] == a && ([a] + t)[1..] == t;
  }

  /** Two prefixes, one of them empty, can be written in either order. */
  lemma SwapEmpty<T>(a: seq<T>, b: seq<T>, t: seq<T>)
    requires a == [] || b == []
    ensures a + (b + t) == b + (a + t)
  {
    if a == [] {
      assert a + (b + t) == b + t == b + (a + t);
    } else {
      assert a + (b + t) == a + t == b + (a + t);
    }
  }

  /**
   * Insertion passes over elements `x` goes after, so when `x` is kept by
   * `p` and goes before every kept element, the kept elements are `x` and
   * then those of `s`, in order.
   */
  lemma {:induction false} InsertFilter<T(!new)>(x: T, s: seq<T>, cmp: (T, T) -> int, p: T -> bool)
    requires p(x) ==> forall e :: e in s && p(e) ==> cmp(x, e) <= 0
    ensures Base.Filter(Insert(x, s, cmp), p) == Base.Filter([x] + s, p)
  {
    if s != [] && cmp(x, s[0]) > 0 {
      var rest := s[1..];
      assert s == [s[0]] + rest;
      assert p(x) ==> !p(s[0]);
      InsertFilter(x, rest, cmp, p);
      var kx, k0 := (if p(x) then [x] else []), (if p(s[0]) then [s[0]] else []);
      calc {
        Base.Filter(Insert(x, s, cmp), p);
        { assert Insert(x, s, cmp) == [s[0]] + Insert(x, rest, cmp); }
        Base.Filter([s[0]] + Insert(x, rest, cmp), p);
        { FilterCons(s[0], Insert(x, rest, cmp), p); }
        k0 + Base.Filter(Insert(x, rest, cmp), p);
        { FilterCons(x, rest, p); }
        k0 + (kx + Base.Filter(rest, p));
        { SwapEmpty(k0, kx, Base.Filter(rest, p)); }
        kx + (k0 + Base.Filter(rest, p));
        { FilterCons(s[0], rest, p); }
        kx + Base.Filter(s, p);
        { FilterCons(x, s, p); }
        Base.Filter([x] + s, p);
      }
    }
  }

  /**
   * Stability: the elements `cmp` ranks level with `x` come out in the order
   * they went in, for any `x` the comparator orders consistently with the
   * input (in particular any element of the input).
   */
  lemma {:induction false} StableSortStable<T(!new)>(s: seq<T>, cmp: (T, T) -> int, x: T)
    requires Consistent(cmp, [x] + s)
    ensures Base.Filter(StableSort(s, cmp), TiedWith(cmp, x)) == Base.Filter(s, TiedWith(cmp, x))
  {
    var p := TiedWith(cmp, x);
    if s != [] {
      var rest := s[1..];
      assert s == [s[0]] + rest;
      ConsistentSub(cmp, [x] + s, [x] + rest);
      StableSortStable(rest, cmp, x);
      var r := StableSort(rest, cmp);
      forall e | e in r && p(e) && p(s[0])
        ensures cmp(s[0], e) <= 0
      {
        assert e in multiset(rest);
        assert s[0] in [x] + s && x in [x] + s && e in [x] + s;
        assert Transitive(cmp, s[0], x, e);
      }
      InsertFilter(s[0], r, cmp, p);
      FilterCons(s[0], r, p);
      FilterCons(s[0], rest, p);
    }
  }

  // ---------------------------------------------------------------- reverse

  function Reverse<T>(s: seq<T>): (r: seq<T>)
    ensures |r| == |s|
  {
    if s == [] then [] else Reverse(s[1..]) + [s[0]]
  }

  lemma {:induction false} ReverseAt<T>(s: seq<T>, k: nat)
    requires k < |s|
    ensures Reverse(s)[k] == s[|s| - 1 - k]
  {
    if k < |s| - 1 {
      ReverseAt(s[1..], k);
    }
  }

  lemma ReverseMultiset<T>(s: seq<T>)
    ensures multiset(Reverse(s)) == multiset(s)
  {
    if s != [] {
      ReverseMultiset(s[1..]);
      assert s == [s[0]] + s[1..];
    }
  }

  /** Reversing an ascending order gives the descending one: every pair is compared the other way round. */
  lemma ReverseSorted<T>(s: seq<T>, cmp: (T, T) -> int)
    requires Sorted(s, cmp)
    ensures forall i, j :: 0 <= i < j < |s| ==> cmp(Reverse(s)[j], Reverse(s)[i]) <= 0
  {
    forall i, j | 0 <= i < j < |s|
      ensures cmp(Reverse(s)[j], Reverse(s)[i]) <= 0
    {
      ReverseAt(s, i);
      ReverseAt(s, j);
    }
  }

  /** `s.map(f)`. */
  function MapSeq<S, T>(s: seq<S>, f: S -> T): (r: seq<T>)
    ensures |r| == |s|
  {
    seq(|s|, i requires 0 <= i < |s| => f(s[i]))
  }

  /** Inserting an image by the image order is the image of inserting by an order the map preserves. */
  lemma {:induction false} InsertMap<S, T>(x: S, s: seq<S>, f: S -> T, cmpS: (S, S) -> int, cmpT: (T, T) -> int)
    requires forall y :: y in s ==> cmpT(f(x), f(y)) == cmpS(x, y)
    ensures Insert(f(x), MapSeq(s, f), cmpT) == MapSeq(Insert(x, s, cmpS), f)
  {
    if s != [] {
      var t := MapSeq(s, f);
      assert t[0] == f(s[0]);
      if cmpS(x, s[0]) > 0 {
        assert t[1..] == MapSeq(s[1..], f);
        InsertMap(x, s[1..], f, cmpS, cmpT);
        assert MapSeq([s[0]] + Insert(x, s[1..], cmpS), f) == [f(s[0])] + MapSeq(Insert(x, s[1..], cmpS), f);
      } else {
        assert MapSeq([x] + s, f) == [f(x)] + t;
      }
    }
  }

  /**
   * Sorting commutes with a map that carries the order along: sorting the
   * images by `cmpT` lists the images of the elements sorted by `cmpS`.
   */
  lemma {:induction false} StableSortMap<S, T>(s: seq<S>, f: S -> T, cmpS: (S, S) -> int, cmpT: (T, T) -> int)
    requires forall a, b :: a in s && b in s ==> cmpT(f(a), f(b)) == cmpS(a, b)
    ensures StableSort(MapSeq(s, f), cmpT) == MapSeq(StableSort(s, cmpS), f)
  {
    if s != [] {
      var t := MapSeq(s, f);
      assert t[0] == f(s[0]) && t[1..] == MapSeq(s[1..], f);
      assert forall a :: a in s[1..] ==> a in s;
      StableSortMap(s[1..], f, cmpS, cmpT);
      var sorted := StableSort(s[1..], cmpS);
      forall y | y in sorted
        ensures cmpT(f(s[0]), f(y)) == cmpS(s[0], y)
      {
        assert y in multiset(sorted);
        assert y in s[1..];
      }
      calc {
        StableSort(t, cmpT);
        Insert(t[0], StableSort(t[1..], cmpT), cmpT);
        Insert(f(s[0]), MapSeq(sorted, f), cmpT);
      == { InsertMap(s[0], sorted, f, cmpS, cmpT); }
        MapSeq(Insert(s[0], sorted, cmpS), f);
      }
    }
  }

  // ---------------------------------------------------------------- in place

  /** `a.sort(cmp)`: the array holds the stable sort of what it held. */
  method SortInPlace<T>(a: array<T>, cmp: (T, T) -> int)
    modifies a
    ensures a[..] == StableSort(old(a[..]), cmp)
  {
    var sorted := StableSort(a[..], cmp);
    forall i | 0 <= i < a.Length {
      a[i] := sorted[i];
    }
  }

  /** `a.reverse()`: swaps the ends towards the middle. */
  method ReverseInPlace<T>(a: array<T>)
    modifies a
    ensures a[..] == Reverse(old(a[..]))
  {
    var n := a.Length;
    var i := 0;
    while i < n / 2
      invariant 0 <= i <= n / 2
      invariant forall k :: 0 <= k < i ==> a[k] == old(a[n - 1 - k]) && a[n - 1 - k] == old(a[k])
      invariant forall k :: i <= k < n - i ==> a[k] == old(a[k])
    {
      a[i], a[n - 1 - i] := a[n - 1 - i], a[i];
      i := i + 1;
    }
    ghost var before := old(a[..]);
    forall k | 0 <= k < n
      ensures a[..][k] == Reverse(before)[k]
    {
      ReverseAt(before, k);
    }
  }

  // ---------------------------------------------------------------- the list views' sort step

  /** `[...rows].sort(cmp)`, then `.reverse()` when the direction is descending. */
  function Ordered<T>(rows: seq<T>, cmp: (T, T) -> int, descending: bool): (r: seq<T>)
    ensures multiset(r) == multiset(rows)
  {
    var asc := StableSort(rows, cmp);
    ReverseMultiset(asc);
    if descending then Reverse(asc) else asc
  }

  /** A descending view lists the ascending view backwards. */
  lemma OrderedDescending<T>(rows: seq<T>, cmp: (T, T) -> int)
    ensures Ordered(rows, cmp, true) == Reverse(Ordered(rows, cmp, false))
  {
  }

  /** With a consistent comparator the ascending view is sorted and the descending view is sorted the other way. */
  lemma OrderedSorted<T>(rows: seq<T>, cmp: (T, T) -> int, descending: bool)
    requires Consistent(cmp, rows)
    ensures var r := Ordered(rows, cmp, descending);
            forall i, j :: 0 <= i < j < |r| ==> (if descending then cmp(r[j], r[i]) else cmp(r[i], r[j])) <= 0
  {
    var asc := StableSort(rows, cmp);
    StableSortSorted(rows, cmp);
    if descending {
      ReverseSorted(asc, cmp);
    }
  }

  /** The sort step of the list views: sorts a copy, so the rows given are not touched. */
  method SortCopy<T>(rows: seq<T>, cmp: (T, T) -> int, descending: bool) returns (sorted: seq<T>)
    ensures sorted == Ordered(rows, cmp, descending)
  {
    var a := new T[|rows|](i requires 0 <= i < |rows| => rows[i]);
    assert a[..] == rows;
    SortInPlace(a, cmp);
    if descending {
      ReverseInPlace(a);
    }
    sorted := a[..];
  }
}
