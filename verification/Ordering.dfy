/**
 The order behind Python's `sorted`: code-point lexicographic strings, and a
 stable insertion sort by a comparison function.  What the rest of the model
 needs is that sorting forgets the order in which the items arrived.
 */
module Ordering {

  predicate StringLe(a: string, b: string)
    decreases a
  {
    a == "" || (b != "" && (a[0] < b[0] || (a[0] == b[0] && StringLe(a[1..], b[1..]))))
  }

  lemma {:induction false} StringLeTotal(a: string, b: string)
    ensures StringLe(a, b) || StringLe(b, a)
    decreases a
  {
    if a != "" && b != "" && a[0] == b[0] {
      StringLeTotal(a[1..], b[1..]);
    }
  }

  lemma {:induction false} StringLeAntisymmetric(a: string, b: string)
    requires StringLe(a, b) && StringLe(b, a)
    ensures a == b
    decreases a
  {
    if a != "" && b != "" {
      StringLeAntisymmetric(a[1..], b[1..]);
      assert a == [a[0]] + a[1..] && b == [b[0]] + b[1..];
    }
  }

  lemma {:induction false} StringLeTransitive(a: string, b: string, c: string)
    requires StringLe(a, b) && StringLe(b, c)
    ensures StringLe(a, c)
    decreases a
  {
    if a != "" && a[0] == b[0] && b[0] == c[0] {
      StringLeTransitive(a[1..], b[1..], c[1..]);
    }
  }

  /** `le` is total and transitive; it may tie distinct items. */
  ghost predicate Preorder<T(!new)>(le: (T, T) -> bool) {
    && (forall x, y :: le(x, y) || le(y, x))
    && (forall x, y, z :: le(x, y) && le(y, z) ==> le(x, z))
  }

  /** No two different items of `s` tie: the sort keys are distinct. */
  ghost predicate DistinctKeys<T>(s: seq<T>, le: (T, T) -> bool) {
    forall x, y :: x in s && y in s && le(x, y) && le(y, x) ==> x == y
  }

  ghost predicate Sorted<T>(s: seq<T>, le: (T, T) -> bool) {
    forall i, j :: 0 <= i < j < |s| ==> le(s[i], s[j])
  }

  /** Inserts before the first item that `x` does not exceed, so equal keys keep their order. */
  function Insert<T>(x: T, s: seq<T>, le: (T, T) -> bool): (r: seq<T>) {
    if s == [] then [x]
    else if le(x, s[0]) then [x] + s
    else [s[0]] + Insert(x, s[1..], le)
  }

  function Sort<T>(s: seq<T>, le: (T, T) -> bool): (r: seq<T>) {
    if s == [] then [] else Insert(s[0], Sort(s[1..], le), le)
  }

  lemma {:induction false} InsertIsPermutation<T>(x: T, s: seq<T>, le: (T, T) -> bool)
    ensures multiset(Insert(x, s, le)) == multiset(s) + multiset{x}
    decreases s
  {
    if s != [] && !le(x, s[0]) {
      InsertIsPermutation(x, s[1..], le);
      assert s == [s[0]] + s[1..];
    }
  }

  /** Sorting neither loses nor invents items. */
  lemma {:induction false} SortIsPermutation<T>(s: seq<T>, le: (T, T) -> bool)
    ensures multiset(Sort(s, le)) == multiset(s)
    ensures |Sort(s, le)| == |s|
    ensures forall x :: x in Sort(s, le) <==> x in s
    decreases s
  {
    if s != [] {
      SortIsPermutation(s[1..], le);
      InsertIsPermutation(s[0], Sort(s[1..], le), le);
      assert s == [s[0]] + s[1..];
    }
    assert |multiset(Sort(s, le))| == |multiset(s)|;
    forall x ensures x in Sort(s, le) <==> x in s {
      assert x in Sort(s, le) <==> x in multiset(Sort(s, le));
      assert x in s <==> x in multiset(s);
    }
  }

  lemma {:induction false} InsertIsSorted<T(!new)>(x: T, s: seq<T>, le: (T, T) -> bool)
    requires Preorder(le) && Sorted(s, le)
    ensures Sorted(Insert(x, s, le), le)
    decreases s
  {
    if s != [] && !le(x, s[0]) {
      InsertIsSorted(x, s[1..], le);
      InsertIsPermutation(x, s[1..], le);
      var r := Insert(x, s[1..], le);
      forall i | 0 <= i < |r| ensures le(s[0], r[i]) {
        assert r[i] in multiset(r);
        assert r[i] == x || r[i] in s[1..];
      }
    }
  }

  lemma {:induction false} SortIsSorted<T(!new)>(s: seq<T>, le: (T, T) -> bool)
    requires Preorder(le)
    ensures Sorted(Sort(s, le), le)
    decreases s
  {
    if s != [] {
      SortIsSorted(s[1..], le);
      InsertIsSorted(s[0], Sort(s[1..], le), le);
    }
  }

  lemma TailMultiset<T>(a: seq<T>)
    requires a != []
    ensures multiset(a[1..]) == multiset(a) - multiset{a[0]}
    ensures forall x :: x in a[1..] ==> x in a
  {
    assert a == [a[0]] + a[1..];
  }

  lemma FirstIsLeast<T>(a: seq<T>, x: T, le: (T, T) -> bool)
    requires Sorted(a, le) && a != [] && x in multiset(a)
    ensures x in a && (x == a[0] || le(a[0], x))
  {
    var i :| 0 <= i < |a| && a[i] == x;
  }

  lemma HeadsAgree<T>(a: seq<T>, b: seq<T>, le: (T, T) -> bool)
    requires multiset(a) == multiset(b) && a != [] && b != []
    requires Sorted(a, le) && Sorted(b, le) && DistinctKeys(a, le)
    ensures a[0] == b[0]
  {
    assert b[0] in multiset(b) && a[0] in multiset(a);
    FirstIsLeast(a, b[0], le);
    FirstIsLeast(b, a[0], le);
  }

  /** A sorted arrangement of items with distinct keys is unique. */
  lemma {:induction false} SortedIsUnique<T>(a: seq<T>, b: seq<T>, le: (T, T) -> bool)
    requires multiset(a) == multiset(b)
    requires Sorted(a, le) && Sorted(b, le) && DistinctKeys(a, le)
    ensures a == b
    decreases a
  {
    assert |a| == |multiset(a)| == |multiset(b)| == |b|;
    if a != [] {
      HeadsAgree(a, b, le);
      TailMultiset(a);
      TailMultiset(b);
      SortedIsUnique(a[1..], b[1..], le);
      assert a == [a[0]] + a[1..] && b == [b[0]] + b[1..];
    }
  }

  /** Sorting forgets the arrival order: any permutation sorts to the same sequence. */
  lemma {:induction false} SortIgnoresOrder<T(!new)>(a: seq<T>, b: seq<T>, le: (T, T) -> bool)
    requires Preorder(le) && DistinctKeys(a, le)
    requires multiset(a) == multiset(b)
    ensures Sort(a, le) == Sort(b, le)
  {
    SortIsPermutation(a, le);
    SortIsPermutation(b, le);
    SortIsSorted(a, le);
    SortIsSorted(b, le);
    SortedIsUnique(Sort(a, le), Sort(b, le), le);
  }

  // ----- What holds of every two items holds after reordering -----

  ghost predicate Pairwise<T>(s: seq<T>, rel: (T, T) -> bool) {
    forall i, j :: 0 <= i < j < |s| ==> rel(s[i], s[j]) && rel(s[j], s[i])
  }

  lemma {:induction false} TwoOccurrences<T>(s: seq<T>, x: T)
    requires multiset(s)[x] >= 2
    ensures exists i, j :: 0 <= i < j < |s| && s[i] == x && s[j] == x
    decreases |s|
  {
    var init, last := s[..|s| - 1], s[|s| - 1];
    assert s == init + [last];
    if last == x {
      assert multiset(init)[x] >= 1 && x in init;
      var i :| 0 <= i < |init| && init[i] == x;
      assert s[i] == x && s[|s| - 1] == x;
    } else {
      TwoOccurrences(init, x);
      var i, j :| 0 <= i < j < |init| && init[i] == x && init[j] == x;
      assert s[i] == x && s[j] == x;
    }
  }

  lemma PairwiseAfterReordering<T(!new)>(a: seq<T>, b: seq<T>, rel: (T, T) -> bool)
    requires multiset(a) == multiset(b) && Pairwise(a, rel)
    ensures Pairwise(b, rel)
  {
    forall i, j | 0 <= i < j < |b| ensures rel(b[i], b[j]) && rel(b[j], b[i]) {
      var x, y := b[i], b[j];
      assert x in multiset(b) && y in multiset(b) && x in a && y in a;
      if x == y {
        assert b == b[..i] + [x] + b[i + 1..j] + [x] + b[j + 1..];
        TwoOccurrences(a, x);
      } else {
        var p :| 0 <= p < |a| && a[p] == x;
        var q :| 0 <= q < |a| && a[q] == y;
        assert rel(a[if p < q then p else q], a[if p < q then q else p]);
      }
    }
  }

  // ----- Items that differ only where the order does not look -----

  /** The comparison cannot tell two related items apart. */
  ghost predicate Blind<T(!new)>(le: (T, T) -> bool, same: (T, T) -> bool) {
    forall x, x', y, y' :: same(x, x') && same(y, y') ==> le(x, y) == le(x', y')
  }

  ghost predicate Pointwise<T>(a: seq<T>, b: seq<T>, same: (T, T) -> bool) {
    |a| == |b| && forall i :: 0 <= i < |a| ==> same(a[i], b[i])
  }

  lemma {:induction false} InsertPointwise<T(!new)>(x: T, y: T, a: seq<T>, b: seq<T>, le: (T, T) -> bool, same: (T, T) -> bool)
    requires Blind(le, same) && same(x, y) && Pointwise(a, b, same)
    ensures Pointwise(Insert(x, a, le), Insert(y, b, le), same)
    decreases a
  {
    if a != [] && !le(x, a[0]) {
      InsertPointwise(x, y, a[1..], b[1..], le, same);
    }
  }

  lemma {:induction false} SortPointwise<T(!new)>(a: seq<T>, b: seq<T>, le: (T, T) -> bool, same: (T, T) -> bool)
    requires Blind(le, same) && Pointwise(a, b, same)
    ensures Pointwise(Sort(a, le), Sort(b, le), same)
    decreases a
  {
    if a != [] {
      SortPointwise(a[1..], b[1..], le, same);
      InsertPointwise(a[0], b[0], Sort(a[1..], le), Sort(b[1..], le), le, same);
    }
  }

  lemma StringLePreorder()
    ensures Preorder(StringLe)
  {
    forall x, y ensures StringLe(x, y) || StringLe(y, x) { StringLeTotal(x, y); }
    forall x, y, z | StringLe(x, y) && StringLe(y, z) ensures StringLe(x, z) { StringLeTransitive(x, y, z); }
  }

  // ----- Sets of identifiers in ascending order, as in `sorted(mapping)` -----

  ghost predicate Ascending(s: seq<string>) {
    forall i, j :: 0 <= i < j < |s| ==> StringLe(s[i], s[j]) && s[i] != s[j]
  }

  predicate IsLeast(m: string, s: set<string>) {
    m in s && forall y :: y in s ==> StringLe(m, y)
  }

  lemma {:induction false} LeastExists(s: set<string>)
    requires s != {}
    ensures exists m :: IsLeast(m, s)
    decreases s
  {
    var x :| x in s;
    StringLeTotal(x, x);
    var rest := s - {x};
    if rest == {} {
      assert forall y :: y in s ==> y == x || y in rest;
      assert IsLeast(x, s);
    } else {
      LeastExists(rest);
      var m :| IsLeast(m, rest);
      StringLeTotal(x, m);
      var least := if StringLe(x, m) then x else m;
      forall y | y in s ensures StringLe(least, y) {
        if y != x && least == x { StringLeTransitive(x, m, y); }
      }
      assert IsLeast(least, s);
    }
  }

  /** The elements of `s` in ascending order. */
  function SortedIds(s: set<string>): (r: seq<string>)
    ensures Ascending(r)
    ensures forall x :: x in r <==> x in s
  {
    if s == {} then [] else
      LeastExists(s);
      LeastIsUnique(s);
      var m :| IsLeast(m, s);
      [m] + SortedIds(s - {m})
  }

  lemma LeastIsUnique(s: set<string>)
    ensures forall m, n :: IsLeast(m, s) && IsLeast(n, s) ==> m == n
  {
    forall m, n | IsLeast(m, s) && IsLeast(n, s) ensures m == n {
      StringLeAntisymmetric(m, n);
    }
  }
}
