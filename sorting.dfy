/**
 * Python's `sorted()` on a list, stated for any total preorder `le`: the
 * result is ordered and is a permutation of the input. Under an order that is
 * also antisymmetric and transitive the sorted list is unique.
 */
module Sorting {
  import opened Text

  ghost predicate Total<T(!new)>(le: (T, T) -> bool) {
    forall a, b :: le(a, b) || le(b, a)
  }

  ghost predicate Transitive<T(!new)>(le: (T, T) -> bool) {
    forall a, b, c :: le(a, b) && le(b, c) ==> le(a, c)
  }

  ghost predicate Antisymmetric<T(!new)>(le: (T, T) -> bool) {
    forall a, b :: le(a, b) && le(b, a) ==> a == b
  }

  /** Each element is ordered before the next. */
  predicate Sorted<T>(s: seq<T>, le: (T, T) -> bool) {
    forall i :: 0 < i < |s| ==> le(s[i - 1], s[i])
  }

  /** Insertion of `x` before the first element it is ordered before. */
  function Insert<T(!new)>(x: T, s: seq<T>, le: (T, T) -> bool): (r: seq<T>)
    requires Total(le)
    requires Sorted(s, le)
    ensures Sorted(r, le)
    ensures |r| == |s| + 1
    ensures multiset(r) == multiset(s) + multiset{x}
    ensures r[0] == x || (s != [] && r[0] == s[0])
    decreases |s|
  {
    if s == [] || le(x, s[0]) then [x] + s
    else
      var t := Insert(x, s[1..], le);
      assert s == [s[0]] + s[1..];
      [s[0]] + t
  }

  /** `sorted(s)` with the comparison `le`. */
  function Sort<T(!new)>(s: seq<T>, le: (T, T) -> bool): (r: seq<T>)
    requires Total(le)
    ensures Sorted(r, le)
    ensures |r| == |s|
    ensures multiset(r) == multiset(s)
    decreases |s|
  {
    if s == [] then []
    else
      assert s == [s[0]] + s[1..];
      Insert(s[0], Sort(s[1..], le), le)
  }

  /** Under a transitive order the first element of a sorted list is below all the others. */
  lemma {:induction false} HeadIsLeast<T(!new)>(s: seq<T>, le: (T, T) -> bool, j: int)
    requires Transitive(le)
    requires Sorted(s, le)
    requires 0 < j < |s|
    ensures le(s[0], s[j])
    decreases j
  {
    if j > 1 {
      HeadIsLeast(s, le, j - 1);
    }
  }

  /** Two sorted permutations of one another start with the same element. */
  lemma SameHead<T(!new)>(a: seq<T>, b: seq<T>, le: (T, T) -> bool)
    requires Transitive(le) && Antisymmetric(le)
    requires Sorted(a, le) && Sorted(b, le)
    requires a != [] && multiset(a) == multiset(b)
    ensures b != [] && a[0] == b[0]
  {
    assert a[0] in multiset(b);
    var i :| 0 <= i < |b| && b[i] == a[0];
    assert b[0] in multiset(a);
    var j :| 0 <= j < |a| && a[j] == b[0];
    if i > 0 { HeadIsLeast(b, le, i); }
    if j > 0 { HeadIsLeast(a, le, j); }
  }

  lemma SameTail<T>(a: seq<T>, b: seq<T>)
    requires a != [] && b != [] && a[0] == b[0]
    requires multiset(a) == multiset(b)
    ensures multiset(a[1..]) == multiset(b[1..])
  {
    assert a == [a[0]] + a[1..] && b == [b[0]] + b[1..];
    assert multiset(a) == multiset{a[0]} + multiset(a[1..]);
    assert multiset(b) == multiset{a[0]} + multiset(b[1..]);
    forall z ensures multiset(a[1..])[z] == multiset(b[1..])[z] {
      assert multiset(a)[z] == multiset{a[0]}[z] + multiset(a[1..])[z];
      assert multiset(b)[z] == multiset{a[0]}[z] + multiset(b[1..])[z];
    }
  }

  /** Two sorted permutations of one another are equal: the result of `sorted` is determined. */
  lemma {:induction false} SortedUnique<T(!new)>(a: seq<T>, b: seq<T>, le: (T, T) -> bool)
    requires Transitive(le) && Antisymmetric(le)
    requires Sorted(a, le) && Sorted(b, le)
    requires multiset(a) == multiset(b)
    ensures a == b
    decreases |a|
  {
    if a == [] {
      assert |b| == |multiset(b)| == 0;
    } else {
      SameHead(a, b, le);
      SameTail(a, b);
      SortedUnique(a[1..], b[1..], le);
      assert a == [a[0]] + a[1..] && b == [b[0]] + b[1..];
    }
  }

  /** Python's string comparison is a total order. */
  lemma StrLeIsOrder()
    ensures Total(StrLe) && Transitive(StrLe) && Antisymmetric(StrLe)
  {
    forall a, b ensures StrLe(a, b) || StrLe(b, a) { StrLeTotal(a, b); }
    forall a, b, c | StrLe(a, b) && StrLe(b, c) ensures StrLe(a, c) { StrLeTransitive(a, b, c); }
    forall a, b | StrLe(a, b) && StrLe(b, a) ensures a == b { StrLeAntisymmetric(a, b); }
  }

  /** Python's comparison of `(name, version)` tuples: by name, then by version. */
  predicate PairLe(p: (string, string), q: (string, string)) {
    if p.0 == q.0 then StrLe(p.1, q.1) else StrLe(p.0, q.0)
  }

  lemma PairLeIsOrder()
    ensures Total(PairLe) && Transitive(PairLe) && Antisymmetric(PairLe)
  {
    forall p: (string, string), q: (string, string) ensures PairLe(p, q) || PairLe(q, p) {
      StrLeTotal(p.0, q.0);
      StrLeTotal(p.1, q.1);
    }
    forall p: (string, string), q: (string, string), r: (string, string) | PairLe(p, q) && PairLe(q, r)
      ensures PairLe(p, r)
    {
      if p.0 == q.0 && q.0 == r.0 {
        StrLeTransitive(p.1, q.1, r.1);
      } else if p.0 != q.0 && q.0 != r.0 {
        StrLeTransitive(p.0, q.0, r.0);
        if p.0 == r.0 {
          StrLeAntisymmetric(p.0, q.0);
        }
      }
    }
    forall p: (string, string), q: (string, string) | PairLe(p, q) && PairLe(q, p) ensures p == q {
      if p.0 == q.0 {
        StrLeAntisymmetric(p.1, q.1);
      } else {
        StrLeAntisymmetric(p.0, q.0);
      }
    }
  }
}
