/** The order of strings by character, and sorting by a string key. */
module Lexicographic {
  predicate LexLe(a: string, b: string) {
    a == [] || (b != [] && (a[0] < b[0] || (a[0] == b[0] && LexLe(a[1..], b[1..]))))
  }

  /** `a` is an initial part of `b`, or smaller where they first differ. */
  ghost predicate NoLater(a: string, b: string) {
    a <= b || exists k: nat :: SmallerAt(a, b, k)
  }

  predicate SmallerAt(a: string, b: string, k: nat) { k < |a| && k < |b| && a[..k] == b[..k] && a[k] < b[k] }

  lemma {:induction false} LexSmaller(a: string, b: string) returns (k: nat)
    requires LexLe(a, b) && !(a <= b)
    ensures SmallerAt(a, b, k)
  {
    if a[0] < b[0] {
      k := 0;
    } else {
      assert a == [a[0]] + a[1..] && b == [b[0]] + b[1..];
      k := LexSmaller(a[1..], b[1..]);
      assert a[..k + 1] == [a[0]] + a[1..][..k] && b[..k + 1] == [b[0]] + b[1..][..k];
      k := k + 1;
    }
  }

  lemma {:induction false} SmallerLex(a: string, b: string, k: nat)
    requires SmallerAt(a, b, k)
    ensures LexLe(a, b)
  {
    if k > 0 {
      assert a[0] == a[..k][0] == b[..k][0] == b[0];
      assert a[1..][..k - 1] == a[..k][1..] && b[1..][..k - 1] == b[..k][1..];
      SmallerLex(a[1..], b[1..], k - 1);
    }
  }

  /** The order is the ascending one: by the first character that differs. */
  lemma LexExact(a: string, b: string)
    ensures LexLe(a, b) <==> NoLater(a, b)
  {
    if a <= b {
      LexPrefix(a, b[|a|..]);
      assert b == a + b[|a|..];
    } else if LexLe(a, b) {
      var k := LexSmaller(a, b);
    } else {
      hide LexLe;
      if k: nat :| SmallerAt(a, b, k) { SmallerLex(a, b, k); }
    }
  }

  /** Every key is no later than those after it. */
  ghost predicate Ascending<T>(xs: seq<T>, key: T -> string) {
    forall i, j :: 0 <= i < j < |xs| ==> NoLater(key(xs[i]), key(xs[j]))
  }

  lemma SortedAscends<T>(xs: seq<T>, key: T -> string)
    requires SortedBy(xs, key)
    ensures Ascending(xs, key)
  {
    forall i, j | 0 <= i < j < |xs| ensures NoLater(key(xs[i]), key(xs[j])) {
      LexExact(key(xs[i]), key(xs[j]));
    }
  }

  lemma {:induction false} LexTotal(a: string, b: string)
    ensures LexLe(a, b) || LexLe(b, a)
  {
    if a != [] && b != [] { LexTotal(a[1..], b[1..]); }
  }

  lemma {:induction false} LexAntisymmetric(a: string, b: string)
    requires LexLe(a, b) && LexLe(b, a)
    ensures a == b
  {
    if a != [] && b != [] {
      LexAntisymmetric(a[1..], b[1..]);
      assert a == [a[0]] + a[1..] && b == [b[0]] + b[1..];
    }
  }

  lemma {:induction false} LexTransitive(a: string, b: string, c: string)
    requires LexLe(a, b) && LexLe(b, c)
    ensures LexLe(a, c)
  {
    if a != [] && a[0] == b[0] == c[0] { LexTransitive(a[1..], b[1..], c[1..]); }
  }

  lemma {:induction false} LexPrefix(a: string, b: string)
    ensures LexLe(a, a + b)
  {
    if a != [] {
      assert (a + b)[1..] == a[1..] + b;
      LexPrefix(a[1..], b);
    }
  }

  ghost predicate SortedBy<T>(xs: seq<T>, key: T -> string) {
    forall i, j :: 0 <= i < j < |xs| ==> LexLe(key(xs[i]), key(xs[j]))
  }

  function InsertBy<T>(xs: seq<T>, x: T, key: T -> string): seq<T> {
    if xs == [] || LexLe(key(xs[|xs| - 1]), key(x)) then xs + [x]
    else InsertBy(xs[..|xs| - 1], x, key) + [xs[|xs| - 1]]
  }

  function SortBy<T>(xs: seq<T>, key: T -> string): seq<T> {
    if xs == [] then [] else InsertBy(SortBy(xs[..|xs| - 1], key), xs[|xs| - 1], key)
  }

  lemma {:induction false} InsertBySorts<T>(xs: seq<T>, x: T, key: T -> string)
    requires SortedBy(xs, key)
    ensures multiset(InsertBy(xs, x, key)) == multiset(xs) + multiset{x}
    ensures SortedBy(InsertBy(xs, x, key), key)
    decreases |xs|
  {
    if xs != [] {
      var front, last := xs[..|xs| - 1], xs[|xs| - 1];
      assert xs == front + [last];
      if LexLe(key(last), key(x)) {
        forall i | 0 <= i < |xs| ensures LexLe(key(xs[i]), key(x)) {
          if i < |xs| - 1 { LexTransitive(key(xs[i]), key(last), key(x)); }
        }
      } else {
        LexTotal(key(last), key(x));
        InsertBySorts(front, x, key);
        var put := InsertBy(front, x, key);
        forall i | 0 <= i < |put| ensures LexLe(key(put[i]), key(last)) {
          assert put[i] in multiset(put);
        }
      }
    }
  }

  lemma {:induction false} SortBySorts<T>(xs: seq<T>, key: T -> string)
    ensures multiset(SortBy(xs, key)) == multiset(xs) && SortedBy(SortBy(xs, key), key)
  {
    if xs != [] {
      var front, last := xs[..|xs| - 1], xs[|xs| - 1];
      assert xs == front + [last];
      SortBySorts(front, key);
      InsertBySorts(SortBy(front, key), last, key);
    }
  }

  /** Two elements of the sequence have the same key only if they are the same. */
  ghost predicate KeysDistinct<T>(xs: seq<T>, key: T -> string) {
    forall i, j :: 0 <= i < j < |xs| ==> key(xs[i]) != key(xs[j])
  }

  /** In a sorted sequence the key of any element is at most that of the last. */
  lemma LastIsGreatest<T>(xs: seq<T>, x: T, key: T -> string)
    requires SortedBy(xs, key) && x in xs
    ensures LexLe(key(x), key(xs[|xs| - 1]))
  {
    var i :| 0 <= i < |xs| && xs[i] == x;
    LexTotal(key(x), key(x));
  }

  lemma WithoutLast<T>(xs: seq<T>, key: T -> string)
    requires xs != [] && SortedBy(xs, key) && KeysDistinct(xs, key)
    ensures SortedBy(xs[..|xs| - 1], key) && KeysDistinct(xs[..|xs| - 1], key)
  {
  }

  lemma SortedFront<T>(xs: seq<T>, key: T -> string)
    requires xs != [] && SortedBy(xs, key)
    ensures SortedBy(xs[..|xs| - 1], key)
  {
  }

  lemma KeyDecides<T>(xs: seq<T>, x: T, y: T, key: T -> string)
    requires KeysDistinct(xs, key) && x in xs && y in xs && key(x) == key(y)
    ensures x == y
  {
  }

  lemma FrontMultiset<T>(xs: seq<T>)
    requires xs != []
    ensures multiset(xs[..|xs| - 1]) == multiset(xs) - multiset{xs[|xs| - 1]}
    ensures xs == xs[..|xs| - 1] + [xs[|xs| - 1]]
  {
    assert xs == xs[..|xs| - 1] + [xs[|xs| - 1]];
  }

  /** A sorted sequence with distinct keys is determined by its elements. */
  lemma {:induction false} SortedUnique<T>(xs: seq<T>, ys: seq<T>, key: T -> string)
    requires multiset(xs) == multiset(ys) && SortedBy(xs, key) && SortedBy(ys, key)
    requires KeysDistinct(xs, key)
    ensures xs == ys
    decreases |xs|
  {
    hide LexLe, SortedBy, KeysDistinct;
    assert |xs| == |multiset(xs)| == |multiset(ys)| == |ys|;
    if xs != [] {
      var n := |xs| - 1;
      assert xs[n] in multiset(ys) && ys[n] in multiset(xs);
      LastIsGreatest(ys, xs[n], key);
      LastIsGreatest(xs, ys[n], key);
      LexAntisymmetric(key(xs[n]), key(ys[n]));
      KeyDecides(xs, xs[n], ys[n], key);
      FrontMultiset(xs);
      FrontMultiset(ys);
      WithoutLast(xs, key);
      SortedFront(ys, key);
      SortedUnique(xs[..n], ys[..n], key);
    }
  }

  /** Removing the same element from two permutations of each other leaves permutations. */
  lemma RemoveMatching<T>(a: seq<T>, b: seq<T>, k: nat)
    requires multiset(a) == multiset(b) && a != [] && k < |b| && b[k] == a[0]
    ensures multiset(a[1..]) == multiset(b[..k] + b[k + 1..])
  {
    assert a == [a[0]] + a[1..];
    assert b == b[..k] + [b[k]] + b[k + 1..];
    forall x ensures multiset(a[1..])[x] == multiset(b[..k] + b[k + 1..])[x] {
      assert multiset(a)[x] == multiset([a[0]])[x] + multiset(a[1..])[x];
      assert multiset(b)[x] == multiset(b[..k])[x] + multiset([b[k]])[x] + multiset(b[k + 1..])[x];
    }
  }
}
