/** The order on names and the sort that every planner and normalizer step relies on.

    Rust compares `String`s by code point and `sort_by` is a stable library sort; here it is
    an insertion sort on keys.  What the rest of the project needs is at the end: sorting only
    permutes, it yields an ordered sequence, and that sequence is unique when keys are distinct. */
module Ordering {

  /** Lexicographic order on strings. */
  predicate Leq(a: string, b: string) {
    a == [] || (b != [] && (a[0] < b[0] || (a[0] == b[0] && Leq(a[1..], b[1..]))))
  }

  lemma {:induction false} LeqReflexive(a: string)
    ensures Leq(a, a)
  {
    if a != [] { LeqReflexive(a[1..]); }
  }

  lemma {:induction false} LeqTotal(a: string, b: string)
    ensures Leq(a, b) || Leq(b, a)
  {
    if a != [] && b != [] { LeqTotal(a[1..], b[1..]); }
  }

  lemma {:induction false} LeqAntisymmetric(a: string, b: string)
    requires Leq(a, b) && Leq(b, a)
    ensures a == b
  {
    if a != [] {
      LeqAntisymmetric(a[1..], b[1..]);
      assert a == [a[0]] + a[1..] && b == [b[0]] + b[1..];
    }
  }

  lemma {:induction false} LeqTransitive(a: string, b: string, c: string)
    requires Leq(a, b) && Leq(b, c)
    ensures Leq(a, c)
  {
    if a != [] && a[0] == b[0] == c[0] { LeqTransitive(a[1..], b[1..], c[1..]); }
  }

  /** Sort keys are a rank and two names, as in the plan's `(u8, &str, &str)` keys. */
  datatype Key = Key(rank: nat, major: string, minor: string)

  predicate KeyLeq(a: Key, b: Key) {
    a.rank < b.rank
    || (a.rank == b.rank
        && ((a.major != b.major && Leq(a.major, b.major))
            || (a.major == b.major && Leq(a.minor, b.minor))))
  }

  lemma KeyTotal(a: Key, b: Key)
    ensures KeyLeq(a, b) || KeyLeq(b, a)
  {
    LeqTotal(a.major, b.major);
    LeqTotal(a.minor, b.minor);
  }

  lemma KeyAntisymmetric(a: Key, b: Key)
    requires KeyLeq(a, b) && KeyLeq(b, a)
    ensures a == b
  {
    if a.major != b.major {
      LeqAntisymmetric(a.major, b.major);
    } else {
      LeqAntisymmetric(a.minor, b.minor);
    }
  }

  lemma KeyTransitive(a: Key, b: Key, c: Key)
    requires KeyLeq(a, b) && KeyLeq(b, c)
    ensures KeyLeq(a, c)
  {
    if a.rank == b.rank == c.rank {
      if a.major == b.major == c.major {
        LeqTransitive(a.minor, b.minor, c.minor);
      } else if a.major != b.major && b.major != c.major {
        LeqTransitive(a.major, b.major, c.major);
        if a.major == c.major { LeqAntisymmetric(a.major, b.major); }
      }
    }
  }

  /** A key made of one name. */
  function NameKey(name: string): Key {
    Key(0, name, "")
  }

  ghost predicate SortedBy<T>(key: T -> Key, xs: seq<T>) {
    forall i, j :: 0 <= i < j < |xs| ==> KeyLeq(key(xs[i]), key(xs[j]))
  }

  ghost predicate DistinctBy<T>(key: T -> Key, xs: seq<T>) {
    forall i, j :: 0 <= i < j < |xs| ==> key(xs[i]) != key(xs[j])
  }

  function InsertBy<T>(key: T -> Key, x: T, xs: seq<T>): seq<T> {
    if xs == [] || KeyLeq(key(x), key(xs[0])) then [x] + xs
    else [xs[0]] + InsertBy(key, x, xs[1..])
  }

  function SortBy<T>(key: T -> Key, xs: seq<T>): seq<T> {
    if xs == [] then [] else InsertBy(key, xs[0], SortBy(key, xs[1..]))
  }

  lemma {:induction false} InsertByPermutes<T>(key: T -> Key, x: T, xs: seq<T>)
    ensures multiset(InsertBy(key, x, xs)) == multiset{x} + multiset(xs)
    ensures |InsertBy(key, x, xs)| == |xs| + 1
  {
    if !(xs == [] || KeyLeq(key(x), key(xs[0]))) {
      InsertByPermutes(key, x, xs[1..]);
      assert xs == [xs[0]] + xs[1..];
    }
  }

  lemma {:induction false} InsertBySorts<T>(key: T -> Key, x: T, xs: seq<T>)
    requires SortedBy(key, xs)
    ensures SortedBy(key, InsertBy(key, x, xs))
  {
    var r := InsertBy(key, x, xs);
    if xs == [] {
    } else if KeyLeq(key(x), key(xs[0])) {
      forall j | 0 < j < |r| ensures KeyLeq(key(x), key(r[j])) {
        if j > 1 { KeyTransitive(key(x), key(xs[0]), key(xs[j - 1])); }
      }
    } else {
      KeyTotal(key(x), key(xs[0]));
      InsertBySorts(key, x, xs[1..]);
      var rest := InsertBy(key, x, xs[1..]);
      forall j | 0 < j < |r| ensures KeyLeq(key(xs[0]), key(r[j])) {
        InsertByPermutes(key, x, xs[1..]);
        assert r[j] == rest[j - 1] && rest[j - 1] in multiset(rest);
        assert rest[j - 1] == x || rest[j - 1] in xs[1..];
      }
    }
  }

  /** Sorting rearranges and nothing else. */
  lemma {:induction false} SortByPermutes<T>(key: T -> Key, xs: seq<T>)
    ensures multiset(SortBy(key, xs)) == multiset(xs)
    ensures |SortBy(key, xs)| == |xs|
  {
    if xs != [] {
      SortByPermutes(key, xs[1..]);
      InsertByPermutes(key, xs[0], SortBy(key, xs[1..]));
      assert xs == [xs[0]] + xs[1..];
    }
  }

  lemma {:induction false} SortBySorts<T>(key: T -> Key, xs: seq<T>)
    ensures SortedBy(key, SortBy(key, xs))
  {
    if xs != [] {
      SortBySorts(key, xs[1..]);
      InsertBySorts(key, xs[0], SortBy(key, xs[1..]));
    }
  }

  lemma SameElements<T>(xs: seq<T>, ys: seq<T>)
    requires multiset(xs) == multiset(ys)
    ensures forall x :: x in xs <==> x in ys
    ensures |xs| == |ys|
  {
    forall x ensures x in xs <==> x in ys {
      assert x in xs <==> x in multiset(xs);
      assert x in ys <==> x in multiset(ys);
    }
    assert |multiset(xs)| == |xs| && |multiset(ys)| == |ys|;
  }

  /** Sorting keeps the set of elements. */
  lemma SortByElements<T>(key: T -> Key, xs: seq<T>)
    ensures forall x :: x in SortBy(key, xs) <==> x in xs
    ensures |SortBy(key, xs)| == |xs|
  {
    SortByPermutes(key, xs);
    SameElements(SortBy(key, xs), xs);
  }

  /** An ordered sequence is left alone. */
  lemma {:induction false} SortByFixed<T>(key: T -> Key, xs: seq<T>)
    requires SortedBy(key, xs)
    ensures SortBy(key, xs) == xs
  {
    if xs != [] {
      SortByFixed(key, xs[1..]);
      assert xs == [xs[0]] + xs[1..];
    }
  }

  /** Two ordered arrangements of the same elements show the same keys in the same order. */
  lemma {:induction false} SortedKeysUnique<T>(key: T -> Key, xs: seq<T>, ys: seq<T>)
    requires SortedBy(key, xs) && SortedBy(key, ys)
    requires forall k :: KeyCount(key, xs, k) == KeyCount(key, ys, k)
    ensures |xs| == |ys|
    ensures forall i :: 0 <= i < |xs| ==> key(xs[i]) == key(ys[i])
  {
    if xs == [] {
      if ys != [] { assert false; }
    } else {
      KeyCountPositive(key, xs, 0);
      var i := KeyCountWitness(key, ys, key(xs[0]));
      KeyCountPositive(key, ys, 0);
      var j := KeyCountWitness(key, xs, key(ys[0]));
      KeyOrderHeads(key, xs, ys, i, j);
      forall k ensures KeyCount(key, xs[1..], k) == KeyCount(key, ys[1..], k) {
        assert KeyCount(key, xs, k) == KeyCount(key, ys, k);
      }
      SortedKeysUnique(key, xs[1..], ys[1..]);
      forall i | 0 <= i < |xs| ensures key(xs[i]) == key(ys[i]) {
        if i > 0 { assert xs[i] == xs[1..][i - 1] && ys[i] == ys[1..][i - 1]; }
      }
    }
  }

  lemma KeyOrderHeads<T>(key: T -> Key, xs: seq<T>, ys: seq<T>, i: nat, j: nat)
    requires SortedBy(key, xs) && SortedBy(key, ys)
    requires i < |ys| && j < |xs|
    requires key(ys[i]) == key(xs[0]) && key(xs[j]) == key(ys[0])
    ensures key(xs[0]) == key(ys[0])
  {
    if i > 0 && j > 0 { KeyAntisymmetric(key(xs[0]), key(ys[0])); }
  }

  function KeyCount<T>(key: T -> Key, xs: seq<T>, k: Key): nat {
    if xs == [] then 0 else (if key(xs[0]) == k then 1 else 0) + KeyCount(key, xs[1..], k)
  }

  lemma {:induction false} KeyCountPositive<T>(key: T -> Key, xs: seq<T>, i: nat)
    requires i < |xs|
    ensures KeyCount(key, xs, key(xs[i])) > 0
  {
    if i > 0 { KeyCountPositive(key, xs[1..], i - 1); }
  }

  lemma {:induction false} KeyCountWitness<T>(key: T -> Key, xs: seq<T>, k: Key) returns (i: nat)
    requires KeyCount(key, xs, k) > 0
    ensures i < |xs| && key(xs[i]) == k
  {
    if key(xs[0]) == k {
      i := 0;
    } else {
      i := KeyCountWitness(key, xs[1..], k);
      i := i + 1;
    }
  }

  lemma {:induction false} KeyCountInsert<T>(key: T -> Key, x: T, xs: seq<T>, k: Key)
    ensures KeyCount(key, InsertBy(key, x, xs), k) == (if key(x) == k then 1 else 0) + KeyCount(key, xs, k)
  {
    if !(xs == [] || KeyLeq(key(x), key(xs[0]))) {
      KeyCountInsert(key, x, xs[1..], k);
    }
  }

  lemma {:induction false} KeyCountSort<T>(key: T -> Key, xs: seq<T>, k: Key)
    ensures KeyCount(key, SortBy(key, xs), k) == KeyCount(key, xs, k)
  {
    if xs != [] {
      KeyCountSort(key, xs[1..], k);
      KeyCountInsert(key, xs[0], SortBy(key, xs[1..]), k);
    }
  }

  lemma {:induction false} KeyCountMultiset<T>(key: T -> Key, xs: seq<T>, ys: seq<T>, k: Key)
    requires multiset(xs) == multiset(ys)
    ensures KeyCount(key, xs, k) == KeyCount(key, ys, k)
  {
    SameElements(xs, ys);
    if xs != [] {
      assert xs[0] in ys;
      var i :| 0 <= i < |ys| && ys[i] == xs[0];
      var rest := ys[..i] + ys[i + 1..];
      assert ys == ys[..i] + [ys[i]] + ys[i + 1..];
      assert xs == [xs[0]] + xs[1..];
      assert multiset(xs[1..]) == multiset(rest) by {
        assert multiset(xs[1..]) == multiset(xs) - multiset{xs[0]};
        assert multiset(rest) == multiset(ys) - multiset{xs[0]};
      }
      KeyCountMultiset(key, xs[1..], rest, k);
      KeyCountAround(key, ys[..i], ys[i], ys[i + 1..], k);
    }
  }

  lemma {:induction false} KeyCountAround<T>(key: T -> Key, before: seq<T>, x: T, after: seq<T>, k: Key)
    ensures KeyCount(key, before + [x] + after, k)
         == (if key(x) == k then 1 else 0) + KeyCount(key, before + after, k)
  {
    if before == [] {
      assert before + [x] + after == [x] + after && before + after == after;
    } else {
      KeyCountAround(key, before[1..], x, after, k);
      assert (before + [x] + after)[1..] == before[1..] + [x] + after;
      assert (before + after)[1..] == before[1..] + after;
    }
  }

  /** Sorting forgets the order it was given: permuted inputs show the same keys, and when
      the keys are distinct the two results are equal. */
  lemma SortByCanonical<T>(key: T -> Key, xs: seq<T>, ys: seq<T>)
    requires multiset(xs) == multiset(ys)
    ensures |SortBy(key, xs)| == |SortBy(key, ys)|
    ensures forall i :: 0 <= i < |SortBy(key, xs)| ==> key(SortBy(key, xs)[i]) == key(SortBy(key, ys)[i])
    ensures DistinctBy(key, SortBy(key, xs)) ==> SortBy(key, xs) == SortBy(key, ys)
  {
    var a, b := SortBy(key, xs), SortBy(key, ys);
    SortBySorts(key, xs);
    SortBySorts(key, ys);
    SortByPermutes(key, xs);
    SortByPermutes(key, ys);
    forall k ensures KeyCount(key, a, k) == KeyCount(key, b, k) {
      KeyCountMultiset(key, a, b, k);
    }
    SortedKeysUnique(key, a, b);
    if DistinctBy(key, a) {
      SameElements(a, b);
      forall i | 0 <= i < |a| ensures a[i] == b[i] {
        assert a[i] in b;
        var j :| 0 <= j < |b| && b[j] == a[i];
        assert key(a[j]) == key(a[i]);
      }
    }
  }

  /** Ordered keys with no equal neighbours are pairwise distinct: the `windows(2)` check. */
  lemma AdjacentDistinct<T>(key: T -> Key, xs: seq<T>)
    requires SortedBy(key, xs)
    requires forall i, j :: 0 <= i && j == i + 1 < |xs| ==> key(xs[i]) != key(xs[j])
    ensures DistinctBy(key, xs)
  {
    forall i, j | 0 <= i < j < |xs| ensures key(xs[i]) != key(xs[j]) {
      if key(xs[i]) == key(xs[j]) {
        assert KeyLeq(key(xs[i]), key(xs[i + 1]));
        if i + 1 < j { assert KeyLeq(key(xs[i + 1]), key(xs[j])); }
        KeyAntisymmetric(key(xs[i]), key(xs[i + 1]));
      }
    }
  }
}
